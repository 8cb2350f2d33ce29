/**
 * String helpers shared by the Cloudflare codec and the ACME challenge source:
 * Python's slice `s[:-1]`, `str.endswith('.')`, and the two `str.replace`
 * calls the TXT codec makes (`';' -> '\;'` on decode, `'\;' -> ';'` on encode).
 */
module Text {

  /** Python `s[:-1]`: drop the last character; the empty string stays empty. */
  function DropLast(s: string): (r: string)
    ensures |s| > 0 ==> |r| == |s| - 1 && s == r + [s[|s| - 1]]
    ensures |s| == 0 ==> r == ""
  {
    if |s| == 0 then "" else s[..|s| - 1]
  }

  predicate EndsWithDot(s: string) {
    |s| > 0 && s[|s| - 1] == '.'
  }

  /** `DropLast` undoes appending one character. */
  lemma DropLastAppend(s: string, c: char)
    ensures DropLast(s + [c]) == s
  {
    assert (s + [c])[..|s|] == s;
  }

  /** `s.replace(';', '\;')`: every semicolon gains a backslash in front. */
  function Escape(s: string): (r: string)
    ensures |r| >= |s|
  {
    if s == [] then ""
    else (if s[0] == ';' then "\\;" else [s[0]]) + Escape(s[1..])
  }

  /**
   * `s.replace('\;', ';')`: Python scans left to right and replaces
   * non-overlapping occurrences, which this recursion follows.
   */
  function Unescape(s: string): (r: string)
    ensures |r| <= |s|
  {
    if |s| >= 2 && s[0] == '\\' && s[1] == ';' then ";" + Unescape(s[2..])
    else if s == [] then ""
    else [s[0]] + Unescape(s[1..])
  }

  /** Every semicolon of `s` has a backslash immediately before it. */
  predicate SemicolonsEscaped(s: string) {
    forall i :: 0 <= i < |s| && s[i] == ';' ==> 0 < i && s[i - 1] == '\\'
  }

  lemma {:induction false} EscapeHead(s: string)
    requires s != []
    ensures Escape(s) != [] && Escape(s)[0] != ';'
  {
  }

  /** Escape distributes over concatenation. */
  lemma {:induction false} EscapeAppend(a: string, b: string)
    ensures Escape(a + b) == Escape(a) + Escape(b)
  {
    if a == [] {
      assert a + b == b;
    } else {
      assert (a + b)[1..] == a[1..] + b;
      EscapeAppend(a[1..], b);
    }
  }

  /** Wire to canonical to wire is the identity on TXT content. */
  lemma {:induction false} UnescapeEscape(s: string)
    ensures Unescape(Escape(s)) == s
  {
    if s != [] {
      var rest := Escape(s[1..]);
      UnescapeEscape(s[1..]);
      if s[0] == ';' {
        assert Escape(s) == "\\;" + rest;
        assert Escape(s)[2..] == rest;
      } else {
        assert Escape(s) == [s[0]] + rest;
        assert Escape(s)[1..] == rest;
        if s[0] == '\\' && rest != [] {
          EscapeHead(s[1..]);
        }
      }
    }
  }

  /** Whatever `Escape` produces has every semicolon escaped. */
  lemma {:induction false} EscapeIsEscaped(s: string)
    ensures SemicolonsEscaped(Escape(s))
  {
    if s != [] {
      EscapeIsEscaped(s[1..]);
      var head := if s[0] == ';' then "\\;" else [s[0]];
      var rest := Escape(s[1..]);
      var e := head + rest;
      assert Escape(s) == e;
      if s[1..] != [] {
        EscapeHead(s[1..]);
      }
      forall i | 0 <= i < |e| && e[i] == ';'
        ensures 0 < i && e[i - 1] == '\\'
      {
        if i >= |head| {
          assert rest[i - |head|] == ';';
        }
      }
    }
  }

  /**
   * Canonical to wire to canonical is the identity exactly on the values
   * whose semicolons are all escaped.
   */
  lemma {:induction false} EscapeUnescape(s: string)
    ensures Escape(Unescape(s)) == s <==> SemicolonsEscaped(s)
  {
    if Escape(Unescape(s)) == s {
      EscapeIsEscaped(Unescape(s));
    }
    if SemicolonsEscaped(s) {
      EscapedRoundTrip(s);
    }
  }

  lemma {:induction false} EscapedRoundTrip(s: string)
    requires SemicolonsEscaped(s)
    ensures Escape(Unescape(s)) == s
  {
    if |s| >= 2 && s[0] == '\\' && s[1] == ';' {
      var t := s[2..];
      assert SemicolonsEscaped(t) by {
        forall j | 0 <= j < |t| && t[j] == ';'
          ensures 0 < j && t[j - 1] == '\\'
        {
          assert s[j + 2] == ';';
        }
      }
      EscapedRoundTrip(t);
      assert Unescape(s) == ";" + Unescape(t);
      assert ";" + Unescape(t) == [';'] + Unescape(t);
      EscapeAppend([';'], Unescape(t));
      assert s == "\\;" + t;
    } else if s != [] {
      assert s[0] != ';';
      var t := s[1..];
      assert SemicolonsEscaped(t) by {
        forall j | 0 <= j < |t| && t[j] == ';'
          ensures 0 < j && t[j - 1] == '\\'
        {
          assert s[j + 1] == ';';
        }
      }
      EscapedRoundTrip(t);
      assert Unescape(s) == [s[0]] + Unescape(t);
      EscapeAppend([s[0]], Unescape(t));
      assert s == [s[0]] + t;
    }
  }
}
