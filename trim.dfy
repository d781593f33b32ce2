/** String.prototype.trim of ECMA-262: strip WhiteSpace and LineTerminator code points
    from both ends of a string. */
module StringTrim {

  /** WhiteSpace (TAB, VT, FF, ZWNBSP, and every Space_Separator code point) and
      LineTerminator (LF, CR, LS, PS). */
  predicate IsWhiteSpace(c: char) {
    || c == '\t' || c == '\U{000B}' || c == '\U{000C}' || c == ' '
    || c == '\U{00A0}' || c == '\U{FEFF}' || c == '\U{1680}'
    || ('\U{2000}' <= c <= '\U{200A}')
    || c == '\U{202F}' || c == '\U{205F}' || c == '\U{3000}'
    || c == '\n' || c == '\r' || c == '\U{2028}' || c == '\U{2029}'
  }

  ghost predicate AllWhiteSpace(s: string) {
    forall i :: 0 <= i < |s| ==> IsWhiteSpace(s[i])
  }

  /** Neither end of `s` is white space (vacuously true of ""). */
  ghost predicate Unpadded(s: string) {
    s == "" || (!IsWhiteSpace(s[0]) && !IsWhiteSpace(s[|s| - 1]))
  }

  function TrimStart(s: string): string {
    if |s| > 0 && IsWhiteSpace(s[0]) then TrimStart(s[1..]) else s
  }

  function TrimEnd(s: string): string {
    if |s| > 0 && IsWhiteSpace(s[|s| - 1]) then TrimEnd(s[..|s| - 1]) else s
  }

  function Trim(s: string): string {
    TrimEnd(TrimStart(s))
  }

  lemma {:induction false} TrimStartSplits(s: string)
    ensures exists a :: AllWhiteSpace(a) && s == a + TrimStart(s)
    ensures TrimStart(s) == "" || !IsWhiteSpace(TrimStart(s)[0])
  {
    if |s| > 0 && IsWhiteSpace(s[0]) {
      TrimStartSplits(s[1..]);
      var a :| AllWhiteSpace(a) && s[1..] == a + TrimStart(s[1..]);
      assert AllWhiteSpace([s[0]] + a);
      assert s == ([s[0]] + a) + TrimStart(s);
    } else {
      assert AllWhiteSpace([]) && s == [] + s;
    }
  }

  lemma {:induction false} TrimEndSplits(s: string)
    ensures exists b :: AllWhiteSpace(b) && s == TrimEnd(s) + b
    ensures TrimEnd(s) == "" || !IsWhiteSpace(TrimEnd(s)[|TrimEnd(s)| - 1])
    ensures |TrimEnd(s)| > 0 ==> TrimEnd(s)[0] == s[0]
  {
    if |s| > 0 && IsWhiteSpace(s[|s| - 1]) {
      var init := s[..|s| - 1];
      TrimEndSplits(init);
      var b :| AllWhiteSpace(b) && init == TrimEnd(init) + b;
      assert AllWhiteSpace(b + [s[|s| - 1]]);
      assert s == init + [s[|s| - 1]];
      assert s == TrimEnd(s) + (b + [s[|s| - 1]]);
    } else {
      assert AllWhiteSpace([]) && s == s + [];
    }
  }

  /** Trim(s) is what is left of `s` after removing a white-space prefix and a
      white-space suffix, and neither of its ends is white space. */
  lemma TrimSplits(s: string)
    ensures exists a, b :: AllWhiteSpace(a) && AllWhiteSpace(b) && s == a + Trim(s) + b
    ensures Unpadded(Trim(s))
  {
    TrimStartSplits(s);
    var t := TrimStart(s);
    var a :| AllWhiteSpace(a) && s == a + t;
    TrimEndSplits(t);
    var b :| AllWhiteSpace(b) && t == TrimEnd(t) + b;
    assert s == a + Trim(s) + b;
  }

  lemma {:induction false} TrimStartOfPadded(a: string, t: string)
    requires AllWhiteSpace(a)
    requires t == "" || !IsWhiteSpace(t[0])
    ensures TrimStart(a + t) == t
  {
    if a != [] {
      assert (a + t)[1..] == a[1..] + t;
      TrimStartOfPadded(a[1..], t);
    } else {
      assert a + t == t;
    }
  }

  lemma {:induction false} TrimEndOfPadded(t: string, b: string)
    requires AllWhiteSpace(b)
    requires t == "" || !IsWhiteSpace(t[|t| - 1])
    ensures TrimEnd(t + b) == t
  {
    if b != [] {
      var s := t + b;
      assert s[..|s| - 1] == t + b[..|b| - 1];
      TrimEndOfPadded(t, b[..|b| - 1]);
    } else {
      assert t + b == t;
    }
  }

  /** The converse of TrimSplits: padding an unpadded string with white space on
      either side and trimming gives the string back. Together the two lemmas say that
      Trim(s) is the unique unpadded core of `s`. */
  lemma TrimOfPadded(a: string, r: string, b: string)
    requires AllWhiteSpace(a) && AllWhiteSpace(b)
    requires Unpadded(r)
    ensures Trim(a + r + b) == r
  {
    if r == "" {
      assert a + r + b == a + b;
      assert AllWhiteSpace(a + b);
      TrimStartOfPadded(a + b, "");
      assert a + b + "" == a + b;
    } else {
      assert a + r + b == a + (r + b);
      TrimStartOfPadded(a, r + b);
      TrimEndOfPadded(r, b);
    }
  }

  /** Trimming twice is trimming once. */
  lemma TrimIdempotent(s: string)
    ensures Trim(Trim(s)) == Trim(s)
  {
    TrimSplits(s);
    TrimOfPadded("", Trim(s), "");
    assert "" + Trim(s) + "" == Trim(s);
  }

  /** A string trims to "" exactly when it is made of white space only. */
  lemma TrimEmpty(s: string)
    ensures Trim(s) == "" <==> AllWhiteSpace(s)
  {
    TrimSplits(s);
    var a, b :| AllWhiteSpace(a) && AllWhiteSpace(b) && s == a + Trim(s) + b;
    if Trim(s) == "" {
      assert s == a + b;
    }
    if AllWhiteSpace(s) {
      TrimOfPadded(s, "", "");
      assert s + "" + "" == s;
    }
  }
}
