/**
 * The Python string operations the application calls: str.strip (with the
 * whitespace set of str.isspace), str.join, str.replace and str() of an
 * integer. Split, a one-character str.split, is not called by the
 * application; the lemmas use it to read the lines of a rendered turn.
 */
module Text {

  /** Python's str.isspace() on one character: the ASCII blanks and control
      separators, NEL, NO-BREAK SPACE and the Unicode space separators. */
  predicate IsSpace(c: char)
  {
    var k := c as int;
    (9 <= k <= 13) || (28 <= k <= 32) || k == 0x85 || k == 0xA0 || k == 0x1680
    || (0x2000 <= k <= 0x200A) || k == 0x2028 || k == 0x2029 || k == 0x202F
    || k == 0x205F || k == 0x3000
  }

  predicate AllSpace(s: string)
  {
    forall i :: 0 <= i < |s| ==> IsSpace(s[i])
  }

  /** Removes leading whitespace: what is removed is all whitespace and what
      remains is a suffix of s that does not start with whitespace. */
  function LStrip(s: string): (r: string)
    ensures |r| <= |s| && r == s[|s| - |r|..]
    ensures AllSpace(s[..|s| - |r|])
    ensures r == [] || !IsSpace(r[0])
  {
    if |s| > 0 && IsSpace(s[0]) then
      var t := s[1..];
      var r := LStrip(t);
      assert s[|s| - |r|..] == t[|t| - |r|..];
      assert s[..|s| - |r|] == [s[0]] + t[..|t| - |r|];
      AllSpaceConcat([s[0]], t[..|t| - |r|]);
      r
    else s
  }

  /** Removes trailing whitespace, symmetrically to LStrip. */
  function RStrip(s: string): (r: string)
    ensures |r| <= |s| && r == s[..|r|]
    ensures AllSpace(s[|r|..])
    ensures r == [] || !IsSpace(r[|r| - 1])
  {
    if |s| > 0 && IsSpace(s[|s| - 1]) then
      var t := s[..|s| - 1];
      var r := RStrip(t);
      assert s[..|r|] == t[..|r|];
      assert s[|r|..] == t[|r|..] + [s[|s| - 1]];
      AllSpaceConcat(t[|r|..], [s[|s| - 1]]);
      r
    else s
  }

  /** Python's str.strip() with no argument. The result is empty exactly
      when s is whitespace only; otherwise it neither starts nor ends with
      whitespace. StripKeepsMiddle adds that s is the result with only
      whitespace around it. */
  function Strip(s: string): (r: string)
    ensures r == [] <==> AllSpace(s)
    ensures r != [] ==> !IsSpace(r[0]) && !IsSpace(r[|r| - 1])
  {
    var l := LStrip(s);
    var r := RStrip(l);
    if r == [] then
      AllSpaceHalves(s, |s| - |l|);
      r
    else
      assert r[0] == l[0] && l[0] == s[|s| - |l|];
      r
  }

  /** Strip removes whitespace only, and only around the text: its result
      is a slice of s with nothing but whitespace before and after it. */
  lemma StripKeepsMiddle(s: string)
    ensures exists i, j :: 0 <= i <= j <= |s| && Strip(s) == s[i..j]
                           && AllSpace(s[..i]) && AllSpace(s[j..])
  {
    var l := LStrip(s);
    Surrounded(s, l, RStrip(l));
  }

  /** Only relates slices: when l is a suffix of s and r a prefix of l, and
      what they cut off is whitespace, r is a slice of s with whitespace
      on both sides. */
  lemma Surrounded(s: string, l: string, r: string)
    requires |l| <= |s| && l == s[|s| - |l|..] && AllSpace(s[..|s| - |l|])
    requires |r| <= |l| && r == l[..|r|] && AllSpace(l[|r|..])
    ensures exists i, j :: 0 <= i <= j <= |s| && r == s[i..j] && AllSpace(s[..i]) && AllSpace(s[j..])
  {
    var i := |s| - |l|;
    var j := i + |r|;
    assert s[j..] == l[|r|..];
    assert r == s[i..j];
  }

  lemma AllSpaceHalves(s: string, k: nat)
    requires k <= |s| && AllSpace(s[..k]) && AllSpace(s[k..])
    ensures AllSpace(s)
  {
    forall j | 0 <= j < |s| ensures IsSpace(s[j]) {
      if j < k {
        assert s[j] == s[..k][j];
      } else {
        assert s[j] == s[k..][j - k];
      }
    }
  }

  lemma AllSpaceConcat(a: string, b: string)
    requires AllSpace(a) && AllSpace(b)
    ensures AllSpace(a + b)
  {
    forall i | 0 <= i < |a + b|
      ensures IsSpace((a + b)[i])
    {
      if i < |a| {
        assert (a + b)[i] == a[i];
      } else {
        assert (a + b)[i] == b[i - |a|];
      }
    }
  }

  /** Stripping twice strips nothing more. */
  lemma StripIdempotent(s: string)
    ensures Strip(Strip(s)) == Strip(s)
  {
    var t := Strip(s);
    StripUnchanged(t);
  }

  /** A text that neither starts nor ends with whitespace is its own strip. */
  lemma StripUnchanged(t: string)
    requires t == [] || (!IsSpace(t[0]) && !IsSpace(t[|t| - 1]))
    ensures Strip(t) == t
  {
    assert LStrip(t) == t;
    assert RStrip(t) == t;
  }

  /** Python's sep.join(parts). */
  function Join(sep: string, parts: seq<string>): string
  {
    if |parts| == 0 then ""
    else if |parts| == 1 then parts[0]
    else parts[0] + sep + Join(sep, parts[1..])
  }

  /** Python's s.split(c) for a one-character separator: the pieces contain
      no separator and joining them back with c gives s. */
  function Split(s: string, c: char): (r: seq<string>)
    ensures |r| >= 1
    ensures forall i :: 0 <= i < |r| ==> c !in r[i]
    ensures Join([c], r) == s
  {
    if s == [] then [""]
    else
      var rest := Split(s[1..], c);
      if s[0] == c then
        assert Join([c], [""] + rest) == [c] + Join([c], rest);
        [""] + rest
      else
        var head := [s[0]] + rest[0];
        assert Join([c], [head] + rest[1..]) == [s[0]] + Join([c], rest);
        [head] + rest[1..]
  }

  lemma {:induction false} SplitNoSeparator(a: string, c: char)
    requires c !in a
    ensures Split(a, c) == [a]
  {
    if a != [] {
      SplitNoSeparator(a[1..], c);
    }
  }

  lemma {:induction false} SplitAt(a: string, b: string, c: char)
    requires c !in a
    ensures Split(a + [c] + b, c) == [a] + Split(b, c)
  {
    var t := a + [c] + b;
    if a == [] {
      assert t == [c] + b;
      assert t[1..] == b;
    } else {
      assert t[0] == a[0];
      assert t[1..] == a[1..] + [c] + b;
      SplitAt(a[1..], b, c);
      var rest := Split(t[1..], c);
      assert rest[0] == a[1..] && rest[1..] == Split(b, c);
      assert [t[0]] + rest[0] == a;
    }
  }

  /** The converse of Split's round trip: splitting a join of separator-free
      pieces gives back the pieces. */
  lemma {:induction false} SplitJoin(parts: seq<string>, c: char)
    requires |parts| >= 1
    requires forall i :: 0 <= i < |parts| ==> c !in parts[i]
    ensures Split(Join([c], parts), c) == parts
  {
    if |parts| == 1 {
      SplitNoSeparator(parts[0], c);
    } else {
      SplitJoin(parts[1..], c);
      SplitAt(parts[0], Join([c], parts[1..]), c);
      assert [parts[0]] + parts[1..] == parts;
    }
  }

  /** Each line followed by the character c, as a text built by appending
      "line\n" pieces reads. */
  function Terminated(lines: seq<string>, c: char): string
  {
    if lines == [] then "" else lines[0] + [c] + Terminated(lines[1..], c)
  }

  lemma {:induction false} TerminatedAppend(a: seq<string>, b: seq<string>, c: char)
    ensures Terminated(a + b, c) == Terminated(a, c) + Terminated(b, c)
  {
    if a == [] {
      assert a + b == b;
    } else {
      assert (a + b)[0] == a[0] && (a + b)[1..] == a[1..] + b;
      TerminatedAppend(a[1..], b, c);
    }
  }

  /** Terminating every line is joining them with a final empty piece. */
  lemma {:induction false} JoinTerminated(lines: seq<string>, c: char)
    ensures Join([c], lines + [""]) == Terminated(lines, c)
  {
    if lines != [] {
      assert (lines + [""])[0] == lines[0] && (lines + [""])[1..] == lines[1..] + [""];
      JoinTerminated(lines[1..], c);
    }
  }

  lemma {:induction false} JoinAppend(sep: string, a: seq<string>, b: seq<string>)
    requires a != [] && b != []
    ensures Join(sep, a + b) == Join(sep, a) + sep + Join(sep, b)
  {
    if |a| == 1 {
      assert (a + b)[0] == a[0] && (a + b)[1..] == b;
    } else {
      assert (a + b)[0] == a[0] && (a + b)[1..] == a[1..] + b;
      JoinAppend(sep, a[1..], b);
    }
  }

  /** Python's s.replace(pat, repl): every non-overlapping occurrence of pat,
      scanning left to right, is replaced; an empty pat inserts repl around
      every character. */
  function Replace(s: string, pat: string, repl: string): string
    decreases |s|
  {
    if pat == [] then
      if s == [] then repl else repl + [s[0]] + Replace(s[1..], pat, repl)
    else if pat <= s then repl + Replace(s[|pat|..], pat, repl)
    else if s == [] then []
    else [s[0]] + Replace(s[1..], pat, repl)
  }

  /** A text in which the first character of pat never occurs is left alone. */
  lemma {:induction false} ReplaceAbsent(s: string, pat: string, repl: string)
    requires pat != [] && pat[0] !in s
    ensures Replace(s, pat, repl) == s
  {
    if s != [] {
      assert !(pat <= s);
      ReplaceAbsent(s[1..], pat, repl);
    }
  }

  /** Replacing a pattern that occurs exactly once, where the pattern's last
      character appears nowhere before its own end and its first character
      nowhere after it: only that occurrence changes. */
  lemma {:induction false} ReplaceOnce(p: string, pat: string, s: string, repl: string)
    requires pat != []
    requires pat[|pat| - 1] !in p && pat[|pat| - 1] !in pat[..|pat| - 1]
    requires pat[0] !in s
    ensures Replace(p + pat + s, pat, repl) == p + repl + s
  {
    if p == [] {
      ReplaceOnceAtStart(pat, s, repl);
      assert p + pat + s == pat + s;
    } else {
      assert pat[|pat| - 1] !in p[1..] by {
        assert forall x :: x in p[1..] ==> x in p;
      }
      ReplaceOnce(p[1..], pat, s, repl);
      ReplaceOnceStep(p, pat, s, repl);
    }
  }

  /** The match at the very start is replaced and the rest is kept. */
  lemma ReplaceOnceAtStart(pat: string, s: string, repl: string)
    requires pat != [] && pat[0] !in s
    ensures Replace(pat + s, pat, repl) == repl + s
  {
    var t := pat + s;
    ReplaceMatch(t, pat, repl);
    assert t[|pat|..] == s;
    ReplaceAbsent(s, pat, repl);
  }

  /** One character before the match is kept. */
  lemma ReplaceOnceStep(p: string, pat: string, s: string, repl: string)
    requires pat != [] && p != []
    requires pat[|pat| - 1] !in p && pat[|pat| - 1] !in pat[..|pat| - 1]
    requires Replace(p[1..] + pat + s, pat, repl) == p[1..] + repl + s
    ensures Replace(p + pat + s, pat, repl) == p + repl + s
  {
    ConsSplit(p, pat, s);
    ConsSplit(p, repl, s);
    NoMatchBefore(p, pat, s);
    ReplaceSkip(p + pat + s, pat, repl);
  }

  /** Only regroups: taking the first character off a concatenation that
      starts with p. */
  lemma ConsSplit(p: string, x: string, y: string)
    requires p != []
    ensures (p + x + y)[0] == p[0]
    ensures (p + x + y)[1..] == p[1..] + x + y
    ensures p + x + y == [p[0]] + (p[1..] + x + y)
  {
  }

  /** A match at the start is replaced and scanning resumes after it. */
  lemma ReplaceMatch(t: string, pat: string, repl: string)
    requires pat != [] && pat <= t
    ensures Replace(t, pat, repl) == repl + Replace(t[|pat|..], pat, repl)
  {
  }

  /** Without a match at the start, the first character is kept. */
  lemma ReplaceSkip(t: string, pat: string, repl: string)
    requires pat != [] && t != [] && !(pat <= t)
    ensures Replace(t, pat, repl) == [t[0]] + Replace(t[1..], pat, repl)
  {
  }

  /** When the pattern's last character occurs neither in the non-empty
      text before it nor earlier in the pattern, the pattern cannot match at
      the start of that text. */
  lemma NoMatchBefore(p: string, pat: string, s: string)
    requires pat != [] && p != []
    requires pat[|pat| - 1] !in p && pat[|pat| - 1] !in pat[..|pat| - 1]
    ensures !(pat <= p + pat + s)
  {
    var t := p + pat + s;
    var k := |pat| - 1;
    if k < |p| {
      assert t[k] == p[k];
    } else {
      assert t[k] == pat[k - |p|];
      assert pat[k - |p|] == pat[..k][k - |p|];
    }
  }

  function DigitValue(c: char): nat
  {
    if '0' <= c <= '9' then (c as int) - ('0' as int) else 0
  }

  /** The character of a decimal digit, which DigitValue reads back. */
  function DigitChar(d: nat): (c: char)
    requires d < 10
    ensures '0' <= c <= '9'
    ensures DigitValue(c) == d
  {
    (('0' as int) + d) as char
  }

  /** Decimal digits of n, most significant first, no leading zeros. */
  function NatToString(n: nat): (s: string)
    ensures |s| >= 1
    ensures forall i :: 0 <= i < |s| ==> '0' <= s[i] <= '9'
    ensures s[0] == '0' ==> n == 0
  {
    if n < 10 then [DigitChar(n)] else NatToString(n / 10) + [DigitChar(n % 10)]
  }

  /** The value of a string of decimal digits. */
  function DecimalValue(s: string): nat
  {
    if s == [] then 0 else DecimalValue(s[..|s| - 1]) * 10 + DigitValue(s[|s| - 1])
  }

  /** NatToString is read back by DecimalValue. */
  lemma {:induction false} NatToStringRoundTrip(n: nat)
    ensures DecimalValue(NatToString(n)) == n
  {
    if n >= 10 {
      NatToStringRoundTrip(n / 10);
      var s := NatToString(n);
      assert s[..|s| - 1] == NatToString(n / 10);
    }
  }

  /** A non-empty run of decimal digits without a leading zero, or "0". */
  predicate Canonical(t: string)
  {
    |t| >= 1 && (forall i :: 0 <= i < |t| ==> '0' <= t[i] <= '9') && (t[0] == '0' ==> |t| == 1)
  }

  /** NatToString is the only canonical spelling of a number: any canonical
      digit string is NatToString of its value. */
  lemma {:induction false} CanonicalUnique(t: string)
    requires Canonical(t)
    ensures t == NatToString(DecimalValue(t))
  {
    var p := t[..|t| - 1];
    var c := t[|t| - 1];
    assert DigitChar(DigitValue(c)) == c;
    if |t| > 1 {
      assert p[0] == t[0];
      assert Canonical(p);
      CanonicalUnique(p);
      LeadingDigitPositive(p);
      assert t == p + [c];
    } else {
      assert DecimalValue(t) == DigitValue(c) by { assert p == []; }
    }
  }

  lemma {:induction false} LeadingDigitPositive(t: string)
    requires |t| >= 1 && '1' <= t[0] <= '9'
    ensures DecimalValue(t) >= 1
  {
    if |t| > 1 {
      var p := t[..|t| - 1];
      assert p[0] == t[0];
      LeadingDigitPositive(p);
    }
  }

  /** Python's str() of an int: a minus sign for negatives, then the digits
      of the absolute value with no leading zero. */
  function IntToString(i: int): (s: string)
    ensures '\n' !in s
    ensures i < 0 <==> (|s| > 0 && s[0] == '-')
    ensures var digits := if i < 0 then s[1..] else s;
            Canonical(digits) && (digits[0] == '0' ==> i == 0)
            && DecimalValue(digits) == if i < 0 then -i else i
  {
    var digits := if i < 0 then NatToString(-i) else NatToString(i);
    NatToStringRoundTrip(if i < 0 then -i else i);
    if i < 0 then "-" + digits else digits
  }
}
