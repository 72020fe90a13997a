/** Python built-ins the bot's core relies on, modelled on Dafny strings:
    the optional value, character classes, strip/upper/lower, str(int),
    int(str), str.split(sep), str.split() and "sep".join(...). */
module Base {

  datatype Option<+T> = None | Some(value: T) {
    function GetOr(default: T): T {
      if Some? then value else default
    }
  }

  // ---------------------------------------------------------------------
  // Characters
  // ---------------------------------------------------------------------

  /** Python's str.isspace() on one character: the characters str.strip()
      removes and str.split() splits on. */
  predicate IsSpace(c: char) {
    || ('\t' <= c <= '\r')
    || ('\U{1C}' <= c <= ' ')
    || c == '\U{85}' || c == '\U{A0}' || c == '\U{1680}'
    || ('\U{2000}' <= c <= '\U{200A}')
    || c == '\U{2028}' || c == '\U{2029}' || c == '\U{202F}' || c == '\U{205F}' || c == '\U{3000}'
  }

  /** Python's str.isdigit(), restricted to the ASCII digits. */
  predicate IsDigit(c: char) {
    '0' <= c <= '9'
  }

  predicate AllDigits(s: string) {
    forall i :: 0 <= i < |s| ==> IsDigit(s[i])
  }

  /** Upper-case mapping of one character: ASCII letters and the Cyrillic block. */
  function UpperChar(c: char): (u: char)
    ensures IsSpace(u) == IsSpace(c) && IsDigit(u) == IsDigit(c)
    ensures u == '.' <==> c == '.'
  {
    if 'a' <= c <= 'z' then (c as int - 32) as char
    else if '\U{430}' <= c <= '\U{44F}' then (c as int - 32) as char
    else if '\U{450}' <= c <= '\U{45F}' then (c as int - 80) as char
    else if c == '\U{491}' then '\U{490}'
    else c
  }

  /** Lower-case mapping of one character: ASCII letters and the Cyrillic block. */
  function LowerChar(c: char): (l: char)
    ensures IsSpace(l) == IsSpace(c)
  {
    if 'A' <= c <= 'Z' then (c as int + 32) as char
    else if '\U{410}' <= c <= '\U{42F}' then (c as int + 32) as char
    else if '\U{400}' <= c <= '\U{40F}' then (c as int + 80) as char
    else if c == '\U{490}' then '\U{491}'
    else c
  }

  /** str.upper() */
  function Upper(s: string): (r: string)
    ensures |r| == |s| && forall i :: 0 <= i < |s| ==> r[i] == UpperChar(s[i])
  {
    seq(|s|, i requires 0 <= i < |s| => UpperChar(s[i]))
  }

  /** str.lower() */
  function Lower(s: string): (r: string)
    ensures |r| == |s| && forall i :: 0 <= i < |s| ==> r[i] == LowerChar(s[i])
  {
    seq(|s|, i requires 0 <= i < |s| => LowerChar(s[i]))
  }

  lemma UpperIdempotent(s: string)
    ensures Upper(Upper(s)) == Upper(s)
  {
  }

  lemma LowerIdempotent(s: string)
    ensures Lower(Lower(s)) == Lower(s)
  {
  }

  /** Upper-casing first does not change the lower-cased text, so a
      comparison after lower() ignores case. */
  lemma LowerOfUpper(s: string)
    ensures Lower(Upper(s)) == Lower(s)
  {
    var a, b := Lower(Upper(s)), Lower(s);
    forall i | 0 <= i < |s| ensures a[i] == b[i] {
      LowerOfUpperChar(s[i]);
    }
  }

  /** Lower-casing first does not change the upper-cased text. */
  lemma UpperOfLower(s: string)
    ensures Upper(Lower(s)) == Upper(s)
  {
    var a, b := Upper(Lower(s)), Upper(s);
    forall i | 0 <= i < |s| ensures a[i] == b[i] {
      UpperOfLowerChar(s[i]);
    }
  }

  lemma LowerOfUpperChar(c: char)
    ensures LowerChar(UpperChar(c)) == LowerChar(c)
  {
  }

  lemma UpperOfLowerChar(c: char)
    ensures UpperChar(LowerChar(c)) == UpperChar(c)
  {
  }

  // ---------------------------------------------------------------------
  // strip()
  // ---------------------------------------------------------------------

  /** str.lstrip() */
  function StripLeft(s: string): (r: string)
    ensures |r| <= |s| && r == s[|s| - |r|..]
    ensures r == [] || !IsSpace(r[0])
    ensures forall i :: 0 <= i < |s| - |r| ==> IsSpace(s[i])
  {
    if s != [] && IsSpace(s[0]) then StripLeft(s[1..]) else s
  }

  /** str.rstrip() */
  function StripRight(s: string): (r: string)
    ensures |r| <= |s| && r == s[..|r|]
    ensures r == [] || !IsSpace(r[|r| - 1])
    ensures forall i :: |r| <= i < |s| ==> IsSpace(s[i])
  {
    if s != [] && IsSpace(s[|s| - 1]) then StripRight(s[..|s| - 1]) else s
  }

  /** str.strip(): the longest slice of s that neither starts nor ends with whitespace. */
  function Strip(s: string): (r: string)
    ensures |r| <= |s|
    ensures r == [] || (!IsSpace(r[0]) && !IsSpace(r[|r| - 1]))
  {
    var t := StripLeft(s);
    var r := StripRight(t);
    TrimSlice(s, t, r);
    r
  }

  /** strip() keeps the slice between the leading and the trailing
      whitespace, which it cuts and nothing else. */
  lemma StripIsSlice(s: string)
    ensures CutsSpace(s, |s| - |StripLeft(s)|, Strip(s))
  {
    TrimSlice(s, StripLeft(s), Strip(s));
  }

  /** r is the slice of s at i, and all of s around it is whitespace. */
  predicate CutsSpace(s: string, i: int, r: string) {
    && 0 <= i && i + |r| <= |s| && r == s[i..i + |r|]
    && (forall j :: 0 <= j < i ==> IsSpace(s[j]))
    && (forall j :: i + |r| <= j < |s| ==> IsSpace(s[j]))
  }

  /** Cutting whitespace from the front, then from the back, leaves a slice. */
  lemma TrimSlice(s: string, t: string, r: string)
    requires |t| <= |s| && t == s[|s| - |t|..]
    requires forall j :: 0 <= j < |s| - |t| ==> IsSpace(s[j])
    requires t == [] || !IsSpace(t[0])
    requires |r| <= |t| && r == t[..|r|]
    requires forall j :: |r| <= j < |t| ==> IsSpace(t[j])
    requires r == [] || !IsSpace(r[|r| - 1])
    ensures r == [] || (!IsSpace(r[0]) && !IsSpace(r[|r| - 1]))
    ensures CutsSpace(s, |s| - |t|, r)
  {
    var i := |s| - |t|;
    if r != [] {
      assert r[0] == t[0];
    }
    forall j | i + |r| <= j < |s| ensures IsSpace(s[j]) {
      assert s[j] == t[j - i];
    }
  }

  /** A string that neither starts nor ends with whitespace is its own strip(). */
  lemma StripNoOp(s: string)
    requires s == [] || (!IsSpace(s[0]) && !IsSpace(s[|s| - 1]))
    ensures Strip(s) == s
  {
  }

  lemma AppendAssoc<T>(a: seq<T>, b: seq<T>, c: seq<T>)
    ensures a + b + c == a + (b + c)
  {
  }

  lemma AppendEmpty<T>(a: seq<T>)
    ensures [] + a == a && a + [] == a
  {
  }

  /** s.strip().upper() is a fixed point of strip().upper(). */
  lemma NormalIdempotent(s: string)
    ensures Upper(Strip(Upper(Strip(s)))) == Upper(Strip(s))
  {
    var x := Strip(s);
    var u := Upper(x);
    assert u == [] || (!IsSpace(u[0]) && !IsSpace(u[|u| - 1]));
    StripNoOp(u);
    UpperIdempotent(x);
  }

  /** Text that neither strip() nor upper() changes: no white space, no
      lower-case letter. */
  predicate Plain(s: string) {
    forall i :: 0 <= i < |s| ==> !IsSpace(s[i]) && UpperChar(s[i]) == s[i]
  }

  lemma PlainNormal(s: string)
    requires Plain(s)
    ensures Upper(Strip(s)) == s
  {
    PlainStrip(s);
    PlainUpper(s);
  }

  lemma PlainStrip(s: string)
    requires Plain(s)
    ensures Strip(s) == s
  {
    if s != [] {
      assert !IsSpace(s[0]) && !IsSpace(s[|s| - 1]);
    }
    StripNoOp(s);
  }

  lemma PlainUpper(s: string)
    requires Plain(s)
    ensures Upper(s) == s
  {
    var u := Upper(s);
    assert forall i | 0 <= i < |s| :: u[i] == s[i];
  }

  // ---------------------------------------------------------------------
  // str(int) and int(str)
  // ---------------------------------------------------------------------

  function DigitChar(d: nat): (c: char)
    requires d < 10
    ensures IsDigit(c) && c as int - '0' as int == d
  {
    ('0' as int + d) as char
  }

  /** str(n) for a non-negative int: decimal digits, no leading zero. */
  function NatToString(n: nat): (r: string)
    ensures |r| >= 1 && AllDigits(r)
    ensures r[0] == '0' ==> r == "0"
    decreases n
  {
    if n < 10 then [DigitChar(n)] else NatToString(n / 10) + [DigitChar(n % 10)]
  }

  /** The number a string of decimal digits denotes (leading zeros allowed). */
  function DigitsValue(s: string): nat
    requires AllDigits(s)
  {
    if s == [] then 0 else DigitsValue(s[..|s| - 1]) * 10 + (s[|s| - 1] as int - '0' as int)
  }

  lemma {:induction false} DigitsValueOfNatToString(n: nat)
    ensures DigitsValue(NatToString(n)) == n
    decreases n
  {
    if n >= 10 {
      var s := NatToString(n);
      assert s[..|s| - 1] == NatToString(n / 10);
      DigitsValueOfNatToString(n / 10);
    }
  }

  /** A digit string without a leading zero is the str() of its value. */
  lemma {:induction false} NatToStringOfDigits(s: string)
    requires s != [] && AllDigits(s) && (s[0] == '0' ==> s == "0")
    ensures NatToString(DigitsValue(s)) == s
    decreases |s|
  {
    if |s| > 1 {
      var p := s[..|s| - 1];
      NatToStringOfDigits(p);
      var v := DigitsValue(p);
      assert p != "0";
      assert NatToString(0) == "0";
      assert v != 0;
      var d := s[|s| - 1] as int - '0' as int;
      assert (v * 10 + d) / 10 == v && (v * 10 + d) % 10 == d;
      assert NatToString(v * 10 + d) == NatToString(v) + [DigitChar(d)];
    }
  }

  /** str(i) for any int. */
  function IntToString(i: int): (r: string)
    ensures r != [] && !IsSpace(r[0]) && !IsSpace(r[|r| - 1])
  {
    if i < 0 then "-" + NatToString(-i) else NatToString(i)
  }

  /** The body of a Python integer literal as int() reads it: digits, with
      single underscores allowed between digits. */
  predicate DigitLiteral(t: string) {
    && |t| > 0 && IsDigit(t[0]) && IsDigit(t[|t| - 1])
    && (forall i :: 0 <= i < |t| ==> IsDigit(t[i]) || t[i] == '_')
    && (forall i :: 0 <= i < |t| - 1 ==> t[i] != '_' || t[i + 1] != '_')
  }

  function RemoveUnderscores(t: string): (r: string)
    ensures (forall i :: 0 <= i < |t| ==> IsDigit(t[i]) || t[i] == '_') ==> AllDigits(r)
    ensures AllDigits(t) ==> r == t
  {
    if t == [] then [] else (if t[0] == '_' then [] else [t[0]]) + RemoveUnderscores(t[1..])
  }

  /** The digits of a digit literal with the underscores left out. */
  function LiteralValue(t: string): nat
    requires DigitLiteral(t)
  {
    DigitsValue(RemoveUnderscores(t))
  }

  /** int(s) in base 10: surrounding whitespace is ignored, an optional sign,
      then a digit literal; anything else raises ValueError (None here). */
  function ParseInt(s: string): (r: Option<int>)
    ensures r.Some? ==> Strip(s) != []
    ensures r.Some? && Strip(s)[0] != '+' && Strip(s)[0] != '-' ==> DigitLiteral(Strip(s))
  {
    var t := Strip(s);
    if t != [] && (t[0] == '+' || t[0] == '-') then
      var body := t[1..];
      if DigitLiteral(body) then
        var v: int := LiteralValue(body);
        Some(if t[0] == '-' then -v else v)
      else None
    else if DigitLiteral(t) then Some(LiteralValue(t))
    else None
  }

  lemma NatToStringLiteral(n: nat)
    ensures DigitLiteral(NatToString(n)) && LiteralValue(NatToString(n)) == n
  {
    var s := NatToString(n);
    assert RemoveUnderscores(s) == s;
    DigitsValueOfNatToString(n);
  }

  /** int(str(i)) == i */
  lemma ParseIntOfIntToString(i: int)
    ensures ParseInt(IntToString(i)) == Some(i)
  {
    if i < 0 {
      assert IntToString(i) == "-" + NatToString(-i);
      ParseIntOfNegative(-i);
    } else {
      assert IntToString(i) == NatToString(i);
      ParseIntOfNat(i);
    }
  }

  lemma ParseIntOfNat(n: nat)
    ensures ParseInt(NatToString(n)) == Some(n)
  {
    var s := NatToString(n);
    StripNoOp(s);
    NatToStringLiteral(n);
    assert IsDigit(s[0]);
  }

  lemma ParseIntOfNegative(n: nat)
    ensures ParseInt("-" + NatToString(n)) == Some(-(n as int))
  {
    NatToStringLiteral(n);
    var s := "-" + NatToString(n);
    assert s[0] == '-' && s[1..] == NatToString(n);
    NegativeLiteral(s, n);
  }

  /** int() of a minus sign followed by a digit literal. */
  lemma NegativeLiteral(s: string, n: nat)
    requires |s| >= 2 && s[0] == '-' && DigitLiteral(s[1..]) && LiteralValue(s[1..]) == n
    ensures ParseInt(s) == Some(-(n as int))
  {
    assert s[|s| - 1] == s[1..][|s| - 2];
    StripNoOp(s);
  }

  /** `{n:02d}`: at least two digits, zero-padded. */
  function Pad2(n: nat): (r: string)
    ensures |r| >= 2 && AllDigits(r)
    ensures n < 100 ==> |r| == 2 && DigitsValue(r) == n
  {
    DigitsValueOfNatToString(n);
    if n < 10 then "0" + NatToString(n) else NatToString(n)
  }

  /** s * n for a string s */
  function Repeat(s: string, n: nat): (r: string)
    ensures |r| == |s| * n
  {
    if n == 0 then [] else s + Repeat(s, n - 1)
  }

  // ---------------------------------------------------------------------
  // Substrings, split and join
  // ---------------------------------------------------------------------

  /** Python's `sub in s` */
  predicate Contains(s: string, sub: string) {
    sub <= s || (s != [] && Contains(s[1..], sub))
  }

  function Count(s: string, c: char): nat {
    if s == [] then 0 else (if s[0] == c then 1 else 0) + Count(s[1..], c)
  }

  lemma {:induction false} CountPositive(s: string, c: char)
    ensures c in s <==> Count(s, c) > 0
  {
    if s != [] {
      CountPositive(s[1..], c);
      assert s == [s[0]] + s[1..];
    }
  }

  /** str.split(sep) for a one-character separator. */
  function SplitOn(s: string, sep: char): (r: seq<string>)
    ensures |r| == Count(s, sep) + 1
    ensures forall i :: 0 <= i < |r| ==> sep !in r[i]
  {
    if s == [] then [[]]
    else
      var rest := SplitOn(s[1..], sep);
      if s[0] == sep then [[]] + rest else [[s[0]] + rest[0]] + rest[1..]
  }

  /** [sep].join(pieces) */
  function JoinWith(pieces: seq<string>, sep: char): string {
    if |pieces| == 0 then []
    else if |pieces| == 1 then pieces[0]
    else pieces[0] + [sep] + JoinWith(pieces[1..], sep)
  }

  lemma {:induction false} JoinSplit(s: string, sep: char)
    ensures JoinWith(SplitOn(s, sep), sep) == s
  {
    if s != [] {
      var rest := SplitOn(s[1..], sep);
      JoinSplit(s[1..], sep);
      if s[0] != sep {
        var r := SplitOn(s, sep);
        assert r[1..] == rest[1..];
        if |rest| > 1 {
          assert rest == [rest[0]] + rest[1..];
          assert JoinWith(rest, sep) == rest[0] + [sep] + JoinWith(rest[1..], sep);
        }
      }
    }
  }

  lemma {:induction false} SplitJoin(pieces: seq<string>, sep: char)
    requires |pieces| >= 1
    requires forall i :: 0 <= i < |pieces| ==> sep !in pieces[i]
    ensures SplitOn(JoinWith(pieces, sep), sep) == pieces
    decreases |pieces|, |pieces[0]|
  {
    var p := pieces[0];
    if |pieces| == 1 {
      SplitLoneJoin(p, sep);
    } else if p == [] {
      var tail := pieces[1..];
      SplitJoin(tail, sep);
      assert JoinWith(pieces, sep) == [sep] + JoinWith(tail, sep);
      assert ([sep] + JoinWith(tail, sep))[1..] == JoinWith(tail, sep);
    } else {
      var shorter := [p[1..]] + pieces[1..];
      SplitJoin(shorter, sep);
      assert JoinWith(shorter, sep) == p[1..] + [sep] + JoinWith(pieces[1..], sep);
      var s := JoinWith(pieces, sep);
      assert s == [p[0]] + JoinWith(shorter, sep);
      assert s[1..] == JoinWith(shorter, sep);
      assert [p[0]] + p[1..] == p;
      assert pieces == [p] + shorter[1..];
    }
  }

  lemma {:induction false} SplitLoneJoin(p: string, sep: char)
    requires sep !in p
    ensures SplitOn(p, sep) == [p]
  {
    if p != [] {
      SplitLoneJoin(p[1..], sep);
      assert [p[0]] + p[1..] == p;
    }
  }

  /** Splitting at one separator splits the text on each side of it. */
  lemma {:induction false} SplitAppend(x: string, y: string, sep: char)
    ensures SplitOn(x + [sep] + y, sep) == SplitOn(x, sep) + SplitOn(y, sep)
  {
    var s := x + [sep] + y;
    if x == [] {
      assert s == [sep] + y && s[1..] == y;
    } else {
      PrefixConcat(x, [x[0]], [sep], y);
      assert s[0] == x[0] && s[1..] == x[1..] + [sep] + y;
      SplitAppend(x[1..], y, sep);
      var px, py := SplitOn(x[1..], sep), SplitOn(y, sep);
      if x[0] == sep {
        AppendAssoc([[]], px, py);
      } else {
        ConcatHead(px, py);
        AppendAssoc([[x[0]] + px[0]], px[1..], py);
      }
    }
  }

  lemma ConcatHead<T>(p: seq<T>, q: seq<T>)
    requires p != []
    ensures (p + q)[0] == p[0] && (p + q)[1..] == p[1..] + q
  {
  }

  /** A character absent from the text is absent from every piece. */
  lemma {:induction false} SplitAvoids(s: string, sep: char, c: char)
    requires c !in s
    ensures forall i :: 0 <= i < |SplitOn(s, sep)| ==> c !in SplitOn(s, sep)[i]
  {
    if s != [] {
      assert c !in s[1..] by {
        assert forall k :: 0 <= k < |s[1..]| ==> s[1..][k] == s[k + 1];
      }
      SplitAvoids(s[1..], sep, c);
    }
  }

  lemma RepeatStarts(s: string, n: nat)
    requires n > 0
    ensures s <= Repeat(s, n)
  {
  }

  lemma {:induction false} RepeatAvoids(s: string, n: nat, c: char)
    requires c !in s
    ensures c !in Repeat(s, n)
  {
    if n > 0 {
      RepeatAvoids(s, n - 1, c);
    }
  }

  // ---------------------------------------------------------------------
  // str.split() with no argument
  // ---------------------------------------------------------------------

  predicate IsWord(w: string) {
    w != [] && forall j :: 0 <= j < |w| ==> !IsSpace(w[j])
  }

  /** The longest prefix of t without whitespace. */
  function LeadingWord(t: string): (w: string)
    ensures w <= t && (forall j :: 0 <= j < |w| ==> !IsSpace(w[j]))
    ensures |w| == |t| || IsSpace(t[|w|])
    ensures t != [] && !IsSpace(t[0]) ==> |w| >= 1
  {
    if t == [] || IsSpace(t[0]) then [] else [t[0]] + LeadingWord(t[1..])
  }

  /** str.split(): the maximal runs of non-whitespace characters, in order. */
  function Words(s: string): (r: seq<string>)
    ensures forall i :: 0 <= i < |r| ==> IsWord(r[i])
    decreases |s|
  {
    if s == [] then []
    else if IsSpace(s[0]) then Words(s[1..])
    else
      var w := LeadingWord(s);
      [w] + Words(s[|w|..])
  }

  lemma {:induction false} LeadingWordNoSpace(w: string, rest: string)
    requires forall j :: 0 <= j < |w| ==> !IsSpace(w[j])
    requires rest == [] || IsSpace(rest[0])
    ensures LeadingWord(w + rest) == w
    decreases |w|
  {
    if w != [] {
      assert (w + rest)[1..] == w[1..] + rest;
      LeadingWordNoSpace(w[1..], rest);
      assert [w[0]] + w[1..] == w;
    } else if rest != [] {
      assert (w + rest)[0] == rest[0];
    }
  }

  lemma WordsSpaceHead(c: char, t: string)
    requires IsSpace(c)
    ensures Words([c] + t) == Words(t)
  {
    assert ([c] + t)[1..] == t;
  }

  lemma WordsWordHead(w: string, t: string)
    requires IsWord(w) && (t == [] || IsSpace(t[0]))
    ensures Words(w + t) == [w] + Words(t)
  {
    LeadingWordNoSpace(w, t);
    assert (w + t)[|w|..] == t;
  }

  /** Whitespace between two strings separates their words. */
  lemma {:induction false} WordsSplitAtSpace(a: string, c: char, b: string)
    requires IsSpace(c)
    ensures Words(a + [c] + b) == Words(a) + Words(b)
    decreases |a|
  {
    if a == [] {
      assert a + [c] + b == [c] + b;
      WordsSpaceHead(c, b);
    } else if IsSpace(a[0]) {
      WordsSplitAtSpace(a[1..], c, b);
      WordsSplitSpaceStep(a, c, b);
    } else {
      var w := LeadingWord(a);
      var rest := a[|w|..];
      WordsSplitAtSpace(rest, c, b);
      WordsSplitWordStep(a, w, rest, c, b);
    }
  }

  lemma WordsSplitSpaceStep(a: string, c: char, b: string)
    requires a != [] && IsSpace(a[0])
    requires Words(a[1..] + [c] + b) == Words(a[1..]) + Words(b)
    ensures Words(a + [c] + b) == Words(a) + Words(b)
  {
    PrefixConcat(a, [a[0]], [c], b);
    WordsSpaceHead(a[0], a[1..] + [c] + b);
    WordsSpaceHead(a[0], a[1..]);
  }

  lemma WordsSplitWordStep(a: string, w: string, rest: string, c: char, b: string)
    requires IsSpace(c) && a != [] && !IsSpace(a[0])
    requires w == LeadingWord(a) && rest == a[|w|..]
    requires Words(rest + [c] + b) == Words(rest) + Words(b)
    ensures Words(a + [c] + b) == Words(a) + Words(b)
  {
    PrefixConcat(a, w, [c], b);
    assert IsWord(w);
    assert rest == [] || IsSpace(rest[0]);
    WordsAfterWord(w, rest, c, b);
  }

  /** Splitting a sequence after a prefix of it. */
  lemma PrefixConcat<T>(a: seq<T>, w: seq<T>, m: seq<T>, b: seq<T>)
    requires w <= a
    ensures a == w + a[|w|..] && a + m + b == w + (a[|w|..] + m + b)
  {
  }

  lemma WordsAfterWord(w: string, rest: string, c: char, b: string)
    requires IsWord(w) && IsSpace(c) && (rest == [] || IsSpace(rest[0]))
    requires Words(rest + [c] + b) == Words(rest) + Words(b)
    ensures Words(w + (rest + [c] + b)) == Words(w + rest) + Words(b)
  {
    var tail := rest + [c] + b;
    if rest == [] {
      assert tail[0] == c;
    } else {
      assert tail[0] == rest[0];
    }
    WordsWordHead(w, tail);
    WordsWordHead(w, rest);
    AppendAssoc([w], Words(rest), Words(b));
  }

  lemma {:induction false} WordsOfWord(w: string)
    requires IsWord(w)
    ensures Words(w) == [w]
  {
    LeadingWordNoSpace(w, []);
    assert w + [] == w;
    assert w[|w|..] == [];
  }
}
