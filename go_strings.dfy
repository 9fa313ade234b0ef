/** The parts of Go's `strings`, `bytes`, `unicode` and `fmt` packages that the
    modelled code relies on, over Dafny strings (sequences of Unicode scalar values). */
module GoStrings {

  /** `unicode.IsSpace`: the ASCII white space characters, NEL, NO-BREAK SPACE and
      the characters of Unicode category Z. */
  predicate IsSpace(c: char) {
    c == ' ' || c == '\t' || c == '\n' || c == '\U{000B}' || c == '\U{000C}' || c == '\r'
    || c == '\U{0085}' || c == '\U{00A0}' || c == '\U{1680}'
    || ('\U{2000}' <= c <= '\U{200A}')
    || c == '\U{2028}' || c == '\U{2029}' || c == '\U{202F}' || c == '\U{205F}' || c == '\U{3000}'
  }

  /** No white space at either end. */
  predicate IsTrimmed(s: string) {
    s == [] || (!IsSpace(s[0]) && !IsSpace(s[|s| - 1]))
  }

  predicate AllSpace(s: string) {
    forall i :: 0 <= i < |s| ==> IsSpace(s[i])
  }

  /** The first position from `i` on that does not hold white space, or `|s|`. */
  function SkipSpaceFrom(s: string, i: nat): (k: nat)
    requires i <= |s|
    ensures i <= k <= |s|
    decreases |s| - i
  {
    if i < |s| && IsSpace(s[i]) then SkipSpaceFrom(s, i + 1) else i
  }

  /** The end of `s[lo..j]` once white space at its right end is cut off. */
  function SkipSpaceBack(s: string, lo: nat, j: nat): (k: nat)
    requires lo <= j <= |s|
    ensures lo <= k <= j
    decreases j
  {
    if lo < j && IsSpace(s[j - 1]) then SkipSpaceBack(s, lo, j - 1) else j
  }

  lemma {:induction false} SkipSpaceFromFacts(s: string, i: nat)
    requires i <= |s|
    ensures var k := SkipSpaceFrom(s, i);
      (forall m :: i <= m < k ==> IsSpace(s[m])) && (k == |s| || !IsSpace(s[k]))
    decreases |s| - i
  {
    if i < |s| && IsSpace(s[i]) {
      SkipSpaceFromFacts(s, i + 1);
    }
  }

  lemma {:induction false} SkipSpaceBackFacts(s: string, lo: nat, j: nat)
    requires lo <= j <= |s|
    ensures var k := SkipSpaceBack(s, lo, j);
      (forall m :: k <= m < j ==> IsSpace(s[m])) && (k == lo || !IsSpace(s[k - 1]))
    decreases j
  {
    if lo < j && IsSpace(s[j - 1]) {
      SkipSpaceBackFacts(s, lo, j - 1);
    }
  }

  /** `strings.TrimSpace` (and `bytes.TrimSpace`): the result is the part of `s`
      left after removing white space at both ends. */
  function TrimSpace(s: string): (r: string)
  {
    var lo := SkipSpaceFrom(s, 0);
    s[lo..SkipSpaceBack(s, lo, |s|)]
  }

  /** What TrimSpace returns is trimmed. */
  lemma TrimSpaceIsTrimmed(s: string)
    ensures IsTrimmed(TrimSpace(s))
  {
    var lo := SkipSpaceFrom(s, 0);
    var hi := SkipSpaceBack(s, lo, |s|);
    SkipSpaceFromFacts(s, 0);
    SkipSpaceBackFacts(s, lo, |s|);
    if lo < hi {
      assert TrimSpace(s)[0] == s[lo];
      assert TrimSpace(s)[hi - lo - 1] == s[hi - 1];
    }
  }

  /** What TrimSpace returns: a trimmed infix of the input, and only white space was cut. */
  lemma TrimSpaceIsInfix(s: string)
    ensures var r := TrimSpace(s);
      IsTrimmed(r)
      && exists i :: 0 <= i <= |s| - |r| && r == s[i..i + |r|]
                     && AllSpace(s[..i]) && AllSpace(s[i + |r|..])
  {
    var lo := SkipSpaceFrom(s, 0);
    var hi := SkipSpaceBack(s, lo, |s|);
    TrimSpaceIsTrimmed(s);
    SkipSpaceFromFacts(s, 0);
    SkipSpaceBackFacts(s, lo, |s|);
    assert TrimSpace(s) == s[lo..lo + (hi - lo)];
    assert AllSpace(s[..lo]) by {
      forall m | 0 <= m < lo ensures IsSpace(s[..lo][m]) { assert s[..lo][m] == s[m]; }
    }
    assert AllSpace(s[hi..]) by {
      forall m | 0 <= m < |s| - hi ensures IsSpace(s[hi..][m]) { assert s[hi..][m] == s[hi + m]; }
    }
  }

  lemma TrimSpaceOfTrimmed(s: string)
    requires IsTrimmed(s)
    ensures TrimSpace(s) == s
  {
    if s != [] {
      assert SkipSpaceFrom(s, 0) == 0;
      assert SkipSpaceBack(s, 0, |s|) == |s|;
      assert s[0..|s|] == s;
    }
  }

  lemma TrimSpaceIdempotent(s: string)
    ensures TrimSpace(TrimSpace(s)) == TrimSpace(s)
  {
    TrimSpaceIsInfix(s);
    TrimSpaceOfTrimmed(TrimSpace(s));
  }

  predicate HasPrefix(s: string, p: string) {
    |p| <= |s| && s[..|p|] == p
  }

  predicate HasSuffix(s: string, p: string) {
    |p| <= |s| && s[|s| - |p|..] == p
  }

  /** `strings.TrimPrefix`. */
  function TrimPrefix(s: string, p: string): (r: string)
    ensures HasPrefix(s, p) ==> s == p + r
    ensures !HasPrefix(s, p) ==> r == s
  {
    if HasPrefix(s, p) then s[|p|..] else s
  }

  /** `strings.ReplaceAll` with a one-character pattern and replacement. */
  function ReplaceChar(s: string, from: char, to: char): (r: string)
    ensures |r| == |s|
    ensures forall i :: 0 <= i < |s| ==> r[i] == (if s[i] == from then to else s[i])
  {
    seq(|s|, i requires 0 <= i < |s| => if s[i] == from then to else s[i])
  }

  /** `t` occurs in `s` at position `j`. */
  predicate OccursAt(s: string, t: string, j: int) {
    0 <= j <= |s| - |t| && s[j..j + |t|] == t
  }

  /** The first position from `k` on at which `t` occurs in `s`, or -1. */
  function IndexFrom(s: string, t: string, k: nat): (r: int)
    ensures r == -1 || k <= r <= |s| - |t|
    decreases |s| - k
  {
    if k + |t| > |s| then -1
    else if s[k..k + |t|] == t then k
    else IndexFrom(s, t, k + 1)
  }

  /** `strings.Index`: the first position at which `t` occurs in `s`, or -1 (see
      IndexOfIsFirst). */
  function IndexOf(s: string, t: string): (r: int)
    ensures r == -1 || 0 <= r <= |s| - |t|
  {
    IndexFrom(s, t, 0)
  }

  lemma {:induction false} IndexFromIsFirst(s: string, t: string, k: nat)
    ensures IndexFrom(s, t, k) >= 0 ==> OccursAt(s, t, IndexFrom(s, t, k))
    ensures IndexFrom(s, t, k) == -1 ==> forall j :: k <= j ==> !OccursAt(s, t, j)
    ensures IndexFrom(s, t, k) >= 0 ==> forall j :: k <= j < IndexFrom(s, t, k) ==> !OccursAt(s, t, j)
    decreases |s| - k
  {
    if k + |t| <= |s| && s[k..k + |t|] != t {
      IndexFromIsFirst(s, t, k + 1);
    }
  }

  /** `IndexOf` finds the first occurrence, and -1 means there is none. */
  lemma IndexOfIsFirst(s: string, t: string)
    ensures IndexOf(s, t) >= 0 ==> OccursAt(s, t, IndexOf(s, t))
    ensures IndexOf(s, t) == -1 ==> forall j :: !OccursAt(s, t, j)
    ensures IndexOf(s, t) >= 0 ==> forall j :: 0 <= j < IndexOf(s, t) ==> !OccursAt(s, t, j)
  {
    IndexFromIsFirst(s, t, 0);
  }

  /** `strings.Contains`. */
  predicate Contains(s: string, t: string) {
    IndexOf(s, t) >= 0
  }

  /** `strings.Split` with a one-character separator: the maximal separator-free pieces. */
  function Split(s: string, sep: char): (ws: seq<string>)
    ensures |ws| >= 1
    decreases |s|
  {
    if |s| == 0 then [""]
    else
      var rest := Split(s[1..], sep);
      if s[0] == sep then [""] + rest else [[s[0]] + rest[0]] + rest[1..]
  }

  /** `strings.Join` with a one-character separator. */
  function Join(ws: seq<string>, sep: char): string
    decreases |ws|
  {
    if |ws| == 0 then ""
    else if |ws| == 1 then ws[0]
    else ws[0] + [sep] + Join(ws[1..], sep)
  }

  lemma {:induction false} SplitPiecesHaveNoSeparator(s: string, sep: char)
    ensures forall i :: 0 <= i < |Split(s, sep)| ==> sep !in Split(s, sep)[i]
    decreases |s|
  {
    if |s| > 0 {
      SplitPiecesHaveNoSeparator(s[1..], sep);
    }
  }

  /** Joining the pieces of a split with the same separator gives back the input. */
  lemma {:induction false} JoinSplit(s: string, sep: char)
    ensures Join(Split(s, sep), sep) == s
    decreases |s|
  {
    if |s| > 0 {
      var rest := Split(s[1..], sep);
      JoinSplit(s[1..], sep);
      if s[0] == sep {
        assert Split(s, sep) == [""] + rest;
      } else {
        var ws := [[s[0]] + rest[0]] + rest[1..];
        if |rest| == 1 {
          assert ws == [[s[0]] + rest[0]];
        } else {
          assert ws[1..] == rest[1..];
          assert Join(rest, sep) == rest[0] + [sep] + Join(rest[1..], sep);
        }
      }
    }
  }

  lemma {:induction false} SplitWithoutSeparator(s: string, sep: char)
    requires sep !in s
    ensures Split(s, sep) == [s]
    decreases |s|
  {
    if |s| > 0 {
      SplitWithoutSeparator(s[1..], sep);
      assert [s[0]] + s[1..] == s;
    }
  }

  /** Splitting at the first separator: a separator-free head is one piece of its own. */
  lemma {:induction false} SplitAtSeparator(a: string, sep: char, b: string)
    requires sep !in a
    ensures Split(a + [sep] + b, sep) == [a] + Split(b, sep)
    decreases |a|
  {
    if |a| == 0 {
      assert a + [sep] + b == [sep] + b;
      assert ([sep] + b)[1..] == b;
    } else {
      var s := a + [sep] + b;
      assert s[0] == a[0] && s[1..] == a[1..] + [sep] + b;
      SplitAtSeparator(a[1..], sep, b);
      assert [a[0]] + a[1..] == a;
    }
  }

  /** Splitting a join of separator-free pieces gives the pieces back. */
  lemma {:induction false} SplitJoin(ws: seq<string>, sep: char)
    requires |ws| >= 1
    requires forall i :: 0 <= i < |ws| ==> sep !in ws[i]
    ensures Split(Join(ws, sep), sep) == ws
    decreases |ws|
  {
    if |ws| == 1 {
      SplitWithoutSeparator(ws[0], sep);
    } else {
      SplitJoin(ws[1..], sep);
      SplitAtSeparator(ws[0], sep, Join(ws[1..], sep));
      assert [ws[0]] + ws[1..] == ws;
    }
  }

  function DigitChar(d: nat): (c: char)
    requires d < 10
    ensures IsDigit(c) && c as int - '0' as int == d
  {
    ('0' as int + d) as char
  }

  predicate IsDigit(c: char) {
    '0' <= c <= '9'
  }

  /** The decimal rendering of a natural number, most significant digit first. */
  function NatToDecimal(n: nat): (s: string)
    ensures |s| >= 1
    ensures forall i :: 0 <= i < |s| ==> IsDigit(s[i])
  {
    if n < 10 then [DigitChar(n)] else NatToDecimal(n / 10) + [DigitChar(n % 10)]
  }

  /** `fmt.Sprintf("%d", i)`. */
  function IntToDecimal(i: int): (s: string)
    ensures |s| >= 1
  {
    if i < 0 then "-" + NatToDecimal(-i) else NatToDecimal(i)
  }

  /** The value of a string of decimal digits. */
  function DecimalValue(s: string): int
    requires forall i :: 0 <= i < |s| ==> IsDigit(s[i])
    decreases |s|
  {
    if s == [] then 0
    else 10 * DecimalValue(s[..|s| - 1]) + (s[|s| - 1] as int - '0' as int)
  }

  /** The value of a string as `strconv.Atoi` reads the strings `%d` produced. */
  function ParseDecimal(s: string): int
    requires |s| >= 1
    requires forall i :: 1 <= i < |s| ==> IsDigit(s[i])
    requires s[0] == '-' || IsDigit(s[0])
  {
    if s[0] == '-' then -DecimalValue(s[1..]) else DecimalValue(s)
  }

  lemma {:induction false} NatToDecimalValue(n: nat)
    ensures DecimalValue(NatToDecimal(n)) == n
  {
    if n >= 10 {
      var s := NatToDecimal(n);
      NatToDecimalValue(n / 10);
      assert s[..|s| - 1] == NatToDecimal(n / 10);
    }
  }

  /** Decimal rendering loses nothing: reading it back gives the number. */
  lemma IntToDecimalRoundTrip(i: int)
    ensures var s := IntToDecimal(i);
      (s[0] == '-' || IsDigit(s[0])) && (forall k :: 1 <= k < |s| ==> IsDigit(s[k]))
      && ParseDecimal(s) == i
  {
    var s := IntToDecimal(i);
    if i < 0 {
      NatToDecimalValue(-i);
      assert s[1..] == NatToDecimal(-i);
    } else {
      NatToDecimalValue(i);
      assert s == NatToDecimal(i);
    }
  }

  /** Byte values. */
  type Byte = b: int | 0 <= b < 256

  predicate IsLowerHexDigit(c: char) {
    ('0' <= c <= '9') || ('a' <= c <= 'f')
  }

  /** `hex.EncodeToString`: two lowercase hex digits per byte, high nibble first. */
  function HexEncode(bs: seq<Byte>): (h: string)
    ensures |h| == 2 * |bs|
    ensures forall i :: 0 <= i < |h| ==> IsLowerHexDigit(h[i])
  {
    if bs == [] then ""
    else ["0123456789abcdef"[bs[0] / 16], "0123456789abcdef"[bs[0] % 16]] + HexEncode(bs[1..])
  }

  function LowerAscii(c: char): char {
    if 'A' <= c <= 'Z' then (c as int + 32) as char else c
  }

  function UpperAscii(c: char): char {
    if 'a' <= c <= 'z' then (c as int - 32) as char else c
  }

  function LowerAsciiString(s: string): (r: string)
    ensures |r| == |s|
    ensures forall i :: 0 <= i < |s| ==> r[i] == LowerAscii(s[i])
  {
    seq(|s|, i requires 0 <= i < |s| => LowerAscii(s[i]))
  }
}
