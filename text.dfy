/**
 * The few Python string operations the game module relies on, restricted to
 * the ASCII range: `str.lower`, `str.split()` with no separator, `str.zfill`
 * and `str(int)`.
 */
module Text {

  // ---------------------------------------------------------------------
  // Characters
  // ---------------------------------------------------------------------

  /** ASCII whitespace as `str.split()` and `str.isspace()` see it. */
  predicate IsSpace(c: char) {
    ('\t' <= c <= '\r') || ('\U{1C}' <= c <= '\U{1F}') || c == ' '
  }

  predicate IsUpper(c: char) { 'A' <= c <= 'Z' }

  function LowerChar(c: char): char {
    if IsUpper(c) then (c as int + 32) as char else c
  }

  /** `s.lower()` on the ASCII range. */
  function Lower(s: string): string {
    seq(|s|, i requires 0 <= i < |s| => LowerChar(s[i]))
  }

  predicate NoSpace(s: string) { forall i :: 0 <= i < |s| ==> !IsSpace(s[i]) }
  predicate AllSpace(s: string) { forall i :: 0 <= i < |s| ==> IsSpace(s[i]) }
  predicate NoUpper(s: string) { forall i :: 0 <= i < |s| ==> !IsUpper(s[i]) }

  /** Lower-casing neither creates nor removes whitespace, and leaves no capital. */
  lemma {:induction false} LowerFacts(s: string)
    ensures |Lower(s)| == |s|
    ensures forall i :: 0 <= i < |s| ==> (IsSpace(Lower(s)[i]) <==> IsSpace(s[i]))
    ensures NoUpper(Lower(s))
    ensures Lower(Lower(s)) == Lower(s)
  {
  }

  /** Lower-casing commutes with slicing. */
  lemma {:induction false} LowerSlice(s: string, i: nat, j: nat)
    requires i <= j <= |s|
    ensures Lower(s)[i..j] == Lower(s[i..j])
  {
  }

  /** Lower-casing keeps every span of whitespace, and every span free of it. */
  lemma {:induction false} LowerSpan(s: string, i: nat, j: nat)
    requires i <= j <= |s|
    ensures AllSpace(Lower(s)[i..j]) == AllSpace(s[i..j])
    ensures NoSpace(Lower(s)[i..j]) == NoSpace(s[i..j])
  {
    LowerSlice(s, i, j);
    LowerFacts(s[i..j]);
  }

  // ---------------------------------------------------------------------
  // str.split()
  // ---------------------------------------------------------------------

  /** How many whitespace characters the input starts with. */
  function LeadingSpace(s: string): (n: nat)
    ensures n <= |s| && AllSpace(s[..n])
    ensures n == |s| || !IsSpace(s[n])
  {
    if s != [] && IsSpace(s[0]) then 1 + LeadingSpace(s[1..]) else 0
  }

  /** How many non-whitespace characters the input starts with. */
  function WordLength(s: string): (n: nat)
    ensures n <= |s| && NoSpace(s[..n])
    ensures n == |s| || IsSpace(s[n])
  {
    if s == [] || IsSpace(s[0]) then 0 else 1 + WordLength(s[1..])
  }

  /** The run of non-whitespace characters a string starts with ends at the first whitespace. */
  lemma {:induction false} WordLengthAt(s: string, m: nat)
    requires m <= |s| && NoSpace(s[..m]) && (m == |s| || IsSpace(s[m]))
    ensures WordLength(s) == m
    decreases m
  {
    if m > 0 {
      assert !IsSpace(s[..m][0]);
      var t := s[1..];
      var head, tail := s[..m], t[..m - 1];
      assert NoSpace(tail) by {
        forall k | 0 <= k < m - 1 ensures !IsSpace(tail[k]) { assert head[k + 1] == tail[k]; }
      }
      WordLengthAt(t, m - 1);
    }
  }

  /** A word as `split()` returns it: non-empty and free of whitespace. */
  predicate IsWord(w: string) { w != [] && NoSpace(w) }

  /** `s.split()`: the maximal runs of non-whitespace characters, in order. */
  function Split(s: string): seq<string>
    decreases |s|
  {
    var t := s[LeadingSpace(s)..];
    if t == [] then [] else
      var n := WordLength(t);
      [t[..n]] + Split(t[n..])
  }

  function Concat(ws: seq<string>): string {
    if ws == [] then [] else ws[0] + Concat(ws[1..])
  }

  lemma ConcatCons(w: string, ws: seq<string>)
    ensures Concat([w] + ws) == w + Concat(ws)
  {
    assert ([w] + ws)[1..] == ws;
  }

  /** The input with every whitespace character removed. */
  function RemoveSpace(s: string): string {
    if s == [] then [] else (if IsSpace(s[0]) then [] else [s[0]]) + RemoveSpace(s[1..])
  }

  lemma {:induction false} RemoveSpaceAppend(a: string, b: string)
    ensures RemoveSpace(a + b) == RemoveSpace(a) + RemoveSpace(b)
    decreases |a|
  {
    if a == [] {
      assert a + b == b;
    } else {
      var head := if IsSpace(a[0]) then [] else [a[0]];
      assert (a + b)[0] == a[0];
      assert (a + b)[1..] == a[1..] + b;
      RemoveSpaceAppend(a[1..], b);
      calc {
        RemoveSpace(a + b);
        head + RemoveSpace(a[1..] + b);
        head + (RemoveSpace(a[1..]) + RemoveSpace(b));
        (head + RemoveSpace(a[1..])) + RemoveSpace(b);
      }
    }
  }

  lemma {:induction false} RemoveSpaceOf(s: string)
    ensures AllSpace(s) ==> RemoveSpace(s) == []
    ensures NoSpace(s) ==> RemoveSpace(s) == s
    decreases |s|
  {
    if s != [] {
      RemoveSpaceOf(s[1..]);
      assert AllSpace(s) ==> AllSpace(s[1..]);
      assert NoSpace(s) ==> NoSpace(s[1..]);
    }
  }

  /** A slice of a suffix is a slice of the whole. */
  lemma SliceOfSuffix(s: string, i: nat, n: nat)
    requires i + n <= |s|
    ensures s[i..][..n] == s[i..i + n] && s[i..][n..] == s[i + n..]
  {
  }

  lemma Halves(s: string, n: nat)
    requires n <= |s|
    ensures s == s[..n] + s[n..]
  {
  }

  /**
   * One step of `split()` on an input that holds a non-whitespace character:
   * skip the leading whitespace, take the word `t[..n]` that follows, and
   * split the rest `t[n..]`.
   */
  lemma {:induction false} SplitAt(s: string, t: string, n: nat)
    requires t == s[LeadingSpace(s)..] && t != [] && n == WordLength(t)
    ensures 0 < n <= |t| && IsWord(t[..n]) && Split(s) == [t[..n]] + Split(t[n..])
  {
    assert !IsSpace(t[0]);
  }

  /**
   * `split()` finds no word exactly in an all-whitespace input; otherwise its
   * first word is the first maximal run of non-whitespace characters.
   */
  lemma {:induction false} FirstWord(s: string)
    ensures Split(s) == [] <==> AllSpace(s)
    ensures Split(s) != [] ==>
      exists i, j :: 0 <= i < j <= |s| && AllSpace(s[..i]) && NoSpace(s[i..j]) &&
        (j == |s| || IsSpace(s[j])) && Split(s)[0] == s[i..j]
  {
    var i := LeadingSpace(s);
    var t := s[i..];
    if t != [] {
      var n := WordLength(t);
      SplitAt(s, t, n);
      SliceOfSuffix(s, i, n);
      assert !AllSpace(s) by { assert !IsSpace(s[i]); }
      assert i + n == |s| || IsSpace(s[i + n]) by { if n < |t| { assert t[n] == s[i + n]; } }
    } else {
      assert s[..i] == s;
    }
  }

  /** Put back together, the words give the input with its whitespace taken out. */
  lemma {:induction false} SplitConcat(s: string)
    ensures Concat(Split(s)) == RemoveSpace(s)
    decreases |s|
  {
    var i := LeadingSpace(s);
    var t := s[i..];
    Halves(s, i);
    RemoveSpaceAppend(s[..i], t);
    RemoveSpaceOf(s[..i]);
    assert RemoveSpace(s) == RemoveSpace(t);
    if t != [] {
      var n := WordLength(t);
      SplitAt(s, t, n);
      var w, rest := t[..n], t[n..];
      Halves(t, n);
      RemoveSpaceAppend(w, rest);
      RemoveSpaceOf(w);
      SplitConcat(rest);
      ConcatCons(w, Split(rest));
      calc {
        RemoveSpace(s);
        RemoveSpace(w) + RemoveSpace(rest);
        w + Concat(Split(rest));
        Concat([w] + Split(rest));
        Concat(Split(s));
      }
    }
  }

  // ---------------------------------------------------------------------
  // Decimal digits, str(int) and str.zfill
  // ---------------------------------------------------------------------

  predicate IsDigit(c: char) { '0' <= c <= '9' }
  predicate AllDigits(s: string) { forall i :: 0 <= i < |s| ==> IsDigit(s[i]) }

  function DigitValue(c: char): nat
    requires IsDigit(c)
  {
    c as int - '0' as int
  }

  function DigitChar(d: nat): (c: char)
    requires d < 10
    ensures IsDigit(c) && DigitValue(c) == d
  {
    ('0' as int + d) as char
  }

  /** The number a string of decimal digits denotes (the partner of `NatStr`). */
  function DecimalValue(s: string): nat
    requires AllDigits(s)
    decreases |s|
  {
    if s == [] then 0 else 10 * DecimalValue(s[..|s| - 1]) + DigitValue(s[|s| - 1])
  }

  /** `str(n)` for a non-negative integer: its shortest decimal spelling. */
  function NatStr(n: nat): (s: string)
    ensures AllDigits(s) && DecimalValue(s) == n
    ensures |s| == 1 <==> n < 10
    ensures |s| <= 2 <==> n < 100
    ensures |s| > 1 ==> s[0] != '0'
    decreases n
  {
    if n < 10 then [DigitChar(n)] else NatStr(n / 10) + [DigitChar(n % 10)]
  }

  /** `str(i)` for any integer. */
  function IntStr(i: int): string {
    if i < 0 then "-" + NatStr(-i) else NatStr(i)
  }

  function Zeros(n: nat): (z: string)
    ensures |z| == n && forall i :: 0 <= i < n ==> z[i] == '0'
  {
    seq(n, _ => '0')
  }

  /**
   * `s.zfill(width)`: left-pads with '0' up to `width` characters, putting
   * the padding after a leading sign; a string already that long is kept.
   */
  function ZFill(s: string, width: int): (r: string)
    ensures |r| == if |s| >= width then |s| else width
  {
    if |s| >= width then s
    else if |s| > 0 && (s[0] == '+' || s[0] == '-') then [s[0]] + Zeros(width - |s|) + s[1..]
    else Zeros(width - |s|) + s
  }

  lemma {:induction false} ZerosValue(k: nat)
    ensures AllDigits(Zeros(k)) && DecimalValue(Zeros(k)) == 0
  {
    if k > 0 {
      assert Zeros(k)[..k - 1] == Zeros(k - 1);
      ZerosValue(k - 1);
    }
  }

  /** Leading zeros do not change the value of a digit string. */
  lemma {:induction false} LeadingZeros(k: nat, s: string)
    requires AllDigits(s)
    ensures AllDigits(Zeros(k) + s) && DecimalValue(Zeros(k) + s) == DecimalValue(s)
    decreases |s|
  {
    if s == [] {
      assert Zeros(k) + s == Zeros(k);
      ZerosValue(k);
    } else {
      var z := Zeros(k) + s;
      assert z[..|z| - 1] == Zeros(k) + s[..|s| - 1];
      LeadingZeros(k, s[..|s| - 1]);
    }
  }

  /** Zero-filling a digit string keeps it a digit string of the same value. */
  lemma {:induction false} ZFillDigits(s: string, width: int)
    requires AllDigits(s)
    ensures AllDigits(ZFill(s, width)) && DecimalValue(ZFill(s, width)) == DecimalValue(s)
  {
    if |s| < width {
      assert s != [] ==> IsDigit(s[0]);
      LeadingZeros(width - |s|, s);
    }
  }
}
