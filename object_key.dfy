/**
 Identity keys of detections. The frame loop names every detection by the
 string `label + "_" + str(x1) + "_" + str(y1)`; this module models Python's
 decimal rendering of an integer, the key built from it, and a parser that
 recovers name and corner from a key, which shows that the key identifies
 its (label, x1, y1) triple uniquely, whatever characters the name holds.
 */
module ObjectKey {

  datatype Option<T> = None | Some(value: T)

  /** The three parts a key is built from. */
  datatype KeyParts = KeyParts(name: string, x1: int, y1: int)

  predicate IsDigit(c: char) {
    '0' <= c <= '9'
  }

  predicate AllDigits(s: string) {
    forall i :: 0 <= i < |s| ==> IsDigit(s[i])
  }

  function DigitChar(d: nat): (c: char)
    requires d < 10
    ensures IsDigit(c)
  {
    (48 + d) as char
  }

  function DigitValue(c: char): (d: nat)
    requires IsDigit(c)
    ensures d < 10
  {
    c as int - 48
  }

  /** Decimal digits of `n`, most significant first, without leading zeros. */
  function NatToString(n: nat): string
    decreases n
  {
    if n < 10 then [DigitChar(n)] else NatToString(n / 10) + [DigitChar(n % 10)]
  }

  /** Python's `str` on an int: a minus sign for negatives, then the digits. */
  function IntToString(i: int): string {
    if i < 0 then "-" + NatToString(-i) else NatToString(i)
  }

  /** Value of a digit string, read from its last (least significant) digit. */
  function DigitsValue(s: string): nat
    requires AllDigits(s)
  {
    if s == [] then 0 else DigitsValue(s[..|s| - 1]) * 10 + DigitValue(s[|s| - 1])
  }

  /** Reads an optionally negative decimal integer; None on anything else. */
  function ParseInt(s: string): Option<int> {
    if |s| > 1 && s[0] == '-' && AllDigits(s[1..]) then Some(-(DigitsValue(s[1..]) as int))
    else if |s| > 0 && AllDigits(s) then Some(DigitsValue(s))
    else None
  }

  /** The identity key of a detection with this name and top-left corner. */
  function Key(name: string, x1: int, y1: int): string {
    name + "_" + IntToString(x1) + "_" + IntToString(y1)
  }

  /** Position of the last occurrence of `c` in `s`, if any. */
  function LastIndexOf(s: string, c: char): (r: Option<nat>)
    ensures r.Some? ==> r.value < |s| && s[r.value] == c && c !in s[r.value + 1..]
    ensures r.None? ==> c !in s
  {
    if s == [] then None
    else if s[|s| - 1] == c then Some(|s| - 1)
    else
      var r := LastIndexOf(s[..|s| - 1], c);
      assert s == s[..|s| - 1] + [s[|s| - 1]];
      r
  }

  /**
   Splits a key at its last two underscores: the label is everything before
   them (so it may contain underscores itself), the corner the two integers
   after them.
   */
  function ParseKey(k: string): Option<KeyParts> {
    match LastIndexOf(k, '_')
    case None => None
    case Some(j) =>
      var front := k[..j];
      match LastIndexOf(front, '_')
      case None => None
      case Some(i) =>
        match (ParseInt(front[i + 1..]), ParseInt(k[j + 1..]))
        case (Some(x1), Some(y1)) => Some(KeyParts(front[..i], x1, y1))
        case _ => None
  }

  lemma {:induction false} NatToStringDigits(n: nat)
    ensures |NatToString(n)| > 0 && AllDigits(NatToString(n))
    ensures DigitsValue(NatToString(n)) == n
    decreases n
  {
    var s := NatToString(n);
    if n >= 10 {
      NatToStringDigits(n / 10);
      var p := NatToString(n / 10);
      assert s == p + [DigitChar(n % 10)];
      assert s[..|s| - 1] == p;
      assert forall i :: 0 <= i < |s| ==> IsDigit(s[i]) by {
        forall i | 0 <= i < |s| ensures IsDigit(s[i]) {
          if i < |p| { assert s[i] == p[i]; }
        }
      }
    }
  }

  /** The rendering of an integer reads back as that integer. */
  lemma {:induction false} IntToStringRoundTrip(i: int)
    ensures ParseInt(IntToString(i)) == Some(i)
    ensures |IntToString(i)| > 0 && '_' !in IntToString(i)
  {
    var m: nat := if i < 0 then -i else i;
    NatToStringDigits(m);
    var d := NatToString(m);
    assert forall k :: 0 <= k < |d| ==> d[k] != '_' by {
      assert forall k :: 0 <= k < |d| ==> IsDigit(d[k]);
    }
    if i < 0 {
      var s := "-" + d;
      assert s[0] == '-' && s[1..] == d;
      assert s == IntToString(i);
    } else {
      assert !IsDigit('-');
      assert d[0] != '-' by { assert IsDigit(d[0]); }
    }
  }

  /** The last occurrence of `c` in `a + [c] + b` is the one shown, when `b` holds none. */
  lemma {:induction false} LastIndexOfSplit(a: string, c: char, b: string)
    requires c !in b
    ensures LastIndexOf(a + [c] + b, c) == Some(|a|)
    decreases |b|
  {
    var s := a + [c] + b;
    if b != [] {
      var b' := b[..|b| - 1];
      assert s[..|s| - 1] == a + [c] + b';
      assert s[|s| - 1] == b[|b| - 1];
      assert forall k :: 0 <= k < |b'| ==> b'[k] == b[k];
      LastIndexOfSplit(a, c, b');
    }
  }

  /** A key parses back into the name and corner it was built from. */
  lemma KeyRoundTrip(name: string, x1: int, y1: int)
    ensures ParseKey(Key(name, x1, y1)) == Some(KeyParts(name, x1, y1))
  {
    var sx, sy := IntToString(x1), IntToString(y1);
    IntToStringRoundTrip(x1);
    IntToStringRoundTrip(y1);
    var front := name + "_" + sx;
    var k := Key(name, x1, y1);
    assert k == front + ['_'] + sy;
    LastIndexOfSplit(front, '_', sy);
    assert front == name + ['_'] + sx;
    LastIndexOfSplit(name, '_', sx);
    var j := |front|;
    assert k[..j] == front;
    assert k[j + 1..] == sy;
    assert front[|name| + 1..] == sx;
    assert front[..|name|] == name;
  }

  /** Distinct (label, x1, y1) triples never share a key. */
  lemma KeyInjective(n1: string, x1: int, y1: int, n2: string, x2: int, y2: int)
    requires Key(n1, x1, y1) == Key(n2, x2, y2)
    ensures n1 == n2 && x1 == x2 && y1 == y2
  {
    KeyRoundTrip(n1, x1, y1);
    KeyRoundTrip(n2, x2, y2);
  }
}
