/** The pieces of `java.lang` string behaviour the models depend on: decimal
    rendering of integers, `Integer.parseInt`, and `String.split` with a
    one-character separator. */
module Strings {
  import opened Wrappers

  /** Bounds of Java's 32-bit `int`. */
  const IntMin: int := -0x8000_0000
  const IntMax: int := 0x7fff_ffff

  predicate IsDigit(c: char) {
    '0' <= c <= '9'
  }

  predicate AllDigits(s: string) {
    forall i | 0 <= i < |s| :: IsDigit(s[i])
  }

  function DigitValue(c: char): nat
    requires IsDigit(c)
  {
    (c as int) - ('0' as int)
  }

  function DigitChar(d: nat): (c: char)
    requires d < 10
    ensures IsDigit(c) && DigitValue(c) == d
  {
    (('0' as int) + d) as char
  }

  /** Shortest decimal numeral of `n`: only digits, no leading zero. */
  function NatToString(n: nat): (s: string)
    ensures |s| > 0 && AllDigits(s)
    ensures |s| > 1 ==> s[0] != '0'
    ensures n < 10 <==> |s| == 1
  {
    if n < 10 then [DigitChar(n)] else NatToString(n / 10) + [DigitChar(n % 10)]
  }

  /** Value of a numeral read most-significant digit first. */
  function DigitsValue(s: string): nat
    requires AllDigits(s)
  {
    if |s| == 0 then 0 else DigitsValue(s[..|s| - 1]) * 10 + DigitValue(s[|s| - 1])
  }

  lemma {:induction false} DigitsValueOfNatToString(n: nat)
    ensures DigitsValue(NatToString(n)) == n
  {
    if n >= 10 {
      var s := NatToString(n);
      DigitsValueOfNatToString(n / 10);
      assert s[..|s| - 1] == NatToString(n / 10);
    }
  }

  /** `String.valueOf(int)` and string concatenation of an `int`. */
  function IntToString(i: int): (s: string)
    ensures |s| > 0
    ensures i < 0 <==> s[0] == '-'
  {
    if i < 0 then "-" + NatToString(-i) else NatToString(i)
  }

  datatype NumberFormatError = NumberFormat(input: string)

  /** `Integer.parseInt(s)`: an optional sign, at least one decimal digit, and
      a value inside the 32-bit range; anything else throws. */
  function ParseInt(s: string): (r: Result<int, NumberFormatError>)
    ensures r.Success? ==> IntMin <= r.value <= IntMax
    ensures r.Failure? ==> r.error == NumberFormat(s)
    ensures r.Success? ==> |s| > 0 && (AllDigits(s) || (|s| > 1 && (s[0] == '-' || s[0] == '+') && AllDigits(s[1..])))
    ensures |s| > 0 && AllDigits(s) ==>
      r == if DigitsValue(s) <= IntMax then Success(DigitsValue(s)) else Failure(NumberFormat(s))
    ensures |s| > 1 && (s[0] == '-' || s[0] == '+') && AllDigits(s[1..]) ==>
      var v: int := if s[0] == '-' then -(DigitsValue(s[1..]) as int) else DigitsValue(s[1..]);
      r == if IntMin <= v <= IntMax then Success(v) else Failure(NumberFormat(s))
  {
    if |s| == 0 then Failure(NumberFormat(s))
    else
      var signed := s[0] == '-' || s[0] == '+';
      var digits := if signed then s[1..] else s;
      if |digits| == 0 || !AllDigits(digits) then Failure(NumberFormat(s))
      else
        var v: int := if s[0] == '-' then -(DigitsValue(digits) as int) else DigitsValue(digits);
        if v < IntMin || IntMax < v then Failure(NumberFormat(s)) else Success(v)
  }

  /** Every 32-bit integer survives a print-then-parse round trip. */
  lemma ParseIntOfIntToString(i: int)
    requires IntMin <= i <= IntMax
    ensures ParseInt(IntToString(i)) == Success(i)
  {
    var s := IntToString(i);
    if i < 0 {
      var n := NatToString(-i);
      assert s == "-" + n && s[0] == '-' && s[1..] == n;
      DigitsValueOfNatToString(-i);
      assert DigitsValue(s[1..]) == -i;
    } else {
      assert s == NatToString(i);
      assert IsDigit(s[0]);
      DigitsValueOfNatToString(i);
    }
  }

  /** The pieces of `s` between occurrences of `sep`, empty pieces included;
      there is always one more piece than separators. */
  function Pieces(s: string, sep: char): (r: seq<string>)
    ensures |r| >= 1
    ensures forall k | 0 <= k < |r| :: sep !in r[k]
    ensures sep !in s ==> r == [s]
  {
    if |s| == 0 then [""]
    else
      var rest := Pieces(s[1..], sep);
      if s[0] == sep then [""] + rest
      else
        assert sep !in s ==> s == [s[0]] + s[1..];
        [[s[0]] + rest[0]] + rest[1..]
  }

  /** Glues pieces back together with `sep` between neighbours. */
  function Join(ps: seq<string>, sep: char): string
    requires |ps| >= 1
  {
    if |ps| == 1 then ps[0] else ps[0] + [sep] + Join(ps[1..], sep)
  }

  lemma {:induction false} JoinPieces(s: string, sep: char)
    ensures Join(Pieces(s, sep), sep) == s
  {
    if |s| > 0 {
      var rest := Pieces(s[1..], sep);
      JoinPieces(s[1..], sep);
      if s[0] != sep {
        var r := Pieces(s, sep);
        assert r[0] == [s[0]] + rest[0];
        if |rest| > 1 {
          assert r[1..] == rest[1..];
        }
      }
    }
  }

  /** Drops empty strings from the end, as `String.split` does. */
  function StripTrailingEmpty(ps: seq<string>): (r: seq<string>)
    ensures r <= ps
    ensures forall k | |r| <= k < |ps| :: ps[k] == ""
    ensures r == [] || r[|r| - 1] != ""
  {
    if |ps| == 0 || ps[|ps| - 1] != "" then ps else StripTrailingEmpty(ps[..|ps| - 1])
  }

  /** `s.split(sep)` for a one-character, non-special separator: the input
      itself when `sep` does not occur (even when it is empty), otherwise the
      pieces with trailing empty strings removed, possibly leaving none. */
  function JavaSplit(s: string, sep: char): (r: seq<string>)
    ensures forall k | 0 <= k < |r| :: sep !in r[k]
    ensures sep !in s ==> r == [s]
    ensures sep in s ==> r == [] || r[|r| - 1] != ""
    ensures sep in s ==> r <= Pieces(s, sep)
    ensures sep in s ==> forall k | |r| <= k < |Pieces(s, sep)| :: Pieces(s, sep)[k] == ""
  {
    if sep !in s then [s] else StripTrailingEmpty(Pieces(s, sep))
  }

  /** A `key=value` line with a non-empty value splits into exactly the key and
      the value. */
  lemma SplitKeyValue(key: string, value: string, sep: char)
    requires sep !in key && sep !in value && value != ""
    ensures JavaSplit(key + [sep] + value, sep) == [key, value]
  {
    var s := key + [sep] + value;
    assert s[|key|] == sep;
    PiecesKeyValue(key, value, sep);
  }

  lemma {:induction false} PiecesKeyValue(key: string, value: string, sep: char)
    requires sep !in key && sep !in value
    ensures Pieces(key + [sep] + value, sep) == [key, value]
  {
    var s := key + [sep] + value;
    if |key| == 0 {
      assert s[1..] == value;
    } else {
      assert s[1..] == key[1..] + [sep] + value;
      PiecesKeyValue(key[1..], value, sep);
      assert [s[0]] + key[1..] == key;
    }
  }
}
