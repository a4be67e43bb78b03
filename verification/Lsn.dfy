/**
PostgreSQL log sequence numbers (cdc_ordering.py, contracts.py): two hexadecimal
words of up to eight digits separated by a slash, PostgreSQL documentation
section 8.20, pg_lsn Type.
*/
module Lsn {
  import opened Common

  const WORD := 0x1_0000_0000

  function DigitValue(c: char): Option<nat>
  {
    if '0' <= c <= '9' then Some(c as int - '0' as int)
    else if 'A' <= c <= 'F' then Some(c as int - 'A' as int + 10)
    else if 'a' <= c <= 'f' then Some(c as int - 'a' as int + 10)
    else None
  }

  predicate IsHex(s: string)
  {
    1 <= |s| <= 8 && forall i :: 0 <= i < |s| ==> DigitValue(s[i]).Some?
  }

  function HexValue(s: string): nat
    requires forall i :: 0 <= i < |s| ==> DigitValue(s[i]).Some?
  {
    if s == "" then 0 else HexValue(s[..|s| - 1]) * 16 + DigitValue(s[|s| - 1]).value
  }

  /** The position of the first slash, or the length. */
  function Slash(s: string): (i: nat)
    ensures i <= |s| && (i < |s| ==> s[i] == '/')
    ensures forall j :: 0 <= j < i ==> s[j] != '/'
  {
    if s == "" || s[0] == '/' then 0 else
      assert forall j :: 1 <= j < |s| ==> s[j] == s[1..][j - 1];
      1 + Slash(s[1..])
  }

  /** The two words, as the comparison of source positions reads them. */
  function Words(s: string): Option<(nat, nat)>
  {
    var i := Slash(s);
    if i < |s| && IsHex(s[..i]) && IsHex(s[i + 1..]) then Some((HexValue(s[..i]), HexValue(s[i + 1..])))
    else None
  }

  /** `parse_lsn`: (high << 32) | low. */
  function Parse(s: string): Option<nat>
  {
    match Words(s)
    case None => None
    case Some((high, low)) => Some(high * WORD + low)
  }

  /** The position a text denotes, or -1. */
  function Position(s: string): int
  {
    match Parse(s) case None => -1 case Some(n) => n
  }

  function DigitOf(n: nat): char
    requires n < 16
  {
    if n < 10 then ('0' as int + n) as char else ('A' as int + n - 10) as char
  }

  function Hex(n: nat): string
  {
    if n < 16 then [DigitOf(n)] else Hex(n / 16) + [DigitOf(n % 16)]
  }

  function Format(n: nat): string { Hex(n / WORD) + "/" + Hex(n % WORD) }

  /** `normalize_lsn`. */
  function Normalize(s: string): Option<string>
  {
    match Parse(s) case None => None case Some(n) => Some(Format(n))
  }

  function Power16(k: nat): nat { if k == 0 then 1 else 16 * Power16(k - 1) }

  lemma {:induction false} HexRoundTrip(n: nat)
    ensures forall i :: 0 <= i < |Hex(n)| ==> DigitValue(Hex(n)[i]).Some?
    ensures HexValue(Hex(n)) == n
    ensures forall i :: 0 <= i < |Hex(n)| ==> Hex(n)[i] != '/'
  {
    if n < 16 {
      assert Hex(n)[..0] == "";
    } else {
      HexRoundTrip(n / 16);
      assert Hex(n)[..|Hex(n)| - 1] == Hex(n / 16);
    }
  }

  lemma {:induction false} HexLength(n: nat, k: nat)
    requires n < Power16(k) && 0 < k
    ensures 1 <= |Hex(n)| <= k
  {
    if n >= 16 {
      assert Power16(1) == 16;
      HexLength(n / 16, k - 1);
    }
  }

  lemma {:induction false} HexBound(s: string)
    requires forall i :: 0 <= i < |s| ==> DigitValue(s[i]).Some?
    ensures HexValue(s) < Power16(|s|)
  {
    if s != "" { HexBound(s[..|s| - 1]); }
  }

  lemma {:induction false} PowerGrows(j: nat, k: nat)
    requires j <= k
    ensures Power16(j) <= Power16(k)
    decreases k - j
  {
    if j < k { PowerGrows(j + 1, k); }
  }

  lemma {:induction false} WordBound(s: string)
    requires IsHex(s)
    ensures HexValue(s) < WORD
  {
    HexBound(s);
    PowerGrows(|s|, 8);
    assert Power16(8) == WORD;
  }

  lemma {:induction false} WordHex(n: nat)
    requires n < WORD
    ensures IsHex(Hex(n)) && HexValue(Hex(n)) == n
  {
    assert Power16(8) == WORD;
    HexLength(n, 8);
    HexRoundTrip(n);
  }

  /** Every 64-bit value is read back from its rendering. */
  lemma {:induction false} FormatRoundTrip(n: nat)
    requires n < WORD * WORD
    ensures Words(Format(n)) == Some((n / WORD, n % WORD))
    ensures Parse(Format(n)) == Some(n)
  {
    hide DigitValue, Hex, HexValue, IsHex, Slash;
    var high, low := Hex(n / WORD), Hex(n % WORD);
    WordHex(n / WORD);
    WordHex(n % WORD);
    HexRoundTrip(n / WORD);
    var s := Format(n);
    assert s[|high|] == '/';
    assert Slash(s) == |high| by {
      forall j | 0 <= j < |high| ensures s[j] != '/' { assert s[j] == high[j]; }
    }
    assert s[..|high|] == high && s[|high| + 1..] == low;
  }

  lemma {:induction false} ParseBound(s: string)
    requires Parse(s).Some?
    ensures Parse(s).value < WORD * WORD
    ensures Words(s).value.0 < WORD && Words(s).value.1 < WORD
    ensures Words(s).value == (Parse(s).value / WORD, Parse(s).value % WORD)
  {
    WordBound(s[..Slash(s)]);
    WordBound(s[Slash(s) + 1..]);
  }

  /** Normalizing keeps the value, and normal text is left alone. */
  lemma {:induction false} NormalizeMeaning(s: string)
    requires Parse(s).Some?
    ensures Normalize(s).Some? && Parse(Normalize(s).value) == Parse(s)
    ensures Normalize(Normalize(s).value) == Normalize(s)
  {
    ParseBound(s);
    FormatRoundTrip(Parse(s).value);
  }

  /** Two texts normalize alike exactly when they denote the same position. */
  lemma {:induction false} NormalFormIsCanonical(s: string, t: string)
    requires Parse(s).Some? && Parse(t).Some?
    ensures Normalize(s) == Normalize(t) <==> Parse(s) == Parse(t)
  {
    NormalizeMeaning(s);
    NormalizeMeaning(t);
  }

  /** `source_position_key` for `postgres_lsn` accepts upper-case digits only. */
  predicate UpperOnly(s: string)
  {
    forall i :: 0 <= i < |s| ==> !('a' <= s[i] <= 'f')
  }

  function PositionKey(s: string): Option<(nat, nat)>
  {
    if UpperOnly(s) then Words(s) else None
  }

  /** `compare_source_positions` on two LSNs: -1, 0 or 1. */
  function Compare(s: string, t: string): int
    requires PositionKey(s).Some? && PositionKey(t).Some?
  {
    var a, b := PositionKey(s).value, PositionKey(t).value;
    if a.0 < b.0 || (a.0 == b.0 && a.1 < b.1) then -1 else if a == b then 0 else 1
  }

  /** The order on (high, low) pairs is the numeric order on 64-bit values. */
  lemma {:induction false} CompareIsNumeric(s: string, t: string)
    requires PositionKey(s).Some? && PositionKey(t).Some?
    ensures Compare(s, t) < 0 <==> Parse(s).value < Parse(t).value
    ensures Compare(s, t) == 0 <==> Parse(s).value == Parse(t).value
    ensures Compare(s, t) > 0 <==> Parse(s).value > Parse(t).value
  {
    ParseBound(s);
    ParseBound(t);
  }

  const LOWER := "0123456789abcdef"

  const UPPER := "0123456789ABCDEF"

  /** A digit is one of the sixteen, in either case, and stands for its place among them. */
  lemma DigitIff(c: char, n: nat)
    ensures DigitValue(c) == Some(n) <==> n < 16 && (LOWER[n] == c || UPPER[n] == c)
  {
    assert LOWER[0] == '0' && LOWER[1] == '1' && LOWER[2] == '2' && LOWER[3] == '3' && LOWER[4] == '4';
    assert LOWER[5] == '5' && LOWER[6] == '6' && LOWER[7] == '7' && LOWER[8] == '8' && LOWER[9] == '9';
    assert LOWER[10] == 'a' && LOWER[11] == 'b' && LOWER[12] == 'c' && LOWER[13] == 'd' && LOWER[14] == 'e';
    assert UPPER[0] == '0' && UPPER[1] == '1' && UPPER[2] == '2' && UPPER[3] == '3' && UPPER[4] == '4';
    assert UPPER[5] == '5' && UPPER[6] == '6' && UPPER[7] == '7' && UPPER[8] == '8' && UPPER[9] == '9';
    assert UPPER[10] == 'A' && UPPER[11] == 'B' && UPPER[12] == 'C' && UPPER[13] == 'D' && UPPER[14] == 'E';
    assert LOWER[15] == 'f' && UPPER[15] == 'F';
  }

  /** The characters are the same, or one digit in two cases. */
  ghost predicate SameDigit(c: char, d: char)
  {
    c == d || exists n :: 0 <= n < 16 && (c == LOWER[n] || c == UPPER[n]) && (d == LOWER[n] || d == UPPER[n])
  }

  /** The texts differ at most in the case of digits. */
  ghost predicate SameDigits(s: string, t: string)
  {
    |s| == |t| && forall i :: 0 <= i < |s| ==> SameDigit(s[i], t[i])
  }

  lemma SameDigitMeans(c: char, d: char)
    requires SameDigit(c, d)
    ensures DigitValue(c) == DigitValue(d) && (c == '/' <==> d == '/')
  {
    if c != d {
      var n: nat :| n < 16 && (c == LOWER[n] || c == UPPER[n]) && (d == LOWER[n] || d == UPPER[n]);
      DigitIff(c, n);
      DigitIff(d, n);
    }
  }

  lemma {:induction false} SameValue(s: string, t: string)
    requires SameDigits(s, t)
    ensures IsHex(s) <==> IsHex(t)
    ensures IsHex(s) ==> HexValue(s) == HexValue(t)
    ensures (forall i :: 0 <= i < |s| ==> DigitValue(s[i]).Some?) ==>
              (forall i :: 0 <= i < |t| ==> DigitValue(t[i]).Some?) && HexValue(s) == HexValue(t)
  {
    forall i | 0 <= i < |s| ensures DigitValue(s[i]) == DigitValue(t[i]) { SameDigitMeans(s[i], t[i]); }
    if s != "" { SameValue(s[..|s| - 1], t[..|t| - 1]); }
  }

  lemma {:induction false} SameSlash(s: string, t: string)
    requires SameDigits(s, t)
    ensures Slash(s) == Slash(t)
  {
    hide SameDigit;
    if s != "" {
      SameDigitMeans(s[0], t[0]);
      SameSlash(s[1..], t[1..]);
    }
  }

  /** The case of digits does not change the position. */
  lemma CaseDoesNotMatter(s: string, t: string)
    requires SameDigits(s, t)
    ensures Parse(s) == Parse(t)
  {
    hide SameDigit, IsHex;
    SameSlash(s, t);
    var i := Slash(s);
    if i < |s| {
      SameValue(s[..i], t[..i]);
      SameValue(s[i + 1..], t[i + 1..]);
    }
  }
}
