/**
  Base16 decoding (section 8 of RFC 4648) as the `hex` crate's `decode` performs it on the
  payload text passed to `liquidate` and `mature`: an odd length is refused first, then the
  characters are read in pairs and the first one that is not a hex digit (either case) is
  reported with its position. `Encode` (lower-case, the crate's `encode`) is the inverse used to
  state the round trip.
*/
module Hex {
  import opened Types

  datatype HexError = OddLength | InvalidHexCharacter(c: char, index: nat)

  predicate IsHexDigit(c: char) {
    '0' <= c <= '9' || 'a' <= c <= 'f' || 'A' <= c <= 'F'
  }

  predicate AllHexDigits(s: string) {
    forall i :: 0 <= i < |s| ==> IsHexDigit(s[i])
  }

  /** `k` is the first position of `s` that does not hold a hex digit. */
  predicate FirstNonDigit(s: string, k: nat) {
    k < |s| && !IsHexDigit(s[k]) && forall j :: 0 <= j < k ==> IsHexDigit(s[j])
  }

  function DigitValue(c: char): (v: nat)
    requires IsHexDigit(c)
    ensures v < 16
  {
    if '0' <= c <= '9' then c as nat - '0' as nat
    else if 'a' <= c <= 'f' then c as nat - 'a' as nat + 10
    else c as nat - 'A' as nat + 10
  }

  /** The lower-case digit for a value below 16. */
  function DigitChar(v: nat): (c: char)
    requires v < 16
    ensures IsHexDigit(c) && DigitValue(c) == v
  {
    if v < 10 then ('0' as nat + v) as char else ('a' as nat + v - 10) as char
  }

  /** The byte spelled by the `i`-th pair of digits of `s`. */
  function PairValue(s: string, i: nat): (b: uint8)
    requires 2 * i + 1 < |s| && IsHexDigit(s[2 * i]) && IsHexDigit(s[2 * i + 1])
  {
    16 * DigitValue(s[2 * i]) + DigitValue(s[2 * i + 1])
  }

  /** Decodes a text of even length pair by pair. */
  function DecodePairs(s: string): (r: Result<seq<uint8>, HexError>)
    requires |s| % 2 == 0
    ensures r.Success? <==> AllHexDigits(s)
    ensures r.Success? ==> |r.value| == |s| / 2
    ensures r.Success? ==> forall i :: 0 <= i < |r.value| ==> r.value[i] == PairValue(s, i)
    ensures r.Failure? ==> r.error.InvalidHexCharacter?
    ensures r.Failure? ==> FirstNonDigit(s, r.error.index) && r.error.c == s[r.error.index]
    decreases |s|
  {
    if |s| == 0 then Success([])
    else if !IsHexDigit(s[0]) then Failure(InvalidHexCharacter(s[0], 0))
    else if !IsHexDigit(s[1]) then Failure(InvalidHexCharacter(s[1], 1))
    else
      var rest := DecodePairs(s[2..]);
      if rest.Failure? then Failure(rest.error.(index := rest.error.index + 2))
      else Success([PairValue(s, 0)] + rest.value)
  }

  /** `hex::decode`: the bytes spelled by `s`, or why it spells none. */
  function Decode(s: string): (r: Result<seq<uint8>, HexError>)
    ensures r == Failure(OddLength) <==> |s| % 2 == 1
    ensures r.Success? <==> |s| % 2 == 0 && AllHexDigits(s)
    ensures r.Success? ==> |r.value| == |s| / 2
    ensures r.Success? ==> forall i :: 0 <= i < |r.value| ==> r.value[i] == PairValue(s, i)
    ensures r.Failure? && |s| % 2 == 0 ==>
              r.error.InvalidHexCharacter? && FirstNonDigit(s, r.error.index) && r.error.c == s[r.error.index]
  {
    if |s| % 2 != 0 then Failure(OddLength) else DecodePairs(s)
  }

  /** `hex::encode`: two lower-case digits per byte, high nibble first. */
  function Encode(bytes: seq<uint8>): (s: string)
    ensures |s| == 2 * |bytes|
    ensures forall i :: 0 <= i < |bytes| ==> s[2 * i] == DigitChar(bytes[i] / 16) && s[2 * i + 1] == DigitChar(bytes[i] % 16)
  {
    if bytes == [] then [] else [DigitChar(bytes[0] / 16), DigitChar(bytes[0] % 16)] + Encode(bytes[1..])
  }

  /** Decoding undoes encoding. */
  lemma DecodeEncode(bytes: seq<uint8>)
    ensures Decode(Encode(bytes)) == Success(bytes)
  {
    DecodePairsEncode(bytes);
  }

  lemma {:induction false} DecodePairsEncode(bytes: seq<uint8>)
    ensures |Encode(bytes)| % 2 == 0 && DecodePairs(Encode(bytes)) == Success(bytes)
  {
    if bytes != [] {
      var s, tail := Encode(bytes), Encode(bytes[1..]);
      var high, low := DigitChar(bytes[0] / 16), DigitChar(bytes[0] % 16);
      assert s == [high, low] + tail;
      assert s[2..] == tail && s[0] == high && s[1] == low;
      DecodePairsEncode(bytes[1..]);
      assert PairValue(s, 0) == 16 * (bytes[0] / 16) + bytes[0] % 16 == bytes[0];
      assert DecodePairs(s) == Success([bytes[0]] + bytes[1..]);
      assert [bytes[0]] + bytes[1..] == bytes;
    }
  }

  /**
    Decoding sees only digit values: two texts that agree, position by position, on being digits
    and on the digits' values spell the same bytes (so "6A" and "6a" decode alike).
  */
  lemma DecodeSeesOnlyDigitValues(s: string, t: string)
    requires |s| == |t|
    requires forall i :: 0 <= i < |s| ==> IsHexDigit(s[i]) == IsHexDigit(t[i])
    requires forall i :: 0 <= i < |s| && IsHexDigit(s[i]) ==> DigitValue(s[i]) == DigitValue(t[i])
    ensures Decode(s).Success? <==> Decode(t).Success?
    ensures Decode(s).Success? ==> Decode(s) == Decode(t)
  {
    if Decode(s).Success? {
      var a, b := Decode(s).value, Decode(t).value;
      forall i | 0 <= i < |a|
        ensures a[i] == b[i]
      {
        assert a[i] == PairValue(s, i) && b[i] == PairValue(t, i);
      }
      assert a == b;
    }
  }
}
