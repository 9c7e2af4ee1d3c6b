/**
  The payload classifier of `liquidate` and `mature`: a release request is "public" when the
  hex text of the RLP-encoded transaction contains one of the whitelisted method signatures.
  The match is on characters of the text, not on the decoded bytes.
*/
module Classifier {
  import opened Types
  import Hex

  /**
    `PUBLIC_RLP_ENCODED_METHOD_NAMES`: the selector 6a627842 (`mint(address)`) followed by the
    twelve zero bytes that pad the address argument, as lower-case hex text.
  */
  const PUBLIC_RLP_ENCODED_METHOD_NAMES: seq<string> := ["6a627842000000000000000000000000"]

  /** `pattern` occurs in `text` starting at position `i`. */
  predicate MatchesAt(text: string, pattern: string, i: nat) {
    i + |pattern| <= |text| && text[i..i + |pattern|] == pattern
  }

  ghost predicate Contains(text: string, pattern: string) {
    exists i: nat :: MatchesAt(text, pattern, i)
  }

  /** The first occurrence of `pattern` in `text` at or after `from`. */
  function FindFrom(text: string, pattern: string, from: nat): (r: Option<nat>)
    ensures r.Some? ==> from <= r.value && MatchesAt(text, pattern, r.value)
    ensures r.Some? ==> forall j :: from <= j < r.value ==> !MatchesAt(text, pattern, j)
    ensures r.None? ==> forall j: nat :: from <= j ==> !MatchesAt(text, pattern, j)
    decreases |text| - from
  {
    if from + |pattern| > |text| then None
    else if MatchesAt(text, pattern, from) then Some(from)
    else FindFrom(text, pattern, from + 1)
  }

  /** `str::find`: the position of the first occurrence of `pattern` in `text`, if any. */
  function Find(text: string, pattern: string): (r: Option<nat>)
    ensures r.Some? <==> Contains(text, pattern)
    ensures r.Some? ==> MatchesAt(text, pattern, r.value)
    ensures r.Some? ==> forall j :: 0 <= j < r.value ==> !MatchesAt(text, pattern, j)
  {
    FindFrom(text, pattern, 0)
  }

  /** Some whitelist entry occurs in the payload text. */
  ghost predicate IsPublic(rlpPayload: string) {
    exists k :: 0 <= k < |PUBLIC_RLP_ENCODED_METHOD_NAMES| && Contains(rlpPayload, PUBLIC_RLP_ENCODED_METHOD_NAMES[k])
  }

  /** The scan over the whitelist that sets `public`. */
  method ClassifyPayload(rlpPayload: string) returns (public: bool)
    ensures public <==> IsPublic(rlpPayload)
  {
    public := false;
    for k := 0 to |PUBLIC_RLP_ENCODED_METHOD_NAMES|
      invariant public <==> exists j :: 0 <= j < k && Contains(rlpPayload, PUBLIC_RLP_ENCODED_METHOD_NAMES[j])
    {
      if Find(rlpPayload, PUBLIC_RLP_ENCODED_METHOD_NAMES[k]).Some? {
        public := true;
      }
    }
  }

  /**
    Surrounding text never takes the classification away: a payload that carries a whitelisted
    signature anywhere, even inside data or split across bytes, stays public.
  */
  lemma PublicWhateverSurrounds(rlpPayload: string, before: string, after: string)
    requires IsPublic(rlpPayload)
    ensures IsPublic(before + rlpPayload + after)
  {
    var k :| 0 <= k < |PUBLIC_RLP_ENCODED_METHOD_NAMES| && Contains(rlpPayload, PUBLIC_RLP_ENCODED_METHOD_NAMES[k]);
    var name := PUBLIC_RLP_ENCODED_METHOD_NAMES[k];
    var i: nat :| MatchesAt(rlpPayload, name, i);
    var text := before + rlpPayload + after;
    assert text[|before| + i..|before| + i + |name|] == rlpPayload[i..i + |name|];
    assert MatchesAt(text, name, |before| + i);
  }

  /**
    The classification reads characters, not bytes: the upper-case spelling of the whitelisted
    signature decodes to the very same bytes, yet it is not public.
  */
  lemma ClassificationIsTextual()
    ensures var lower := PUBLIC_RLP_ENCODED_METHOD_NAMES[0];
            var upper := lower[..1] + "A" + lower[2..];
            Hex.Decode(lower).Success? && Hex.Decode(lower) == Hex.Decode(upper)
            && IsPublic(lower) && !IsPublic(upper)
  {
    var lower := PUBLIC_RLP_ENCODED_METHOD_NAMES[0];
    WhitelistEntryIsHex();
    SecondDigitUpperCased(lower);
    assert MatchesAt(lower, lower, 0);
  }

  lemma WhitelistEntryIsHex()
    ensures Hex.AllHexDigits(PUBLIC_RLP_ENCODED_METHOD_NAMES[0])
    ensures |PUBLIC_RLP_ENCODED_METHOD_NAMES[0]| == 32 && PUBLIC_RLP_ENCODED_METHOD_NAMES[0][1] == 'a'
    ensures Hex.Decode(PUBLIC_RLP_ENCODED_METHOD_NAMES[0]).Success?
    ensures |Hex.Decode(PUBLIC_RLP_ENCODED_METHOD_NAMES[0]).value| == 16
  {
    var name := PUBLIC_RLP_ENCODED_METHOD_NAMES[0];
    assert name == "6a627842" + seq(24, i => '0');
  }

  /** Upper-casing the letter digit at position 1 keeps the bytes and loses the textual match. */
  lemma SecondDigitUpperCased(name: string)
    requires Hex.AllHexDigits(name) && |name| > 1 && name[1] == 'a'
    ensures var other := name[..1] + "A" + name[2..];
            Hex.Decode(name) == Hex.Decode(other) && !Contains(other, name)
  {
    var other := name[..1] + "A" + name[2..];
    assert forall i :: 0 <= i < |name| && i != 1 ==> other[i] == name[i];
    Hex.DecodeSeesOnlyDigitValues(name, other);
    forall i: nat
      ensures !MatchesAt(other, name, i)
    {
      if i == 0 && |name| <= |other| {
        assert other[..|name|][1] != name[1];
      }
    }
  }
}
