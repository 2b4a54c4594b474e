/** CashAddr decoding (pkg/coin/cashaddr.go), against the encoding the CashAddr specification defines. */
module CashAddr {
  import opened Bits
  import opened Charset
  import opened Checksum
  import opened Common
  import opened Polymod
  import opened Positional
  import opened Regroup

  datatype Decoded = Decoded(hashType: int, hash: Bytes)

  /** The register after all values, with the final 1 removed: zero means the checksum holds. */
  ghost function PolymodOf(values: seq<nat>): nat {
    Xor(Feed(Register(CASHADDR), 1, values), 1)
  }

  function PrefixExpand(prefix: string): (r: seq<nat>)
    ensures |r| == |prefix| + 1
    ensures forall i :: 0 <= i < |prefix| ==> r[i] == prefix[i] as int % 32
    ensures r[|prefix|] == 0
  {
    seq(|prefix|, i requires 0 <= i < |prefix| => prefix[i] as int % 32) + [0]
  }

  function HashSize(sizeBits: int): nat {
    match sizeBits
    case 0 => 20
    case 1 => 24
    case 2 => 28
    case 3 => 32
    case 4 => 40
    case 5 => 48
    case 6 => 56
    case 7 => 64
    case _ => 20
  }

  /** Lower case, with the default prefix put in front when there is none. */
  function Normalized(address: string, defaultPrefix: string): string {
    var lower := ToLower(address);
    if ':' in lower then lower else defaultPrefix + ":" + lower
  }

  /** Decoding as a definition, without the loops. */
  ghost function DecodeSpec(address: string, expectedPrefix: string): Option<Decoded> {
    var text := Normalized(address, expectedPrefix);
    var colon := IndexOf(text, ':');
    if colon < 0 || text[..colon] != expectedPrefix then None
    else DecodeText(expectedPrefix, text[colon + 1..])
  }

  ghost function DecodeText(prefix: string, text: string): Option<Decoded> {
    var symbols := Symbols(text);
    if symbols.None? || |symbols.value| < 8 || PolymodOf(PrefixExpand(prefix) + symbols.value) != 0 then None
    else DecodePayload(symbols.value[..|symbols.value| - 8])
  }

  ghost function DecodePayload(data: seq<int>): Option<Decoded>
    requires IsSymbols(data)
  {
    Widths();
    var bytes := Regrouped(data, 5, 8, false);
    if bytes.None? || |bytes.value| < 1 || |bytes.value| - 1 != HashSize(bytes.value[0] % 8) then None
    else Some(Decoded(bytes.value[0] / 8, bytes.value[1..]))
  }

  // The encoding, from the "Version byte", "Payload" and "Checksum" parts of the CashAddr specification.

  /** Sizes the version byte can name, and the three bits that name them. */
  function SizeBits(size: nat): int {
    if size == 20 then 0 else if size == 24 then 1 else if size == 28 then 2 else if size == 32 then 3
    else if size == 40 then 4 else if size == 48 then 5 else if size == 56 then 6 else if size == 64 then 7
    else -1
  }

  /** A type that fits the five bits in front of the size: the specification's, and those with its reserved bit. */
  predicate Encodable(d: Decoded) {
    0 <= d.hashType < 32 && SizeBits(|d.hash|) >= 0
  }

  /** What the specification allows: the top bit of the version byte is reserved and clear. */
  predicate SpecEncodable(d: Decoded) {
    Encodable(d) && d.hashType < 16
  }

  ghost function EncodedPayload(d: Decoded): (data: seq<int>)
    requires Encodable(d)
    ensures IsSymbols(data)
  {
    Widths();
    Regrouped([d.hashType * 8 + SizeBits(|d.hash|)] + d.hash, 8, 5, true).value
  }

  ghost function ChecksumSymbols(prefix: string, data: seq<int>): (c: seq<int>)
    requires IsSymbols(data)
    ensures |c| == 8 && IsSymbols(c)
  {
    Digits(32, PolymodOf(PrefixExpand(prefix) + data + Zeros(8)), 8)
  }

  ghost function Encode(prefix: string, d: Decoded): string
    requires Encodable(d)
  {
    prefix + ":" + Spell(EncodedPayload(d) + ChecksumSymbols(prefix, EncodedPayload(d)))
  }

  // Checksums.

  /** The checksum holds exactly for the eight symbols the encoder computes. */
  lemma {:induction false} ChecksumUnique(prefix: string, data: seq<int>, c: seq<int>)
    requires IsSymbols(data) && IsSymbols(c) && |c| == 8
    ensures PolymodOf(PrefixExpand(prefix) + data + c) == 0 <==> c == ChecksumSymbols(prefix, data)
  {
    ChecksumUniqueAfter(PrefixExpand(prefix) + data, c);
  }

  lemma {:induction false} ChecksumUniqueAfter(head: seq<nat>, c: seq<nat>)
    requires IsDigits(32, head) && IsSymbols(c) && |c| == 8
    ensures PolymodOf(head + c) == 0 <==> c == Digits(32, PolymodOf(head + Zeros(8)), 8)
  {
    CashAddrIsWellFormed();
    PowMonotone(32, 1, 8);
    assert Pow(32, 1) == 32;
    ChecksumDetermined(CASHADDR, head, c, Zeros(8));
    RemoveOne(Feed(Register(CASHADDR), 1, head + c));
  }

  lemma {:induction false} RemoveOne(x: nat)
    ensures Xor(x, 1) == 0 <==> x == 1
  {
    XorCommutes(x, 1);
    XorCancels(1, x);
    XorSelf(1);
    XorZero(1);
  }

  lemma {:induction false} VersionByte(d: Decoded, v: int)
    requires Encodable(d) && v == d.hashType * 8 + SizeBits(|d.hash|)
    ensures 0 <= v < 256 && v / 8 == d.hashType && HashSize(v % 8) == |d.hash|
  {
  }

  lemma {:induction false} VersionByteOnly(v: int, hash: Bytes)
    requires 0 <= v < 256 && |hash| == HashSize(v % 8)
    ensures Encodable(Decoded(v / 8, hash)) && v == (v / 8) * 8 + SizeBits(|hash|)
  {
  }

  lemma {:induction false} PayloadRoundTrip(d: Decoded)
    requires Encodable(d)
    ensures DecodePayload(EncodedPayload(d)) == Some(d)
  {
    Widths();
    var v := d.hashType * 8 + SizeBits(|d.hash|);
    VersionByte(d, v);
    var bytes: seq<int> := [v] + d.hash;
    PadThenUnpad(bytes, 8, 5);
    assert Regrouped(EncodedPayload(d), 5, 8, false) == Some(bytes);
    assert bytes[0] == v && bytes[1..] == d.hash;
  }

  lemma {:induction false} PayloadDetermined(data: seq<int>)
    requires IsSymbols(data) && DecodePayload(data).Some?
    ensures Encodable(DecodePayload(data).value)
    ensures EncodedPayload(DecodePayload(data).value) == data
  {
    Widths();
    var bytes := Regrouped(data, 5, 8, false).value;
    VersionByteOnly(bytes[0], bytes[1..]);
    UnpadThenPad(data, 5, 8);
    assert [bytes[0]] + bytes[1..] == bytes;
  }

  lemma {:induction false} SplitAtColon(prefix: string, payload: string)
    requires ':' !in prefix
    ensures var text := prefix + ":" + payload;
            IndexOf(text, ':') == |prefix| && text[..|prefix|] == prefix && text[|prefix| + 1..] == payload
  {
    var text := prefix + ":" + payload;
    assert text[|prefix|] == ':';
    assert forall i :: 0 <= i < |prefix| ==> text[i] == prefix[i];
  }

  /** Decoding what was spelled from symbols splits them into payload and checksum. */
  lemma {:induction false} DecodeSpelled(prefix: string, data: seq<int>, c: seq<int>, address: string)
    requires ':' !in prefix && IsSymbols(data) && IsSymbols(c) && |c| == 8
    requires Normalized(address, prefix) == prefix + ":" + Spell(data + c)
    ensures DecodeSpec(address, prefix) == if c == ChecksumSymbols(prefix, data) then DecodePayload(data) else None
  {
    SplitAtColon(prefix, Spell(data + c));
    SymbolsOfSpelled(data + c);
    assert (data + c)[..|data + c| - 8] == data;
    assert PrefixExpand(prefix) + (data + c) == PrefixExpand(prefix) + data + c;
    ChecksumUnique(prefix, data, c);
  }

  lemma {:induction false} DecodeOfEncoded(address: string, prefix: string, d: Decoded)
    requires ':' !in prefix && Encodable(d) && Normalized(address, prefix) == Encode(prefix, d)
    ensures DecodeSpec(address, prefix) == Some(d)
  {
    DecodeSpelled(prefix, EncodedPayload(d), ChecksumSymbols(prefix, EncodedPayload(d)), address);
    PayloadRoundTrip(d);
  }

  lemma {:induction false} AcceptedIsSpelled(address: string, prefix: string) returns (data: seq<int>, c: seq<int>)
    requires DecodeSpec(address, prefix).Some?
    ensures IsSymbols(data) && IsSymbols(c) && |c| == 8
    ensures Normalized(address, prefix) == prefix + ":" + Spell(data + c)
  {
    var text := Normalized(address, prefix);
    var colon := IndexOf(text, ':');
    data, c := TextIsSpelled(prefix, text[colon + 1..]);
    AroundColon(text, colon);
  }

  lemma {:induction false} AroundColon(text: string, colon: nat)
    requires colon < |text| && text[colon] == ':'
    ensures text == text[..colon] + ":" + text[colon + 1..]
  {
  }

  lemma {:induction false} TextIsSpelled(prefix: string, text: string) returns (data: seq<int>, c: seq<int>)
    requires DecodeText(prefix, text).Some?
    ensures IsSymbols(data) && IsSymbols(c) && |c| == 8
    ensures text == Spell(data + c)
  {
    var symbols := Symbols(text).value;
    data, c := symbols[..|symbols| - 8], symbols[|symbols| - 8..];
    SpelledSymbols(text);
    assert data + c == symbols;
  }

  lemma {:induction false} EncodedOfDecoded(address: string, prefix: string)
    requires ':' !in prefix && DecodeSpec(address, prefix).Some?
    ensures Encodable(DecodeSpec(address, prefix).value)
    ensures Normalized(address, prefix) == Encode(prefix, DecodeSpec(address, prefix).value)
  {
    var data, c := AcceptedIsSpelled(address, prefix);
    DecodeSpelled(prefix, data, c, address);
    PayloadDetermined(data);
  }

  /**
   * Decoding is the exact inverse of the encoding with all five type bits: it returns (type, hash) for an
   * address exactly when the address, normalized, is the encoding of (type, hash). The specification has
   * only the types below 16; SpecIffTopBitClear says which accepted addresses it knows.
   */
  lemma {:induction false} DecodeIffEncoded(address: string, prefix: string, d: Decoded)
    requires ':' !in prefix
    ensures DecodeSpec(address, prefix) == Some(d)
       <==> Encodable(d) && Normalized(address, prefix) == Encode(prefix, d)
  {
    if Encodable(d) && Normalized(address, prefix) == Encode(prefix, d) {
      DecodeOfEncoded(address, prefix, d);
    }
    if DecodeSpec(address, prefix) == Some(d) {
      EncodedOfDecoded(address, prefix);
    }
  }

  /** The address is the specification's encoding of something. */
  ghost predicate IsSpecEncoding(address: string, prefix: string) {
    exists d :: SpecEncodable(d) && Normalized(address, prefix) == Encode(prefix, d)
  }

  /** The symbol of the first character after the separator. */
  function FirstSymbol(address: string, prefix: string): int {
    var text := Normalized(address, prefix);
    var first := IndexOf(text, ':') + 1;
    if first < |text| then Reverse(text[first]) else -1
  }

  /**
   * The decoder does not look at the reserved top bit of the version byte: an accepted address is an
   * encoding of the specification exactly when that bit, the top bit of the first symbol, is clear. The
   * first symbol is the type.
   */
  lemma {:induction false} SpecIffTopBitClear(address: string, prefix: string)
    requires ':' !in prefix && DecodeSpec(address, prefix).Some?
    ensures IsSpecEncoding(address, prefix) <==> FirstSymbol(address, prefix) < 16
    ensures FirstSymbol(address, prefix) == DecodeSpec(address, prefix).value.hashType
  {
    var d := DecodeSpec(address, prefix).value;
    EncodedOfDecoded(address, prefix);
    FirstSymbolIsType(address, prefix);
    if IsSpecEncoding(address, prefix) {
      var e :| SpecEncodable(e) && Normalized(address, prefix) == Encode(prefix, e);
      DecodeOfEncoded(address, prefix, e);
    }
  }

  /** Restricted to the specification's types, decoding and encoding are inverse without qualification. */
  lemma {:induction false} SpecDecodeIffEncoded(address: string, prefix: string, d: Decoded)
    requires ':' !in prefix && d.hashType < 16
    ensures DecodeSpec(address, prefix) == Some(d)
            <==> SpecEncodable(d) && Normalized(address, prefix) == Encode(prefix, d)
  {
    DecodeIffEncoded(address, prefix, d);
  }

  lemma {:induction false} FirstSymbolIsType(address: string, prefix: string)
    requires ':' !in prefix && DecodeSpec(address, prefix).Some?
    ensures FirstSymbol(address, prefix) == DecodeSpec(address, prefix).value.hashType
  {
    var data, c := AcceptedIsSpelled(address, prefix);
    DecodeSpelled(prefix, data, c, address);
    LeadingSymbol(data);
    SplitAtColon(prefix, Spell(data + c));
    assert Spell(data + c)[0] == CHARSET[data[0]];
    ReverseOfSymbol(data[0]);
    var text := Normalized(address, prefix);
    assert text[|prefix| + 1..][0] == text[|prefix| + 1];
  }

  /** The first symbol of a payload holds the five type bits. */
  lemma {:induction false} LeadingSymbol(data: seq<int>)
    requires IsSymbols(data) && DecodePayload(data).Some?
    ensures data != [] && data[0] == DecodePayload(data).value.hashType
  {
    var bytes := LeadingByte(data);
  }

  lemma {:induction false} LeadingByte(data: seq<int>) returns (bytes: seq<int>)
    requires IsSymbols(data) && Regrouped(data, 5, 8, false).Some?
    ensures Regrouped(data, 5, 8, false) == Some(bytes)
    ensures bytes != [] ==> data != [] && bytes[0] / 8 == data[0]
  {
    Widths();
    var n, bits, left, h, m := Accepted(data, 5, 8);
    bytes := Digits(256, h, m);
    assert Regrouped(data, 5, 8, false) == Some(bytes) by { UnpaddedIs(data, 5, 8, n, bits, left, h, m); }
    if m > 0 {
      HighFits(n, h, 5, |data|, 8, m, left);
      TopDigits(data, n, h, m, left);
    }
  }

  lemma {:induction false} TopDigits(data: seq<int>, n: nat, h: nat, m: nat, left: nat)
    requires IsSymbols(data) && data != [] && Value(32, data) == n && m > 0
    requires h < Pow(256, m) && n == h * Pow(2, left) && |data| * 5 == m * 8 + left
    ensures Digits(256, h, m)[0] / 8 == data[0]
  {
    LeadingDigitOf(256, h, m);
    ValueLeads(32, data);
    TopFiveBits(n, h, m, left, |data|);
  }

  /** Cutting the low bits, then all bytes but one, then three bits more, leaves the top five bits. */
  lemma {:induction false} TopFiveBits(n: nat, h: nat, m: nat, left: nat, len: nat)
    requires m > 0 && len > 0 && n == h * Pow(2, left) && len * 5 == m * 8 + left
    ensures h / Pow(256, m - 1) / 8 == n / Pow(32, len - 1)
  {
    Widths();
    DivModUnique(n, Pow(2, left), h, 0);
    PowPow(2, 8, m - 1);
    PowPow(2, 5, len - 1);
    assert Pow(2, 3) == 8;
    DivDiv(h, Pow(256, m - 1), 8);
    PowAdd(2, 8 * (m - 1), 3);
    DivDiv(n, Pow(2, left), Pow(2, 8 * (m - 1) + 3));
    PowAdd(2, left, 8 * (m - 1) + 3);
    assert left + (8 * (m - 1) + 3) == 5 * (len - 1);
  }

  // An encoding goes through the decoder as it is written.

  lemma {:induction false} EncodingIsNormal(prefix: string, d: Decoded)
    requires Encodable(d) && ToLower(prefix) == prefix
    ensures Normalized(Encode(prefix, d), prefix) == Encode(prefix, d)
  {
    var ds := EncodedPayload(d) + ChecksumSymbols(prefix, EncodedPayload(d));
    SpelledIsNormal(prefix, ds, prefix);
  }

  lemma {:induction false} SpelledIsNormal(prefix: string, ds: seq<int>, defaultPrefix: string)
    requires IsSymbols(ds) && ToLower(prefix) == prefix
    ensures Normalized(prefix + ":" + Spell(ds), defaultPrefix) == prefix + ":" + Spell(ds)
  {
    var text := prefix + ":" + Spell(ds);
    assert text[|prefix|] == ':';
    forall i | 0 <= i < |text| ensures ToLower(text)[i] == text[i] {
      if i < |prefix| {
        assert ToLower(prefix)[i] == prefix[i] && text[i] == prefix[i];
      } else if i > |prefix| {
        assert text[i] == CHARSET[ds[i - |prefix| - 1]];
        SymbolIsPlain(ds[i - |prefix| - 1]);
      }
    }
    assert ToLower(text) == text;
  }

  /** Decoding undoes encoding for every lower-case prefix without separator, all types and listed sizes. */
  lemma {:induction false} EncodeThenDecode(prefix: string, d: Decoded)
    requires ':' !in prefix && ToLower(prefix) == prefix && Encodable(d)
    ensures DecodeSpec(Encode(prefix, d), prefix) == Some(d)
  {
    EncodingIsNormal(prefix, d);
    DecodeOfEncoded(Encode(prefix, d), prefix, d);
  }

  /** An address with type 16 is accepted, though the specification has no such address. */
  lemma {:induction false} ReservedTypeAccepted()
    ensures var address := Encode("bitcoincash", Decoded(16, Zeros(20)));
            && DecodeSpec(address, "bitcoincash") == Some(Decoded(16, Zeros(20)))
            && !IsSpecEncoding(address, "bitcoincash")
  {
    var prefix := "bitcoincash";
    assert ToLower(prefix) == prefix;
    EncodeThenDecode(prefix, Decoded(16, Zeros(20)));
    SpecIffTopBitClear(Encode(prefix, Decoded(16, Zeros(20))), prefix);
  }

  lemma {:induction false} HashIsShort(address: string, prefix: string)
    requires DecodeSpec(address, prefix).Some?
    ensures 0 <= DecodeSpec(address, prefix).value.hashType && |DecodeSpec(address, prefix).value.hash| <= 64
  {
    var text := Normalized(address, prefix);
    TextIsShort(prefix, text[IndexOf(text, ':') + 1..]);
  }

  lemma {:induction false} TextIsShort(prefix: string, text: string)
    requires DecodeText(prefix, text).Some?
    ensures 0 <= DecodeText(prefix, text).value.hashType && |DecodeText(prefix, text).value.hash| <= 64
  {
    var symbols := Symbols(text).value;
    PayloadIsShort(symbols[..|symbols| - 8]);
  }

  lemma {:induction false} PayloadIsShort(data: seq<int>)
    requires IsSymbols(data) && DecodePayload(data).Some?
    ensures 0 <= DecodePayload(data).value.hashType && |DecodePayload(data).value.hash| <= 64
  {
    Widths();
    var bytes := Regrouped(data, 5, 8, false).value;
    assert 0 <= bytes[0];
  }

  /**
   * Two symbol strings under one prefix that differ, and differ only within eight consecutive symbols,
   * cannot both carry a valid checksum.
   */
  lemma {:induction false} BurstsAreDetected(
      prefix: string, before: seq<int>, xs: seq<int>, ys: seq<int>, after: seq<int>)
    requires IsSymbols(xs) && IsSymbols(ys) && IsSymbols(before) && IsSymbols(after)
    requires |xs| == |ys| <= 8 && xs != ys
    ensures !(PolymodOf(PrefixExpand(prefix) + before + xs + after) == 0
           && PolymodOf(PrefixExpand(prefix) + before + ys + after) == 0)
  {
    var k := CodeOf(CASHADDR);
    var head: seq<nat> := PrefixExpand(prefix) + before;
    RemoveOne(Feed(Register(CASHADDR), 1, head + xs + after));
    RemoveOne(Feed(Register(CASHADDR), 1, head + ys + after));
    if PolymodOf(head + xs + after) == 0 && PolymodOf(head + ys + after) == 0 {
      CashAddrIsWellFormed();
      CodeIsSound(CASHADDR);
      assert Pow(32, 1) == 32;
      BurstDetected(k, 1, head, xs, ys, after);
    }
  }

  // The loops.

  /** cashAddrPolymod. */
  method ComputePolymod(values: seq<nat>) returns (r: nat)
    ensures r == PolymodOf(values)
  {
    var c: nat := 1;
    var k := 0;
    while k < |values|
      invariant 0 <= k <= |values|
      invariant Feed(Register(CASHADDR), c, values[k..]) == Feed(Register(CASHADDR), 1, values)
    {
      c := ShiftAndFold(CASHADDR, c, values[k]);
      k := k + 1;
    }
    return Xor(c, 1);
  }

  /** cashAddrPrefixExpand. */
  method ExpandPrefix(prefix: string) returns (ret: seq<nat>)
    ensures ret == PrefixExpand(prefix)
  {
    ret := [];
    var i := 0;
    while i < |prefix|
      invariant 0 <= i <= |prefix|
      invariant ret == PrefixExpand(prefix)[..i]
    {
      ret := ret + [prefix[i] as int % 32];
      i := i + 1;
    }
    ret := ret + [0];
  }

  lemma {:induction false} HasColon(text: string, prefix: string)
    ensures ':' in (if ':' in text then text else prefix + ":" + text)
  {
    if ':' !in text {
      assert (prefix + ":" + text)[|prefix|] == ':';
    }
  }

  /** The start of CashAddrDecode: lower case, with a prefix. */
  method Normalize(address: string, expectedPrefix: string) returns (text: string)
    ensures text == Normalized(address, expectedPrefix) && ':' in text
  {
    text := ToLower(address);
    HasColon(text, expectedPrefix);
    if ':' !in text {
      text := expectedPrefix + ":" + text;
    }
  }

  /** CashAddrDecode. */
  method Decode(address: string, expectedPrefix: string) returns (r: Option<Decoded>)
    ensures r == DecodeSpec(address, expectedPrefix)
  {
    var text := Normalize(address, expectedPrefix);
    var colon := IndexOf(text, ':');
    var prefix, payload := text[..colon], text[colon + 1..];
    if prefix != expectedPrefix {
      return None;
    }
    r := DecodePrefixed(prefix, payload);
  }

  /** The middle of CashAddrDecode: symbols and their checksum. */
  method DecodePrefixed(prefix: string, payload: string) returns (r: Option<Decoded>)
    ensures r == DecodeText(prefix, payload)
  {
    var symbols := DecodeSymbols(payload);
    if symbols.None? {
      return None;
    }
    var data := symbols.value;
    if |data| < 8 {
      return None;
    }
    var prefixData := ExpandPrefix(prefix);
    var remainder := ComputePolymod(prefixData + data);
    if remainder != 0 {
      return None;
    }
    r := DecodeConverted(data[..|data| - 8]);
  }

  /** The second half of CashAddrDecode: from checked symbols to type and hash. */
  method DecodeConverted(data: seq<int>) returns (r: Option<Decoded>)
    requires IsSymbols(data)
    ensures r == DecodePayload(data)
  {
    Widths();
    var converted := CashAddrConvertBits(data, 5, 8, false);
    if converted.None? || |converted.value| < 1 {
      return None;
    }
    var versionByte, hash := converted.value[0], converted.value[1..];
    if |hash| != HashSize(versionByte % 8) {
      return None;
    }
    return Some(Decoded(versionByte / 8, hash));
  }
}
