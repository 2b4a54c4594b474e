/** Bech32 encoding and decoding (pkg/coin/bech32.go). */
module Bech32 {
  import opened Bits
  import opened Charset
  import opened Checksum
  import opened Common
  import opened Polymod
  import opened Positional

  datatype Decoded = Decoded(hrp: string, data: seq<int>)

  ghost function PolymodOf(values: seq<nat>): nat {
    Feed(Register(BECH32), 1, values)
  }

  function HrpHigh(hrp: string): (r: seq<nat>)
    ensures |r| == |hrp| && IsDigits(0x10000, r)
  {
    seq(|hrp|, i requires 0 <= i < |hrp| => hrp[i] as int / 32)
  }

  function HrpLow(hrp: string): (r: seq<nat>)
    ensures |r| == |hrp| && IsDigits(32, r)
  {
    seq(|hrp|, i requires 0 <= i < |hrp| => hrp[i] as int % 32)
  }

  function HrpExpand(hrp: string): (r: seq<nat>)
    ensures IsDigits(0x10000, r)
  {
    HrpHigh(hrp) + [0] + HrpLow(hrp)
  }

  ghost predicate ChecksumHolds(hrp: string, data: seq<int>)
    requires IsSymbols(data)
  {
    PolymodOf(HrpExpand(hrp) + data) == 1
  }

  ghost function ChecksumSymbols(hrp: string, data: seq<int>): (c: seq<int>)
    requires IsSymbols(data)
    ensures |c| == 6 && IsSymbols(c)
  {
    ChecksumFor(PolymodOf(HrpExpand(hrp) + data + Zeros(6)), 6)
  }

  ghost function EncodeSpec(hrp: string, data: seq<int>): string
    requires IsSymbols(data)
  {
    hrp + "1" + Spell(data + ChecksumSymbols(hrp, data))
  }

  /** Position of the last c in s, or -1. */
  function LastIndexOf(s: string, c: char): (r: int)
    ensures -1 <= r < |s|
    ensures r >= 0 ==> s[r] == c
    ensures forall i :: r < i < |s| ==> s[i] != c
  {
    if s == "" then -1
    else if s[|s| - 1] == c then |s| - 1
    else LastIndexOf(s[..|s| - 1], c)
  }

  predicate MixedCase(f: Folding, s: string) {
    s != LowerOf(f, s) && s != UpperOf(f, s)
  }

  /** Decoding as a definition, without the loops. */
  ghost function DecodeSpec(f: Folding, bech: string): Option<Decoded> {
    var text := LowerOf(f, bech);
    var pos := LastIndexOf(text, '1');
    if ByteLength(bech) > 90 || MixedCase(f, bech) || pos < 1 || ByteLength(text[pos + 1..]) < 6 then None
    else DecodeParts(text[..pos], text[pos + 1..])
  }

  ghost function DecodeParts(hrp: string, payload: string): Option<Decoded>
    requires ByteLength(payload) >= 6
  {
    var symbols := Symbols(payload);
    if symbols.None? || !ChecksumHolds(hrp, symbols.value) then None
    else
      SymbolsLength(payload);
      Some(Decoded(hrp, symbols.value[..|symbols.value| - 6]))
  }

  /** Readable characters are ASCII, so bytes and characters agree. */
  lemma {:induction false} SymbolsLength(s: string)
    requires Symbols(s).Some?
    ensures ByteLength(s) == |s|
  {
    SpelledSymbols(s);
    forall i | 0 <= i < |s| ensures s[i] < 128 as char {
      assert s[i] == CHARSET[Symbols(s).value[i]];
      SymbolIsPlain(Symbols(s).value[i]);
    }
    AsciiLength(s);
  }

  lemma {:induction false} SpelledLength(ds: seq<int>)
    requires IsSymbols(ds)
    ensures ByteLength(Spell(ds)) == |ds|
  {
    SymbolsOfSpelled(ds);
    SymbolsLength(Spell(ds));
  }

  lemma {:induction false} HrpFits(hrp: string, data: seq<int>)
    requires IsSymbols(data)
    ensures IsDigits(Pow(32, 6), HrpExpand(hrp) + data)
  {
    assert Pow(32, 6) == 0x4000_0000;
  }

  /** The checksum holds exactly for the six symbols that bech32CreateChecksum computes. */
  lemma {:induction false} ChecksumUnique(hrp: string, data: seq<int>, c: seq<int>)
    requires IsSymbols(data) && IsSymbols(c) && |c| == 6
    ensures ChecksumHolds(hrp, data + c) <==> c == ChecksumSymbols(hrp, data)
  {
    var head: seq<nat> := HrpExpand(hrp) + data;
    HrpFits(hrp, data);
    assert HrpExpand(hrp) + (data + c) == head + c;
    ChecksumUniqueAfter(head, c);
  }

  lemma {:induction false} ChecksumUniqueAfter(head: seq<nat>, c: seq<nat>)
    requires IsDigits(Pow(32, 6), head) && IsSymbols(c) && |c| == 6
    ensures PolymodOf(head + c) == 1 <==> c == ChecksumFor(PolymodOf(head + Zeros(6)), 6)
  {
    Bech32IsWellFormed();
    ChecksumDetermined(BECH32, head, c, Zeros(6));
  }

  /** The separator is the last '1', because no symbol is spelled with it. */
  lemma {:induction false} LastOneSeparates(hrp: string, ds: seq<int>)
    requires IsSymbols(ds)
    ensures var text := hrp + "1" + Spell(ds);
            LastIndexOf(text, '1') == |hrp| && text[..|hrp|] == hrp && text[|hrp| + 1..] == Spell(ds)
  {
    var text := hrp + "1" + Spell(ds);
    assert text[|hrp|] == '1';
    forall i | |hrp| < i < |text| ensures text[i] != '1' {
      assert text[i] == CHARSET[ds[i - |hrp| - 1]];
      SymbolIsPlain(ds[i - |hrp| - 1]);
    }
  }

  lemma {:induction false} PartsSpelled(hrp: string, data: seq<int>, c: seq<int>)
    requires IsSymbols(data) && IsSymbols(c) && |c| == 6
    ensures ByteLength(Spell(data + c)) == |data| + 6
    ensures DecodeParts(hrp, Spell(data + c))
         == if c == ChecksumSymbols(hrp, data) then Some(Decoded(hrp, data)) else None
  {
    SpelledLength(data + c);
    SymbolsOfSpelled(data + c);
    ChecksumUnique(hrp, data, c);
    assert (data + c)[..|data + c| - 6] == data;
  }

  lemma {:induction false} PartsAccepted(hrp: string, payload: string)
    requires ByteLength(payload) >= 6 && DecodeParts(hrp, payload).Some?
    ensures var data := DecodeParts(hrp, payload).value.data;
            IsSymbols(data) && payload == Spell(data + ChecksumSymbols(hrp, data))
  {
    SymbolsLength(payload);
    var symbols := Symbols(payload).value;
    var data, c := symbols[..|symbols| - 6], symbols[|symbols| - 6..];
    assert data + c == symbols;
    SpelledSymbols(payload);
    ChecksumUnique(hrp, data, c);
  }

  ghost predicate IsEncodingOf(f: Folding, bech: string, d: Decoded) {
    && ByteLength(bech) <= 90 && !MixedCase(f, bech) && d.hrp != "" && IsSymbols(d.data)
    && LowerOf(f, bech) == EncodeSpec(d.hrp, d.data)
  }

  lemma {:induction false} DecodeOfEncoded(f: Folding, bech: string, d: Decoded)
    requires IsEncodingOf(f, bech, d)
    ensures DecodeSpec(f, bech) == Some(d)
  {
    var c := ChecksumSymbols(d.hrp, d.data);
    PartsSpelled(d.hrp, d.data, c);
    DecodeOfParts(f, bech, d.hrp, d.data + c);
  }

  lemma {:induction false} DecodeOfParts(f: Folding, bech: string, hrp: string, ds: seq<int>)
    requires IsSymbols(ds) && hrp != "" && ByteLength(Spell(ds)) >= 6
    requires ByteLength(bech) <= 90 && !MixedCase(f, bech) && LowerOf(f, bech) == hrp + "1" + Spell(ds)
    ensures DecodeSpec(f, bech) == DecodeParts(hrp, Spell(ds))
  {
    LastOneSeparates(hrp, ds);
  }

  lemma {:induction false} EncodedOfDecoded(f: Folding, bech: string)
    requires DecodeSpec(f, bech).Some?
    ensures IsEncodingOf(f, bech, DecodeSpec(f, bech).value)
  {
    var text := LowerOf(f, bech);
    var pos := LastIndexOf(text, '1');
    PartsAccepted(text[..pos], text[pos + 1..]);
    AroundOne(text, pos);
  }

  lemma {:induction false} AroundOne(text: string, pos: nat)
    requires pos < |text| && text[pos] == '1'
    ensures text == text[..pos] + "1" + text[pos + 1..]
  {
  }

  /** Exactly the encodings decode, in one case and within the length limit in bytes. */
  lemma {:induction false} DecodeIffEncoded(f: Folding, bech: string, d: Decoded)
    ensures DecodeSpec(f, bech) == Some(d) <==> IsEncodingOf(f, bech, d)
  {
    if IsEncodingOf(f, bech, d) {
      DecodeOfEncoded(f, bech, d);
    }
    if DecodeSpec(f, bech) == Some(d) {
      EncodedOfDecoded(f, bech);
    }
  }

  predicate LowerCaseAscii(s: string) {
    forall i :: 0 <= i < |s| ==> s[i] < 128 as char && !('A' <= s[i] <= 'Z')
  }

  /** Decoding undoes encoding for every nonempty lower-case prefix exactly within 90 bytes. */
  lemma {:induction false} EncodeThenDecodeIff(f: Folding, hrp: string, data: seq<int>)
    requires hrp != "" && LowerOf(f, hrp) == hrp && IsSymbols(data)
    ensures DecodeSpec(f, EncodeSpec(hrp, data)) == Some(Decoded(hrp, data)) <==> ByteLength(hrp) + 1 + |data| + 6 <= 90
  {
    var ds := data + ChecksumSymbols(hrp, data);
    EncodingIsLower(f, hrp, ds);
    EncodingLength(hrp, ds);
    DecodeIffEncoded(f, EncodeSpec(hrp, data), Decoded(hrp, data));
  }

  lemma {:induction false} EncodingIsLower(f: Folding, hrp: string, ds: seq<int>)
    requires LowerOf(f, hrp) == hrp && IsSymbols(ds)
    ensures LowerOf(f, hrp + "1" + Spell(ds)) == hrp + "1" + Spell(ds)
  {
    var text := hrp + "1" + Spell(ds);
    forall i | 0 <= i < |text| ensures Lowered(f, text[i]) == text[i] {
      if i < |hrp| {
        assert LowerOf(f, hrp)[i] == hrp[i] && text[i] == hrp[i];
      } else if i == |hrp| {
        assert text[i] == '1';
      } else {
        assert text[i] == CHARSET[ds[i - |hrp| - 1]];
        SymbolIsPlain(ds[i - |hrp| - 1]);
      }
    }
  }

  lemma {:induction false} EncodingLength(hrp: string, ds: seq<int>)
    requires IsSymbols(ds)
    ensures ByteLength(hrp + "1" + Spell(ds)) == ByteLength(hrp) + 1 + |ds|
  {
    SpelledLength(ds);
    ByteLengthAppend(hrp + "1", Spell(ds));
    ByteLengthAppend(hrp, "1");
    assert ByteLength("1") == 1 by { assert "1"[..0] == ""; }
  }

  /** Decoding undoes encoding for every nonempty lower-case ASCII prefix, even one containing '1'. */
  lemma {:induction false} EncodeThenDecode(f: Folding, hrp: string, data: seq<int>)
    requires hrp != "" && LowerCaseAscii(hrp) && IsSymbols(data)
    requires |hrp| + 1 + |data| + 6 <= 90
    ensures DecodeSpec(f, EncodeSpec(hrp, data)) == Some(Decoded(hrp, data))
  {
    assert LowerOf(f, hrp) == hrp;
    AsciiLength(hrp);
    EncodeThenDecodeIff(f, hrp, data);
  }

  /**
   * Two symbol strings under one prefix that differ, and differ only within six consecutive symbols,
   * cannot both carry a valid checksum.
   */
  lemma {:induction false} BurstsAreDetected(hrp: string, before: seq<int>, xs: seq<int>, ys: seq<int>, after: seq<int>)
    requires IsSymbols(before) && IsSymbols(xs) && IsSymbols(ys) && IsSymbols(after)
    requires |xs| == |ys| <= 6 && xs != ys
    ensures !(ChecksumHolds(hrp, before + xs + after) && ChecksumHolds(hrp, before + ys + after))
  {
    var head: seq<nat> := HrpExpand(hrp) + before;
    assert HrpExpand(hrp) + (before + xs + after) == head + xs + after;
    assert HrpExpand(hrp) + (before + ys + after) == head + ys + after;
    if PolymodOf(head + xs + after) == PolymodOf(head + ys + after) {
      Bech32IsWellFormed();
      CodeIsSound(BECH32);
      assert Pow(32, 1) == 32;
      BurstDetected(CodeOf(BECH32), 1, head, xs, ys, after);
    }
  }

  // The loops.

  /** bech32Polymod. The register never reaches its sign bit, so Go's int shifts are plain ones. */
  method ComputePolymod(values: seq<nat>) returns (chk: nat)
    ensures chk == PolymodOf(values)
  {
    chk := 1;
    var k := 0;
    while k < |values|
      invariant 0 <= k <= |values|
      invariant Feed(Register(BECH32), chk, values[k..]) == PolymodOf(values)
    {
      chk := ShiftAndFold(BECH32, chk, values[k]);
      k := k + 1;
    }
  }

  /** bech32HRPExpand. */
  method ExpandHrp(hrp: string) returns (ret: seq<nat>)
    ensures ret == HrpExpand(hrp)
  {
    ret := [];
    var i := 0;
    while i < |hrp|
      invariant 0 <= i <= |hrp|
      invariant ret == HrpHigh(hrp)[..i]
    {
      ret := ret + [hrp[i] as int / 32];
      i := i + 1;
    }
    ret := ret + [0];
    i := 0;
    while i < |hrp|
      invariant 0 <= i <= |hrp|
      invariant ret == HrpHigh(hrp) + [0] + HrpLow(hrp)[..i]
    {
      ret := ret + [hrp[i] as int % 32];
      i := i + 1;
    }
  }

  /** bech32CreateChecksum. */
  method CreateChecksum(hrp: string, data: seq<int>) returns (ret: seq<int>)
    requires IsSymbols(data)
    ensures ret == ChecksumSymbols(hrp, data)
  {
    var expanded := ExpandHrp(hrp);
    var remainder := ComputePolymod(expanded + data + Zeros(6));
    ret := SplitSymbols(Xor(remainder, 1));
  }

  method SplitSymbols(polymod: nat) returns (ret: seq<int>)
    ensures ret == Digits(32, polymod, 6)
  {
    ret := [];
    var i := 0;
    while i < 6
      invariant 0 <= i <= 6 && ret == Digits(32, polymod / Pow(2, 5 * (6 - i)), i)
    {
      DigitsGoOn(polymod, i);
      ret := ret + [(polymod / Pow(2, 5 * (5 - i))) % 32];
      i := i + 1;
    }
    assert Pow(2, 0) == 1;
  }

  lemma {:induction false} DigitsGoOn(n: nat, i: nat)
    requires i < 6
    ensures Digits(32, n / Pow(2, 5 * (5 - i)), i + 1)
         == Digits(32, n / Pow(2, 5 * (6 - i)), i) + [(n / Pow(2, 5 * (5 - i))) % 32]
  {
    TakeSymbol(n, i);
  }

  lemma {:induction false} TakeSymbol(n: nat, i: nat)
    requires i < 6
    ensures n / Pow(2, 5 * (5 - i)) / 32 == n / Pow(2, 5 * (6 - i))
  {
    PowAdd(2, 5 * (5 - i), 5);
    assert Pow(2, 5) == 32;
    DivDiv(n, Pow(2, 5 * (5 - i)), 32);
  }

  /** Bech32Encode. */
  method Encode(hrp: string, data: seq<int>) returns (result: string)
    requires IsSymbols(data)
    ensures result == EncodeSpec(hrp, data)
  {
    var checksum := CreateChecksum(hrp, data);
    result := WriteSymbols(hrp + "1", data + checksum);
  }

  /** Bech32Decode. */
  method Decode(f: Folding, bech: string) returns (r: Option<Decoded>)
    ensures r == DecodeSpec(f, bech)
  {
    if ByteLength(bech) > 90 {
      return None;
    }
    var lower, upper := LowerOf(f, bech), UpperOf(f, bech);
    if bech != lower && bech != upper {
      return None;
    }
    var pos := LastIndexOf(lower, '1');
    if pos < 1 || ByteLength(lower[pos + 1..]) < 6 {
      return None;
    }
    r := DecodeData(lower[..pos], lower[pos + 1..]);
  }

  /** The second half of Bech32Decode: from the characters after the separator to checked data. */
  method DecodeData(hrp: string, payload: string) returns (r: Option<Decoded>)
    requires ByteLength(payload) >= 6
    ensures r == DecodeParts(hrp, payload)
  {
    var symbols := DecodeSymbols(payload);
    if symbols.None? {
      return None;
    }
    var valid := VerifyChecksum(hrp, symbols.value);
    if !valid {
      return None;
    }
    SymbolsLength(payload);
    return Some(Decoded(hrp, symbols.value[..|symbols.value| - 6]));
  }

  /** bech32VerifyChecksum. */
  method VerifyChecksum(hrp: string, data: seq<int>) returns (valid: bool)
    requires IsSymbols(data)
    ensures valid == ChecksumHolds(hrp, data)
  {
    var expanded := ExpandHrp(hrp);
    var chk := ComputePolymod(expanded + data);
    return chk == 1;
  }
}
