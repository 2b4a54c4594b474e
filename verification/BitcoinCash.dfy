/** The Bitcoin Cash coin (pkg/coin/bitcoincash.go): addresses, coinbase and block assembly. */
module BitcoinCash {
  import opened Common
  import opened Coinbase
  import opened Script
  import Base58
  import CashAddr

  /** A hex field on the wire: the bytes it denotes, or the text when it is not hex. Empty text is Hex([]). */
  datatype Hex = Hex(bytes: Bytes) | Bad(text: string)

  /** One template transaction: its txid and hash fields and its raw data. */
  datatype TemplateTx = TemplateTx(txid: Hex, hash: Hex, data: Hex)

  /** The parts of getblocktemplate's reply that solo mining uses. */
  datatype Template = Template(
    version: uint32, previousBlockHash: Hex, transactions: seq<TemplateTx>,
    coinbaseValue: int64, curTime: int, bits: Hex, height: int64)

  function Prefix(network: string): string {
    if network == "testnet" then "bchtest" else "bitcoincash"
  }

  function P2pkhVersion(network: string): byte {
    if network == "testnet" then 0x6F else 0x00
  }

  function P2shVersion(network: string): byte {
    if network == "testnet" then 0xC4 else 0x05
  }

  /** ValidateAddress accepts. */
  ghost predicate IsValid(h: Sha256d, address: string, network: string) {
    match CashAddr.DecodeSpec(address, Prefix(network))
    case Some(d) => d.hashType <= 1 && |d.hash| == 20
    case None =>
      match Base58.CheckDecode(h, address)
      case Some(c) => |c.payload| == 20 && (c.version == P2pkhVersion(network) || c.version == P2shVersion(network))
      case None => false
  }

  /** The output script AddressToScript builds. */
  ghost function ScriptOf(h: Sha256d, address: string, network: string): Option<Bytes> {
    match CashAddr.DecodeSpec(address, Prefix(network))
    case Some(d) => CashScript(d)
    case None =>
      match Base58.CheckDecode(h, address)
      case Some(c) => LegacyScript(c, network)
      case None => None
  }

  function CashScript(d: CashAddr.Decoded): Option<Bytes> {
    if d.hashType == 0 then Some(P2PKHScript(d.hash))
    else if d.hashType == 1 then Some(P2SHScript(d.hash))
    else None
  }

  function LegacyScript(c: Base58.Checked, network: string): Option<Bytes> {
    if c.version == P2pkhVersion(network) then Some(P2PKHScript(c.payload))
    else if c.version == P2shVersion(network) then Some(P2SHScript(c.payload))
    else None
  }

  /** A script that pays a 20-byte key hash or script hash. */
  ghost predicate PaysHash160(script: Bytes) {
    exists hash: Bytes :: |hash| == 20 && (script == P2PKHScript(hash) || script == P2SHScript(hash))
  }

  /**
   * Validated means scriptable, and more: an address validates exactly when its script is a
   * pay-to-key-hash or pay-to-script-hash script over 20 bytes.
   */
  lemma {:induction false} ValidIffStandardScript(h: Sha256d, address: string, network: string)
    ensures IsValid(h, address, network)
       <==> ScriptOf(h, address, network).Some? && PaysHash160(ScriptOf(h, address, network).value)
  {
    match CashAddr.DecodeSpec(address, Prefix(network))
    case Some(d) =>
      CashScriptIsStandard(d);
    case None =>
      match Base58.CheckDecode(h, address)
      case Some(c) =>
        LegacyScriptIsStandard(c, network);
      case None =>
  }

  lemma {:induction false} CashScriptIsStandard(d: CashAddr.Decoded)
    ensures 0 <= d.hashType <= 1 && |d.hash| == 20 <==> CashScript(d).Some? && PaysHash160(CashScript(d).value)
  {
    if 0 <= d.hashType <= 1 {
      HashLength(d.hash, d.hashType == 0);
    }
  }

  lemma {:induction false} LegacyScriptIsStandard(c: Base58.Checked, network: string)
    ensures |c.payload| == 20 && (c.version == P2pkhVersion(network) || c.version == P2shVersion(network))
       <==> LegacyScript(c, network).Some? && PaysHash160(LegacyScript(c, network).value)
  {
    HashLength(c.payload, c.version == P2pkhVersion(network));
  }

  lemma {:induction false} HashLength(hash: Bytes, keyHash: bool)
    ensures PaysHash160(if keyHash then P2PKHScript(hash) else P2SHScript(hash)) <==> |hash| == 20
  {
    var script := if keyHash then P2PKHScript(hash) else P2SHScript(hash);
    if PaysHash160(script) {
      var x: Bytes :| |x| == 20 && (script == P2PKHScript(x) || script == P2SHScript(x));
      assert P2PKHScript(x)[0] == 0x76 && P2SHScript(x)[0] == 0xa9;
      assert script[0] == if keyHash then 0x76 else 0xa9;
    }
  }

  /** ValidateAddress. */
  method ValidateAddress(h: Sha256d, address: string, network: string) returns (valid: bool)
    ensures valid == IsValid(h, address, network)
  {
    var cashAddr := CashAddr.Decode(address, Prefix(network));
    if cashAddr.Some? {
      if cashAddr.value.hashType > 1 {
        return false;
      }
      if |cashAddr.value.hash| != 20 {
        return false;
      }
      return true;
    }
    var legacy := Base58CheckDecode(h, address);
    if legacy.None? {
      return false;
    }
    if |legacy.value.payload| != 20 {
      return false;
    }
    if legacy.value.version != P2pkhVersion(network) && legacy.value.version != P2shVersion(network) {
      return false;
    }
    return true;
  }

  /** AddressToScript. */
  method AddressToScript(h: Sha256d, address: string, network: string) returns (script: Option<Bytes>)
    ensures script == ScriptOf(h, address, network)
  {
    var cashAddr := CashAddr.Decode(address, Prefix(network));
    if cashAddr.Some? {
      if cashAddr.value.hashType == 0 {
        return Some(P2PKHScript(cashAddr.value.hash));
      }
      if cashAddr.value.hashType == 1 {
        return Some(P2SHScript(cashAddr.value.hash));
      }
      return None;
    }
    var legacy := Base58CheckDecode(h, address);
    if legacy.None? {
      return None;
    }
    if legacy.value.version == P2pkhVersion(network) {
      return Some(P2PKHScript(legacy.value.payload));
    }
    if legacy.value.version == P2shVersion(network) {
      return Some(P2SHScript(legacy.value.payload));
    }
    return None;
  }

  /** Base58CheckDecode (pkg/coin/base58.go). */
  method Base58CheckDecode(h: Sha256d, address: string) returns (r: Option<Base58.Checked>)
    ensures r == Base58.CheckDecode(h, address)
  {
    var decoded := Base58.Decode(address);
    if decoded.None? || |decoded.value| < 5 {
      return None;
    }
    var payload := decoded.value[..|decoded.value| - 4];
    var checksum := decoded.value[|decoded.value| - 4..];
    var hash := h(payload);
    if hash[0] != checksum[0] || hash[1] != checksum[1] || hash[2] != checksum[2] || hash[3] != checksum[3] {
      assert hash[..4] != checksum;
      return None;
    }
    assert hash[..4] == checksum;
    return Some(Base58.Checked(payload[0], payload[1..]));
  }

  // The coinbase.

  /** int64 arithmetic. */
  function WrapInt64(x: int): int64 {
    (x + 0x8000_0000_0000_0000) % 0x1_0000_0000_0000_0000 - 0x8000_0000_0000_0000
  }

  function Total(outputs: seq<CoinbaseOutput>): int {
    if outputs == [] then 0 else Total(outputs[..|outputs| - 1]) + outputs[|outputs| - 1].value
  }

  /** The outputs of the coinbase: the pool first, with what the extra outputs leave. */
  function Outputs(value: int64, script: Bytes, extra: seq<CoinbaseOutput>): seq<CoinbaseOutput> {
    [CoinbaseOutput(WrapInt64(value - Total(extra)), script)] + extra
  }

  /** How the job manager calls BuildCoinbase: everything but the template and the address is fixed. */
  datatype Setup = Setup(h: Sha256d, network: string, coinbaseText: Bytes, extraNonce1Size: nat, extraNonce2Size: nat,
                         donation: Template -> seq<CoinbaseOutput>)

  /** How NewJobManager splits the configured extranonce size: four bytes, and the rest but at least two. */
  function SetupOf(h: Sha256d, network: string, coinbaseText: Bytes, extraNonceSize: int,
                   donation: Template -> seq<CoinbaseOutput>): Setup
  {
    Setup(h, network, coinbaseText, 4, Max(extraNonceSize - 4, 2), donation)
  }

  /** Nothing the source builds comes near these sizes. */
  ghost predicate Reasonable(s: Setup) {
    && |s.coinbaseText| + s.extraNonce1Size + s.extraNonce2Size < 0x1_0000_0000
    && forall t :: |s.donation(t)| <= 1 && forall i :: 0 <= i < |s.donation(t)| ==> |s.donation(t)[i].script| <= 100
  }

  /** An address as long as a 16 KB Stratum line or a configuration file could carry. */
  const MAXADDRESS: nat := 0x1_0000_0000

  lemma {:induction false} ScriptShort(h: Sha256d, address: string, network: string)
    requires ScriptOf(h, address, network).Some?
    ensures |ScriptOf(h, address, network).value| <= |address| + 100
  {
    var d := CashAddr.DecodeSpec(address, Prefix(network));
    if d.Some? {
      CashAddr.HashIsShort(address, Prefix(network));
      CashScriptShort(d.value);
    } else {
      Base58.DecodedIsShort(address);
      LegacyScriptShort(Base58.CheckDecode(h, address).value, network);
    }
  }

  lemma {:induction false} CashScriptShort(d: CashAddr.Decoded)
    ensures CashScript(d).Some? ==> |CashScript(d).value| <= |d.hash| + 25
  {
  }

  lemma {:induction false} LegacyScriptShort(c: Base58.Checked, network: string)
    ensures LegacyScript(c, network).Some? ==> |LegacyScript(c, network).value| <= |c.payload| + 25
  {
  }

  lemma {:induction false} HeightPushShort(height: int64)
    ensures |SerializeHeightSpec(height)| <= 10
  {
    if height > 0 {
      HeightBytesShort(height);
    }
  }

  datatype Parts = Parts(coinb1: Bytes, coinb2: Bytes)

  ghost function RightCoinb1(s: Setup, t: Template): Bytes
    requires Reasonable(s)
  {
    HeightPushShort(t.height);
    Coinb1(t.height, s.coinbaseText, s.extraNonce1Size + s.extraNonce2Size)
  }

  /** The second half that pays this script first. */
  ghost function Coinb2Paying(s: Setup, t: Template, script: Bytes): Bytes
    requires Reasonable(s) && |script| < MAXLEN
  {
    Coinb2(Outputs(t.coinbaseValue, script, s.donation(t)))
  }

  /** The second half for an address; None when the address has no script. */
  ghost function RightCoinb2(s: Setup, t: Template, address: string): Option<Bytes>
    requires Reasonable(s) && |address| < MAXADDRESS
  {
    match ScriptOf(s.h, address, s.network)
    case None => None
    case Some(script) =>
      ScriptShort(s.h, address, s.network);
      Some(Coinb2Paying(s, t, script))
  }

  /** BuildCoinbase. */
  method BuildCoinbase(s: Setup, t: Template, address: string) returns (r: Option<Parts>)
    requires Reasonable(s) && |address| < MAXADDRESS
    ensures r.Some? <==> RightCoinb2(s, t, address).Some?
    ensures r.Some? ==> r.value == Parts(RightCoinb1(s, t), RightCoinb2(s, t, address).value)
  {
    var script := AddressToScript(s.h, address, s.network);
    if script.None? {
      return None;
    }
    ScriptShort(s.h, address, s.network);
    var parts := BuildPaying(s, t, script.value);
    return Some(parts);
  }

  /** The rest of BuildCoinbase, once the script is known. */
  method BuildPaying(s: Setup, t: Template, script: Bytes) returns (parts: Parts)
    requires Reasonable(s) && |script| < MAXLEN
    ensures parts == Parts(RightCoinb1(s, t), Coinb2Paying(s, t, script))
  {
    var extraOutputs := s.donation(t);
    var poolValue := SubtractAll(t.coinbaseValue, extraOutputs);
    var outputs := [CoinbaseOutput(poolValue, script)];
    outputs := outputs + extraOutputs;
    assert outputs == Outputs(t.coinbaseValue, script, extraOutputs);
    HeightPushShort(t.height);
    var c1, c2 := BuildCoinbaseParts(t.height, s.coinbaseText, s.extraNonce1Size, s.extraNonce2Size, outputs);
    return Parts(c1, c2);
  }

  lemma {:induction false} NoWrap(x: int)
    requires -0x8000_0000_0000_0000 <= x < 0x8000_0000_0000_0000
    ensures WrapInt64(x) == x
  {
  }

  /** Wrapping now or later makes no difference. */
  lemma {:induction false} WrapTwice(x: int, y: int)
    ensures WrapInt64(WrapInt64(x) - y) == WrapInt64(x - y)
  {
  }

  /** The pool value loop of BuildCoinbase, in wrapping arithmetic. */
  method SubtractAll(value: int64, extra: seq<CoinbaseOutput>) returns (poolValue: int64)
    ensures poolValue == WrapInt64(value - Total(extra))
  {
    poolValue := value;
    var i := 0;
    while i < |extra|
      invariant 0 <= i <= |extra|
      invariant poolValue == WrapInt64(value - Total(extra[..i]))
    {
      assert extra[..i + 1][..i] == extra[..i];
      WrapTwice(value - Total(extra[..i]), extra[i].value);
      poolValue := WrapInt64(poolValue - extra[i].value);
      i := i + 1;
    }
    assert extra[..i] == extra;
  }

  /** A validated address always has a second half. */
  lemma {:induction false} ValidHasCoinb2(s: Setup, t: Template, address: string)
    requires Reasonable(s) && |address| < MAXADDRESS && IsValid(s.h, address, s.network)
    ensures RightCoinb2(s, t, address).Some?
  {
    ValidIffStandardScript(s.h, address, s.network);
  }

  // Blocks.

  /** The transactions' bytes, or None if one is not hex. */
  function TransactionData(txs: seq<TemplateTx>): Option<Bytes> {
    if txs == [] then Some([])
    else
      match TransactionData(txs[..|txs| - 1])
      case None => None
      case Some(init) => if txs[|txs| - 1].data.Bad? then None else Some(init + txs[|txs| - 1].data.bytes)
  }

  /** BuildBlock. */
  method BuildBlock(header: Bytes, coinbaseTx: Bytes, t: Template) returns (r: Option<Bytes>)
    requires |t.transactions| < MAXLEN
    ensures r == match TransactionData(t.transactions)
                 case None => None
                 case Some(data) => Some(header + SerializeVarInt(|t.transactions| + 1) + coinbaseTx + data)
  {
    var prefix := header;
    prefix := prefix + SerializeVarInt(|t.transactions| + 1);
    prefix := prefix + coinbaseTx;
    var block := prefix;
    var i := 0;
    while i < |t.transactions|
      invariant 0 <= i <= |t.transactions|
      invariant TransactionData(t.transactions[..i]).Some?
                && block == prefix + TransactionData(t.transactions[..i]).value
    {
      assert t.transactions[..i + 1][..i] == t.transactions[..i];
      if t.transactions[i].data.Bad? {
        NotAllHex(t.transactions, i + 1);
        return None;
      }
      block := block + t.transactions[i].data.bytes;
      i := i + 1;
    }
    assert t.transactions[..i] == t.transactions;
    return Some(block);
  }

  lemma {:induction false} NotAllHex(txs: seq<TemplateTx>, i: nat)
    requires i <= |txs| && TransactionData(txs[..i]).None?
    ensures TransactionData(txs).None?
    decreases |txs| - i
  {
    if i < |txs| {
      assert txs[..i + 1][..i] == txs[..i];
      NotAllHex(txs, i + 1);
    } else {
      assert txs[..i] == txs;
    }
  }
}
