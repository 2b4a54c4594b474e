/**
 * What a submitted block is, from end to end: for every interleaving of registrations, refreshes and
 * removals, every retained job, every share and every address.
 */
module Submission {
  import opened BitcoinCash
  import opened Bits
  import opened Coinbase
  import opened Common
  import opened Difficulty
  import opened Jobs
  import opened Merkle
  import opened Positional
  import opened Registry
  import opened Script
  import opened ShareValidator
  import opened Transaction

  // Leaves.

  predicate IdsAreHashes(txs: seq<TemplateTx>) {
    forall i :: 0 <= i < |txs| ==> IdOf(txs[i]).Hex? && |IdOf(txs[i]).bytes| == 32
  }

  /** With decodable ids no transaction is skipped: leaf i is the byte-reversed id of transaction i. */
  lemma {:induction false} EveryIdCounts(txs: seq<TemplateTx>)
    requires IdsAreHashes(txs)
    ensures |TxHashes(txs)| == |txs| && AllHashes(TxHashes(txs))
    ensures forall i :: 0 <= i < |txs| ==> TxHashes(txs)[i] == Reversed(IdOf(txs[i]).bytes)
  {
    if txs != [] {
      EveryIdCounts(txs[..|txs| - 1]);
    }
  }

  /** The leaves are as many as the transactions exactly when every id is hex. */
  lemma {:induction false} SkippedIffNotHex(txs: seq<TemplateTx>)
    ensures |TxHashes(txs)| <= |txs|
    ensures |TxHashes(txs)| == |txs| <==> forall i :: 0 <= i < |txs| ==> IdOf(txs[i]).Hex?
  {
    if txs != [] {
      var init := txs[..|txs| - 1];
      SkippedIffNotHex(init);
      assert forall i :: 0 <= i < |init| ==> init[i] == txs[i];
    }
  }

  // The header.

  predicate HeaderReads(
      header: Bytes, version: uint32, prevHash: Bytes, root: Bytes, time: uint32, bits: uint32, nonce: uint32) {
    && |header| == 80
    && header[..4] == PutUint32LE(version) && header[4..36] == prevHash && header[36..68] == root
    && header[68..72] == PutUint32LE(time) && header[72..76] == PutUint32LE(bits) && header[76..] == PutUint32LE(nonce)
  }

  lemma {:induction false} HeaderIsRead(
      version: uint32, prevHash: Bytes32, root: Bytes32, time: uint32, bits: uint32, nonce: uint32)
    ensures HeaderReads(Header(version, prevHash, root, time, bits, nonce), version, prevHash, root, time, bits, nonce)
  {
    Sliced(PutUint32LE(version), prevHash, root, PutUint32LE(time), PutUint32LE(bits), PutUint32LE(nonce));
  }

  lemma {:induction false} Sliced(a: Bytes, b: Bytes, c: Bytes, d: Bytes, e: Bytes, f: Bytes)
    requires |a| == |d| == |e| == |f| == 4 && |b| == |c| == 32
    ensures var s := a + b + c + d + e + f;
            && |s| == 80 && s[..4] == a && s[4..36] == b && s[36..68] == c && s[68..72] == d && s[72..76] == e
            && s[76..] == f
  {
  }

  /** A four-byte hex field goes into the header with its bytes reversed. */
  lemma {:induction false} WordIsReversed(x: Hex)
    requires IsWord(x)
    ensures PutUint32LE(WordOf(x)) == Reversed(x.bytes)
  {
    ValueIsReversed(x.bytes);
  }

  lemma {:induction false} ValueIsReversed(b: Bytes)
    ensures Value(256, b) >= 0 && PutLE(Value(256, b), |b|) == Reversed(b)
  {
    ValueBound(256, b);
    if b != [] {
      var init, last := b[..|b| - 1], b[|b| - 1];
      ValueIsReversed(init);
      ReversedSnoc(b);
      PutSnoc(Value(256, init), last, |init|);
    }
  }

  lemma {:induction false} ReversedSnoc(b: Bytes)
    requires b != []
    ensures Reversed(b) == [b[|b| - 1]] + Reversed(b[..|b| - 1])
  {
  }

  lemma {:induction false} PutSnoc(v: nat, d: byte, len: nat)
    ensures PutLE(v * 256 + d, len + 1) == [d] + PutLE(v, len)
  {
    DivModUnique(v * 256 + d, 256, v, d);
  }

  /** What the header's version differs from the job's by is exactly what the miner rolled. */
  lemma {:induction false} RolledBits(version: uint32, versionBits: Hex)
    ensures Xor(version, FinalVersion(version, versionBits)) == if IsWord(versionBits) then WordOf(versionBits) else 0
  {
    if IsWord(versionBits) {
      XorCancels(version, WordOf(versionBits));
    } else {
      XorSelf(version);
    }
  }

  /** The Merkle root a share's header gets is the root of the full tree. */
  lemma {:induction false} RootOfShare(c: Config, jd: JobData, coinbase: Bytes)
    requires FromTemplate(c, jd) && IdsAreHashes(jd.template.transactions)
    ensures Fold(c.coin.h, c.coin.h(coinbase), jd.job.branches)
         == Root(c.coin.h, [c.coin.h(coinbase)] + TxHashes(jd.template.transactions))
    ensures |Root(c.coin.h, [c.coin.h(coinbase)] + TxHashes(jd.template.transactions))| == 32
  {
    EveryIdCounts(jd.template.transactions);
    BranchesGiveRoot(c.coin.h, c.coin.h(coinbase), TxHashes(jd.template.transactions));
    RootIsHash(c.coin.h, c.coin.h(coinbase), TxHashes(jd.template.transactions));
  }

  lemma {:induction false} RootIsHash(h: Sha256d, coinbaseHash: Bytes32, rest: seq<Bytes>)
    ensures |Root(h, [coinbaseHash] + rest)| == 32
  {
    if rest != [] {
      LevelRootIsHash(h, [coinbaseHash] + rest);
    }
  }

  lemma {:induction false} LevelRootIsHash(h: Sha256d, level: seq<Bytes>)
    requires level != [] && |level[0]| == 32
    ensures |RootOfLevel(h, level)| == 32
    decreases |level|
  {
    if |level| > 1 {
      LevelRootIsHash(h, Up(h, level));
    }
  }

  lemma {:induction false} HeaderOfShare(c: Config, jd: JobData, coinb2: Bytes, miner: Miner, share: Share)
    requires FromTemplate(c, jd) && IdsAreHashes(jd.template.transactions) && WellFormed(jd, share)
    requires jd.template.previousBlockHash.Hex? && |jd.template.previousBlockHash.bytes| == 32
    ensures var h, t := c.coin.h, jd.template;
            HeaderReads(HeaderOf(h, jd, coinb2, miner, share), FinalVersion(t.version, share.versionBits),
                        Reversed(t.previousBlockHash.bytes),
                        Root(h, [h(CoinbaseOf(jd, coinb2, miner, share))] + TxHashes(t.transactions)),
                        WordOf(share.nTime), WordOf(t.bits), WordOf(share.nonce))
  {
    RootOfShare(c, jd, CoinbaseOf(jd, coinb2, miner, share));
    HeaderPrevHash(jd.template.previousBlockHash.bytes);
    HeaderIsRead(FinalVersion(jd.template.version, share.versionBits), Reversed(jd.template.previousBlockHash.bytes),
                 Root(c.coin.h, [c.coin.h(CoinbaseOf(jd, coinb2, miner, share))] + TxHashes(jd.template.transactions)),
                 WordOf(share.nTime), WordOf(jd.template.bits), WordOf(share.nonce));
  }

  // The coinbase.

  /** The extra outputs leave something between nothing and everything. */
  ghost predicate Affordable(s: Setup, t: Template) {
    && 0 <= Total(s.donation(t)) <= t.coinbaseValue
    && forall i :: 0 <= i < |s.donation(t)| ==> s.donation(t)[i].value >= 0
  }

  /** First this value to this script, then the extra outputs. */
  predicate PaysFirst(tx: Tx, height: int, tail: Bytes, value: int, script: Bytes, extra: seq<CoinbaseOutput>) {
    0 <= value < 0x8000_0000_0000_0000 && IsIntended(tx, height, tail, [CoinbaseOutput(value, script)] + extra)
  }

  /** A coinbase of height, text and extranonces whose first output pays the address what the extra outputs leave. */
  ghost predicate PaysAddress(s: Setup, t: Template, address: string, extraNonce: Bytes, coinbase: Bytes) {
    && TakeTx(coinbase).Ok? && TakeTx(coinbase).rest == []
    && ScriptOf(s.h, address, s.network).Some? && PaysHash160(ScriptOf(s.h, address, s.network).value)
    && PaysFirst(TakeTx(coinbase).value, t.height, s.coinbaseText + extraNonce, t.coinbaseValue - Total(s.donation(t)),
                 ScriptOf(s.h, address, s.network).value, s.donation(t))
  }

  lemma {:induction false} CoinbasePays(s: Setup, t: Template, address: string, extraNonce1: Bytes, extraNonce2: Bytes)
    requires Reasonable(s) && |address| < MAXADDRESS && IsValid(s.h, address, s.network)
    requires t.height > 0 && Affordable(s, t)
    requires |extraNonce1| + |extraNonce2| == s.extraNonce1Size + s.extraNonce2Size
    ensures RightCoinb2(s, t, address).Some?
    ensures PaysAddress(s, t, address, extraNonce1 + extraNonce2,
                        Assemble(RightCoinb1(s, t), extraNonce1, extraNonce2, RightCoinb2(s, t, address).value))
  {
    ValidIffStandardScript(s.h, address, s.network);
    ScriptShort(s.h, address, s.network);
    CoinbasePaysScript(s, t, ScriptOf(s.h, address, s.network).value, extraNonce1, extraNonce2);
  }

  lemma {:induction false} CoinbasePaysScript(
      s: Setup, t: Template, script: Bytes, extraNonce1: Bytes, extraNonce2: Bytes)
    requires Reasonable(s) && |script| < MAXLEN
    requires t.height > 0 && Affordable(s, t)
    requires |extraNonce1| + |extraNonce2| == s.extraNonce1Size + s.extraNonce2Size
    ensures var p := TakeTx(Assemble(RightCoinb1(s, t), extraNonce1, extraNonce2, Coinb2Paying(s, t, script)));
            && p.Ok? && p.rest == []
            && PaysFirst(p.value, t.height, s.coinbaseText + (extraNonce1 + extraNonce2),
                         t.coinbaseValue - Total(s.donation(t)), script, s.donation(t))
  {
    var declared, value, extra := s.extraNonce1Size + s.extraNonce2Size, t.coinbaseValue - Total(s.donation(t)),
        s.donation(t);
    HeightPushShort(t.height);
    NoWrap(value);
    assert Coinb2Paying(s, t, script) == Coinb2([CoinbaseOutput(value, script)] + extra);
    assert RightCoinb1(s, t) == Coinb1(t.height, s.coinbaseText, declared);
    ParsedPayment(t.height, s.coinbaseText, declared, extraNonce1, extraNonce2, value, script, extra);
  }

  lemma {:induction false} ParsedPayment(
      height: int64, text: Bytes, declared: nat, extraNonce1: Bytes, extraNonce2: Bytes,
                      value: int64, script: Bytes, extra: seq<CoinbaseOutput>)
    requires height > 0 && value >= 0 && |script| < MAXLEN && |extra| <= 1
    requires forall i :: 0 <= i < |extra| ==> extra[i].value >= 0 && |extra[i].script| <= 100
    requires |extraNonce1| + |extraNonce2| == declared && ScriptSigLen(height, text, declared) < MAXLEN
    ensures Sized([CoinbaseOutput(value, script)] + extra)
    ensures var p := TakeTx(Assemble(Coinb1(height, text, declared), extraNonce1, extraNonce2,
                                     Coinb2([CoinbaseOutput(value, script)] + extra)));
            && p.Ok? && p.rest == []
            && PaysFirst(p.value, height, text + (extraNonce1 + extraNonce2), value, script, extra)
  {
    ParsedBack(height, text, declared, extraNonce1, extraNonce2, [CoinbaseOutput(value, script)] + extra);
  }

  // The block.

  /** What the node and the configuration have to provide. */
  ghost predicate GoodTemplate(s: Setup, t: Template) {
    && t.height > 0 && Affordable(s, t)
    && t.previousBlockHash.Hex? && |t.previousBlockHash.bytes| == 32
    && IdsAreHashes(t.transactions) && |t.transactions| < MAXLEN
  }

  /**
   * The block is an 80-byte header with the reversed template hash, the root of the full tree over the
   * coinbase and all template transactions, and the template's bits; its hash is at most that target; the
   * coinbase pays the session's address the value minus the extra outputs first; and all template
   * transactions come after it.
   */
  ghost predicate IsPayingBlock(s: Setup, t: Template, miner: Miner, share: Share,
                                block: Bytes, header: Bytes, coinbase: Bytes, data: Bytes)
    requires |t.transactions| < MAXLEN
  {
    && t.previousBlockHash.Hex? && share.extraNonce2.Hex?
    && IsWord(share.nTime) && IsWord(share.nonce) && IsWord(t.bits)
    && block == header + SerializeVarInt(|t.transactions| + 1) + coinbase + data
    && TransactionData(t.transactions) == Some(data)
    && HeaderReads(header, FinalVersion(t.version, share.versionBits), Reversed(t.previousBlockHash.bytes),
                   Root(s.h, [s.h(coinbase)] + TxHashes(t.transactions)),
                   WordOf(share.nTime), WordOf(t.bits), WordOf(share.nonce))
    && HashMeetsTarget(BlockHash(s.h, header), CompactToBig(WordOf(t.bits)))
    && PaysAddress(s, t, miner.miningAddress, miner.extraNonce1 + share.extraNonce2.bytes, coinbase)
  }

  /** The extranonces together have the size the coinbase declares. */
  predicate DeclaredSize(s: Setup, miner: Miner, share: Share) {
    share.extraNonce2.Hex? ==>
      |miner.extraNonce1| + |share.extraNonce2.bytes| == s.extraNonce1Size + s.extraNonce2Size
  }

  /**
   * Every block that validating a share submits, for every job any interleaving retains and every
   * extranonce pair of the declared total size, is such a block for the job's template.
   */
  lemma {:induction false} EverySubmittedBlock(
      s: Setup, fallback: string, states: seq<State>, events: seq<Event>, i: nat, id: nat,
      miner: Miner, share: Share, grace: real, now: real, v: Verdict)
    returns (header: Bytes, coinbase: Bytes, data: Bytes)
    requires Reasonable(s) && i <= |events| && i < |states| && IsRun(Config(BchCoin(s), fallback), states, events, i)
    requires id in states[i].jobs && miner.miningAddress in states[i].jobs[id].addressCoinb2s
    requires GoodTemplate(s, states[i].jobs[id].template) && DeclaredSize(s, miner, share)
    requires var jd := states[i].jobs[id];
             Judged(s.h, jd, jd.addressCoinb2s[miner.miningAddress], miner, share, grace, now, v)
    requires v.Accepted? && v.submitted.Some?
    ensures IsPayingBlock(s, states[i].jobs[id].template, miner, share, v.submitted.value, header, coinbase, data)
  {
    var c := Config(BchCoin(s), fallback);
    BchCoinIsSound(s);
    RunKeepsInv(c, states, events, i);
    header, coinbase, data := SubmittedBlock(s, c, states[i].jobs[id], miner, share, grace, now, v);
  }

  lemma {:induction false} SubmittedBlock(
      s: Setup, c: Config, jd: JobData, miner: Miner, share: Share, grace: real, now: real, v: Verdict)
    returns (header: Bytes, coinbase: Bytes, data: Bytes)
    requires Reasonable(s) && c.coin == BchCoin(s) && RightJob(c, jd) && FromTemplate(c, jd)
    requires miner.miningAddress in jd.addressCoinb2s && GoodTemplate(s, jd.template) && DeclaredSize(s, miner, share)
    requires Judged(s.h, jd, jd.addressCoinb2s[miner.miningAddress], miner, share, grace, now, v)
    requires v.Accepted? && v.submitted.Some?
    ensures IsPayingBlock(s, jd.template, miner, share, v.submitted.value, header, coinbase, data)
  {
    var coinb2 := jd.addressCoinb2s[miner.miningAddress];
    assert WellFormed(jd, share);
    header, coinbase := HeaderOf(s.h, jd, coinb2, miner, share), CoinbaseOf(jd, coinb2, miner, share);
    data := TransactionData(jd.template.transactions).value;
    HeaderOfShare(c, jd, coinb2, miner, share);
    StoredHalves(s, c, jd, miner.miningAddress);
    CoinbasePays(s, jd.template, miner.miningAddress, miner.extraNonce1, share.extraNonce2.bytes);
  }

  lemma {:induction false} StoredHalves(s: Setup, c: Config, jd: JobData, address: string)
    requires Reasonable(s) && c.coin == BchCoin(s) && RightJob(c, jd) && address in jd.addressCoinb2s
    ensures |address| < MAXADDRESS && IsValid(s.h, address, s.network)
    ensures jd.coinb1 == RightCoinb1(s, jd.template)
    ensures RightCoinb2(s, jd.template, address) == Some(jd.addressCoinb2s[address])
  {
    CoinIs(s, jd.template, address);
  }

  /** What the Bitcoin Cash coin is made of. */
  lemma {:induction false} CoinIs(s: Setup, t: Template, a: string)
    requires Reasonable(s)
    ensures var c := BchCoin(s);
            && (c.registrable(a) <==> |a| < MAXADDRESS && IsValid(s.h, a, s.network))
            && c.first(t) == RightCoinb1(s, t)
            && (|a| < MAXADDRESS && c.build(t, a).Some? ==>
                  && c.build(t, a).value.coinb1 == RightCoinb1(s, t)
                  && RightCoinb2(s, t, a) == Some(c.build(t, a).value.coinb2))
  {
    if |a| < MAXADDRESS {
      assert BchCoin(s).build(t, a) == BchParts(s, t, a);
    }
  }
}
