/** Jobs and how a block template becomes one (pkg/engine/jobmanager.go, solo mode). */
module Jobs {
  import opened BitcoinCash
  import opened Common
  import opened Merkle
  import opened Script

  datatype Job = Job(id: nat, prevHash: Hex, coinb1: Bytes, coinb2: Bytes, branches: seq<Bytes>,
                     version: uint32, nBits: Hex, nTime: int, cleanJobs: bool)

  datatype JobData = JobData(job: Job, template: Template, coinb1: Bytes, coinb2: Bytes,
                             addressCoinb2s: map<string, Bytes>, created: int)

  // Transaction hashes.

  /** The id of a template transaction: its txid, or its hash when the txid is empty. */
  function IdOf(tx: TemplateTx): Hex {
    if tx.txid == Hex([]) then tx.hash else tx.txid
  }

  /** The hashes that enter the tree: byte-reversed ids, undecodable ones skipped. */
  function TxHashes(txs: seq<TemplateTx>): seq<Bytes> {
    if txs == [] then []
    else
      var init, id := TxHashes(txs[..|txs| - 1]), IdOf(txs[|txs| - 1]);
      if id.Bad? then init else init + [Reversed(id.bytes)]
  }

  /** computeMerkleBranches. */
  method ComputeMerkleBranches(h: Sha256d, t: Template) returns (branches: seq<Bytes>)
    ensures branches == Branches(h, TxHashes(t.transactions))
  {
    if |t.transactions| == 0 {
      return [];
    }
    var txHashes: seq<Bytes> := [];
    var i := 0;
    while i < |t.transactions|
      invariant 0 <= i <= |t.transactions|
      invariant txHashes == TxHashes(t.transactions[..i])
    {
      assert t.transactions[..i + 1][..i] == t.transactions[..i];
      var hashHex := t.transactions[i].txid;
      if hashHex == Hex([]) {
        hashHex := t.transactions[i].hash;
      }
      if !hashHex.Bad? {
        var reversed := ReverseBytes(hashHex.bytes);
        txHashes := txHashes + [reversed];
      }
      i := i + 1;
    }
    assert t.transactions[..i] == t.transactions;
    branches := ComputeBranches(h, txHashes);
  }

  // The previous block hash.

  /** Bytes reversed within each complete four-byte word. */
  function SwapWords(b: Bytes): (r: Bytes)
    ensures |r| == |b|
  {
    if |b| < 4 then b else [b[3], b[2], b[1], b[0]] + SwapWords(b[4..])
  }

  /** The Stratum form of a block hash; anything that is not 64 hex digits is passed through. */
  function StratumPrevHash(hash: Hex): Hex {
    if hash.Hex? && |hash.bytes| == 32 then Hex(SwapWords(Reversed(hash.bytes))) else hash
  }

  /** swapHashEndianness, in place on the decoded bytes. */
  method SwapHashEndianness(hash: Hex) returns (r: Hex)
    ensures r == StratumPrevHash(hash)
  {
    if hash.Bad? || |hash.bytes| != 32 {
      return hash;
    }
    var data := new byte[|hash.bytes|](i requires 0 <= i < |hash.bytes| => hash.bytes[i]);
    assert data[..] == hash.bytes;
    ReverseInPlace(data);
    SwapWordsInPlace(data);
    return Hex(data[..]);
  }

  method ReverseInPlace(data: array<byte>)
    modifies data
    ensures data[..] == Reversed(old(data[..]))
  {
    var i := 0;
    while i < data.Length / 2
      invariant 0 <= i <= data.Length / 2
      invariant forall k :: 0 <= k < i
                  ==> data[k] == old(data[data.Length - 1 - k]) && data[data.Length - 1 - k] == old(data[k])
      invariant forall k :: i <= k < data.Length - i ==> data[k] == old(data[k])
    {
      data[i], data[data.Length - 1 - i] := data[data.Length - 1 - i], data[i];
      i := i + 1;
    }
  }

  method SwapWordsInPlace(data: array<byte>)
    modifies data
    ensures data[..] == SwapWords(old(data[..]))
  {
    ghost var was, done: Bytes, rest := data[..], [], data[..];
    var i := 0;
    while i + 4 <= data.Length
      invariant 0 <= i <= data.Length && |done| == i
      invariant data[..] == done + rest
      invariant done + SwapWords(rest) == SwapWords(was)
    {
      AroundWord(data[..], done, rest);
      SwapWordAt(data, i);
      done := done + [rest[3], rest[2], rest[1], rest[0]];
      rest := rest[4..];
      i := i + 4;
    }
  }

  lemma {:induction false} AroundWord(data: Bytes, done: Bytes, rest: Bytes)
    requires |rest| >= 4 && data == done + rest
    ensures var i := |done|;
            && data[..i] == done && data[i + 4..] == rest[4..]
            && data[i] == rest[0] && data[i + 1] == rest[1] && data[i + 2] == rest[2] && data[i + 3] == rest[3]
    ensures done + SwapWords(rest) == done + [rest[3], rest[2], rest[1], rest[0]] + SwapWords(rest[4..])
  {
    Assoc2(done, [rest[3], rest[2], rest[1], rest[0]], SwapWords(rest[4..]));
    Split(done, rest);
  }

  lemma {:induction false} Split(done: Bytes, rest: Bytes)
    requires |rest| >= 4
    ensures var i, data := |done|, done + rest;
            && data[..i] == done && data[i + 4..] == rest[4..]
            && data[i] == rest[0] && data[i + 1] == rest[1] && data[i + 2] == rest[2] && data[i + 3] == rest[3]
  {
  }

  method SwapWordAt(data: array<byte>, i: nat)
    requires i + 4 <= data.Length
    modifies data
    ensures data[..] == old(data[..][..i]) + [old(data[i + 3]), old(data[i + 2]), old(data[i + 1]), old(data[i])]
            + old(data[..][i + 4..])
  {
    data[i], data[i + 3] := data[i + 3], data[i];
    data[i + 1], data[i + 2] := data[i + 2], data[i + 1];
  }

  /** The same with an incomplete last word zeroed. */
  function SwapWordsZero(b: Bytes): (r: Bytes)
    ensures |r| == |b|
  {
    if |b| < 4 then Zeros(|b|) else [b[3], b[2], b[1], b[0]] + SwapWordsZero(b[4..])
  }

  /** swapEndianWords: a new buffer, where an incomplete last word stays zero. */
  method SwapEndianWords(hash: Hex) returns (result: Bytes)
    ensures result == if hash.Bad? then [] else SwapWordsZero(hash.bytes)
  {
    if hash.Bad? {
      return [];
    }
    var data := hash.bytes;
    result := [];
    var i := 0;
    while i + 4 <= |data|
      invariant 0 <= i <= |data|
      invariant result + SwapWordsZero(data[i..]) == SwapWordsZero(data)
    {
      OneWord(result, data, i);
      result := result + [data[i + 3], data[i + 2], data[i + 1], data[i]];
      i := i + 4;
    }
    result := result + Zeros(|data| - i);
  }

  lemma {:induction false} OneWord(done: Bytes, data: Bytes, i: nat)
    requires i + 4 <= |data|
    ensures done + SwapWordsZero(data[i..])
            == done + [data[i + 3], data[i + 2], data[i + 1], data[i]] + SwapWordsZero(data[i + 4..])
  {
    Assoc2(done, [data[i + 3], data[i + 2], data[i + 1], data[i]], SwapWordsZero(data[i + 4..]));
    assert data[i..][4..] == data[i + 4..];
  }

  /** With complete words only, the two swaps are the same. */
  lemma {:induction false} WholeWordsSwapped(b: Bytes)
    ensures |b| % 4 == 0 ==> SwapWordsZero(b) == SwapWords(b)
  {
    if |b| >= 4 {
      WholeWordsSwapped(b[4..]);
    }
  }

  /** Word swapping undoes itself. */
  lemma {:induction false} SwapWordsTwice(b: Bytes)
    ensures SwapWords(SwapWords(b)) == b
  {
    if |b| >= 4 {
      SwapWordsTwice(b[4..]);
      assert SwapWords(b)[4..] == SwapWords(b[4..]);
    }
  }

  /** The header carries the displayed block hash with all its bytes reversed. */
  lemma {:induction false} HeaderPrevHash(hash: Bytes32)
    ensures SwapWordsZero(StratumPrevHash(Hex(hash)).bytes) == Reversed(hash)
  {
    WholeWordsSwapped(StratumPrevHash(Hex(hash)).bytes);
    SwapWordsTwice(Reversed(hash));
  }

  // From template to job.

  /**
   * What the job manager asks of a coin: both coinbase halves for a template and an address, or failure.
   * `first` and `registrable` only describe it: the first half it builds for a template, and the addresses
   * its authorize handler lets through.
   */
  datatype Coin = Coin(h: Sha256d, build: (Template, string) -> Option<Parts>,
                       first: Template -> Bytes, registrable: string -> bool)

  /** First halves depend on the template alone and are never empty; addresses let through can be paid. */
  ghost predicate SoundCoin(c: Coin) {
    && (forall t :: c.first(t) != [])
    && (forall t, a :: c.build(t, a).Some? ==> c.build(t, a).value.coinb1 == c.first(t))
    && (forall t, a :: c.registrable(a) ==> c.build(t, a).Some?)
  }

  /** Bitcoin Cash with a fixed setup: what BuildCoinbase and ValidateAddress compute. */
  ghost function BchCoin(s: Setup): Coin
    requires Reasonable(s)
  {
    Coin(s.h,
         (t: Template, a: string) => if |a| < MAXADDRESS then BchParts(s, t, a) else None,
         (t: Template) => RightCoinb1(s, t),
         (a: string) => |a| < MAXADDRESS && IsValid(s.h, a, s.network))
  }

  ghost function BchParts(s: Setup, t: Template, a: string): Option<Parts>
    requires Reasonable(s) && |a| < MAXADDRESS
  {
    match RightCoinb2(s, t, a)
    case None => None
    case Some(coinb2) => Some(Parts(RightCoinb1(s, t), coinb2))
  }

  lemma {:induction false} BchCoinIsSound(s: Setup)
    requires Reasonable(s)
    ensures SoundCoin(BchCoin(s))
  {
    forall t ensures RightCoinb1(s, t) != [] {
      FirstHalfNotEmpty(s, t);
    }
    forall t, a
      ensures BchCoin(s).build(t, a).Some? ==> BchCoin(s).build(t, a).value.coinb1 == BchCoin(s).first(t)
      ensures BchCoin(s).registrable(a) ==> BchCoin(s).build(t, a).Some?
    {
      if |a| < MAXADDRESS {
        BchPartsSound(s, t, a);
      }
    }
  }

  lemma {:induction false} FirstHalfNotEmpty(s: Setup, t: Template)
    requires Reasonable(s)
    ensures RightCoinb1(s, t) != []
  {
    assert |RightCoinb1(s, t)| >= 4;
  }

  lemma {:induction false} BchPartsSound(s: Setup, t: Template, a: string)
    requires Reasonable(s) && |a| < MAXADDRESS
    ensures BchParts(s, t, a).Some? ==> BchParts(s, t, a).value.coinb1 == RightCoinb1(s, t)
    ensures IsValid(s.h, a, s.network) ==> BchParts(s, t, a).Some?
  {
    if IsValid(s.h, a, s.network) {
      ValidHasCoinb2(s, t, a);
    }
  }

  /** The second halves of all addresses that can be paid. */
  function AllCoinb2s(c: Coin, t: Template, addresses: set<string>): map<string, Bytes> {
    map a | a in addresses && c.build(t, a).Some? :: c.build(t, a).value.coinb2
  }

  /** Registering an address with one job: a second half, and a first half if there was none. */
  function FillJob(c: Coin, jd: JobData, address: string): JobData {
    if address in jd.addressCoinb2s || c.build(jd.template, address).None? then jd
    else
      var parts := c.build(jd.template, address).value;
      var filled := jd.(addressCoinb2s := jd.addressCoinb2s[address := parts.coinb2]);
      if jd.coinb1 != [] then filled
      else filled.(coinb1 := parts.coinb1, job := jd.job.(coinb1 := parts.coinb1))
  }
}
