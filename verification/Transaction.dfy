/** The Bitcoin transaction wire format: the reference printer and parser, without and with witness (BIP144). */
module Transaction {
  import opened Common
  import opened Script

  datatype TxIn = TxIn(prevHash: Bytes32, prevIndex: uint32, script: Bytes, sequence: uint32)
  datatype TxOut = TxOut(value: uint64, script: Bytes)
  datatype Tx = Tx(version: uint32, ins: seq<TxIn>, outs: seq<TxOut>, lockTime: uint32)
  datatype WitnessTx = WitnessTx(tx: Tx, stacks: seq<seq<Bytes>>)

  /** Counts and lengths that fit their VarInt. */
  const LIMIT: nat := 0x1_0000_0000_0000_0000

  predicate ValidTx(tx: Tx) {
    && |tx.ins| < LIMIT && |tx.outs| < LIMIT
    && (forall i :: 0 <= i < |tx.ins| ==> |tx.ins[i].script| < LIMIT)
    && (forall i :: 0 <= i < |tx.outs| ==> |tx.outs[i].script| < LIMIT)
  }

  // Printing.

  function PutBlob(b: Bytes): Bytes
    requires |b| < LIMIT
  {
    SerializeVarInt(|b|) + b
  }

  function PutIn(i: TxIn): Bytes
    requires |i.script| < LIMIT
  {
    i.prevHash + PutUint32LE(i.prevIndex) + PutBlob(i.script) + PutUint32LE(i.sequence)
  }

  function PutOut(o: TxOut): Bytes
    requires |o.script| < LIMIT
  {
    PutUint64LE(o.value) + PutBlob(o.script)
  }

  function PutIns(ins: seq<TxIn>): Bytes
    requires forall i :: 0 <= i < |ins| ==> |ins[i].script| < LIMIT
  {
    if ins == [] then [] else PutIn(ins[0]) + PutIns(ins[1..])
  }

  function PutOuts(outs: seq<TxOut>): Bytes
    requires forall i :: 0 <= i < |outs| ==> |outs[i].script| < LIMIT
  {
    if outs == [] then [] else PutOut(outs[0]) + PutOuts(outs[1..])
  }

  function PutBody(tx: Tx): Bytes
    requires ValidTx(tx)
  {
    SerializeVarInt(|tx.ins|) + PutIns(tx.ins) + SerializeVarInt(|tx.outs|) + PutOuts(tx.outs)
  }

  function PutTx(tx: Tx): Bytes
    requires ValidTx(tx)
  {
    PutUint32LE(tx.version) + PutBody(tx) + PutUint32LE(tx.lockTime)
  }

  function PutStack(items: seq<Bytes>): Bytes
    requires forall i :: 0 <= i < |items| ==> |items[i]| < LIMIT
  {
    if items == [] then [] else PutBlob(items[0]) + PutStack(items[1..])
  }

  predicate ValidWitness(stacks: seq<seq<Bytes>>) {
    forall i :: 0 <= i < |stacks| ==> |stacks[i]| < LIMIT && forall j :: 0 <= j < |stacks[i]| ==> |stacks[i][j]| < LIMIT
  }

  function PutWitness(stacks: seq<seq<Bytes>>): Bytes
    requires ValidWitness(stacks)
  {
    if stacks == [] then [] else SerializeVarInt(|stacks[0]|) + PutStack(stacks[0]) + PutWitness(stacks[1..])
  }

  /** BIP144: marker 0 and flag 1 after the version, one stack per input before the lock time. */
  function PutWitnessTx(w: WitnessTx): Bytes
    requires ValidTx(w.tx) && ValidWitness(w.stacks)
  {
    PutUint32LE(w.tx.version) + [0x00, 0x01] + PutBody(w.tx) + PutWitness(w.stacks) + PutUint32LE(w.tx.lockTime)
  }

  // Parsing.

  function TakeBlob(s: Bytes): Parsed<Bytes> {
    match TakeVarInt(s)
    case Fail => Fail
    case Ok(n, r) => TakeBytes(n, r)
  }

  function TakeIn(s: Bytes): Parsed<TxIn> {
    match TakeBytes(32, s)
    case Fail => Fail
    case Ok(prevHash, r1) =>
      match TakeLE32(r1)
      case Fail => Fail
      case Ok(index, r2) =>
        match TakeBlob(r2)
        case Fail => Fail
        case Ok(script, r3) =>
          match TakeLE32(r3)
          case Fail => Fail
          case Ok(sequence, r4) => Ok(TxIn(prevHash, index, script, sequence), r4)
  }

  function TakeLE32(s: Bytes): Parsed<uint32> {
    if |s| < 4 then Fail
    else
      FromLEBound(s[..4], 4);
      Sizes();
      Ok(FromLE(s[..4]), s[4..])
  }

  function TakeLE64(s: Bytes): Parsed<uint64> {
    if |s| < 8 then Fail
    else
      FromLEBound(s[..8], 8);
      Sizes();
      Ok(FromLE(s[..8]), s[8..])
  }

  lemma {:induction false} FromLEBound(s: Bytes, n: nat)
    requires |s| == n
    ensures FromLE(s) < Pow256(n)
    decreases n
  {
    if n > 0 {
      FromLEBound(s[1..], n - 1);
    }
  }

  function TakeOut(s: Bytes): Parsed<TxOut> {
    match TakeLE64(s)
    case Fail => Fail
    case Ok(value, r1) =>
      match TakeBlob(r1)
      case Fail => Fail
      case Ok(script, r2) => Ok(TxOut(value, script), r2)
  }

  function TakeIns(n: nat, s: Bytes): Parsed<seq<TxIn>> {
    if n == 0 then Ok([], s)
    else
      match TakeIn(s)
      case Fail => Fail
      case Ok(i, r1) =>
        match TakeIns(n - 1, r1)
        case Fail => Fail
        case Ok(more, r2) => Ok([i] + more, r2)
  }

  function TakeOuts(n: nat, s: Bytes): Parsed<seq<TxOut>> {
    if n == 0 then Ok([], s)
    else
      match TakeOut(s)
      case Fail => Fail
      case Ok(o, r1) =>
        match TakeOuts(n - 1, r1)
        case Fail => Fail
        case Ok(more, r2) => Ok([o] + more, r2)
  }

  datatype Body = Body(ins: seq<TxIn>, outs: seq<TxOut>)

  function TakeBody(s: Bytes): Parsed<Body> {
    match TakeVarInt(s)
    case Fail => Fail
    case Ok(n, r1) =>
      match TakeIns(n, r1)
      case Fail => Fail
      case Ok(ins, r2) =>
        match TakeVarInt(r2)
        case Fail => Fail
        case Ok(m, r3) =>
          match TakeOuts(m, r3)
          case Fail => Fail
          case Ok(outs, r4) => Ok(Body(ins, outs), r4)
  }

  function TakeTx(s: Bytes): Parsed<Tx> {
    match TakeLE32(s)
    case Fail => Fail
    case Ok(version, r1) =>
      match TakeBody(r1)
      case Fail => Fail
      case Ok(body, r2) =>
        match TakeLE32(r2)
        case Fail => Fail
        case Ok(lockTime, r3) => Ok(Tx(version, body.ins, body.outs, lockTime), r3)
  }

  function TakeStack(n: nat, s: Bytes): Parsed<seq<Bytes>> {
    if n == 0 then Ok([], s)
    else
      match TakeBlob(s)
      case Fail => Fail
      case Ok(item, r1) =>
        match TakeStack(n - 1, r1)
        case Fail => Fail
        case Ok(more, r2) => Ok([item] + more, r2)
  }

  function TakeWitness(n: nat, s: Bytes): Parsed<seq<seq<Bytes>>> {
    if n == 0 then Ok([], s)
    else
      match TakeVarInt(s)
      case Fail => Fail
      case Ok(k, r1) =>
        match TakeStack(k, r1)
        case Fail => Fail
        case Ok(stack, r2) =>
          match TakeWitness(n - 1, r2)
          case Fail => Fail
          case Ok(more, r3) => Ok([stack] + more, r3)
  }

  function TakeWitnessTx(s: Bytes): Parsed<WitnessTx> {
    match TakeLE32(s)
    case Fail => Fail
    case Ok(version, r1) =>
      if |r1| < 2 || r1[0] != 0x00 || r1[1] != 0x01 then Fail else TakeMarked(version, r1[2..])
  }

  function TakeMarked(version: uint32, s: Bytes): Parsed<WitnessTx> {
    match TakeBody(s)
    case Fail => Fail
    case Ok(body, r1) =>
      match TakeWitness(|body.ins|, r1)
      case Fail => Fail
      case Ok(stacks, r2) =>
        match TakeLE32(r2)
        case Fail => Fail
        case Ok(lockTime, r3) => Ok(WitnessTx(Tx(version, body.ins, body.outs, lockTime), stacks), r3)
  }

  // Parsing undoes printing, whatever follows.

  lemma {:induction false} TakePut32(v: uint32, rest: Bytes)
    ensures TakeLE32(PutUint32LE(v) + rest) == Ok(v, rest)
  {
    Sizes();
    TakeWrittenLE(v, 4, rest);
  }

  lemma {:induction false} TakePut64(v: uint64, rest: Bytes)
    ensures TakeLE64(PutUint64LE(v) + rest) == Ok(v, rest)
  {
    Sizes();
    TakeWrittenLE(v, 8, rest);
  }

  lemma {:induction false} TakePutBlob(b: Bytes, rest: Bytes)
    requires |b| < LIMIT
    ensures TakeBlob(PutBlob(b) + rest) == Ok(b, rest)
  {
    Assoc2(SerializeVarInt(|b|), b, rest);
    TakeWrittenVarInt(|b|, b + rest);
    TakePrefix(b, rest);
  }

  lemma {:induction false} TakePutIn(i: TxIn, rest: Bytes)
    requires |i.script| < LIMIT
    ensures TakeIn(PutIn(i) + rest) == Ok(i, rest)
  {
    var r3 := PutUint32LE(i.sequence) + rest;
    var r2 := PutBlob(i.script) + r3;
    var r1 := PutUint32LE(i.prevIndex) + r2;
    Assoc4(i.prevHash, PutUint32LE(i.prevIndex), PutBlob(i.script), PutUint32LE(i.sequence), rest);
    TakePrefix(i.prevHash, r1);
    TakePut32(i.prevIndex, r2);
    TakePutBlob(i.script, r3);
    TakePut32(i.sequence, rest);
  }

  lemma {:induction false} TakePutOut(o: TxOut, rest: Bytes)
    requires |o.script| < LIMIT
    ensures TakeOut(PutOut(o) + rest) == Ok(o, rest)
  {
    Assoc2(PutUint64LE(o.value), PutBlob(o.script), rest);
    TakePut64(o.value, PutBlob(o.script) + rest);
    TakePutBlob(o.script, rest);
  }

  lemma {:induction false} TakePutIns(ins: seq<TxIn>, rest: Bytes)
    requires forall i :: 0 <= i < |ins| ==> |ins[i].script| < LIMIT
    ensures TakeIns(|ins|, PutIns(ins) + rest) == Ok(ins, rest)
  {
    if ins == [] {
      assert PutIns(ins) + rest == rest;
    } else {
      Assoc2(PutIn(ins[0]), PutIns(ins[1..]), rest);
      TakePutIn(ins[0], PutIns(ins[1..]) + rest);
      TakePutIns(ins[1..], rest);
      assert [ins[0]] + ins[1..] == ins;
    }
  }

  lemma {:induction false} TakePutOuts(outs: seq<TxOut>, rest: Bytes)
    requires forall i :: 0 <= i < |outs| ==> |outs[i].script| < LIMIT
    ensures TakeOuts(|outs|, PutOuts(outs) + rest) == Ok(outs, rest)
  {
    if outs == [] {
      assert PutOuts(outs) + rest == rest;
    } else {
      Assoc2(PutOut(outs[0]), PutOuts(outs[1..]), rest);
      TakePutOut(outs[0], PutOuts(outs[1..]) + rest);
      TakePutOuts(outs[1..], rest);
      assert [outs[0]] + outs[1..] == outs;
    }
  }

  lemma {:induction false} TakePutBody(tx: Tx, rest: Bytes)
    requires ValidTx(tx)
    ensures TakeBody(PutBody(tx) + rest) == Ok(Body(tx.ins, tx.outs), rest)
  {
    var r3 := PutOuts(tx.outs) + rest;
    var r2 := SerializeVarInt(|tx.outs|) + r3;
    var r1 := PutIns(tx.ins) + r2;
    Assoc4(SerializeVarInt(|tx.ins|), PutIns(tx.ins), SerializeVarInt(|tx.outs|), PutOuts(tx.outs), rest);
    TakeWrittenVarInt(|tx.ins|, r1);
    TakePutIns(tx.ins, r2);
    TakeWrittenVarInt(|tx.outs|, r3);
    TakePutOuts(tx.outs, rest);
  }

  lemma {:induction false} TakePutTx(tx: Tx, rest: Bytes)
    requires ValidTx(tx)
    ensures TakeTx(PutTx(tx) + rest) == Ok(tx, rest)
  {
    var r2 := PutUint32LE(tx.lockTime) + rest;
    var r1 := PutBody(tx) + r2;
    Assoc3(PutUint32LE(tx.version), PutBody(tx), PutUint32LE(tx.lockTime), rest);
    TakePut32(tx.version, r1);
    TakePutBody(tx, r2);
    TakePut32(tx.lockTime, rest);
  }

  lemma {:induction false} TakePutStack(items: seq<Bytes>, rest: Bytes)
    requires forall i :: 0 <= i < |items| ==> |items[i]| < LIMIT
    ensures TakeStack(|items|, PutStack(items) + rest) == Ok(items, rest)
  {
    if items == [] {
      assert PutStack(items) + rest == rest;
    } else {
      Assoc2(PutBlob(items[0]), PutStack(items[1..]), rest);
      TakePutBlob(items[0], PutStack(items[1..]) + rest);
      TakePutStack(items[1..], rest);
      assert [items[0]] + items[1..] == items;
    }
  }

  lemma {:induction false} TakePutWitness(stacks: seq<seq<Bytes>>, rest: Bytes)
    requires ValidWitness(stacks)
    ensures TakeWitness(|stacks|, PutWitness(stacks) + rest) == Ok(stacks, rest)
  {
    if stacks == [] {
      assert PutWitness(stacks) + rest == rest;
    } else {
      var r2 := PutWitness(stacks[1..]) + rest;
      var r1 := PutStack(stacks[0]) + r2;
      Assoc3(SerializeVarInt(|stacks[0]|), PutStack(stacks[0]), PutWitness(stacks[1..]), rest);
      TakeWrittenVarInt(|stacks[0]|, r1);
      TakePutStack(stacks[0], r2);
      TakePutWitness(stacks[1..], rest);
      assert [stacks[0]] + stacks[1..] == stacks;
    }
  }

  lemma {:induction false} TakePutMarked(w: WitnessTx, rest: Bytes)
    requires ValidTx(w.tx) && ValidWitness(w.stacks) && |w.stacks| == |w.tx.ins|
    ensures TakeMarked(w.tx.version, PutBody(w.tx) + (PutWitness(w.stacks) + (PutUint32LE(w.tx.lockTime) + rest)))
            == Ok(w, rest)
  {
    var r2 := PutUint32LE(w.tx.lockTime) + rest;
    TakePutBody(w.tx, PutWitness(w.stacks) + r2);
    TakePutWitness(w.stacks, r2);
    TakePut32(w.tx.lockTime, rest);
  }

  lemma {:induction false} TakePutWitnessTx(w: WitnessTx, rest: Bytes)
    requires ValidTx(w.tx) && ValidWitness(w.stacks) && |w.stacks| == |w.tx.ins|
    ensures TakeWitnessTx(PutWitnessTx(w) + rest) == Ok(w, rest)
  {
    var marker: Bytes := [0x00, 0x01];
    var body := PutBody(w.tx) + (PutWitness(w.stacks) + (PutUint32LE(w.tx.lockTime) + rest));
    Assoc5(PutUint32LE(w.tx.version), marker, PutBody(w.tx), PutWitness(w.stacks), PutUint32LE(w.tx.lockTime), rest);
    TakePut32(w.tx.version, marker + body);
    assert (marker + body)[2..] == body;
    TakePutMarked(w, rest);
  }
}
