/** The split coinbase transaction (pkg/coinbase/builder.go) against the transaction wire format. */
module Coinbase {
  import opened Common
  import opened Script
  import opened Transaction

  type int64 = n: int | -0x8000_0000_0000_0000 <= n < 0x8000_0000_0000_0000

  datatype CoinbaseOutput = CoinbaseOutput(value: int64, script: Bytes)

  /** uint64(v): two's complement. */
  function AsUint64(v: int64): (r: uint64)
    ensures v >= 0 ==> r == v
  {
    if v < 0 then v + 0x1_0000_0000_0000_0000 else v
  }

  /** Sizes a Go slice can have. */
  const MAXLEN: nat := 0x8000_0000_0000_0000

  predicate Sized(outputs: seq<CoinbaseOutput>) {
    |outputs| < MAXLEN && forall i :: 0 <= i < |outputs| ==> |outputs[i].script| < MAXLEN
  }

  function ScriptSigLen(height: int64, text: Bytes, extraNonceLen: nat): nat {
    |SerializeHeightSpec(height)| + |text| + extraNonceLen
  }

  /** Everything before the extranonces. Neither the outputs nor the address occur here. */
  function Coinb1(height: int64, text: Bytes, extraNonceLen: nat): Bytes
    requires ScriptSigLen(height, text, extraNonceLen) < MAXLEN
  {
    PutUint32LE(1) + [0x01] + Zeros(32) + [0xFF, 0xFF, 0xFF, 0xFF]
    + SerializeVarInt(ScriptSigLen(height, text, extraNonceLen)) + SerializeHeightSpec(height) + text
  }

  function PutOutputs(outputs: seq<CoinbaseOutput>): Bytes
    requires forall i :: 0 <= i < |outputs| ==> |outputs[i].script| < MAXLEN
  {
    if outputs == [] then []
    else
      var last := outputs[|outputs| - 1];
      PutOutputs(outputs[..|outputs| - 1]) + PutUint64LE(AsUint64(last.value)) + SerializeVarInt(|last.script|)
          + last.script
  }

  /** Everything after the extranonces. */
  function Coinb2(outputs: seq<CoinbaseOutput>): Bytes
    requires Sized(outputs)
  {
    [0xFF, 0xFF, 0xFF, 0xFF] + SerializeVarInt(|outputs|) + PutOutputs(outputs) + [0x00, 0x00, 0x00, 0x00]
  }

  /** BuildCoinbaseParts, on bytes instead of hex text. */
  method BuildCoinbaseParts(
      height: int64, text: Bytes, extraNonce1Size: nat, extraNonce2Size: nat, outputs: seq<CoinbaseOutput>)
    returns (coinb1: Bytes, coinb2: Bytes)
    requires ScriptSigLen(height, text, extraNonce1Size + extraNonce2Size) < MAXLEN && Sized(outputs)
    ensures coinb1 == Coinb1(height, text, extraNonce1Size + extraNonce2Size)
    ensures coinb2 == Coinb2(outputs)
  {
    var heightBytes := SerializeHeight(height);
    var totalExtraNonceSize := extraNonce1Size + extraNonce2Size;
    var scriptSigLen := |heightBytes| + |text| + totalExtraNonceSize;
    coinb1 := PutUint32LE(1);
    coinb1 := coinb1 + [0x01];
    coinb1 := coinb1 + Zeros(32);
    coinb1 := coinb1 + [0xFF, 0xFF, 0xFF, 0xFF];
    coinb1 := coinb1 + SerializeVarInt(scriptSigLen);
    coinb1 := coinb1 + heightBytes;
    coinb1 := coinb1 + text;
    var body := AppendOutputs(outputs);
    coinb2 := [0xFF, 0xFF, 0xFF, 0xFF];
    coinb2 := coinb2 + SerializeVarInt(|outputs|);
    coinb2 := coinb2 + body;
    coinb2 := coinb2 + [0x00, 0x00, 0x00, 0x00];
  }

  /** The output loop of BuildCoinbaseParts. */
  method AppendOutputs(outputs: seq<CoinbaseOutput>) returns (b: Bytes)
    requires forall i :: 0 <= i < |outputs| ==> |outputs[i].script| < MAXLEN
    ensures b == PutOutputs(outputs)
  {
    b := [];
    var i := 0;
    while i < |outputs|
      invariant 0 <= i <= |outputs|
      invariant b == PutOutputs(outputs[..i])
    {
      assert outputs[..i + 1][..i] == outputs[..i];
      b := b + PutUint64LE(AsUint64(outputs[i].value));
      b := b + SerializeVarInt(|outputs[i].script|);
      b := b + outputs[i].script;
      i := i + 1;
    }
    assert outputs[..i] == outputs;
  }

  /** AssembleCoinbase, on bytes. */
  function Assemble(coinb1: Bytes, extraNonce1: Bytes, extraNonce2: Bytes, coinb2: Bytes): Bytes {
    coinb1 + extraNonce1 + extraNonce2 + coinb2
  }

  // What the two halves mean.

  function AsTxOuts(outputs: seq<CoinbaseOutput>): (outs: seq<TxOut>)
    ensures |outs| == |outputs|
  {
    seq(|outputs|, i requires 0 <= i < |outputs| => TxOut(AsUint64(outputs[i].value), outputs[i].script))
  }

  function CoinbaseTx(height: int64, text: Bytes, extraNonce: Bytes, outputs: seq<CoinbaseOutput>): Tx {
    Tx(1, [TxIn(Zeros(32), 0xFFFF_FFFF, SerializeHeightSpec(height) + text + extraNonce, 0xFFFF_FFFF)],
       AsTxOuts(outputs), 0)
  }

  lemma {:induction false} PutOutsSnoc(outs: seq<TxOut>, o: TxOut)
    requires (forall i :: 0 <= i < |outs| ==> |outs[i].script| < LIMIT) && |o.script| < LIMIT
    ensures PutOuts(outs + [o]) == PutOuts(outs) + PutOut(o)
  {
    if outs == [] {
      assert PutOuts([o]) == PutOut(o) + PutOuts([]);
      assert [] + [o] == [o];
    } else {
      assert (outs + [o])[1..] == outs[1..] + [o];
      PutOutsSnoc(outs[1..], o);
    }
  }

  lemma {:induction false} LastOutput(outputs: seq<CoinbaseOutput>)
    requires outputs != [] && forall i :: 0 <= i < |outputs| ==> |outputs[i].script| < MAXLEN
    ensures var init, last := outputs[..|outputs| - 1], outputs[|outputs| - 1];
            PutOutputs(outputs) == PutOutputs(init) + PutOut(TxOut(AsUint64(last.value), last.script))
  {
    var last := outputs[|outputs| - 1];
    Assoc3(PutOutputs(outputs[..|outputs| - 1]), PutUint64LE(AsUint64(last.value)), SerializeVarInt(|last.script|),
           last.script);
  }

  lemma {:induction false} LastTxOut(outputs: seq<CoinbaseOutput>)
    requires outputs != []
    ensures var init, last := outputs[..|outputs| - 1], outputs[|outputs| - 1];
            AsTxOuts(outputs) == AsTxOuts(init) + [TxOut(AsUint64(last.value), last.script)]
  {
  }

  lemma {:induction false} OutputsArePrinted(outputs: seq<CoinbaseOutput>)
    requires forall i :: 0 <= i < |outputs| ==> |outputs[i].script| < MAXLEN
    ensures PutOutputs(outputs) == PutOuts(AsTxOuts(outputs))
    decreases |outputs|
  {
    if outputs != [] {
      var init, last := outputs[..|outputs| - 1], outputs[|outputs| - 1];
      OutputsArePrinted(init);
      LastOutput(outputs);
      LastTxOut(outputs);
      PutOutsSnoc(AsTxOuts(init), TxOut(AsUint64(last.value), last.script));
    }
  }

  lemma {:induction false} Constants()
    ensures PutUint32LE(0xFFFF_FFFF) == [0xFF, 0xFF, 0xFF, 0xFF]
    ensures PutUint32LE(0) == [0x00, 0x00, 0x00, 0x00]
    ensures SerializeVarInt(1) == [0x01]
  {
  }

  lemma {:induction false} PutCoinbaseIn(i: TxIn)
    requires |i.script| < LIMIT
    ensures PutIns([i])
            == i.prevHash + PutUint32LE(i.prevIndex) + (SerializeVarInt(|i.script|) + i.script)
                + PutUint32LE(i.sequence)
  {
    assert PutIns([i][1..]) == [];
  }

  lemma {:induction false} CoinbaseTxIsValid(
      height: int64, text: Bytes, extraNonce: Bytes, outputs: seq<CoinbaseOutput>)
    requires ScriptSigLen(height, text, |extraNonce|) < MAXLEN && Sized(outputs)
    ensures ValidTx(CoinbaseTx(height, text, extraNonce, outputs))
  {
  }

  lemma {:induction false} PrintedOneInput(tx: Tx)
    requires ValidTx(tx) && |tx.ins| == 1
    ensures var i := tx.ins[0];
            PutTx(tx) == PutUint32LE(tx.version)
                       + (SerializeVarInt(1)
                          + (i.prevHash + PutUint32LE(i.prevIndex) + (SerializeVarInt(|i.script|) + i.script)
                             + PutUint32LE(i.sequence))
                          + SerializeVarInt(|tx.outs|) + PutOuts(tx.outs))
                       + PutUint32LE(tx.lockTime)
  {
    assert tx.ins == [tx.ins[0]];
    PutCoinbaseIn(tx.ins[0]);
  }

  /** The parts, assembled, are exactly the printed coinbase transaction. */
  lemma {:induction false} AssembledIsPrinted(
      height: int64, text: Bytes, declared: nat, extraNonce1: Bytes, extraNonce2: Bytes, outputs: seq<CoinbaseOutput>)
    requires |extraNonce1| + |extraNonce2| == declared && ScriptSigLen(height, text, declared) < MAXLEN
             && Sized(outputs)
    ensures ValidTx(CoinbaseTx(height, text, extraNonce1 + extraNonce2, outputs))
    ensures Assemble(Coinb1(height, text, declared), extraNonce1, extraNonce2, Coinb2(outputs))
         == PutTx(CoinbaseTx(height, text, extraNonce1 + extraNonce2, outputs))
  {
    var tx := CoinbaseTx(height, text, extraNonce1 + extraNonce2, outputs);
    var len := ScriptSigLen(height, text, declared);
    CoinbaseTxIsValid(height, text, extraNonce1 + extraNonce2, outputs);
    assert |tx.ins[0].script| == len;
    PrintedOneInput(tx);
    OutputsArePrinted(outputs);
    Constants();
    Flatten(PutUint32LE(1), [0x01], Zeros(32), [0xFF, 0xFF, 0xFF, 0xFF], SerializeVarInt(len),
            SerializeHeightSpec(height),
            text, extraNonce1, extraNonce2, SerializeVarInt(|outputs|), PutOutputs(outputs), [0x00, 0x00, 0x00, 0x00]);
  }

  lemma {:induction false} Flatten(
      version: Bytes, one: Bytes, zeros: Bytes, ff: Bytes, len: Bytes, push: Bytes, text: Bytes,
                en1: Bytes, en2: Bytes, count: Bytes, outs: Bytes, lock: Bytes)
    ensures (version + one + zeros + ff + len + push + text) + en1 + en2 + (ff + count + outs + lock)
         == version + (one + (zeros + ff + (len + (push + text + (en1 + en2))) + ff) + count + outs) + lock
  {
  }

  /** A BIP34 push of the height, followed by `tail`. */
  predicate StartsWithHeight(script: Bytes, height: int, tail: Bytes) {
    && script != [] && 1 <= script[0] <= 75 && 1 + script[0] <= |script|
    && MinimalNumber(script[1..1 + script[0]]) && ScriptNumber(script[1..1 + script[0]]) == height
    && script[1 + script[0]..] == tail
  }

  /** The coinbase a block at this height has to have, paying exactly these outputs. */
  predicate IsIntended(tx: Tx, height: int, tail: Bytes, outputs: seq<CoinbaseOutput>) {
    && tx.version == 1 && tx.lockTime == 0
    && |tx.ins| == 1 && tx.ins[0].prevHash == Zeros(32) && tx.ins[0].prevIndex == 0xFFFF_FFFF
    && StartsWithHeight(tx.ins[0].script, height, tail)
    && |tx.outs| == |outputs|
    && forall i :: 0 <= i < |outputs| ==> tx.outs[i].value == outputs[i].value && tx.outs[i].script == outputs[i].script
  }

  /**
   * Parsing the assembled coinbase gives back exactly the outputs, the declared extranonces inside the
   * script, and a script that starts with the BIP34 push of the height.
   */
  lemma {:induction false} ParsedBack(
      height: int64, text: Bytes, declared: nat, extraNonce1: Bytes, extraNonce2: Bytes, outputs: seq<CoinbaseOutput>)
    requires height > 0
    requires |extraNonce1| + |extraNonce2| == declared && ScriptSigLen(height, text, declared) < MAXLEN
             && Sized(outputs)
    requires forall i :: 0 <= i < |outputs| ==> outputs[i].value >= 0
    ensures var p := TakeTx(Assemble(Coinb1(height, text, declared), extraNonce1, extraNonce2, Coinb2(outputs)));
            p.Ok? && p.rest == [] && IsIntended(p.value, height, text + (extraNonce1 + extraNonce2), outputs)
  {
    ParsedAsIntended(height, text, declared, extraNonce1, extraNonce2, outputs);
    CoinbaseTxIsIntended(height, text, extraNonce1 + extraNonce2, outputs);
  }

  lemma {:induction false} CoinbaseTxIsIntended(
      height: int64, text: Bytes, extraNonce: Bytes, outputs: seq<CoinbaseOutput>)
    requires height > 0 && forall i :: 0 <= i < |outputs| ==> outputs[i].value >= 0
    ensures IsIntended(CoinbaseTx(height, text, extraNonce, outputs), height, text + extraNonce, outputs)
  {
    ScriptStartsWithHeight(height, text + extraNonce);
    assert SerializeHeightSpec(height) + text + extraNonce == SerializeHeightSpec(height) + (text + extraNonce);
  }

  lemma {:induction false} ParsedPrinted(tx: Tx)
    requires ValidTx(tx)
    ensures TakeTx(PutTx(tx)) == Ok(tx, [])
  {
    TakePutTx(tx, []);
    assert PutTx(tx) + [] == PutTx(tx);
  }

  lemma {:induction false} ScriptStartsWithHeight(height: int64, tail: Bytes)
    requires height > 0
    ensures StartsWithHeight(SerializeHeightSpec(height) + tail, height, tail)
  {
    var push := SerializeHeightSpec(height);
    HeightIsMinimalPush(height);
    assert (push + tail)[1..1 + push[0]] == push[1..];
  }

  /**
   * The script length was written for the declared extranonce sizes, so the intended transaction comes
   * back exactly when the extranonces have that total length. Nothing upstream checks this.
   */
  lemma {:induction false} IntendedIffSized(
      height: int64, text: Bytes, declared: nat, extraNonce1: Bytes, extraNonce2: Bytes, outputs: seq<CoinbaseOutput>)
    requires ScriptSigLen(height, text, declared) < MAXLEN && Sized(outputs)
    ensures TakeTx(Assemble(Coinb1(height, text, declared), extraNonce1, extraNonce2, Coinb2(outputs)))
            == Ok(CoinbaseTx(height, text, extraNonce1 + extraNonce2, outputs), [])
       <==> |extraNonce1| + |extraNonce2| == declared
  {
    var tx := CoinbaseTx(height, text, extraNonce1 + extraNonce2, outputs);
    if |extraNonce1| + |extraNonce2| == declared {
      ParsedAsIntended(height, text, declared, extraNonce1, extraNonce2, outputs);
    } else {
      OtherwiseNotIntended(height, text, declared, extraNonce1, extraNonce2, Coinb2(outputs), tx);
    }
  }

  lemma {:induction false} ParsedAsIntended(
      height: int64, text: Bytes, declared: nat, extraNonce1: Bytes, extraNonce2: Bytes, outputs: seq<CoinbaseOutput>)
    requires |extraNonce1| + |extraNonce2| == declared && ScriptSigLen(height, text, declared) < MAXLEN
             && Sized(outputs)
    ensures TakeTx(Assemble(Coinb1(height, text, declared), extraNonce1, extraNonce2, Coinb2(outputs)))
         == Ok(CoinbaseTx(height, text, extraNonce1 + extraNonce2, outputs), [])
  {
    AssembledIsPrinted(height, text, declared, extraNonce1, extraNonce2, outputs);
    ParsedPrinted(CoinbaseTx(height, text, extraNonce1 + extraNonce2, outputs));
  }

  lemma {:induction false} OtherwiseNotIntended(
      height: int64, text: Bytes, declared: nat, extraNonce1: Bytes, extraNonce2: Bytes, coinb2: Bytes, tx: Tx)
    requires ScriptSigLen(height, text, declared) < MAXLEN && |extraNonce1| + |extraNonce2| != declared
    requires |tx.ins| == 1 && |tx.ins[0].script| == ScriptSigLen(height, text, |extraNonce1| + |extraNonce2|)
    ensures TakeTx(Assemble(Coinb1(height, text, declared), extraNonce1, extraNonce2, coinb2)) != Ok(tx, [])
  {
    ScriptLengthIsDeclared(height, text, declared, extraNonce1 + extraNonce2 + coinb2);
    Assoc3(Coinb1(height, text, declared), extraNonce1, extraNonce2, coinb2);
    assert extraNonce1 + extraNonce2 + coinb2 == extraNonce1 + (extraNonce2 + coinb2);
  }

  /** Whatever follows coinb1, a parser reads a first script of the declared length. */
  lemma {:induction false} ScriptLengthIsDeclared(height: int64, text: Bytes, declared: nat, tail: Bytes)
    requires ScriptSigLen(height, text, declared) < MAXLEN
    ensures var p := TakeTx(Coinb1(height, text, declared) + tail);
            p.Ok? ==> |p.value.ins| == 1 && |p.value.ins[0].script| == ScriptSigLen(height, text, declared)
  {
    var len := ScriptSigLen(height, text, declared);
    var s4 := SerializeHeightSpec(height) + text + tail;
    var s2 := PutUint32LE(0xFFFF_FFFF) + (SerializeVarInt(len) + s4);
    Constants();
    Coinb1Prefix(PutUint32LE(1), [0x01], Zeros(32), PutUint32LE(0xFFFF_FFFF), SerializeVarInt(len),
                 SerializeHeightSpec(height), text, tail);
    FirstScript(1, Zeros(32), 0xFFFF_FFFF, len, s4);
    assert Coinb1(height, text, declared) + tail == PutUint32LE(1) + (SerializeVarInt(1) + (Zeros(32) + s2));
  }

  lemma {:induction false} FirstScript(version: uint32, prev: Bytes32, index: uint32, len: uint64, s: Bytes)
    ensures var p := TakeTx(PutUint32LE(version)
                            + (SerializeVarInt(1) + (prev + (PutUint32LE(index) + (SerializeVarInt(len) + s)))));
            p.Ok? ==> |p.value.ins| == 1 && |p.value.ins[0].script| == len
  {
    var s3 := SerializeVarInt(len) + s;
    var s2 := prev + (PutUint32LE(index) + s3);
    var s1 := SerializeVarInt(1) + s2;
    TakePut32(version, s1);
    TakeWrittenVarInt(1, s2);
    FirstInput(prev, index, len, s);
    OneInput(s2);
    assert TakeBody(s1).Ok? ==> TakeIns(1, s2).Ok? && TakeBody(s1).value.ins == TakeIns(1, s2).value;
  }

  lemma {:induction false} OneInput(s: Bytes)
    ensures TakeIns(1, s).Ok? ==> TakeIn(s).Ok? && TakeIns(1, s).value == [TakeIn(s).value]
  {
  }

  lemma {:induction false} FirstInput(prev: Bytes32, index: uint32, len: uint64, s: Bytes)
    ensures var p := TakeIn(prev + (PutUint32LE(index) + (SerializeVarInt(len) + s)));
            p.Ok? ==> |p.value.script| == len
  {
    TakePrefix(prev, PutUint32LE(index) + (SerializeVarInt(len) + s));
    TakePut32(index, SerializeVarInt(len) + s);
    TakeWrittenVarInt(len, s);
    BlobLength(SerializeVarInt(len) + s, len, s);
  }

  lemma {:induction false} BlobLength(s: Bytes, len: nat, rest: Bytes)
    requires TakeVarInt(s) == Ok(len, rest)
    ensures TakeBlob(s).Ok? ==> |TakeBlob(s).value| == len
  {
  }

  lemma {:induction false} Coinb1Prefix(
      version: Bytes, one: Bytes, zeros: Bytes, ff: Bytes, len: Bytes, push: Bytes, text: Bytes, tail: Bytes)
    ensures version + one + zeros + ff + len + push + text + tail
         == version + (one + (zeros + (ff + (len + (push + text + tail)))))
  {
  }

  // Witness data for block submission.

  /** AddWitnessData. */
  method AddWitnessData(cb: Bytes) returns (result: Bytes)
    ensures result == WithWitness(cb)
  {
    if |cb| < 10 {
      return cb;
    }
    result := [];
    result := result + cb[0..4];
    result := result + [0x00, 0x01];
    result := result + cb[4..|cb| - 4];
    result := result + [0x01];
    result := result + [0x20];
    result := result + Zeros(32);
    result := result + cb[|cb| - 4..];
  }

  function WithWitness(cb: Bytes): Bytes {
    if |cb| < 10 then cb
    else cb[..4] + [0x00, 0x01] + cb[4..|cb| - 4] + [0x01, 0x20] + Zeros(32) + cb[|cb| - 4..]
  }

  /** The 32 zero bytes of the witness reserved value, as the only item of the only stack. */
  function ReservedStack(): seq<seq<Bytes>> {
    [[Zeros(32)]]
  }

  /** Adding witness data to a printed transaction prints that transaction with the reserved stack. */
  lemma {:induction false} WithWitnessIsPrinted(tx: Tx)
    requires ValidTx(tx)
    ensures ValidWitness(ReservedStack())
    ensures WithWitness(PutTx(tx)) == PutWitnessTx(WitnessTx(tx, ReservedStack()))
  {
    ReservedStackBytes();
    BodyNotEmpty(tx);
    SpliceWitness(PutUint32LE(tx.version), PutBody(tx), PutUint32LE(tx.lockTime));
  }

  lemma {:induction false} BodyNotEmpty(tx: Tx)
    requires ValidTx(tx)
    ensures |PutBody(tx)| >= 2
  {
  }

  lemma {:induction false} SpliceWitness(version: Bytes, body: Bytes, lockTime: Bytes)
    requires |version| == 4 && |lockTime| == 4 && |body| >= 2
    ensures WithWitness(version + body + lockTime)
            == version + [0x00, 0x01] + body + ([0x01, 0x20] + Zeros(32)) + lockTime
  {
    var cb := version + body + lockTime;
    assert cb[..4] == version && cb[4..|cb| - 4] == body && cb[|cb| - 4..] == lockTime;
  }

  lemma {:induction false} ReservedStackBytes()
    ensures ValidWitness(ReservedStack())
    ensures PutWitness(ReservedStack()) == [0x01, 0x20] + Zeros(32)
  {
    var items: seq<Bytes> := [Zeros(32)];
    assert items[1..] == [];
    assert PutStack(items) == PutBlob(items[0]) + PutStack(items[1..]);
    assert PutBlob(Zeros(32)) == [0x20] + Zeros(32);
    assert ReservedStack()[0] == items && ReservedStack()[1..] == [];
    assert PutWitness(ReservedStack()) == SerializeVarInt(1) + PutStack(items) + PutWitness(ReservedStack()[1..]);
  }

  /**
   * On an assembled coinbase, adding witness data gives a BIP144 transaction with that single reserved
   * item, and printing it without witness gives back the bytes that were hashed for the Merkle root.
   */
  lemma {:induction false} WitnessStripsBack(
      height: int64, text: Bytes, declared: nat, extraNonce1: Bytes, extraNonce2: Bytes, outputs: seq<CoinbaseOutput>)
    requires |extraNonce1| + |extraNonce2| == declared && ScriptSigLen(height, text, declared) < MAXLEN
             && Sized(outputs)
    ensures var cb := Assemble(Coinb1(height, text, declared), extraNonce1, extraNonce2, Coinb2(outputs));
            var p := TakeWitnessTx(WithWitness(cb));
            p.Ok? && p.rest == [] && p.value.stacks == ReservedStack() && ValidTx(p.value.tx) && PutTx(p.value.tx) == cb
  {
    var tx := CoinbaseTx(height, text, extraNonce1 + extraNonce2, outputs);
    AssembledIsPrinted(height, text, declared, extraNonce1, extraNonce2, outputs);
    WithWitnessIsPrinted(tx);
    TakePutWitnessTx(WitnessTx(tx, ReservedStack()), []);
    assert PutWitnessTx(WitnessTx(tx, ReservedStack())) + [] == PutWitnessTx(WitnessTx(tx, ReservedStack()));
  }
}
