/** Share validation and block submission (pkg/engine/sharevalidator.go, solo mode, no eCash branches). */
module ShareValidator {
  import opened BitcoinCash
  import opened Bits
  import opened Coinbase
  import opened Common
  import opened Difficulty
  import opened JobManager
  import opened Jobs
  import opened Merkle
  import opened Positional
  import opened Script

  /** What validation reads from a session. */
  datatype Miner = Miner(miningAddress: string, extraNonce1: Bytes, difficulty: real, prevDiff: real,
                         diffChangedAt: real)

  /** A mining.submit, with its hex fields. */
  datatype Share = Share(jobId: nat, extraNonce2: Hex, nTime: Hex, nonce: Hex, versionBits: Hex)

  datatype Verdict =
    | JobNotFound
    | Malformed
    | BadJob
    | LowDifficulty
    | Accepted(submitted: Option<Bytes>)

  /** Four bytes of hex. */
  predicate IsWord(x: Hex) {
    x.Hex? && |x.bytes| == 4
  }

  function WordOf(x: Hex): (v: uint32)
    requires IsWord(x)
  {
    ValueBound(256, x.bytes);
    assert Pow(256, 4) == 0x1_0000_0000;
    Value(256, x.bytes)
  }

  lemma {:induction false} XorStaysWord(a: uint32, b: uint32)
    ensures 0 <= Xor(a, b) < 0x1_0000_0000
  {
    assert Pow(2, 8) == 256;
    PowAdd(2, 8, 8);
    PowAdd(2, 16, 16);
    XorBelow(a, b, 32);
  }

  /** The header version: the job's, with the miner's rolled bits toggled when they are well formed. */
  function FinalVersion(version: uint32, versionBits: Hex): uint32 {
    if IsWord(versionBits) then
      XorStaysWord(version, WordOf(versionBits));
      Xor(version, WordOf(versionBits))
    else version
  }

  function Header(version: uint32, prevHash: Bytes, root: Bytes, time: uint32, bits: uint32, nonce: uint32): Bytes {
    PutUint32LE(version) + prevHash + root + PutUint32LE(time) + PutUint32LE(bits) + PutUint32LE(nonce)
  }

  predicate WellFormed(jd: JobData, share: Share) {
    share.extraNonce2.Hex? && IsWord(share.nTime) && IsWord(share.nonce) && IsWord(jd.job.nBits)
  }

  function CoinbaseOf(jd: JobData, coinb2: Bytes, miner: Miner, share: Share): Bytes
    requires share.extraNonce2.Hex?
  {
    Assemble(jd.coinb1, miner.extraNonce1, share.extraNonce2.bytes, coinb2)
  }

  /** The header a share stands for. */
  function HeaderOf(h: Sha256d, jd: JobData, coinb2: Bytes, miner: Miner, share: Share): Bytes
    requires WellFormed(jd, share)
  {
    HeaderFor(jd.job, Fold(h, h(CoinbaseOf(jd, coinb2, miner, share)), jd.job.branches), share)
  }

  function HeaderFor(job: Job, root: Bytes, share: Share): Bytes
    requires IsWord(share.nTime) && IsWord(share.nonce) && IsWord(job.nBits)
  {
    Header(FinalVersion(job.version, share.versionBits),
           if job.prevHash.Hex? then SwapWordsZero(job.prevHash.bytes) else [],
           root, WordOf(share.nTime), WordOf(job.nBits), WordOf(share.nonce))
  }

  /** The hash of a header as the number that is compared with targets. */
  function BlockHash(h: Sha256d, header: Bytes): Bytes {
    Reversed(h(header))
  }

  /** Difficulty check with the grace for a recent change. */
  predicate MeetsDifficulty(hash: Bytes, miner: Miner, grace: real, now: real) {
    || HashMeetsDifficulty(hash, miner.difficulty)
    || (grace > 0.0 && miner.prevDiff > 0.0 && now - miner.diffChangedAt < grace
        && HashMeetsDifficulty(hash, miner.prevDiff))
  }

  /** What is sent to the node for a header that meets the network target. */
  function BlockFor(t: Template, header: Bytes, coinbase: Bytes): Option<Bytes>
    requires |t.transactions| < MAXLEN
  {
    match TransactionData(t.transactions)
    case None => None
    case Some(data) => Some(header + SerializeVarInt(|t.transactions| + 1) + coinbase + data)
  }

  /** The job builds on the tip, or the tip changed a short time ago. */
  predicate Fresh(jd: JobData, tip: Hex, tipChangedAt: int, staleGrace: int, now: int) {
    jd.template.previousBlockHash == tip || (staleGrace > 0 && now - tipChangedAt < staleGrace)
  }

  /** What the verdict says about a share whose job and second half are known. */
  predicate Judged(
      h: Sha256d, jd: JobData, coinb2: Bytes, miner: Miner, share: Share, grace: real, now: real, v: Verdict)
    requires |jd.template.transactions| < MAXLEN
  {
    && (v.Malformed? || v.BadJob? <==> !WellFormed(jd, share))
    && (v.BadJob? <==> share.extraNonce2.Hex? && IsWord(share.nTime) && !IsWord(jd.job.nBits))
    && (WellFormed(jd, share) ==>
          var header := HeaderOf(h, jd, coinb2, miner, share);
          JudgedHeader(BlockHash(h, header), WordOf(jd.job.nBits), miner, grace, now,
                       BlockFor(jd.template, header, CoinbaseOf(jd, coinb2, miner, share)), v))
  }

  predicate JudgedHeader(
      hash: Bytes, bits: uint32, miner: Miner, grace: real, now: real, block: Option<Bytes>, v: Verdict) {
    && (v.LowDifficulty? <==> !MeetsDifficulty(hash, miner, grace, now))
    && (v.Accepted? ==> v.submitted == if HashMeetsTarget(hash, CompactToBig(bits)) then block else None)
  }

  class Validator {
    const jobMgr: Manager
    const staleShareGrace: int
    const lowDiffShareGrace: real

    constructor (jobMgr: Manager, staleShareGrace: int, lowDiffShareGrace: real)
      ensures this.jobMgr == jobMgr && this.staleShareGrace == staleShareGrace
              && this.lowDiffShareGrace == lowDiffShareGrace
    {
      this.jobMgr, this.staleShareGrace, this.lowDiffShareGrace := jobMgr, staleShareGrace, lowDiffShareGrace;
    }

    /**
     * ValidateShare. The verdict is decided by, in order: the job being known, fresh and filled in for the
     * miner's address; the fields being hex of the right size; the header hash. A block goes to the node
     * exactly when the hash also meets the network target and the template's transactions are hex.
     */
    method ValidateShare(miner: Miner, share: Share, now: int, nowSeconds: real) returns (v: Verdict)
      requires share.jobId in jobMgr.jobs ==> |jobMgr.jobs[share.jobId].template.transactions| < MAXLEN
      ensures v.JobNotFound? <==>
                !(&& share.jobId in jobMgr.jobs
                  && Fresh(jobMgr.jobs[share.jobId], jobMgr.currentTip, jobMgr.tipChangedAt, staleShareGrace, now)
                  && miner.miningAddress in jobMgr.jobs[share.jobId].addressCoinb2s)
      ensures !v.JobNotFound? ==>
                var jd := jobMgr.jobs[share.jobId];
                Judged(jobMgr.coin.h, jd, jd.addressCoinb2s[miner.miningAddress], miner, share,
                       lowDiffShareGrace, nowSeconds, v)
    {
      var found := jobMgr.GetJob(share.jobId);
      if found.None? {
        return JobNotFound;
      }
      v := ValidateFound(miner, share, found.value, jobMgr.currentTip, jobMgr.tipChangedAt, now, nowSeconds);
    }

    /**
     * ValidateShare once the job is looked up. The tip and the time it changed are read after that, each
     * under its own lock, so they may belong to different moments.
     */
    method ValidateFound(miner: Miner, share: Share, jobData: JobData, currentTip: Hex, tipChangedAt: int,
                         now: int, nowSeconds: real) returns (v: Verdict)
      requires |jobData.template.transactions| < MAXLEN
      ensures v.JobNotFound? <==>
                !(&& Fresh(jobData, currentTip, tipChangedAt, staleShareGrace, now)
                  && miner.miningAddress in jobData.addressCoinb2s)
      ensures !v.JobNotFound? ==>
                Judged(jobMgr.coin.h, jobData, jobData.addressCoinb2s[miner.miningAddress], miner, share,
                       lowDiffShareGrace, nowSeconds, v)
    {
      if jobData.template.previousBlockHash != currentTip {
        if !(staleShareGrace > 0 && now - tipChangedAt < staleShareGrace) {
          return JobNotFound;
        }
      }
      if miner.miningAddress !in jobData.addressCoinb2s {
        return JobNotFound;
      }
      var coinb2 := jobData.addressCoinb2s[miner.miningAddress];
      v := Judge(jobMgr.coin.h, jobData, coinb2, miner, share, lowDiffShareGrace, nowSeconds);
    }
  }

  /** ValidateShare once the job and the second half are known. */
  method Judge(h: Sha256d, jobData: JobData, coinb2: Bytes, miner: Miner, share: Share, grace: real, now: real)
    returns (v: Verdict)
    requires |jobData.template.transactions| < MAXLEN
    ensures !v.JobNotFound? && Judged(h, jobData, coinb2, miner, share, grace, now, v)
  {
    if share.extraNonce2.Bad? {
      return Malformed;
    }
    var coinbaseBytes := jobData.coinb1 + miner.extraNonce1 + share.extraNonce2.bytes + coinb2;
    var coinbaseHash := h(coinbaseBytes);
    var merkleRoot := FoldBranches(h, coinbaseHash, jobData.job.branches);
    var built := BuildHeader(jobData.job, merkleRoot, share);
    if built.Failed? {
      return built.verdict;
    }
    assert coinbaseBytes == CoinbaseOf(jobData, coinb2, miner, share);
    assert Fit32(coinbaseHash) == coinbaseHash;
    assert built.bytes == HeaderOf(h, jobData, coinb2, miner, share);
    v := JudgeHeader(h, built.bytes, coinbaseBytes, WordOf(jobData.job.nBits), jobData.template, miner, grace, now);
  }

  /** ValidateShare once the header is built. */
  method JudgeHeader(
      h: Sha256d, header: Bytes, coinbaseBytes: Bytes, bits: uint32, t: Template, miner: Miner, grace: real, now: real)
    returns (v: Verdict)
    requires |t.transactions| < MAXLEN
    ensures v.LowDifficulty? || v.Accepted?
    ensures JudgedHeader(BlockHash(h, header), bits, miner, grace, now, BlockFor(t, header, coinbaseBytes), v)
  {
    var blockHash := h(header);
    var blockHashBE := ReverseBytes(blockHash);
    var accepted := CheckDifficulty(blockHashBE, miner, grace, now);
    if !accepted {
      return LowDifficulty;
    }
    if HashMeetsTarget(blockHashBE, CompactToBig(bits)) {
      var block := BuildBlock(header, coinbaseBytes, t);
      return Accepted(block);
    }
    return Accepted(None);
  }

  datatype HeaderResult = Built(bytes: Bytes) | Failed(verdict: Verdict)

  /** The header part of ValidateShare. */
  method BuildHeader(job: Job, merkleRoot: Bytes, share: Share) returns (r: HeaderResult)
    ensures r.Built? <==> IsWord(share.nTime) && IsWord(share.nonce) && IsWord(job.nBits)
    ensures r.Built? ==> r.bytes == HeaderFor(job, merkleRoot, share)
    ensures r.Failed? ==> r.verdict == if IsWord(share.nTime) && !IsWord(job.nBits) then BadJob else Malformed
  {
    var finalVersion := job.version;
    if IsWord(share.versionBits) {
      XorStaysWord(job.version, WordOf(share.versionBits));
      finalVersion := Xor(job.version, WordOf(share.versionBits));
    }
    var header := PutUint32LE(finalVersion);
    var prevHashBytes := SwapEndianWords(job.prevHash);
    header := header + prevHashBytes;
    header := header + merkleRoot;
    if !IsWord(share.nTime) {
      return Failed(Malformed);
    }
    header := header + PutUint32LE(WordOf(share.nTime));
    if !IsWord(job.nBits) {
      return Failed(BadJob);
    }
    header := header + PutUint32LE(WordOf(job.nBits));
    if !IsWord(share.nonce) {
      return Failed(Malformed);
    }
    header := header + PutUint32LE(WordOf(share.nonce));
    return Built(header);
  }

  /** The difficulty part of ValidateShare. */
  method CheckDifficulty(hash: Bytes, miner: Miner, grace: real, now: real) returns (accepted: bool)
    ensures accepted == MeetsDifficulty(hash, miner, grace, now)
  {
    if !HashMeetsDifficulty(hash, miner.difficulty) {
      accepted := false;
      if grace > 0.0 {
        if miner.prevDiff > 0.0 && now - miner.diffChangedAt < grace {
          if HashMeetsDifficulty(hash, miner.prevDiff) {
            accepted := true;
          }
        }
      }
    } else {
      accepted := true;
    }
  }
}
