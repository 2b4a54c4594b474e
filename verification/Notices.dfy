/**
 * What the sessions of a solo server are told about jobs (pkg/engine/coinrunner.go): the registry's jobs as
 * the session sees them, and the sizes it is promised.
 */
module Notices {
  import opened BitcoinCash
  import opened Common
  import opened Jobs
  import opened Registry
  import opened Session
  import opened ShareValidator
  import opened Submission

  /** A job as a session is notified of it, with this second half. */
  function NoticeOf(jd: JobData, coinb2: Bytes): Notice {
    Notice(jd.job.id, coinb2, jd.job.cleanJobs)
  }

  /** The notice names a job and carries the address's own second half for it. */
  ghost predicate PaysOwn(c: Config, notice: Notice, a: string) {
    exists jd :: RightJob(c, jd) && FromTemplate(c, jd) && a in jd.addressCoinb2s
                 && notice.jobId == jd.job.id && notice.coinb2 == jd.addressCoinb2s[a]
  }

  /** The notice is of a job as it is broadcast to everyone. */
  ghost predicate IsBroadcast(c: Config, notice: Notice) {
    exists jd :: RightJob(c, jd) && FromTemplate(c, jd) && notice == NoticeOf(jd, jd.job.coinb2)
  }

  /** The session's handlers hand it jobs with its own half; what it may resend itself is the broadcast job. */
  ghost predicate FromRegistry(c: Config, e: Session.Event, a: string) {
    && (e.Authorize? && e.job.Some? ==> PaysOwn(c, e.job.value, a))
    && (e.SendJob? ==> PaysOwn(c, e.newJob, a))
    && (e.Submit? && e.current.Some? ==> IsBroadcast(c, e.current.value))
  }

  /** In every run each retained job makes such notices: for the addresses filled in, and for everyone. */
  lemma {:induction false} RetainedNotices(c: Config, states: seq<State>, events: seq<Registry.Event>, i: nat, id: nat)
    requires SoundCoin(c.coin) && i <= |events| && i < |states| && IsRun(c, states, events, i) && id in states[i].jobs
    ensures var jd := states[i].jobs[id];
            && IsBroadcast(c, NoticeOf(jd, jd.job.coinb2))
            && forall a :: a in jd.addressCoinb2s ==> PaysOwn(c, NoticeOf(jd, jd.addressCoinb2s[a]), a)
  {
    RunKeepsInv(c, states, events, i);
    var jd := states[i].jobs[id];
    assert RightJob(c, jd) && FromTemplate(c, jd);
  }

  /** A broadcast job pays nobody in Bitcoin Cash, because every second half has bytes. */
  lemma {:induction false} BroadcastPaysNobody(s: Setup, fallback: string, notice: Notice, a: string)
    requires Reasonable(s) && notice.coinb2 == []
    ensures !PaysOwn(Config(BchCoin(s), fallback), notice, a)
  {
    var c := Config(BchCoin(s), fallback);
    forall jd | RightJob(c, jd) && FromTemplate(c, jd) && a in jd.addressCoinb2s ensures jd.addressCoinb2s[a] != [] {
      StoredHalves(s, c, jd, a);
      HalfHasBytes(s, jd.template, a);
    }
  }

  lemma {:induction false} HalfHasBytes(s: Setup, t: Template, a: string)
    requires Reasonable(s) && |a| < MAXADDRESS
    ensures RightCoinb2(s, t, a) != Some([])
  {
    assert RightCoinb2(s, t, a).Some? ==> |RightCoinb2(s, t, a).value| >= 4;
  }

  /**
   * Every job a session is notified of carries its own second half, exactly unless a mid-block retarget
   * resends the broadcast job, whose second half is empty.
   */
  lemma {:induction false} OwnHalfUnlessResent(
      s: Setup, fallback: string, srv: Server, m: Session.Miner, e: Session.Event, a: string)
    requires Reasonable(s) && FromRegistry(Config(BchCoin(s), fallback), e, a)
    ensures (forall msg :: msg in Handled(srv, m, e).sent && msg.Notify?
               ==> PaysOwn(Config(BchCoin(s), fallback), msg.job, a))
       <==> !Resends(srv, m, e)
  {
    NotifiedOf(srv, m, e);
    if Resends(srv, m, e) {
      BroadcastPaysNobody(s, fallback, e.current.value.(cleanJobs := false), a);
    }
  }

  /** The extranonce2 size a session is told is the one its coinbase is built for, exactly from six bytes on. */
  lemma {:induction false} SizesAgreeFromSix(srv: Server, m: Session.Miner, s: Setup)
    requires s == SetupOf(s.h, s.network, s.coinbaseText, srv.extraNonceSize, s.donation)
    ensures Handled(srv, m, Subscribe).sent == [SubscribeReply(s.extraNonce2Size)] <==> srv.extraNonceSize >= 6
  {
    var sent := Handled(srv, m, Subscribe).sent;
    assert sent[0] == SubscribeReply(srv.extraNonceSize - 4);
  }

  /**
   * A miner with four bytes of extranonce1 that fills the announced extranonce2 size makes a coinbase of the
   * declared size, exactly from six bytes on.
   */
  lemma {:induction false} AnnouncedIsDeclaredIff(srv: Server, s: Setup, miner: ShareValidator.Miner, share: Share)
    requires s == SetupOf(s.h, s.network, s.coinbaseText, srv.extraNonceSize, s.donation)
    requires |miner.extraNonce1| == 4 && share.extraNonce2.Hex? && |share.extraNonce2.bytes| == srv.extraNonceSize - 4
    ensures DeclaredSize(s, miner, share) <==> srv.extraNonceSize >= 6
  {
  }
}
