/** The solo-mode handlers that drive the registry (pkg/engine/coinrunner.go), for Bitcoin Cash. */
module CoinRunner {
  import opened BitcoinCash
  import opened Charset
  import opened Common
  import opened JobManager
  import opened Jobs
  import opened Registry

  /** The address in "address.worker": up to the first dot, unless that comes first. */
  function AddressOf(workerName: string): string {
    var dot := IndexOf(workerName, '.');
    if dot > 0 then workerName[..dot] else workerName
  }

  /**
   * The authorize handler, run without interruption: it accepts exactly the valid addresses, counts each
   * call, and afterwards every job it filled can pay the address.
   */
  method AuthorizeHandler(jobMgr: Manager, s: Setup, workerName: string) returns (r: Option<string>)
    requires jobMgr.Valid() && Reasonable(s) && jobMgr.coin == BchCoin(s) && |workerName| < MAXADDRESS
    modifies jobMgr`connectedAddrs, jobMgr`jobs
    ensures jobMgr.Valid()
    ensures r == if IsValid(s.h, AddressOf(workerName), s.network) then Some(AddressOf(workerName)) else None
    ensures jobMgr.connectedAddrs
            == if r.Some? then CountIn(old(jobMgr.connectedAddrs), r.value) else old(jobMgr.connectedAddrs)
    ensures jobMgr.jobs == if r.Some? && r.value !in old(jobMgr.connectedAddrs)
                           then FillJobs(jobMgr.coin, old(jobMgr.jobs), r.value) else old(jobMgr.jobs)
    ensures r.Some? ==> jobMgr.coin.registrable(r.value)
  {
    var address := AddressOf(workerName);
    var valid := ValidateAddress(s.h, address, s.network);
    if !valid {
      return None;
    }
    jobMgr.RegisterAddress(address);
    return Some(address);
  }

  /** The job handler: the newest job with the session's own payout. */
  method JobForSession(jobMgr: Manager, miningAddress: string) returns (r: Option<Job>)
    ensures r.Some? ==>
              exists id :: IsNewest(jobMgr.jobs, id) && miningAddress in jobMgr.jobs[id].addressCoinb2s
                           && r.value == jobMgr.jobs[id].job.(coinb2 := jobMgr.jobs[id].addressCoinb2s[miningAddress])
    ensures r.None? ==>
              jobMgr.jobs == map[]
              || exists id :: IsNewest(jobMgr.jobs, id) && miningAddress !in jobMgr.jobs[id].addressCoinb2s
  {
    r := jobMgr.GetJobForAddress(miningAddress);
  }

  /** The removal handler: one removal call for the last authorized address, if any. */
  method OnSessionRemoved(jobMgr: Manager, miningAddress: string)
    requires jobMgr.Valid()
    modifies jobMgr`connectedAddrs
    ensures jobMgr.Valid()
    ensures jobMgr.connectedAddrs == CountOut(old(jobMgr.connectedAddrs), miningAddress)
  {
    if miningAddress != "" {
      jobMgr.UnregisterAddress(miningAddress);
    }
  }

  /** Filling pays: in Bitcoin Cash a validated address gets its second half in every job filled for it. */
  lemma {:induction false} FilledCanPay(s: Setup, jobs: map<nat, JobData>, a: string, id: nat)
    requires Reasonable(s) && |a| < MAXADDRESS && IsValid(s.h, a, s.network) && id in jobs
    requires a !in jobs[id].addressCoinb2s
    ensures var jd := FillJobs(BchCoin(s), jobs, a)[id];
            && a in jd.addressCoinb2s && RightCoinb2(s, jd.template, a) == Some(jd.addressCoinb2s[a])
            && (jobs[id].coinb1 == [] ==> jd.coinb1 == jd.job.coinb1 == RightCoinb1(s, jd.template))
  {
    ValidHasCoinb2(s, jobs[id].template, a);
    assert BchCoin(s).build(jobs[id].template, a) == BchParts(s, jobs[id].template, a);
  }
}
