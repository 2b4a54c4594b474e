/** The job manager (pkg/engine/jobmanager.go, solo mode), one method per lock section. */
module JobManager {
  import opened BitcoinCash
  import opened Common
  import opened Jobs
  import opened Registry

  predicate IsNewest(jobs: map<nat, JobData>, id: nat) {
    id in jobs && forall k :: k in jobs ==> jobs[k].created <= jobs[id].created
  }

  class Manager {
    const coin: Coin
    const address: string
    const maxJobHistory: nat := 10
    var jobs: map<nat, JobData>
    var currentTip: Hex
    var tipChangedAt: int
    var jobCounter: nat
    var connectedAddrs: map<string, nat>

    ghost predicate Valid()
      reads this
    {
      forall a :: a in connectedAddrs ==> connectedAddrs[a] >= 1
    }

    function Config(): Registry.Config {
      Registry.Config(coin, address)
    }

    /** NewJobManager. The empty tip is the zero value of a Go string. */
    constructor (coin: Coin, address: string)
      ensures Valid() && this.coin == coin && this.address == address
      ensures jobs == map[] && connectedAddrs == map[] && jobCounter == 0 && currentTip == Hex([])
    {
      this.coin, this.address := coin, address;
      jobs, connectedAddrs, jobCounter, currentTip, tipChangedAt := map[], map[], 0, Hex([]), 0;
    }

    /** RegisterAddress, the section under addrMu. */
    method RegisterCount(addr: string) returns (isNew: bool)
      requires Valid()
      modifies `connectedAddrs
      ensures Valid() && connectedAddrs == CountIn(old(connectedAddrs), addr)
      ensures isNew <==> addr !in old(connectedAddrs)
    {
      if addr in connectedAddrs {
        connectedAddrs := connectedAddrs[addr := connectedAddrs[addr] + 1];
      } else {
        connectedAddrs := connectedAddrs[addr := 1];
      }
      isNew := connectedAddrs[addr] == 1;
    }

    /** RegisterAddress, the section under mu: fill the address into every job. */
    method RegisterFill(addr: string)
      requires Valid()
      modifies `jobs
      ensures Valid() && jobs == FillJobs(coin, old(jobs), addr)
    {
      var todo := jobs.Keys;
      while todo != {}
        invariant Valid() && todo <= jobs.Keys == old(jobs).Keys
        invariant forall id :: id in todo ==> jobs[id] == old(jobs)[id]
        invariant forall id :: id in jobs && id !in todo ==> jobs[id] == FillJob(coin, old(jobs)[id], addr)
        decreases todo
      {
        var id :| id in todo;
        var filled := FillOne(jobs[id], addr);
        jobs := jobs[id := filled];
        todo := todo - {id};
      }
    }

    method FillOne(jobData: JobData, addr: string) returns (r: JobData)
      requires Valid()
      ensures r == FillJob(coin, jobData, addr)
    {
      r := jobData;
      if addr !in jobData.addressCoinb2s {
        var parts := coin.build(jobData.template, addr);
        if parts.Some? {
          r := r.(addressCoinb2s := r.addressCoinb2s[addr := parts.value.coinb2]);
          if r.coinb1 == [] {
            r := r.(coinb1 := parts.value.coinb1);
            r := r.(job := r.job.(coinb1 := parts.value.coinb1));
          }
        }
      }
    }

    /** RegisterAddress run without interruption. */
    method RegisterAddress(addr: string)
      requires Valid()
      modifies `connectedAddrs, `jobs
      ensures Valid() && connectedAddrs == CountIn(old(connectedAddrs), addr)
      ensures jobs == if addr in old(connectedAddrs) then old(jobs) else FillJobs(coin, old(jobs), addr)
    {
      var isNew := RegisterCount(addr);
      if isNew {
        RegisterFill(addr);
      }
    }

    /** UnregisterAddress. */
    method UnregisterAddress(addr: string)
      requires Valid()
      modifies `connectedAddrs
      ensures Valid() && connectedAddrs == CountOut(old(connectedAddrs), addr)
    {
      if addr == "" {
        return;
      }
      if addr in connectedAddrs {
        var count := connectedAddrs[addr];
        if count <= 1 {
          connectedAddrs := connectedAddrs - {addr};
        } else {
          connectedAddrs := connectedAddrs[addr := count - 1];
        }
      }
    }

    /** refreshTemplate, the addrMu section inside: the connected addresses in some order. */
    method SnapshotAddresses() returns (addresses: seq<string>)
      requires Valid()
      ensures Elements(addresses) == connectedAddrs.Keys
      ensures forall i, j :: 0 <= i < j < |addresses| ==> addresses[i] != addresses[j]
    {
      addresses := [];
      var todo := connectedAddrs.Keys;
      while todo != {}
        invariant todo <= connectedAddrs.Keys
        invariant forall a :: a in addresses <==> a in connectedAddrs && a !in todo
        invariant forall i, j :: 0 <= i < j < |addresses| ==> addresses[i] != addresses[j]
        decreases todo
      {
        var addr :| addr in todo;
        addresses := addresses + [addr];
        todo := todo - {addr};
      }
    }

    /** The coinbase loop of refreshTemplate. */
    method BuildAll(template: Template, addresses: seq<string>) returns (coinb1: Bytes, coinb2s: map<string, Bytes>)
      requires Valid()
      ensures coinb1 == FirstCoinb1(Config(), template, addresses)
      ensures coinb2s == AllCoinb2s(coin, template, Elements(addresses))
    {
      coinb1, coinb2s := [], map[];
      var i := 0;
      while i < |addresses|
        invariant 0 <= i <= |addresses|
        invariant coinb2s == AllCoinb2s(coin, template, Elements(addresses[..i]))
        invariant coinb1 == if i > 0 && coin.build(template, addresses[0]).Some?
                            then coin.build(template, addresses[0]).value.coinb1 else []
      {
        assert Elements(addresses[..i + 1]) == Elements(addresses[..i]) + {addresses[i]};
        var parts := coin.build(template, addresses[i]);
        if parts.Some? {
          if i == 0 {
            coinb1 := parts.value.coinb1;
          }
          coinb2s := coinb2s[addresses[i] := parts.value.coinb2];
        }
        i := i + 1;
      }
      assert addresses[..i] == addresses;
      if coinb1 == [] && address != "" {
        var parts := coin.build(template, address);
        if parts.Some? {
          coinb1 := parts.value.coinb1;
        }
      }
    }

    /** refreshTemplate, everything under mu once the addresses are known. */
    method PublishJob(template: Template, addresses: seq<string>, now: int)
      requires Valid()
      modifies `jobs, `currentTip, `tipChangedAt, `jobCounter
      ensures Valid() && jobCounter == old(jobCounter) + 1 && currentTip == template.previousBlockHash
      ensures tipChangedAt == if template.previousBlockHash != old(currentTip) then now else old(tipChangedAt)
      ensures var jd := NewJob(Config(), template, addresses, jobCounter, old(currentTip), now);
              PrunedTo(old(jobs)[jobCounter := jd], jobs, MAXJOBS)
    {
      var cleanJobs := template.previousBlockHash != currentTip;
      if cleanJobs {
        tipChangedAt := now;
      }
      currentTip := template.previousBlockHash;
      var coinb1, coinb2s := BuildAll(template, addresses);
      var branches := ComputeMerkleBranches(coin.h, template);
      jobCounter := jobCounter + 1;
      var prevHash := SwapHashEndianness(template.previousBlockHash);
      var job := Job(jobCounter, prevHash, coinb1, [], branches, template.version, template.bits, template.curTime,
                     cleanJobs);
      var jobData := JobData(job, template, coinb1, [], coinb2s, now);
      assert jobData == NewJob(Config(), template, addresses, jobCounter, old(currentTip), now);
      jobs := jobs[jobCounter := jobData];
      if |jobs| > maxJobHistory {
        PruneJobs();
      }
    }

    /** refreshTemplate run without interruption, for a template the node returned. */
    method RefreshTemplate(template: Template, now: int) returns (ghost addresses: seq<string>)
      requires Valid()
      modifies `jobs, `currentTip, `tipChangedAt, `jobCounter
      ensures Valid() && jobCounter == old(jobCounter) + 1 && currentTip == template.previousBlockHash
      ensures tipChangedAt == if template.previousBlockHash != old(currentTip) then now else old(tipChangedAt)
      ensures Elements(addresses) == connectedAddrs.Keys
      ensures var jd := NewJob(Config(), template, addresses, jobCounter, old(currentTip), now);
              PrunedTo(old(jobs)[jobCounter := jd], jobs, MAXJOBS)
    {
      var snapshot := SnapshotAddresses();
      PublishJob(template, snapshot, now);
      addresses := snapshot;
    }

    /** pruneJobs: drop an oldest job until the limit is met. */
    method PruneJobs()
      modifies `jobs
      ensures PrunedTo(old(jobs), jobs, maxJobHistory)
    {
      while |jobs| > maxJobHistory
        invariant PrunedTo(old(jobs), jobs, Max(|jobs|, maxJobHistory)) && |jobs| <= |old(jobs)|
        invariant |old(jobs)| > maxJobHistory ==> |jobs| >= maxJobHistory
        decreases |jobs|
      {
        var oldest := OldestJob(jobs);
        assert (jobs - {oldest}).Keys == jobs.Keys - {oldest};
        jobs := jobs - {oldest};
      }
    }

    static method OldestJob(js: map<nat, JobData>) returns (oldest: nat)
      requires js != map[]
      ensures oldest in js && forall id :: id in js ==> js[oldest].created <= js[id].created
    {
      oldest :| oldest in js;
      var todo := js.Keys - {oldest};
      while todo != {}
        invariant oldest in js && todo <= js.Keys
        invariant forall id :: id in js && id !in todo ==> js[oldest].created <= js[id].created
        decreases todo
      {
        var id :| id in todo;
        if js[id].created < js[oldest].created {
          oldest := id;
        }
        todo := todo - {id};
      }
    }

    /** GetJob. */
    method GetJob(id: nat) returns (r: Option<JobData>)
      ensures r.Some? <==> id in jobs
      ensures r.Some? ==> r.value == jobs[id]
    {
      return if id in jobs then Some(jobs[id]) else None;
    }

    /** GetJobForAddress: the newest job, with the address's own second half. */
    method GetJobForAddress(addr: string) returns (r: Option<Job>)
      ensures r.Some? ==> exists id :: IsNewest(jobs, id) && addr in jobs[id].addressCoinb2s
                                       && r.value == jobs[id].job.(coinb2 := jobs[id].addressCoinb2s[addr])
      ensures r.None? ==> jobs == map[] || exists id :: IsNewest(jobs, id) && addr !in jobs[id].addressCoinb2s
    {
      if jobs == map[] {
        return None;
      }
      var latest :| latest in jobs;
      var todo := jobs.Keys - {latest};
      while todo != {}
        invariant latest in jobs && todo <= jobs.Keys
        invariant forall id :: id in jobs && id !in todo ==> jobs[id].created <= jobs[latest].created
        decreases todo
      {
        var id :| id in todo;
        if jobs[id].created > jobs[latest].created {
          latest := id;
        }
        todo := todo - {id};
      }
      if addr !in jobs[latest].addressCoinb2s {
        return None;
      }
      return Some(jobs[latest].job.(coinb2 := jobs[latest].addressCoinb2s[addr]));
    }
  }
}
