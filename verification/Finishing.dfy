/**
 That work gets done: whatever has happened to a job that workers share in, one
 worker asking for it and delivering what it bakes brings it to its end.
 */
module Finishing {
  import opened Archive
  import opened Assemble
  import opened Bake
  import opened Books
  import opened Coverage
  import opened Distributed
  import opened Leasing
  import opened Overlaps
  import opened Plan
  import opened Requests
  import opened Restarts
  import opened Service
  import opened Sharded
  import opened SharedBake

  /** A running job of which nobody has a shard, and none is given up on. */
  ghost predicate IsFree(job: Record) {
    job.phase.Running? && AllFree(job.shards)
  }

  ghost predicate AllFree(lots: seq<Lot>) {
    forall i :: 0 <= i < |lots| ==> lots[i].state.Pending? || lots[i].state.Done?
  }

  /** How many shards are waiting. */
  ghost function Waiting(lots: seq<Lot>): nat {
    |set i | 0 <= i < |lots| && lots[i].state.Pending?|
  }

  ghost predicate SomeWaits(lots: seq<Lot>) {
    exists i :: 0 <= i < |lots| && lots[i].state.Pending?
  }

  /** One waiting shard is done; once none waits, the job is to be put together. */
  ghost predicate OneDone(before: Record, after: Record, i: nat) {
    && i < |before.shards| == |after.shards| && before.shards[i].state.Pending? && after.remote == before.remote
    && after.shards[i].state.Done? && after.shards[i].shard == before.shards[i].shard
    && (forall k :: 0 <= k < |before.shards| && k != i ==> after.shards[k] == before.shards[k])
    && after.phase == if SomeWaits(after.shards) then Running else Assembling
  }

  lemma LentAndTaken(job: Record, i: nat, lease: Lease, fragment: bool, max: nat)
    requires IsFree(job) && i < |job.shards| && job.shards[i].state.Pending?
    ensures Allowed(job, Grant(i, lease))
    ensures var lent := After(job, Grant(i, lease), max);
            && Allowed(lent, Complete(i, fragment)) && lent.phase.Running? && |lent.shards| == |job.shards|
            && lent.shards[i].shard == job.shards[i].shard && lent.shards[i].state.Leased?
            && OneDone(job, After(lent, Complete(i, fragment), max), i)
  {
    var lent := After(job, Grant(i, lease), max);
    var after := After(lent, Complete(i, fragment), max);
    assert forall k :: 0 <= k < |job.shards| && k != i ==> after.shards[k] == job.shards[k];
    assert forall k :: 0 <= k < |after.shards| ==> after.shards[k].state.Pending? || after.shards[k].state.Done?;
    assert lent.With(i, lent.shards[i].(state := Done, lease := None, fragment := fragment)).AnyOpen() <==>
           SomeWaits(after.shards);
  }

  lemma FreeStays(before: Record, after: Record, i: nat)
    requires IsFree(before) && OneDone(before, after, i)
    ensures AllFree(after.shards) && Waiting(after.shards) == Waiting(before.shards) - 1
    ensures after.phase.Running? ==> IsFree(after)
  {
    var was, now := set k | 0 <= k < |before.shards| && before.shards[k].state.Pending?,
      set k | 0 <= k < |after.shards| && after.shards[k].state.Pending?;
    assert now == was - {i};
  }

  /** Sweeping leaves alone a job of which nobody has a shard. */
  lemma FreeIsNotSwept(job: Record, now: int, max: nat)
    requires IsFree(job)
    ensures job.Swept(now, max) == job
  {
  }

  lemma RunningWaits(c: DistributedBakes, id: JobId)
    requires c.Valid() && id in c.jobs && IsFree(c.jobs[id])
    ensures SomeWaits(c.jobs[id].shards) && c.jobs[id].shards != []
  {
    PhaseSafety(c, id);
    hide Kept, Lists;
  }

  /** What a worker would deliver of each shard is what baking it comes to. */
  ghost predicate DoesIt(c: Commission, lots: seq<Lot>, work: nat -> Option<Upload>) {
    forall i: nat :: i < |lots| ==> IsHonest(c, lots[i].shard, work(i))
  }

  lemma StillDoesIt(c: Commission, before: Record, after: Record, i: nat, work: nat -> Option<Upload>)
    requires DoesIt(c, before.shards, work) && OneDone(before, after, i)
    ensures DoesIt(c, after.shards, work)
  {
    hide IsHonest;
    assert forall k :: 0 <= k < |before.shards| ==> after.shards[k].shard == before.shards[k].shard;
  }

  /** What a shard's bake comes to lies within it. */
  lemma HonestIsWithin(c: Commission, shard: Shard, file: Upload)
    requires c.Valid() && IsHonest(c, shard, Some(file))
    ensures Checked(shard, file)
  {
    var part, f := PartOf(c.job, shard), Fragment(Some(file), shard.from, shard.to);
    PartIsAShard(c.job, shard);
    hide IsShardOf, Job.NoEmptyTiles;
    if c.untorn {
      PartHasNoEmptyTiles(c, shard);
      BakeIsAccepted(c.job, shard, part, c.kind, f);
    } else {
      CoverIsAccepted(c.job, shard, part, c.kind, f);
    }
  }

  lemma PartHasNoEmptyTiles(c: Commission, shard: Shard)
    requires c.Valid()
    ensures PartOf(c.job, shard).NoEmptyTiles()
  {
  }

  /** Everything a worker needs to be lent a job's shards one after another. */
  ghost predicate MayFinish(jobs: map<JobId, Record>, cannot: map<WorkerId, set<JobId>>,
                            commissions: map<JobId, Commission>, id: JobId, worker: WorkerId,
                            work: nat -> Option<Upload>)
  {
    && id in jobs && id in commissions && IsFree(jobs[id]) && jobs[id].remote && id !in CannotDo(cannot, worker)
    && DoesIt(commissions[id], jobs[id].shards, work)
  }

  lemma MayFinishIs(jobs: map<JobId, Record>, cannot: map<WorkerId, set<JobId>>,
                    commissions: map<JobId, Commission>, id: JobId, worker: WorkerId, work: nat -> Option<Upload>)
    requires MayFinish(jobs, cannot, commissions, id, worker, work)
    ensures id in jobs && id in commissions && IsFree(jobs[id]) && jobs[id].remote && jobs[id].phase.Running?
    ensures !(worker in cannot && id in cannot[worker]) && DoesIt(commissions[id], jobs[id].shards, work)
  {
    hide DoesIt;
  }

  lemma WaitsInSwept(jobs: map<JobId, Record>, id: JobId, now: int, max: nat)
    requires id in jobs && IsFree(jobs[id]) && SomeWaits(jobs[id].shards)
    ensures var swept := SweptJobs(jobs, now, max);
            && id in swept && swept[id] == jobs[id]
            && exists i :: IsWaiting(swept[id].shards, i)
  {
    FreeIsNotSwept(jobs[id], now, max);
    var i :| 0 <= i < |jobs[id].shards| && jobs[id].shards[i].state.Pending?;
    assert IsWaiting(jobs[id].shards, i);
  }

  lemma WorksOn(c: Commission, lots: seq<Lot>, work: nat -> Option<Upload>, i: nat)
    requires DoesIt(c, lots, work) && i < |lots|
    ensures IsHonest(c, lots[i].shard, work(i))
  {
    hide IsHonest;
  }

  lemma IsWantedAt(jobs: map<JobId, Record>, leases: map<LeaseId, Ref>, lease: LeaseId, at: Ref)
    requires lease in leases && leases[lease] == at && at.job in jobs && jobs[at.job].phase.Running?
    requires at.index < |jobs[at.job].shards| && jobs[at.job].shards[at.index].state.Leased?
    ensures WantedAt(jobs, leases, lease) == Some(at)
  {
  }

  lemma DeliveredFits(commissions: map<JobId, Commission>, jobs: map<JobId, Record>, at: Ref, file: Option<Upload>)
    requires at.job in commissions && commissions[at.job].Valid() && at.job in jobs
    requires at.index < |jobs[at.job].shards|
    requires IsHonest(commissions[at.job], jobs[at.job].shards[at.index].shard, file)
    ensures Fitting(jobs, at, file) && HonestAt(commissions, jobs, at, file)
  {
    if file.Some? {
      HonestIsWithin(commissions[at.job], jobs[at.job].shards[at.index].shard, file.value);
    }
    hide IsHonest, Checked, Commission.Valid;
  }

  lemma CommissionIsValid(c: DistributedBakes, id: JobId)
    requires c.Valid() && id in c.jobs
    ensures id in c.commissions && c.commissions[id].Valid()
  {
    KeptParts(c.State(), id, c.maxAttempts);
    JobHas(id, c.jobs[id], c.State().FilesOf(id), c.State().Known(), c.granted, c.commissions[id], c.honest,
           c.maxAttempts, c.past);
    hide Kept, KeptJob, JobKept;
  }

  /** A worker asks for a job's shard and is lent one, bakes it and delivers it. */
  method OneShard(c: DistributedBakes, id: JobId, worker: WorkerId, now: int, lease: LeaseId,
                  work: nat -> Option<Upload>)
    returns (ghost i: nat)
    requires c.Valid() && lease !in c.granted && MayFinish(c.jobs, c.cannot, c.commissions, id, worker, work)
    modifies c
    ensures c.Valid() && c.commissions == old(c.commissions) && c.cannot == old(c.cannot)
    ensures c.cleared == old(c.cleared) && c.honest == old(c.honest) && c.past == old(c.past)
    ensures c.granted.Keys == old(c.granted).Keys + {lease}
    ensures id in c.jobs && OneDone(old(c.jobs)[id], c.jobs[id], i)
  {
    hide *;
    MayFinishIs(c.jobs, c.cannot, c.commissions, id, worker, work);
    RunningWaits(c, id);
    CommissionIsValid(c, id);
    WaitsInSwept(c.jobs, id, now, c.maxAttempts);
    ghost var job := c.jobs[id];
    var loan := c.LeaseShard(worker, Some(id), false, now, lease);
    i := loan.value.index;
    ghost var at, terms := Ref(id, i, worker), Lease(lease, worker, now + c.leaseSeconds * 1000);
    var file := work(loan.value.index);
    LentAndTaken(job, i, terms, file.Some?, c.maxAttempts);
    AfterAtIs(SweptJobs(old(c.jobs), now, c.maxAttempts), id, Grant(i, terms), c.maxAttempts);
    WorksOn(c.commissions[id], job.shards, work, i);
    IsWantedAt(c.jobs, c.leases, lease, at);
    DeliveredFits(c.commissions, c.jobs, at, file);
    ghost var lent := c.jobs;
    var answer := c.CompleteShard(lease, file);
    AfterAtIs(lent, id, Complete(i, file.Some?), c.maxAttempts);
  }

  lemma NothingWaiting(lots: seq<Lot>)
    ensures SomeWaits(lots) <==> Waiting(lots) > 0
  {
    var waiting := set i | 0 <= i < |lots| && lots[i].state.Pending?;
    if SomeWaits(lots) {
      var i :| 0 <= i < |lots| && lots[i].state.Pending?;
      assert i in waiting;
    } else {
      assert waiting == {};
    }
  }

  /** Where a job that is being finished has got to. */
  ghost predicate UnderWay(jobs: map<JobId, Record>, cannot: map<WorkerId, set<JobId>>,
                           commissions: map<JobId, Commission>, id: JobId, worker: WorkerId,
                           work: nat -> Option<Upload>, left: nat)
  {
    && id in jobs && Waiting(jobs[id].shards) == left
    && (if left > 0 then MayFinish(jobs, cannot, commissions, id, worker, work) else jobs[id].phase.Assembling?)
  }

  lemma BeginsWaiting(jobs: map<JobId, Record>, cannot: map<WorkerId, set<JobId>>,
                      commissions: map<JobId, Commission>, id: JobId, worker: WorkerId, work: nat -> Option<Upload>)
    requires MayFinish(jobs, cannot, commissions, id, worker, work) && SomeWaits(jobs[id].shards)
    ensures UnderWay(jobs, cannot, commissions, id, worker, work, Waiting(jobs[id].shards))
    ensures Waiting(jobs[id].shards) > 0
  {
    NothingWaiting(jobs[id].shards);
    hide MayFinish, Waiting, SomeWaits;
  }

  lemma OneFewer(before: map<JobId, Record>, jobs: map<JobId, Record>, cannot: map<WorkerId, set<JobId>>,
                 commissions: map<JobId, Commission>, id: JobId, worker: WorkerId, work: nat -> Option<Upload>,
                 i: nat, left: nat)
    requires UnderWay(before, cannot, commissions, id, worker, work, left) && left > 0
    requires id in jobs && OneDone(before[id], jobs[id], i)
    ensures UnderWay(jobs, cannot, commissions, id, worker, work, left - 1)
  {
    FreeStays(before[id], jobs[id], i);
    StillDoesIt(commissions[id], before[id], jobs[id], i, work);
    NothingWaiting(jobs[id].shards);
    hide AllFree, DoesIt, Waiting, SomeWaits;
  }

  lemma IsUnderWay(jobs: map<JobId, Record>, cannot: map<WorkerId, set<JobId>>, commissions: map<JobId, Commission>,
                   id: JobId, worker: WorkerId, work: nat -> Option<Upload>, left: nat)
    requires UnderWay(jobs, cannot, commissions, id, worker, work, left)
    ensures id in jobs && (jobs[id].phase.Running? <==> left > 0) && (left == 0 ==> jobs[id].phase.Assembling?)
    ensures left > 0 ==> MayFinish(jobs, cannot, commissions, id, worker, work)
  {
  }

  /** No lease is drawn twice. */
  ghost predicate AreFresh(leases: seq<LeaseId>, granted: set<LeaseId>) {
    FreshFrom(leases, 0, granted)
  }

  /** Nor was any of those that are left. */
  ghost predicate FreshFrom(leases: seq<LeaseId>, n: nat, granted: set<LeaseId>) {
    && (forall k :: n <= k < |leases| ==> leases[k] !in granted)
    && (forall j, k :: n <= j < k < |leases| ==> leases[j] != leases[k])
  }

  /** The next of them: one shard fewer is left. */
  method NextShard(c: DistributedBakes, id: JobId, worker: WorkerId, now: int, leases: seq<LeaseId>, n: nat,
                   work: nat -> Option<Upload>, ghost left: nat)
    requires c.Valid() && 0 < left && UnderWay(c.jobs, c.cannot, c.commissions, id, worker, work, left)
    requires n < |leases| && FreshFrom(leases, n, c.granted.Keys)
    modifies c
    ensures c.Valid() && UnderWay(c.jobs, c.cannot, c.commissions, id, worker, work, left - 1)
    ensures FreshFrom(leases, n + 1, c.granted.Keys)
    ensures c.commissions == old(c.commissions) && c.honest == old(c.honest) && c.cleared == old(c.cleared)
  {
    hide *;
    ghost var before, granted := c.jobs, c.granted.Keys;
    IsUnderWay(before, c.cannot, c.commissions, id, worker, work, left);
    NextIsFresh(leases, n, granted);
    ghost var i := OneShard(c, id, worker, now, leases[n], work);
    OneFewer(before, c.jobs, c.cannot, c.commissions, id, worker, work, i, left);
  }

  /**
   One worker asking for a job, over and over, and delivering what it bakes, is
   lent each waiting shard once; then the job is to be put together.
   */
  method FinishAlone(c: DistributedBakes, id: JobId, worker: WorkerId, clock: nat -> int, leases: seq<LeaseId>,
                     work: nat -> Option<Upload>)
    returns (loans: nat)
    requires c.Valid() && MayFinish(c.jobs, c.cannot, c.commissions, id, worker, work)
    requires Waiting(c.jobs[id].shards) <= |leases| && AreFresh(leases, c.granted.Keys)
    modifies c
    ensures c.Valid() && id in c.jobs && c.jobs[id].phase.Assembling?
    ensures loans == old(Waiting(c.jobs[id].shards))
    ensures c.commissions == old(c.commissions) && c.honest == old(c.honest) && c.cleared == old(c.cleared)
  {
    ghost var waiting, granted := Waiting(c.jobs[id].shards), c.granted.Keys;
    hide *;
    MayFinishIs(c.jobs, c.cannot, c.commissions, id, worker, work);
    RunningWaits(c, id);
    BeginsWaiting(c.jobs, c.cannot, c.commissions, id, worker, work);
    IsUnderWay(c.jobs, c.cannot, c.commissions, id, worker, work, waiting);
    StartsFresh(leases, granted);
    loans := 0;
    while c.jobs[id].phase.Running?
      invariant c.Valid() && loans <= waiting && id in c.jobs
      invariant UnderWay(c.jobs, c.cannot, c.commissions, id, worker, work, waiting - loans)
      invariant c.jobs[id].phase.Running? <==> loans < waiting
      invariant FreshFrom(leases, loans, c.granted.Keys)
      invariant c.commissions == old(c.commissions) && c.honest == old(c.honest) && c.cleared == old(c.cleared)
      decreases waiting - loans
    {
      NextShard(c, id, worker, clock(loans), leases, loans, work, waiting - loans);
      loans := loans + 1;
      IsUnderWay(c.jobs, c.cannot, c.commissions, id, worker, work, waiting - loans);
    }
    IsUnderWay(c.jobs, c.cannot, c.commissions, id, worker, work, waiting - loans);
  }

  lemma NextIsFresh(leases: seq<LeaseId>, n: nat, granted: set<LeaseId>)
    requires n < |leases| && FreshFrom(leases, n, granted)
    ensures leases[n] !in granted && FreshFrom(leases, n + 1, granted + {leases[n]})
  {
  }

  lemma StartsFresh(leases: seq<LeaseId>, granted: set<LeaseId>)
    requires AreFresh(leases, granted)
    ensures FreshFrom(leases, 0, granted)
  {
  }

  /** Stopped and tried again, a job has every shard that is not done waiting. */
  lemma RetriedIsFree(job: Record, max: nat)
    requires Allowed(job, Retry) && !AnyLent(job.shards)
    ensures var after := After(job, Retry, max);
            && AllFree(after.shards) && after.remote == job.remote
            && (if SomeWaits(after.shards) then after.phase.Running? else after.phase.Assembling?)
            && (forall i :: 0 <= i < |job.shards| ==> after.shards[i].shard == job.shards[i].shard)
            && |after.shards| == |job.shards|
            && (forall i :: 0 <= i < |job.shards| ==> (after.shards[i].state.Done? <==> job.shards[i].state.Done?))
  {
    var again := job.(phase := Running, finished := false, shards := RetriedShards(job.shards));
    assert again.AnyOpen() <==> SomeWaits(again.shards);
  }

  lemma StoppedIsLoose(job: Record, max: nat)
    requires Allowed(job, Stop)
    ensures var after := After(job, Stop, max);
            && !AnyLent(after.shards) && after.phase.Cancelled? && after.remote == job.remote
            && |after.shards| == |job.shards|
            && (forall i :: 0 <= i < |job.shards| ==> after.shards[i].shard == job.shards[i].shard)
  {
  }

  lemma SameWork(c: Commission, before: seq<Lot>, after: seq<Lot>, work: nat -> Option<Upload>)
    requires DoesIt(c, before, work) && |after| == |before|
    requires forall i :: 0 <= i < |before| ==> after[i].shard == before[i].shard
    ensures DoesIt(c, after, work)
  {
    hide IsHonest;
  }

  lemma {:induction false} FewWait(lots: seq<Lot>)
    ensures Waiting(lots) <= |lots|
  {
    if lots == [] {
      NothingWaiting(lots);
    } else {
      var n := |lots| - 1;
      var before := lots[..n];
      FewWait(before);
      assert (set i | 0 <= i < |lots| && lots[i].state.Pending?) ==
             (set i | 0 <= i < |before| && before[i].state.Pending?) + if lots[n].state.Pending? then {n} else {};
    }
  }

  /** A job that can be stopped, if need be, and tried again. */
  ghost predicate CanBeRevived(job: Record) {
    && job.shards != [] && (job.finished ==> !AnyLent(job.shards))
    && (job.phase.Running? || job.phase.Stalled? || job.phase.Cancelled? || job.phase.Failed?)
  }

  /** Nobody has any of the shards, and the job can be tried again. */
  ghost predicate IsLoose(before: Record, job: Record) {
    && !AnyLent(job.shards) && job.remote == before.remote && |job.shards| == |before.shards| && job.shards != []
    && (job.phase.Running? || job.phase.Stalled? || job.phase.Cancelled? || job.phase.Failed?)
    && forall i :: 0 <= i < |before.shards| ==> job.shards[i].shard == before.shards[i].shard
  }

  /** A job is stopped, unless it has ended anyhow. */
  method Loosen(c: DistributedBakes, id: JobId)
    requires c.Valid() && id in c.jobs && CanBeRevived(c.jobs[id])
    modifies c`jobs, c`leases, c`past
    ensures c.Valid() && id in c.jobs && IsLoose(old(c.jobs)[id], c.jobs[id])
  {
    ghost var job := c.jobs[id];
    CanStop(job);
    hide *;
    if !c.jobs[id].finished {
      StoppedIsLoose(job, c.maxAttempts);
      AfterAtIs(c.jobs, id, Stop, c.maxAttempts);
      var stopped := c.Cancel(id);
    }
    LooseIs(job, c.jobs[id]);
  }

  lemma LooseIs(job: Record, loose: Record)
    requires job.shards != [] && !AnyLent(loose.shards) && (loose == job || loose.phase.Cancelled?)
    requires job.phase.Running? || job.phase.Stalled? || job.phase.Cancelled? || job.phase.Failed?
    requires loose.remote == job.remote && |loose.shards| == |job.shards|
    requires forall i :: 0 <= i < |job.shards| ==> loose.shards[i].shard == job.shards[i].shard
    ensures IsLoose(job, loose)
  {
  }

  lemma LooseParts(before: Record, job: Record)
    requires IsLoose(before, job)
    ensures Allowed(job, Retry) && !AnyLent(job.shards) && job.remote == before.remote && job.shards != []
    ensures job.phase.Running? || job.phase.Stalled? || job.phase.Cancelled? || job.phase.Failed?
    ensures |job.shards| == |before.shards|
    ensures forall i :: 0 <= i < |before.shards| ==> job.shards[i].shard == before.shards[i].shard
  {
  }

  /** A job nobody has any shard of is tried again. */
  method Rejoin(c: DistributedBakes, id: JobId, ghost before: Record, ghost worker: WorkerId,
                ghost work: nat -> Option<Upload>)
    requires c.Valid() && id in c.jobs && id in c.commissions && IsLoose(before, c.jobs[id]) && before.remote
    requires id !in CannotDo(c.cannot, worker) && DoesIt(c.commissions[id], before.shards, work)
    modifies c`jobs, c`leases, c`past
    ensures c.Valid() && id in c.jobs && |c.jobs[id].shards| == |before.shards|
    ensures if SomeWaits(c.jobs[id].shards)
            then MayFinish(c.jobs, c.cannot, c.commissions, id, worker, work)
            else c.jobs[id].phase.Assembling?
  {
    hide *;
    ghost var loose := c.jobs[id];
    LooseParts(before, loose);
    RetriedIsFree(loose, c.maxAttempts);
    AfterAtIs(c.jobs, id, Retry, c.maxAttempts);
    var ok := c.RetryJob(id);
    SameWork(c.commissions[id], before.shards, c.jobs[id].shards, work);
    MayFinishAgain(c.jobs, c.cannot, c.commissions, id, worker, work);
  }

  /** A job that was stopped, given up on, or failed, or is out with workers that never come back, is begun again. */
  method Revive(c: DistributedBakes, id: JobId, ghost worker: WorkerId, ghost work: nat -> Option<Upload>)
    requires c.Valid() && id in c.jobs && id in c.commissions && CanBeRevived(c.jobs[id]) && c.jobs[id].remote
    requires id !in CannotDo(c.cannot, worker) && DoesIt(c.commissions[id], c.jobs[id].shards, work)
    modifies c`jobs, c`leases, c`past
    ensures c.Valid() && id in c.jobs && |c.jobs[id].shards| == |old(c.jobs)[id].shards|
    ensures if SomeWaits(c.jobs[id].shards)
            then MayFinish(c.jobs, c.cannot, c.commissions, id, worker, work)
            else c.jobs[id].phase.Assembling?
  {
    hide *;
    ghost var job := c.jobs[id];
    Loosen(c, id);
    Rejoin(c, id, job, worker, work);
  }

  lemma CanStop(job: Record)
    requires CanBeRevived(job)
    ensures job.shards != [] && (!job.finished ==> Allowed(job, Stop)) && (job.finished ==> !AnyLent(job.shards))
    ensures job.phase.Running? || job.phase.Stalled? || job.phase.Cancelled? || job.phase.Failed?
  {
  }

  lemma MayFinishAgain(jobs: map<JobId, Record>, cannot: map<WorkerId, set<JobId>>,
                       commissions: map<JobId, Commission>, id: JobId, worker: WorkerId, work: nat -> Option<Upload>)
    requires id in jobs && id in commissions && AllFree(jobs[id].shards) && jobs[id].remote
    requires id !in CannotDo(cannot, worker) && DoesIt(commissions[id], jobs[id].shards, work)
    ensures jobs[id].phase.Running? ==> MayFinish(jobs, cannot, commissions, id, worker, work)
  {
    hide AllFree, DoesIt;
  }

  /**
   Whatever has happened to a job with shards, short of its being put together:
   begun again, one worker that has not given it back can finish it, and what is
   then put together is the whole bake.
   */
  method BakedByOne(c: DistributedBakes, id: JobId, worker: WorkerId, clock: nat -> int, leases: seq<LeaseId>,
                    work: nat -> Option<Upload>, deduplicate: bool)
    returns (r: Assembly)
    requires c.Valid() && id in c.jobs && id in c.commissions && CanBeRevived(c.jobs[id]) && c.jobs[id].remote
    requires id !in CannotDo(c.cannot, worker) && DoesIt(c.commissions[id], c.jobs[id].shards, work)
    requires |c.jobs[id].shards| <= |leases| && AreFresh(leases, c.granted.Keys)
    requires c.honest && id !in c.cleared
    modifies c
    ensures c.Valid() && c.commissions == old(c.commissions)
    ensures r.Assembled? <==> Baked(c.commissions[id].job, c.commissions[id].job.ids) != []
    ensures r.Assembled? ==> IsResultOf(c.commissions[id], r)
  {
    hide *;
    Revive(c, id, worker, work);
    FewWait(c.jobs[id].shards);
    RevivedIs(c.jobs, c.cannot, c.commissions, id, worker, work);
    if c.jobs[id].phase.Running? {
      var loans := FinishAlone(c, id, worker, clock, leases, work);
    }
    AssemblingIsDone(c, id);
    r := c.Assemble(id, deduplicate);
  }

  lemma AssemblingIsDone(c: DistributedBakes, id: JobId)
    requires c.Valid() && id in c.jobs && c.jobs[id].phase.Assembling?
    ensures c.jobs[id].shards != [] && c.jobs[id].AllDone()
  {
    KeptParts(c.State(), id, c.maxAttempts);
    JobHas(id, c.jobs[id], c.State().FilesOf(id), c.State().Known(), c.granted, c.commissions[id], c.honest,
           c.maxAttempts, c.past);
    hide Kept, KeptJob, JobKept;
  }

  lemma RevivedIs(jobs: map<JobId, Record>, cannot: map<WorkerId, set<JobId>>,
                  commissions: map<JobId, Commission>, id: JobId, worker: WorkerId, work: nat -> Option<Upload>)
    requires id in jobs
    requires if SomeWaits(jobs[id].shards) then MayFinish(jobs, cannot, commissions, id, worker, work)
             else jobs[id].phase.Assembling?
    ensures if jobs[id].phase.Running? then MayFinish(jobs, cannot, commissions, id, worker, work)
            else jobs[id].phase.Assembling?
  {
    hide SomeWaits, AllFree, DoesIt;
  }

  /** Lent and failed, over and over. */
  function Failures(i: nat, leases: seq<Lease>): seq<Step> {
    if leases == [] then []
    else Failures(i, leases[..|leases| - 1]) + [Grant(i, leases[|leases| - 1])] + [Reject(i)]
  }

  /**
   A waiting shard that fails goes back in the queue for as long as it has been
   tried less often than it may be; and is then given up on.
   */
  lemma {:induction false} FailsUntilGivenUp(job: Record, i: nat, leases: seq<Lease>, max: nat)
    requires job.phase.Running? && i < |job.shards| && job.shards[i].state.Pending? && leases != []
    requires job.shards[i].attempts + |leases| <= max
    ensures var after, tries := AfterAll(job, Failures(i, leases), max), job.shards[i].attempts + |leases|;
            && after.Some? && i < |after.value.shards| && after.value.shards[i].attempts == tries
            && (if tries < max then after.value.phase.Running? && after.value.shards[i].state.Pending?
                else after.value.shards[i].state.GivenUp?)
  {
    var n := |leases| - 1;
    var before, steps := job, Failures(i, leases[..n]);
    if n > 0 {
      FailsUntilGivenUp(job, i, leases[..n], max);
      before := AfterAll(job, steps, max).value;
    } else {
      assert steps == [] && AfterAll(job, steps, max) == Some(job);
    }
    OneFailure(before, i, leases[n], max);
    var lent := After(before, Grant(i, leases[n]), max);
    hide After, Allowed, Failures;
    AfterOneMore(job, steps, Grant(i, leases[n]), max);
    AfterOneMore(job, steps + [Grant(i, leases[n])], Reject(i), max);
    FailuresAre(i, leases);
  }

  lemma FailuresAre(i: nat, leases: seq<Lease>)
    requires leases != []
    ensures Failures(i, leases) ==
            Failures(i, leases[..|leases| - 1]) + [Grant(i, leases[|leases| - 1])] + [Reject(i)]
  {
  }

  lemma OneFailure(job: Record, i: nat, lease: Lease, max: nat)
    requires job.phase.Running? && i < |job.shards| && job.shards[i].state.Pending?
    ensures Allowed(job, Grant(i, lease)) && Allowed(After(job, Grant(i, lease), max), Reject(i))
    ensures var after := After(After(job, Grant(i, lease), max), Reject(i), max);
            && i < |after.shards| && after.shards[i].attempts == job.shards[i].attempts + 1
            && (if job.shards[i].attempts + 1 < max then after.phase.Running? && after.shards[i].state.Pending?
                else after.shards[i].state.GivenUp?)
  {
    var lent := After(job, Grant(i, lease), max);
    var e := lent.shards[i].LetGo(max);
    if job.shards[i].attempts + 1 < max {
      assert lent.With(i, e).shards[i].Open();
    }
  }

  /** Tried again, a shard that was given up on can fail as often as any before it is given up on again. */
  lemma RetryStartsOver(job: Record, i: nat, leases: seq<Lease>, max: nat)
    requires Allowed(job, Retry) && i < |job.shards| && job.shards[i].state.GivenUp? && 0 < |leases| <= max
    ensures var again := After(job, Retry, max);
            var after := AfterAll(again, Failures(i, leases), max);
            && again.phase.Running? && again.shards[i].state.Pending?
            && after.Some? && i < |after.value.shards|
            && (after.value.shards[i].state.GivenUp? <==> |leases| == max)
            && (after.value.shards[i].state.Pending? <==> |leases| < max)
  {
    var retried := job.(phase := Running, finished := false, shards := RetriedShards(job.shards));
    assert retried.shards[i].Open();
    FailsUntilGivenUp(After(job, Retry, max), i, leases, max);
  }
}
