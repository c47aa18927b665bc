/**
 Bakes shared out across worker nodes: the coordinator lends shards to whoever
 asks, takes finished fragments back, and puts them together when all are in.
 */
module Distributed {
  import opened Archive
  import opened Assemble
  import opened Bake
  import opened Books
  import opened Coverage
  import opened Leasing
  import opened Overlaps
  import opened Plan
  import opened Restarts
  import opened Sharded
  import opened SharedBake
  import opened Sorting
  import opened TileIds
  import Union
  import Writer
  import opened Whole

  const DEFAULT_LEASE_SECONDS := 120
  const DEFAULT_MAX_ATTEMPTS := 4

  /** A setting: its default where it is not given or is nothing, and never below the least. */
  function Setting(given: Option<int>, default: int, least: int): int {
    var n := if given.None? || given.value == 0 then default else given.value;
    if n < least then least else n
  }

  /** A shard lent out. */
  datatype Loan = Loan(lease: LeaseId, job: JobId, index: nat)

  datatype Answer = Accepted | NotWanted | NotFitting

  function CreatedAt(jobs: map<JobId, Record>, id: JobId): int {
    if id in jobs then jobs[id].createdAt else 0
  }

  /** Every job as it is once the leases that lapsed are taken back. */
  function SweptJobs(jobs: map<JobId, Record>, now: int, max: nat): (swept: map<JobId, Record>)
    ensures swept.Keys == jobs.Keys && forall id :: id in jobs ==> swept[id] == jobs[id].Swept(now, max)
  {
    map id | id in jobs :: jobs[id].Swept(now, max)
  }

  predicate IsWaiting(lots: seq<Lot>, i: int) {
    0 <= i < |lots| && lots[i].state.Pending?
  }

  /** Somebody has a shard on this lease, of a job that is running. */
  ghost predicate IsHeld(jobs: map<JobId, Record>, lease: LeaseId, id: JobId, i: nat) {
    id in jobs && jobs[id].phase.Running? && i < |jobs[id].shards| && jobs[id].shards[i].HeldBy(lease)
  }

  ghost predicate IsCurrent(jobs: map<JobId, Record>, lease: LeaseId) {
    exists id, i: nat :: IsHeld(jobs, lease, id, i)
  }

  /** Where the leases say a shard is held, if it still is. */
  function HolderOf(jobs: map<JobId, Record>, leases: map<LeaseId, Ref>, lease: LeaseId): Option<Ref> {
    if lease !in leases then None
    else
      var ref := leases[lease];
      if ref.job in jobs && ref.index < |jobs[ref.job].shards| && jobs[ref.job].shards[ref.index].HeldBy(lease) &&
        jobs[ref.job].phase.Running?
      then Some(ref) else None
  }

  /** Somebody has a shard on this lease, whatever has become of its job. */
  ghost predicate IsLentOn(jobs: map<JobId, Record>, lease: LeaseId, id: JobId, i: nat) {
    id in jobs && i < |jobs[id].shards| && jobs[id].shards[i].HeldBy(lease)
  }

  ghost predicate IsLent(jobs: map<JobId, Record>, lease: LeaseId) {
    exists id, i: nat :: IsLentOn(jobs, lease, id, i)
  }

  /** Where the leases say a shard is lent, if it still is. */
  function LentAt(jobs: map<JobId, Record>, leases: map<LeaseId, Ref>, lease: LeaseId): Option<Ref> {
    if lease !in leases then None
    else
      var ref := leases[lease];
      if ref.job in jobs && ref.index < |jobs[ref.job].shards| &&
        jobs[ref.job].shards[ref.index].HeldBy(lease) then Some(ref) else None
  }

  /** The jobs after a step of one, if it can happen. */
  function AfterAt(jobs: map<JobId, Record>, id: JobId, step: Step, max: nat): map<JobId, Record> {
    if id in jobs && Allowed(jobs[id], step) then jobs[id := After(jobs[id], step, max)] else jobs
  }

  /** What has passed after a step of one, if it can happen. */
  function PastAt(past: History, jobs: map<JobId, Record>, id: JobId, step: Step): History {
    if id in jobs && Allowed(jobs[id], step) then PastAfter(past, jobs[id], step) else past
  }

  lemma LentIsKnown(l: Ledger, max: nat, lease: LeaseId, id: JobId, i: nat)
    requires Kept(l, max) && IsLentOn(l.jobs, lease, id, i)
    ensures lease in l.granted && l.granted[lease].job == id && l.granted[lease].index == i
    ensures lease !in l.dropped ==> lease in l.leases && l.leases[lease] == l.granted[lease]
  {
    KeptParts(l, id, max);
    JobHas(id, l.jobs[id], l.FilesOf(id), l.Known(), l.granted, l.commissions[id], l.honest, max, l.past);
    hide Kept, KeptJob, JobKept, SavedKept, Sound;
    var e := l.jobs[id].shards[i];
    assert PointsBack(id, i, e, l.Known()) && PointsBack(id, i, e, l.granted);
  }

  /** Looking up where a lease's shard is lent finds it exactly when it is, and the lease has not been dropped. */
  lemma LentIsFound(l: Ledger, max: nat, lease: LeaseId)
    requires Kept(l, max)
    ensures LentAt(l.jobs, l.leases, lease).Some? <==> IsLent(l.jobs, lease) && lease !in l.dropped
  {
    hide *;
    NotBoth(l, max, lease);
    FoundIsLent(l.jobs, l.leases, lease);
    if IsLent(l.jobs, lease) && lease !in l.dropped {
      var id, i := WhereLent(l.jobs, lease);
      LentIsKnown(l, max, lease, id, i);
      KnownIsFound(l.jobs, l.leases, lease, id, i);
    }
  }

  lemma WhereLent(jobs: map<JobId, Record>, lease: LeaseId) returns (id: JobId, i: nat)
    requires IsLent(jobs, lease)
    ensures IsLentOn(jobs, lease, id, i)
  {
    hide IsLentOn;
    id, i :| IsLentOn(jobs, lease, id, i);
  }

  lemma KnownIsFound(jobs: map<JobId, Record>, leases: map<LeaseId, Ref>, lease: LeaseId, id: JobId, i: nat)
    requires lease in leases && leases[lease].job == id && leases[lease].index == i
    ensures IsLentOn(jobs, lease, id, i) ==> LentAt(jobs, leases, lease).Some?
    ensures IsHeld(jobs, lease, id, i) ==> HolderOf(jobs, leases, lease).Some?
  {
  }

  lemma FoundIsLent(jobs: map<JobId, Record>, leases: map<LeaseId, Ref>, lease: LeaseId)
    ensures LentAt(jobs, leases, lease).Some? ==> IsLent(jobs, lease) && lease in leases
  {
    var found := LentAt(jobs, leases, lease);
    assert found.Some? ==> IsLentOn(jobs, lease, found.value.job, found.value.index);
  }

  lemma NotBoth(l: Ledger, max: nat, lease: LeaseId)
    requires Kept(l, max)
    ensures !(lease in l.leases && lease in l.dropped)
  {
    hide KeptJob, Submap;
  }

  /** Looking a lease up finds its shard exactly when it is somebody's current lease, and has not been dropped. */
  lemma LeasedIsCurrent(l: Ledger, max: nat, lease: LeaseId)
    requires Kept(l, max)
    ensures HolderOf(l.jobs, l.leases, lease).Some? <==> IsCurrent(l.jobs, lease) && lease !in l.dropped
  {
    hide *;
    NotBoth(l, max, lease);
    FoundIsCurrent(l.jobs, l.leases, lease);
    if IsCurrent(l.jobs, lease) && lease !in l.dropped {
      var id, i := WhereHeld(l.jobs, lease);
      HoldingIsLending(l.jobs, lease, id, i);
      LentIsKnown(l, max, lease, id, i);
      KnownIsFound(l.jobs, l.leases, lease, id, i);
    }
  }

  lemma WhereHeld(jobs: map<JobId, Record>, lease: LeaseId) returns (id: JobId, i: nat)
    requires IsCurrent(jobs, lease)
    ensures IsHeld(jobs, lease, id, i)
  {
    hide IsHeld;
    id, i :| IsHeld(jobs, lease, id, i);
  }

  lemma HoldingIsLending(jobs: map<JobId, Record>, lease: LeaseId, id: JobId, i: nat)
    requires IsHeld(jobs, lease, id, i)
    ensures IsLentOn(jobs, lease, id, i)
  {
  }

  lemma FoundIsCurrent(jobs: map<JobId, Record>, leases: map<LeaseId, Ref>, lease: LeaseId)
    ensures HolderOf(jobs, leases, lease).Some? ==> IsCurrent(jobs, lease) && lease in leases
  {
    var found := HolderOf(jobs, leases, lease);
    assert found.Some? ==> IsHeld(jobs, lease, found.value.job, found.value.index);
  }

  /** On no lease are two shards lent. */
  lemma OneShardALease(l: Ledger, max: nat, lease: LeaseId, id: JobId, i: nat, id': JobId, i': nat)
    requires Kept(l, max) && IsLentOn(l.jobs, lease, id, i) && IsLentOn(l.jobs, lease, id', i')
    ensures id == id' && i == i'
  {
    hide *;
    LentIsKnown(l, max, lease, id, i);
    LentIsKnown(l, max, lease, id', i');
  }

  /** Moves a job on when its last shard is in, or when nothing more can be. */
  method MaybeFinish(job: Record) returns (r: Record)
    ensures r == job.Moved()
  {
    if !job.phase.Running? {
      return job;
    }
    var open, givenUp := false, false;
    for i := 0 to |job.shards|
      invariant open <==> exists k :: 0 <= k < i && job.shards[k].Open()
      invariant givenUp <==> exists k :: 0 <= k < i && job.shards[k].state.GivenUp?
    {
      if job.shards[i].Open() {
        open := true;
      }
      if job.shards[i].state.GivenUp? {
        givenUp := true;
      }
    }
    if open {
      return job;
    }
    r := job.(phase := if givenUp then Stalled else Assembling);
  }

  /** Takes back what lapsed of one job. */
  method SweepJob(job: Record, now: int, max: nat) returns (r: Record)
    ensures r == job.Swept(now, max)
  {
    if !job.phase.Running? {
      return job;
    }
    var shards, changed := job.shards, false;
    for i := 0 to |shards|
      invariant |shards| == |job.shards|
      invariant forall k :: 0 <= k < i ==>
                shards[k] == if job.shards[k].Lapsed(now) then job.shards[k].LetGo(max) else job.shards[k]
      invariant forall k :: i <= k < |shards| ==> shards[k] == job.shards[k]
      invariant changed <==> exists k :: 0 <= k < i && job.shards[k].Lapsed(now)
    {
      if shards[i].Lapsed(now) {
        shards := shards[i := shards[i].Released(if shards[i].attempts < max then Pending else GivenUp)];
        changed := true;
      }
    }
    assert shards == SweptShards(job.shards, now, max);
    if !changed {
      return job;
    }
    r := MaybeFinish(job.(shards := shards));
  }

  /** The jobs in the order they were begun. */
  ghost predicate Lists(order: seq<JobId>, jobs: map<JobId, Record>) {
    NoRepeats(order) && forall id :: id in order <==> id in jobs
  }

  lemma ListsStill(order: seq<JobId>, jobs: map<JobId, Record>, id: JobId, job: Record)
    requires Lists(order, jobs)
    ensures id in jobs ==> Lists(order, jobs[id := job])
    ensures id !in jobs ==> Lists(order + [id], jobs[id := job])
  {
    if id !in jobs {
      forall i | 0 <= i < |order|
        ensures order[i] != id
      {
        assert order[i] in order;
      }
    }
  }

  /** The stack has a job that has not ended. */
  ghost predicate IsBusy(jobs: map<JobId, Record>, commissions: map<JobId, Commission>, stack: string) {
    exists id :: IsBusyWith(jobs, commissions, stack, id)
  }

  ghost predicate IsBusyWith(jobs: map<JobId, Record>, commissions: map<JobId, Commission>, stack: string, id: JobId) {
    id in jobs && id in commissions && commissions[id].stack == stack && !jobs[id].finished
  }

  lemma ListsAll(c: DistributedBakes)
    requires c.Valid()
    ensures forall id :: id in c.order ==> id in c.jobs && id in c.commissions
    ensures forall id :: id in c.jobs ==> id in c.order
  {
    assert forall id :: id in c.jobs ==> KeptJob(c.State(), id, c.maxAttempts);
    hide JobKept;
  }

  class DistributedBakes {
    const leaseSeconds: int
    const maxAttempts: nat
    var jobs: map<JobId, Record>
    var order: seq<JobId>
    var leases: map<LeaseId, Ref>
    var cannot: map<WorkerId, set<JobId>>
    // The disk: each job's fragments, and its record as it was last written down.
    var disk: map<JobId, Files>
    var saved: map<JobId, Record>
    // Writes of records that were begun and may yet land, and jobs whose fragments are being removed.
    var late: set<Note>
    var erasing: set<JobId>
    // What each job's stack resolves to: a job whose stack has changed since is refused.
    var commissions: map<JobId, Commission>
    ghost var granted: map<LeaseId, Ref>
    ghost var taken: map<JobId, Files>
    ghost var honest: bool
    ghost var past: History
    ghost var dropped: map<LeaseId, Ref>
    ghost var cleared: set<JobId>

    ghost function State(): Ledger
      reads this`jobs, this`leases, this`disk, this`saved, this`late, this`granted, this`taken, this`commissions,
        this`honest, this`past, this`dropped, this`cleared
    {
      Ledger(jobs, leases, disk, saved, late, granted, taken, commissions, honest, past, dropped, cleared)
    }

    ghost predicate Valid()
      reads this`jobs, this`order, this`leases, this`disk, this`saved, this`late, this`erasing, this`granted,
        this`taken, this`commissions, this`honest, this`past, this`dropped, this`cleared
    {
      Kept(State(), maxAttempts) && Lists(order, jobs) && erasing <= cleared
    }

    constructor (leaseSeconds: Option<int>, maxAttempts: Option<int>)
      ensures Valid() && jobs == map[] && honest && past == History(0, false) && dropped == map[] && cleared == {}
      ensures granted == map[] && commissions == map[] && cannot == map[] && leases == map[]
      ensures disk == map[] && saved == map[] && late == {} && erasing == {}
      ensures leaseSeconds == None || leaseSeconds == Some(0) ==> this.leaseSeconds == 120
      ensures leaseSeconds.Some? && leaseSeconds.value != 0 ==>
                this.leaseSeconds >= leaseSeconds.value && this.leaseSeconds >= 15 &&
                (this.leaseSeconds == leaseSeconds.value || this.leaseSeconds == 15)
      ensures maxAttempts == None || maxAttempts == Some(0) ==> this.maxAttempts == 4
      ensures maxAttempts.Some? && maxAttempts.value != 0 ==>
                this.maxAttempts >= maxAttempts.value && this.maxAttempts >= 1 &&
                (this.maxAttempts == maxAttempts.value || this.maxAttempts == 1)
    {
      this.leaseSeconds := Setting(leaseSeconds, DEFAULT_LEASE_SECONDS, 15);
      this.maxAttempts := Setting(maxAttempts, DEFAULT_MAX_ATTEMPTS, 1);
      jobs, order, leases, cannot, disk, saved := map[], [], map[], map[], map[], map[];
      granted, commissions, honest, past, dropped := map[], map[], true, History(0, false), map[];
      late, erasing, taken, cleared := {}, {}, map[], {};
      new;
      NothingIsKept(this.maxAttempts);
    }

    /**
     Starts a bake: the job exists at once, and is planned in its own time. A
     stack with a job that has not ended is refused another.
     */
    method Start(id: JobId, commission: Commission) returns (ok: bool)
      requires Valid() && id !in commissions && id !in jobs && commission.Valid()
      modifies this`jobs, this`order, this`saved, this`commissions
      ensures Valid() && (ok <==> !IsBusy(old(jobs), old(commissions), commission.stack))
      ensures ok ==> jobs == old(jobs)[id := Asked(commission.createdAt, commission.remote)]
      ensures ok ==> saved == old(saved)[id := jobs[id]]
      ensures ok ==> commissions == old(commissions)[id := commission]
      ensures !ok ==> jobs == old(jobs) && commissions == old(commissions) && saved == old(saved)
    {
      hide *;
      var busy := StackIsBusy(commission.stack);
      if busy {
        return false;
      }
      Enter(id, Asked(commission.createdAt, commission.remote), commission);
      ok := true;
    }

    method StackIsBusy(stack: string) returns (busy: bool)
      requires Valid()
      ensures busy <==> IsBusy(jobs, commissions, stack)
    {
      ListsAll(this);
      hide Kept, Lists;
      for n := 0 to |order|
        invariant forall k :: 0 <= k < n ==> !IsBusyWith(jobs, commissions, stack, order[k])
      {
        var id := order[n];
        if commissions[id].stack == stack && !jobs[id].finished {
          assert IsBusyWith(jobs, commissions, stack, id);
          return true;
        }
      }
      assert forall id :: id in jobs ==> exists k :: 0 <= k < |order| && order[k] == id;
      busy := false;
    }

    method Enter(id: JobId, job: Record, commission: Commission)
      requires Valid() && id !in commissions && id !in jobs && commission.Valid()
      requires job == Asked(commission.createdAt, commission.remote)
      modifies this`jobs, this`order, this`saved, this`commissions
      ensures Valid() && jobs == old(jobs)[id := job] && commissions == old(commissions)[id := commission]
      ensures saved == old(saved)[id := job]
    {
      hide Kept, Lists, Commission.Valid, Asked;
      BeginningKeeps(State(), id, commission.createdAt, commission.remote, commission, maxAttempts);
      ListsStill(order, jobs, id, job);
      jobs, order, saved := jobs[id := job], order + [id], saved[id := job];
      commissions := commissions[id := commission];
    }

    /** Cuts a job into shards, unless it has moved on meanwhile. */
    method PlanJob(id: JobId) returns (shards: seq<Shard>)
      requires Valid() && id in jobs
      modifies this`jobs
      ensures Valid() && id in commissions
      ensures IsPlanOf(commissions[id], shards) && (shards == [] <==> commissions[id].PickedTiles() == [])
      ensures jobs ==
              if old(jobs)[id].phase.Planning? then old(jobs)[id := PlannedOrFailed(old(jobs)[id], shards)]
              else old(jobs)
    {
      hide *;
      var tiles;
      ghost var pieces;
      CommissionIsValid(this, id);
      var commission := commissions[id];
      shards, tiles, pieces := PlanShards(commission.job, commission.stream, commission.tilesPerShard);
      MadeAPlan(commission, shards, pieces);
      if jobs[id].phase.Planning? {
        SetPlan(id, shards);
      }
    }

    method SetPlan(id: JobId, shards: seq<Shard>)
      requires Valid() && id in jobs && id in commissions && jobs[id].phase.Planning?
      requires IsPlanOf(commissions[id], shards)
      modifies this`jobs
      ensures Valid() && jobs == old(jobs)[id := PlannedOrFailed(old(jobs)[id], shards)]
    {
      hide Kept, Lists, IsPlanOf;
      ListsStill(order, jobs, id, PlannedOrFailed(jobs[id], shards));
      if |shards| == 0 {
        BreakKeeps(State(), id, maxAttempts);
        jobs := jobs[id := jobs[id].(phase := Failed, finished := true)];
      } else {
        PlanningKeeps(State(), id, shards, maxAttempts);
        jobs := jobs[id := Planned(jobs[id], shards)];
      }
    }

    /** Takes back every lease that lapsed. */
    method Sweep(now: int)
      requires Valid()
      modifies this`jobs
      ensures Valid() && jobs == SweptJobs(old(jobs), now, maxAttempts)
    {
      hide Kept, Lists, Record.Swept, SweptUpTo, SweptJobs;
      ghost var was := jobs;
      StartsSweeping(order, jobs, now, maxAttempts);
      for n := 0 to |order|
        invariant Valid() && SweptUpTo(was, jobs, order, n, now, maxAttempts)
      {
        var id := order[n];
        NextToSweep(this, was, n, now);
        var job := SweepJob(jobs[id], now, maxAttempts);
        jobs := jobs[id := job];
      }
      AllSwept(this, was, now);
    }

    /** Puts a job's record as a step leaves it, forgetting leases nobody has a shard on any more. */
    method Put(id: JobId, job: Record, left: map<LeaseId, Ref>, ghost step: Step)
      requires Valid() && id in jobs && Allowed(jobs[id], step) && !step.Grant? && !step.Complete?
      requires job == After(jobs[id], step, maxAttempts) && OnlyForgets(State(), id, job.shards, left)
      modifies this`jobs, this`leases, this`past
      ensures Valid() && jobs == old(jobs)[id := job] && leases == left &&
              past == PastAfter(old(past), old(jobs)[id], step)
    {
      hide Kept, Lists, After, Allowed, OnlyForgets, PastAfter;
      StepIsKept(this, id, step, left);
      past := PastAfter(past, jobs[id], step);
      jobs, leases := jobs[id := job], left;
    }

    /** A worker says it is still at it. Only whoever has the shard now is believed. */
    method Heartbeat(leaseId: LeaseId, now: int) returns (ok: bool)
      requires Valid()
      modifies this`jobs, this`leases, this`past
      ensures Valid() && leases == old(leases) && past == old(past)
      ensures ok <==> old(IsCurrent(jobs, leaseId)) && leaseId !in dropped
      ensures ok <==> old(HolderOf(jobs, leases, leaseId)).Some?
      ensures ok ==> var at := old(HolderOf(jobs, leases, leaseId)).value;
              jobs == AfterAt(old(jobs), at.job, Renew(at.index, now + leaseSeconds * 1000), maxAttempts)
      ensures !ok ==> jobs == old(jobs)
    {
      hide *;
      var at := HolderOf(jobs, leases, leaseId);
      HolderIsCurrent(this, leaseId);
      if at.None? {
        return false;
      }
      var id, i, until := at.value.job, at.value.index, now + leaseSeconds * 1000;
      var job := Renewed(jobs[id], i, until, maxAttempts);
      ForgetsNothing(State(), id, job.shards);
      StateHasLeases(this);
      Put(id, job, leases, Renew(i, until));
      NothingPassed(old(past), old(jobs)[at.value.job], Renew(i, until));
      AfterAtIs(old(jobs), at.value.job, Renew(i, until), maxAttempts);
      ok := true;
    }

    /** Lets a shard go because something went wrong with it. */
    method LetGo(at: Ref, leaseId: LeaseId) returns (requeued: bool)
      requires Valid() && at.job in jobs && Allowed(jobs[at.job], Reject(at.index)) && leaseId in leases &&
               leases[leaseId] == at
      modifies this`jobs, this`leases, this`past
      ensures Valid() && past == old(past)
      ensures jobs == AfterAt(old(jobs), at.job, Reject(at.index), maxAttempts) && leases == old(leases) - {leaseId}
      ensures requeued <==>
              at.index < |old(jobs)[at.job].shards| &&
              old(jobs)[at.job].shards[at.index].attempts < maxAttempts
    {
      hide *;
      var job;
      job, requeued := Rejected(jobs[at.job], at.index, maxAttempts);
      StateHasLeases(this);
      ForgetsItsLease(State(), at.job, at.index, job.shards, leaseId);
      Put(at.job, job, leases - {leaseId}, Reject(at.index));
      NothingPassed(old(past), old(jobs)[at.job], Reject(at.index));
      AfterAtIs(old(jobs), at.job, Reject(at.index), maxAttempts);
    }

    /** A worker says it could not do its shard. */
    method Fail(leaseId: LeaseId) returns (ok: bool, requeued: bool)
      requires Valid()
      modifies this`jobs, this`leases, this`past
      ensures Valid() && past == old(past)
      ensures ok <==> old(IsCurrent(jobs, leaseId)) && leaseId !in dropped
      ensures ok <==> old(HolderOf(jobs, leases, leaseId)).Some?
      ensures ok ==> var at := old(HolderOf(jobs, leases, leaseId)).value;
                     jobs == AfterAt(old(jobs), at.job, Reject(at.index), maxAttempts) &&
                       leases == old(leases) - {leaseId}
      ensures !ok ==> jobs == old(jobs) && leases == old(leases)
    {
      hide *;
      var at := HolderOf(jobs, leases, leaseId);
      HolderIsCurrent(this, leaseId);
      if at.None? {
        return false, false;
      }
      requeued := LetGo(at.value, leaseId);
      ok := true;
    }

    /**
     A worker hands its shard back because it cannot do such work at all: no try is counted, and the job
     is not offered to it again.
     */
    method GiveBackShard(leaseId: LeaseId) returns (ok: bool)
      requires Valid()
      modifies this`jobs, this`leases, this`past, this`cannot
      ensures Valid() && past == old(past)
      ensures ok <==> old(IsCurrent(jobs, leaseId)) && leaseId !in dropped
      ensures ok <==> old(HolderOf(jobs, leases, leaseId)).Some?
      ensures ok ==> var at := old(HolderOf(jobs, leases, leaseId)).value;
                     && jobs == AfterAt(old(jobs), at.job, GiveBack(at.index), maxAttempts) &&
                       leases == old(leases) - {leaseId}
                     && cannot == old(cannot)[at.worker := CannotDo(old(cannot), at.worker) + {at.job}]
      ensures !ok ==> jobs == old(jobs) && leases == old(leases) && cannot == old(cannot)
    {
      hide *;
      var at := HolderOf(jobs, leases, leaseId);
      HolderIsCurrent(this, leaseId);
      if at.None? {
        return false;
      }
      Return(at.value, leaseId);
      cannot := cannot[at.value.worker := CannotDo(cannot, at.value.worker) + {at.value.job}];
      ok := true;
    }

    /** This node hands back the shard it was on, because it is stopping: no try is counted. */
    method HandBack(leaseId: LeaseId) returns (ok: bool)
      requires Valid()
      modifies this`jobs, this`leases, this`past
      ensures Valid() && past == old(past)
      ensures ok <==> old(IsLent(jobs, leaseId)) && leaseId !in dropped
      ensures ok <==> old(LentAt(jobs, leases, leaseId)).Some?
      ensures ok ==> var at := old(LentAt(jobs, leases, leaseId)).value;
                     jobs == AfterAt(old(jobs), at.job, GiveBack(at.index), maxAttempts) &&
                       leases == old(leases) - {leaseId}
      ensures !ok ==> jobs == old(jobs) && leases == old(leases)
    {
      hide *;
      var at := LentAt(jobs, leases, leaseId);
      LentIsRegistered(this, leaseId);
      if at.None? {
        return false;
      }
      Return(at.value, leaseId);
      ok := true;
    }

    method Return(at: Ref, leaseId: LeaseId)
      requires Valid() && at.job in jobs && Allowed(jobs[at.job], GiveBack(at.index)) && leaseId in leases &&
               leases[leaseId] == at
      modifies this`jobs, this`leases, this`past
      ensures Valid() && past == old(past)
      ensures jobs == AfterAt(old(jobs), at.job, GiveBack(at.index), maxAttempts) && leases == old(leases) - {leaseId}
    {
      hide *;
      var job := GivenBack(jobs[at.job], at.index, maxAttempts);
      StateHasLeases(this);
      ForgetsItsLease(State(), at.job, at.index, job.shards, leaseId);
      Put(at.job, job, leases - {leaseId}, GiveBack(at.index));
      NothingPassed(old(past), old(jobs)[at.job], GiveBack(at.index));
      AfterAtIs(old(jobs), at.job, GiveBack(at.index), maxAttempts);
    }

    /** Stops a job that has not ended; nobody has any of its shards after. */
    method Cancel(id: JobId) returns (ok: bool)
      requires Valid()
      modifies this`jobs, this`leases, this`past
      ensures Valid() && leases == old(leases) && (ok <==> id in old(jobs) && !old(jobs)[id].finished)
      ensures jobs == if ok then AfterAt(old(jobs), id, Stop, maxAttempts) else old(jobs)
      ensures past == if ok then old(past).(stops := old(past).stops + 1) else old(past)
    {
      hide *;
      if id !in jobs || jobs[id].finished {
        return false;
      }
      var job := StoppedJob(jobs[id], maxAttempts);
      StateHasLeases(this);
      ForgetsNothing(State(), id, job.shards);
      Put(id, job, leases, Stop);
      StopPassed(old(past), old(jobs)[id]);
      AfterAtIs(old(jobs), id, Stop, maxAttempts);
      ok := true;
    }

    /**
     Starts a job again that was stopped or got nowhere: what is done is kept, and only what is missing
     is handed out.
     */
    method RetryJob(id: JobId) returns (ok: bool)
      requires Valid()
      modifies this`jobs, this`leases, this`past
      ensures Valid() && leases == old(leases) && past == old(past)
      ensures ok <==>
              id in old(jobs) && !old(jobs)[id].phase.Finished? && !old(jobs)[id].phase.Planning? &&
              !old(jobs)[id].phase.Assembling?
      ensures jobs ==
              if ok then AfterAt(old(jobs), id, if old(jobs)[id].shards == [] then Replan else Retry, maxAttempts)
              else old(jobs)
    {
      hide *;
      if id !in jobs || jobs[id].phase.Finished? || jobs[id].phase.Planning? || jobs[id].phase.Assembling? {
        return false;
      }
      ghost var step := if jobs[id].shards == [] then Replan else Retry;
      var job := TriedAgain(jobs[id], maxAttempts);
      StateHasLeases(this);
      ForgetsNothing(State(), id, job.shards);
      Put(id, job, leases, step);
      NothingPassed(old(past), old(jobs)[id], step);
      AfterAtIs(old(jobs), id, step, maxAttempts);
      ok := true;
    }

    /**
     A finished shard comes back, from whoever has it or once had it: it is taken
     as long as nobody has finished it since. A fragment holding anything outside
     its shard is not, and the shard is let go.
     */
    method CompleteShard(leaseId: LeaseId, file: Option<Upload>) returns (answer: Answer)
      requires Valid()
      modifies this`jobs, this`leases, this`past, this`disk, this`taken, this`honest, this`dropped
      ensures Valid() && past == old(past)
      ensures var at := old(WantedAt(jobs, leases, leaseId));
              answer ==
              if at.None? then NotWanted
              else if Fitting(old(jobs), at.value, file) then Accepted
              else NotFitting
      ensures answer.NotWanted? <==>
                !(leaseId in old(leases) &&
                  var at := old(leases)[leaseId];
                  && at.job in old(jobs) && old(jobs)[at.job].phase.Running?
                  && at.index < |old(jobs)[at.job].shards| && !old(jobs)[at.job].shards[at.index].state.Done?)
      ensures answer.NotWanted? ==> jobs == old(jobs) && leases == old(leases) - {leaseId}
      ensures jobs == Delivered(old(jobs), old(leases), leaseId, file, maxAttempts)
      ensures dropped == if answer.NotWanted? then old(DroppedWith(jobs, leases, dropped, leaseId)) else old(dropped)
      ensures answer.NotFitting? ==>
                var at := old(WantedAt(jobs, leases, leaseId)).value;
                && jobs == AfterAt(old(jobs), at.job, Reject(at.index), maxAttempts)
                && leases == old(leases) - {leaseId}
      ensures !answer.Accepted? ==> disk == old(disk) && honest == old(honest)
      ensures answer.Accepted? ==>
                var at := old(WantedAt(jobs, leases, leaseId)).value;
                && jobs == AfterAt(old(jobs), at.job, Complete(at.index, file.Some?), maxAttempts)
                && leases == old(leases) - {leaseId} - HeldAt(old(jobs), at)
                && (forall l :: IsHeldOn(old(jobs), at, l) ==> l !in leases)
                && disk == (if file.Some? then WithFile(old(disk), at.job, at.index, file.value) else old(disk))
                && honest == (old(honest) && HonestAt(commissions, old(jobs), at, file))
    {
      DeliveredIs(jobs, leases, leaseId, file, maxAttempts);
      WantedIs(jobs, leases, leaseId);
      hide *;
      var wanted := WantedAt(jobs, leases, leaseId);
      if wanted.None? {
        Forget(leaseId);
        return NotWanted;
      }
      var at := wanted.value;
      WantedAllows(this, leaseId);
      var fits := CheckUpload(jobs, at, file);
      if !fits {
        var requeued := LetGo(at, leaseId);
        return NotFitting;
      }
      HeldIs(jobs, at);
      TakeIn(at, leaseId, file);
      answer := Accepted;
    }

    /** A lease whose shard is no longer wanted is forgotten, even where its shard is still out on it. */
    method Forget(leaseId: LeaseId)
      requires Valid() && WantedAt(jobs, leases, leaseId).None?
      modifies this`leases, this`dropped
      ensures Valid() && leases == old(leases) - {leaseId} &&
              dropped == old(DroppedWith(jobs, leases, dropped, leaseId))
    {
      hide Kept, Lists, WantedAt, DroppedWith;
      ForgettingUnwanted(State(), maxAttempts, leaseId);
      dropped := DroppedWith(jobs, leases, dropped, leaseId);
      leases := leases - {leaseId};
    }

    method TakeIn(at: Ref, leaseId: LeaseId, file: Option<Upload>)
      requires Valid() && WantedAt(jobs, leases, leaseId) == Some(at) && Fitting(jobs, at, file)
      modifies this`jobs, this`leases, this`disk, this`taken, this`honest
      ensures Valid() && jobs == AfterAt(old(jobs), at.job, Complete(at.index, file.Some?), maxAttempts)
      ensures leases == old(leases) - {leaseId} - HeldAt(old(jobs), at)
      ensures disk == if file.Some? then WithFile(old(disk), at.job, at.index, file.value) else old(disk)
      ensures honest == (old(honest) && HonestAt(commissions, old(jobs), at, file))
    {
      hide *;
      TakingIsKept(this, at, leaseId, file);
      ErasingIsCleared(this, at.job);
      AfterAtIs(jobs, at.job, Complete(at.index, file.Some?), maxAttempts);
      StateFields(this);
      var job := Completed(jobs[at.job], at.index, file.Some?, maxAttempts);
      SetTaken(at, job, leases - {leaseId} - HeldAt(jobs, at), file,
               honest && HonestAt(commissions, jobs, at, file));
      StateFields(this);
      ValidAgain(this);
    }

    method SetTaken(at: Ref, job: Record, left: map<LeaseId, Ref>, file: Option<Upload>, ghost stillHonest: bool)
      modifies this`jobs, this`leases, this`disk, this`taken, this`honest
      ensures jobs == old(jobs)[at.job := job] && leases == left && honest == stillHonest
      ensures disk == if file.Some? then WithFile(old(disk), at.job, at.index, file.value) else old(disk)
      ensures taken == if file.Some? then WithFile(old(taken), at.job, at.index, file.value) else old(taken)
    {
      hide *;
      jobs, leases, honest := jobs[at.job := job], left, stillHonest;
      if file.Some? {
        disk := WithFile(disk, at.job, at.index, file.value);
        taken := WithFile(taken, at.job, at.index, file.value);
      }
    }

    /** The jobs a worker may be given shards of, the oldest first. */
    method Offers(worker: WorkerId, only: Option<JobId>, local: bool) returns (ids: seq<JobId>)
      requires Valid()
      ensures forall id :: id in ids <==> IsOffered(jobs, cannot, worker, only, local, id)
      ensures Ascends(ids, OlderIn(jobs))
    {
      hide Kept, Sort;
      var found: seq<JobId> := [];
      for n := 0 to |order|
        invariant forall id :: id in found <==> id in order[..n] && IsOffered(jobs, cannot, worker, only, local, id)
      {
        var id := order[n];
        assert order[..n + 1] == order[..n] + [id];
        if IsOffered(jobs, cannot, worker, only, local, id) {
          found := found + [id];
        }
      }
      assert order[..|order|] == order;
      ids := Sort(found, OlderIn(jobs));
      SortAscends(found, OlderIn(jobs));
      forall id
        ensures id in ids <==> id in found
      {
        SortHasTheSame(found, OlderIn(jobs), id);
      }
    }

    /** The first waiting shard of the oldest job a worker may be given one of, if there is one. */
    method FindWork(worker: WorkerId, only: Option<JobId>, local: bool) returns (found: Option<(JobId, nat)>)
      requires Valid()
      ensures found.Some? ==> IsBestOffer(jobs, cannot, worker, only, local, found.value.0, found.value.1)
      ensures found.None? ==> NothingToOffer(jobs, cannot, worker, only, local)
    {
      hide *;
      var ids := Offers(worker, only, local);
      AllOffered(jobs, cannot, worker, only, local, ids);
      for n := 0 to |ids|
        invariant forall k :: 0 <= k < n ==> !HasWaiting(jobs[ids[k]].shards)
      {
        var i := FirstWaiting(jobs[ids[n]].shards);
        if i.Some? {
          BestIsFirst(jobs, cannot, worker, only, local, ids, n, i.value);
          return Some((ids[n], i.value));
        }
      }
      NothingWaits(jobs, cannot, worker, only, local, ids);
      found := None;
    }

    /**
     Lends a shard to a worker: of the oldest job it may be given one of, the
     first that is waiting. What lapsed is taken back first. It may be given one of
     a job it asked for, if it asked for one; that it has not given back; and, if it
     is not this node itself, that workers are to share in. There is nothing for it
     only where no such job has a shard waiting.
     */
    method LeaseShard(worker: WorkerId, only: Option<JobId>, local: bool, now: int, leaseId: LeaseId)
      returns (loan: Option<Loan>)
      requires Valid() && leaseId !in granted
      modifies this`jobs, this`leases, this`granted
      ensures Valid()
      ensures loan.None? ==>
              jobs == SweptJobs(old(jobs), now, maxAttempts) && leases == old(leases) &&
              granted == old(granted)
      ensures loan.None? ==>
                forall id, i :: id in jobs && jobs[id].phase.Running? && IsWaiting(jobs[id].shards, i) ==>
                  || (!local && !jobs[id].remote) || (only.Some? && only.value != id)
                  || (worker in cannot && id in cannot[worker])
      ensures loan.Some? ==>
                var was, id, i := SweptJobs(old(jobs), now, maxAttempts), loan.value.job, loan.value.index;
                && loan.value.lease == leaseId && id in was && was[id].phase.Running?
                && i < |was[id].shards| && was[id].shards[i].state.Pending?
                && (forall k :: 0 <= k < i ==> !was[id].shards[k].state.Pending?)
                && (local || was[id].remote) && (only.Some? ==> only.value == id)
                && !(worker in cannot && id in cannot[worker])
                && (forall o, k :: o in was && was[o].phase.Running? && IsWaiting(was[o].shards, k) ==>
                    || was[id].createdAt <= was[o].createdAt
                    || (!local && !was[o].remote) || (only.Some? && only.value != o)
                    || (worker in cannot && o in cannot[worker]))
                && jobs == AfterAt(was, id, Grant(i, Lease(leaseId, worker, now + leaseSeconds * 1000)), maxAttempts)
                && leases == old(leases)[leaseId := Ref(id, i, worker)] &&
                  granted == old(granted)[leaseId := Ref(id, i, worker)]
    {
      hide *;
      Sweep(now);
      var found := FindWork(worker, only, local);
      if found.None? {
        NothingMeans(jobs, cannot, worker, only, local);
        return None;
      }
      var (id, i) := found.value;
      BestMeans(jobs, cannot, worker, only, local, id, i);
      BestCanBeLent(jobs, cannot, worker, only, local, id, i, Lease(leaseId, worker, now + leaseSeconds * 1000));
      Lend(id, i, Lease(leaseId, worker, now + leaseSeconds * 1000));
      loan := Some(Loan(leaseId, id, i));
    }

    method Lend(id: JobId, i: nat, lease: Lease)
      requires Valid() && lease.id !in granted && id in jobs && Allowed(jobs[id], Grant(i, lease))
      modifies this`jobs, this`leases, this`granted
      ensures Valid() && jobs == AfterAt(old(jobs), id, Grant(i, lease), maxAttempts)
      ensures leases == old(leases)[lease.id := Ref(id, i, lease.worker)] &&
              granted == old(granted)[lease.id := Ref(id, i, lease.worker)]
    {
      hide Kept, Lists, Allowed, After, AfterAt;
      LendingIsKept(this, id, i, lease);
      AfterAtIs(jobs, id, Grant(i, lease), maxAttempts);
      var job := LentJob(jobs[id], i, lease, maxAttempts);
      jobs, leases := jobs[id := job], leases[lease.id := Ref(id, i, lease.worker)];
      granted := granted[lease.id := Ref(id, i, lease.worker)];
    }

    /**
     Forgets a job that is not running, and removes its fragments and its record.
     A write of the record that was begun before may still land after.
     */
    method Discard(id: JobId) returns (ok: bool)
      requires Valid()
      modifies this`jobs, this`order, this`leases, this`disk, this`saved, this`late, this`erasing, this`cleared
      ensures Valid() && (ok <==> id in old(jobs) && (old(jobs)[id].finished || old(jobs)[id].phase.Stalled?))
      ensures ok ==> jobs == old(jobs) - {id} && disk == old(disk) - {id} && saved == old(saved) - {id}
      ensures ok ==> late == old(late) + {Note(id, old(jobs)[id])} && cleared == old(cleared) + {id}
      ensures ok ==> leases == old(leases) - LeasesHeld(old(jobs)[id].shards) && erasing == old(erasing) + {id}
      ensures !ok ==> jobs == old(jobs) && disk == old(disk) && saved == old(saved) && leases == old(leases)
      ensures !ok ==> cleared == old(cleared) && late == old(late) && erasing == old(erasing)
    {
      hide *;
      ok := Forgo(id);
      if ok {
        Clear(id);
        Unsave(id);
      }
    }

    /** The first part of that, done at once: nobody has its shards, and its fragments are about to go. */
    method Forgo(id: JobId) returns (ok: bool)
      requires Valid()
      modifies this`jobs, this`order, this`leases, this`late, this`erasing, this`cleared
      ensures Valid() && (ok <==> id in old(jobs) && (old(jobs)[id].finished || old(jobs)[id].phase.Stalled?))
      ensures ok ==> leases == old(leases) - LeasesHeld(old(jobs)[id].shards)
      ensures ok ==> jobs == old(jobs) - {id} && late == old(late) + {Note(id, old(jobs)[id])}
      ensures ok ==> erasing == old(erasing) + {id} && cleared == old(cleared) + {id}
      ensures !ok ==> jobs == old(jobs) && leases == old(leases) && late == old(late) && cleared == old(cleared)
      ensures !ok ==> erasing == old(erasing)
    {
      hide *;
      CanIsThere(jobs, id);
      if !CanBeDiscarded(jobs, id) {
        return false;
      }
      DiscardingKeeps(this, id);
      StateFields(this);
      ErasingIsCleared(this, id);
      TakeOut(id, leases - LeasesHeld(jobs[id].shards), Without(order, id));
      StateFields(this);
      ValidAgain(this);
      ok := true;
    }

    method TakeOut(id: JobId, left: map<LeaseId, Ref>, rest: seq<JobId>)
      requires id in jobs
      modifies this`jobs, this`order, this`leases, this`late, this`erasing, this`cleared
      ensures jobs == old(jobs) - {id} && late == old(late) + {Note(id, old(jobs)[id])} && leases == left
      ensures order == rest && erasing == old(erasing) + {id} && cleared == old(cleared) + {id}
    {
      late := late + {Note(id, jobs[id])};
      jobs, leases, order := jobs - {id}, left, rest;
      erasing, cleared := erasing + {id}, cleared + {id};
    }

    /** Some of the fragments go of a job whose fragments are being removed. */
    method Erase(id: JobId, gone: set<nat>)
      requires Valid() && id in erasing
      modifies this`disk
      ensures Valid() && disk == old(disk)[id := FilesAt(old(disk), id) - gone]
    {
      hide Kept, Lists;
      ErasingKeeps(State(), id, gone, maxAttempts);
      ErasedIs(this, id, gone);
      disk := disk[id := FilesAt(disk, id) - gone];
    }

    /** All of them. */
    method Clear(id: JobId)
      requires Valid() && id in erasing
      modifies this`disk
      ensures Valid() && disk == old(disk) - {id}
    {
      hide Kept, Lists;
      ClearingKeeps(State(), id, maxAttempts);
      ClearedIs(this, id);
      disk := disk - {id};
    }

    /** The record of a job there is not is removed. */
    method Unsave(id: JobId)
      requires Valid()
      modifies this`saved
      ensures Valid() && saved == old(saved) - {id}
    {
      hide Kept, Lists;
      UnsavingKeeps(State(), id, maxAttempts);
      saved := saved - {id};
    }

    /**
     A job's finished shards are put together; then it is to be imported, or has
     failed. Where all fragments are honest that fails exactly where one is not
     there any more, or the bake comes to nothing.
     */
    method Assemble(id: JobId, deduplicate: bool) returns (r: Assembly)
      requires Valid() && id in jobs && jobs[id].shards != [] && jobs[id].AllDone()
      modifies this`jobs, this`leases, this`past
      ensures Valid() && past == old(past) && leases == old(leases)
      ensures jobs == AfterAt(old(jobs), id, if r.Assembled? then Import else Break, maxAttempts)
      ensures r == Refused(Missing) <==> !Intact(old(jobs)[id].shards, FilesAt(disk, id))
      ensures id !in cleared ==> Intact(old(jobs)[id].shards, FilesAt(disk, id))
      ensures honest && id in commissions ==>
              (r.Assembled? <==>
               Intact(old(jobs)[id].shards, FilesAt(disk, id)) &&
               Baked(commissions[id].job, commissions[id].job.ids) != [])
      ensures honest && id in commissions && r.Assembled? ==>
              IsResultOf(commissions[id], r)
    {
      hide *;
      DoneCanBePutTogether(this, id);
      r := PutTogether(jobs[id].shards, FilesAt(disk, id), FilesAt(taken, id), deduplicate, commissions[id], honest);
      DoneIsNotLent(past, jobs, id);
      if r.Assembled? {
        GoOn(id, Import);
      } else {
        GoOn(id, Break);
      }
    }

    /**
     What background work comes to of a job that lasts: put together and to be
     imported, or failed.
     */
    method GoOn(id: JobId, step: Step)
      requires Valid() && id in jobs && (step.Import? || step.Finish? ==> jobs[id].shards != [] && jobs[id].AllDone())
      requires step.Import? || step.Finish? || step.Break?
      modifies this`jobs, this`leases, this`past
      ensures Valid() && leases == old(leases)
      ensures jobs == AfterAt(old(jobs), id, step, maxAttempts) && past == PastAt(old(past), old(jobs), id, step)
    {
      hide *;
      EndAllowed(past, jobs, id, step, maxAttempts);
      if step.Break? && jobs[id].phase.Cancelled? {
        return;
      }
      var job := Ended(jobs[id], step, maxAttempts);
      StateHasLeases(this);
      ForgetsNothing(State(), id, job.shards);
      Put(id, job, leases, step);
      AfterAtIs(old(jobs), id, step, maxAttempts);
    }

    /** A job is published: it is finished, and its fragments are about to go, whatever its record on disk says. */
    method Finish(id: JobId)
      requires Valid() && id in jobs && jobs[id].shards != [] && jobs[id].AllDone()
      modifies this`jobs, this`leases, this`past, this`erasing, this`cleared
      ensures Valid() && leases == old(leases) && past == old(past)
      ensures jobs == AfterAt(old(jobs), id, Step.Finish, maxAttempts)
      ensures erasing == old(erasing) + {id} && cleared == old(cleared) + {id}
    {
      hide *;
      DoneIsNotLent(past, jobs, id);
      GoOn(id, Step.Finish);
      StartErasing(id);
    }

    method StartErasing(id: JobId)
      requires Valid()
      modifies this`erasing, this`cleared
      ensures Valid() && erasing == old(erasing) + {id} && cleared == old(cleared) + {id}
    {
      hide Kept, Lists;
      ErasingKeeps(State(), id, {}, maxAttempts);
      erasing, cleared := erasing + {id}, cleared + {id};
    }

    /** Writes a job's record down as it is now. */
    method Save(id: JobId)
      requires Valid() && id in jobs
      modifies this`saved
      ensures Valid() && saved == old(saved)[id := jobs[id]]
    {
      hide Kept, Lists;
      SavingKeeps(State(), id, maxAttempts);
      saved := saved[id := jobs[id]];
    }

    /** Begins to: when that lands, the record will be the job as it is now. */
    method BeginSave(id: JobId)
      requires Valid() && id in jobs
      modifies this`late
      ensures Valid() && late == old(late) + {Note(id, jobs[id])}
    {
      hide Kept, Lists;
      SavingKeeps(State(), id, maxAttempts);
      late := late + {Note(id, jobs[id])};
    }

    /** A write begun before lands, though the job may have been discarded since. */
    method LandSave(n: Note)
      requires Valid() && n in late
      modifies this`saved
      ensures Valid() && saved == old(saved)[n.id := n.record]
    {
      hide Kept, Lists;
      LandingKeeps(State(), n, maxAttempts);
      saved := saved[n.id := n.record];
    }

    /** The background work of a job that was discarded comes to something, which may yet be written down. */
    method WorkLate(n: Note, step: Step)
      requires Valid() && n in late && n.id !in jobs && Allowed(n.record, step) && !n.record.phase.Running?
      requires step.Import? || step.Finish? || step.Break?
      modifies this`late
      ensures Valid() && late == old(late) + {Note(n.id, After(n.record, step, maxAttempts))}
    {
      hide Kept, Lists, Allowed, After;
      WorkingLateKeeps(State(), n, step, maxAttempts);
      WorkedLateIs(State(), n, step, maxAttempts);
      var record := Ended(n.record, step, maxAttempts);
      late := late + {Note(n.id, record)};
    }

    /**
     This node has died and comes back with what was on disk: each job as its
     record has it, but for shards whose fragments are there though the record
     had not caught up with them, which are done.
     */
    method Load()
      requires Valid()
      modifies this`jobs, this`order, this`leases, this`cannot, this`dropped, this`late, this`erasing
      ensures Valid() && jobs == LoadedJobs(saved, disk) && KeepsAccepted(saved, disk, cleared, old(jobs), jobs) &&
              dropped == map[] && late == {} && erasing == {} && cannot == map[]
    {
      SavedPointBack(this);
      hide *;
      var loaded, loadedLeases, loadedOrder := LoadJobs(saved, disk, granted);
      LoadedIsKept(this, loaded, loadedLeases, loadedOrder);
      NothingIsLost(this, loaded, loadedLeases);
      StateFields(this);
      SetLoaded(loaded, loadedLeases, loadedOrder);
      StateFields(this);
      ValidAgain(this);
    }

    method SetLoaded(loaded: map<JobId, Record>, loadedLeases: map<LeaseId, Ref>, loadedOrder: seq<JobId>)
      modifies this`jobs, this`order, this`leases, this`cannot, this`dropped, this`late, this`erasing
      ensures jobs == loaded && leases == loadedLeases && order == loadedOrder && dropped == map[]
      ensures late == {} && erasing == {} && cannot == map[]
    {
      jobs, leases, order, cannot, late, erasing := loaded, loadedLeases, loadedOrder, map[], {}, {};
      dropped := map[];
    }
  }

  /** The step's effect on the coordinator's records keeps it valid. */
  lemma StepIsKept(c: DistributedBakes, id: JobId, step: Step, leases: map<LeaseId, Ref>)
    requires c.Valid() && id in c.jobs && Allowed(c.jobs[id], step) && !step.Grant? && !step.Complete?
    requires OnlyForgets(c.State(), id, After(c.jobs[id], step, c.maxAttempts).shards, leases)
    ensures Kept(c.State().(jobs := c.jobs[id := After(c.jobs[id], step, c.maxAttempts)], leases := leases,
                           past := PastAfter(c.past, c.jobs[id], step)), c.maxAttempts)
    ensures Lists(c.order, c.jobs[id := After(c.jobs[id], step, c.maxAttempts)])
  {
    hide Kept, Lists, After, Allowed, OnlyForgets, PastAfter;
    QuietStepKeeps(c.State(), id, step, leases, c.maxAttempts);
    SteppedIs(c.State(), id, step, leases, c.maxAttempts);
    ListsStill(c.order, c.jobs, id, After(c.jobs[id], step, c.maxAttempts));
  }

  ghost predicate SweptUpTo(was: map<JobId, Record>, jobs: map<JobId, Record>, order: seq<JobId>, n: nat, now: int,
                            max: nat)
    requires n <= |order|
  {
    && jobs.Keys == was.Keys
    && forall id :: id in was ==> jobs[id] == if id in order[..n] then was[id].Swept(now, max) else was[id]
  }

  lemma StartsSweeping(order: seq<JobId>, jobs: map<JobId, Record>, now: int, max: nat)
    ensures SweptUpTo(jobs, jobs, order, 0, now, max)
  {
    hide Record.Swept;
  }

  lemma SweepStays(l: Ledger, id: JobId, now: int, max: nat)
    requires Kept(l, max) && id in l.jobs
    ensures Kept(WithJob(l, id, l.jobs[id].Swept(now, max)), max)
  {
    ForgetsNothing(l, id, After(l.jobs[id], Sweep(now), max).shards);
    QuietStepKeeps(l, id, Sweep(now), l.leases, max);
    hide Kept, Record.Swept;
    assert Stepped(l, id, Sweep(now), max).(leases := l.leases) == WithJob(l, id, l.jobs[id].Swept(now, max));
  }

  lemma SweptOneMore(was: map<JobId, Record>, jobs: map<JobId, Record>, order: seq<JobId>, n: nat, now: int, max: nat)
    requires n < |order| && NoRepeats(order) && order[n] in was && SweptUpTo(was, jobs, order, n, now, max)
    ensures order[n] in jobs && SweptUpTo(was, jobs[order[n] := jobs[order[n]].Swept(now, max)], order, n + 1, now, max)
  {
    var id := order[n];
    assert order[..n + 1] == order[..n] + [id];
    assert id !in order[..n];
    hide Record.Swept;
  }

  lemma NextToSweep(c: DistributedBakes, was: map<JobId, Record>, n: nat, now: int)
    requires c.Valid() && n < |c.order| && SweptUpTo(was, c.jobs, c.order, n, now, c.maxAttempts)
    ensures var id := c.order[n];
            && id in c.jobs
            && Kept(c.State().(jobs := c.jobs[id := c.jobs[id].Swept(now, c.maxAttempts)]), c.maxAttempts)
            && Lists(c.order, c.jobs[id := c.jobs[id].Swept(now, c.maxAttempts)])
            && SweptUpTo(was, c.jobs[id := c.jobs[id].Swept(now, c.maxAttempts)], c.order, n + 1, now, c.maxAttempts)
  {
    var id := c.order[n];
    assert id in c.order && NoRepeats(c.order);
    assert id in c.jobs && c.jobs.Keys == was.Keys;
    hide Kept, Lists, Record.Swept, SweptUpTo;
    SweepStays(c.State(), id, now, c.maxAttempts);
    ListsStill(c.order, c.jobs, id, c.jobs[id].Swept(now, c.maxAttempts));
    SweptOneMore(was, c.jobs, c.order, n, now, c.maxAttempts);
  }

  lemma AllSwept(c: DistributedBakes, was: map<JobId, Record>, now: int)
    requires c.Valid() && SweptUpTo(was, c.jobs, c.order, |c.order|, now, c.maxAttempts)
    ensures c.jobs == SweptJobs(was, now, c.maxAttempts)
  {
    assert c.order[..|c.order|] == c.order;
    hide Kept, Record.Swept;
  }

  lemma HolderAllows(jobs: map<JobId, Record>, leases: map<LeaseId, Ref>, lease: LeaseId)
    requires HolderOf(jobs, leases, lease).Some?
    ensures var at := HolderOf(jobs, leases, lease).value;
            && at.job in jobs && lease in leases && leases[lease] == at
            && (forall until :: Allowed(jobs[at.job], Renew(at.index, until)))
            && Allowed(jobs[at.job], Reject(at.index)) && Allowed(jobs[at.job], GiveBack(at.index))
  {
  }

  /** Whoever holds a lease can renew, fail and give back the shard it is of. */
  lemma HolderIsCurrent(c: DistributedBakes, lease: LeaseId)
    requires c.Valid()
    ensures HolderOf(c.jobs, c.leases, lease).Some? <==> IsCurrent(c.jobs, lease) && lease !in c.dropped
    ensures var at := HolderOf(c.jobs, c.leases, lease);
            at.Some? ==>
              && at.value.job in c.jobs && lease in c.leases && c.leases[lease] == at.value
              && (forall until :: Allowed(c.jobs[at.value.job], Renew(at.value.index, until)))
              && Allowed(c.jobs[at.value.job], Reject(at.value.index)) &&
                Allowed(c.jobs[at.value.job], GiveBack(at.value.index))
  {
    hide Kept, Lists, IsCurrent, HolderOf, Allowed;
    LeasedIsCurrent(c.State(), c.maxAttempts, lease);
    if HolderOf(c.jobs, c.leases, lease).Some? {
      HolderAllows(c.jobs, c.leases, lease);
    }
  }

  /** And whoever has a shard on a lease not dropped can give it back, whatever has become of the job. */
  lemma LentIsRegistered(c: DistributedBakes, lease: LeaseId)
    requires c.Valid()
    ensures LentAt(c.jobs, c.leases, lease).Some? <==> IsLent(c.jobs, lease) && lease !in c.dropped
    ensures var at := LentAt(c.jobs, c.leases, lease);
            at.Some? ==>
              && at.value.job in c.jobs && lease in c.leases && c.leases[lease] == at.value
              && Allowed(c.jobs[at.value.job], GiveBack(at.value.index))
  {
    hide Kept, Lists, IsLent;
    LentIsFound(c.State(), c.maxAttempts, lease);
  }

  lemma StateHasLeases(c: DistributedBakes)
    ensures c.State().leases == c.leases && c.State().jobs == c.jobs
  {
  }

  lemma AfterAtIs(jobs: map<JobId, Record>, id: JobId, step: Step, max: nat)
    requires id in jobs && Allowed(jobs[id], step)
    ensures AfterAt(jobs, id, step, max) == jobs[id := After(jobs[id], step, max)]
  {
    hide After;
  }

  /** A job with a lease of it renewed. */
  method Renewed(job: Record, i: nat, until: int, ghost max: nat) returns (r: Record)
    requires Allowed(job, Renew(i, until))
    ensures r == After(job, Renew(i, until), max)
  {
    var e := job.shards[i];
    r := job.(shards := job.shards[i := e.(lease := Some(e.lease.value.(until := until)))]);
  }

  /** A job with a shard let go: back in the queue, or given up on. */
  method Rejected(job: Record, i: nat, max: nat) returns (r: Record, requeued: bool)
    requires Allowed(job, Reject(i))
    ensures r == After(job, Reject(i), max) && i < |r.shards| && !r.shards[i].state.Leased?
    ensures requeued <==> i < |job.shards| && job.shards[i].attempts < max
  {
    var e := job.shards[i];
    requeued := e.attempts < max;
    r := MaybeFinish(job.(shards := job.shards[i := e.Released(if requeued then Pending else GivenUp)]));
    MovingKeepsShards(job.With(i, e.LetGo(max)));
  }

  /**
   Where a lease says a shard is, if the shard is still wanted: not done, of a job that is running. It
   need not be the shard's current lease.
   */
  function WantedAt(jobs: map<JobId, Record>, leases: map<LeaseId, Ref>, lease: LeaseId): Option<Ref> {
    if lease !in leases then None
    else
      var ref := leases[lease];
      if ref.job in jobs && ref.index < |jobs[ref.job].shards| && !jobs[ref.job].shards[ref.index].state.Done? &&
        jobs[ref.job].phase.Running?
      then Some(ref) else None
  }

  lemma WantedIs(jobs: map<JobId, Record>, leases: map<LeaseId, Ref>, lease: LeaseId)
    ensures WantedAt(jobs, leases, lease).Some? <==>
              lease in leases &&
              var at := leases[lease];
              && at.job in jobs && jobs[at.job].phase.Running?
              && at.index < |jobs[at.job].shards| && !jobs[at.job].shards[at.index].state.Done?
  {
  }

  /** The shard is out on this lease. */
  ghost predicate IsHeldOn(jobs: map<JobId, Record>, at: Ref, l: LeaseId) {
    at.job in jobs && at.index < |jobs[at.job].shards| && jobs[at.job].shards[at.index].lease.Some? &&
    jobs[at.job].shards[at.index].lease.value.id == l
  }

  lemma HeldIs(jobs: map<JobId, Record>, at: Ref)
    ensures forall l :: l in HeldAt(jobs, at) <==> IsHeldOn(jobs, at, l)
  {
  }

  /** What came back holds nothing outside the shard. */
  ghost predicate Fitting(jobs: map<JobId, Record>, at: Ref, file: Option<Upload>) {
    file.Some? && at.job in jobs && at.index < |jobs[at.job].shards| ==>
      Checked(jobs[at.job].shards[at.index].shard, file.value)
  }

  /** The jobs after something has come back on a lease. */
  ghost function Delivered(jobs: map<JobId, Record>, leases: map<LeaseId, Ref>, lease: LeaseId, file: Option<Upload>,
                           max: nat): map<JobId, Record> {
    var wanted := WantedAt(jobs, leases, lease);
    if wanted.None? then jobs
    else
      var at := wanted.value;
      AfterAt(jobs, at.job, if Fitting(jobs, at, file) then Complete(at.index, file.Some?) else Reject(at.index), max)
  }

  lemma DeliveredIs(jobs: map<JobId, Record>, leases: map<LeaseId, Ref>, lease: LeaseId, file: Option<Upload>, max: nat)
    ensures var wanted := WantedAt(jobs, leases, lease);
            Delivered(jobs, leases, lease, file, max) ==
            if wanted.None? then jobs
            else if Fitting(jobs, wanted.value, file)
              then AfterAt(jobs, wanted.value.job, Complete(wanted.value.index, file.Some?), max)
            else AfterAt(jobs, wanted.value.job, Reject(wanted.value.index), max)
  {
    hide WantedAt, AfterAt, Fitting;
  }

  /** Whoever has the shard just now. */
  function HeldAt(jobs: map<JobId, Record>, at: Ref): set<LeaseId> {
    if at.job in jobs && at.index < |jobs[at.job].shards| && jobs[at.job].shards[at.index].lease.Some?
    then {jobs[at.job].shards[at.index].lease.value.id} else {}
  }

  function WithFile(disk: map<JobId, Files>, id: JobId, i: nat, file: Upload): map<JobId, Files> {
    disk[id := (if id in disk then disk[id] else map[])[i := file]]
  }

  ghost predicate HonestAt(commissions: map<JobId, Commission>, jobs: map<JobId, Record>, at: Ref,
                           file: Option<Upload>) {
    at.job in commissions && at.job in jobs && at.index < |jobs[at.job].shards| &&
    IsHonest(commissions[at.job], jobs[at.job].shards[at.index].shard, file)
  }

  lemma WantedAllows(c: DistributedBakes, lease: LeaseId)
    requires c.Valid() && WantedAt(c.jobs, c.leases, lease).Some?
    ensures var at := WantedAt(c.jobs, c.leases, lease).value;
            && lease in c.leases && c.leases[lease] == at && at.job in c.jobs && at.index < |c.jobs[at.job].shards|
            && Allowed(c.jobs[at.job], Reject(at.index))
  {
  }

  /** A fragment is checked entry by entry against its shard. */
  method CheckUpload(jobs: map<JobId, Record>, at: Ref, file: Option<Upload>) returns (fits: bool)
    requires at.job in jobs && at.index < |jobs[at.job].shards|
    ensures fits <==> Fitting(jobs, at, file)
  {
    if file.None? {
      return true;
    }
    var shard := jobs[at.job].shards[at.index].shard;
    fits := CheckFragment(file.value, shard);
  }

  method CheckFragment(file: Upload, shard: Shard) returns (fits: bool)
    ensures fits <==> Checked(shard, file)
  {
    for d := 0 to |file.directories|
      invariant forall k :: 0 <= k < d ==> AllInside(file.directories[k], shard.from, shard.to)
    {
      var entries := file.directories[d];
      for i := 0 to |entries|
        invariant forall k :: 0 <= k < i ==> shard.from <= entries[k].tileId && entries[k].End() <= shard.to
      {
        if entries[i].tileId < shard.from || entries[i].tileId + entries[i].runLength > shard.to {
          assert !AllInside(file.directories[d], shard.from, shard.to);
          return false;
        }
      }
    }
    fits := true;
  }

  /** The leases dropped once this one is forgotten: it is one of them if its shard is still out on it. */
  function DroppedWith(jobs: map<JobId, Record>, leases: map<LeaseId, Ref>, dropped: map<LeaseId, Ref>,
                       lease: LeaseId): map<LeaseId, Ref> {
    if lease in leases && LentAt(jobs, leases, lease).Some? then dropped[lease := leases[lease]] else dropped
  }

  lemma NotOutOnIt(l: Ledger, id: JobId, i: nat, e: Lot, lease: LeaseId)
    requires PointsBack(id, i, e, l.Known()) && (lease in l.leases ==> lease !in l.dropped) && !e.HeldBy(lease)
    ensures PointsBack(id, i, e, l.(leases := l.leases - {lease}).Known())
  {
  }

  lemma UnwantedIsNotLent(l: Ledger, id: JobId, max: nat, lease: LeaseId)
    requires Kept(l, max) && id in l.jobs && lease !in l.dropped && !IsLent(l.jobs, lease)
    ensures LeasesBack(id, l.jobs[id].shards, l.(leases := l.leases - {lease}).Known())
  {
    var lots, known := l.jobs[id].shards, l.(leases := l.leases - {lease}).Known();
    assert forall i: nat :: i < |lots| && lots[i].HeldBy(lease) ==> IsLentOn(l.jobs, lease, id, i);
    hide Kept, KeptJob, JobKept, SavedKept, Sound, Ledger.Known, Lot.HeldBy, PointsBack;
    KeptParts(l, id, max);
    JobHas(id, l.jobs[id], l.FilesOf(id), l.Known(), l.granted, l.commissions[id], l.honest, max, l.past);
    forall i | 0 <= i < |lots|
      ensures PointsBack(id, i, lots[i], known)
    {
      NotOutOnIt(l, id, i, lots[i], lease);
    }
  }

  /** A lease that is not registered is of no shard that is out. */
  lemma UnregisteredForgets(l: Ledger, lease: LeaseId)
    requires lease !in l.leases
    ensures l.(leases := l.leases - {lease}) == l
  {
    assert l.leases - {lease} == l.leases;
  }

  /** Background work of the job has failed late, if a shard is out that is not wanted. */
  lemma UnwantedIsLate(l: Ledger, max: nat, lease: LeaseId)
    requires Kept(l, max) && WantedAt(l.jobs, l.leases, lease).None? && LentAt(l.jobs, l.leases, lease).Some?
    ensures l.past.late && lease in l.leases && lease !in l.dropped
  {
    var at := LentAt(l.jobs, l.leases, lease).value;
    NotBoth(l, max, lease);
    KeptParts(l, at.job, max);
    assert AnyLent(l.jobs[at.job].shards);
  }

  lemma JobKeptWith(id: JobId, job: Record, files: Files, leases: map<LeaseId, Ref>, granted: map<LeaseId, Ref>,
                    c: Commission, honest: bool,
                    max: nat, past: History, leases': map<LeaseId, Ref>)
    requires JobKept(id, job, files, leases, granted, c, honest, max, past) && LeasesBack(id, job.shards, leases')
    ensures JobKept(id, job, files, leases', granted, c, honest, max, past)
  {
    hide Sound, Stowed, Commission.Valid, IsPlanOf, HonestLots, HonestFiles, LeasesBack;
  }

  lemma DroppingAgrees(l: Ledger, lease: LeaseId)
    requires LeasesAgree(l) && l.past.late && lease in l.leases && lease !in l.dropped
    ensures var m := l.(leases := l.leases - {lease}, dropped := l.dropped[lease := l.leases[lease]]);
            LeasesAgree(m) && m.Known() == l.Known()
  {
  }

  lemma ForgettingAgrees(l: Ledger, lease: LeaseId)
    requires LeasesAgree(l)
    ensures LeasesAgree(l.(leases := l.leases - {lease}))
  {
  }

  /** No record rests on which leases are registered. */
  lemma LeasesDoNotMatter(l: Ledger, m: Ledger, max: nat)
    requires m == l.(leases := m.leases, dropped := m.dropped)
    ensures forall id, record :: NoteKept(l, id, record, max) ==> NoteKept(m, id, record, max)
    ensures forall id :: m.FilesOf(id) == l.FilesOf(id)
  {
    assert forall id :: m.FilesOf(id) == l.FilesOf(id);
    hide JobKept, SavedKept, Ledger.FilesOf;
  }

  lemma ForgettingUnwanted(l: Ledger, max: nat, lease: LeaseId)
    requires Kept(l, max) && WantedAt(l.jobs, l.leases, lease).None?
    ensures Kept(l.(leases := l.leases - {lease}, dropped := DroppedWith(l.jobs, l.leases, l.dropped, lease)), max)
  {
    var m := l.(leases := l.leases - {lease}, dropped := DroppedWith(l.jobs, l.leases, l.dropped, lease));
    hide *;
    DiskIsKept(l, max);
    SameDisk(l, m);
    LeasesDoNotMatter(l, m, max);
    NotesAre(l, max);
    DroppedIs(l, lease);
    if LentAt(l.jobs, l.leases, lease).Some? {
      UnwantedIsLate(l, max, lease);
      DroppingAgrees(l, lease);
    } else {
      ForgettingAgrees(l, lease);
    }
    forall id | id in m.jobs
      ensures KeptJob(m, id, max)
    {
      ForgettingKeepsJob(l, max, lease, id);
    }
    KeptFromJobs(m, max);
  }

  lemma DroppedIs(l: Ledger, lease: LeaseId)
    ensures var m := l.(leases := l.leases - {lease}, dropped := DroppedWith(l.jobs, l.leases, l.dropped, lease));
            if LentAt(l.jobs, l.leases, lease).Some?
            then lease in l.leases &&
                 m == l.(leases := l.leases - {lease}, dropped := l.dropped[lease := l.leases[lease]])
            else m == l.(leases := l.leases - {lease})
  {
  }

  lemma ForgettingKeepsJob(l: Ledger, max: nat, lease: LeaseId, id: JobId)
    requires Kept(l, max) && WantedAt(l.jobs, l.leases, lease).None? && id in l.jobs
    ensures KeptJob(l.(leases := l.leases - {lease}, dropped := DroppedWith(l.jobs, l.leases, l.dropped, lease)), id,
                    max)
  {
    var m := l.(leases := l.leases - {lease}, dropped := DroppedWith(l.jobs, l.leases, l.dropped, lease));
    hide *;
    DiskIsKept(l, max);
    SameDisk(l, m);
    DroppedIs(l, lease);
    KeptParts(l, id, max);
    if LentAt(l.jobs, l.leases, lease).Some? {
      UnwantedIsLate(l, max, lease);
      DroppingAgrees(l, lease);
    } else if lease !in l.leases {
      UnregisteredForgets(l, lease);
    } else {
      NotBoth(l, max, lease);
      LentIsFound(l, max, lease);
      UnwantedIsNotLent(l, id, max, lease);
      JobKeptWith(id, l.jobs[id], l.FilesOf(id), l.Known(), l.granted, l.commissions[id], l.honest, max, l.past,
                  m.Known());
    }
    KeptAgain(m, id, max);
  }

  /** A job with a shard done. */
  method Completed(job: Record, i: nat, fragment: bool, ghost max: nat) returns (r: Record)
    requires Allowed(job, Complete(i, fragment))
    ensures r == After(job, Complete(i, fragment), max)
  {
    r := MaybeFinish(job.(shards := job.shards[i := job.shards[i].(state := Done, lease := None,
                                                                   fragment := fragment)]));
  }

  lemma HeldIsLent(jobs: map<JobId, Record>, at: Ref, k: LeaseId)
    requires k in HeldAt(jobs, at) && (forall id :: id in jobs ==> HasLeases(jobs[id].shards))
    ensures IsLentOn(jobs, k, at.job, at.index)
  {
  }

  lemma AllHaveLeases(l: Ledger, max: nat, id: JobId)
    requires Kept(l, max) && id in l.jobs
    ensures HasLeases(l.jobs[id].shards)
  {
    KeptParts(l, id, max);
    JobHas(id, l.jobs[id], l.FilesOf(id), l.Known(), l.granted, l.commissions[id], l.honest, max, l.past);
    hide Kept, KeptJob, JobKept, SavedKept, PhaseHolds;
    forall i | 0 <= i < |l.jobs[id].shards|
      ensures l.jobs[id].shards[i].state.Leased? <==> l.jobs[id].shards[i].lease.Some?
    {
      assert Fits(l.jobs[id].shards[i], max, l.past.stops);
    }
  }

  lemma HeldIsOfTheShard(l: Ledger, max: nat, at: Ref, lease: LeaseId, k: LeaseId)
    requires Kept(l, max) && WantedAt(l.jobs, l.leases, lease) == Some(at) && k in l.leases &&
             (k == lease || k in HeldAt(l.jobs, at))
    ensures l.leases[k].job == at.job && l.leases[k].index == at.index
  {
    if k != lease {
      NotBoth(l, max, k);
      hide Kept;
      forall id | id in l.jobs
        ensures HasLeases(l.jobs[id].shards)
      {
        AllHaveLeases(l, max, id);
      }
      hide HasLeases, HeldAt, IsLentOn;
      HeldIsLent(l.jobs, at, k);
      LentIsKnown(l, max, k, at.job, at.index);
    }
  }

  lemma TakenForgets(l: Ledger, max: nat, at: Ref, lease: LeaseId, fragment: bool)
    requires Kept(l, max) && WantedAt(l.jobs, l.leases, lease) == Some(at)
    ensures at.job in l.jobs && Allowed(l.jobs[at.job], Complete(at.index, fragment))
    ensures OnlyForgets(l, at.job, After(l.jobs[at.job], Complete(at.index, fragment), max).shards,
                        l.leases - {lease} - HeldAt(l.jobs, at))
  {
    WantedCompletes(l, max, at, lease, fragment);
    hide *;
    var held := HeldAt(l.jobs, at);
    forall k | k in l.leases && (k == lease || k in held)
      ensures l.leases[k].job == at.job && l.leases[k].index == at.index
    {
      HeldIsOfTheShard(l, max, at, lease, k);
    }
    ForgetsOneShard(l, at, After(l.jobs[at.job], Complete(at.index, fragment), max).shards, lease, held);
  }

  lemma WantedCompletes(l: Ledger, max: nat, at: Ref, lease: LeaseId, fragment: bool)
    requires WantedAt(l.jobs, l.leases, lease) == Some(at)
    ensures at.job in l.jobs && Allowed(l.jobs[at.job], Complete(at.index, fragment))
    ensures var after := After(l.jobs[at.job], Complete(at.index, fragment), max).shards;
            at.index < |after| && !after[at.index].state.Leased?
  {
    TakenLots(l.jobs[at.job], at.index, fragment, max);
    hide After;
  }

  lemma ForgetsOneShard(l: Ledger, at: Ref, lots: seq<Lot>, lease: LeaseId, held: set<LeaseId>)
    requires at.index < |lots| && !lots[at.index].state.Leased?
    requires forall k :: k in l.leases && (k == lease || k in held) ==>
             l.leases[k].job == at.job && l.leases[k].index == at.index
    ensures OnlyForgets(l, at.job, lots, l.leases - {lease} - held)
  {
  }

  lemma TakingIsKept(c: DistributedBakes, at: Ref, lease: LeaseId, file: Option<Upload>)
    requires c.Valid() && WantedAt(c.jobs, c.leases, lease) == Some(at) && Fitting(c.jobs, at, file)
    ensures at.job in c.jobs && Allowed(c.jobs[at.job], Complete(at.index, file.Some?))
    ensures var job := After(c.jobs[at.job], Complete(at.index, file.Some?), c.maxAttempts);
            && Lists(c.order, c.jobs[at.job := job])
            && Kept(c.State().(jobs := c.jobs[at.job := job],
                               leases := c.leases - {lease} - HeldAt(c.jobs, at),
                               disk := if file.Some? then WithFile(c.disk, at.job, at.index, file.value) else c.disk,
                               taken := if file.Some? then WithFile(c.taken, at.job, at.index, file.value)
                                 else c.taken,
                               honest := c.honest && HonestAt(c.commissions, c.jobs, at, file)), c.maxAttempts)
  {
    var l, max, left := c.State(), c.maxAttempts, c.leases - {lease} - HeldAt(c.jobs, at);
    var job := After(c.jobs[at.job], Complete(at.index, file.Some?), max);
    FittingIs(c, at, lease, file);
    hide *;
    KeptParts(l, at.job, max);
    TakenForgets(l, max, at, lease, file.Some?);
    ListsStill(c.order, c.jobs, at.job, job);
    TakingKeeps(l, at.job, at.index, file, left, max);
    TakenIs(l, at.job, at.index, file, left, max);
    SameDiskAndHonesty(c, at, file);
  }

  lemma FittingIs(c: DistributedBakes, at: Ref, lease: LeaseId, file: Option<Upload>)
    requires c.Valid() && WantedAt(c.jobs, c.leases, lease) == Some(at) && Fitting(c.jobs, at, file)
    ensures var l := c.State();
            && Kept(l, c.maxAttempts) && Lists(c.order, c.jobs) && l.jobs == c.jobs && l.leases == c.leases
            && at.job in c.jobs && at.index < |c.jobs[at.job].shards| &&
              Allowed(c.jobs[at.job], Complete(at.index, file.Some?))
            && (file.Some? ==> Checked(c.jobs[at.job].shards[at.index].shard, file.value))
  {
    hide Kept, Lists, Checked;
  }

  lemma SameDiskAndHonesty(c: DistributedBakes, at: Ref, file: Option<Upload>)
    requires at.job in c.jobs && at.job in c.commissions && at.index < |c.jobs[at.job].shards|
    ensures var l := c.State();
            && l.disk == c.disk && l.taken == c.taken && l.jobs == c.jobs && l.honest == c.honest
            && l.commissions == c.commissions
            && HonestAt(c.commissions, c.jobs, at, file) ==
              IsHonest(c.commissions[at.job], c.jobs[at.job].shards[at.index].shard, file)
            && (file.Some? ==>
                && WithFile(c.disk, at.job, at.index, file.value) ==
                   c.disk[at.job := l.FilesOn(at.job)[at.index := file.value]]
                && WithFile(c.taken, at.job, at.index, file.value) ==
                   c.taken[at.job := l.FilesOf(at.job)[at.index := file.value]])
  {
    hide IsHonest;
  }

  /** The job still has shards to lend, to this asker. */
  predicate IsOffered(jobs: map<JobId, Record>, cannot: map<WorkerId, set<JobId>>, worker: WorkerId,
                      only: Option<JobId>, local: bool, id: JobId) {
    && id in jobs && jobs[id].phase.Running? && id !in CannotDo(cannot, worker)
    && (only.Some? ==> only.value == id) && (local || jobs[id].remote)
  }

  function OlderIn(jobs: map<JobId, Record>): (JobId, JobId) -> bool {
    (a: JobId, b: JobId) => CreatedAt(jobs, a) <= CreatedAt(jobs, b)
  }

  ghost predicate HasWaiting(lots: seq<Lot>) {
    exists i :: IsWaiting(lots, i)
  }

  ghost predicate IsFirstWaiting(lots: seq<Lot>, i: int) {
    IsWaiting(lots, i) && forall k :: IsWaiting(lots, k) ==> i <= k
  }

  method FirstWaiting(lots: seq<Lot>) returns (i: Option<nat>)
    ensures if i.Some? then IsFirstWaiting(lots, i.value) else !HasWaiting(lots)
  {
    for n := 0 to |lots|
      invariant forall k :: 0 <= k < n ==> !IsWaiting(lots, k)
    {
      if lots[n].state.Pending? {
        assert IsWaiting(lots, n);
        return Some(n);
      }
    }
    i := None;
  }

  /** Where none of the older jobs has a shard waiting, the next is the oldest that does. */
  lemma OldestFirst(jobs: map<JobId, Record>, cannot: map<WorkerId, set<JobId>>, worker: WorkerId, only: Option<JobId>,
                    local: bool,
                    ids: seq<JobId>, n: nat)
    requires n < |ids| && Ascends(ids, OlderIn(jobs))
    requires forall id :: id in ids <==> IsOffered(jobs, cannot, worker, only, local, id)
    requires forall k :: 0 <= k < n ==> ids[k] in jobs && !HasWaiting(jobs[ids[k]].shards)
    ensures ids[n] in jobs
    ensures forall o :: IsOffered(jobs, cannot, worker, only, local, o) && HasWaiting(jobs[o].shards) ==>
            jobs[ids[n]].createdAt <= jobs[o].createdAt
  {
    assert ids[n] in ids;
    forall o | IsOffered(jobs, cannot, worker, only, local, o) && HasWaiting(jobs[o].shards)
      ensures jobs[ids[n]].createdAt <= jobs[o].createdAt
    {
      var k :| 0 <= k < |ids| && ids[k] == o;
      assert k == n || OlderIn(jobs)(ids[n], ids[k]);
    }
  }

  /** A shard that is waiting, the first of its job, which is the oldest this asker may be given one of. */
  ghost predicate IsBestOffer(jobs: map<JobId, Record>, cannot: map<WorkerId, set<JobId>>, worker: WorkerId,
                              only: Option<JobId>, local: bool,
                              id: JobId, i: nat)
  {
    && IsOffered(jobs, cannot, worker, only, local, id) && IsFirstWaiting(jobs[id].shards, i)
    && forall o :: IsOffered(jobs, cannot, worker, only, local, o) && HasWaiting(jobs[o].shards) ==>
      jobs[id].createdAt <= jobs[o].createdAt
  }

  ghost predicate NothingToOffer(jobs: map<JobId, Record>, cannot: map<WorkerId, set<JobId>>, worker: WorkerId,
                                 only: Option<JobId>, local: bool) {
    forall id :: IsOffered(jobs, cannot, worker, only, local, id) ==> !HasWaiting(jobs[id].shards)
  }

  lemma AllOffered(jobs: map<JobId, Record>, cannot: map<WorkerId, set<JobId>>, worker: WorkerId, only: Option<JobId>,
                   local: bool, ids: seq<JobId>)
    requires forall id :: id in ids <==> IsOffered(jobs, cannot, worker, only, local, id)
    ensures forall k :: 0 <= k < |ids| ==> ids[k] in jobs && IsOffered(jobs, cannot, worker, only, local, ids[k])
  {
    forall k | 0 <= k < |ids|
      ensures IsOffered(jobs, cannot, worker, only, local, ids[k])
    {
      assert ids[k] in ids;
    }
  }

  lemma NothingWaits(jobs: map<JobId, Record>, cannot: map<WorkerId, set<JobId>>, worker: WorkerId, only: Option<JobId>,
                     local: bool, ids: seq<JobId>)
    requires forall id :: id in ids <==> IsOffered(jobs, cannot, worker, only, local, id)
    requires forall k :: 0 <= k < |ids| ==> ids[k] in jobs && !HasWaiting(jobs[ids[k]].shards)
    ensures NothingToOffer(jobs, cannot, worker, only, local)
  {
    forall id | IsOffered(jobs, cannot, worker, only, local, id)
      ensures !HasWaiting(jobs[id].shards)
    {
      var k :| 0 <= k < |ids| && ids[k] == id;
    }
  }

  lemma BestIsFirst(jobs: map<JobId, Record>, cannot: map<WorkerId, set<JobId>>, worker: WorkerId, only: Option<JobId>,
                    local: bool,
                    ids: seq<JobId>, n: nat, i: nat)
    requires n < |ids| && Ascends(ids, OlderIn(jobs))
    requires forall id :: id in ids <==> IsOffered(jobs, cannot, worker, only, local, id)
    requires forall k :: 0 <= k < n ==> ids[k] in jobs && !HasWaiting(jobs[ids[k]].shards)
    requires ids[n] in jobs && IsFirstWaiting(jobs[ids[n]].shards, i)
    ensures IsBestOffer(jobs, cannot, worker, only, local, ids[n], i)
  {
    assert ids[n] in ids;
    OldestFirst(jobs, cannot, worker, only, local, ids, n);
  }

  lemma NothingMeans(jobs: map<JobId, Record>, cannot: map<WorkerId, set<JobId>>, worker: WorkerId,
                     only: Option<JobId>, local: bool)
    requires NothingToOffer(jobs, cannot, worker, only, local)
    ensures forall id, i :: id in jobs && jobs[id].phase.Running? && IsWaiting(jobs[id].shards, i) ==>
              || (!local && !jobs[id].remote) || (only.Some? && only.value != id)
              || (worker in cannot && id in cannot[worker])
  {
  }

  lemma BestMeans(jobs: map<JobId, Record>, cannot: map<WorkerId, set<JobId>>, worker: WorkerId,
                  only: Option<JobId>, local: bool, id: JobId, i: nat)
    requires IsBestOffer(jobs, cannot, worker, only, local, id, i)
    ensures id in jobs && jobs[id].phase.Running? && i < |jobs[id].shards| && jobs[id].shards[i].state.Pending?
    ensures forall k :: 0 <= k < i ==> !jobs[id].shards[k].state.Pending?
    ensures (local || jobs[id].remote) && (only.Some? ==> only.value == id) &&
            !(worker in cannot && id in cannot[worker])
    ensures forall o, k :: o in jobs && jobs[o].phase.Running? && IsWaiting(jobs[o].shards, k) ==>
              || jobs[id].createdAt <= jobs[o].createdAt
              || (!local && !jobs[o].remote) || (only.Some? && only.value != o)
              || (worker in cannot && o in cannot[worker])
  {
    forall k | 0 <= k < i
      ensures !jobs[id].shards[k].state.Pending?
    {
      assert !IsWaiting(jobs[id].shards, k);
    }
  }

  /** A job is as it was asked for, whatever has happened since. */
  lemma TermsHold(c: DistributedBakes, id: JobId)
    requires c.Valid() && id in c.jobs
    ensures id in c.commissions && c.jobs[id].remote == c.commissions[id].remote
    ensures c.jobs[id].createdAt == c.commissions[id].createdAt
  {
    KeptParts(c.State(), id, c.maxAttempts);
    JobHas(id, c.jobs[id], c.State().FilesOf(id), c.State().Known(), c.granted, c.commissions[id], c.honest,
           c.maxAttempts, c.past);
    hide Kept, KeptJob, JobKept;
  }

  lemma BestCanBeLent(jobs: map<JobId, Record>, cannot: map<WorkerId, set<JobId>>, worker: WorkerId,
                      only: Option<JobId>, local: bool,
                      id: JobId, i: nat, lease: Lease)
    requires IsBestOffer(jobs, cannot, worker, only, local, id, i)
    ensures id in jobs && Allowed(jobs[id], Grant(i, lease))
  {
  }

  /** A job with a shard lent. */
  method LentJob(job: Record, i: nat, lease: Lease, ghost max: nat) returns (r: Record)
    requires Allowed(job, Grant(i, lease))
    ensures r == After(job, Grant(i, lease), max)
  {
    var e := job.shards[i];
    r := job.(shards := job.shards[i := e.(state := Leased, attempts := e.attempts + 1, lease := Some(lease))]);
  }

  lemma LendingIsKept(c: DistributedBakes, id: JobId, i: nat, lease: Lease)
    requires c.Valid() && lease.id !in c.granted && id in c.jobs && Allowed(c.jobs[id], Grant(i, lease))
    ensures var r := Ref(id, i, lease.worker);
            var job := After(c.jobs[id], Grant(i, lease), c.maxAttempts);
            && Lists(c.order, c.jobs[id := job])
            && Kept(c.State().(jobs := c.jobs[id := job], leases := c.leases[lease.id := r],
                               granted := c.granted[lease.id := r]), c.maxAttempts)
  {
    var l, max, r := c.State(), c.maxAttempts, Ref(id, i, lease.worker);
    var job := After(c.jobs[id], Grant(i, lease), max);
    ListsStill(c.order, c.jobs, id, job);
    LendingKeeps(l, id, i, lease, max);
    hide Kept, After, Lists, Allowed;
    assert Lent(l, id, i, lease, max) ==
           l.(jobs := c.jobs[id := job], leases := c.leases[lease.id := r], granted := c.granted[lease.id := r]);
  }

  function FilesAt(disk: map<JobId, Files>, id: JobId): Files {
    if id in disk then disk[id] else map[]
  }

  /** Every lease somebody has of these shards. */
  function LeasesHeld(lots: seq<Lot>): set<LeaseId> {
    set i | 0 <= i < |lots| && lots[i].lease.Some? :: lots[i].lease.value.id
  }

  function Without(order: seq<JobId>, id: JobId): seq<JobId> {
    if order == [] then []
    else
      var rest, last := Without(order[..|order| - 1], id), order[|order| - 1];
      if last == id then rest else rest + [last]
  }

  lemma {:induction false} WithoutOne(order: seq<JobId>, id: JobId)
    requires NoRepeats(order)
    ensures NoRepeats(Without(order, id)) && forall o :: o in Without(order, id) <==> o in order && o != id
  {
    if order != [] {
      var n := |order| - 1;
      WithoutOne(order[..n], id);
      assert order == order[..n] + [order[n]];
      var rest := Without(order[..n], id);
      forall i | 0 <= i < |rest|
        ensures rest[i] != order[n]
      {
        assert rest[i] in rest;
      }
    }
  }

  lemma HeldAreOfTheJob(l: Ledger, id: JobId, max: nat, k: LeaseId)
    requires Kept(l, max) && id in l.jobs && k in LeasesHeld(l.jobs[id].shards) && k in l.leases
    ensures l.leases[k].job == id
  {
    KeptParts(l, id, max);
    var lots := l.jobs[id].shards;
    var i :| 0 <= i < |lots| && lots[i].lease.Some? && lots[i].lease.value.id == k;
    assert Fits(lots[i], max, l.past.stops) && PointsBack(id, i, lots[i], l.Known());
  }

  predicate CanBeDiscarded(jobs: map<JobId, Record>, id: JobId) {
    id in jobs && (jobs[id].finished || jobs[id].phase.Stalled?)
  }

  lemma StateFields(c: DistributedBakes)
    ensures c.State() == Ledger(c.jobs, c.leases, c.disk, c.saved, c.late, c.granted, c.taken, c.commissions,
                                c.honest, c.past, c.dropped, c.cleared)
  {
  }

  lemma ValidAgain(c: DistributedBakes)
    requires Kept(c.State(), c.maxAttempts) && Lists(c.order, c.jobs) && c.erasing <= c.cleared
    ensures c.Valid()
  {
    hide Kept, Lists;
  }

  lemma ErasingIsCleared(c: DistributedBakes, id: JobId)
    requires c.Valid()
    ensures c.erasing <= c.cleared && c.erasing + {id} <= c.cleared + {id}
  {
    hide Kept, Lists;
  }

  lemma CanIsThere(jobs: map<JobId, Record>, id: JobId)
    ensures CanBeDiscarded(jobs, id) <==> id in jobs && (jobs[id].finished || jobs[id].phase.Stalled?)
  {
  }

  lemma DiscardingKeeps(c: DistributedBakes, id: JobId)
    requires c.Valid() && id in c.jobs
    ensures var left := c.leases - LeasesHeld(c.jobs[id].shards);
            && Kept(c.State().(jobs := c.jobs - {id}, late := c.late + {Note(id, c.jobs[id])}, leases := left,
                               cleared := c.cleared + {id}), c.maxAttempts)
            && Lists(Without(c.order, id), c.jobs - {id})
  {
    var left := c.leases - LeasesHeld(c.jobs[id].shards);
    forall k | k in c.leases && c.leases[k].job != id
      ensures k in left
    {
      if k in LeasesHeld(c.jobs[id].shards) {
        HeldAreOfTheJob(c.State(), id, c.maxAttempts, k);
      }
    }
    WithoutOne(c.order, id);
    hide Kept, LeasesHeld, Without;
    ForgettingKeeps(c.State(), id, left, c.maxAttempts);
  }

  lemma ErasedIs(c: DistributedBakes, id: JobId, gone: set<nat>)
    requires id in c.cleared
    ensures Erased(c.State(), id, gone) == c.State().(disk := c.disk[id := FilesAt(c.disk, id) - gone])
  {
    assert c.cleared + {id} == c.cleared;
  }

  lemma ClearedIs(c: DistributedBakes, id: JobId)
    requires id in c.cleared
    ensures Cleared(c.State(), id) == c.State().(disk := c.disk - {id})
  {
    assert c.cleared + {id} == c.cleared;
  }

  /** A job's fragments, in the order of its shards. */
  function FragmentsOf(lots: seq<Lot>, files: Files): (fragments: seq<Fragment>)
    ensures |fragments| == |lots|
    ensures forall i :: 0 <= i < |lots| ==>
            fragments[i] == Fragment(FileOf(lots[i], i, files), lots[i].shard.from, lots[i].shard.to)
  {
    seq(|lots|, i requires 0 <= i < |lots| => Fragment(FileOf(lots[i], i, files), lots[i].shard.from, lots[i].shard.to))
  }

  lemma UploadsCanBeRead(lots: seq<Lot>, files: Files)
    ensures Readable(FragmentsOf(lots, files))
  {
  }

  /** Honest fragments of a plan's shards cover its parts, and are their bakes where nothing is torn. */
  lemma HonestAreCovers(c: Commission, lots: seq<Lot>, files: Files)
    requires c.Valid() && HonestLots(c, lots, files) && forall i :: 0 <= i < |lots| ==> lots[i].state.Done?
    ensures AreCoversOf(PartsOf(c.job, Spans(lots)), Spans(lots), c.kind, FragmentsOf(lots, files))
    ensures c.untorn ==> AreBakesOf(PartsOf(c.job, Spans(lots)), Spans(lots), c.kind, FragmentsOf(lots, files))
  {
    PartsAreShards(c.job, Spans(lots));
    hide IsBakeOf, IsCoverOf;
    forall i | 0 <= i < |lots|
      ensures var part, shard, f := PartsOf(c.job, Spans(lots))[i], Spans(lots)[i], FragmentsOf(lots, files)[i];
              IsCoverOf(part, shard, c.kind, f) && (c.untorn ==> IsBakeOf(part, shard, c.kind, f))
    {
      assert IsHonest(c, lots[i].shard, FileOf(lots[i], i, files));
      if c.untorn {
        BakeIsCover(PartsOf(c.job, Spans(lots))[i], Spans(lots)[i], c.kind, FragmentsOf(lots, files)[i]);
      }
    }
  }

  /** Whatever a fragment says its tiles are, it is this. */
  ghost predicate AreOfKind(fragments: seq<Fragment>, kind: Kind) {
    forall i :: 0 <= i < |fragments| && Shows(fragments[i]) ==> fragments[i].archive.value.kind == kind
  }

  lemma CoversSayTheirKind(parts: seq<Job>, shards: seq<Shard>, kind: Kind, fragments: seq<Fragment>)
    requires AreCoversOf(parts, shards, kind, fragments)
    ensures AreOfKind(fragments, kind)
  {
    hide CoversAll;
    forall i | 0 <= i < |fragments| && Shows(fragments[i])
      ensures fragments[i].archive.value.kind == kind
    {
      assert IsCoverOf(parts[i], shards[i], kind, fragments[i]);
    }
  }

  lemma OneKind(fragments: seq<Fragment>, a: Kind, b: Kind)
    requires AreOfKind(fragments, a) && AllOfKind(fragments, b)
    ensures a == b
  {
  }

  lemma HonestIsWhole(c: Commission, lots: seq<Lot>, files: Files)
    requires c.Valid() && IsPlanOf(c, Spans(lots)) && HonestLots(c, lots, files) && forall i :: 0 <= i < |lots| ==>
             lots[i].state.Done?
    ensures var fragments := FragmentsOf(lots, files);
            && Readable(fragments) && InOrder(fragments) && Agree(fragments) && AllHoldTheirOwn(fragments)
            && (SomeTile(fragments) <==> Baked(c.job, c.job.ids) != [])
            && (forall archive, deduplicate :: IsMadeOf(archive, fragments, deduplicate) ==> Answers(c.job, archive))
            && (c.untorn ==> AllWholesome(fragments) && TilesOfFragments(fragments) == Baked(c.job, c.job.ids))
            && AreOfKind(fragments, c.kind)
  {
    var shards := Spans(lots);
    var pieces :| IsPlan(shards, pieces, c.PickedTiles()) && Fair(pieces, ShareOf(c.tilesPerShard));
    PartsAreShards(c.job, shards);
    HonestAreCovers(c, lots, files);
    CoversSayTheirKind(PartsOf(c.job, shards), shards, c.kind, FragmentsOf(lots, files));
    assert c.job.Valid() && c.job.NoEmptyTiles() && c.job.ids == Union.IdsIn(c.stream) &&
           c.PickedTiles() == Picked(c.job, c.stream);
    hide *;
    ShardedAnswers(c.job, c.stream, shards, pieces, PartsOf(c.job, shards), c.kind, FragmentsOf(lots, files));
    if c.untorn {
      ShardedIsWhole(c.job, c.stream, shards, pieces, PartsOf(c.job, shards), c.kind, FragmentsOf(lots, files));
    }
  }

  /** Whether a fragment is missing. */
  method FindMissing(lots: seq<Lot>, files: Files) returns (missing: bool)
    ensures missing <==> !Intact(lots, files)
  {
    for i := 0 to |lots|
      invariant forall k :: 0 <= k < i && lots[k].state.Done? && lots[k].fragment ==> k in files
    {
      if lots[i].state.Done? && lots[i].fragment && i !in files {
        return true;
      }
    }
    missing := false;
  }

  /** Where nothing is missing, what is there of a job's fragments is what was taken. */
  lemma IntactIsTaken(lots: seq<Lot>, files: Files, taken: Files)
    requires Intact(lots, files) && Submap(files, taken) && forall i :: 0 <= i < |lots| ==> lots[i].state.Done?
    ensures FragmentsOf(lots, files) == FragmentsOf(lots, taken)
  {
    forall i | 0 <= i < |lots|
      ensures FileOf(lots[i], i, files) == FileOf(lots[i], i, taken)
    {
    }
  }

  /**
   Puts a job's fragments together. One that is not there any more cannot be
   opened. Otherwise, where each is what its shard's own bake may come to, that is
   refused only if the bake comes to nothing, and else answers every id as one
   bake of it all does; where no checkpoint was torn, it is the archive that bake
   would have written.
   */
  method PutTogether(lots: seq<Lot>, files: Files, ghost taken: Files, deduplicate: bool, ghost c: Commission,
                     ghost honest: bool)
    returns (r: Assembly)
    requires c.Valid() && IsPlanOf(c, Spans(lots)) && forall i :: 0 <= i < |lots| ==> lots[i].state.Done?
    requires Submap(files, taken) && (honest ==> HonestLots(c, lots, taken))
    ensures r == Refused(Missing) <==> !Intact(lots, files)
    ensures honest ==> (r.Assembled? <==> Intact(lots, files) && Baked(c.job, c.job.ids) != [])
    ensures honest && r.Assembled? ==> IsResultOf(c, r)
  {
    var missing := FindMissing(lots, files);
    if missing {
      return Refused(Missing);
    }
    var fragments := FragmentsOf(lots, files);
    UploadsCanBeRead(lots, files);
    IntactIsTaken(lots, files, taken);
    if honest {
      HonestIsWhole(c, lots, taken);
    }
    hide *;
    r := AssembleFragments(fragments, deduplicate);
    if r.Refused? {
      NeverMissing(fragments, r.why);
    } else if honest {
      OneKind(fragments, c.kind, r.kind);
      if c.untorn {
        MakesItWhole(c.job, r.archive);
      }
      ResultIs(c, r);
    }
  }

  lemma NeverMissing(fragments: seq<Fragment>, why: Refusal)
    requires IsReason(fragments, why)
    ensures why != Missing
  {
  }

  lemma ResultIs(c: Commission, r: Assembly)
    requires r.Assembled? && Answers(c.job, r.archive) && r.kind == c.kind && r.written == r.archive.addressed
    requires c.untorn ==> IsWhole(c.job, r.archive) && r.written == |Baked(c.job, c.job.ids)|
    ensures IsResultOf(c, r)
  {
  }

  lemma MakesItWhole(job: Job, archive: Writer.PMTiles)
    requires archive.Valid() && OneLength(archive.entries) && NoEmptyRuns(archive.entries)
    requires archive.Tiles() == Baked(job, job.ids) && archive.addressed == |Baked(job, job.ids)| && archive.clustered
    ensures IsWhole(job, archive)
  {
  }

  lemma DoneCanBePutTogether(c: DistributedBakes, id: JobId)
    requires c.Valid() && id in c.jobs && c.jobs[id].shards != [] && c.jobs[id].AllDone()
    ensures id in c.commissions && c.commissions[id].Valid() && IsPlanOf(c.commissions[id], Spans(c.jobs[id].shards))
    ensures forall i :: 0 <= i < |c.jobs[id].shards| ==> c.jobs[id].shards[i].state.Done?
    ensures Submap(FilesAt(c.disk, id), FilesAt(c.taken, id))
    ensures id !in c.cleared ==> Intact(c.jobs[id].shards, FilesAt(c.disk, id))
    ensures c.honest ==> HonestLots(c.commissions[id], c.jobs[id].shards, FilesAt(c.taken, id))
  {
    var l := c.State();
    assert Kept(l, c.maxAttempts) && l.FilesOf(id) == FilesAt(c.taken, id) && l.FilesOn(id) == FilesAt(c.disk, id);
    assert c.jobs[id].AllDone() ==> forall i :: 0 <= i < |c.jobs[id].shards| ==> c.jobs[id].shards[i].state.Done?;
    KeptParts(l, id, c.maxAttempts);
    DiskIs(l, id, c.maxAttempts);
    JobHas(id, l.jobs[id], l.FilesOf(id), l.Known(), l.granted, l.commissions[id], l.honest, c.maxAttempts, l.past);
    if id !in c.cleared {
      OnlyClearedIsMissing(l, id, c.maxAttempts);
    }
    hide Kept, KeptJob, JobKept, Ledger.FilesOf, Ledger.FilesOn, Lists;
  }

  lemma EndAllowed(past: History, jobs: map<JobId, Record>, id: JobId, step: Step, max: nat)
    requires id in jobs && (step.Import? || step.Finish? ==> jobs[id].shards != [] && jobs[id].AllDone())
    requires step.Import? || step.Finish? || step.Break?
    ensures Allowed(jobs[id], step) <==> !step.Break? || !jobs[id].phase.Cancelled?
    ensures AfterAt(jobs, id, step, max) ==
            if Allowed(jobs[id], step) then jobs[id := After(jobs[id], step, max)] else jobs
    ensures PastAt(past, jobs, id, step) == if Allowed(jobs[id], step) then PastAfter(past, jobs[id], step) else past
  {
    hide After;
  }

  lemma DoneIsNotLent(past: History, jobs: map<JobId, Record>, id: JobId)
    requires id in jobs && jobs[id].AllDone()
    ensures PastAt(past, jobs, id, Import) == past && PastAt(past, jobs, id, Step.Finish) == past &&
            PastAt(past, jobs, id, Break) == past
  {
    hide After;
  }

  /** A job as its background work leaves it. */
  method Ended(job: Record, step: Step, ghost max: nat) returns (r: Record)
    requires Allowed(job, step) && (step.Import? || step.Finish? || step.Break?)
    ensures r == After(job, step, max)
  {
    if step.Import? {
      return job.(phase := Importing);
    }
    r := job.(phase := if step.Finish? then Phase.Finished else Failed, finished := true);
  }

  /** Every job as its record and its fragments have it. */
  ghost function LoadedJobs(saved: map<JobId, Record>, disk: map<JobId, Files>): (jobs: map<JobId, Record>)
    ensures jobs.Keys == saved.Keys && forall id :: id in saved ==> jobs[id] == Reloaded(saved[id], FilesAt(disk, id))
  {
    map id | id in saved :: Reloaded(saved[id], FilesAt(disk, id))
  }

  /**
   Of a job whose record says its shards were being baked, a shard accepted before with a fragment still
   is exactly where the record says so or the fragment is there; and it is there, unless the job's
   fragments had begun to be removed.
   */
  ghost predicate KeepsAccepted(saved: map<JobId, Record>, disk: map<JobId, Files>, cleared: set<JobId>,
                                before: map<JobId, Record>, after: map<JobId, Record>) {
    forall id, i: nat ::
      id in saved && id in before && saved[id].shards != [] && WasAccepted(before[id], i) &&
      (saved[id].phase.Running? || saved[id].phase.Stalled? || saved[id].phase.Cancelled?) ==>
        && id in after && i < |after[id].shards| && i < |saved[id].shards|
        && (WasAccepted(after[id], i) <==> saved[id].shards[i].state.Done? || i in FilesAt(disk, id))
        && (i in FilesAt(disk, id) ==> Checked(after[id].shards[i].shard, FilesAt(disk, id)[i]))
        && (id !in cleared ==> i in FilesAt(disk, id))
  }

  ghost predicate WasAccepted(job: Record, i: nat) {
    i < |job.shards| && job.shards[i].state.Done? && job.shards[i].fragment
  }

  ghost predicate HasLeases(lots: seq<Lot>) {
    forall i :: 0 <= i < |lots| ==> (lots[i].state.Leased? <==> lots[i].lease.Some?)
  }

  lemma SavedPointBack(c: DistributedBakes)
    requires c.Valid()
    ensures forall id :: id in c.saved ==>
            LeasesBack(id, c.saved[id].shards, c.granted) && HasLeases(c.saved[id].shards)
  {
    forall id | id in c.saved
      ensures LeasesBack(id, c.saved[id].shards, c.granted) && HasLeases(c.saved[id].shards)
    {
      var l := c.State();
      NotesAre(l, c.maxAttempts);
      NoteIsAJob(l, id, c.saved[id], c.maxAttempts);
      JobHas(id, c.saved[id], l.FilesOf(id), l.granted, l.granted, l.commissions[id], l.honest, c.maxAttempts, l.past);
      hide Kept, NoteKept, JobKept, Stowed, IsPlanOf, HonestLots, HonestFiles, LeasesBack, PhaseHolds;
      var lots := c.saved[id].shards;
      forall i | 0 <= i < |lots|
        ensures lots[i].state.Leased? <==> lots[i].lease.Some?
      {
        assert Fits(lots[i], c.maxAttempts, c.past.stops);
      }
    }
  }

  /** The leases a record names are registered again. */
  method RegisterLeases(id: JobId, lots: seq<Lot>, before: map<LeaseId, Ref>, ghost granted: map<LeaseId, Ref>)
    returns (leases: map<LeaseId, Ref>)
    requires LeasesBack(id, lots, granted) && HasLeases(lots) && Submap(before, granted)
    ensures Submap(leases, granted) && Submap(before, leases) && LeasesBack(id, lots, leases)
  {
    leases := before;
    for i := 0 to |lots|
      invariant Submap(leases, granted) && Submap(before, leases)
      invariant forall k :: 0 <= k < i ==> PointsBack(id, k, lots[k], leases)
    {
      assert PointsBack(id, i, lots[i], granted);
      if lots[i].state.Leased? {
        leases := leases[lots[i].lease.value.id := Ref(id, i, lots[i].lease.value.worker)];
      }
    }
  }

  /** Shards whose fragments are on disk are done, whatever the record says. */
  method RecoverFragments(lots: seq<Lot>, files: Files) returns (r: seq<Lot>)
    ensures r == RecoveredLots(lots, files)
  {
    r := [];
    for i := 0 to |lots|
      invariant |r| == i && forall k :: 0 <= k < i ==> r[k] == RecoveredLot(lots[k], k, files)
    {
      var e := lots[i];
      if !e.state.Done? && i in files {
        var fits := CheckFragment(files[i], e.shard);
        if fits {
          e := e.(state := Done, fragment := true, lease := None);
        }
      }
      r := r + [e];
    }
  }

  method LoadJob(saved: Record, files: Files) returns (r: Record)
    ensures r == Reloaded(saved, files)
  {
    if Recoverable(saved.phase) {
      var lots := RecoverFragments(saved.shards, files);
      r := MaybeFinish(saved.(shards := lots));
    } else if saved.phase.Importing? {
      r := saved.(phase := Assembling);
    } else {
      r := saved;
    }
  }

  /** What loading has come to, with some records still to be read. */
  ghost predicate LoadedSoFar(saved: map<JobId, Record>, disk: map<JobId, Files>, todo: set<JobId>,
                              jobs: map<JobId, Record>, leases: map<LeaseId, Ref>, order: seq<JobId>)
  {
    && todo <= saved.Keys && jobs.Keys == saved.Keys - todo
    && (forall id :: id in jobs ==> jobs[id] == Reloaded(saved[id], FilesAt(disk, id)))
    && (forall id :: id in jobs ==> LeasesBack(id, saved[id].shards, leases))
    && Lists(order, jobs)
  }

  lemma LoadedOneMore(saved: map<JobId, Record>, disk: map<JobId, Files>, todo: set<JobId>,
                      jobs: map<JobId, Record>, leases: map<LeaseId, Ref>, order: seq<JobId>, id: JobId,
                        leases': map<LeaseId, Ref>)
    requires LoadedSoFar(saved, disk, todo, jobs, leases, order) && id in todo
    requires Submap(leases, leases') && LeasesBack(id, saved[id].shards, leases')
    ensures LoadedSoFar(saved, disk, todo - {id}, jobs[id := Reloaded(saved[id], FilesAt(disk, id))], leases',
                        order + [id])
  {
    ListsStill(order, jobs, id, Reloaded(saved[id], FilesAt(disk, id)));
    hide Reloaded, Lists, LeasesBack;
    forall o | o in jobs
      ensures LeasesBack(o, saved[o].shards, leases')
    {
      PointingBackStays(o, saved[o].shards, leases, leases');
    }
  }

  method LoadJobs(saved: map<JobId, Record>, disk: map<JobId, Files>, ghost granted: map<LeaseId, Ref>)
    returns (jobs: map<JobId, Record>, leases: map<LeaseId, Ref>, order: seq<JobId>)
    requires forall id :: id in saved ==> LeasesBack(id, saved[id].shards, granted) && HasLeases(saved[id].shards)
    ensures Submap(leases, granted) && LoadedSoFar(saved, disk, {}, jobs, leases, order)
  {
    jobs, leases, order := map[], map[], [];
    var todo := saved.Keys;
    hide Reloaded, LeasesBack, HasLeases;
    while todo != {}
      invariant Submap(leases, granted) && LoadedSoFar(saved, disk, todo, jobs, leases, order)
      decreases |todo|
    {
      var id :| id in todo;
      var left := RegisterLeases(id, saved[id].shards, leases, granted);
      var job := LoadJob(saved[id], FilesAt(disk, id));
      LoadedOneMore(saved, disk, todo, jobs, leases, order, id, left);
      jobs, leases, order, todo := jobs[id := job], left, order + [id], todo - {id};
    }
  }

  lemma LoadedIsKept(c: DistributedBakes, jobs: map<JobId, Record>, leases: map<LeaseId, Ref>, order: seq<JobId>)
    requires c.Valid() && Submap(leases, c.granted) && LoadedSoFar(c.saved, c.disk, {}, jobs, leases, order)
    ensures Kept(c.State().(jobs := jobs, leases := leases, late := {}, dropped := map[]), c.maxAttempts)
    ensures Lists(order, jobs)
    ensures jobs == LoadedJobs(c.saved, c.disk) && jobs == Restarted(c.State(), leases).jobs
  {
    LoadedAre(c, jobs, leases, order);
    hide *;
    StateIs(c);
    RestartedJobs(c.State(), leases, jobs);
    RestartKeeps(c.State(), leases, c.maxAttempts);
  }

  lemma LoadedAre(c: DistributedBakes, jobs: map<JobId, Record>, leases: map<LeaseId, Ref>, order: seq<JobId>)
    requires c.Valid() && LoadedSoFar(c.saved, c.disk, {}, jobs, leases, order)
    ensures Kept(c.State(), c.maxAttempts) && jobs == LoadedJobs(c.saved, c.disk) && Lists(order, jobs)
    ensures jobs.Keys == c.saved.Keys && forall id :: id in c.saved ==>
            jobs[id] == Reloaded(c.saved[id], c.State().FilesOn(id))
    ensures forall id :: id in c.saved ==> LeasesBack(id, c.saved[id].shards, leases)
  {
    hide Kept, Reloaded, Lists, LeasesBack;
    assert jobs.Keys == c.saved.Keys;
    assert forall id :: id in c.saved ==> c.State().FilesOn(id) == FilesAt(c.disk, id);
  }

  lemma StateIs(c: DistributedBakes)
    ensures c.State().saved == c.saved && c.State().granted == c.granted
  {
  }

  lemma NothingIsLost(c: DistributedBakes, jobs: map<JobId, Record>, leases: map<LeaseId, Ref>)
    requires c.Valid() && jobs == Restarted(c.State(), leases).jobs
    ensures KeepsAccepted(c.saved, c.disk, c.cleared, c.jobs, jobs)
  {
    hide Kept, Lists, Restarted, Checked, Reloaded;
    forall id, i: nat | id in c.saved && id in c.jobs && c.saved[id].shards != [] && WasAccepted(c.jobs[id], i) &&
      (c.saved[id].phase.Running? || c.saved[id].phase.Stalled? || c.saved[id].phase.Cancelled?)
      ensures && id in jobs && i < |jobs[id].shards| && i < |c.saved[id].shards|
              && (WasAccepted(jobs[id], i) <==> c.saved[id].shards[i].state.Done? || i in FilesAt(c.disk, id))
              && (i in FilesAt(c.disk, id) ==> Checked(jobs[id].shards[i].shard, FilesAt(c.disk, id)[i]))
              && (id !in c.cleared ==> i in FilesAt(c.disk, id))
    {
      RestartLosesNothing(c.State(), leases, id, i, c.maxAttempts);
      SameFiles(c, leases, id);
    }
  }

  lemma SameFiles(c: DistributedBakes, leases: map<LeaseId, Ref>, id: JobId)
    ensures Restarted(c.State(), leases).FilesOn(id) == FilesAt(c.disk, id)
    ensures c.State().FilesOn(id) == FilesAt(c.disk, id)
  {
    hide Reloaded;
  }

  function CannotDo(cannot: map<WorkerId, set<JobId>>, worker: WorkerId): set<JobId> {
    if worker in cannot then cannot[worker] else {}
  }

  lemma StopPassed(past: History, job: Record)
    ensures PastAfter(past, job, Stop) == past.(stops := past.stops + 1)
  {
  }

  /** A job with a shard given back, the try not counted. */
  method GivenBack(job: Record, i: nat, ghost max: nat) returns (r: Record)
    requires Allowed(job, GiveBack(i))
    ensures r == After(job, GiveBack(i), max) && i < |r.shards| && !r.shards[i].state.Leased?
  {
    var e := job.shards[i];
    var attempts := if e.attempts > 0 then e.attempts - 1 else 0;
    r := job.(shards := job.shards[i := e.(attempts := attempts).Released(Pending)]);
  }

  /** A job stopped: every shard that is out is let go. */
  method StoppedJob(job: Record, ghost max: nat) returns (r: Record)
    requires !job.finished
    ensures Allowed(job, Stop) && r == After(job, Stop, max)
  {
    var shards := job.shards;
    for i := 0 to |shards|
      invariant |shards| == |job.shards| && shards[i..] == job.shards[i..]
      invariant forall k :: 0 <= k < i ==>
                shards[k] == if job.shards[k].state.Leased? then job.shards[k].Released(Pending) else job.shards[k]
    {
      assert shards[i] == shards[i..][0] && job.shards[i] == job.shards[i..][0];
      if shards[i].state.Leased? {
        shards := shards[i := shards[i].Released(Pending)];
      }
    }
    assert shards == StoppedShards(job.shards);
    r := job.(phase := Cancelled, finished := true, shards := shards);
  }

  /** A job tried again, from planning where it has no shards yet. */
  method TriedAgain(job: Record, ghost max: nat) returns (r: Record)
    requires !job.phase.Finished? && !job.phase.Planning? && !job.phase.Assembling?
    ensures var step := if job.shards == [] then Replan else Retry; Allowed(job, step) && r == After(job, step, max)
  {
    var shards := job.shards;
    for i := 0 to |shards|
      invariant |shards| == |job.shards| && shards[i..] == job.shards[i..]
      invariant forall k :: 0 <= k < i ==>
                  shards[k] ==
                  if job.shards[k].state.GivenUp? then job.shards[k].(state := Pending, attempts := 0)
                  else job.shards[k]
    {
      assert shards[i] == shards[i..][0] && job.shards[i] == job.shards[i..][0];
      if shards[i].state.GivenUp? {
        shards := shards[i := shards[i].(state := Pending, attempts := 0)];
      }
    }
    assert shards == RetriedShards(job.shards);
    if |shards| == 0 {
      return job.(phase := Planning, finished := false);
    }
    r := MaybeFinish(job.(phase := Running, finished := false, shards := shards));
  }

  /** Where a worker has a shard on a lease, forgetting that lease is safe once it does not. */
  lemma ForgetsItsLease(l: Ledger, id: JobId, i: nat, lots: seq<Lot>, lease: LeaseId)
    requires lease in l.leases && l.leases[lease].job == id && l.leases[lease].index == i && i < |lots| &&
             !lots[i].state.Leased?
    ensures OnlyForgets(l, id, lots, l.leases - {lease})
  {
  }

  /** A job once its shards are known: waiting for workers, or failed where there are none. */
  function PlannedOrFailed(job: Record, shards: seq<Shard>): Record {
    if |shards| == 0 then job.(phase := Failed, finished := true) else Planned(job, shards)
  }

  lemma CommissionIsValid(c: DistributedBakes, id: JobId)
    requires c.Valid() && id in c.jobs
    ensures id in c.commissions && c.commissions[id].job.Valid() && Climbs(Union.IdsIn(c.commissions[id].stream))
  {
    KeptParts(c.State(), id, c.maxAttempts);
  }

  /** What the planner cut is a plan of the commission. */
  lemma MadeAPlan(c: Commission, shards: seq<Shard>, pieces: seq<seq<Union.Held>>)
    requires Climbs(Union.IdsIn(c.stream))
    requires Flat(pieces) == Picked(c.job, c.stream) && Cuts(shards, pieces) && Fair(pieces, ShareOf(c.tilesPerShard))
    requires shards != [] ==> shards[|shards| - 1].to == LastId(Picked(c.job, c.stream)) + 1
    ensures IsPlanOf(c, shards) && (shards == [] <==> c.PickedTiles() == [])
  {
    PickedClimbs(c.job, c.stream);
    assert IsPlan(shards, pieces, c.PickedTiles());
    SomethingPlanned(shards, pieces, c.PickedTiles());
  }

  /** Failing before there are any shards is no late failure. */
  lemma BrokenIs(l: Ledger, id: JobId, max: nat)
    requires id in l.jobs && l.jobs[id].phase.Planning? && l.jobs[id].shards == []
    ensures Allowed(l.jobs[id], Break)
    ensures l.(jobs := l.jobs[id := After(l.jobs[id], Break, max)], leases := l.leases,
               past := PastAfter(l.past, l.jobs[id], Break)) ==
            WithJob(l, id, l.jobs[id].(phase := Failed, finished := true))
  {
    assert PastAfter(l.past, l.jobs[id], Break) == l.past;
  }

  lemma BreakKeeps(l: Ledger, id: JobId, max: nat)
    requires Kept(l, max) && id in l.jobs && l.jobs[id].phase.Planning?
    ensures Kept(WithJob(l, id, l.jobs[id].(phase := Failed, finished := true)), max)
  {
    hide *;
    PlanningHasNone(l, id, max);
    BrokenIs(l, id, max);
    ForgetsNothing(l, id, After(l.jobs[id], Break, max).shards);
    QuietStepKeeps(l, id, Break, l.leases, max);
    SteppedIs(l, id, Break, l.leases, max);
  }

  lemma SomethingPlanned(shards: seq<Shard>, pieces: seq<seq<Union.Held>>, picked: seq<Union.Held>)
    requires IsPlan(shards, pieces, picked)
    ensures shards == [] <==> picked == []
  {
    if shards != [] {
      ShardEnds(shards, pieces, picked, 0);
    }
  }

  lemma ForgetsNothing(l: Ledger, id: JobId, lots: seq<Lot>)
    ensures OnlyForgets(l, id, lots, l.leases)
  {
  }

  /**
   Every shard that is out is out on one lease, on which nothing else is out;
   its job is running, or its background work failed late; and the lease is
   registered and points back at it, unless it was dropped.
   */
  lemma LeaseSafety(c: DistributedBakes, id: JobId, i: nat)
    requires c.Valid() && id in c.jobs && i < |c.jobs[id].shards| && c.jobs[id].shards[i].state.Leased?
    ensures var e := c.jobs[id].shards[i];
            && (c.jobs[id].phase.Running? || (c.jobs[id].phase.Failed? && c.past.late)) && e.lease.Some?
            && (e.lease.value.id !in c.dropped ==>
                e.lease.value.id in c.leases && c.leases[e.lease.value.id] == Ref(id, i, e.lease.value.worker))
            && (e.lease.value.id in c.dropped ==> c.past.late)
            && forall o, j: nat :: IsLentOn(c.jobs, e.lease.value.id, o, j) ==> o == id && j == i
  {
    var l, e := c.State(), c.jobs[id].shards[i];
    KeptParts(l, id, c.maxAttempts);
    assert Fits(e, c.maxAttempts, c.past.stops) && AnyLent(c.jobs[id].shards) && PointsBack(id, i, e, l.Known());
    assert c.jobs[id].phase.Running? || (c.jobs[id].phase.Failed? && c.past.late);
    assert IsLentOn(c.jobs, e.lease.value.id, id, i);
    assert e.lease.value.id in c.dropped ==> c.past.late;
    hide Kept, Lists, IsLentOn, KeptJob, JobKept, SavedKept, Sound, LeasesAgree;
    forall o, j: nat | IsLentOn(c.jobs, e.lease.value.id, o, j)
      ensures o == id && j == i
    {
      OneShardALease(l, c.maxAttempts, e.lease.value.id, id, i, o, j);
    }
  }

  /**
   A running job has a shard waiting or out; one being put together or further has them all; and no
   shard is tried more often than it may be, but for once each time a job was stopped.
   */
  lemma PhaseSafety(c: DistributedBakes, id: JobId)
    requires c.Valid() && id in c.jobs
    ensures c.jobs[id].phase.Running? ==> c.jobs[id].AnyOpen()
    ensures c.jobs[id].phase.Assembling? || c.jobs[id].phase.Importing? || c.jobs[id].phase.Finished? ==>
            c.jobs[id].shards != [] && c.jobs[id].AllDone()
    ensures forall i :: 0 <= i < |c.jobs[id].shards| ==> c.jobs[id].shards[i].attempts <= c.maxAttempts + c.past.stops
  {
    KeptParts(c.State(), id, c.maxAttempts);
    hide Record.AnyOpen, Record.AllDone;
    forall i | 0 <= i < |c.jobs[id].shards|
      ensures c.jobs[id].shards[i].attempts <= c.maxAttempts + c.past.stops
    {
      assert Fits(c.jobs[id].shards[i], c.maxAttempts, c.past.stops);
    }
  }
}
