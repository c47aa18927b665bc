/** Whatever is asked of a coordinator, in whatever order. */
module Service {
  import opened Archive
  import opened Assemble
  import opened Bake
  import opened Books
  import opened Coverage
  import opened Distributed
  import opened Leasing
  import opened Plan
  import opened Requests
  import opened Restarts
  import opened Steps

  /** Every job there was is still there, and every shard that was done still is. */
  ghost predicate AllStayDone(before: map<JobId, Record>, after: map<JobId, Record>) {
    forall id :: id in before ==>
      id in after && (before[id].shards != [] ==> StaysDone(before[id].shards, after[id].shards))
  }

  lemma {:induction false} StayDoneOnAndOn(a: map<JobId, Record>, b: map<JobId, Record>, c: map<JobId, Record>)
    requires AllStayDone(a, b) && AllStayDone(b, c)
    ensures AllStayDone(a, c)
  {
    forall id | id in a
      ensures id in c && (a[id].shards != [] ==> StaysDone(a[id].shards, c[id].shards))
    {
      if a[id].shards != [] {
        StaysDoneOnAndOn(a[id].shards, b[id].shards, c[id].shards);
      }
    }
  }

  lemma StepStaysDone(jobs: map<JobId, Record>, id: JobId, step: Step, max: nat)
    ensures AllStayDone(jobs, AfterAt(jobs, id, step, max))
  {
    if id in jobs && Allowed(jobs[id], step) {
      StepKeepsDone(jobs[id], step, max);
    }
    hide After, Allowed;
  }

  lemma SweepStaysDone(jobs: map<JobId, Record>, now: int, max: nat)
    ensures AllStayDone(jobs, SweptJobs(jobs, now, max))
  {
    forall id | id in jobs
      ensures StaysDone(jobs[id].shards, SweptJobs(jobs, now, max)[id].shards)
    {
      StepKeepsDone(jobs[id], Step.Sweep(now), max);
    }
  }

  lemma PlanningStaysDone(before: map<JobId, Record>, id: JobId, job: Record)
    requires id in before && before[id].shards == []
    ensures AllStayDone(before, before[id := job])
  {
  }

  lemma PlanningHasNoShards(c: DistributedBakes, id: JobId)
    requires c.Valid() && id in c.jobs && c.jobs[id].phase.Planning?
    ensures c.jobs[id].shards == []
  {
    PlanningHasNone(c.State(), id, c.maxAttempts);
  }

  lemma SameStaysDone(jobs: map<JobId, Record>)
    ensures AllStayDone(jobs, jobs)
  {
  }

  lemma BeginningStaysDone(jobs: map<JobId, Record>, id: JobId, job: Record)
    requires id !in jobs
    ensures AllStayDone(jobs, jobs[id := job])
  {
  }

  function TriesOf(jobs: map<JobId, Record>, id: JobId): nat {
    if id in jobs then Tries(jobs[id].shards) else 0
  }

  /** The leases ever granted of a job's shards. */
  function LeasesOf(granted: map<LeaseId, Ref>, id: JobId): set<LeaseId> {
    set k | k in granted && granted[k].job == id
  }

  /** Every lease granted is one more try, and there are no others. */
  ghost predicate MoveTogether(jobs: map<JobId, Record>, jobs': map<JobId, Record>, granted: map<LeaseId, Ref>,
                               granted': map<LeaseId, Ref>) {
    forall id :: TriesOf(jobs', id) - TriesOf(jobs, id) == |LeasesOf(granted', id)| - |LeasesOf(granted, id)|
  }

  lemma OnAndOnTogether(a: map<JobId, Record>, b: map<JobId, Record>, c: map<JobId, Record>,
                        g: map<LeaseId, Ref>, h: map<LeaseId, Ref>, k: map<LeaseId, Ref>)
    requires MoveTogether(a, b, g, h) && MoveTogether(b, c, h, k)
    ensures MoveTogether(a, c, g, k)
  {
    hide TriesOf, LeasesOf;
  }

  lemma StepsTogether(jobs: map<JobId, Record>, id: JobId, step: Step, max: nat, granted: map<LeaseId, Ref>)
    requires !step.Grant? && !step.Stop? && !step.Retry? && !step.GiveBack?
    ensures MoveTogether(jobs, AfterAt(jobs, id, step, max), granted, granted)
  {
    if id in jobs && Allowed(jobs[id], step) {
      StepTries(jobs[id], step, max);
    }
    hide After, Allowed, LeasesOf, Tries;
  }

  lemma SweepsTogether(jobs: map<JobId, Record>, now: int, max: nat, granted: map<LeaseId, Ref>)
    ensures MoveTogether(jobs, SweptJobs(jobs, now, max), granted, granted)
  {
    forall id | id in jobs
      ensures Tries(SweptJobs(jobs, now, max)[id].shards) == Tries(jobs[id].shards)
    {
      StepTries(jobs[id], Step.Sweep(now), max);
    }
    hide Record.Swept, LeasesOf, Tries;
  }

  lemma OneLeaseMore(granted: map<LeaseId, Ref>, k: LeaseId, r: Ref, id: JobId)
    requires k !in granted
    ensures |LeasesOf(granted[k := r], id)| == |LeasesOf(granted, id)| + if r.job == id then 1 else 0
  {
    if r.job == id {
      assert LeasesOf(granted[k := r], id) == LeasesOf(granted, id) + {k};
    } else {
      assert LeasesOf(granted[k := r], id) == LeasesOf(granted, id);
    }
  }

  lemma LendsTogether(jobs: map<JobId, Record>, id: JobId, i: nat, lease: Lease, max: nat, granted: map<LeaseId, Ref>)
    requires id in jobs && Allowed(jobs[id], Grant(i, lease)) && lease.id !in granted
    ensures MoveTogether(jobs, AfterAt(jobs, id, Grant(i, lease), max), granted,
                         granted[lease.id := Ref(id, i, lease.worker)])
  {
    StepTries(jobs[id], Grant(i, lease), max);
    hide After, Allowed, LeasesOf, Tries;
    forall o
      ensures TriesOf(AfterAt(jobs, id, Grant(i, lease), max), o) - TriesOf(jobs, o) ==
              |LeasesOf(granted[lease.id := Ref(id, i, lease.worker)], o)| - |LeasesOf(granted, o)|
    {
      OneLeaseMore(granted, lease.id, Ref(id, i, lease.worker), o);
    }
  }

  lemma {:induction false} UntriedTries(lots: seq<Lot>)
    requires forall i :: 0 <= i < |lots| ==> lots[i].attempts == 0
    ensures Tries(lots) == 0
  {
    if lots != [] {
      UntriedTries(lots[..|lots| - 1]);
    }
  }

  lemma PlansTogether(jobs: map<JobId, Record>, id: JobId, job: Record, granted: map<LeaseId, Ref>)
    requires TriesOf(jobs, id) == 0 && forall i :: 0 <= i < |job.shards| ==> job.shards[i].attempts == 0
    ensures MoveTogether(jobs, jobs[id := job], granted, granted)
  {
    UntriedTries(job.shards);
    hide LeasesOf, Tries;
  }

  /**
   What a run of requests is judged by: the jobs, the leases granted, what is to be baked, whether every
   fragment taken was honest, and the jobs whose fragments have begun to be removed.
   */
  datatype Standing = Standing(jobs: map<JobId, Record>, granted: map<LeaseId, Ref>,
                               commissions: map<JobId, Commission>, honest: bool, cleared: set<JobId>)

  ghost function StandingOf(c: DistributedBakes): Standing
    reads c
  {
    Standing(c.jobs, c.granted, c.commissions, c.honest, c.cleared)
  }

  /** What is delivered on a lease is what the bake of the shard it was granted for writes. */
  ghost predicate HonestFor(lease: LeaseId, file: Option<Upload>, granted: map<LeaseId, Ref>,
                            commissions: map<JobId, Commission>) {
    lease in granted && granted[lease].job in commissions ==>
      forall shards :: IsPlanOf(commissions[granted[lease].job], shards) && granted[lease].index < |shards| ==>
        IsHonest(commissions[granted[lease].job], shards[granted[lease].index], file)
  }

  ghost predicate HonestRequest(r: Request, granted: map<LeaseId, Ref>, commissions: map<JobId, Commission>) {
    r.Deliver? ==> HonestFor(r.lease, r.file, granted, commissions)
  }

  lemma HonestBefore(r: Request, a: Standing, b: Standing)
    requires Submap(a.granted, b.granted) && Submap(a.commissions, b.commissions) &&
             HonestRequest(r, b.granted, b.commissions)
    ensures HonestRequest(r, a.granted, a.commissions)
  {
    hide IsPlanOf, IsHonest;
  }

  /** What serving a request may do. */
  ghost predicate Served(r: Request, a: Standing, b: Standing) {
    && Submap(a.granted, b.granted) && Submap(a.commissions, b.commissions) && (b.honest ==> a.honest)
    && a.cleared <= b.cleared <= a.cleared + Clears(r)
    && (a.honest && HonestRequest(r, b.granted, b.commissions) ==> b.honest)
    && (NothingThrownAway(r) ==> AllStayDone(a.jobs, b.jobs))
    && (Unattending(r) ==> MoveTogether(a.jobs, b.jobs, a.granted, b.granted))
  }

  lemma NothingServed(r: Request, a: Standing)
    ensures Served(r, a, a)
  {
    SameStaysDone(a.jobs);
    hide TriesOf, LeasesOf, HonestRequest;
  }

  /** A step of one job, which lends nothing. */
  lemma StepServed(r: Request, a: Standing, id: JobId, step: Step, max: nat)
    requires !step.Grant? && (Unattending(r) ==> !step.Stop? && !step.Retry? && !step.GiveBack?)
    ensures Served(r, a, a.(jobs := AfterAt(a.jobs, id, step, max)))
  {
    StepStaysDone(a.jobs, id, step, max);
    if Unattending(r) {
      StepsTogether(a.jobs, id, step, max, a.granted);
    }
    hide AllStayDone, MoveTogether, AfterAt, HonestRequest;
  }

  lemma LentServed(r: Request, a: Standing, id: JobId, i: nat, lease: Lease, now: int, max: nat)
    requires var swept := SweptJobs(a.jobs, now, max);
             id in swept && Allowed(swept[id], Grant(i, lease)) && lease.id !in a.granted
    ensures Served(r, a, a.(jobs := AfterAt(SweptJobs(a.jobs, now, max), id, Grant(i, lease), max),
                            granted := a.granted[lease.id := Ref(id, i, lease.worker)]))
  {
    var swept, granted := SweptJobs(a.jobs, now, max), a.granted[lease.id := Ref(id, i, lease.worker)];
    hide AllStayDone, MoveTogether, AfterAt, SweptJobs, HonestRequest, Allowed;
    SweepStaysDone(a.jobs, now, max);
    StepStaysDone(swept, id, Grant(i, lease), max);
    StayDoneOnAndOn(a.jobs, swept, AfterAt(swept, id, Grant(i, lease), max));
    SweepsTogether(a.jobs, now, max, a.granted);
    LendsTogether(swept, id, i, lease, max, a.granted);
    OnAndOnTogether(a.jobs, swept, AfterAt(swept, id, Grant(i, lease), max), a.granted, a.granted, granted);
  }

  lemma SweptServed(r: Request, a: Standing, now: int, max: nat)
    ensures Served(r, a, a.(jobs := SweptJobs(a.jobs, now, max)))
  {
    SweepStaysDone(a.jobs, now, max);
    SweepsTogether(a.jobs, now, max, a.granted);
    hide AllStayDone, MoveTogether, SweptJobs, HonestRequest;
  }

  lemma BegunServed(r: Request, a: Standing, id: JobId, c: Commission)
    requires id !in a.jobs && id !in a.commissions
    ensures var job := Asked(c.createdAt, c.remote);
            Served(r, a, a.(jobs := a.jobs[id := job], commissions := a.commissions[id := c]))
  {
    BeginningStaysDone(a.jobs, id, Asked(c.createdAt, c.remote));
    PlansTogether(a.jobs, id, Asked(c.createdAt, c.remote), a.granted);
    hide AllStayDone, MoveTogether, HonestRequest;
  }

  lemma PlannedServed(r: Request, a: Standing, id: JobId, shards: seq<Shard>)
    requires id in a.jobs && a.jobs[id].shards == []
    ensures Served(r, a, a.(jobs := a.jobs[id := PlannedOrFailed(a.jobs[id], shards)]))
  {
    PlanningStaysDone(a.jobs, id, PlannedOrFailed(a.jobs[id], shards));
    PlansTogether(a.jobs, id, PlannedOrFailed(a.jobs[id], shards), a.granted);
    hide AllStayDone, MoveTogether, HonestRequest, PlannedOrFailed;
  }

  /** A fragment taken is honest if its delivery is. */
  lemma HonestDeliveryIs(c: DistributedBakes, lease: LeaseId, file: Option<Upload>)
    requires c.Valid() && WantedAt(c.jobs, c.leases, lease).Some? && HonestFor(lease, file, c.granted, c.commissions)
    ensures HonestAt(c.commissions, c.jobs, WantedAt(c.jobs, c.leases, lease).value, file)
  {
    var l, at := c.State(), WantedAt(c.jobs, c.leases, lease).value;
    KeptParts(l, at.job, c.maxAttempts);
    JobHas(at.job, l.jobs[at.job], l.FilesOf(at.job), l.Known(), l.granted, l.commissions[at.job], l.honest,
           c.maxAttempts, l.past);
    hide Kept, KeptJob, JobKept, SavedKept, Sound, IsPlanOf, IsHonest, LeasesBack, Stowed, HonestLots, HonestFiles;
    assert c.granted[lease] == at;
    var shards := Spans(c.jobs[at.job].shards);
    assert shards[at.index] == c.jobs[at.job].shards[at.index].shard;
  }

  lemma DeliveryServed(r: Request, a: Standing, jobs: map<JobId, Record>, honest: bool)
    requires AllStayDone(a.jobs, jobs) && MoveTogether(a.jobs, jobs, a.granted, a.granted)
    requires (honest ==> a.honest) && (a.honest && HonestRequest(r, a.granted, a.commissions) ==> honest)
    ensures Served(r, a, a.(jobs := jobs, honest := honest))
  {
    hide AllStayDone, MoveTogether, HonestRequest;
  }

  /**
   Refused only where there is nothing to bake or a fragment is missing, and otherwise an archive that
   answers as one uninterrupted bake of it all does; the one it writes, where nothing is torn.
   */
  ghost predicate IsRight(c: Commission, r: Assembly) {
    && (r.Assembled? <==> Baked(c.job, c.job.ids) != [] && r != Refused(Missing))
    && (r.Assembled? ==> IsResultOf(c, r))
  }

  /** And nothing is missing, unless the job's fragments have begun to be removed. */
  ghost predicate IsMadeRight(made: Made, commissions: map<JobId, Commission>, cleared: set<JobId>) {
    && made.id in commissions && IsRight(commissions[made.id], made.assembly)
    && (made.assembly == Refused(Missing) ==> made.id in cleared)
  }

  ghost predicate MadeRight(made: Option<Made>, commissions: map<JobId, Commission>, cleared: set<JobId>) {
    made.Some? ==> IsMadeRight(made.value, commissions, cleared)
  }

  ghost predicate AllRight(made: seq<Made>, commissions: map<JobId, Commission>, cleared: set<JobId>) {
    forall k :: 0 <= k < |made| ==> IsMadeRight(made[k], commissions, cleared)
  }

  lemma StandingIs(c: DistributedBakes)
    ensures StandingOf(c) == Standing(c.jobs, c.granted, c.commissions, c.honest, c.cleared)
  {
  }

  /** One request is served; everything is kept. */
  method ServeOne(c: DistributedBakes, r: Request) returns (made: Option<Made>, reply: Reply)
    requires c.Valid() && (r.Begin? ==> r.commission.Valid()) && (r.Ask? ==> r.lease !in c.granted)
    modifies c
    ensures c.Valid() && c.past.stops <= old(c.past).stops + if r.Cancel? then 1 else 0
    ensures c.granted.Keys <= old(c.granted).Keys + if r.Ask? then {r.lease} else {}
    ensures Served(r, old(StandingOf(c)), StandingOf(c)) && (c.honest ==> MadeRight(made, c.commissions, c.cleared))
    ensures Answered(r, reply, old(DeskOf(c)), DeskOf(c))
    ensures Does(r, reply, made, old(WorldOf(c)), WorldOf(c), c.maxAttempts, c.leaseSeconds)
  {
    ghost var desk := DeskOf(c);
    Throwing(r, StandingOf(c));
    NoneMade();
    DeskIs(c);
    hide *;
    made, reply := None, Quiet;
    if r.Ask? {
      reply := ServeAsk(c, r);
      return;
    } else if r.Deliver? {
      ServeDelivery(c, r);
    } else if r.Discard? || r.Forgo? || r.Die? {
      ServeEnd(c, r);
    } else if r.Decline? {
      reply := ServeDecline(c, r);
      return;
    } else if r.Beat? || r.Report? || r.Leave? {
      ServeHolder(c, r);
    } else if r.Begin? || r.Plan? {
      ServeBeginning(c, r);
    } else if r.WriteDown? || r.BeginWriting? || r.Land? || r.WorkLate? || r.Erase? || r.Unsave? {
      ServeDisk(c, r);
    } else if r.Cancel? || r.TryAgain? {
      ServeCommand(c, r);
    } else {
      made := ServeJob(c, r);
    }
    DeskIs(c);
    QuietIs(r, desk, DeskOf(c));
  }

  lemma NoneMade()
    ensures forall commissions, cleared :: MadeRight(None, commissions, cleared)
  {
  }

  lemma Throwing(r: Request, a: Standing)
    ensures NothingThrownAway(r) <==> !r.Discard? && !r.Forgo? && !r.Die?
  {
  }

  lemma ThrownServed(r: Request, a: Standing, jobs: map<JobId, Record>, cleared: set<JobId>)
    requires (r.Discard? || r.Forgo? || r.Die?) && a.cleared <= cleared <= a.cleared + Clears(r)
    ensures Served(r, a, a.(jobs := jobs, cleared := cleared))
  {
  }

  lemma ClearsIts(r: Request)
    ensures r.Discard? || r.Forgo? || r.Imported? ==> Clears(r) == {r.id}
  {
  }

  /** A job is thrown away, or the coordinator dies and comes back. */
  method ServeEnd(c: DistributedBakes, r: Request)
    requires c.Valid() && (r.Discard? || r.Forgo? || r.Die?)
    modifies c
    ensures c.Valid() && c.past.stops == old(c.past).stops && c.granted == old(c.granted)
    ensures c.commissions == old(c.commissions) && c.cannot == if r.Die? then map[] else old(c.cannot)
    ensures Served(r, old(StandingOf(c)), StandingOf(c))
    ensures Does(r, Quiet, None, old(WorldOf(c)), WorldOf(c), c.maxAttempts, c.leaseSeconds)
  {
    hide *;
    ghost var was, w := StandingOf(c), WorldOf(c);
    StandingIs(c);
    WorldIs(c);
    ClearsIts(r);
    if r.Discard? {
      var ok := c.Discard(r.id);
      WorldIs(c);
      ForgettingDoes(r, ok, w, WorldOf(c), c.maxAttempts, c.leaseSeconds);
    } else if r.Forgo? {
      var ok := c.Forgo(r.id);
      WorldIs(c);
      ForgettingDoes(r, ok, w, WorldOf(c), c.maxAttempts, c.leaseSeconds);
    } else {
      c.Load();
      WorldIs(c);
      DyingDoes(r, w, WorldOf(c), c.maxAttempts, c.leaseSeconds);
    }
    StandingIs(c);
    ThrownServed(r, was, c.jobs, c.cleared);
  }

  /** A job is begun or planned. */
  method ServeBeginning(c: DistributedBakes, r: Request)
    requires c.Valid() && (r.Begin? || r.Plan?) && (r.Begin? ==> r.commission.Valid())
    modifies c
    ensures c.Valid() && c.past.stops == old(c.past).stops && c.granted == old(c.granted)
    ensures c.cannot == old(c.cannot)
    ensures c.commissions == old(c.commissions) ||
            (r.Begin? && c.commissions == old(c.commissions)[r.id := r.commission])
    ensures Served(r, old(StandingOf(c)), StandingOf(c))
    ensures Does(r, Quiet, None, old(WorldOf(c)), WorldOf(c), c.maxAttempts, c.leaseSeconds)
  {
    hide *;
    ghost var was, w := StandingOf(c), WorldOf(c);
    StandingIs(c);
    WorldIs(c);
    NothingServed(r, was);
    if r.Begin? {
      var ok := false;
      if r.id !in c.commissions && r.id !in c.jobs {
        BegunServed(r, was, r.id, r.commission);
        ok := c.Start(r.id, r.commission);
      }
      WorldIs(c);
      BeginDoes(r, ok, w, WorldOf(c), c.maxAttempts, c.leaseSeconds);
    } else {
      var shards: seq<Shard> := [];
      if r.id in c.jobs {
        PlanningIsBare(c, r.id);
        shards := c.PlanJob(r.id);
        if was.jobs[r.id].phase.Planning? {
          PlannedServed(r, was, r.id, shards);
        }
      }
      WorldIs(c);
      PlanDoes(r, shards, w, WorldOf(c), c.maxAttempts, c.leaseSeconds);
    }
    StandingIs(c);
  }

  /** A record is written down or removed, now or late, and fragments are removed. */
  method ServeDisk(c: DistributedBakes, r: Request)
    requires c.Valid() && (r.WriteDown? || r.BeginWriting? || r.Land? || r.WorkLate? || r.Erase? || r.Unsave?)
    modifies c
    ensures c.Valid() && c.past.stops == old(c.past).stops && c.granted == old(c.granted)
    ensures c.commissions == old(c.commissions) && c.cannot == old(c.cannot)
    ensures Served(r, old(StandingOf(c)), StandingOf(c))
    ensures Does(r, Quiet, None, old(WorldOf(c)), WorldOf(c), c.maxAttempts, c.leaseSeconds)
  {
    hide *;
    ghost var w := WorldOf(c);
    StandingIs(c);
    WorldIs(c);
    WrittenIs(r, w, c.maxAttempts);
    NothingServed(r, StandingOf(c));
    if r.WriteDown? {
      if r.id in c.jobs {
        c.Save(r.id);
      }
    } else if r.BeginWriting? {
      if r.id in c.jobs {
        c.BeginSave(r.id);
      }
    } else if r.Land? {
      if r.note in c.late {
        c.LandSave(r.note);
      }
    } else if r.WorkLate? {
      if CanWorkLate(c.late, c.jobs, r.note, r.step) {
        CanIs(c.late, c.jobs, r.note, r.step);
        c.WorkLate(r.note, r.step);
      }
    } else if r.Erase? {
      if r.id in c.erasing {
        c.Erase(r.id, r.gone);
      }
    } else if r.id !in c.jobs {
      c.Unsave(r.id);
    }
    StandingIs(c);
    WorldIs(c);
  }

  lemma CanIs(late: set<Note>, jobs: map<JobId, Record>, n: Note, step: Step)
    requires CanWorkLate(late, jobs, n, step)
    ensures n in late && n.id !in jobs && Allowed(n.record, step) && !n.record.phase.Running?
    ensures step.Import? || step.Finish? || step.Break?
  {
  }

  lemma PlanningIsBare(c: DistributedBakes, id: JobId)
    requires c.Valid() && id in c.jobs
    ensures c.jobs[id].phase.Planning? ==> c.jobs[id].shards == []
  {
    if c.jobs[id].phase.Planning? {
      PlanningHasNoShards(c, id);
    }
  }

  lemma JobIsCommissioned(c: DistributedBakes, id: JobId)
    requires c.Valid() && id in c.jobs
    ensures id in c.commissions
  {
    KeptParts(c.State(), id, c.maxAttempts);
  }

  /** A job is stopped, or tried again. */
  method ServeCommand(c: DistributedBakes, r: Request)
    requires c.Valid() && (r.Cancel? || r.TryAgain?)
    modifies c
    ensures c.Valid() && c.past.stops <= old(c.past).stops + (if r.Cancel? then 1 else 0) && c.granted == old(c.granted)
    ensures c.commissions == old(c.commissions) && c.cannot == old(c.cannot)
    ensures Served(r, old(StandingOf(c)), StandingOf(c))
    ensures Does(r, Quiet, None, old(WorldOf(c)), WorldOf(c), c.maxAttempts, c.leaseSeconds)
  {
    hide *;
    ghost var was, w := StandingOf(c), WorldOf(c);
    StandingIs(c);
    WorldIs(c);
    NothingServed(r, was);
    Attending(r);
    HandledIs(r, w, c.maxAttempts);
    if r.Cancel? {
      StepServed(r, was, r.id, Step.Stop, c.maxAttempts);
      var ok := c.Cancel(r.id);
    } else {
      StepServed(r, was, r.id, Replan, c.maxAttempts);
      StepServed(r, was, r.id, Retry, c.maxAttempts);
      var ok := c.RetryJob(r.id);
    }
    WorldIs(c);
    StandingIs(c);
  }

  /** A job's finished shards are put together. */
  method ServeAssembly(c: DistributedBakes, r: Request) returns (made: Option<Made>)
    requires c.Valid() && r.PutTogether? && r.id in c.jobs && c.jobs[r.id].shards != [] && c.jobs[r.id].AllDone()
    modifies c`jobs, c`leases, c`past
    ensures c.Valid() && c.past == old(c.past) && Served(r, old(StandingOf(c)), StandingOf(c))
    ensures c.honest ==> MadeRight(made, c.commissions, c.cleared)
    ensures made.Some? && made.value.id == r.id && c.leases == old(c.leases)
    ensures c.jobs ==
            AfterAt(old(c.jobs), r.id, if made.value.assembly.Assembled? then Import else Break, c.maxAttempts)
  {
    hide *;
    ghost var was := StandingOf(c);
    StandingIs(c);
    StepServed(r, was, r.id, Import, c.maxAttempts);
    StepServed(r, was, r.id, Break, c.maxAttempts);
    JobIsCommissioned(c, r.id);
    ghost var all := Intact(c.jobs[r.id].shards, FilesAt(c.disk, r.id));
    var assembly := c.Assemble(r.id, r.deduplicate);
    made := Some(Made(r.id, assembly));
    MadeIs(r.id, assembly, c.commissions, c.cleared, all);
    StandingIs(c);
  }

  /** What a job's background work comes to. */
  method ServeJob(c: DistributedBakes, r: Request) returns (made: Option<Made>)
    requires c.Valid() && (r.PutTogether? || r.Imported? || r.Broken?)
    modifies c
    ensures c.Valid() && c.past.stops <= old(c.past).stops && c.granted == old(c.granted)
    ensures c.commissions == old(c.commissions) && c.cannot == old(c.cannot)
    ensures Served(r, old(StandingOf(c)), StandingOf(c)) && (c.honest ==> MadeRight(made, c.commissions, c.cleared))
    ensures Does(r, Quiet, made, old(WorldOf(c)), WorldOf(c), c.maxAttempts, c.leaseSeconds)
  {
    hide *;
    ghost var was, w := StandingOf(c), WorldOf(c);
    StandingIs(c);
    WorldIs(c);
    NothingServed(r, was);
    NoneMade();
    Attending(r);
    made := None;
    if r.id in c.jobs {
      if r.Broken? {
        BreakingIsNoStop(c.past, c.jobs, r.id);
        StepServed(r, was, r.id, Break, c.maxAttempts);
        c.GoOn(r.id, Break);
      } else if c.jobs[r.id].shards != [] && c.jobs[r.id].AllDone() {
        if r.PutTogether? {
          made := ServeAssembly(c, r);
        } else {
          FinishServed(r, was, c.maxAttempts);
          c.Finish(r.id);
        }
      }
    }
    StandingIs(c);
    WorldIs(c);
    WorkDoes(r, made, w, WorldOf(c), c.maxAttempts, c.leaseSeconds);
  }

  lemma FinishServed(r: Request, a: Standing, max: nat)
    requires r.Imported?
    ensures Served(r, a, a.(jobs := AfterAt(a.jobs, r.id, Step.Finish, max), cleared := a.cleared + {r.id}))
  {
    StepServed(r, a, r.id, Step.Finish, max);
    ClearsIts(r);
    hide AllStayDone, MoveTogether, AfterAt, HonestRequest;
  }

  lemma Attending(r: Request)
    ensures Unattending(r) ==> !r.Cancel? && !r.TryAgain? && !r.Decline? && !r.Leave?
  {
  }

  lemma MadeIs(id: JobId, assembly: Assembly, commissions: map<JobId, Commission>, cleared: set<JobId>, all: bool)
    requires id in commissions && (assembly == Refused(Missing) <==> !all) && (id !in cleared ==> all)
    ensures MadeRight(Some(Made(id, assembly)), commissions, cleared) <==>
            var job := commissions[id].job;
            && (assembly.Assembled? <==> all && Baked(job, job.ids) != [])
            && (assembly.Assembled? ==> IsResultOf(commissions[id], assembly))
  {
    hide IsResultOf, Baked;
  }

  lemma BreakingIsNoStop(past: History, jobs: map<JobId, Record>, id: JobId)
    ensures PastAt(past, jobs, id, Break).stops == past.stops
  {
    hide AnyLent, Allowed;
  }

  /** Whoever has a shard is at it still, could not do it, or goes. */
  method Hold(c: DistributedBakes, r: Request) returns (ghost at: Option<Ref>, ghost step: Step)
    requires c.Valid() && (r.Beat? || r.Report? || r.Leave?)
    modifies c`jobs, c`leases, c`past
    ensures c.Valid() && c.past == old(c.past)
    ensures Does(r, Quiet, None, old(WorldOf(c)), WorldOf(c), c.maxAttempts, c.leaseSeconds)
    ensures if r.Beat? then step.Renew? else if r.Report? then step.Reject? else step.GiveBack?
    ensures c.jobs == if at.None? then old(c.jobs) else AfterAt(old(c.jobs), at.value.job, step, c.maxAttempts)
  {
    hide *;
    ghost var w := WorldOf(c);
    WorldIs(c);
    at := if r.Leave? then LentAt(c.jobs, c.leases, r.lease) else HolderOf(c.jobs, c.leases, r.lease);
    ghost var i := if at.Some? then at.value.index else 0;
    if r.Beat? {
      var ok := c.Heartbeat(r.lease, r.now);
      step := Renew(i, r.now + c.leaseSeconds * 1000);
    } else if r.Report? {
      var ok, requeued := c.Fail(r.lease);
      step := Reject(i);
    } else {
      var ok := c.HandBack(r.lease);
      step := GiveBack(i);
    }
    WorldIs(c);
    HolderDoes(r, at, step, w, WorldOf(c), c.maxAttempts, c.leaseSeconds);
  }

  /** What only whoever has a shard can ask. */
  method ServeHolder(c: DistributedBakes, r: Request)
    requires c.Valid() && (r.Beat? || r.Report? || r.Leave?)
    modifies c
    ensures c.Valid() && c.past.stops == old(c.past).stops && c.granted == old(c.granted)
    ensures c.commissions == old(c.commissions) && c.cannot == old(c.cannot)
    ensures Served(r, old(StandingOf(c)), StandingOf(c))
    ensures Does(r, Quiet, None, old(WorldOf(c)), WorldOf(c), c.maxAttempts, c.leaseSeconds)
  {
    hide *;
    ghost var was := StandingOf(c);
    StandingIs(c);
    NothingServed(r, was);
    Attending(r);
    ghost var at, step := Hold(c, r);
    if at.Some? {
      StepServed(r, was, at.value.job, step, c.maxAttempts);
    }
    StandingIs(c);
  }

  /** A worker gives its shard back, and is not to be offered the job again. */
  method ServeDecline(c: DistributedBakes, r: Request) returns (reply: Reply)
    requires c.Valid() && r.Decline?
    modifies c
    ensures c.Valid() && c.past.stops == old(c.past).stops && c.granted == old(c.granted)
    ensures Served(r, old(StandingOf(c)), StandingOf(c)) && Answered(r, reply, old(DeskOf(c)), DeskOf(c))
    ensures Does(r, reply, None, old(WorldOf(c)), WorldOf(c), c.maxAttempts, c.leaseSeconds)
  {
    hide *;
    ghost var was, desk, w := StandingOf(c), DeskOf(c), WorldOf(c);
    StandingIs(c);
    DeskIs(c);
    WorldIs(c);
    NothingServed(r, was);
    Attending(r);
    var at := HolderOf(c.jobs, c.leases, r.lease);
    HolderWasGranted(c, r.lease);
    var ok := c.GiveBackShard(r.lease);
    StandingIs(c);
    DeskIs(c);
    WorldIs(c);
    DeclineDoes(r, w, WorldOf(c), c.maxAttempts, c.leaseSeconds);
    if ok {
      StepServed(r, was, at.value.job, GiveBack(at.value.index), c.maxAttempts);
      GivenBackIs(r, at.value, desk, DeskOf(c));
      reply := GivenBack(at.value.worker, at.value.job);
    } else {
      QuietIs(r, desk, DeskOf(c));
      reply := Quiet;
    }
  }

  /** Whoever has a shard was granted it. */
  lemma HolderWasGranted(c: DistributedBakes, lease: LeaseId)
    requires c.Valid()
    ensures var at := HolderOf(c.jobs, c.leases, lease);
            at.Some? ==> lease in c.granted && c.granted[lease] == at.value
  {
    hide KeptJob, AllNoted, DiskAgrees, Lists;
  }

  method AskFor(c: DistributedBakes, r: Request) returns (loan: Option<Loan>)
    requires c.Valid() && r.Ask? && r.lease !in c.granted
    modifies c`jobs, c`leases, c`granted
    ensures c.Valid()
    ensures Does(r, if loan.Some? then Lends(loan.value) else Quiet, None, old(WorldOf(c)), WorldOf(c),
                 c.maxAttempts, c.leaseSeconds)
    ensures loan.None? ==> c.jobs == SweptJobs(old(c.jobs), r.now, c.maxAttempts) && c.granted == old(c.granted)
    ensures loan.Some? ==>
              var was, id, i := SweptJobs(old(c.jobs), r.now, c.maxAttempts), loan.value.job, loan.value.index;
              && loan.value.lease == r.lease && id in was && was[id].phase.Running?
              && i < |was[id].shards| && was[id].shards[i].state.Pending?
              && (r.local || was[id].remote) && (r.only.Some? ==> r.only.value == id)
              && !(r.worker in c.cannot && id in c.cannot[r.worker])
              && c.jobs == AfterAt(was, id, Grant(i, Lease(r.lease, r.worker, r.now + c.leaseSeconds * 1000)),
                                   c.maxAttempts)
              && c.granted == old(c.granted)[r.lease := Ref(id, i, r.worker)]
  {
    hide *;
    ghost var w := WorldOf(c);
    WorldIs(c);
    loan := c.LeaseShard(r.worker, r.only, r.local, r.now, r.lease);
    WorldIs(c);
    if loan.Some? {
      LoanDoes(r, loan.value, w, WorldOf(c), c.maxAttempts, c.leaseSeconds);
    } else {
      NoLoanDoes(r, w, WorldOf(c), c.maxAttempts, c.leaseSeconds);
    }
  }

  method ServeAsk(c: DistributedBakes, r: Request) returns (reply: Reply)
    requires c.Valid() && r.Ask? && r.lease !in c.granted
    modifies c
    ensures c.Valid() && c.past.stops == old(c.past).stops && c.granted.Keys <= old(c.granted).Keys + {r.lease}
    ensures Served(r, old(StandingOf(c)), StandingOf(c)) && Answered(r, reply, old(DeskOf(c)), DeskOf(c))
    ensures Does(r, reply, None, old(WorldOf(c)), WorldOf(c), c.maxAttempts, c.leaseSeconds)
  {
    hide *;
    ghost var was, desk := StandingOf(c), DeskOf(c);
    StandingIs(c);
    DeskIs(c);
    SweptServed(r, was, r.now, c.maxAttempts);
    ghost var swept := SweptJobs(was.jobs, r.now, c.maxAttempts);
    SweptOnItsTerms(c, r.now);
    var loan := AskFor(c, r);
    StandingIs(c);
    DeskIs(c);
    if loan.Some? {
      ghost var lease := Lease(r.lease, r.worker, r.now + c.leaseSeconds * 1000);
      CanBeGranted(swept, loan.value.job, loan.value.index, lease);
      LentServed(r, was, loan.value.job, loan.value.index, lease, r.now, c.maxAttempts);
      LoanIsFor(r, loan.value, c.cannot, c.commissions);
      Requests.LentIs(r, loan.value, desk, DeskOf(c));
      reply := Lends(loan.value);
    } else {
      QuietIs(r, desk, DeskOf(c));
      reply := Quiet;
    }
  }

  lemma SweptOnItsTerms(c: DistributedBakes, now: int)
    requires c.Valid()
    ensures forall id :: id in SweptJobs(c.jobs, now, c.maxAttempts) ==>
              id in c.commissions && SweptJobs(c.jobs, now, c.maxAttempts)[id].remote == c.commissions[id].remote
  {
    forall id | id in c.jobs
      ensures id in c.commissions && c.jobs[id].Swept(now, c.maxAttempts).remote == c.commissions[id].remote
    {
      TermsHold(c, id);
      StepKeepsTerms(c.jobs[id], Step.Sweep(now), c.maxAttempts);
      hide Kept;
    }
  }

  lemma CanBeGranted(jobs: map<JobId, Record>, id: JobId, i: nat, lease: Lease)
    requires id in jobs && jobs[id].phase.Running? && i < |jobs[id].shards| && jobs[id].shards[i].state.Pending?
    ensures Allowed(jobs[id], Grant(i, lease))
  {
  }

  lemma LoanIsFor(r: Request, loan: Loan, cannot: map<WorkerId, set<JobId>>, commissions: map<JobId, Commission>)
    requires r.Ask? && loan.lease == r.lease && loan.job in commissions
    requires !(r.worker in cannot && loan.job in cannot[r.worker])
    requires (r.only.Some? ==> r.only.value == loan.job) && (r.local || commissions[loan.job].remote)
    ensures IsDue(r, loan, CannotDo(cannot, r.worker), commissions)
  {
  }

  method TakeDelivery(c: DistributedBakes, r: Request) returns (answer: Answer)
    requires c.Valid() && r.Deliver?
    modifies c`jobs, c`leases, c`past, c`disk, c`taken, c`honest, c`dropped
    ensures c.Valid() && c.past == old(c.past)
    ensures Does(r, Quiet, None, old(WorldOf(c)), WorldOf(c), c.maxAttempts, c.leaseSeconds)
    ensures answer.NotWanted? <==> old(WantedAt(c.jobs, c.leases, r.lease)).None?
    ensures answer.NotWanted? ==> c.jobs == old(c.jobs)
    ensures !answer.Accepted? ==> c.honest == old(c.honest)
    ensures !answer.NotWanted? ==>
              var at := old(WantedAt(c.jobs, c.leases, r.lease)).value;
              var step := if answer.Accepted? then Complete(at.index, r.file.Some?) else Reject(at.index);
              && c.jobs == AfterAt(old(c.jobs), at.job, step, c.maxAttempts)
              && (answer.Accepted? ==>
                  c.honest == (old(c.honest) && HonestAt(c.commissions, old(c.jobs), at, r.file)))
  {
    hide *;
    ghost var w := WorldOf(c);
    WorldIs(c);
    answer := c.CompleteShard(r.lease, r.file);
    WorldIs(c);
    DeliveryDoes(r, answer, w, WorldOf(c), c.maxAttempts, c.leaseSeconds);
  }

  method ServeDelivery(c: DistributedBakes, r: Request)
    requires c.Valid() && r.Deliver?
    modifies c
    ensures c.Valid() && c.past.stops == old(c.past).stops && c.granted == old(c.granted)
    ensures c.commissions == old(c.commissions) && c.cannot == old(c.cannot)
    ensures Served(r, old(StandingOf(c)), StandingOf(c))
    ensures Does(r, Quiet, None, old(WorldOf(c)), WorldOf(c), c.maxAttempts, c.leaseSeconds)
  {
    hide *;
    ghost var was := StandingOf(c);
    StandingIs(c);
    var at := WantedAt(c.jobs, c.leases, r.lease);
    SameStaysDone(was.jobs);
    NothingMoves(was.jobs, was.granted);
    HonestRequestIs(r, was);
    ghost var honest := at.Some? && HonestFor(r.lease, r.file, c.granted, c.commissions);
    if honest {
      HonestDeliveryIs(c, r.lease, r.file);
    }
    var answer := TakeDelivery(c, r);
    if at.Some? {
      ghost var step := if answer.Accepted? then Complete(at.value.index, r.file.Some?) else Reject(at.value.index);
      StepStaysDone(was.jobs, at.value.job, step, c.maxAttempts);
      StepsTogether(was.jobs, at.value.job, step, c.maxAttempts, was.granted);
    }
    DeliveryServed(r, was, c.jobs, c.honest);
    StandingIs(c);
  }

  lemma NothingMoves(jobs: map<JobId, Record>, granted: map<LeaseId, Ref>)
    ensures MoveTogether(jobs, jobs, granted, granted)
  {
    hide TriesOf, LeasesOf;
  }

  lemma HonestRequestIs(r: Request, a: Standing)
    requires r.Deliver?
    ensures HonestRequest(r, a.granted, a.commissions) <==> HonestFor(r.lease, r.file, a.granted, a.commissions)
  {
    hide HonestFor;
  }

  /** What serving some requests may have done. */
  ghost predicate ServedAll(requests: seq<Request>, a: Standing, b: Standing) {
    && Submap(a.granted, b.granted) && Submap(a.commissions, b.commissions) && (b.honest ==> a.honest)
    && a.cleared <= b.cleared && (forall id :: id in b.cleared ==> id in a.cleared || IsCleared(requests, id))
    && (a.honest && (forall k :: 0 <= k < |requests| ==> HonestRequest(requests[k], b.granted, b.commissions)) ==>
        b.honest)
    && ((forall k :: 0 <= k < |requests| ==> NothingThrownAway(requests[k])) ==> AllStayDone(a.jobs, b.jobs))
    && ((forall k :: 0 <= k < |requests| ==> Unattending(requests[k])) ==>
        MoveTogether(a.jobs, b.jobs, a.granted, b.granted))
  }

  lemma SubmapOnAndOn<K, V>(a: map<K, V>, b: map<K, V>, c: map<K, V>)
    requires Submap(a, b) && Submap(b, c)
    ensures Submap(a, c)
  {
  }

  lemma ServedOneMore(requests: seq<Request>, n: nat, a: Standing, b: Standing, d: Standing)
    requires n < |requests| && ServedAll(requests[..n], a, b) && Served(requests[n], b, d)
    ensures ServedAll(requests[..n + 1], a, d)
  {
    hide NothingThrownAway, Unattending, HonestRequest, MoveTogether, AllStayDone, Submap;
    var all := requests[..n + 1];
    assert all[n] == requests[n] && forall k :: 0 <= k < n ==> all[k] == requests[..n][k];
    forall id | id in d.cleared
      ensures id in a.cleared || IsCleared(all, id)
    {
      if id in b.cleared && id !in a.cleared {
        var k :| 0 <= k < n && id in Clears(requests[..n][k]);
        assert id in Clears(all[k]);
      } else if id !in b.cleared {
        assert id in Clears(all[n]);
      }
    }
    SubmapOnAndOn(a.granted, b.granted, d.granted);
    SubmapOnAndOn(a.commissions, b.commissions, d.commissions);
    if forall k :: 0 <= k < |all| ==> HonestRequest(all[k], d.granted, d.commissions) {
      forall k | 0 <= k < n
        ensures HonestRequest(requests[..n][k], b.granted, b.commissions)
      {
        HonestBefore(all[k], b, d);
      }
    }
    if forall k :: 0 <= k < |all| ==> NothingThrownAway(all[k]) {
      StayDoneOnAndOn(a.jobs, b.jobs, d.jobs);
    }
    if forall k :: 0 <= k < |all| ==> Unattending(all[k]) {
      OnAndOnTogether(a.jobs, b.jobs, d.jobs, a.granted, b.granted, d.granted);
    }
  }

  lemma RightOneMore(made: seq<Made>, one: Option<Made>, a: Standing, b: Standing)
    requires AllRight(made, a.commissions, a.cleared) && MadeRight(one, b.commissions, b.cleared)
    requires Submap(a.commissions, b.commissions) && a.cleared <= b.cleared
    ensures AllRight(if one.Some? then made + [one.value] else made, b.commissions, b.cleared)
  {
    hide IsRight;
  }

  lemma ServedOneHas(r: Request, a: Standing, b: Standing)
    requires Served(r, a, b)
    ensures Submap(a.commissions, b.commissions) && (b.honest ==> a.honest) && a.cleared <= b.cleared
  {
  }

  /**
   Over every run of requests, whoever makes them and in whatever order: leases
   and phases stay safe; a shard is tried no more often than it may be but for
   once a job is stopped; unless a job is thrown away or the coordinator dies
   every shard once accepted stays accepted; and if every delivery is honest
   everything put together is what one bake of it all would have written.
   */
  method Serve(c: DistributedBakes, requests: seq<Request>)
    returns (made: seq<Made>, replies: seq<Reply>, ghost worlds: seq<World>, ghost each: seq<Option<Made>>)
    requires c.Valid() && WellFormed(requests, c.granted.Keys)
    modifies c
    ensures c.Valid() && c.past.stops <= old(c.past).stops + Cancels(requests)
    ensures forall id, i :: id in c.jobs && 0 <= i < |c.jobs[id].shards| ==>
              c.jobs[id].shards[i].attempts <= c.maxAttempts + old(c.past).stops + Cancels(requests)
    ensures forall id :: id in c.jobs && c.jobs[id].phase.Running? ==> c.jobs[id].AnyOpen()
    ensures forall id :: id in c.jobs && c.jobs[id].phase.Assembling? ==> c.jobs[id].AllDone()
    ensures ServedAll(requests, old(StandingOf(c)), StandingOf(c))
    ensures c.honest ==> AllRight(made, c.commissions, c.cleared)
    ensures |replies| == |requests| && AllAnswered(requests, replies, |requests|, old(DeskOf(c)), DeskOf(c))
    ensures Runs(requests, replies, each, worlds, c.maxAttempts, c.leaseSeconds) && made == Somes(each)
    ensures worlds[0] == old(WorldOf(c)) && worlds[|requests|] == WorldOf(c)
  {
    ghost var was, before, desk := StandingOf(c), c.granted.Keys, DeskOf(c);
    StartsServing(requests, was, before);
    RunsNowhere(requests, WorldOf(c), c.maxAttempts, c.leaseSeconds);
    hide *;
    made, replies, worlds, each := [], [], [WorldOf(c)], [];
    NothingAnswered(desk);
    NothingMade(c.commissions, c.cleared);
    for n := 0 to |requests|
      invariant c.Valid() && c.past.stops <= old(c.past).stops + Cancels(requests[..n])
      invariant OnlyAsked(requests, n, before, c.granted.Keys)
      invariant ServedAll(requests[..n], was, StandingOf(c))
      invariant c.honest ==> AllRight(made, c.commissions, c.cleared)
      invariant |replies| == n && AllAnswered(requests[..n], replies, n, desk, DeskOf(c))
      invariant Runs(requests[..n], replies, each, worlds, c.maxAttempts, c.leaseSeconds) && made == Somes(each)
      invariant |worlds| == n + 1 && worlds[0] == old(WorldOf(c)) && worlds[n] == WorldOf(c)
    {
      ghost var now, at := StandingOf(c), DeskOf(c);
      StandingIs(c);
      AboutToServe(requests, n, before, c.granted.Keys);
      var one, reply := ServeOne(c, requests[n]);
      AnsweredMore(requests, replies, n, reply, desk, at, DeskOf(c));
      RanOneMore(requests, n, replies, each, worlds, reply, one, WorldOf(c), c.maxAttempts, c.leaseSeconds);
      SomesOneMore(each, one);
      worlds, each := worlds + [WorldOf(c)], each + [one];
      replies := replies + [reply];
      OnlyAskedStill(requests, n, before, now.granted.Keys, c.granted.Keys);
      ServedOneMore(requests, n, was, now, StandingOf(c));
      ServedOneHas(requests[n], now, StandingOf(c));
      StandingIs(c);
      if c.honest {
        RightOneMore(made, one, now, StandingOf(c));
      }
      made := if one.Some? then made + [one.value] else made;
    }
    assert requests[..|requests|] == requests;
    forall id | id in c.jobs
      ensures c.jobs[id].phase.Running? ==> c.jobs[id].AnyOpen()
      ensures c.jobs[id].phase.Assembling? ==> c.jobs[id].AllDone()
      ensures forall i :: 0 <= i < |c.jobs[id].shards| ==> c.jobs[id].shards[i].attempts <= c.maxAttempts + c.past.stops
    {
      PhaseSafety(c, id);
    }
  }

  lemma NothingMade(commissions: map<JobId, Commission>, cleared: set<JobId>)
    ensures AllRight([], commissions, cleared)
  {
  }

  /** If every delivery of a run is honest for the lease it came on, the run stays honest. */
  lemma HonestRunsStayHonest(requests: seq<Request>, a: Standing, b: Standing)
    requires ServedAll(requests, a, b) && a.honest && AllHonest(requests, b.granted, b.commissions)
    ensures b.honest
  {
    hide HonestFor, MoveTogether, AllStayDone, Submap;
  }

  ghost predicate AllHonest(requests: seq<Request>, granted: map<LeaseId, Ref>, commissions: map<JobId, Commission>) {
    forall k :: 0 <= k < |requests| && requests[k].Deliver? ==>
      HonestFor(requests[k].lease, requests[k].file, granted, commissions)
  }

  /**
   Each time a job was put together, that was refused only where the bake comes to
   nothing, or a fragment is missing of a job whose fragments had begun to be
   removed; and otherwise answers every id as one bake of the whole does, and says
   what the bake's tiles are -- and is that bake's archive, where no checkpoint is
   torn.
   */
  ghost predicate MadeAsOne(made: seq<Made>, commissions: map<JobId, Commission>, cleared: set<JobId>) {
    forall k :: 0 <= k < |made| ==>
      && made[k].id in commissions
      && (made[k].assembly == Refused(Missing) ==> made[k].id in cleared)
      && var c := commissions[made[k].id];
         && (made[k].assembly.Assembled? <==> Baked(c.job, c.job.ids) != [] && made[k].assembly != Refused(Missing))
         && (made[k].assembly.Assembled? ==>
             && Answers(c.job, made[k].assembly.archive) && made[k].assembly.kind == c.kind
             && (c.untorn ==>
                 IsWhole(c.job, made[k].assembly.archive) && made[k].assembly.written == |Baked(c.job, c.job.ids)|))
  }

  lemma RightIsAsOne(made: seq<Made>, commissions: map<JobId, Commission>, cleared: set<JobId>)
    requires AllRight(made, commissions, cleared)
    ensures MadeAsOne(made, commissions, cleared)
  {
    forall k | 0 <= k < |made|
      ensures IsMadeRight(made[k], commissions, cleared)
    {
    }
    hide IsWhole, Answers, Baked;
  }

  /**
   Left to itself, a coordinator lends a job's shards no more often than each may be tried -- but for
   once more each time a job had been stopped before.
   */
  lemma LoansAreBounded(c: DistributedBakes, requests: seq<Request>, a: Standing, id: JobId)
    requires c.Valid() && id in c.jobs && ServedAll(requests, a, StandingOf(c))
    requires forall k :: 0 <= k < |requests| ==> Unattending(requests[k])
    ensures var was, now := |LeasesOf(a.granted, id)|, |LeasesOf(c.granted, id)|;
            TriesOf(a.jobs, id) + now - was <= |c.jobs[id].shards| * (c.maxAttempts + c.past.stops)
  {
    hide *;
    StandingIs(c);
    ServedTogether(requests, a, StandingOf(c), id);
    PhaseSafety(c, id);
    TriesAtMost(c.jobs[id].shards, c.maxAttempts + c.past.stops);
  }

  lemma ServedTogether(requests: seq<Request>, a: Standing, b: Standing, id: JobId)
    requires ServedAll(requests, a, b) && id in b.jobs && forall k :: 0 <= k < |requests| ==> Unattending(requests[k])
    ensures Tries(b.jobs[id].shards) - TriesOf(a.jobs, id) == |LeasesOf(b.granted, id)| - |LeasesOf(a.granted, id)|
  {
    hide AllStayDone, HonestRequest, Submap, LeasesOf, Unattending, Tries;
    assert TriesOf(b.jobs, id) == Tries(b.jobs[id].shards);
  }

  lemma StartsServing(requests: seq<Request>, a: Standing, granted: set<LeaseId>)
    ensures Cancels(requests[..0]) == 0 && OnlyAsked(requests, 0, granted, granted) && ServedAll(requests[..0], a, a)
  {
    SameStaysDone(a.jobs);
    NothingMoves(a.jobs, a.granted);
    hide AllStayDone, MoveTogether, HonestRequest;
  }

  lemma AboutToServe(requests: seq<Request>, n: nat, before: set<LeaseId>, granted: set<LeaseId>)
    requires n < |requests| && WellFormed(requests, before) && OnlyAsked(requests, n, before, granted)
    ensures requests[n].Begin? ==> requests[n].commission.Valid()
    ensures requests[n].Ask? ==> requests[n].lease !in granted
    ensures Cancels(requests[..n + 1]) == Cancels(requests[..n]) + if requests[n].Cancel? then 1 else 0
  {
    assert requests[..n + 1][..n] == requests[..n];
    if requests[n].Ask? {
      NotYetGranted(requests, n, before, granted);
    }
    hide Commission.Valid;
  }

  lemma OnlyAskedStill(requests: seq<Request>, n: nat, before: set<LeaseId>, granted: set<LeaseId>, after: set<LeaseId>)
    requires n < |requests| && OnlyAsked(requests, n, before, granted)
    requires after <= granted + if requests[n].Ask? then {requests[n].lease} else {}
    ensures OnlyAsked(requests, n + 1, before, after)
  {
    forall k | k in after
      ensures k in before || exists j :: 0 <= j < n + 1 && requests[j].Ask? && requests[j].lease == k
    {
      if k !in granted {
        assert requests[n].Ask? && requests[n].lease == k;
      }
    }
  }

  ghost predicate JobLentAtMost(lots: seq<Lot>, leases: set<LeaseId>, max: nat) {
    |leases| <= |lots| * max
  }

  /** No job's shards were ever lent more often than each may be tried. */
  ghost predicate LentAtMost(jobs: map<JobId, Record>, granted: map<LeaseId, Ref>, max: nat) {
    forall id :: id in jobs ==> JobLentAtMost(jobs[id].shards, LeasesOf(granted, id), max)
  }

  lemma {:induction false} NothingIsCancelled(requests: seq<Request>)
    requires forall k :: 0 <= k < |requests| ==> Unattending(requests[k])
    ensures Cancels(requests) == 0
  {
    if requests != [] {
      Attending(requests[|requests| - 1]);
      NothingIsCancelled(requests[..|requests| - 1]);
    }
  }

  lemma NothingGranted(start: Standing, id: JobId)
    requires start.granted == map[]
    ensures |LeasesOf(start.granted, id)| == 0 && TriesOf(start.jobs, id) >= 0
  {
    assert LeasesOf(start.granted, id) == {};
  }

  /** Begun with nothing and left to itself, so it is. */
  lemma LoansFromNothing(c: DistributedBakes, requests: seq<Request>, start: Standing)
    requires c.Valid() && ServedAll(requests, start, StandingOf(c)) && start.granted == map[]
    requires c.past.stops <= Cancels(requests) && forall k :: 0 <= k < |requests| ==> Unattending(requests[k])
    ensures LentAtMost(c.jobs, c.granted, c.maxAttempts)
  {
    hide *;
    NothingIsCancelled(requests);
    forall id | id in c.jobs
      ensures JobLentAtMost(c.jobs[id].shards, LeasesOf(c.granted, id), c.maxAttempts)
    {
      LoansOfOneJob(c, requests, start, id);
    }
    AllLentAtMost(c.jobs, c.granted, c.maxAttempts);
  }

  lemma LoansOfOneJob(c: DistributedBakes, requests: seq<Request>, start: Standing, id: JobId)
    requires c.Valid() && id in c.jobs && ServedAll(requests, start, StandingOf(c)) && start.granted == map[]
    requires c.past.stops == 0 && forall k :: 0 <= k < |requests| ==> Unattending(requests[k])
    ensures JobLentAtMost(c.jobs[id].shards, LeasesOf(c.granted, id), c.maxAttempts)
  {
    hide *;
    LoansAreBounded(c, requests, start, id);
    NothingGranted(start, id);
    JobLentIs(c.jobs[id].shards, LeasesOf(c.granted, id), c.maxAttempts, c.maxAttempts + c.past.stops);
  }

  lemma JobLentIs(lots: seq<Lot>, leases: set<LeaseId>, max: nat, m: nat)
    requires |leases| <= |lots| * m && m == max
    ensures JobLentAtMost(lots, leases, max)
  {
  }

  lemma AllLentAtMost(jobs: map<JobId, Record>, granted: map<LeaseId, Ref>, max: nat)
    requires forall id :: id in jobs ==> JobLentAtMost(jobs[id].shards, LeasesOf(granted, id), max)
    ensures LentAtMost(jobs, granted, max)
  {
    hide JobLentAtMost, LeasesOf;
  }

  lemma ClearedByRequests(requests: seq<Request>, start: Standing, b: Standing)
    requires ServedAll(requests, start, b) && start.cleared == {}
    ensures forall id :: id in b.cleared ==> IsCleared(requests, id)
  {
    hide IsCleared;
  }

  lemma RightFromNothing(requests: seq<Request>, start: Standing, b: Standing, made: seq<Made>)
    requires ServedAll(requests, start, b) && start.honest
    requires b.honest ==> AllRight(made, b.commissions, b.cleared)
    ensures AllHonest(requests, b.granted, b.commissions) ==> MadeAsOne(made, b.commissions, b.cleared)
  {
    hide *;
    if AllHonest(requests, b.granted, b.commissions) {
      HonestRunsStayHonest(requests, start, b);
      RightIsAsOne(made, b.commissions, b.cleared);
    }
  }

  /**
   The whole machine is one bake. A coordinator that starts with nothing serves
   any requests, from anybody: if whatever is delivered is what some run of its
   shard's own bake came to, everything is put together as one bake of the whole
   would have been, and nothing is missing but of a job that was published or
   thrown away before. Whoever is lent a shard was due it. Left to itself it lends
   each job's shards no more often than each may be tried, whatever is delivered.
   */
  method ServeFromTheStart(leaseSeconds: Option<int>, maxAttempts: Option<int>, requests: seq<Request>)
    returns (c: DistributedBakes, made: seq<Made>, replies: seq<Reply>, ghost worlds: seq<World>,
             ghost each: seq<Option<Made>>)
    requires WellFormed(requests, {})
    ensures fresh(c) && c.Valid() && c.past.stops <= Cancels(requests)
    ensures AllHonest(requests, c.granted, c.commissions) ==> MadeAsOne(made, c.commissions, c.cleared)
    ensures forall id :: id in c.cleared ==> IsCleared(requests, id)
    ensures |replies| == |requests| && forall n :: 0 <= n < |requests| ==> LentDuly(requests, replies, n)
    ensures forall worker, id :: id in CannotDo(c.cannot, worker) <==>
              GaveBack(requests, replies, |requests|, worker, id)
    ensures forall id :: id in c.commissions ==> IsBegun(requests, |requests|, id, c.commissions[id])
    ensures (forall k :: 0 <= k < |requests| ==> Unattending(requests[k])) ==>
              LentAtMost(c.jobs, c.granted, c.maxAttempts)
    ensures Runs(requests, replies, each, worlds, c.maxAttempts, c.leaseSeconds) && made == Somes(each)
    ensures worlds[0] == EMPTY && worlds[|requests|] == WorldOf(c)
  {
    c := new DistributedBakes(leaseSeconds, maxAttempts);
    assert c.granted.Keys == {} && WorldOf(c) == EMPTY;
    hide *;
    ghost var start, desk := StandingOf(c), DeskOf(c);
    StandingIs(c);
    DeskIs(c);
    made, replies, worlds, each := Serve(c, requests);
    StandingIs(c);
    DeskIs(c);
    AnsweredFromNothing(requests, replies, desk.granted, DeskOf(c));
    RightFromNothing(requests, start, StandingOf(c), made);
    ClearedByRequests(requests, start, StandingOf(c));
    if forall k :: 0 <= k < |requests| ==> Unattending(requests[k]) {
      LoansFromNothing(c, requests, start);
    }
  }
}
