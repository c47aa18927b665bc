/**
 What each request makes of a coordinator, given only what it held before: a
 coordinator's run is a run of these steps.
 */
module Steps {
  import opened Archive
  import opened Assemble
  import opened Books
  import opened Distributed
  import opened Leasing
  import opened Plan
  import opened Requests
  import opened Restarts

  /** What was put together, of which job. */
  datatype Made = Made(id: JobId, assembly: Assembly)

  /** What a coordinator holds, in memory and on disk. */
  datatype World = World(
    jobs: map<JobId, Record>, leases: map<LeaseId, Ref>, cannot: map<WorkerId, set<JobId>>, disk: map<JobId, Files>,
    saved: map<JobId, Record>, late: set<Note>, erasing: set<JobId>, commissions: map<JobId, Commission>)

  ghost function WorldOf(c: DistributedBakes): World
    reads c
  {
    World(c.jobs, c.leases, c.cannot, c.disk, c.saved, c.late, c.erasing, c.commissions)
  }

  /** A job takes a step, and a lease may be forgotten. */
  ghost function Took(a: World, at: Ref, step: Step, max: nat, forgotten: set<LeaseId>): World {
    a.(jobs := AfterAt(a.jobs, at.job, step, max), leases := a.leases - forgotten)
  }

  /** A job is begun, unless there is one of that name or its stack is busy. */
  ghost predicate Begins(id: JobId, c: Commission, a: World, b: World) {
    b ==
    if id in a.commissions || id in a.jobs || IsBusy(a.jobs, a.commissions, c.stack) then a
    else
      var job := Asked(c.createdAt, c.remote);
      a.(jobs := a.jobs[id := job], saved := a.saved[id := job], commissions := a.commissions[id := c])
  }

  /** One that waits for its plan gets it. */
  ghost predicate Plans(id: JobId, a: World, b: World) {
    if id in a.jobs && a.jobs[id].phase.Planning? && id in a.commissions then
      exists shards ::
        && IsPlanOf(a.commissions[id], shards) && (shards == [] <==> a.commissions[id].PickedTiles() == [])
        && b == a.(jobs := a.jobs[id := PlannedOrFailed(a.jobs[id], shards)])
    else b == a
  }

  /** A shard is lent of a job a worker may be given one of, or there is none. */
  ghost predicate Lending(worker: WorkerId, only: Option<JobId>, local: bool, now: int, lease: LeaseId, reply: Reply,
                          a: World, b: World, max: nat, leaseSeconds: int)
  {
    var swept := a.(jobs := SweptJobs(a.jobs, now, max));
    if reply.Lends? then
      var id, i := reply.loan.job, reply.loan.index;
      && reply.loan.lease == lease && IsWaitingFor(swept, worker, only, local, id, i)
      && b == swept.(jobs := AfterAt(swept.jobs, id, Grant(i, Lease(lease, worker, now + leaseSeconds * 1000)), max),
                     leases := a.leases[lease := Ref(id, i, worker)])
    else reply.Quiet? && b == swept && forall id, i :: !IsWaitingFor(swept, worker, only, local, id, i)
  }

  /** A shard waits that a worker may be given. */
  ghost predicate IsWaitingFor(a: World, worker: WorkerId, only: Option<JobId>, local: bool, id: JobId, i: int) {
    && id in a.jobs && a.jobs[id].phase.Running? && IsWaiting(a.jobs[id].shards, i)
    && (local || a.jobs[id].remote) && (only.Some? ==> only.value == id)
    && !(worker in a.cannot && id in a.cannot[worker])
  }

  /** Whoever has a shard on a lease takes a step with it, and for a worker that declines the job is noted. */
  ghost predicate Holding(r: Request, reply: Reply, a: World, b: World, max: nat, leaseSeconds: int)
    requires r.Beat? || r.Report? || r.Decline? || r.Leave?
  {
    var at := if r.Leave? then LentAt(a.jobs, a.leases, r.lease) else HolderOf(a.jobs, a.leases, r.lease);
    if at.None? then b == a && reply.Quiet?
    else
      var i := at.value.index;
      match r
      case Beat(lease, now) => reply.Quiet? && b == Took(a, at.value, Renew(i, now + leaseSeconds * 1000), max, {})
      case Report(lease) => reply.Quiet? && b == Took(a, at.value, Reject(i), max, {lease})
      case Leave(lease) => reply.Quiet? && b == Took(a, at.value, GiveBack(i), max, {lease})
      case Decline(lease) =>
        var worker, id := at.value.worker, at.value.job;
        && reply == GivenBack(worker, id)
        && b == Took(a, at.value, GiveBack(i), max, {lease}).(cannot := a.cannot[worker :=
                                                                CannotDo(a.cannot, worker) + {id}])
  }

  /** A shard that is wanted is taken in if what came back fits it, and let go if it does not. */
  ghost predicate Delivers(lease: LeaseId, file: Option<Upload>, a: World, b: World, max: nat) {
    var at := WantedAt(a.jobs, a.leases, lease);
    b ==
    if at.None? then a.(leases := a.leases - {lease})
    else if Fitting(a.jobs, at.value, file) then
      Took(a, at.value, Complete(at.value.index, file.Some?), max, {lease} + HeldAt(a.jobs, at.value))
        .(disk := if file.Some? then WithFile(a.disk, at.value.job, at.value.index, file.value) else a.disk)
    else Took(a, at.value, Reject(at.value.index), max, {lease})
  }

  /** A job is stopped, or tried again. */
  ghost function Handled(r: Request, a: World, max: nat): World
    requires r.Cancel? || r.TryAgain?
  {
    if r.id !in a.jobs then a
    else
      var job := a.jobs[r.id];
      if r.Cancel? then (if job.finished then a else a.(jobs := AfterAt(a.jobs, r.id, Step.Stop, max)))
      else if job.phase.Finished? || job.phase.Planning? || job.phase.Assembling? then a
      else a.(jobs := AfterAt(a.jobs, r.id, if job.shards == [] then Replan else Retry, max))
  }

  /** What the background work of a job comes to. */
  ghost predicate Works(r: Request, made: Option<Made>, a: World, b: World, max: nat)
    requires r.PutTogether? || r.Imported? || r.Broken?
  {
    var id := r.id;
    var ready := id in a.jobs && a.jobs[id].shards != [] && a.jobs[id].AllDone();
    match r
    case PutTogether(_, _) =>
      if !ready then made.None? && b == a
      else
        && made.Some? && made.value.id == id
        && b == a.(jobs := AfterAt(a.jobs, id, if made.value.assembly.Assembled? then Import else Break, max))
    case Imported(_) =>
      made.None? && b == if !ready then a
      else a.(jobs := AfterAt(a.jobs, id, Step.Finish, max), erasing := a.erasing + {id})
    case Broken(_) => made.None? && b == if id in a.jobs then a.(jobs := AfterAt(a.jobs, id, Break, max)) else a
  }

  /** A job that has ended or stalled is forgotten, at once or with all there is of it on disk. */
  ghost predicate Forgets(r: Request, a: World, b: World)
    requires r.Discard? || r.Forgo?
  {
    var id := r.id;
    if id in a.jobs && (a.jobs[id].finished || a.jobs[id].phase.Stalled?) then
      var gone := a.(jobs := a.jobs - {id}, leases := a.leases - LeasesHeld(a.jobs[id].shards),
                     late := a.late + {Note(id, a.jobs[id])}, erasing := a.erasing + {id});
      b == if r.Discard? then gone.(disk := a.disk - {id}, saved := a.saved - {id}) else gone
    else b == a
  }

  /** Background work goes on for a while of a job that was discarded. */
  predicate CanWorkLate(late: set<Note>, jobs: map<JobId, Record>, n: Note, step: Step) {
    && n in late && n.id !in jobs && Allowed(n.record, step) && !n.record.phase.Running?
    && (step.Import? || step.Finish? || step.Break?)
  }

  /** What lands on disk, and what goes from it. */
  ghost function Written(r: Request, a: World, max: nat): World
    requires r.WriteDown? || r.BeginWriting? || r.Land? || r.WorkLate? || r.Erase? || r.Unsave?
  {
    match r
    case WriteDown(id) => if id in a.jobs then a.(saved := a.saved[id := a.jobs[id]]) else a
    case BeginWriting(id) => if id in a.jobs then a.(late := a.late + {Note(id, a.jobs[id])}) else a
    case Land(n) => if n in a.late then a.(saved := a.saved[n.id := n.record]) else a
    case WorkLate(n, step) =>
      if CanWorkLate(a.late, a.jobs, n, step) then a.(late := a.late + {Note(n.id, After(n.record, step, max))}) else a
    case Erase(id, gone) => if id in a.erasing then a.(disk := a.disk[id := FilesAt(a.disk, id) - gone]) else a
    case Unsave(id) => if id in a.jobs then a else a.(saved := a.saved - {id})
  }

  /** The node comes back with what was on disk. Which leases are registered is for the invariant to say. */
  ghost predicate ComesBack(a: World, b: World) {
    b == World(LoadedJobs(a.saved, a.disk), b.leases, map[], a.disk, a.saved, {}, {}, a.commissions)
  }

  /** What one request does. */
  ghost predicate Does(r: Request, reply: Reply, made: Option<Made>, a: World, b: World, max: nat, leaseSeconds: int) {
    && (made.Some? ==> r.PutTogether?) && (r.Ask? || r.Decline? || reply.Quiet?)
    && if r.Begin? then Begins(r.id, r.commission, a, b)
       else if r.Plan? then Plans(r.id, a, b)
       else if r.Ask? then Lending(r.worker, r.only, r.local, r.now, r.lease, reply, a, b, max, leaseSeconds)
       else if r.Beat? || r.Report? || r.Decline? || r.Leave? then Holding(r, reply, a, b, max, leaseSeconds)
       else if r.Deliver? then Delivers(r.lease, r.file, a, b, max)
       else if r.Cancel? || r.TryAgain? then b == Handled(r, a, max)
       else if r.PutTogether? || r.Imported? || r.Broken? then Works(r, made, a, b, max)
       else if r.Discard? || r.Forgo? then Forgets(r, a, b)
       else if r.Die? then ComesBack(a, b)
       else b == Written(r, a, max)
  }

  /** The worlds a run of requests goes through, one after another. */
  ghost predicate Runs(requests: seq<Request>, replies: seq<Reply>, made: seq<Option<Made>>, worlds: seq<World>,
                       max: nat, leaseSeconds: int)
  {
    && |requests| == |replies| == |made| && |worlds| == |requests| + 1
    && forall k :: 0 <= k < |requests| ==>
         Does(requests[k], replies[k], made[k], worlds[k], worlds[k + 1], max, leaseSeconds)
  }

  // ---- Each of them, as it comes about

  lemma WorldIs(c: DistributedBakes)
    ensures WorldOf(c) == World(c.jobs, c.leases, c.cannot, c.disk, c.saved, c.late, c.erasing, c.commissions)
  {
  }

  lemma BeginDoes(r: Request, ok: bool, a: World, b: World, max: nat, leaseSeconds: int)
    requires r.Begin?
    requires ok <==>
               r.id !in a.commissions && r.id !in a.jobs && !IsBusy(a.jobs, a.commissions, r.commission.stack)
    requires var job := Asked(r.commission.createdAt, r.commission.remote);
             b == if ok then a.(jobs := a.jobs[r.id := job], saved := a.saved[r.id := job],
                                commissions := a.commissions[r.id := r.commission])
             else a
    ensures Does(r, Quiet, None, a, b, max, leaseSeconds)
  {
    hide IsBusy, Asked;
  }

  lemma PlanDoes(r: Request, shards: seq<Shard>, a: World, b: World, max: nat, leaseSeconds: int)
    requires r.Plan?
    requires if r.id in a.jobs && a.jobs[r.id].phase.Planning? then
               && r.id in a.commissions && IsPlanOf(a.commissions[r.id], shards)
               && (shards == [] <==> a.commissions[r.id].PickedTiles() == [])
               && b == a.(jobs := a.jobs[r.id := PlannedOrFailed(a.jobs[r.id], shards)])
             else b == a
    ensures Does(r, Quiet, None, a, b, max, leaseSeconds)
  {
    hide IsPlanOf, PlannedOrFailed, Commission.PickedTiles;
  }

  lemma LoanDoes(r: Request, loan: Loan, a: World, b: World, max: nat, leaseSeconds: int)
    requires r.Ask? && loan.lease == r.lease
    requires var swept, id, i := SweptJobs(a.jobs, r.now, max), loan.job, loan.index;
             && id in swept && swept[id].phase.Running? && i < |swept[id].shards| && swept[id].shards[i].state.Pending?
             && (r.local || swept[id].remote) && (r.only.Some? ==> r.only.value == id)
             && !(r.worker in a.cannot && id in a.cannot[r.worker])
             && b == a.(jobs := AfterAt(swept, id,
                                        Grant(i, Lease(r.lease, r.worker, r.now + leaseSeconds * 1000)), max),
                        leases := a.leases[r.lease := Ref(id, i, r.worker)])
    ensures Does(r, Lends(loan), None, a, b, max, leaseSeconds)
  {
    hide SweptJobs, AfterAt;
  }

  lemma NoLoanDoes(r: Request, a: World, b: World, max: nat, leaseSeconds: int)
    requires r.Ask? && b == a.(jobs := SweptJobs(a.jobs, r.now, max))
    requires forall id, i :: id in b.jobs && b.jobs[id].phase.Running? && IsWaiting(b.jobs[id].shards, i) ==>
               || (!r.local && !b.jobs[id].remote) || (r.only.Some? && r.only.value != id)
               || (r.worker in a.cannot && id in a.cannot[r.worker])
    ensures Does(r, Quiet, None, a, b, max, leaseSeconds)
  {
    hide SweptJobs, IsWaiting;
  }

  lemma HolderDoes(r: Request, at: Option<Ref>, step: Step, a: World, b: World, max: nat, leaseSeconds: int)
    requires r.Beat? || r.Report? || r.Leave?
    requires at == if r.Leave? then LentAt(a.jobs, a.leases, r.lease) else HolderOf(a.jobs, a.leases, r.lease)
    requires at.Some? ==>
               step == if r.Beat? then Renew(at.value.index, r.now + leaseSeconds * 1000)
                       else if r.Report? then Reject(at.value.index) else GiveBack(at.value.index)
    requires b == if at.None? then a
             else a.(jobs := AfterAt(a.jobs, at.value.job, step, max),
                     leases := if r.Beat? then a.leases else a.leases - {r.lease})
    ensures Does(r, Quiet, None, a, b, max, leaseSeconds)
  {
    hide HolderOf, LentAt, AfterAt;
    assert a.leases - {} == a.leases;
  }

  lemma DeclineDoes(r: Request, a: World, b: World, max: nat, leaseSeconds: int)
    requires r.Decline?
    requires var at := HolderOf(a.jobs, a.leases, r.lease);
             b == if at.None? then a
             else
               var worker, id := at.value.worker, at.value.job;
               a.(jobs := AfterAt(a.jobs, id, GiveBack(at.value.index), max), leases := a.leases - {r.lease},
                  cannot := a.cannot[worker := CannotDo(a.cannot, worker) + {id}])
    ensures var at := HolderOf(a.jobs, a.leases, r.lease);
            Does(r, if at.None? then Quiet else GivenBack(at.value.worker, at.value.job), None, a, b, max, leaseSeconds)
  {
    hide HolderOf, AfterAt, CannotDo;
  }

  lemma DeliveryDoes(r: Request, answer: Answer, a: World, b: World, max: nat, leaseSeconds: int)
    requires r.Deliver?
    requires var at := WantedAt(a.jobs, a.leases, r.lease);
             if at.None? then b == a.(leases := a.leases - {r.lease})
             else
               var i := at.value.index;
               if Fitting(a.jobs, at.value, r.file) then
                 b == a.(jobs := AfterAt(a.jobs, at.value.job, Complete(i, r.file.Some?), max),
                         leases := a.leases - {r.lease} - HeldAt(a.jobs, at.value),
                         disk := if r.file.Some? then WithFile(a.disk, at.value.job, i, r.file.value) else a.disk)
               else
                 b == a.(jobs := AfterAt(a.jobs, at.value.job, Reject(i), max), leases := a.leases - {r.lease})
    ensures Does(r, Quiet, None, a, b, max, leaseSeconds)
  {
    hide WantedAt, Fitting, AfterAt, HeldAt, WithFile;
    var at := WantedAt(a.jobs, a.leases, r.lease);
    if at.Some? {
      assert a.leases - ({r.lease} + HeldAt(a.jobs, at.value)) == a.leases - {r.lease} - HeldAt(a.jobs, at.value);
    }
  }

  lemma HandledIs(r: Request, a: World, max: nat)
    requires r.Cancel? || r.TryAgain?
    ensures forall b, leaseSeconds :: b == Handled(r, a, max) ==> Does(r, Quiet, None, a, b, max, leaseSeconds)
    ensures r.Cancel? ==>
              Handled(r, a, max) ==
              if r.id in a.jobs && !a.jobs[r.id].finished then a.(jobs := AfterAt(a.jobs, r.id, Step.Stop, max)) else a
    ensures r.TryAgain? ==>
              Handled(r, a, max) ==
              if r.id in a.jobs && !a.jobs[r.id].phase.Finished? && !a.jobs[r.id].phase.Planning? &&
                !a.jobs[r.id].phase.Assembling?
              then a.(jobs := AfterAt(a.jobs, r.id, if a.jobs[r.id].shards == [] then Replan else Retry, max)) else a
  {
    hide AfterAt;
  }

  lemma WorkDoes(r: Request, made: Option<Made>, a: World, b: World, max: nat, leaseSeconds: int)
    requires r.PutTogether? || r.Imported? || r.Broken?
    requires var ready := r.id in a.jobs && a.jobs[r.id].shards != [] && a.jobs[r.id].AllDone();
             if r.Broken? then
               made.None? && b == if r.id in a.jobs then a.(jobs := AfterAt(a.jobs, r.id, Break, max)) else a
             else if !ready then made.None? && b == a
             else if r.PutTogether? then
               && made.Some? && made.value.id == r.id
               && b == a.(jobs := AfterAt(a.jobs, r.id, if made.value.assembly.Assembled? then Import else Break, max))
             else
               && made.None?
               && b == a.(jobs := AfterAt(a.jobs, r.id, Step.Finish, max), erasing := a.erasing + {r.id})
    ensures Does(r, Quiet, made, a, b, max, leaseSeconds)
  {
    hide AfterAt, Record.AllDone;
  }

  lemma ForgettingDoes(r: Request, ok: bool, a: World, b: World, max: nat, leaseSeconds: int)
    requires r.Discard? || r.Forgo?
    requires ok <==> r.id in a.jobs && (a.jobs[r.id].finished || a.jobs[r.id].phase.Stalled?)
    requires b == if !ok then a
             else a.(jobs := a.jobs - {r.id}, leases := a.leases - LeasesHeld(a.jobs[r.id].shards),
                     late := a.late + {Note(r.id, a.jobs[r.id])}, erasing := a.erasing + {r.id},
                     disk := if r.Discard? then a.disk - {r.id} else a.disk,
                     saved := if r.Discard? then a.saved - {r.id} else a.saved)
    ensures Does(r, Quiet, None, a, b, max, leaseSeconds)
  {
    hide LeasesHeld;
  }

  lemma DyingDoes(r: Request, a: World, b: World, max: nat, leaseSeconds: int)
    requires r.Die?
    requires b ==
             a.(jobs := LoadedJobs(a.saved, a.disk), leases := b.leases, cannot := map[], late := {}, erasing := {})
    ensures Does(r, Quiet, None, a, b, max, leaseSeconds)
  {
    hide LoadedJobs;
  }

  lemma WrittenIs(r: Request, a: World, max: nat)
    requires r.WriteDown? || r.BeginWriting? || r.Land? || r.WorkLate? || r.Erase? || r.Unsave?
    ensures forall b, leaseSeconds :: b == Written(r, a, max) ==> Does(r, Quiet, None, a, b, max, leaseSeconds)
    ensures Written(r, a, max) ==
            if r.WriteDown? then (if r.id in a.jobs then a.(saved := a.saved[r.id := a.jobs[r.id]]) else a)
            else if r.BeginWriting? then
              (if r.id in a.jobs then a.(late := a.late + {Note(r.id, a.jobs[r.id])}) else a)
            else if r.Land? then
              (if r.note in a.late then a.(saved := a.saved[r.note.id := r.note.record]) else a)
            else if r.WorkLate? then
              (if CanWorkLate(a.late, a.jobs, r.note, r.step)
               then a.(late := a.late + {Note(r.note.id, After(r.note.record, r.step, max))}) else a)
            else if r.Erase? then
              (if r.id in a.erasing then a.(disk := a.disk[r.id := FilesAt(a.disk, r.id) - r.gone]) else a)
            else (if r.id in a.jobs then a else a.(saved := a.saved - {r.id}))
  {
    hide Allowed, After, FilesAt;
  }

  /** A coordinator that has just come up for the first time. */
  const EMPTY := World(map[], map[], map[], map[], map[], {}, {}, map[])

  lemma RunsNowhere(requests: seq<Request>, a: World, max: nat, leaseSeconds: int)
    ensures Runs(requests[..0], [], [], [a], max, leaseSeconds) && Somes([]) == []
  {
  }

  lemma RanOneMore(requests: seq<Request>, n: nat, replies: seq<Reply>, made: seq<Option<Made>>, worlds: seq<World>,
                    reply: Reply, one: Option<Made>, b: World, max: nat, leaseSeconds: int)
    requires n < |requests| && Runs(requests[..n], replies, made, worlds, max, leaseSeconds)
    requires Does(requests[n], reply, one, worlds[n], b, max, leaseSeconds)
    ensures Runs(requests[..n + 1], replies + [reply], made + [one], worlds + [b], max, leaseSeconds)
    ensures (worlds + [b])[0] == worlds[0] && (worlds + [b])[n + 1] == b
  {
    hide Does;
    var all, after := requests[..n + 1], worlds + [b];
    forall k | 0 <= k < n + 1
      ensures Does(all[k], (replies + [reply])[k], (made + [one])[k], after[k], after[k + 1], max, leaseSeconds)
    {
      if k < n {
        assert all[k] == requests[..n][k];
      }
    }
  }

  /** Of what each request put together, what there is, in order. */
  function Somes(made: seq<Option<Made>>): seq<Made> {
    if made == [] then []
    else
      var rest, last := Somes(made[..|made| - 1]), made[|made| - 1];
      if last.Some? then rest + [last.value] else rest
  }

  lemma SomesOneMore(made: seq<Option<Made>>, one: Option<Made>)
    ensures Somes(made + [one]) == if one.Some? then Somes(made) + [one.value] else Somes(made)
  {
    assert (made + [one])[..|made|] == made;
  }
}
