/**
 One shared-out bake as its coordinator records it: which shards are waiting,
 lent, done or given up on, and what each step does to that.
 */
module Leasing {
  import opened Archive
  import opened Plan

  type LeaseId = nat
  type WorkerId = nat

  datatype Phase = Planning | Running | Stalled | Assembling | Importing | Finished | Failed | Cancelled

  datatype State = Pending | Leased | Done | GivenUp

  /** A shard lent to a worker, until some time. */
  datatype Lease = Lease(id: LeaseId, worker: WorkerId, until: int)

  /** One shard: `fragment` says whether what came back is a file, or was nothing at all. */
  datatype Lot = Lot(shard: Shard, state: State, attempts: nat, lease: Option<Lease>, fragment: bool) {
    predicate Open() {
      state.Pending? || state.Leased?
    }

    function Released(to: State): Lot {
      this.(lease := None, state := to)
    }

    /** Back in the queue, or out of it once it has been tried often enough. */
    function LetGo(max: nat): Lot {
      Released(if attempts < max then Pending else GivenUp)
    }

    predicate Lapsed(now: int) {
      state.Leased? && lease.Some? && lease.value.until <= now
    }

    predicate HeldBy(id: LeaseId) {
      state.Leased? && lease.Some? && lease.value.id == id
    }
  }

  /** A job, as it is kept and written down. */
  datatype Record = Record(createdAt: int, phase: Phase, finished: bool, remote: bool, shards: seq<Lot>) {
    predicate AnyOpen() {
      exists i :: 0 <= i < |shards| && shards[i].Open()
    }

    predicate AnyGivenUp() {
      exists i :: 0 <= i < |shards| && shards[i].state.GivenUp?
    }

    predicate AllDone() {
      forall i :: 0 <= i < |shards| ==> shards[i].state.Done?
    }

    function With(i: nat, e: Lot): Record
      requires i < |shards|
    {
      this.(shards := shards[i := e])
    }

    /** Moves on when the last shard is in, or when nothing more can be. */
    function Moved(): Record {
      if !phase.Running? || AnyOpen() then this
      else if AnyGivenUp() then this.(phase := Stalled)
      else this.(phase := Assembling)
    }

    function Swept(now: int, max: nat): Record {
      if phase.Running? && exists i :: 0 <= i < |shards| && shards[i].Lapsed(now) then
        this.(shards := SweptShards(shards, now, max)).Moved()
      else this
    }
  }

  function SweptShards(shards: seq<Lot>, now: int, max: nat): (r: seq<Lot>)
    ensures |r| == |shards| && forall i :: 0 <= i < |r| ==>
            r[i] == if shards[i].Lapsed(now) then shards[i].LetGo(max) else shards[i]
  {
    seq(|shards|, i requires 0 <= i < |shards| => if shards[i].Lapsed(now) then shards[i].LetGo(max) else shards[i])
  }

  /** What a job's shards are when it is stopped: nobody has any. */
  function StoppedShards(shards: seq<Lot>): (r: seq<Lot>)
    ensures |r| == |shards| && forall i :: 0 <= i < |r| ==>
            r[i] == if shards[i].state.Leased? then shards[i].Released(Pending) else shards[i]
  {
    seq(|shards|, i requires 0 <= i < |shards| => if shards[i].state.Leased? then shards[i].Released(Pending)
        else shards[i])
  }

  /** What they are when it is tried again: those given up on are back in the queue, their attempts forgotten. */
  function RetriedShards(shards: seq<Lot>): (r: seq<Lot>)
    ensures |r| == |shards|
    ensures forall i :: 0 <= i < |r| ==>
            r[i] == if shards[i].state.GivenUp? then shards[i].(state := Pending, attempts := 0) else shards[i]
  {
    seq(|shards|, i requires 0 <= i < |shards| => if shards[i].state.GivenUp?
        then shards[i].(state := Pending, attempts := 0) else shards[i])
  }

  /** Everything that happens to a job whose shards have been planned. */
  datatype Step =
    | Grant(i: nat, lease: Lease)          // lent to a worker
    | Renew(i: nat, until: int)            // its holder is still at it
    | Complete(i: nat, fragment: bool)     // a finished shard comes back, from its holder or a former one
    | Reject(i: nat)                       // it could not be done, or what came back was not it
    | GiveBack(i: nat)                     // its holder cannot do such shards, or is stopping
    | Sweep(now: int)                      // every lease that lapsed is taken back
    | Stop
    | Retry | Replan                     // started again, from its shards or from planning them
    | Import | Finish | Break              // what putting it together comes to

  /** When a step can happen. */
  predicate Allowed(job: Record, step: Step) {
    match step
    case Grant(i, _) => job.phase.Running? && i < |job.shards| && job.shards[i].state.Pending?
    case Renew(i, _) => job.phase.Running? && i < |job.shards| && job.shards[i].state.Leased? &&
      job.shards[i].lease.Some?
    case Complete(i, _) => job.phase.Running? && i < |job.shards| && !job.shards[i].state.Done?
    case Reject(i) => job.phase.Running? && i < |job.shards| && !job.shards[i].state.Done?
    case GiveBack(i) => i < |job.shards| && job.shards[i].state.Leased?
    case Sweep(_) => true
    case Stop => !job.finished
    case Retry => !job.phase.Finished? && !job.phase.Planning? && !job.phase.Assembling? && job.shards != []
    case Import => job.shards != [] && job.AllDone()
    case Finish => job.shards != [] && job.AllDone()
    case Replan => !job.phase.Finished? && !job.phase.Planning? && !job.phase.Assembling? && job.shards == []
    case Break => !job.phase.Cancelled?
  }

  /** What it does. */
  function After(job: Record, step: Step, max: nat): Record
    requires Allowed(job, step)
  {
    match step
    case Grant(i, lease) => var e := job.shards[i];
      job.With(i, e.(state := Leased, attempts := e.attempts + 1, lease := Some(lease)))
    case Renew(i, until) => var e := job.shards[i]; job.With(i, e.(lease := Some(e.lease.value.(until := until))))
    case Complete(i, fragment) =>
      job.With(i, job.shards[i].(state := Done, lease := None, fragment := fragment)).Moved()
    case Reject(i) => job.With(i, job.shards[i].LetGo(max)).Moved()
    case GiveBack(i) =>
      var e := job.shards[i];
      job.With(i, e.(attempts := if e.attempts > 0 then e.attempts - 1 else 0).Released(Pending))
    case Sweep(now) => job.Swept(now, max)
    case Stop => job.(phase := Cancelled, finished := true, shards := StoppedShards(job.shards))
    case Retry => job.(phase := Running, finished := false, shards := RetriedShards(job.shards)).Moved()
    case Replan => job.(phase := Planning, finished := false)
    case Import => job.(phase := Importing)
    case Finish => job.(phase := Finished, finished := true)
    case Break => job.(phase := Failed, finished := true)
  }

  /** Asked for at the same time, and for workers to share in or not. */
  predicate SameTerms(a: Record, b: Record) {
    a.createdAt == b.createdAt && a.remote == b.remote
  }

  /** No step changes what was asked for. */
  lemma StepKeepsTerms(job: Record, step: Step, max: nat)
    requires Allowed(job, step)
    ensures SameTerms(job, After(job, step, max))
  {
  }

  /**
   What has happened to jobs that their records do not show: how often one was stopped, and whether
   background work of one failed while its shards were out.
   */
  datatype History = History(stops: nat, late: bool)

  ghost predicate Since(a: History, b: History) {
    a.stops <= b.stops && (a.late ==> b.late)
  }

  predicate AnyLent(lots: seq<Lot>) {
    exists i :: 0 <= i < |lots| && lots[i].state.Leased?
  }

  /**
   A shard has a lease exactly while it is lent, and is tried no more often than it may be -- but for
   once more each time a job was stopped.
   */
  ghost predicate Fits(e: Lot, max: nat, stops: nat) {
    && (e.state.Leased? <==> e.lease.Some?)
    && e.attempts <= max + stops
    && (e.state.Pending? ==> e.attempts < max + stops)
  }

  ghost predicate AllFit(lots: seq<Lot>, max: nat, stops: nat) {
    forall i :: 0 <= i < |lots| ==> Fits(lots[i], max, stops)
  }

  /** What a phase says of the shards. Only a job that runs has any out, or one whose background work failed late. */
  ghost predicate PhaseHolds(job: Record, late: bool) {
    && (job.phase.Planning? ==> job.shards == [])
    && (job.phase.Running? ==> job.AnyOpen())
    && (AnyLent(job.shards) ==> job.phase.Running? || (job.phase.Failed? && late))
    && (job.phase.Assembling? || job.phase.Importing? || job.phase.Finished? ==> job.shards != [] && job.AllDone())
  }

  /** What holds of a job after every step. */
  ghost predicate Sound(job: Record, max: nat, past: History) {
    AllFit(job.shards, max, past.stops) && PhaseHolds(job, past.late)
  }

  /**
   The job's background work fails although its shards are out: work begun before it was stopped and
   started again.
   */
  predicate IsLate(job: Record, step: Step) {
    step.Break? && AnyLent(job.shards)
  }

  function Slack(step: Step): nat {
    if step.Stop? then 1 else 0
  }

  function PastAfter(past: History, job: Record, step: Step): History {
    History(past.stops + Slack(step), past.late || IsLate(job, step))
  }

  lemma MovingIsSound(job: Record, max: nat, past: History)
    requires job.phase.Running? && job.shards != [] && AllFit(job.shards, max, past.stops)
    ensures Sound(job.Moved(), max, past)
  {
    if !job.AnyOpen() {
      assert !AnyLent(job.shards);
    }
  }

  lemma OneStillFits(lots: seq<Lot>, i: nat, e: Lot, max: nat, stops: nat)
    requires i < |lots| && AllFit(lots, max, stops) && Fits(e, max, stops)
    ensures AllFit(lots[i := e], max, stops)
  {
    hide Fits;
  }

  /** Lending, renewing and giving back leave a running job running, with a shard open. */
  lemma HolderStepIsSound(job: Record, step: Step, max: nat, past: History)
    requires 1 <= max && Sound(job, max, past) && Allowed(job, step) && (step.Grant? || step.Renew? || step.GiveBack?)
    ensures Sound(After(job, step, max), max, past)
  {
    var after := After(job, step, max);
    assert Fits(job.shards[step.i], max, past.stops);
    OneStillFits(job.shards, step.i, after.shards[step.i], max, past.stops);
    hide AllFit, Fits;
    if job.phase.Running? {
      assert after.shards[step.i].Open();
    } else {
      assert AnyLent(job.shards);
    }
  }

  lemma EndingStepIsSound(job: Record, step: Step, max: nat, past: History)
    requires 1 <= max && Sound(job, max, past) && Allowed(job, step) && (step.Complete? || step.Reject?)
    ensures Sound(After(job, step, max), max, past)
  {
    var e := if step.Complete? then job.shards[step.i].(state := Done, lease := None, fragment := step.fragment)
      else job.shards[step.i].LetGo(max);
    assert Fits(job.shards[step.i], max, past.stops);
    OneStillFits(job.shards, step.i, e, max, past.stops);
    hide AllFit, Fits, Record.Moved, PhaseHolds;
    MovingIsSound(job.With(step.i, e), max, past);
  }

  lemma SweepIsSound(job: Record, now: int, max: nat, past: History)
    requires 1 <= max && Sound(job, max, past)
    ensures Sound(job.Swept(now, max), max, past)
  {
    if job.Swept(now, max) != job {
      var swept := job.(shards := SweptShards(job.shards, now, max));
      forall i | 0 <= i < |swept.shards|
        ensures Fits(swept.shards[i], max, past.stops)
      {
        assert Fits(job.shards[i], max, past.stops);
      }
      hide Record.Moved, PhaseHolds;
      MovingIsSound(swept, max, past);
    }
  }

  lemma RetryIsSound(job: Record, max: nat, past: History)
    requires 1 <= max && Sound(job, max, past) && Allowed(job, Retry)
    ensures Sound(After(job, Retry, max), max, past)
  {
    var again := job.(phase := Running, finished := false, shards := RetriedShards(job.shards));
    forall i | 0 <= i < |again.shards|
      ensures Fits(again.shards[i], max, past.stops)
    {
      assert Fits(job.shards[i], max, past.stops);
    }
    hide Record.Moved, PhaseHolds;
    MovingIsSound(again, max, past);
  }

  lemma StopIsSound(job: Record, max: nat, past: History)
    requires 1 <= max && Sound(job, max, past) && Allowed(job, Stop)
    ensures Sound(After(job, Stop, max), max, PastAfter(past, job, Stop))
  {
    var stopped := StoppedShards(job.shards);
    forall i | 0 <= i < |stopped|
      ensures Fits(stopped[i], max, past.stops + 1) && !stopped[i].state.Leased?
    {
      assert Fits(job.shards[i], max, past.stops);
    }
    hide Fits;
  }

  /** Starting to plan again, and what the background work comes to, change no shard. */
  lemma PhaseStepIsSound(job: Record, step: Step, max: nat, past: History)
    requires Sound(job, max, past) && Allowed(job, step) &&
             (step.Replan? || step.Import? || step.Finish? || step.Break?)
    ensures Sound(After(job, step, max), max, PastAfter(past, job, step))
  {
    hide AllFit;
    assert job.AllDone() ==> !AnyLent(job.shards);
  }

  /** Whatever happens, in whatever order, a job's record stays sound. */
  lemma StepIsSound(job: Record, step: Step, max: nat, past: History)
    requires 1 <= max && Sound(job, max, past) && Allowed(job, step)
    ensures Sound(After(job, step, max), max, PastAfter(past, job, step))
  {
    NothingPassed(past, job, step);
    if step.Sweep? {
      SweepIsSound(job, step.now, max, past);
    }
    hide Sound, Allowed, PastAfter, IsLate;
    if step.Grant? || step.Renew? || step.GiveBack? {
      HolderStepIsSound(job, step, max, past);
    } else if step.Complete? || step.Reject? {
      EndingStepIsSound(job, step, max, past);
    } else if step.Retry? {
      RetryIsSound(job, max, past);
    } else if step.Stop? {
      StopIsSound(job, max, past);
    } else if !step.Sweep? {
      PhaseStepIsSound(job, step, max, past);
    }
  }

  lemma NothingPassed(past: History, job: Record, step: Step)
    ensures !step.Stop? && !step.Break? ==> PastAfter(past, job, step) == past
    ensures Since(past, PastAfter(past, job, step))
  {
  }

  /** Where a run leaves a job, if each of its steps can happen where those before it do. */
  function AfterAll(job: Record, steps: seq<Step>, max: nat): Option<Record> {
    if steps == [] then Some(job)
    else
      var n := |steps| - 1;
      var before := AfterAll(job, steps[..n], max);
      if before.Some? && Allowed(before.value, steps[n]) then Some(After(before.value, steps[n], max)) else None
  }

  /** What a run has passed. */
  function PastAfterAll(past: History, job: Record, steps: seq<Step>, max: nat): History
    requires AfterAll(job, steps, max).Some?
  {
    if steps == [] then past
    else
      var n := |steps| - 1;
      PastAfter(PastAfterAll(past, job, steps[..n], max), AfterAll(job, steps[..n], max).value, steps[n])
  }

  function Stops(steps: seq<Step>): nat {
    if steps == [] then 0 else Stops(steps[..|steps| - 1]) + Slack(steps[|steps| - 1])
  }

  lemma {:induction false} StopsPass(past: History, job: Record, steps: seq<Step>, max: nat)
    requires AfterAll(job, steps, max).Some?
    ensures PastAfterAll(past, job, steps, max).stops == past.stops + Stops(steps)
  {
    if steps != [] {
      StopsPass(past, job, steps[..|steps| - 1], max);
      hide After, Allowed, IsLate;
    }
  }

  lemma LastStep(past: History, job: Record, steps: seq<Step>, max: nat)
    requires steps != [] && AfterAll(job, steps, max).Some?
    ensures var n := |steps| - 1;
            var before := AfterAll(job, steps[..n], max);
            && before.Some? && Allowed(before.value, steps[n]) &&
              AfterAll(job, steps, max) == Some(After(before.value, steps[n], max))
            && PastAfterAll(past, job, steps, max) ==
              PastAfter(PastAfterAll(past, job, steps[..n], max), before.value, steps[n])
  {
    hide After, Allowed, PastAfter;
  }

  lemma NoSteps(past: History, job: Record, max: nat)
    ensures AfterAll(job, [], max) == Some(job) && PastAfterAll(past, job, [], max) == past
  {
  }

  /**
   Over every run a job's record stays sound; so a running job always has a shard waiting or lent, and
   is only put together once all are done.
   */
  lemma {:induction false} RunIsSound(job: Record, steps: seq<Step>, max: nat, past: History)
    requires 1 <= max && Sound(job, max, past) && AfterAll(job, steps, max).Some?
    ensures Sound(AfterAll(job, steps, max).value, max, PastAfterAll(past, job, steps, max))
  {
    hide *;
    if steps == [] {
      NoSteps(past, job, max);
    } else {
      var n := |steps| - 1;
      LastStep(past, job, steps, max);
      RunIsSound(job, steps[..n], max, past);
      StepIsSound(AfterAll(job, steps[..n], max).value, steps[n], max, PastAfterAll(past, job, steps[..n], max));
    }
  }

  /** What has been taken stays taken. */
  ghost predicate StaysDone(before: seq<Lot>, after: seq<Lot>) {
    && |after| == |before|
    && forall i :: 0 <= i < |before| ==>
         && after[i].shard == before[i].shard
         && (before[i].state.Done? ==> after[i].state.Done? && after[i].fragment == before[i].fragment)
  }

  lemma StepKeepsDone(job: Record, step: Step, max: nat)
    requires Allowed(job, step)
    ensures StaysDone(job.shards, After(job, step, max).shards)
  {
    hide Record.AnyOpen, Record.AnyGivenUp;
  }

  /** A shard once accepted is never handed out or taken back again, and its fragment is the one accepted. */
  lemma {:induction false} RunKeepsDone(job: Record, steps: seq<Step>, max: nat)
    requires AfterAll(job, steps, max).Some?
    ensures StaysDone(job.shards, AfterAll(job, steps, max).value.shards)
  {
    if steps != [] {
      var n := |steps| - 1;
      RunKeepsDone(job, steps[..n], max);
      StepKeepsDone(AfterAll(job, steps[..n], max).value, steps[n], max);
      hide Allowed, After;
    }
  }

  /** Only a completed shard becomes done. */
  ghost predicate NoneNewlyDone(before: seq<Lot>, after: seq<Lot>) {
    |after| == |before| && forall i :: 0 <= i < |before| && after[i].state.Done? ==>
      before[i].state.Done? && after[i].fragment == before[i].fragment
  }

  /** And whoever has a shard had it before. */
  ghost predicate NoneNewlyLent(before: seq<Lot>, after: seq<Lot>) {
    |after| == |before| && forall i :: 0 <= i < |before| && after[i].state.Leased? && after[i].lease.Some? ==>
      && before[i].state.Leased? && before[i].lease.Some?
      && after[i].lease.value.id == before[i].lease.value.id &&
        after[i].lease.value.worker == before[i].lease.value.worker
  }

  lemma OneShardChanges(lots: seq<Lot>, i: nat, e: Lot)
    requires i < |lots| && (e.state.Done? ==> lots[i].state.Done? && e.fragment == lots[i].fragment)
    requires e.state.Leased? && e.lease.Some? ==>
               && lots[i].state.Leased? && lots[i].lease.Some?
               && e.lease.value.id == lots[i].lease.value.id && e.lease.value.worker == lots[i].lease.value.worker
    ensures NoneNewlyDone(lots, lots[i := e]) && NoneNewlyLent(lots, lots[i := e])
  {
  }

  lemma ShardStepChanges(job: Record, step: Step, max: nat)
    requires Allowed(job, step) && (step.Renew? || step.Reject? || step.GiveBack?)
    ensures NoneNewlyDone(job.shards, After(job, step, max).shards) &&
            NoneNewlyLent(job.shards, After(job, step, max).shards)
  {
    hide Record.AnyOpen, Record.AnyGivenUp;
    OneShardChanges(job.shards, step.i, After(job, step, max).shards[step.i]);
  }

  lemma QuietStepChanges(job: Record, step: Step, max: nat)
    requires Allowed(job, step) && !step.Grant? && !step.Complete?
    ensures NoneNewlyDone(job.shards, After(job, step, max).shards) &&
            NoneNewlyLent(job.shards, After(job, step, max).shards)
  {
    if step.Renew? || step.Reject? || step.GiveBack? {
      ShardStepChanges(job, step, max);
    } else {
      hide Record.AnyOpen, Record.AnyGivenUp, Record.AllDone;
    }
  }

  /** How often shards have been tried, all together. */
  function Tries(shards: seq<Lot>): nat {
    if shards == [] then 0 else Tries(shards[..|shards| - 1]) + shards[|shards| - 1].attempts
  }

  lemma {:induction false} TriesWith(shards: seq<Lot>, i: nat, e: Lot)
    requires i < |shards|
    ensures Tries(shards[i := e]) == Tries(shards) - shards[i].attempts + e.attempts
  {
    var n := |shards| - 1;
    if i < n {
      TriesWith(shards[..n], i, e);
      assert shards[i := e][..n] == shards[..n][i := e];
    } else {
      assert shards[i := e][..n] == shards[..n];
    }
  }

  lemma {:induction false} SameTries(a: seq<Lot>, b: seq<Lot>)
    requires |a| == |b| && forall i :: 0 <= i < |a| ==> a[i].attempts == b[i].attempts
    ensures Tries(a) == Tries(b)
  {
    if a != [] {
      SameTries(a[..|a| - 1], b[..|b| - 1]);
    }
  }

  lemma {:induction false} TriesAtMost(shards: seq<Lot>, most: nat)
    requires forall i :: 0 <= i < |shards| ==> shards[i].attempts <= most
    ensures Tries(shards) <= |shards| * most
  {
    if shards != [] {
      TriesAtMost(shards[..|shards| - 1], most);
      assert (|shards| - 1) * most + most == |shards| * most;
    }
  }

  function Grants(steps: seq<Step>): nat {
    if steps == [] then 0 else Grants(steps[..|steps| - 1]) + if steps[|steps| - 1].Grant? then 1 else 0
  }

  /** Nobody intervenes: shards are only lent, renewed, finished, failed and taken back. */
  ghost predicate Unattended(steps: seq<Step>) {
    forall k :: 0 <= k < |steps| ==> !steps[k].Stop? && !steps[k].Retry? && !steps[k].Replan? && !steps[k].GiveBack?
  }

  lemma StepTries(job: Record, step: Step, max: nat)
    requires Allowed(job, step) && !step.Stop? && !step.Retry? && !step.GiveBack?
    ensures Tries(After(job, step, max).shards) == Tries(job.shards) + if step.Grant? then 1 else 0
  {
    hide Record.AnyOpen, Record.AnyGivenUp;
    if step.Grant? {
      TriesWith(job.shards, step.i, After(job, step, max).shards[step.i]);
    } else {
      SameTries(job.shards, After(job, step, max).shards);
    }
  }

  /** Every lending is one more try, so trying is how the lendings are counted. */
  lemma {:induction false} RunTries(job: Record, steps: seq<Step>, max: nat)
    requires AfterAll(job, steps, max).Some? && Unattended(steps)
    ensures Tries(AfterAll(job, steps, max).value.shards) == Tries(job.shards) + Grants(steps)
  {
    if steps != [] {
      var n := |steps| - 1;
      RunTries(job, steps[..n], max);
      StepTries(AfterAll(job, steps[..n], max).value, steps[n], max);
      hide Allowed, After;
    }
  }

  lemma {:induction false} UnattendedNeverStops(steps: seq<Step>)
    requires Unattended(steps)
    ensures Stops(steps) == 0
  {
    if steps != [] {
      UnattendedNeverStops(steps[..|steps| - 1]);
    }
  }

  /** Left to itself a job lends its shards no more often than each may be tried, however its workers behave. */
  lemma GrantsAreBounded(job: Record, steps: seq<Step>, max: nat, past: History)
    requires 1 <= max && past.stops == 0 && Sound(job, max, past) && AfterAll(job, steps, max).Some? &&
             Unattended(steps)
    ensures Tries(job.shards) + Grants(steps) <= |job.shards| * max
  {
    RunIsSound(job, steps, max, past);
    UnattendedNeverStops(steps);
    StopsPass(past, job, steps, max);
    RunTries(job, steps, max);
    RunKeepsDone(job, steps, max);
    var after := AfterAll(job, steps, max).value;
    assert forall i :: 0 <= i < |after.shards| ==> Fits(after.shards[i], max, 0);
    TriesAtMost(after.shards, max);
  }

  lemma AfterOneMore(job: Record, steps: seq<Step>, step: Step, max: nat)
    requires AfterAll(job, steps, max).Some? && Allowed(AfterAll(job, steps, max).value, step)
    ensures AfterAll(job, steps + [step], max) == Some(After(AfterAll(job, steps, max).value, step, max))
    ensures Stops(steps + [step]) == Stops(steps) + Slack(step)
  {
    assert (steps + [step])[..|steps|] == steps;
  }

  /** A job of one shard, lent out after being tried some number of times. */
  ghost predicate LentAfter(job: Record, tries: nat) {
    job.phase.Running? && !job.finished && |job.shards| == 1 && job.shards[0].state.Leased? &&
      job.shards[0].attempts == tries
  }

  /**
   The bound on attempts is met: each time a job is stopped while a shard is
   out and started again, that shard can be tried once more than it may be.
   */
  lemma {:induction false} EveryStopCostsATry(job: Record, tries: nat, max: nat, lease: Lease, stops: nat)
    returns (steps: seq<Step>)
    requires LentAfter(job, tries)
    ensures AfterAll(job, steps, max).Some? && Stops(steps) == stops &&
            LentAfter(AfterAll(job, steps, max).value, tries + stops)
  {
    if stops == 0 {
      steps := [];
    } else {
      var before := EveryStopCostsATry(job, tries, max, lease, stops - 1);
      AfterOneMore(job, before, Stop, max);
      AfterOneMore(job, before + [Stop], Retry, max);
      var retried := AfterAll(job, before + [Stop] + [Retry], max).value;
      assert retried.shards[0].Open();
      AfterOneMore(job, before + [Stop] + [Retry], Grant(0, lease), max);
      steps := before + [Stop] + [Retry] + [Grant(0, lease)];
    }
  }
}
