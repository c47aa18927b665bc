/**
 What arrives too late at a coordinator: an upload on a lease that has been
 superseded, and the failure of work that has been.
 */
module Stragglers {
  import opened Archive
  import opened Books
  import opened Distributed
  import opened Leasing
  import opened Plan
  import opened Restarts

  /** The shard was taken from whoever had it, though nothing was accepted. */
  ghost predicate IsTaken(jobs: map<JobId, Record>, holder: LeaseId, id: JobId, i: nat) {
    id in jobs && i < |jobs[id].shards| && !jobs[id].shards[i].HeldBy(holder) && !jobs[id].shards[i].state.Done?
  }

  ghost predicate OthersOpen(job: Record, i: nat) {
    exists j: nat :: j < |job.shards| && j != i && job.shards[j].Open()
  }

  /** A delivery that is wanted at a shard but does not fit it. */
  ghost predicate IsBadFor(jobs: map<JobId, Record>, leases: map<LeaseId, Ref>, lease: LeaseId, file: Option<Upload>,
                           id: JobId, i: nat) {
    var at := WantedAt(jobs, leases, lease);
    at.Some? && at.value.job == id && at.value.index == i && !Fitting(jobs, at.value, file)
  }

  lemma OtherShardStays(job: Record, step: Step, i: nat, max: nat)
    requires Allowed(job, step) && (step.Complete? || step.Reject?) && i < |job.shards| && i != step.i
    ensures i < |After(job, step, max).shards| && After(job, step, max).shards[i] == job.shards[i]
  {
    hide Record.AnyOpen, Record.AnyGivenUp;
  }

  lemma EndedHere(job: Record, step: Step, max: nat)
    requires Allowed(job, step) && (step.Complete? || step.Reject?)
    ensures step.i < |After(job, step, max).shards|
    ensures var e := After(job, step, max).shards[step.i];
            e == if step.Complete? then job.shards[step.i].(state := Done, lease := None, fragment := step.fragment)
              else job.shards[step.i].LetGo(max)
  {
    hide Record.AnyOpen, Record.AnyGivenUp;
  }

  /**
   An upload on a lease other than the holder's takes the shard from its holder,
   with nothing gained, exactly when the shard is where that lease once was and
   the upload is not it. Any other delivery leaves the shard with its holder, or done.
   */
  lemma StaleUploadTakes(jobs: map<JobId, Record>, leases: map<LeaseId, Ref>, holder: LeaseId, id: JobId, i: nat,
                         lease: LeaseId, file: Option<Upload>, max: nat)
    requires IsHeld(jobs, holder, id, i)
    ensures IsTaken(Delivered(jobs, leases, lease, file, max), holder, id, i) <==>
            IsBadFor(jobs, leases, lease, file, id, i)
  {
    var at := WantedAt(jobs, leases, lease);
    if at.Some? && at.value.job == id {
      var step := if Fitting(jobs, at.value, file) then Complete(at.value.index, file.Some?)
        else Reject(at.value.index);
      assert Allowed(jobs[id], step);
      hide Allowed, After, Fitting, WantedAt;
      EndedHere(jobs[id], step, max);
      if at.value.index != i {
        OtherShardStays(jobs[id], step, i, max);
      }
    }
  }

  lemma LetGoStalls(job: Record, i: nat, max: nat)
    requires Allowed(job, Reject(i))
    ensures After(job, Reject(i), max).phase.Stalled? <==> job.shards[i].attempts >= max && !OthersOpen(job, i)
  {
    var e := job.shards[i].LetGo(max);
    var let := job.With(i, e);
    assert let.shards[i] == e && (e.state.GivenUp? <==> job.shards[i].attempts >= max) &&
           (e.Open() <==> job.shards[i].attempts < max);
    assert forall j: nat :: j < |job.shards| && j != i ==> let.shards[j] == job.shards[j];
    if OthersOpen(job, i) {
      var j: nat :| j < |job.shards| && j != i && job.shards[j].Open();
      assert let.shards[j].Open();
    }
  }

  /**
   And it stalls the job exactly when, besides, the shard has been tried as often as it may be and no
   other is open.
   */
  lemma StaleUploadStalls(jobs: map<JobId, Record>, leases: map<LeaseId, Ref>, holder: LeaseId, id: JobId, i: nat,
                          lease: LeaseId, file: Option<Upload>, max: nat)
    requires IsHeld(jobs, holder, id, i) && IsBadFor(jobs, leases, lease, file, id, i)
    ensures var after := Delivered(jobs, leases, lease, file, max);
            id in after &&
              (after[id].phase.Stalled? <==> jobs[id].shards[i].attempts >= max && !OthersOpen(jobs[id], i))
  {
    assert Allowed(jobs[id], Reject(i));
    LetGoStalls(jobs[id], i, max);
  }

  /** A job of one shard, tried twice at most, after its first worker went quiet and a second was lent it. */
  function LentAgain(shard: Shard, createdAt: int, first: Lease, second: Lease): Record {
    Record(createdAt, Running, false, true, [Lot(shard, Leased, 2, Some(second), false)])
  }

  lemma LentAgainIsReached(shard: Shard, createdAt: int, first: Lease, second: Lease)
    ensures AfterAll(Planned(Asked(createdAt, true), [shard]),
                     [Grant(0, first), Step.Sweep(first.until), Grant(0, second)], 2) ==
            Some(LentAgain(shard, createdAt, first, second))
  {
    var planned := Planned(Asked(createdAt, true), [shard]);
    var lent := After(planned, Grant(0, first), 2);
    var swept := After(lent, Step.Sweep(first.until), 2);
    assert lent.shards == [Lot(shard, Leased, 1, Some(first), false)];
    assert lent.shards[0].Lapsed(first.until);
    assert SweptShards(lent.shards, first.until, 2) == [Lot(shard, Pending, 1, None, false)];
    assert swept.shards[0].Open() && swept == lent.(shards := [Lot(shard, Pending, 1, None, false)]);
    assert After(swept, Grant(0, second), 2) == LentAgain(shard, createdAt, first, second);
    AfterOneMore(planned, [], Grant(0, first), 2);
    AfterOneMore(planned, [] + [Grant(0, first)], Step.Sweep(first.until), 2);
    AfterOneMore(planned, [] + [Grant(0, first)] + [Step.Sweep(first.until)], Grant(0, second), 2);
    assert [] + [Grant(0, first)] + [Step.Sweep(first.until)] + [Grant(0, second)] ==
           [Grant(0, first), Step.Sweep(first.until), Grant(0, second)];
  }

  /**
   That is where lending, lapsing and lending again get to. The first worker then uploads something
   else: the second, still at it, no longer has the shard, and the job is stalled.
   */
  lemma AStaleUploadCanStall(id: JobId, shard: Shard, createdAt: int, first: Lease, second: Lease, file: Upload)
    requires first.id != second.id && !Checked(shard, file)
    ensures AfterAll(Planned(Asked(createdAt, true), [shard]),
                     [Grant(0, first), Step.Sweep(first.until), Grant(0, second)], 2) ==
            Some(LentAgain(shard, createdAt, first, second))
    ensures var jobs := map[id := LentAgain(shard, createdAt, first, second)];
            var leases := map[first.id := Ref(id, 0, first.worker), second.id := Ref(id, 0, second.worker)];
            var after := Delivered(jobs, leases, first.id, Some(file), 2);
            && HolderOf(jobs, leases, second.id).Some? && HolderOf(jobs, leases, first.id).None?
            && id in after && after[id].phase.Stalled? && HolderOf(after, leases, second.id).None?
  {
    var jobs := map[id := LentAgain(shard, createdAt, first, second)];
    var leases := map[first.id := Ref(id, 0, first.worker), second.id := Ref(id, 0, second.worker)];
    assert IsHeld(jobs, second.id, id, 0);
    assert IsBadFor(jobs, leases, first.id, Some(file), id, 0) by {
      hide Checked;
    }
    hide Checked, Delivered, IsBadFor;
    LentAgainIsReached(shard, createdAt, first, second);
    hide AfterAll, After, Planned;
    StaleUploadStalls(jobs, leases, second.id, id, 0, first.id, Some(file), 2);
  }

  /**
   Planning is stopped and begun again, the second plan is in and a shard is out
   before the first plan's failure lands: the job has failed with a shard out.
   */
  lemma ASupersededPlanCanFailLate(createdAt: int, shards: seq<Shard>, lease: Lease, max: nat)
    requires 1 <= max && shards != []
    ensures var asked := Asked(createdAt, true);
            && Allowed(asked, Stop) && Allowed(After(asked, Stop, max), Replan)
            && After(After(asked, Stop, max), Replan, max) == asked
            && Allowed(Planned(asked, shards), Grant(0, lease))
            && var lent := After(Planned(asked, shards), Grant(0, lease), max);
            && Sound(lent, max, History(1, false))
            && Allowed(lent, Break)
            && After(lent, Break, max).phase.Failed? && AnyLent(After(lent, Break, max).shards)
            && !Sound(After(lent, Break, max), max, History(1, false)) &&
              Sound(After(lent, Break, max), max, History(1, true))
  {
    var asked := Asked(createdAt, true);
    var planned := Planned(asked, shards);
    assert StoppedShards([]) == [];
    assert planned.shards[0].Open();
    assert Sound(planned, max, History(1, false));
    StepIsSound(planned, Grant(0, lease), max, History(1, false));
    var lent := After(planned, Grant(0, lease), max);
    assert lent.shards[0].state.Leased?;
    assert AnyLent(lent.shards);
    StepIsSound(lent, Break, max, History(1, false));
  }

  /** A job whose background work failed late, started again. */
  function FailedAndRetried(job: Record, max: nat): Record
    requires !job.phase.Cancelled? && job.shards != []
  {
    After(After(job, Break, max), Retry, max)
  }

  lemma RetriedIsStillLent(job: Record, i: nat, max: nat)
    requires job.phase.Running? && i < |job.shards| && job.shards[i].state.Leased?
    ensures FailedAndRetried(job, max).phase.Running? && i < |FailedAndRetried(job, max).shards|
    ensures FailedAndRetried(job, max).shards[i] == job.shards[i]
  {
    var again := job.(phase := Running, finished := false, shards := RetriedShards(job.shards));
    assert again.shards[i].Open();
  }

  /**
   After such a failure and a retry, whoever had a shard still has it, and is
   still found -- unless it delivered in between: then its upload was refused and
   its lease forgotten, and it is not found though the shard is out on it until
   the lease lapses.
   */
  lemma LateFailureLosesALease(jobs: map<JobId, Record>, leases: map<LeaseId, Ref>, lease: LeaseId,
                               file: Option<Upload>, at: Ref, max: nat)
    requires HolderOf(jobs, leases, lease) == Some(at)
    ensures var failed := AfterAt(jobs, at.job, Break, max);
            var again := jobs[at.job := FailedAndRetried(jobs[at.job], max)];
            && AfterAt(failed, at.job, Retry, max) == again
            && WantedAt(failed, leases, lease).None? && Delivered(failed, leases, lease, file, max) == failed
            && IsHeld(again, lease, at.job, at.index)
            && HolderOf(again, leases, lease) == Some(at)
            && HolderOf(again, leases - {lease}, lease) == None && WantedAt(again, leases - {lease}, lease) == None
  {
    RetriedIsStillLent(jobs[at.job], at.index, max);
  }

  /** Until then: sweeping once the lease has lapsed puts the shard back in the queue, or gives it up. */
  lemma LapsingRecovers(jobs: map<JobId, Record>, lease: LeaseId, id: JobId, i: nat, now: int, max: nat)
    requires IsHeld(jobs, lease, id, i) && jobs[id].shards[i].lease.value.until <= now
    ensures var after := SweptJobs(jobs, now, max)[id];
            && i < |after.shards| && after.shards[i] == jobs[id].shards[i].LetGo(max)
            && (jobs[id].shards[i].attempts < max ==> after.phase.Running? && after.shards[i].state.Pending?)
  {
    var job := jobs[id];
    assert job.shards[i].Lapsed(now);
    var swept := job.(shards := SweptShards(job.shards, now, max));
    assert swept.shards[i] == job.shards[i].LetGo(max);
    assert job.shards[i].attempts < max ==> swept.shards[i].Open();
  }
}
