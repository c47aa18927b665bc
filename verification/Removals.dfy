/**
 What removing a job's fragments can do to it: its record may still say that it
 is to be put together, and then it cannot be, however often it is tried again.
 */
module Removals {
  import opened Archive
  import opened Assemble
  import opened Books
  import opened Distributed
  import opened Leasing
  import opened Restarts

  /** A job all of whose shards are done, one of them with a fragment. */
  ghost predicate HasAll(jobs: map<JobId, Record>, id: JobId, lots: seq<Lot>, phase: Phase) {
    && id in jobs && jobs[id].shards == lots && jobs[id].phase == phase
    && lots != [] && jobs[id].AllDone() && exists i :: 0 <= i < |lots| && lots[i].fragment
  }

  /** What there is to retry or put together of such a job. */
  lemma HasAllIs(jobs: map<JobId, Record>, id: JobId, lots: seq<Lot>, phase: Phase, disk: map<JobId, Files>)
    requires HasAll(jobs, id, lots, phase) && id !in disk
    ensures id in jobs && jobs[id].shards != [] && jobs[id].AllDone() && !Intact(jobs[id].shards, FilesAt(disk, id))
    ensures jobs[id].phase == phase
  {
  }

  lemma EndedIs(jobs: map<JobId, Record>, id: JobId, lots: seq<Lot>, phase: Phase, step: Step, max: nat)
    requires HasAll(jobs, id, lots, phase) && !phase.Cancelled? && (step.Finish? || step.Break?)
    ensures id in jobs && jobs[id].shards != [] && jobs[id].AllDone()
    ensures HasAll(AfterAt(jobs, id, step, max), id, lots, if step.Finish? then Phase.Finished else Failed)
  {
  }

  /** Tried again, it is put together again. */
  lemma TriedAgainIs(jobs: map<JobId, Record>, id: JobId, lots: seq<Lot>, phase: Phase, max: nat)
    requires HasAll(jobs, id, lots, phase) && (phase.Importing? || phase.Failed?)
    ensures HasAll(AfterAt(jobs, id, Retry, max), id, lots, Assembling)
    ensures id in jobs && jobs[id].shards != [] && jobs[id].phase == phase
  {
    RetriedIs(jobs[id], max);
    hide After, Allowed;
  }

  lemma RetriedIs(job: Record, max: nat)
    requires job.shards != [] && job.AllDone() && (job.phase.Importing? || job.phase.Failed?)
    ensures Allowed(job, Retry) && After(job, Retry, max).phase.Assembling? &&
            After(job, Retry, max).shards == job.shards
  {
    assert RetriedShards(job.shards) == job.shards;
    var again := job.(phase := Running, finished := false, shards := job.shards);
    assert !again.AnyOpen() && !again.AnyGivenUp();
  }

  lemma LoadedIs(saved: map<JobId, Record>, disk: map<JobId, Files>, id: JobId, lots: seq<Lot>, phase: Phase)
    requires HasAll(saved, id, lots, phase) && id !in disk && (phase.Importing? || phase.Failed?)
    ensures HasAll(LoadedJobs(saved, disk), id, lots, if phase.Importing? then Assembling else Failed)
  {
  }

  lemma SavedIs(saved: map<JobId, Record>, id: JobId, record: Record, lots: seq<Lot>, phase: Phase,
                jobs: map<JobId, Record>)
    requires HasAll(jobs, id, lots, phase) && record == jobs[id]
    ensures HasAll(saved[id := record], id, lots, phase)
  {
  }

  /** It cannot be put together. */
  method PutTogetherInVain(c: DistributedBakes, id: JobId, ghost lots: seq<Lot>, ghost phase: Phase)
    returns (r: Assembly)
    requires c.Valid() && HasAll(c.jobs, id, lots, phase) && !phase.Cancelled? && id !in c.disk
    modifies c`jobs, c`leases, c`past
    ensures c.Valid() && r == Refused(Missing) && HasAll(c.jobs, id, lots, Failed)
  {
    hide *;
    HasAllIs(c.jobs, id, lots, phase, c.disk);
    EndedIs(c.jobs, id, lots, phase, Break, c.maxAttempts);
    r := c.Assemble(id, true);
  }

  /** Nor when it is tried again. */
  method TryAgainInVain(c: DistributedBakes, id: JobId, ghost lots: seq<Lot>) returns (r: Assembly)
    requires c.Valid() && HasAll(c.jobs, id, lots, Failed) && id !in c.disk
    modifies c`jobs, c`leases, c`past
    ensures c.Valid() && r == Refused(Missing) && HasAll(c.jobs, id, lots, Failed)
  {
    hide *;
    TriedAgainIs(c.jobs, id, lots, Failed, c.maxAttempts);
    var ok := c.RetryJob(id);
    r := PutTogetherInVain(c, id, lots, Assembling);
  }

  lemma AssembledIs(jobs: map<JobId, Record>, id: JobId, lots: seq<Lot>, max: nat)
    requires HasAll(jobs, id, lots, Assembling)
    ensures id in jobs && jobs[id].shards != [] && jobs[id].AllDone()
    ensures HasAll(AfterAt(jobs, id, Import, max), id, lots, Importing)
  {
  }

  /** A job is put together, and its record written down before it is published. */
  method PutTogetherAndSave(c: DistributedBakes, id: JobId, ghost lots: seq<Lot>) returns (r: Assembly)
    requires c.Valid() && HasAll(c.jobs, id, lots, Assembling)
    modifies c`jobs, c`leases, c`past, c`saved
    ensures c.Valid() && (r.Assembled? ==> HasAll(c.jobs, id, lots, Importing) && HasAll(c.saved, id, lots, Importing))
  {
    hide *;
    AssembledIs(c.jobs, id, lots, c.maxAttempts);
    r := c.Assemble(id, true);
    if r.Assembled? {
      HasTheJob(c.jobs, id, lots, Importing);
      SavedIs(c.saved, id, c.jobs[id], lots, Importing, c.jobs);
      c.Save(id);
    }
  }

  /**
   A job is put together and published, and its fragments are removed; the
   coordinator dies before the record says so. What comes back is to be put
   together again and cannot be, nor after it is tried again.
   */
  method PublishedBeforeItsRecord(c: DistributedBakes, id: JobId, ghost lots: seq<Lot>)
    returns (made: Assembly, one: Assembly, two: Assembly)
    requires c.Valid() && HasAll(c.jobs, id, lots, Assembling)
    modifies c
    ensures c.Valid()
    ensures made.Assembled? ==> one == Refused(Missing) && two == Refused(Missing) && HasAll(c.jobs, id, lots, Failed)
  {
    hide *;
    made := PutTogetherAndSave(c, id, lots);
    one, two := made, made;
    if made.Assembled? {
      EndedIs(c.jobs, id, lots, Importing, Step.Finish, c.maxAttempts);
      c.Finish(id);
      c.Clear(id);
      LoadedIs(c.saved, c.disk, id, lots, Importing);
      c.Load();
      one := PutTogetherInVain(c, id, lots, Assembling);
      two := TryAgainInVain(c, id, lots);
    }
  }

  /**
   A job is tried again while it is being published: it is put together a second
   time, and the first, once published, removes the fragments under the second.
   The job is published, and has failed.
   */
  method PublishedUnderASecond(c: DistributedBakes, id: JobId, ghost lots: seq<Lot>)
    returns (made: Assembly, one: Assembly)
    requires c.Valid() && HasAll(c.jobs, id, lots, Assembling)
    modifies c
    ensures c.Valid() && (made.Assembled? ==> one == Refused(Missing) && HasAll(c.jobs, id, lots, Failed))
  {
    hide *;
    made := PutTogetherAndSave(c, id, lots);
    one := made;
    if made.Assembled? {
      TriedAgainIs(c.jobs, id, lots, Importing, c.maxAttempts);
      var ok := c.RetryJob(id);
      EndedIs(c.jobs, id, lots, Assembling, Step.Finish, c.maxAttempts);
      c.Finish(id);
      c.Clear(id);
      one := PutTogetherInVain(c, id, lots, Phase.Finished);
    }
  }

  /**
   A job that failed is discarded while its record is still being written: that
   lands after the record was removed. After a restart the job is back, says all
   its shards are done, and has none of their fragments.
   */
  method DiscardedComesBack(c: DistributedBakes, id: JobId, ghost lots: seq<Lot>) returns (r: Assembly)
    requires c.Valid() && HasAll(c.jobs, id, lots, Failed) && id in c.jobs && c.jobs[id].finished
    modifies c
    ensures c.Valid() && r == Refused(Missing) && HasAll(c.jobs, id, lots, Failed)
  {
    hide *;
    HasTheJob(c.jobs, id, lots, Failed);
    var note := Note(id, c.jobs[id]);
    ghost var was := c.jobs;
    var ok := c.Discard(id);
    SavedIs(c.saved, id, note.record, lots, Failed, was);
    c.LandSave(note);
    LoadedIs(c.saved, c.disk, id, lots, Failed);
    c.Load();
    r := TryAgainInVain(c, id, lots);
  }

  lemma HasTheJob(jobs: map<JobId, Record>, id: JobId, lots: seq<Lot>, phase: Phase)
    requires HasAll(jobs, id, lots, phase)
    ensures id in jobs
  {
  }

  /** No run of steps of a job brings back a fragment that is missing: whatever is done stays so. */
  lemma NothingHelps(job: Record, steps: seq<Step>, max: nat, files: Files)
    requires AfterAll(job, steps, max).Some? && !Intact(job.shards, files)
    ensures !Intact(AfterAll(job, steps, max).value.shards, files)
  {
    RunKeepsDone(job, steps, max);
    var after := AfterAll(job, steps, max).value.shards;
    hide AfterAll;
    var i :| 0 <= i < |job.shards| && job.shards[i].state.Done? && job.shards[i].fragment && i !in files;
    assert after[i].state.Done? && after[i].fragment;
  }
}
