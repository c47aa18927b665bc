/**
 Beginning a job, planning it, writing it down, forgetting it, and coming back to it all after the
 coordinator has died.
 */
module Restarts {
  import opened Archive
  import opened Books
  import opened Leasing
  import opened Plan

  /** Nothing has happened yet. */
  ghost function NothingKept(): Ledger {
    Ledger(map[], map[], map[], map[], {}, map[], map[], map[], true, History(0, false), map[], {})
  }

  lemma NothingIsKept(max: nat)
    requires 1 <= max
    ensures Kept(NothingKept(), max)
  {
  }

  /** The ledger with one job put in or replaced, nothing else changed. */
  ghost function WithJob(l: Ledger, id: JobId, job: Record): Ledger {
    l.(jobs := l.jobs[id := job])
  }

  /** A job that has just been asked for. */
  function Asked(createdAt: int, remote: bool): Record {
    Record(createdAt, Planning, false, remote, [])
  }

  ghost function Begun(l: Ledger, id: JobId, job: Record, c: Commission): Ledger {
    l.(jobs := l.jobs[id := job], saved := l.saved[id := job], commissions := l.commissions[id := c])
  }

  /** Nothing a job's keeping rests on differs, but for leases of other jobs. */
  ghost predicate SameFor(l: Ledger, m: Ledger, o: JobId) {
    && o in l.jobs && o in m.jobs && m.jobs[o] == l.jobs[o] && m.FilesOf(o) == l.FilesOf(o)
    && o in l.commissions && o in m.commissions && m.commissions[o] == l.commissions[o]
    && m.granted == l.granted && m.honest == l.honest && m.past == l.past
    && (forall k :: k in l.Known() && l.Known()[k].job == o ==> k in m.Known() && m.Known()[k] == l.Known()[k])
  }

  lemma SameIsKept(l: Ledger, m: Ledger, o: JobId, max: nat)
    requires SameFor(l, m, o) && KeptJob(l, o, max)
    ensures KeptJob(m, o, max)
  {
    hide JobKept, Ledger.FilesOf, Ledger.Known, Sound;
    SubmapOfItself(l.granted);
    JobStaysKept(o, l.jobs[o], l.FilesOf(o), l.Known(), l.granted, l.commissions[o], l.honest, max, l.past, m.Known(),
                 m.granted, m.honest, m.past);
  }

  /** Nothing a record's keeping rests on differs. */
  ghost predicate SameToNote(l: Ledger, m: Ledger, o: JobId) {
    && (o in m.jobs <==> o in l.jobs) && (o in l.jobs ==> m.jobs[o] == l.jobs[o]) && m.FilesOf(o) == l.FilesOf(o)
    && o in l.commissions && o in m.commissions && m.commissions[o] == l.commissions[o]
    && m.granted == l.granted && m.honest == l.honest && m.past == l.past
  }

  lemma SameIsNoted(l: Ledger, m: Ledger, o: JobId, record: Record, max: nat)
    requires SameToNote(l, m, o)
    ensures NoteKept(l, o, record, max) <==> NoteKept(m, o, record, max)
  {
    hide JobKept, SavedKept, Ledger.FilesOf;
  }

  /** Where only what is written down differs, and all of it fits, everything is kept. */
  lemma NotesChange(l: Ledger, m: Ledger, max: nat)
    requires Kept(l, max) && m == l.(saved := m.saved, late := m.late)
    requires forall id :: id in m.saved ==> NoteKept(l, id, m.saved[id], max)
    requires forall n :: n in m.late ==> NoteKept(l, n.id, n.record, max)
    ensures Kept(m, max)
  {
    SameDisk(l, m);
    AgreeIs(l, m);
    NotesDoNotMatter(l, m, max);
    hide KeptJob, NoteKept, DiskAgrees, LeasesAgree;
  }

  lemma NotesDoNotMatter(l: Ledger, m: Ledger, max: nat)
    requires m == l.(saved := m.saved, late := m.late)
    ensures forall id :: id in l.jobs && KeptJob(l, id, max) ==> KeptJob(m, id, max)
    ensures forall id, record :: NoteKept(l, id, record, max) ==> NoteKept(m, id, record, max)
  {
    assert forall id :: m.FilesOf(id) == l.FilesOf(id);
    assert m.Known() == l.Known();
    hide JobKept, SavedKept, Ledger.FilesOf, Ledger.Known;
  }

  lemma AskedIsKept(id: JobId, createdAt: int, remote: bool, known: map<LeaseId, Ref>, granted: map<LeaseId, Ref>,
                    c: Commission, honest: bool, max: nat, past: History)
    requires 1 <= max && c.Valid() && createdAt == c.createdAt && remote == c.remote
    ensures var job := Asked(createdAt, remote);
            && JobKept(id, job, map[], known, granted, c, honest, max, past)
            && SavedKept(id, job, job, granted, max, past)
  {
    hide Commission.Valid, IsHonest, IsPlanOf;
  }

  lemma BegunJobKept(l: Ledger, id: JobId, createdAt: int, remote: bool, c: Commission, max: nat)
    requires 1 <= max && id !in l.taken && c.Valid() && createdAt == c.createdAt && remote == c.remote
    ensures var m := Begun(l, id, Asked(createdAt, remote), c);
            KeptJob(m, id, max) && NoteKept(m, id, Asked(createdAt, remote), max)
  {
    var m := Begun(l, id, Asked(createdAt, remote), c);
    assert m.FilesOf(id) == map[];
    AskedIsKept(id, createdAt, remote, m.Known(), m.granted, c, m.honest, max, m.past);
    hide Commission.Valid, JobKept, SavedKept, Asked, Ledger.Known, Ledger.FilesOf;
  }

  lemma OthersSameBegun(l: Ledger, id: JobId, job: Record, c: Commission, o: JobId)
    requires id !in l.commissions && id !in l.jobs && o in l.commissions
    ensures SameToNote(l, Begun(l, id, job, c), o) && (o in l.jobs ==> SameFor(l, Begun(l, id, job, c), o))
  {
  }

  lemma DiskBegun(l: Ledger, id: JobId, job: Record, c: Commission)
    requires DiskAgrees(l) && LeasesAgree(l)
    ensures DiskAgrees(Begun(l, id, job, c)) && LeasesAgree(Begun(l, id, job, c))
  {
    var m := Begun(l, id, job, c);
    forall o
      ensures OnDisk(m, o)
    {
      assert OnDisk(l, o);
    }
  }

  lemma NoteHasCommission(l: Ledger, id: JobId, record: Record, max: nat)
    requires NoteKept(l, id, record, max)
    ensures id in l.commissions
  {
  }

  lemma BeginningKeeps(l: Ledger, id: JobId, createdAt: int, remote: bool, c: Commission, max: nat)
    requires Kept(l, max) && id !in l.commissions && id !in l.jobs && c.Valid()
    requires createdAt == c.createdAt && remote == c.remote
    ensures Kept(Begun(l, id, Asked(createdAt, remote), c), max)
  {
    var job := Asked(createdAt, remote);
    var m := Begun(l, id, job, c);
    BegunIs(l, id, job, c);
    hide *;
    DiskIsKept(l, max);
    OnlyTakenIfKnown(l, id, max);
    BegunJobKept(l, id, createdAt, remote, c, max);
    DiskBegun(l, id, job, c);
    NotesAre(l, max);
    forall o | o in m.jobs
      ensures KeptJob(m, o, max)
    {
      if o != id {
        OtherJobBegun(l, id, job, c, o, max);
      }
    }
    forall o | o in m.saved
      ensures NoteKept(m, o, m.saved[o], max)
    {
      if o != id {
        BegunNote(l, id, job, c, o, m.saved[o], max);
      }
    }
    forall n | n in m.late
      ensures NoteKept(m, n.id, n.record, max)
    {
      BegunNote(l, id, job, c, n.id, n.record, max);
    }
    KeptFromJobs(m, max);
  }

  lemma BegunIs(l: Ledger, id: JobId, job: Record, c: Commission)
    ensures var m := Begun(l, id, job, c);
            && m.jobs == l.jobs[id := job] && m.saved == l.saved[id := job] && m.late == l.late
  {
  }

  /** No fragment has been taken for a job that was never asked for. */
  lemma OnlyTakenIfKnown(l: Ledger, id: JobId, max: nat)
    requires Kept(l, max)
    ensures id in l.taken ==> id in l.commissions
  {
    hide KeptJob, AllNoted, LeasesAgree;
  }

  lemma OtherJobBegun(l: Ledger, id: JobId, job: Record, c: Commission, o: JobId, max: nat)
    requires Kept(l, max) && id !in l.commissions && id !in l.jobs && o in l.jobs
    ensures o in Begun(l, id, job, c).jobs && KeptJob(Begun(l, id, job, c), o, max)
  {
    BegunIs(l, id, job, c);
    hide *;
    KeptParts(l, o, max);
    OthersSameBegun(l, id, job, c, o);
    SameIsKept(l, Begun(l, id, job, c), o, max);
  }

  lemma BegunNote(l: Ledger, id: JobId, job: Record, c: Commission, o: JobId, record: Record, max: nat)
    requires NoteKept(l, o, record, max) && id !in l.commissions && id !in l.jobs
    ensures NoteKept(Begun(l, id, job, c), o, record, max)
  {
    NoteHasCommission(l, o, record, max);
    hide NoteKept, SameToNote, SameFor;
    OthersSameBegun(l, id, job, c, o);
    SameIsNoted(l, Begun(l, id, job, c), o, record, max);
  }

  /** Planned: every shard is waiting, and nobody has tried any. */
  function Planned(job: Record, shards: seq<Shard>): Record {
    job.(phase := Running,
         shards := seq(|shards|, i requires 0 <= i < |shards| => Lot(shards[i], Pending, 0, None, false)))
  }

  lemma PlannedIsFresh(id: JobId, job: Record, shards: seq<Shard>, files: Files, c: Commission,
                       known: map<LeaseId, Ref>, max: nat, past: History)
    requires 1 <= max && shards != []
    ensures var after := Planned(job, shards);
            && Sound(after, max, past) && LeasesBack(id, after.shards, known) && Stowed(after.shards, files)
            && HonestLots(c, after.shards, files) && Spans(after.shards) == shards && after.shards != []
            && SameTerms(job, after)
  {
    var after := Planned(job, shards);
    assert after.shards[0].Open();
    assert Spans(after.shards) == shards;
    hide IsHonest, Checked;
  }

  lemma PlannedJobKept(id: JobId, job: Record, files: Files, l: Ledger, c: Commission, shards: seq<Shard>, max: nat)
    requires 1 <= max && JobKept(id, job, files, l.Known(), l.granted, c, l.honest, max, l.past)
    requires IsPlanOf(c, shards) && shards != []
    ensures JobKept(id, Planned(job, shards), files, l.Known(), l.granted, c, l.honest, max, l.past)
  {
    hide *;
    JobHas(id, job, files, l.Known(), l.granted, c, l.honest, max, l.past);
    PlannedIsFresh(id, job, shards, files, c, l.Known(), max, l.past);
    PlannedIsFresh(id, job, shards, files, c, l.granted, max, l.past);
    TermsFollow(job, Planned(job, shards), c);
    JobHasAgain(id, Planned(job, shards), files, l.Known(), l.granted, c, l.honest, max, l.past);
  }

  lemma OthersStayWith(l: Ledger, id: JobId, job: Record)
    requires id in l.jobs && LeasesAgree(l) && DiskAgrees(l)
    ensures var m := WithJob(l, id, job);
            && OthersStay(l, m, id) && id in m.jobs && m.jobs[id] == job && m.FilesOf(id) == l.FilesOf(id)
            && m.Known() == l.Known() && m.granted == l.granted && m.past == l.past && m.commissions == l.commissions
            && m.honest == l.honest
  {
    SameDisk(l, WithJob(l, id, job));
    hide DiskAgrees, Ledger.FilesOf;
  }

  /**
   Planning a job keeps everything; a plan redone cuts it the same, so fragments that outlived an
   earlier one still fit.
   */
  lemma PlanningKeeps(l: Ledger, id: JobId, shards: seq<Shard>, max: nat)
    requires Kept(l, max) && id in l.jobs && l.jobs[id].phase.Planning? && id in l.commissions
    requires IsPlanOf(l.commissions[id], shards) && shards != []
    ensures Kept(WithJob(l, id, Planned(l.jobs[id], shards)), max)
  {
    PlanningHasNone(l, id, max);
    hide *;
    KeptParts(l, id, max);
    var m := WithJob(l, id, Planned(l.jobs[id], shards));
    OthersStayWith(l, id, Planned(l.jobs[id], shards));
    PlannedJobKept(id, l.jobs[id], l.FilesOf(id), l, l.commissions[id], shards, max);
    KeptAgain(m, id, max);
    NothingWasDone(l.jobs[id], Planned(l.jobs[id], shards));
    OneJobChanged(l, m, id, max);
  }

  lemma NothingWasDone(job: Record, after: Record)
    requires job.shards == [] && SameTerms(job, after)
    ensures MovesOn(job, after)
  {
  }

  lemma PlanningHasNone(l: Ledger, id: JobId, max: nat)
    requires Kept(l, max) && id in l.jobs && l.jobs[id].phase.Planning?
    ensures l.jobs[id].shards == []
  {
    assert KeptJob(l, id, max);
  }

  /** A job as it is now can be written down, now or later. */
  lemma JobCanBeNoted(l: Ledger, id: JobId, max: nat)
    requires Kept(l, max) && id in l.jobs
    ensures NoteKept(l, id, l.jobs[id], max)
  {
    KeptParts(l, id, max);
    assert StaysDone(l.jobs[id].shards, l.jobs[id].shards);
    hide Kept, Sound, LeasesBack, Stowed, Commission.Valid, IsPlanOf, HonestLots, HonestFiles, StaysDone;
  }

  lemma NotesAre(l: Ledger, max: nat)
    requires Kept(l, max)
    ensures (forall id :: id in l.saved ==> NoteKept(l, id, l.saved[id], max))
    ensures (forall n :: n in l.late ==> NoteKept(l, n.id, n.record, max))
  {
    hide NoteKept, KeptJob, LeasesAgree, DiskAgrees;
  }

  /** A record that fits can be written down, or be begun to be. */
  lemma OneMoreSaved(l: Ledger, id: JobId, record: Record, max: nat)
    requires Kept(l, max) && NoteKept(l, id, record, max)
    ensures Kept(l.(saved := l.saved[id := record]), max)
  {
    NotesAre(l, max);
    hide Kept, NoteKept;
    NotesChange(l, l.(saved := l.saved[id := record]), max);
  }

  lemma OneMoreLate(l: Ledger, n: Note, max: nat)
    requires Kept(l, max) && NoteKept(l, n.id, n.record, max)
    ensures Kept(l.(late := l.late + {n}), max)
  {
    NotesAre(l, max);
    hide Kept, NoteKept;
    NotesChange(l, l.(late := l.late + {n}), max);
  }

  /** Writing a job down as it is now keeps everything, and so does beginning to. */
  lemma SavingKeeps(l: Ledger, id: JobId, max: nat)
    requires Kept(l, max) && id in l.jobs
    ensures Kept(l.(saved := l.saved[id := l.jobs[id]]), max)
    ensures Kept(l.(late := l.late + {Note(id, l.jobs[id])}), max)
  {
    hide *;
    JobCanBeNoted(l, id, max);
    OneMoreSaved(l, id, l.jobs[id], max);
    OneMoreLate(l, Note(id, l.jobs[id]), max);
  }

  /** A write begun earlier lands, whatever has happened since. */
  lemma LandingKeeps(l: Ledger, n: Note, max: nat)
    requires Kept(l, max) && n in l.late
    ensures Kept(l.(saved := l.saved[n.id := n.record]), max)
  {
    hide *;
    NotesAre(l, max);
    OneMoreSaved(l, n.id, n.record, max);
  }

  /** A record on disk can go. */
  lemma UnsavingKeeps(l: Ledger, id: JobId, max: nat)
    requires Kept(l, max)
    ensures Kept(l.(saved := l.saved - {id}), max)
  {
    NotesAre(l, max);
    hide Kept, NoteKept;
    NotesChange(l, l.(saved := l.saved - {id}), max);
  }

  /** A record that may be written down, whatever becomes of its job, is one to pick the job up from. */
  lemma NoteIsAJob(l: Ledger, id: JobId, record: Record, max: nat)
    requires Kept(l, max) && NoteKept(l, id, record, max)
    ensures id in l.commissions
    ensures JobKept(id, record, l.FilesOf(id), l.granted, l.granted, l.commissions[id], l.honest, max, l.past)
  {
    if id in l.jobs {
      KeptParts(l, id, max);
      hide Kept;
      SavedIsAJob(id, record, l.jobs[id], l.FilesOf(id), l.Known(), l.granted, l.commissions[id], l.honest, max,
                  l.past);
    }
  }

  lemma SavedIsAJob(id: JobId, saved: Record, job: Record, files: Files, leases: map<LeaseId, Ref>,
                    granted: map<LeaseId, Ref>, c: Commission, honest: bool, max: nat, past: History)
    requires JobKept(id, job, files, leases, granted, c, honest, max, past)
    requires SavedKept(id, saved, job, granted, max, past)
    ensures JobKept(id, saved, files, granted, granted, c, honest, max, past)
  {
    if saved.shards == [] {
      NothingIsStowed(c, saved.shards, files);
    } else {
      SavedIsStowed(saved.shards, job.shards, files, c);
      SpansStay(saved.shards, job.shards);
      StaysPlanned(saved.shards, job.shards);
    }
    hide Sound, LeasesBack, Stowed, IsPlanOf, HonestLots, HonestFiles, StaysDone, Commission.Valid;
  }

  lemma NothingIsStowed(c: Commission, lots: seq<Lot>, files: Files)
    requires lots == []
    ensures Stowed(lots, files) && HonestLots(c, lots, files)
  {
  }

  /**
   The ledger once a job is forgotten: whoever has its shards with it. Its
   fragments and its record are still to be removed, and whatever write of its
   record is still to come may undo the last.
   */
  ghost function Forgotten(l: Ledger, id: JobId, leases: map<LeaseId, Ref>): Ledger
    requires id in l.jobs
  {
    l.(jobs := l.jobs - {id}, late := l.late + {Note(id, l.jobs[id])}, leases := leases, cleared := l.cleared + {id})
  }

  lemma OthersSameForgotten(l: Ledger, id: JobId, leases: map<LeaseId, Ref>, o: JobId)
    requires id in l.jobs && o in l.commissions && o != id && Submap(leases, l.leases)
    requires forall k :: k in l.leases && l.leases[k].job != id ==> k in leases
    ensures var m := Forgotten(l, id, leases); SameToNote(l, m, o) && (o in l.jobs ==> SameFor(l, m, o))
  {
    var m := Forgotten(l, id, leases);
    assert m.leases == leases && m.FilesOf(o) == l.FilesOf(o);
  }

  lemma ForgottenNote(l: Ledger, id: JobId, leases: map<LeaseId, Ref>, o: JobId, record: Record, max: nat)
    requires Kept(l, max) && id in l.jobs && NoteKept(l, o, record, max) && Submap(leases, l.leases)
    requires forall k :: k in l.leases && l.leases[k].job != id ==> k in leases
    ensures NoteKept(Forgotten(l, id, leases), o, record, max)
  {
    var m := Forgotten(l, id, leases);
    NoteIsAJob(l, o, record, max);
    if o == id {
      assert m.FilesOf(id) == l.FilesOf(id);
      hide Kept, JobKept, Ledger.FilesOf;
    } else {
      hide Kept, NoteKept, JobKept, SameToNote, SameFor;
      OthersSameForgotten(l, id, leases, o);
      SameIsNoted(l, m, o, record, max);
    }
  }

  lemma ForgettingKeeps(l: Ledger, id: JobId, leases: map<LeaseId, Ref>, max: nat)
    requires Kept(l, max) && id in l.jobs && Submap(leases, l.leases)
    requires forall k :: k in l.leases && l.leases[k].job != id ==> k in leases
    ensures Kept(Forgotten(l, id, leases), max)
  {
    hide *;
    var m := Forgotten(l, id, leases);
    ForgottenIs(l, id, leases, max);
    JobCanBeNoted(l, id, max);
    NotesAre(l, max);
    forall o | o in m.jobs
      ensures KeptJob(m, o, max)
    {
      KeptParts(l, o, max);
      OthersSameForgotten(l, id, leases, o);
      SameIsKept(l, m, o, max);
    }
    forall o | o in m.saved
      ensures NoteKept(m, o, m.saved[o], max)
    {
      ForgottenNote(l, id, leases, o, m.saved[o], max);
    }
    forall n | n in m.late
      ensures NoteKept(m, n.id, n.record, max)
    {
      ForgottenNote(l, id, leases, n.id, n.record, max);
    }
    KeptFromJobs(m, max);
  }

  lemma ForgottenIs(l: Ledger, id: JobId, leases: map<LeaseId, Ref>, max: nat)
    requires Kept(l, max) && id in l.jobs && Submap(leases, l.leases)
    ensures var m := Forgotten(l, id, leases);
            && 1 <= max && LeasesAgree(m) && DiskAgrees(m)
            && (forall o :: o in m.jobs ==> o in l.jobs && o != id) && m.saved == l.saved
            && (forall n :: n in m.late ==> n in l.late || n == Note(id, l.jobs[id]))
  {
    hide KeptJob, AllNoted;
    var m := Forgotten(l, id, leases);
    forall o
      ensures OnDisk(m, o)
    {
      assert OnDisk(l, o);
    }
  }

  /** Some of a job's fragments are removed. */
  ghost function Erased(l: Ledger, id: JobId, gone: set<nat>): Ledger {
    l.(disk := l.disk[id := l.FilesOn(id) - gone], cleared := l.cleared + {id})
  }

  lemma ErasedAt(l: Ledger, id: JobId, gone: set<nat>, o: JobId)
    requires OnDisk(l, o)
    ensures OnDisk(Erased(l, id, gone), o) && OnDisk(l.(cleared := l.cleared + {id}), o)
  {
    assert Erased(l, id, gone).FilesOf(o) == l.FilesOf(o);
    assert Erased(l, id, gone).FilesOn(o) == if o == id then l.FilesOn(id) - gone else l.FilesOn(o);
    hide Ledger.FilesOf;
  }

  lemma DiskErased(l: Ledger, id: JobId, gone: set<nat>)
    requires DiskAgrees(l)
    ensures DiskAgrees(Erased(l, id, gone)) && DiskAgrees(l.(cleared := l.cleared + {id}))
  {
    hide OnDisk, Ledger.FilesOn;
    forall o
      ensures OnDisk(Erased(l, id, gone), o) && OnDisk(l.(cleared := l.cleared + {id}), o)
    {
      ErasedAt(l, id, gone, o);
    }
  }

  lemma DiskChanges(l: Ledger, m: Ledger, max: nat)
    requires Kept(l, max) && DiskAgrees(m) && m == l.(disk := m.disk, cleared := m.cleared)
    ensures Kept(m, max)
  {
    assert LeasesAgree(m);
    DiskDoesNotMatter(l, m, max);
    hide KeptJob, NoteKept, DiskAgrees, LeasesAgree;
  }

  lemma DiskIsKept(l: Ledger, max: nat)
    requires Kept(l, max)
    ensures DiskAgrees(l) && LeasesAgree(l) && 1 <= max
  {
    hide DiskAgrees, KeptJob, AllNoted, LeasesAgree;
  }

  /** Removing fragments keeps everything, and so does beginning to. */
  lemma ErasingKeeps(l: Ledger, id: JobId, gone: set<nat>, max: nat)
    requires Kept(l, max)
    ensures Kept(Erased(l, id, gone), max) && Kept(l.(cleared := l.cleared + {id}), max)
  {
    DiskIsKept(l, max);
    DiskErased(l, id, gone);
    hide Kept, DiskAgrees, Ledger.FilesOn;
    DiskChanges(l, Erased(l, id, gone), max);
    DiskChanges(l, l.(cleared := l.cleared + {id}), max);
  }

  /** All of them are. */
  ghost function Cleared(l: Ledger, id: JobId): Ledger {
    l.(disk := l.disk - {id}, cleared := l.cleared + {id})
  }

  lemma ClearedAt(l: Ledger, id: JobId, o: JobId)
    requires OnDisk(l, o)
    ensures OnDisk(Cleared(l, id), o)
  {
    assert Cleared(l, id).FilesOf(o) == l.FilesOf(o);
    assert Cleared(l, id).FilesOn(o) == if o == id then map[] else l.FilesOn(o);
    hide Ledger.FilesOf;
  }

  lemma DiskCleared(l: Ledger, id: JobId)
    requires DiskAgrees(l)
    ensures DiskAgrees(Cleared(l, id))
  {
    hide OnDisk, Ledger.FilesOn;
    forall o
      ensures OnDisk(Cleared(l, id), o)
    {
      ClearedAt(l, id, o);
    }
  }

  lemma ClearingKeeps(l: Ledger, id: JobId, max: nat)
    requires Kept(l, max)
    ensures Kept(Cleared(l, id), max)
  {
    DiskIsKept(l, max);
    DiskCleared(l, id);
    hide Kept, DiskAgrees;
    DiskChanges(l, Cleared(l, id), max);
  }

  lemma DiskDoesNotMatter(l: Ledger, m: Ledger, max: nat)
    requires m == l.(disk := m.disk, cleared := m.cleared)
    ensures forall id :: id in l.jobs && KeptJob(l, id, max) ==> KeptJob(m, id, max)
    ensures forall id, record :: NoteKept(l, id, record, max) ==> NoteKept(m, id, record, max)
  {
    assert forall id :: m.FilesOf(id) == l.FilesOf(id);
    assert m.Known() == l.Known();
    hide JobKept, SavedKept, Ledger.FilesOf, Ledger.Known;
  }

  /** The background work of a job that was discarded goes on, and may yet write its record down. */
  ghost function WorkedLate(l: Ledger, n: Note, step: Step, max: nat): Ledger
    requires Allowed(n.record, step)
  {
    l.(late := l.late + {Note(n.id, After(n.record, step, max))})
  }

  lemma WorkedLateIs(l: Ledger, n: Note, step: Step, max: nat)
    requires Allowed(n.record, step)
    ensures WorkedLate(l, n, step, max) == l.(late := l.late + {Note(n.id, After(n.record, step, max))})
  {
    hide After, Allowed;
  }

  lemma WorkingLateKeeps(l: Ledger, n: Note, step: Step, max: nat)
    requires Kept(l, max) && n in l.late && n.id !in l.jobs && Allowed(n.record, step) && !n.record.phase.Running?
    requires step.Import? || step.Finish? || step.Break?
    ensures Kept(WorkedLate(l, n, step, max), max)
  {
    NotesAre(l, max);
    assert 1 <= max;
    hide *;
    LateWorkIsKept(l, n, step, max);
    OneMoreLate(l, Note(n.id, After(n.record, step, max)), max);
    WorkedLateIs(l, n, step, max);
  }

  lemma NothingNewIsLate(job: Record, step: Step, max: nat, past: History)
    requires Sound(job, max, past) && !job.phase.Running? && (step.Import? || step.Finish? || step.Break?)
    ensures PastAfter(past, job, step) == past
  {
    hide AllFit, AnyLent;
  }

  lemma LateWorkIsKept(l: Ledger, n: Note, step: Step, max: nat)
    requires 1 <= max && n.id !in l.jobs && Allowed(n.record, step) && NoteKept(l, n.id, n.record, max)
    requires !n.record.phase.Running?
    requires step.Import? || step.Finish? || step.Break?
    ensures NoteKept(l, n.id, After(n.record, step, max), max)
  {
    var job, after := n.record, After(n.record, step, max);
    var c := l.commissions[n.id];
    StepIsSound(job, step, max, l.past);
    NothingNewIsLate(job, step, max, l.past);
    assert after.shards == job.shards;
    hide Sound, LeasesBack, Stowed, IsPlanOf, HonestLots, HonestFiles, Commission.Valid, After, Allowed;
  }

  /** Which phases are gone through for fragments the record had not caught up with. */
  predicate Recoverable(phase: Phase) {
    phase.Running? || phase.Stalled? || phase.Cancelled?
  }

  /** A shard as it is found again: done, if its fragment is there and is what it should be. */
  ghost function RecoveredLot(e: Lot, i: nat, files: Files): Lot {
    if !e.state.Done? && i in files &&
      Checked(e.shard, files[i]) then e.(state := Done, fragment := true, lease := None) else e
  }

  ghost function RecoveredLots(lots: seq<Lot>, files: Files): (r: seq<Lot>)
    ensures |r| == |lots| && forall i :: 0 <= i < |r| ==> r[i] == RecoveredLot(lots[i], i, files)
  {
    seq(|lots|, i requires 0 <= i < |lots| => RecoveredLot(lots[i], i, files))
  }

  /** A job as it is picked up again from its record and its fragments. */
  ghost function Reloaded(saved: Record, files: Files): Record {
    if Recoverable(saved.phase) then saved.(shards := RecoveredLots(saved.shards, files)).Moved()
    else if saved.phase.Importing? then saved.(phase := Assembling)
    else saved
  }

  /**
   Only a job that was running, stalled or stopped is gone through for fragments. What any other record says stands,
   but that one being imported is put together again.
   */
  lemma OthersAreAsWritten(saved: Record, files: Files)
    requires !saved.phase.Running? && !saved.phase.Stalled? && !saved.phase.Cancelled?
    ensures Reloaded(saved, files).shards == saved.shards && Reloaded(saved, files).finished == saved.finished
    ensures saved.phase.Importing? || saved.phase.Assembling? <==> Reloaded(saved, files).phase.Assembling?
    ensures !saved.phase.Importing? ==> Reloaded(saved, files) == saved
  {
  }

  lemma RecoveringStaysDone(lots: seq<Lot>, files: Files)
    ensures StaysDone(lots, RecoveredLots(lots, files)) && NoneNewlyLent(lots, RecoveredLots(lots, files))
  {
  }

  lemma MovingKeepsShards(job: Record)
    ensures job.Moved().shards == job.shards
  {
  }

  lemma RecoveredFit(lots: seq<Lot>, files: Files, max: nat, stops: nat)
    requires AllFit(lots, max, stops)
    ensures AllFit(RecoveredLots(lots, files), max, stops) && (AnyLent(RecoveredLots(lots, files)) ==> AnyLent(lots))
  {
    var after := RecoveredLots(lots, files);
    hide Checked;
    forall i | 0 <= i < |after|
      ensures Fits(after[i], max, stops) && (after[i].state.Leased? ==> lots[i].state.Leased?)
    {
      assert Fits(lots[i], max, stops);
    }
    hide Fits;
  }

  lemma ReloadedIsSound(saved: Record, files: Files, max: nat, past: History)
    requires Sound(saved, max, past)
    ensures Sound(Reloaded(saved, files), max, past)
  {
    if Recoverable(saved.phase) {
      var job := saved.(shards := RecoveredLots(saved.shards, files));
      RecoveredFit(saved.shards, files, max, past.stops);
      hide AllFit, AnyLent, RecoveredLots;
      if saved.phase.Running? {
        hide Record.Moved, Record.AnyOpen;
        OpenHasShards(saved);
        MovingIsSound(job, max, past);
      }
    }
  }

  lemma OpenHasShards(job: Record)
    requires job.AnyOpen()
    ensures job.shards != []
  {
  }

  lemma ReloadedShards(saved: Record, files: Files)
    ensures StaysDone(saved.shards, Reloaded(saved, files).shards) &&
            NoneNewlyLent(saved.shards, Reloaded(saved, files).shards)
    ensures SameTerms(saved, Reloaded(saved, files))
    ensures Reloaded(saved, files).shards ==
            if Recoverable(saved.phase) then RecoveredLots(saved.shards, files) else saved.shards
  {
    RecoveringStaysDone(saved.shards, files);
    MovingKeepsShards(saved.(shards := RecoveredLots(saved.shards, files)));
  }

  /** The record's shards are stowed because the job's were: what it says is done still is. */
  lemma SavedIsStowed(saved: seq<Lot>, lots: seq<Lot>, files: Files, c: Commission)
    requires StaysDone(saved, lots)
    ensures Stowed(lots, files) ==> Stowed(saved, files)
    ensures HonestLots(c, lots, files) ==> HonestLots(c, saved, files)
  {
    hide Checked, IsHonest;
  }

  lemma RecoveredIsStowed(lots: seq<Lot>, taken: Files, files: Files)
    requires Stowed(lots, taken) && Submap(files, taken)
    ensures Stowed(RecoveredLots(lots, files), taken)
  {
    hide Checked;
  }

  lemma RecoveredIsHonest(c: Commission, lots: seq<Lot>, taken: Files, files: Files)
    requires HonestLots(c, lots, taken) && HonestFiles(c, taken) && IsPlanOf(c, Spans(lots)) && Submap(files, taken)
    ensures HonestLots(c, RecoveredLots(lots, files), taken)
  {
    var after := RecoveredLots(lots, files);
    forall i | 0 <= i < |after| && after[i].state.Done?
      ensures IsHonest(c, after[i].shard, FileOf(after[i], i, taken))
    {
      if lots[i].state.Done? {
        assert IsHonest(c, lots[i].shard, FileOf(lots[i], i, taken));
      } else {
        assert IsHonest(c, Spans(lots)[i], Some(taken[i]));
      }
    }
  }

  /**
   The ledger after the coordinator has died and come back: what was written down, what is on disk, and
   the leases those records name.
   */
  ghost function Restarted(l: Ledger, leases: map<LeaseId, Ref>): Ledger {
    l.(jobs := map id | id in l.saved :: Reloaded(l.saved[id], l.FilesOn(id)), leases := leases, late := {},
       dropped := map[])
  }

  lemma ReloadedLotsKept(saved: Record, taken: Files, files: Files, c: Commission, honest: bool)
    requires Stowed(saved.shards, taken) && (honest ==> HonestLots(c, saved.shards, taken) && HonestFiles(c, taken))
    requires saved.shards != [] ==> IsPlanOf(c, Spans(saved.shards))
    requires Submap(files, taken)
    ensures var after := Reloaded(saved, files);
            && Stowed(after.shards, taken)
            && (after.shards != [] ==> IsPlanOf(c, Spans(after.shards)))
            && (honest ==> HonestLots(c, after.shards, taken))
  {
    ReloadedShards(saved, files);
    if saved.shards == [] {
      assert Reloaded(saved, files).shards == [];
    } else {
      SpansStay(saved.shards, Reloaded(saved, files).shards);
      RecoveredIsStowed(saved.shards, taken, files);
      if honest {
        RecoveredIsHonest(c, saved.shards, taken, files);
      }
      hide Stowed, HonestLots, HonestFiles, IsPlanOf, StaysDone, Reloaded;
    }
  }

  lemma ReloadedJobKept(id: JobId, saved: Record, taken: Files, files: Files, granted: map<LeaseId, Ref>,
                        c: Commission, honest: bool, max: nat, past: History, leases: map<LeaseId, Ref>)
    requires JobKept(id, saved, taken, granted, granted, c, honest, max, past)
    requires LeasesBack(id, saved.shards, leases) && Submap(files, taken)
    ensures JobKept(id, Reloaded(saved, files), taken, leases, granted, c, honest, max, past)
    ensures SavedKept(id, saved, Reloaded(saved, files), granted, max, past)
  {
    hide Sound, LeasesBack, Stowed, IsPlanOf, HonestLots, HonestFiles, StaysDone, Reloaded, NoneNewlyLent,
      Commission.Valid, Recoverable, Submap;
    ReloadedIsSound(saved, files, max, past);
    ReloadedShards(saved, files);
    EverPointsBack(id, saved.shards, Reloaded(saved, files).shards, leases);
    EverPointsBack(id, saved.shards, Reloaded(saved, files).shards, granted);
    ReloadedLotsKept(saved, taken, files, c, honest);
  }

  lemma ReloadedIsKept(l: Ledger, leases: map<LeaseId, Ref>, id: JobId, max: nat)
    requires Kept(l, max) && id in l.saved && LeasesBack(id, l.saved[id].shards, leases)
    ensures var m := Restarted(l, leases); id in m.jobs && KeptJob(m, id, max) && NoteKept(m, id, m.saved[id], max)
  {
    hide *;
    NotesAre(l, max);
    NoteIsAJob(l, id, l.saved[id], max);
    DiskIs(l, id, max);
    RestartedHas(l, leases, id);
    ReloadedJobKept(id, l.saved[id], l.FilesOf(id), l.FilesOn(id), l.granted, l.commissions[id], l.honest, max,
                    l.past, leases);
    ReloadedFits(Restarted(l, leases), id, max);
  }

  lemma RestartedHas(l: Ledger, leases: map<LeaseId, Ref>, id: JobId)
    requires id in l.saved
    ensures var m := Restarted(l, leases);
            && id in m.jobs && m.jobs[id] == Reloaded(l.saved[id], l.FilesOn(id)) && m.FilesOf(id) == l.FilesOf(id)
            && m.Known() == leases && m.saved == l.saved && m.granted == l.granted
            && m.commissions == l.commissions && m.honest == l.honest && m.past == l.past
  {
    hide Reloaded;
  }

  lemma ReloadedFits(m: Ledger, id: JobId, max: nat)
    requires id in m.jobs && id in m.saved && id in m.commissions
    requires JobKept(id, m.jobs[id], m.FilesOf(id), m.Known(), m.granted, m.commissions[id], m.honest, max, m.past)
    requires SavedKept(id, m.saved[id], m.jobs[id], m.granted, max, m.past)
    ensures KeptJob(m, id, max) && NoteKept(m, id, m.saved[id], max)
  {
    hide JobKept, SavedKept;
  }

  lemma DiskIs(l: Ledger, id: JobId, max: nat)
    requires Kept(l, max)
    ensures Submap(l.FilesOn(id), l.FilesOf(id)) && (id !in l.cleared ==> l.FilesOn(id) == l.FilesOf(id))
  {
    assert OnDisk(l, id);
  }

  /** Coming back after dying keeps everything, whenever each record had last been written down. */
  lemma RestartKeeps(l: Ledger, leases: map<LeaseId, Ref>, max: nat)
    requires Kept(l, max) && Submap(leases, l.granted)
    requires forall id :: id in l.saved ==> LeasesBack(id, l.saved[id].shards, leases)
    ensures Kept(Restarted(l, leases), max)
  {
    hide *;
    var m := Restarted(l, leases);
    RestartedIs(l, leases, max);
    forall id | id in m.saved
      ensures id in m.jobs && KeptJob(m, id, max) && NoteKept(m, id, m.saved[id], max)
    {
      ReloadedIsKept(l, leases, id, max);
    }
    KeptFromJobs(m, max);
  }

  lemma RestartedIs(l: Ledger, leases: map<LeaseId, Ref>, max: nat)
    requires Kept(l, max)
    ensures var m := Restarted(l, leases);
            && (forall id :: id in m.jobs <==> id in l.saved) && m.saved == l.saved && m.late == {} && 1 <= max
            && m.leases == leases && (Submap(leases, l.granted) ==> LeasesAgree(m)) && DiskAgrees(m)
  {
    SameDisk(l, Restarted(l, leases));
    hide Reloaded, DiskAgrees, KeptJob, AllNoted;
  }

  lemma RestartedJobs(l: Ledger, leases: map<LeaseId, Ref>, jobs: map<JobId, Record>)
    requires jobs.Keys == l.saved.Keys && forall id :: id in l.saved ==>
             jobs[id] == Reloaded(l.saved[id], l.FilesOn(id))
    ensures Restarted(l, leases) == l.(jobs := jobs, leases := leases, late := {}, dropped := map[])
    ensures Restarted(l, leases).jobs == jobs
  {
    hide Reloaded, Ledger.FilesOn;
    assert Restarted(l, leases).jobs.Keys == jobs.Keys;
    assert Restarted(l, leases).jobs == jobs;
  }

  lemma KeptFromJobs(m: Ledger, max: nat)
    requires 1 <= max && LeasesAgree(m) && DiskAgrees(m) && forall id :: id in m.jobs ==> KeptJob(m, id, max)
    requires forall id :: id in m.saved ==> NoteKept(m, id, m.saved[id], max)
    requires forall n :: n in m.late ==> NoteKept(m, n.id, n.record, max)
    ensures Kept(m, max)
  {
  }

  /** There is nothing missing: every shard that is done with a fragment has it on disk. */
  predicate Intact(lots: seq<Lot>, files: Files) {
    forall i :: 0 <= i < |lots| && lots[i].state.Done? && lots[i].fragment ==> i in files
  }

  /** Nothing is missing of a job picked up again exactly where nothing its record names is. */
  lemma ReloadedIsIntact(saved: Record, files: Files)
    ensures Intact(Reloaded(saved, files).shards, files) <==> Intact(saved.shards, files)
  {
    ReloadedShards(saved, files);
    hide Checked, Reloaded;
    var after := Reloaded(saved, files).shards;
    if Intact(after, files) {
      forall i | 0 <= i < |saved.shards| && saved.shards[i].state.Done? && saved.shards[i].fragment
        ensures i in files
      {
        assert after[i].state.Done? && after[i].fragment;
      }
    }
  }

  /** Unless a job's fragments have begun to be removed, nothing is missing of it. */
  lemma OnlyClearedIsMissing(l: Ledger, id: JobId, max: nat)
    requires Kept(l, max) && id in l.jobs && id !in l.cleared
    ensures Intact(l.jobs[id].shards, l.FilesOn(id))
  {
    KeptParts(l, id, max);
    DiskIs(l, id, max);
    JobHas(id, l.jobs[id], l.FilesOf(id), l.Known(), l.granted, l.commissions[id], l.honest, max, l.past);
    hide Kept, KeptJob, JobKept, Sound, LeasesBack, Checked;
  }

  lemma AcceptedIsFoundAgain(saved: Record, job: Record, taken: Files, files: Files, i: nat)
    requires Recoverable(saved.phase) && StaysDone(saved.shards, job.shards) && Stowed(job.shards, taken)
    requires i < |job.shards| && job.shards[i].state.Done? && job.shards[i].fragment && Submap(files, taken)
    ensures var after := Reloaded(saved, files);
            && i < |saved.shards| && i < |after.shards|
            && (after.shards[i].state.Done? <==> saved.shards[i].state.Done? || i in files)
            && (after.shards[i].state.Done? ==> after.shards[i].fragment)
            && (i in files ==> Checked(after.shards[i].shard, files[i]))
  {
    ReloadedShards(saved, files);
    hide Checked, Reloaded;
    assert i in taken && Checked(job.shards[i].shard, taken[i]);
    assert saved.shards[i].shard == job.shards[i].shard;
  }

  /**
   A shard accepted before the coordinator died, with a fragment, is accepted
   after exactly where its job's record says so, though that may be older, or its
   fragment is there; and it is, unless the job's fragments had begun to be removed.
   */
  lemma RestartLosesNothing(l: Ledger, leases: map<LeaseId, Ref>, id: JobId, i: nat, max: nat)
    requires Kept(l, max) && id in l.saved && id in l.jobs && l.saved[id].shards != []
    requires l.saved[id].phase.Running? || l.saved[id].phase.Stalled? || l.saved[id].phase.Cancelled?
    requires i < |l.jobs[id].shards| && l.jobs[id].shards[i].state.Done? && l.jobs[id].shards[i].fragment
    ensures var m := Restarted(l, leases);
            && id in m.jobs && i < |m.jobs[id].shards| && i < |l.saved[id].shards|
            && (m.jobs[id].shards[i].state.Done? <==> l.saved[id].shards[i].state.Done? || i in l.FilesOn(id))
            && (m.jobs[id].shards[i].state.Done? ==> m.jobs[id].shards[i].fragment)
            && m.FilesOn(id) == l.FilesOn(id)
            && (i in m.FilesOn(id) ==> Checked(m.jobs[id].shards[i].shard, m.FilesOn(id)[i]))
            && (id !in l.cleared ==> i in m.FilesOn(id))
  {
    assert Recoverable(l.saved[id].phase);
    hide *;
    KeptParts(l, id, max);
    DiskIs(l, id, max);
    AcceptedParts(l, id, i, max);
    RestartedAt(l, leases, id);
    AcceptedIsFoundAgain(l.saved[id], l.jobs[id], l.FilesOf(id), l.FilesOn(id), i);
  }

  lemma AcceptedParts(l: Ledger, id: JobId, i: nat, max: nat)
    requires Kept(l, max) && id in l.jobs && id in l.saved && l.saved[id].shards != []
    requires i < |l.jobs[id].shards| && l.jobs[id].shards[i].state.Done? && l.jobs[id].shards[i].fragment
    ensures Stowed(l.jobs[id].shards, l.FilesOf(id)) && i in l.FilesOf(id)
    ensures StaysDone(l.saved[id].shards, l.jobs[id].shards)
  {
    KeptParts(l, id, max);
    NotesAre(l, max);
    hide Kept, Sound, LeasesBack, Checked, StaysDone;
  }

  lemma RestartedAt(l: Ledger, leases: map<LeaseId, Ref>, id: JobId)
    requires id in l.saved
    ensures var m := Restarted(l, leases);
            id in m.jobs && m.jobs[id] == Reloaded(l.saved[id], l.FilesOn(id)) && m.FilesOn(id) == l.FilesOn(id)
  {
    hide Reloaded;
  }
}
