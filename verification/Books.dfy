/**
 Everything a coordinator of shared-out bakes keeps, in memory and on disk, and
 what has to hold of it all between one request and the next.
 */
module Books {
  import opened Archive
  import opened Assemble
  import opened Bake
  import opened Coverage
  import opened Leasing
  import opened Overlaps
  import opened Plan
  import opened Sharded
  import opened SharedBake
  import opened Union
  import Writer

  type JobId = string

  /** What a lease is of: a job's shard, lent to a worker. */
  datatype Ref = Ref(job: JobId, index: nat, worker: WorkerId)

  /**
   The stack a job is of, when it was asked for and whether workers are to share in it, what it is to
   bake, how big its shards are to be, and what its tiles are; and whether its shards' bakes are taken
   never to be killed half way into a checkpoint. It does not change while the job lasts.
   */
  datatype Commission = Commission(
    stack: string, createdAt: int, remote: bool, job: Job, stream: seq<Held>, tilesPerShard: real, kind: Kind,
    untorn: bool)
  {
    ghost predicate Valid() {
      job.Valid() && job.NoEmptyTiles() && job.ids == IdsIn(stream)
    }

    function PickedTiles(): seq<Held> {
      Picked(job, stream)
    }
  }

  /** A fragment that can be read at all. */
  type Upload = a: Archived | AllRuns(a.directories, a.data) witness Archived(UNKNOWN, [], [])

  type Files = map<nat, Upload>

  function Spans(lots: seq<Lot>): (shards: seq<Shard>)
    ensures |shards| == |lots| && forall i :: 0 <= i < |lots| ==> shards[i] == lots[i].shard
  {
    seq(|lots|, i requires 0 <= i < |lots| => lots[i].shard)
  }

  ghost predicate IsPlanOf(c: Commission, shards: seq<Shard>) {
    exists pieces :: IsPlan(shards, pieces, c.PickedTiles()) && Fair(pieces, ShareOf(c.tilesPerShard))
  }

  lemma OnePlan(c: Commission, a: seq<Shard>, b: seq<Shard>)
    requires IsPlanOf(c, a) && IsPlanOf(c, b)
    ensures a == b
  {
    var p :| IsPlan(a, p, c.PickedTiles()) && Fair(p, ShareOf(c.tilesPerShard));
    var q :| IsPlan(b, q, c.PickedTiles()) && Fair(q, ShareOf(c.tilesPerShard));
    PlanIsUnique(a, b, p, q, c.PickedTiles(), ShareOf(c.tilesPerShard));
  }

  /** Whoever a shard is lent to, its lease is registered, and points back at it. */
  ghost predicate PointsBack(id: JobId, i: nat, e: Lot, leases: map<LeaseId, Ref>) {
    e.state.Leased? && e.lease.Some? ==>
      e.lease.value.id in leases && leases[e.lease.value.id] == Ref(id, i, e.lease.value.worker)
  }

  ghost predicate LeasesBack(id: JobId, lots: seq<Lot>, leases: map<LeaseId, Ref>) {
    forall i :: 0 <= i < |lots| ==> PointsBack(id, i, lots[i], leases)
  }

  /** A fragment that holds nothing outside its shard. */
  ghost predicate Checked(shard: Shard, file: Upload) {
    AllHeld(file.directories, shard.from, shard.to)
  }

  /** A shard that is done has its fragment on disk, unless it came to nothing. */
  ghost predicate Stowed(lots: seq<Lot>, files: Files) {
    forall i :: 0 <= i < |lots| && lots[i].state.Done? && lots[i].fragment ==>
      i in files && Checked(lots[i].shard, files[i])
  }

  function FileOf(e: Lot, i: nat, files: Files): Option<Upload> {
    if e.fragment && i in files then Some(files[i]) else None
  }

  /** What came back is what the shard's own bake writes; or, where that may be torn, may come to. */
  ghost predicate IsHonest(c: Commission, shard: Shard, file: Option<Upload>) {
    var f := Fragment(file, shard.from, shard.to);
    if c.untorn then IsBakeOf(PartOf(c.job, shard), shard, c.kind, f)
    else IsCoverOf(PartOf(c.job, shard), shard, c.kind, f)
  }

  /**
   The archive answers for the whole job, and says what its tiles are; and is the one a single bake
   writes, each tile counted, where nothing is torn.
   */
  ghost predicate IsResultOf(c: Commission, made: Assembly)
    requires made.Assembled?
  {
    && Answers(c.job, made.archive) && made.kind == c.kind && made.written == made.archive.addressed
    && (c.untorn ==> IsWhole(c.job, made.archive) && made.written == |Baked(c.job, c.job.ids)|)
  }

  ghost predicate HonestLots(c: Commission, lots: seq<Lot>, files: Files) {
    forall i :: 0 <= i < |lots| && lots[i].state.Done? ==> IsHonest(c, lots[i].shard, FileOf(lots[i], i, files))
  }

  /** Every fragment on disk is, whether or not its shard is known to be done. */
  ghost predicate HonestFiles(c: Commission, files: Files) {
    forall shards, i: nat :: IsPlanOf(c, shards) && i in files && i < |shards| ==>
      IsHonest(c, shards[i], Some(files[i]))
  }

  /** A record of a job, as it was when a write of it was begun. */
  datatype Note = Note(id: JobId, record: Record)

  /**
   All that is kept: the jobs and the leases in memory; the fragments and the
   records on disk; and the writes begun that may yet land. As history: every
   lease ever granted, every fragment taken, what each job is for, whether every
   fragment taken was honest, what has passed, the leases forgotten while their
   shards were still out, and the jobs whose fragments have begun to be removed.
   */
  datatype Ledger = Ledger(
    jobs: map<JobId, Record>, leases: map<LeaseId, Ref>, disk: map<JobId, Files>, saved: map<JobId, Record>,
    late: set<Note>, granted: map<LeaseId, Ref>, taken: map<JobId, Files>, commissions: map<JobId, Commission>,
    honest: bool, past: History, dropped: map<LeaseId, Ref>, cleared: set<JobId>)
  {
    /** Every fragment taken of a job, though some may have been removed since. */
    function FilesOf(id: JobId): Files {
      if id in taken then taken[id] else map[]
    }

    /** The fragments of a job that are there. */
    function FilesOn(id: JobId): Files {
      if id in disk then disk[id] else map[]
    }

    /** Every lease registered, or dropped. */
    function Known(): map<LeaseId, Ref> {
      leases + dropped
    }
  }

  /** A job is as it was asked for. */
  predicate OnItsTerms(job: Record, c: Commission) {
    job.createdAt == c.createdAt && job.remote == c.remote
  }

  /** A record written down earlier: everything accepted by then is still so. */
  ghost predicate SavedKept(id: JobId, saved: Record, job: Record, granted: map<LeaseId, Ref>, max: nat,
                            past: History) {
    && Sound(saved, max, past) && SameTerms(saved, job)
    && LeasesBack(id, saved.shards, granted)
    && (saved.shards != [] ==> StaysDone(saved.shards, job.shards))
  }

  ghost predicate JobKept(id: JobId, job: Record, files: Files, leases: map<LeaseId, Ref>, granted: map<LeaseId, Ref>,
                          c: Commission, honest: bool, max: nat, past: History)
  {
    && Sound(job, max, past) && OnItsTerms(job, c)
    && LeasesBack(id, job.shards, leases) && LeasesBack(id, job.shards, granted)
    && Stowed(job.shards, files)
    && c.Valid()
    && (job.shards != [] ==> IsPlanOf(c, Spans(job.shards)))
    && (honest ==> HonestLots(c, job.shards, files) && HonestFiles(c, files))
  }

  ghost predicate KeptJob(l: Ledger, id: JobId, max: nat)
    requires id in l.jobs
  {
    && id in l.commissions
    && JobKept(id, l.jobs[id], l.FilesOf(id), l.Known(), l.granted, l.commissions[id], l.honest, max, l.past)
  }

  /** A record that is on disk or may come to be: of a job there is, or of one that was discarded. */
  ghost predicate NoteKept(l: Ledger, id: JobId, record: Record, max: nat) {
    && id in l.commissions
    && if id in l.jobs then SavedKept(id, record, l.jobs[id], l.granted, max, l.past)
       else JobKept(id, record, l.FilesOf(id), l.granted, l.granted, l.commissions[id], l.honest, max, l.past)
  }

  ghost predicate AllNoted(l: Ledger, max: nat) {
    && (forall id :: id in l.saved ==> NoteKept(l, id, l.saved[id], max))
    && (forall n :: n in l.late ==> NoteKept(l, n.id, n.record, max))
  }

  ghost predicate Submap<K, V>(a: map<K, V>, b: map<K, V>) {
    forall k :: k in a ==> k in b && a[k] == b[k]
  }

  /**
   Leases registered and dropped are apart, and as they were granted; and none is dropped unless
   background work has failed late.
   */
  ghost predicate LeasesAgree(l: Ledger) {
    && Submap(l.leases, l.granted) && Submap(l.dropped, l.granted)
    && (forall k :: k in l.dropped ==> k !in l.leases)
    && (!l.past.late ==> l.dropped == map[])
  }

  /** What is there is what was taken, all of it unless the job's fragments have begun to be removed. */
  ghost predicate OnDisk(l: Ledger, id: JobId) {
    && Submap(l.FilesOn(id), l.FilesOf(id))
    && (id !in l.cleared ==> l.FilesOn(id) == l.FilesOf(id))
  }

  ghost predicate DiskAgrees(l: Ledger) {
    (forall id :: OnDisk(l, id)) && (forall id :: id in l.taken ==> id in l.commissions)
  }

  ghost predicate Kept(l: Ledger, max: nat) {
    && 1 <= max
    && LeasesAgree(l) && DiskAgrees(l)
    && (forall id :: id in l.jobs ==> KeptJob(l, id, max))
    && AllNoted(l, max)
  }

  lemma SameDisk(l: Ledger, m: Ledger)
    requires DiskAgrees(l) && m.disk == l.disk && m.taken == l.taken && m.cleared == l.cleared
    requires m.commissions == l.commissions
    ensures DiskAgrees(m) && forall id :: m.FilesOf(id) == l.FilesOf(id) && m.FilesOn(id) == l.FilesOn(id)
  {
    forall id
      ensures OnDisk(m, id)
    {
      assert OnDisk(l, id);
    }
  }

  lemma SoundSince(job: Record, max: nat, past: History, past': History)
    requires Sound(job, max, past) && Since(past, past')
    ensures Sound(job, max, past')
  {
    hide Record.AnyOpen, Record.AllDone, AnyLent;
    forall i | 0 <= i < |job.shards|
      ensures Fits(job.shards[i], max, past'.stops)
    {
      assert Fits(job.shards[i], max, past.stops);
    }
    hide Fits;
  }

  lemma PointingBackStays(id: JobId, lots: seq<Lot>, leases: map<LeaseId, Ref>, leases': map<LeaseId, Ref>)
    requires LeasesBack(id, lots, leases)
    requires forall k :: k in leases && leases[k].job == id ==> k in leases' && leases'[k] == leases[k]
    ensures LeasesBack(id, lots, leases')
  {
    forall i | 0 <= i < |lots|
      ensures PointsBack(id, i, lots[i], leases')
    {
      assert PointsBack(id, i, lots[i], leases);
    }
  }

  /** What a step of one job may change of everything else: nothing that another job relies on. */
  ghost predicate OthersStay(l: Ledger, m: Ledger, id: JobId) {
    && m.saved == l.saved && m.late == l.late && m.commissions == l.commissions && Since(l.past, m.past)
    && (m.honest ==> l.honest) && m.jobs.Keys == l.jobs.Keys && Submap(l.granted, m.granted)
    && (forall o :: o in l.jobs && o != id ==> m.jobs[o] == l.jobs[o])
    && (forall o :: o != id ==> m.FilesOf(o) == l.FilesOf(o))
    && (forall k :: k in l.Known() && l.Known()[k].job != id ==> k in m.Known() && m.Known()[k] == l.Known()[k])
    && LeasesAgree(m) && DiskAgrees(m)
  }

  /** What was done still is, where the shards were known. */
  ghost predicate MovesOn(job: Record, after: Record) {
    SameTerms(job, after) && (job.shards != [] ==> StaysDone(job.shards, after.shards))
  }

  lemma JobStaysKept(id: JobId, job: Record, files: Files, leases: map<LeaseId, Ref>, granted: map<LeaseId, Ref>,
                     c: Commission, honest: bool,
                     max: nat, past: History, leases': map<LeaseId, Ref>, granted': map<LeaseId, Ref>, honest': bool,
                       past': History)
    requires JobKept(id, job, files, leases, granted, c, honest, max, past)
    requires Since(past, past') && (honest' ==> honest) && Submap(granted, granted')
    requires forall k :: k in leases && leases[k].job == id ==> k in leases' && leases'[k] == leases[k]
    ensures JobKept(id, job, files, leases', granted', c, honest', max, past')
  {
    hide Sound, Stowed, IsPlanOf, HonestLots, HonestFiles, LeasesBack, Commission.Valid;
    SoundSince(job, max, past, past');
    PointingBackStays(id, job.shards, leases, leases');
    PointingBackStays(id, job.shards, granted, granted');
  }

  lemma SavedStaysKept(id: JobId, saved: Record, job: Record, granted: map<LeaseId, Ref>, max: nat, past: History,
                       granted': map<LeaseId, Ref>, past': History)
    requires SavedKept(id, saved, job, granted, max, past) && Since(past, past') && Submap(granted, granted')
    ensures SavedKept(id, saved, job, granted', max, past')
  {
    hide Sound, StaysDone, LeasesBack;
    SoundSince(saved, max, past, past');
    PointingBackStays(id, saved.shards, granted, granted');
  }

  lemma OtherIsKept(l: Ledger, m: Ledger, id: JobId, o: JobId, max: nat)
    requires o in l.jobs && KeptJob(l, o, max) && OthersStay(l, m, id) && o != id
    ensures o in m.jobs && KeptJob(m, o, max)
  {
    assert m.jobs[o] == l.jobs[o] && m.FilesOf(o) == l.FilesOf(o);
    hide JobKept, Ledger.FilesOf, Ledger.Known, DiskAgrees;
    JobStaysKept(o, l.jobs[o], l.FilesOf(o), l.Known(), l.granted, l.commissions[o], l.honest, max, l.past, m.Known(),
                 m.granted, m.honest, m.past);
  }

  lemma SavedStaysBehind(id: JobId, saved: Record, job: Record, after: Record, granted: map<LeaseId, Ref>, max: nat,
                         past: History, granted': map<LeaseId, Ref>, past': History)
    requires SavedKept(id, saved, job, granted, max, past) && MovesOn(job, after) &&
             Since(past, past') && Submap(granted, granted')
    ensures SavedKept(id, saved, after, granted', max, past')
  {
    SavedStaysKept(id, saved, job, granted, max, past, granted', past');
    if saved.shards != [] {
      assert StaysDone(saved.shards, job.shards) && job.shards != [];
      StaysDoneOnAndOn(saved.shards, job.shards, after.shards);
    }
    hide Sound, LeasesBack, StaysDone;
  }

  /** Whatever has been or may be written down still fits. */
  lemma NoteStays(l: Ledger, m: Ledger, id: JobId, o: JobId, record: Record, max: nat)
    requires NoteKept(l, o, record, max) && OthersStay(l, m, id) && id in l.jobs && MovesOn(l.jobs[id], m.jobs[id])
    ensures NoteKept(m, o, record, max)
  {
    hide JobKept, SavedKept, Ledger.FilesOf, Ledger.Known, DiskAgrees, MovesOn;
    if o == id {
      SavedStaysBehind(o, record, l.jobs[o], m.jobs[o], l.granted, max, l.past, m.granted, m.past);
    } else if o in l.jobs {
      SavedStaysKept(o, record, l.jobs[o], l.granted, max, l.past, m.granted, m.past);
    } else {
      JobStaysKept(o, record, l.FilesOf(o), l.granted, l.granted, l.commissions[o], l.honest, max, l.past, m.granted,
                   m.granted, m.honest, m.past);
    }
  }

  /** So it is enough to look at the job that changed. */
  lemma OneJobChanged(l: Ledger, m: Ledger, id: JobId, max: nat)
    requires Kept(l, max) && OthersStay(l, m, id) && id in l.jobs && id in m.jobs && KeptJob(m, id, max)
    requires MovesOn(l.jobs[id], m.jobs[id])
    ensures Kept(m, max)
  {
    hide KeptJob, NoteKept, MovesOn;
    forall o | o in m.jobs
      ensures KeptJob(m, o, max)
    {
      if o != id {
        OtherIsKept(l, m, id, o, max);
      }
    }
    forall o | o in m.saved
      ensures NoteKept(m, o, m.saved[o], max)
    {
      NoteStays(l, m, id, o, m.saved[o], max);
    }
    forall n | n in m.late
      ensures NoteKept(m, n.id, n.record, max)
    {
      NoteStays(l, m, id, n.id, n.record, max);
    }
  }

  /** The ledger after a step of one job. */
  function Stepped(l: Ledger, id: JobId, step: Step, max: nat): Ledger
    requires id in l.jobs && Allowed(l.jobs[id], step)
  {
    l.(jobs := l.jobs[id := After(l.jobs[id], step, max)], past := PastAfter(l.past, l.jobs[id], step))
  }

  /** Leases may be forgotten once nobody has their shard. */
  ghost predicate OnlyForgets(l: Ledger, id: JobId, lots: seq<Lot>, leases: map<LeaseId, Ref>) {
    && Submap(leases, l.leases)
    && forall k :: k in l.leases && k !in leases ==>
         l.leases[k].job == id && l.leases[k].index < |lots| && !lots[l.leases[k].index].state.Leased?
  }

  lemma StillPointsBack(l: Ledger, id: JobId, before: seq<Lot>, after: seq<Lot>, leases: map<LeaseId, Ref>)
    requires LeasesBack(id, before, l.Known()) && NoneNewlyLent(before, after) && OnlyForgets(l, id, after, leases)
    ensures LeasesBack(id, after, leases + l.dropped)
  {
    forall i | 0 <= i < |after|
      ensures PointsBack(id, i, after[i], leases + l.dropped)
    {
      assert PointsBack(id, i, before[i], l.Known());
    }
  }

  lemma EverPointsBack(id: JobId, before: seq<Lot>, after: seq<Lot>, granted: map<LeaseId, Ref>)
    requires LeasesBack(id, before, granted) && NoneNewlyLent(before, after)
    ensures LeasesBack(id, after, granted)
  {
    forall i | 0 <= i < |after|
      ensures PointsBack(id, i, after[i], granted)
    {
      assert PointsBack(id, i, before[i], granted);
    }
  }

  lemma StaysDoneOnAndOn(a: seq<Lot>, b: seq<Lot>, c: seq<Lot>)
    requires StaysDone(a, b) && StaysDone(b, c)
    ensures StaysDone(a, c)
  {
  }

  lemma SpansStay(a: seq<Lot>, b: seq<Lot>)
    requires StaysDone(a, b)
    ensures Spans(a) == Spans(b)
  {
  }

  lemma StillStowed(before: seq<Lot>, after: seq<Lot>, files: Files, c: Commission)
    requires StaysDone(before, after) && NoneNewlyDone(before, after)
    ensures Stowed(before, files) ==> Stowed(after, files)
    ensures HonestLots(c, before, files) ==> HonestLots(c, after, files)
  {
    hide Checked, IsHonest;
  }

  lemma QuietJobKept(id: JobId, job: Record, files: Files, l: Ledger, c: Commission, max: nat, step: Step,
                     leases: map<LeaseId, Ref>)
    requires 1 <= max && JobKept(id, job, files, l.Known(), l.granted, c, l.honest, max, l.past)
    requires Allowed(job, step) && !step.Grant? && !step.Complete?
    requires OnlyForgets(l, id, After(job, step, max).shards, leases)
    ensures JobKept(id, After(job, step, max), files, leases + l.dropped, l.granted, c, l.honest, max,
                    PastAfter(l.past, job, step))
    ensures StaysDone(job.shards, After(job, step, max).shards)
  {
    var after := After(job, step, max);
    StepIsSound(job, step, max, l.past);
    StepKeepsDone(job, step, max);
    StepKeepsTerms(job, step, max);
    QuietStepChanges(job, step, max);
    hide After, Allowed, Sound, LeasesBack, Stowed, IsPlanOf, HonestLots, HonestFiles, StaysDone, NoneNewlyDone,
      NoneNewlyLent, Commission.Valid, OnlyForgets;
    StillPointsBack(l, id, job.shards, after.shards, leases);
    EverPointsBack(id, job.shards, after.shards, l.granted);
    StillStowed(job.shards, after.shards, files, c);
    SpansStay(job.shards, after.shards);
    StaysPlanned(job.shards, after.shards);
  }

  lemma OthersStayBehind(l: Ledger, id: JobId, after: Record, leases: map<LeaseId, Ref>, past: History)
    requires id in l.jobs && OnlyForgets(l, id, after.shards, leases) && Since(l.past, past)
    requires LeasesAgree(l) && DiskAgrees(l)
    ensures var m := l.(jobs := l.jobs[id := after], leases := leases, past := past);
            OthersStay(l, m, id) && m.Known() == leases + l.dropped
  {
    var m := l.(jobs := l.jobs[id := after], leases := leases, past := past);
    SameDisk(l, m);
    hide DiskAgrees, Ledger.FilesOf;
  }

  lemma KeptParts(l: Ledger, id: JobId, max: nat)
    requires Kept(l, max) && id in l.jobs
    ensures 1 <= max && LeasesAgree(l) && DiskAgrees(l) && id in l.commissions && KeptJob(l, id, max)
    ensures JobKept(id, l.jobs[id], l.FilesOf(id), l.Known(), l.granted, l.commissions[id], l.honest, max, l.past)
  {
    hide LeasesAgree, DiskAgrees, AllNoted;
  }

  lemma SteppedIs(l: Ledger, id: JobId, step: Step, leases: map<LeaseId, Ref>, max: nat)
    requires id in l.jobs && Allowed(l.jobs[id], step)
    ensures Stepped(l, id, step, max).(leases := leases) ==
            l.(jobs := l.jobs[id := After(l.jobs[id], step, max)], leases := leases,
               past := PastAfter(l.past, l.jobs[id], step))
    ensures Stepped(l, id, step, max).(leases := leases).FilesOf(id) == l.FilesOf(id)
  {
    hide After, Allowed;
  }

  lemma KeptAgain(m: Ledger, id: JobId, max: nat)
    requires id in m.jobs && id in m.commissions
    requires JobKept(id, m.jobs[id], m.FilesOf(id), m.Known(), m.granted, m.commissions[id], m.honest, max, m.past)
    ensures KeptJob(m, id, max)
  {
  }

  /** A step that neither lends nor accepts a shard keeps everything, whatever leases are forgotten with it. */
  lemma QuietStepKeeps(l: Ledger, id: JobId, step: Step, leases: map<LeaseId, Ref>, max: nat)
    requires Kept(l, max) && id in l.jobs && Allowed(l.jobs[id], step) && !step.Grant? && !step.Complete?
    requires OnlyForgets(l, id, After(l.jobs[id], step, max).shards, leases)
    ensures Kept(Stepped(l, id, step, max).(leases := leases), max)
  {
    hide *;
    KeptParts(l, id, max);
    SteppedIs(l, id, step, leases, max);
    var after, m := After(l.jobs[id], step, max), Stepped(l, id, step, max).(leases := leases);
    NothingPassed(l.past, l.jobs[id], step);
    OthersStayBehind(l, id, after, leases, PastAfter(l.past, l.jobs[id], step));
    QuietJobKept(id, l.jobs[id], l.FilesOf(id), l, l.commissions[id], max, step, leases);
    KeptAgain(m, id, max);
    StepKeepsTerms(l.jobs[id], step, max);
    OnceDoneIs(l.jobs[id], after);
    OneJobChanged(l, m, id, max);
  }

  lemma TermsFollow(job: Record, after: Record, c: Commission)
    requires OnItsTerms(job, c) && SameTerms(job, after)
    ensures OnItsTerms(after, c)
  {
  }

  lemma OnceDoneIs(job: Record, after: Record)
    requires StaysDone(job.shards, after.shards) && SameTerms(job, after)
    ensures MovesOn(job, after)
  {
  }

  lemma SubmapOfItself<K, V>(a: map<K, V>)
    ensures Submap(a, a)
  {
  }

  lemma StaysPlanned(a: seq<Lot>, b: seq<Lot>)
    requires StaysDone(a, b)
    ensures a == [] <==> b == []
  {
  }

  lemma OtherKeys(l: Ledger, id: JobId, lots: seq<Lot>, leases: map<LeaseId, Ref>, k: LeaseId, r: Ref)
    requires LeasesBack(id, lots, leases) && k !in leases
    ensures LeasesBack(id, lots, leases[k := r])
  {
    forall i | 0 <= i < |lots|
      ensures PointsBack(id, i, lots[i], leases[k := r])
    {
      assert PointsBack(id, i, lots[i], leases);
    }
  }

  lemma LentPointsBack(id: JobId, lots: seq<Lot>, leases: map<LeaseId, Ref>, i: nat, e: Lot)
    requires i < |lots| && LeasesBack(id, lots, leases) && PointsBack(id, i, e, leases)
    ensures LeasesBack(id, lots[i := e], leases)
  {
    var after := lots[i := e];
    forall j | 0 <= j < |after|
      ensures PointsBack(id, j, after[j], leases)
    {
      assert PointsBack(id, j, lots[j], leases);
    }
  }

  /** The ledger after a shard is lent. */
  function Lent(l: Ledger, id: JobId, i: nat, lease: Lease, max: nat): Ledger
    requires id in l.jobs && Allowed(l.jobs[id], Grant(i, lease))
  {
    var r := Ref(id, i, lease.worker);
    Stepped(l, id, Grant(i, lease), max).(leases := l.leases[lease.id := r], granted := l.granted[lease.id := r])
  }

  lemma LentLots(job: Record, i: nat, lease: Lease, max: nat)
    requires Allowed(job, Grant(i, lease))
    ensures var after := After(job, Grant(i, lease), max);
            && after.shards == job.shards[i := after.shards[i]] && NoneNewlyDone(job.shards, after.shards)
            && after.shards[i].lease == Some(lease)
  {
  }

  lemma LentJobKept(id: JobId, job: Record, files: Files, l: Ledger, c: Commission, max: nat, i: nat, lease: Lease)
    requires 1 <= max && JobKept(id, job, files, l.Known(), l.granted, c, l.honest, max, l.past)
    requires Allowed(job, Grant(i, lease)) && lease.id !in l.granted && LeasesAgree(l)
    ensures var r := Ref(id, i, lease.worker);
            JobKept(id, After(job, Grant(i, lease), max), files, l.Known()[lease.id := r], l.granted[lease.id := r], c,
                    l.honest, max, l.past)
    ensures StaysDone(job.shards, After(job, Grant(i, lease), max).shards)
  {
    var step, r := Grant(i, lease), Ref(id, i, lease.worker);
    var after := After(job, step, max);
    StepIsSound(job, step, max, l.past);
    StepKeepsDone(job, step, max);
    StepKeepsTerms(job, step, max);
    LentLots(job, i, lease, max);
    var known := l.Known();
    assert lease.id !in known && PastAfter(l.past, job, step) == l.past;
    hide After;
    assert PointsBack(id, i, after.shards[i], known[lease.id := r]) &&
           PointsBack(id, i, after.shards[i], l.granted[lease.id := r]);
    hide *;
    JobHas(id, job, files, known, l.granted, c, l.honest, max, l.past);
    OtherKeys(l, id, job.shards, known, lease.id, r);
    OtherKeys(l, id, job.shards, l.granted, lease.id, r);
    LentPointsBack(id, job.shards, known[lease.id := r], i, after.shards[i]);
    LentPointsBack(id, job.shards, l.granted[lease.id := r], i, after.shards[i]);
    StillStowed(job.shards, after.shards, files, c);
    SpansStay(job.shards, after.shards);
    StaysPlanned(job.shards, after.shards);
    JobHasAgain(id, after, files, known[lease.id := r], l.granted[lease.id := r], c, l.honest, max, l.past);
  }

  lemma JobHas(id: JobId, job: Record, files: Files, known: map<LeaseId, Ref>, granted: map<LeaseId, Ref>,
               c: Commission, honest: bool, max: nat, past: History)
    requires JobKept(id, job, files, known, granted, c, honest, max, past)
    ensures Sound(job, max, past) && LeasesBack(id, job.shards, known) && LeasesBack(id, job.shards, granted)
    ensures Stowed(job.shards, files) && c.Valid() && (job.shards != [] ==> IsPlanOf(c, Spans(job.shards)))
    ensures OnItsTerms(job, c)
    ensures honest ==> HonestLots(c, job.shards, files) && HonestFiles(c, files)
  {
  }

  lemma JobHasAgain(id: JobId, job: Record, files: Files, known: map<LeaseId, Ref>, granted: map<LeaseId, Ref>,
                    c: Commission, honest: bool, max: nat, past: History)
    requires Sound(job, max, past) && LeasesBack(id, job.shards, known) && LeasesBack(id, job.shards, granted)
    requires Stowed(job.shards, files) && c.Valid() && (job.shards != [] ==> IsPlanOf(c, Spans(job.shards)))
    requires OnItsTerms(job, c)
    requires honest ==> HonestLots(c, job.shards, files) && HonestFiles(c, files)
    ensures JobKept(id, job, files, known, granted, c, honest, max, past)
  {
  }

  lemma LentIs(l: Ledger, id: JobId, i: nat, lease: Lease, max: nat)
    requires id in l.jobs && Allowed(l.jobs[id], Grant(i, lease))
    ensures var r := Ref(id, i, lease.worker);
            Lent(l, id, i, lease, max) ==
            l.(jobs := l.jobs[id := After(l.jobs[id], Grant(i, lease), max)], leases := l.leases[lease.id := r],
               granted := l.granted[lease.id := r])
  {
    hide After, Allowed;
    assert PastAfter(l.past, l.jobs[id], Grant(i, lease)) == l.past;
  }

  lemma AgreeLent(l: Ledger, k: LeaseId, r: Ref)
    requires k !in l.granted && LeasesAgree(l)
    ensures LeasesAgree(l.(leases := l.leases[k := r], granted := l.granted[k := r])) &&
            Submap(l.granted, l.granted[k := r])
    ensures k !in l.Known()
  {
  }

  lemma KnownLent(l: Ledger, k: LeaseId, r: Ref)
    requires k !in l.granted && LeasesAgree(l)
    ensures l.(leases := l.leases[k := r]).Known() == l.Known()[k := r]
  {
    assert k !in l.dropped;
    hide LeasesAgree;
  }

  lemma AgreeIs(l: Ledger, m: Ledger)
    requires LeasesAgree(l) && m.leases == l.leases && m.dropped == l.dropped && m.granted == l.granted &&
             m.past == l.past
    ensures LeasesAgree(m) && m.Known() == l.Known()
  {
  }

  lemma KnownOnly(l: Ledger, m: Ledger)
    requires m.leases == l.leases && m.dropped == l.dropped
    ensures m.Known() == l.Known()
  {
  }

  lemma OneMoreIsSubmap(leases: map<LeaseId, Ref>, k: LeaseId, r: Ref)
    requires k !in leases
    ensures Submap(leases, leases[k := r])
  {
  }

  lemma OthersStayLent(l: Ledger, id: JobId, after: Record, k: LeaseId, r: Ref)
    requires id in l.jobs && k !in l.granted && LeasesAgree(l) && DiskAgrees(l)
    ensures var m := l.(jobs := l.jobs[id := after], leases := l.leases[k := r], granted := l.granted[k := r]);
            && OthersStay(l, m, id) && Submap(l.granted, m.granted) && Since(l.past, m.past)
            && m.Known() == l.Known()[k := r] && m.FilesOf(id) == l.FilesOf(id)
  {
    var m := l.(jobs := l.jobs[id := after], leases := l.leases[k := r], granted := l.granted[k := r]);
    AgreeLent(l, k, r);
    KnownLent(l, k, r);
    AgreeIs(l.(leases := l.leases[k := r], granted := l.granted[k := r]), m);
    KnownOnly(l.(leases := l.leases[k := r]), m);
    OneMoreIsSubmap(l.Known(), k, r);
    SameDisk(l, m);
    hide LeasesAgree, DiskAgrees, Ledger.Known, Ledger.FilesOf;
  }

  /** Lending a shard keeps everything. */
  lemma LendingKeeps(l: Ledger, id: JobId, i: nat, lease: Lease, max: nat)
    requires Kept(l, max) && id in l.jobs && Allowed(l.jobs[id], Grant(i, lease)) && lease.id !in l.granted
    ensures Kept(Lent(l, id, i, lease, max), max)
  {
    hide *;
    KeptParts(l, id, max);
    var m := Lent(l, id, i, lease, max);
    LentIs(l, id, i, lease, max);
    OthersStayLent(l, id, After(l.jobs[id], Grant(i, lease), max), lease.id, Ref(id, i, lease.worker));
    LentJobKept(id, l.jobs[id], l.FilesOf(id), l, l.commissions[id], max, i, lease);
    KeptAgain(m, id, max);
    StepKeepsTerms(l.jobs[id], Grant(i, lease), max);
    OnceDoneIs(l.jobs[id], m.jobs[id]);
    OneJobChanged(l, m, id, max);
  }

  /**
   The ledger after a finished shard is taken: whoever held it no longer does, and its fragment, if
   any, is on disk.
   */
  ghost function Taken(l: Ledger, id: JobId, i: nat, file: Option<Upload>, leases: map<LeaseId, Ref>, max: nat): Ledger
    requires id in l.jobs && id in l.commissions && Allowed(l.jobs[id], Complete(i, file.Some?))
  {
    Stepped(l, id, Complete(i, file.Some?), max).(
      leases := leases,
      taken := if file.Some? then l.taken[id := l.FilesOf(id)[i := file.value]] else l.taken,
      disk := if file.Some? then l.disk[id := l.FilesOn(id)[i := file.value]] else l.disk,
      honest := l.honest && IsHonest(l.commissions[id], l.jobs[id].shards[i].shard, file))
  }

  lemma TakenLots(job: Record, i: nat, fragment: bool, max: nat)
    requires Allowed(job, Complete(i, fragment))
    ensures var e := job.shards[i];
            After(job, Complete(i, fragment), max).shards ==
              job.shards[i := e.(state := Done, lease := None, fragment := fragment)]
    ensures NoneNewlyLent(job.shards, After(job, Complete(i, fragment), max).shards)
  {
    hide Record.AnyOpen, Record.AnyGivenUp;
  }

  lemma TakenIsStowed(lots: seq<Lot>, files: Files, i: nat, file: Option<Upload>)
    requires i < |lots| && !lots[i].state.Done? && Stowed(lots, files) &&
             (file.Some? ==> Checked(lots[i].shard, file.value))
    ensures Stowed(lots[i := lots[i].(state := Done, lease := None, fragment := file.Some?)],
                   if file.Some? then files[i := file.value] else files)
  {
    hide Checked;
  }

  lemma TakenLotsHonest(c: Commission, lots: seq<Lot>, files: Files, i: nat, file: Option<Upload>)
    requires i < |lots| && HonestLots(c, lots, files) && IsHonest(c, lots[i].shard, file)
    ensures HonestLots(c, lots[i := lots[i].(state := Done, lease := None, fragment := file.Some?)],
                       if file.Some? then files[i := file.value] else files)
  {
    hide IsHonest;
  }

  lemma TakenFileHonest(c: Commission, spans: seq<Shard>, files: Files, i: nat, file: Upload)
    requires i < |spans| && HonestFiles(c, files) && IsPlanOf(c, spans) && IsHonest(c, spans[i], Some(file))
    ensures HonestFiles(c, files[i := file])
  {
    hide IsHonest;
    forall shards, j: nat | IsPlanOf(c, shards) && j in files[i := file] && j < |shards|
      ensures IsHonest(c, shards[j], Some(files[i := file][j]))
    {
      OnePlan(c, shards, spans);
      hide IsPlanOf;
    }
  }

  lemma TakenIsHonest(c: Commission, lots: seq<Lot>, files: Files, i: nat, file: Option<Upload>)
    requires i < |lots| && HonestLots(c, lots, files) && HonestFiles(c, files) && IsPlanOf(c, Spans(lots))
    requires IsHonest(c, lots[i].shard, file)
    ensures var files' := if file.Some? then files[i := file.value] else files;
            && HonestLots(c, lots[i := lots[i].(state := Done, lease := None, fragment := file.Some?)], files')
            && HonestFiles(c, files')
  {
    hide HonestLots, HonestFiles, IsPlanOf, IsHonest;
    TakenLotsHonest(c, lots, files, i, file);
    if file.Some? {
      TakenFileHonest(c, Spans(lots), files, i, file.value);
    }
  }

  lemma TakenJobKept(id: JobId, job: Record, files: Files, l: Ledger, c: Commission, max: nat, i: nat,
                     file: Option<Upload>, leases: map<LeaseId, Ref>)
    requires 1 <= max && JobKept(id, job, files, l.Known(), l.granted, c, l.honest, max, l.past)
    requires Allowed(job, Complete(i, file.Some?)) && (file.Some? ==> Checked(job.shards[i].shard, file.value))
    requires OnlyForgets(l, id, After(job, Complete(i, file.Some?), max).shards, leases)
    ensures JobKept(id, After(job, Complete(i, file.Some?), max), if file.Some? then files[i := file.value] else files,
                    leases + l.dropped, l.granted, c, l.honest && IsHonest(c, job.shards[i].shard, file), max, l.past)
    ensures StaysDone(job.shards, After(job, Complete(i, file.Some?), max).shards)
  {
    var step := Complete(i, file.Some?);
    var after := After(job, step, max);
    var taken := if file.Some? then files[i := file.value] else files;
    StepIsSound(job, step, max, l.past);
    StepKeepsDone(job, step, max);
    StepKeepsTerms(job, step, max);
    TakenLots(job, i, file.Some?, max);
    assert PastAfter(l.past, job, step) == l.past;
    assert !job.shards[i].state.Done? && job.shards != [];
    hide *;
    JobHas(id, job, files, l.Known(), l.granted, c, l.honest, max, l.past);
    StillPointsBack(l, id, job.shards, after.shards, leases);
    EverPointsBack(id, job.shards, after.shards, l.granted);
    TakenIsStowed(job.shards, files, i, file);
    SpansStay(job.shards, after.shards);
    StaysPlanned(job.shards, after.shards);
    TermsFollow(job, after, c);
    if l.honest && IsHonest(c, job.shards[i].shard, file) {
      TakenIsHonest(c, job.shards, files, i, file);
    }
    JobHasAgain(id, after, taken, leases + l.dropped, l.granted, c,
                l.honest && IsHonest(c, job.shards[i].shard, file), max, l.past);
  }

  lemma TakenIs(l: Ledger, id: JobId, i: nat, file: Option<Upload>, leases: map<LeaseId, Ref>, max: nat)
    requires id in l.jobs && id in l.commissions && Allowed(l.jobs[id], Complete(i, file.Some?))
    ensures Taken(l, id, i, file, leases, max) ==
            l.(jobs := l.jobs[id := After(l.jobs[id], Complete(i, file.Some?), max)], leases := leases,
               taken := if file.Some? then l.taken[id := l.FilesOf(id)[i := file.value]] else l.taken,
               disk := if file.Some? then l.disk[id := l.FilesOn(id)[i := file.value]] else l.disk,
               honest := l.honest && IsHonest(l.commissions[id], l.jobs[id].shards[i].shard, file))
  {
    assert PastAfter(l.past, l.jobs[id], Complete(i, file.Some?)) == l.past;
    hide After, IsHonest, Ledger.FilesOf, Ledger.FilesOn;
  }

  /** A fragment more, taken and there. */
  lemma DiskWithFile(l: Ledger, m: Ledger, id: JobId, i: nat, file: Upload)
    requires DiskAgrees(l) && id in l.commissions && m.commissions == l.commissions && m.cleared == l.cleared
    requires m.taken == l.taken[id := l.FilesOf(id)[i := file]] && m.disk == l.disk[id := l.FilesOn(id)[i := file]]
    ensures DiskAgrees(m) && m.FilesOf(id) == l.FilesOf(id)[i := file]
    ensures forall o :: o != id ==> m.FilesOf(o) == l.FilesOf(o)
  {
    forall o
      ensures OnDisk(m, o)
    {
      assert OnDisk(l, o) && OnDisk(l, id);
    }
  }

  lemma OthersStayTaken(l: Ledger, m: Ledger, id: JobId, i: nat, file: Option<Upload>, after: Record,
                        leases: map<LeaseId, Ref>)
    requires id in l.jobs && id in l.commissions && LeasesAgree(l) && DiskAgrees(l)
    requires OnlyForgets(l, id, after.shards, leases) && (m.honest ==> l.honest)
    requires m == l.(jobs := l.jobs[id := after], leases := leases, taken := m.taken, disk := m.disk,
                     honest := m.honest)
    requires if file.Some? then m.taken == l.taken[id := l.FilesOf(id)[i := file.value]] &&
               m.disk == l.disk[id := l.FilesOn(id)[i := file.value]]
             else m.taken == l.taken && m.disk == l.disk
    ensures OthersStay(l, m, id) && m.Known() == leases + l.dropped && Since(l.past, m.past)
    ensures m.FilesOf(id) == if file.Some? then l.FilesOf(id)[i := file.value] else l.FilesOf(id)
  {
    var n := l.(jobs := l.jobs[id := after], leases := leases, past := l.past);
    OthersStayBehind(l, id, after, leases, l.past);
    if file.Some? {
      DiskWithFile(l, m, id, i, file.value);
    } else {
      SameDisk(l, m);
    }
    KnownOnly(n, m);
    AgreeIs(n, m);
    hide DiskAgrees, LeasesAgree, Ledger.FilesOf, Ledger.FilesOn, Ledger.Known, OnlyForgets, Since;
  }

  /** Taking a finished shard keeps everything, from whomever it comes. */
  lemma TakingKeeps(l: Ledger, id: JobId, i: nat, file: Option<Upload>, leases: map<LeaseId, Ref>, max: nat)
    requires Kept(l, max) && id in l.jobs && id in l.commissions && Allowed(l.jobs[id], Complete(i, file.Some?))
    requires file.Some? ==> Checked(l.jobs[id].shards[i].shard, file.value)
    requires OnlyForgets(l, id, After(l.jobs[id], Complete(i, file.Some?), max).shards, leases)
    ensures Kept(Taken(l, id, i, file, leases, max), max)
  {
    assert i < |l.jobs[id].shards|;
    hide *;
    KeptParts(l, id, max);
    var m := Taken(l, id, i, file, leases, max);
    TakenIs(l, id, i, file, leases, max);
    OthersStayTaken(l, m, id, i, file, After(l.jobs[id], Complete(i, file.Some?), max), leases);
    TakenJobKept(id, l.jobs[id], l.FilesOf(id), l, l.commissions[id], max, i, file, leases);
    KeptAgain(m, id, max);
    StepKeepsTerms(l.jobs[id], Complete(i, file.Some?), max);
    OnceDoneIs(l.jobs[id], m.jobs[id]);
    OneJobChanged(l, m, id, max);
  }
}
