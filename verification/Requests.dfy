/** What is asked of a coordinator, what it answers, and what a run of both says of whom it lends to. */
module Requests {
  import opened Archive
  import opened Books
  import opened Distributed
  import opened Leasing
  import opened Restarts

  /**
   Everything that happens to a coordinator: what the console and the workers ask, what its own
   background work comes to, and dying.
   */
  datatype Request =
    | Begin(id: JobId, commission: Commission)
    | Plan(id: JobId)
    | Ask(worker: WorkerId, only: Option<JobId>, local: bool, now: int, lease: LeaseId)
    | Beat(lease: LeaseId, now: int)
    | Deliver(lease: LeaseId, file: Option<Upload>)
    | Report(lease: LeaseId)
    | Decline(lease: LeaseId)
    | Leave(lease: LeaseId)
    | Cancel(id: JobId)
    | TryAgain(id: JobId)
    | Discard(id: JobId)
    | Forgo(id: JobId)
    | PutTogether(id: JobId, deduplicate: bool)
    | Imported(id: JobId)
    | Broken(id: JobId)
    | Erase(id: JobId, gone: set<nat>)
    | Unsave(id: JobId)
    | WriteDown(id: JobId)
    | BeginWriting(id: JobId)
    | Land(note: Note)
    | WorkLate(note: Note, step: Step)
    | Die

  /** Random lease ids: none is drawn twice. What is to be baked is well formed. */
  ghost predicate WellFormed(requests: seq<Request>, granted: set<LeaseId>) {
    && (forall k :: 0 <= k < |requests| && requests[k].Begin? ==> requests[k].commission.Valid())
    && (forall k :: 0 <= k < |requests| && requests[k].Ask? ==> requests[k].lease !in granted)
    && (forall j, k :: 0 <= j < k < |requests| && requests[j].Ask? && requests[k].Ask? ==>
        requests[j].lease != requests[k].lease)
  }

  /** Leases granted up to some request are the old ones and those asked for since. */
  ghost predicate OnlyAsked(requests: seq<Request>, n: nat, before: set<LeaseId>, after: set<LeaseId>)
    requires n <= |requests|
  {
    forall k :: k in after ==> k in before || exists j :: 0 <= j < n && requests[j].Ask? && requests[j].lease == k
  }

  lemma NotYetGranted(requests: seq<Request>, n: nat, before: set<LeaseId>, after: set<LeaseId>)
    requires n < |requests| && requests[n].Ask? && WellFormed(requests, before) && OnlyAsked(requests, n, before, after)
    ensures requests[n].lease !in after
    ensures OnlyAsked(requests, n + 1, before, after + {requests[n].lease})
  {
  }

  /** Nothing is thrown away: no job is discarded, and the coordinator lives. */
  ghost predicate NothingThrownAway(r: Request) {
    !r.Discard? && !r.Forgo? && !r.Die?
  }

  /** The jobs whose fragments begin to be removed: one is published, or thrown away. */
  function Clears(r: Request): set<JobId> {
    match r
    case Discard(id) => {id}
    case Forgo(id) => {id}
    case Imported(id) => {id}
    case _ => {}
  }

  /** Nobody stops a job, starts one again, hands a shard back, or throws anything away. */
  ghost predicate Unattending(r: Request) {
    !r.Cancel? && !r.TryAgain? && !r.Decline? && !r.Leave? && NothingThrownAway(r)
  }

  function Cancels(requests: seq<Request>): nat {
    if requests == [] then 0 else Cancels(requests[..|requests| - 1]) + if requests[|requests| - 1].Cancel? then 1
      else 0
  }

  /** One of the requests has a job's fragments removed. */
  ghost predicate IsCleared(requests: seq<Request>, id: JobId) {
    exists k :: 0 <= k < |requests| && id in Clears(requests[k])
  }

  /** What an answer tells: a shard was lent, or a job given back for good by a worker. */
  datatype Reply = Quiet | Lends(loan: Loan) | GivenBack(worker: WorkerId, job: JobId)

  /** A worker gave a job back in the course of the first so many requests, since the coordinator last died. */
  ghost predicate GaveBack(requests: seq<Request>, replies: seq<Reply>, n: nat, worker: WorkerId, job: JobId)
    requires n <= |requests| == |replies|
  {
    exists k :: 0 <= k < n && replies[k] == GivenBack(worker, job) && LivesOn(requests, k, n)
  }

  ghost predicate LivesOn(requests: seq<Request>, from: int, to: nat)
    requires to <= |requests|
  {
    forall m :: from < m < to && 0 <= m ==> !requests[m].Die?
  }

  /** It did, or it had before. */
  ghost predicate Refuses(requests: seq<Request>, replies: seq<Reply>, n: nat, before: set<JobId>, worker: WorkerId,
                          job: JobId)
    requires n <= |requests| == |replies|
  {
    GaveBack(requests, replies, n, worker, job) || (job in before && LivesOn(requests, -1, n))
  }

  /** A job was asked for in the course of the first so many requests, on these terms. */
  ghost predicate IsBegun(requests: seq<Request>, n: nat, id: JobId, c: Commission)
    requires n <= |requests|
  {
    exists k :: 0 <= k < n && requests[k].Begin? && requests[k].id == id && requests[k].commission == c
  }

  /** What tells who may be lent what: what was given back, what was asked for, and what was lent. */
  datatype Desk = Desk(cannot: map<WorkerId, set<JobId>>, commissions: map<JobId, Commission>,
                       granted: map<LeaseId, Ref>)

  ghost function DeskOf(c: DistributedBakes): Desk
    reads c
  {
    Desk(c.cannot, c.commissions, c.granted)
  }

  lemma DeskIs(c: DistributedBakes)
    ensures DeskOf(c) == Desk(c.cannot, c.commissions, c.granted)
  {
  }

  /**
   A loan that answers an asker: of the job it asked for, if it asked for one; not of one it has given
   back; and, unless it is this node itself, of one that workers are to share in.
   */
  ghost predicate IsDue(r: Request, loan: Loan, refused: set<JobId>, commissions: map<JobId, Commission>)
    requires r.Ask?
  {
    && loan.lease == r.lease && loan.job in commissions && loan.job !in refused
    && (r.only.Some? ==> r.only.value == loan.job) && (r.local || commissions[loan.job].remote)
  }

  function CannotAfter(r: Request, reply: Reply, cannot: map<WorkerId, set<JobId>>): map<WorkerId, set<JobId>> {
    if r.Die? then map[]
    else if reply.GivenBack? then cannot[reply.worker := CannotDo(cannot, reply.worker) + {reply.job}] else cannot
  }

  /** Nothing is being baked but what was asked for. */
  ghost predicate CommissionsCome(r: Request, a: map<JobId, Commission>, b: map<JobId, Commission>) {
    forall id :: id in b ==>
      (id in a && b[id] == a[id]) || (r.Begin? && r.id == id && b[id] == r.commission)
  }

  ghost predicate IsAnswer(r: Request, reply: Reply, a: Desk, b: Desk) {
    match reply
    case Quiet => true
    case Lends(loan) =>
      && r.Ask? && IsDue(r, loan, CannotDo(a.cannot, r.worker), b.commissions)
      && loan.lease in b.granted && b.granted[loan.lease] == Ref(loan.job, loan.index, r.worker)
    case GivenBack(worker, job) =>
      r.Decline? && r.lease in a.granted && a.granted[r.lease].worker == worker && a.granted[r.lease].job == job
  }

  /** What an answer may be, and what it leaves. */
  ghost predicate Answered(r: Request, reply: Reply, a: Desk, b: Desk) {
    && CommissionsCome(r, a.commissions, b.commissions) && b.cannot == CannotAfter(r, reply, a.cannot)
    && IsAnswer(r, reply, a, b)
  }

  lemma QuietIs(r: Request, a: Desk, b: Desk)
    requires b.cannot == (if r.Die? then map[] else a.cannot)
    requires b.commissions == a.commissions ||
             (r.Begin? && b.commissions == a.commissions[r.id := r.commission])
    ensures Answered(r, Quiet, a, b)
  {
  }

  lemma LentIs(r: Request, loan: Loan, a: Desk, b: Desk)
    requires r.Ask? && b.cannot == a.cannot && b.commissions == a.commissions
    requires IsDue(r, loan, CannotDo(a.cannot, r.worker), b.commissions)
    requires b.granted == a.granted[loan.lease := Ref(loan.job, loan.index, r.worker)]
    ensures Answered(r, Lends(loan), a, b)
  {
    hide CannotDo;
  }

  lemma GivenBackIs(r: Request, at: Ref, a: Desk, b: Desk)
    requires r.Decline? && r.lease in a.granted && a.granted[r.lease] == at
    requires b.cannot == a.cannot[at.worker := CannotDo(a.cannot, at.worker) + {at.job}]
    requires b.commissions == a.commissions
    ensures Answered(r, GivenBack(at.worker, at.job), a, b)
  {
    hide CannotDo;
  }

  /** What the coordinator holds against a worker is what the run has of it giving back. */
  ghost predicate CannotMatches(requests: seq<Request>, replies: seq<Reply>, n: nat,
                                before: map<WorkerId, set<JobId>>, cannot: map<WorkerId, set<JobId>>)
    requires n <= |requests| == |replies|
  {
    forall worker, job :: job in CannotDo(cannot, worker) <==>
      Refuses(requests, replies, n, CannotDo(before, worker), worker, job)
  }

  ghost predicate AllBegun(requests: seq<Request>, n: nat, before: map<JobId, Commission>,
                           commissions: map<JobId, Commission>)
    requires n <= |requests|
  {
    forall id :: id in commissions ==> WasAsked(requests, n, before, id, commissions[id])
  }

  lemma BegunOneMore(requests: seq<Request>, n: nat, before: map<JobId, Commission>, a: map<JobId, Commission>,
                     b: map<JobId, Commission>)
    requires n < |requests| && AllBegun(requests, n, before, a) && CommissionsCome(requests[n], a, b)
    ensures AllBegun(requests, n + 1, before, b)
  {
    forall id | id in b
      ensures WasAsked(requests, n + 1, before, id, b[id])
    {
      if id in a && b[id] == a[id] && IsBegun(requests, n, id, a[id]) {
        var k :| 0 <= k < n && requests[k].Begin? && requests[k].id == id && requests[k].commission == a[id];
      }
    }
  }

  lemma GaveBackOneMore(requests: seq<Request>, replies: seq<Reply>, n: nat, worker: WorkerId, job: JobId)
    requires n < |requests| == |replies|
    ensures GaveBack(requests, replies, n + 1, worker, job) <==>
              replies[n] == GivenBack(worker, job) ||
                (!requests[n].Die? && GaveBack(requests, replies, n, worker, job))
  {
    if replies[n] == GivenBack(worker, job) {
      assert LivesOn(requests, n, n + 1);
    }
    if !requests[n].Die? && GaveBack(requests, replies, n, worker, job) {
      var k :| 0 <= k < n && replies[k] == GivenBack(worker, job) && LivesOn(requests, k, n);
      assert LivesOn(requests, k, n + 1);
    }
    if GaveBack(requests, replies, n + 1, worker, job) && replies[n] != GivenBack(worker, job) {
      var k :| 0 <= k < n + 1 && replies[k] == GivenBack(worker, job) && LivesOn(requests, k, n + 1);
      assert k < n && LivesOn(requests, k, n) && !requests[n].Die?;
    }
  }

  lemma RefusesOneMore(requests: seq<Request>, replies: seq<Reply>, n: nat, before: set<JobId>, worker: WorkerId,
                       job: JobId)
    requires n < |requests| == |replies|
    ensures Refuses(requests, replies, n + 1, before, worker, job) <==>
              replies[n] == GivenBack(worker, job) ||
                (!requests[n].Die? && Refuses(requests, replies, n, before, worker, job))
  {
    GaveBackOneMore(requests, replies, n, worker, job);
    assert LivesOn(requests, -1, n + 1) <==> LivesOn(requests, -1, n) && !requests[n].Die?;
    hide GaveBack, LivesOn;
  }

  lemma CannotOneMore(requests: seq<Request>, replies: seq<Reply>, n: nat, before: map<WorkerId, set<JobId>>,
                      a: map<WorkerId, set<JobId>>)
    requires n < |requests| == |replies| && CannotMatches(requests, replies, n, before, a)
    requires replies[n].GivenBack? ==> !requests[n].Die?
    ensures CannotMatches(requests, replies, n + 1, before, CannotAfter(requests[n], replies[n], a))
  {
    var b := CannotAfter(requests[n], replies[n], a);
    forall worker, job
      ensures job in CannotDo(b, worker) <==>
                Refuses(requests, replies, n + 1, CannotDo(before, worker), worker, job)
    {
      RefusesOneMore(requests, replies, n, CannotDo(before, worker), worker, job);
      CannotAfterHas(requests[n], replies[n], a, worker, job);
      assert job in CannotDo(a, worker) <==> Refuses(requests, replies, n, CannotDo(before, worker), worker, job);
      hide *;
    }
  }

  lemma CannotAfterHas(r: Request, reply: Reply, a: map<WorkerId, set<JobId>>, worker: WorkerId, job: JobId)
    requires reply.GivenBack? ==> !r.Die?
    ensures job in CannotDo(CannotAfter(r, reply, a), worker) <==>
              reply == GivenBack(worker, job) || (!r.Die? && job in CannotDo(a, worker))
  {
  }

  /** Who was lent a shard was due one, by what the run says. */
  ghost predicate LoanIsDue(requests: seq<Request>, replies: seq<Reply>, n: nat,
                            before: map<WorkerId, set<JobId>>, begun: map<JobId, Commission>)
    requires n < |requests| == |replies|
  {
    replies[n].Lends? ==>
      && requests[n].Ask?
      && var r, loan := requests[n], replies[n].loan;
         && loan.lease == r.lease && (r.only.Some? ==> r.only.value == loan.job)
         && !Refuses(requests, replies, n, CannotDo(before, r.worker), r.worker, loan.job)
         && WasAskedFor(requests, n + 1, begun, loan.job, r.local)
  }

  /** A job was asked for, with workers to share in it unless whoever asks now is this node. */
  ghost predicate WasAskedFor(requests: seq<Request>, n: nat, before: map<JobId, Commission>, id: JobId, local: bool)
    requires n <= |requests|
  {
    exists c: Commission :: WasAsked(requests, n, before, id, c) && (local || c.remote)
  }

  ghost predicate WasAsked(requests: seq<Request>, n: nat, before: map<JobId, Commission>, id: JobId, c: Commission)
    requires n <= |requests|
  {
    (id in before && c == before[id]) || IsBegun(requests, n, id, c)
  }

  /** What a whole run says of what was lent and what was given back. */
  ghost predicate AllAnswered(requests: seq<Request>, replies: seq<Reply>, n: nat, a: Desk, b: Desk)
    requires n <= |requests| == |replies|
  {
    && CannotMatches(requests, replies, n, a.cannot, b.cannot)
    && AllBegun(requests, n, a.commissions, b.commissions)
    && forall k :: 0 <= k < n ==> LoanIsDue(requests, replies, k, a.cannot, a.commissions)
  }

  lemma AnsweredOneMore(requests: seq<Request>, replies: seq<Reply>, n: nat, a: Desk, b: Desk, d: Desk)
    requires n < |requests| == |replies| && AllAnswered(requests, replies, n, a, b)
    requires Answered(requests[n], replies[n], b, d)
    ensures AllAnswered(requests, replies, n + 1, a, d)
  {
    hide *;
    AllAnsweredParts(requests, replies, n, a, b);
    AnsweredParts(requests[n], replies[n], b, d);
    CannotOneMore(requests, replies, n, a.cannot, b.cannot);
    BegunOneMore(requests, n, a.commissions, b.commissions, d.commissions);
    DueIs(requests, replies, n, a, b, d);
    AllAnsweredIs(requests, replies, n, a, d);
  }

  lemma AllAnsweredParts(requests: seq<Request>, replies: seq<Reply>, n: nat, a: Desk, b: Desk)
    requires n <= |requests| == |replies| && AllAnswered(requests, replies, n, a, b)
    ensures CannotMatches(requests, replies, n, a.cannot, b.cannot)
    ensures AllBegun(requests, n, a.commissions, b.commissions)
    ensures forall k :: 0 <= k < n ==> LoanIsDue(requests, replies, k, a.cannot, a.commissions)
  {
    hide CannotMatches, AllBegun, LoanIsDue;
  }

  lemma AllAnsweredIs(requests: seq<Request>, replies: seq<Reply>, n: nat, a: Desk, d: Desk)
    requires n < |requests| == |replies|
    requires CannotMatches(requests, replies, n + 1, a.cannot, d.cannot)
    requires AllBegun(requests, n + 1, a.commissions, d.commissions)
    requires forall k :: 0 <= k < n ==> LoanIsDue(requests, replies, k, a.cannot, a.commissions)
    requires LoanIsDue(requests, replies, n, a.cannot, a.commissions)
    ensures AllAnswered(requests, replies, n + 1, a, d)
  {
    hide CannotMatches, AllBegun, LoanIsDue;
  }

  lemma AnsweredParts(r: Request, reply: Reply, a: Desk, b: Desk)
    requires Answered(r, reply, a, b)
    ensures CommissionsCome(r, a.commissions, b.commissions) && b.cannot == CannotAfter(r, reply, a.cannot)
    ensures IsAnswer(r, reply, a, b) && (reply.GivenBack? ==> !r.Die?)
  {
    hide CommissionsCome, CannotAfter, IsDue, CannotDo;
  }

  lemma DueIs(requests: seq<Request>, replies: seq<Reply>, n: nat, a: Desk, b: Desk, d: Desk)
    requires n < |requests| == |replies| && IsAnswer(requests[n], replies[n], b, d)
    requires CannotMatches(requests, replies, n, a.cannot, b.cannot)
    requires AllBegun(requests, n + 1, a.commissions, d.commissions)
    ensures LoanIsDue(requests, replies, n, a.cannot, a.commissions)
  {
    if replies[n].Lends? {
      var r, loan := requests[n], replies[n].loan;
      assert loan.job in CannotDo(b.cannot, r.worker) <==>
             Refuses(requests, replies, n, CannotDo(a.cannot, r.worker), r.worker, loan.job);
      var c := d.commissions[loan.job];
      assert WasAsked(requests, n + 1, a.commissions, loan.job, c);
    }
    hide Refuses, IsBegun, CannotDo;
  }

  lemma NothingAnswered(a: Desk)
    ensures AllAnswered([], [], 0, a, a)
  {
    assert LivesOn([], -1, 0);
    hide CannotDo;
  }

  /** What an answer was due for does not depend on what came after. */
  lemma AnsweredMore(requests: seq<Request>, replies: seq<Reply>, n: nat, reply: Reply, a: Desk, b: Desk, d: Desk)
    requires n < |requests| && |replies| == n && AllAnswered(requests[..n], replies, n, a, b)
    requires Answered(requests[n], reply, b, d)
    ensures AllAnswered(requests[..n + 1], replies + [reply], n + 1, a, d)
  {
    hide *;
    var some, all := requests[..n + 1], replies + [reply];
    assert some[..n] == requests[..n] && all[..n] == replies && some[n] == requests[n] && all[n] == reply;
    AnsweredStill(some, all, n, a, b);
    AnsweredOneMore(some, all, n, a, b, d);
  }

  lemma SameRun(requests: seq<Request>, replies: seq<Reply>, n: nat, k: nat)
    requires k <= n <= |requests| == |replies|
    ensures forall worker, job :: GaveBack(requests[..n], replies[..n], k, worker, job) <==>
              GaveBack(requests, replies, k, worker, job)
    ensures LivesOn(requests[..n], -1, k) <==> LivesOn(requests, -1, k)
  {
    var some, all := requests[..n], replies[..n];
    assert forall m :: 0 <= m < n ==> some[m] == requests[m] && all[m] == replies[m];
    assert forall m: int :: LivesOn(some, m, k) <==> LivesOn(requests, m, k);
    hide LivesOn;
  }

  lemma SameBegun(requests: seq<Request>, n: nat, k: nat)
    requires k <= n <= |requests|
    ensures forall id, c :: IsBegun(requests[..n], k, id, c) <==> IsBegun(requests, k, id, c)
  {
    var some := requests[..n];
    assert forall m :: 0 <= m < n ==> some[m] == requests[m];
  }

  lemma AnsweredStill(requests: seq<Request>, replies: seq<Reply>, n: nat, a: Desk, b: Desk)
    requires n <= |requests| == |replies| && AllAnswered(requests[..n], replies[..n], n, a, b)
    ensures AllAnswered(requests, replies, n, a, b)
  {
    AllAnsweredParts(requests[..n], replies[..n], n, a, b);
    SameRun(requests, replies, n, n);
    SameBegun(requests, n, n);
    hide GaveBack, LivesOn, IsBegun, CannotDo;
    forall k | 0 <= k < n
      ensures LoanIsDue(requests, replies, k, a.cannot, a.commissions)
    {
      DueStill(requests, replies, n, k, a);
    }
    hide LoanIsDue;
  }

  lemma DueStill(requests: seq<Request>, replies: seq<Reply>, n: nat, k: nat, a: Desk)
    requires k < n <= |requests| == |replies| && LoanIsDue(requests[..n], replies[..n], k, a.cannot, a.commissions)
    ensures LoanIsDue(requests, replies, k, a.cannot, a.commissions)
  {
    SameRun(requests, replies, n, k);
    SameBegun(requests, n, k + 1);
    var some, all := requests[..n], replies[..n];
    assert some[k] == requests[k] && all[k] == replies[k];
    if replies[k].Lends? {
      var c := DueTerms(some, all, k, a);
      AskedStill(requests, n, k + 1, a.commissions, replies[k].loan.job, c);
      hide GaveBack, LivesOn, IsBegun, CannotDo;
    }
  }

  lemma SomeTerms(requests: seq<Request>, n: nat, before: map<JobId, Commission>, id: JobId, local: bool)
    returns (c: Commission)
    requires n <= |requests| && WasAskedFor(requests, n, before, id, local)
    ensures WasAsked(requests, n, before, id, c) && (local || c.remote)
  {
    hide WasAsked;
    c :| WasAsked(requests, n, before, id, c) && (local || c.remote);
  }

  lemma DueTerms(requests: seq<Request>, replies: seq<Reply>, n: nat, a: Desk) returns (c: Commission)
    requires n < |requests| == |replies| && LoanIsDue(requests, replies, n, a.cannot, a.commissions)
    requires replies[n].Lends?
    ensures requests[n].Ask? && WasAsked(requests, n + 1, a.commissions, replies[n].loan.job, c)
    ensures requests[n].local || c.remote
  {
    assert WasAskedFor(requests, n + 1, a.commissions, replies[n].loan.job, requests[n].local);
    c := SomeTerms(requests, n + 1, a.commissions, replies[n].loan.job, requests[n].local);
  }

  lemma AskedStill(requests: seq<Request>, n: nat, k: nat, before: map<JobId, Commission>, id: JobId, c: Commission)
    requires k <= n <= |requests| && WasAsked(requests[..n], k, before, id, c)
    ensures WasAsked(requests, k, before, id, c)
  {
    SameBegun(requests, n, k);
    hide IsBegun;
  }

  /**
   Who was lent a shard asked for one; of that job, if of any; had not given it back since the coordinator
   last died; and is this node itself, or the job was asked for with workers to share in it.
   */
  ghost predicate LentDuly(requests: seq<Request>, replies: seq<Reply>, n: nat)
    requires n < |requests| == |replies|
  {
    replies[n].Lends? ==>
      && requests[n].Ask? && replies[n].loan.lease == requests[n].lease
      && (requests[n].only.Some? ==> requests[n].only.value == replies[n].loan.job)
      && !GaveBack(requests, replies, n, requests[n].worker, replies[n].loan.job)
      && exists k :: 0 <= k < n && requests[k].Begin? && requests[k].id == replies[n].loan.job &&
           (requests[n].local || requests[k].commission.remote)
  }

  lemma WhenAsked(requests: seq<Request>, n: nat, id: JobId, c: Commission) returns (k: nat)
    requires n <= |requests| && WasAsked(requests, n, map[], id, c)
    ensures k < n && requests[k].Begin? && requests[k].id == id && requests[k].commission == c
  {
    assert IsBegun(requests, n, id, c);
    k :| 0 <= k < n && requests[k].Begin? && requests[k].id == id && requests[k].commission == c;
  }

  lemma DueIsDuly(requests: seq<Request>, replies: seq<Reply>, n: nat, granted: map<LeaseId, Ref>)
    requires n < |requests| == |replies| && LoanIsDue(requests, replies, n, map[], map[])
    ensures LentDuly(requests, replies, n)
  {
    if replies[n].Lends? {
      var c := DueTerms(requests, replies, n, Desk(map[], map[], granted));
      var k := WhenAsked(requests, n + 1, replies[n].loan.job, c);
      assert k < n && requests[k].Begin? && requests[k].id == replies[n].loan.job;
    }
    hide GaveBack;
  }

  /** What a run begun with nothing has of whom it lent to. */
  lemma AnsweredFromNothing(requests: seq<Request>, replies: seq<Reply>, granted: map<LeaseId, Ref>, b: Desk)
    requires |requests| == |replies|
    requires AllAnswered(requests, replies, |requests|, Desk(map[], map[], granted), b)
    ensures forall n :: 0 <= n < |requests| ==> LentDuly(requests, replies, n)
    ensures forall worker, job :: job in CannotDo(b.cannot, worker) <==>
              GaveBack(requests, replies, |requests|, worker, job)
    ensures forall id :: id in b.commissions ==> IsBegun(requests, |requests|, id, b.commissions[id])
  {
    AllAnsweredParts(requests, replies, |requests|, Desk(map[], map[], granted), b);
    forall n | 0 <= n < |requests|
      ensures LentDuly(requests, replies, n)
    {
      DueIsDuly(requests, replies, n, granted);
    }
    hide LentDuly, LoanIsDue, GaveBack, LivesOn, IsBegun;
  }
}
