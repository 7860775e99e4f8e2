/**
 Journal and call discipline of the drain, for every legal run without any
 assumption: an attempt's journal is one of twelve words tied to its outcome, and
 no commit call follows an unsettled one in a live process before exactly one
 read-back.
 */
module DrainJournal {
  import opened Options
  import opened Naming
  import opened Drain

  const S := [SealPart]
  const SP := [SealPart, PutPart]
  const SPO := [SealPart, PutPart, LakeCommitOk]
  const SPA := [SealPart, PutPart, LakeCommitAbort]
  const SPI := [SealPart, PutPart, LakeCommitIndeterminate]
  const SPIR := [SealPart, PutPart, LakeCommitIndeterminate, Reconcile]
  const D := [DropWindow]

  /** The journals of an attempt that has dropped nothing yet. */
  predicate Undropped(j: seq<TraceEvent>) {
    j == [] || j == S || j == SP || j == SPO || j == SPA || j == SPI || j == SPIR
  }

  /** The journals under which a drop may run: completion, or a commit that stands. */
  predicate MayDrop(j: seq<TraceEvent>) {
    j == [] || j == S || j == SPO || j == SPA || j == SPIR
  }

  predicate Word(j: seq<TraceEvent>) {
    Undropped(j) || exists k | 0 <= k <= |j| :: j == j[..k] + D && MayDrop(j[..k])
  }

  predicate Ends(j: seq<TraceEvent>, body: seq<TraceEvent>) {
    j == body || j == body + D
  }

  /** Which journals each outcome can close. */
  predicate Closes(o: Outcome, j: seq<TraceEvent>) {
    match o
    case Committed(_) => Ends(j, SPO) || Ends(j, SPIR)
    case AlreadyCommitted => Ends(j, []) || Ends(j, S) || Ends(j, SPA)
    case Requeue(RejectedByBackend) => j == SPA
    case Requeue(CommitLost) => j == SPIR
    case Requeue(Unproven) => j == SPA || j == SPIR
    case Requeue(CatalogUnavailable) => j == SPA || j == SPI
    case Failed(WindowAhead) => j == []
    case Failed(SealFailed) => MayDrop(j)
    case Failed(LedgerRejected) => j == S || j == SPO || j == SPA || j == SPIR
    case Failed(PutFailed) => j == S
    case Failed(LakeFailed) => j == SP
  }

  predicate JournalInv(s: Node) {
    match s.phase
    case Idle(None) => Word(s.journal)
    case Idle(Some(o)) => Closes(o, s.journal)
    case Sealing(_, _, _) => s.journal == []
    case Sealed(_) => s.journal == S
    case Putting(_, _) => s.journal == S
    case Committing(_, _) => s.journal == SP
    case ReadingBack(_, _, u) => s.journal == if u == Aborted then SPA else SPI
    case Recording(_, yielded) => if yielded then s.journal == SPA else s.journal == SPO || s.journal == SPIR
    case Dropping(_, _, _, o) => MayDrop(s.journal) && Closes(o, s.journal) && (o.Committed? || o.AlreadyCommitted?)
    case Down => Word(s.journal)
  }

  lemma EndsAreWords(j: seq<TraceEvent>, body: seq<TraceEvent>)
    requires Ends(j, body) && MayDrop(body)
    ensures Word(j)
  {
    if j == body + D {
      assert j[..|body|] == body;
    }
  }

  lemma ClosesAreWords(o: Outcome, j: seq<TraceEvent>)
    requires Closes(o, j)
    ensures Word(j)
  {
    if Ends(j, SPO) { EndsAreWords(j, SPO); }
    if Ends(j, SPIR) { EndsAreWords(j, SPIR); }
    if Ends(j, []) { EndsAreWords(j, []); }
    if Ends(j, S) { EndsAreWords(j, S); }
    if Ends(j, SPA) { EndsAreWords(j, SPA); }
  }

  lemma JournalWord(s: Node)
    requires JournalInv(s)
    ensures Word(s.journal)
  {
    if s.phase.Idle? && s.phase.last.Some? {
      ClosesAreWords(s.phase.last.value, s.journal);
    }
  }

  lemma Extensions()
    ensures [] + [SealPart] == S && S + [PutPart] == SP
    ensures SP + [LakeCommitOk] == SPO && SP + [LakeCommitAbort] == SPA && SP + [LakeCommitIndeterminate] == SPI
    ensures SPI + [Reconcile] == SPIR
  {
  }

  lemma JournalStep(s: Node, e: Event)
    requires JournalInv(s) && Enabled(s, e)
    ensures JournalInv(Step(s, e))
  {
    match e {
      case Crash => JournalWord(s);
      case Drop(ok, landed) => JournalDrop(s, ok, landed);
      case Seal(ok) => JournalSeal(s, ok);
      case Put(ok, landed) => JournalPut(s, ok, landed);
      case Commit(reply) => JournalCommit(s, reply);
      case ReadBack(ok) => JournalReadBack(s, ok);
      case Record => JournalRecord(s);
      case Advance => JournalAdvance(s);
      case Begin(p, w) => JournalBegin(s, p, w);
      case Arrive(_, _, _) =>
    }
  }

  lemma JournalSeal(s: Node, ok: bool)
    requires JournalInv(s) && Enabled(s, Seal(ok))
    ensures JournalInv(SealStep(s, ok))
  {
    Extensions();
  }

  lemma JournalPut(s: Node, ok: bool, landed: bool)
    requires JournalInv(s) && s.phase.Putting?
    ensures JournalInv(PutStep(s, ok, landed))
  {
    Extensions();
  }

  lemma JournalCommit(s: Node, reply: Reply)
    requires JournalInv(s) && s.phase.Committing?
    ensures JournalInv(CommitStep(s, reply))
  {
    Extensions();
  }

  lemma JournalBegin(s: Node, p: Id, w: nat)
    requires s.phase.Idle?
    ensures JournalInv(BeginStep(s, p, w))
  {
    assert Ends([], []);
  }

  lemma JournalAdvance(s: Node)
    requires JournalInv(s) && s.phase.Sealed?
    ensures JournalInv(AdvanceStep(s))
  {
    assert Ends(S, S);
  }

  lemma JournalReadBack(s: Node, ok: bool)
    requires JournalInv(s) && s.phase.ReadingBack?
    ensures JournalInv(ReadBackStep(s, ok))
  {
    Extensions();
  }

  lemma JournalRecord(s: Node)
    requires JournalInv(s) && s.phase.Recording?
    ensures JournalInv(RecordStep(s))
  {
    assert Ends(SPO, SPO) && Ends(SPA, SPA) && Ends(SPIR, SPIR);
  }

  lemma DropEnds(j: seq<TraceEvent>, body: seq<TraceEvent>)
    requires Ends(j, body) && MayDrop(j)
    ensures j == body && Ends(j + D, body)
  {
    assert MayDrop(j) ==> DropWindow !in j;
    assert (body + D)[|body|] == DropWindow;
  }

  lemma JournalDrop(s: Node, ok: bool, landed: bool)
    requires JournalInv(s) && s.phase.Dropping?
    ensures JournalInv(DropStep(s, ok, landed))
  {
    var j := s.journal;
    if Ends(j, SPO) { DropEnds(j, SPO); }
    if Ends(j, SPIR) { DropEnds(j, SPIR); }
    if Ends(j, []) { DropEnds(j, []); }
    if Ends(j, S) { DropEnds(j, S); }
    if Ends(j, SPA) { DropEnds(j, SPA); }
  }

  // ------------------------------------------------------------------- calls

  /**
   Reads the call log: `Some(true)` while an unsettled commit awaits its one
   read-back, `Some(false)` when nothing is owed, `None` once the rule is broken
   by a blind resubmission or by a read-back nobody owed.
   */
  function Owes(calls: seq<Call>): Option<bool> {
    if calls == [] then Some(false) else Charge(Owes(calls[..|calls| - 1]), calls[|calls| - 1])
  }

  function Charge(debt: Option<bool>, call: Call): Option<bool> {
    match (debt, call)
    case (None, _) => None
    case (Some(owed), CommitCall(settled)) => if owed then None else Some(!settled)
    case (Some(owed), ReadBackCall) => if owed then Some(false) else None
    case (Some(_), Died) => Some(false)
  }

  ghost predicate CallInv(s: Node) {
    Owes(s.calls) == Some(s.phase.ReadingBack?)
  }

  lemma OwesSnoc(calls: seq<Call>, c: Call)
    ensures Owes(calls + [c]) == Charge(Owes(calls), c)
  {
    assert (calls + [c])[..|calls|] == calls;
  }

  lemma CallCommit(s: Node, reply: Reply)
    requires CallInv(s) && s.phase.Committing?
    ensures CallInv(CommitStep(s, reply))
  {
    OwesSnoc(s.calls, CommitCall(reply.Accepted? || reply.Misconfigured?));
  }

  lemma CallReadBack(s: Node, ok: bool)
    requires CallInv(s) && s.phase.ReadingBack?
    ensures CallInv(ReadBackStep(s, ok))
  {
    OwesSnoc(s.calls, ReadBackCall);
  }

  /** All other steps make no lake call and neither open nor close a read-back. */
  lemma CallQuiet(s: Node, e: Event)
    requires Enabled(s, e) && !e.Commit? && !e.ReadBack? && !e.Crash?
    ensures Step(s, e).calls == s.calls && (Step(s, e).phase.ReadingBack? <==> s.phase.ReadingBack?)
  {
  }

  lemma CallCrash(s: Node)
    requires CallInv(s)
    ensures CallInv(CrashStep(s))
  {
    OwesSnoc(s.calls, Died);
    var s' := CrashStep(s);
    assert s'.calls == s.calls + [Died];
    assert !s'.phase.ReadingBack?;
  }

  lemma CallStep(s: Node, e: Event)
    requires CallInv(s) && Enabled(s, e)
    ensures CallInv(Step(s, e))
  {
    match e {
      case Commit(reply) => CallCommit(s, reply);
      case ReadBack(ok) => CallReadBack(s, ok);
      case Crash => CallCrash(s);
      case _ => CallQuiet(s, e);
    }
  }

  // -------------------------------------------------------------------- runs

  lemma {:induction false} DisciplineKept(s: Node, run: seq<Event>)
    requires JournalInv(s) && CallInv(s) && Legal(s, run)
    ensures JournalInv(Exec(s, run)) && CallInv(Exec(s, run))
    decreases |run|
  {
    if run != [] {
      JournalStep(s, run[0]);
      CallStep(s, run[0]);
      DisciplineKept(Step(s, run[0]), run[1..]);
    }
  }

  /** Every reachable journal is a word closed by its outcome; no commit is ever resubmitted blind. */
  lemma DisciplineOverRuns(run: seq<Event>)
    requires Legal(INIT, run)
    ensures var s := Exec(INIT, run);
            && Word(s.journal)
            && (s.phase.Idle? && s.phase.last.Some? ==> Closes(s.phase.last.value, s.journal))
            && Owes(s.calls) == Some(s.phase.ReadingBack?)
  {
    DisciplineKept(INIT, run);
    JournalWord(Exec(INIT, run));
  }
}
