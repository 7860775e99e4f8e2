/**
 The drain choreography as a step machine over one draining process.

 A node holds, per partition, the staged rows by window, the lake's registered
 manifests and watermark row, and the in-process ledger; and, across partitions,
 the objects by part name. Each step is one port call of `drain_window`, a row
 arriving in any window table, or a crash followed by a reboot.
 */
module Drain {
  import opened Options
  import opened Naming
  import opened Ledger

  datatype Row = Row(id: RowId, ts: int)

  /** One partition. `ever` is history only: every row ever staged. */
  datatype Shard = Shard(
    staging: map<nat, set<Row>>,
    lake: seq<Manifest>,
    lakeMark: Option<int>,
    ledger: seq<Manifest>,
    ever: set<Row>)

  datatype TraceEvent = SealPart | PutPart | LakeCommitOk | LakeCommitAbort | LakeCommitIndeterminate
                      | Reconcile | DropWindow

  datatype RequeueReason = RejectedByBackend | CommitLost | Unproven | CatalogUnavailable

  datatype DrainError = WindowAhead | SealFailed | LedgerRejected | PutFailed | LakeFailed

  datatype Outcome =
    | Committed(mark: Option<int>)
    | AlreadyCommitted
    | Requeue(reason: RequeueReason)
    | Failed(error: DrainError)

  /** What an attempt carries once its window is sealed. */
  datatype Attempt = Attempt(partition: Id, window: nat, prior: Option<int>, rows: set<Row>, man: Manifest)

  datatype Unsettled = Aborted | Indeterminate

  /** Where the attempt stands: the port call it makes next. */
  datatype Phase =
    | Idle(last: Option<Outcome>)
    | Sealing(partition: Id, window: nat, prior: Option<int>)
    | Sealed(a: Attempt)
    | Putting(a: Attempt, preview: Option<int>)
    | Committing(a: Attempt, preview: Option<int>)
    | ReadingBack(a: Attempt, preview: Option<int>, unsettled: Unsettled)
    | Recording(a: Attempt, yielded: bool)
    | Dropping(partition: Id, window: nat, covered: set<RowId>, outcome: Outcome)
    | Down

  /** The committer calls of a run, in order, with process deaths. */
  datatype Call = CommitCall(settled: bool) | ReadBackCall | Died

  datatype Node = Node(
    shards: map<Id, Shard>,
    objects: map<FenceKey, set<Row>>,
    phase: Phase,
    journal: seq<TraceEvent>,
    calls: seq<Call>)

  /** How the backend answers one `commit_files` call. */
  datatype Reply = Accepted | Rejected | LostLanded | LostDropped | Misconfigured

  datatype Event =
    | Arrive(partition: Id, window: nat, row: Row)
    | Begin(partition: Id, window: nat)
    | Seal(ok: bool)
    | Advance
    | Put(ok: bool, landed: bool)
    | Commit(reply: Reply)
    | ReadBack(ok: bool)
    | Record
    | Drop(ok: bool, landed: bool)
    | Crash

  // ------------------------------------------------------------------ ports

  const EMPTY := Shard(map[], [], None, [], {})
  const DATASET: Id := [111, 116, 108, 112, 95, 108, 111, 103, 115]  // "otlp_logs"
  const INIT := Node(map[], map[], Idle(None), [], [])

  function Of(s: Node, p: Id): Shard {
    if p in s.shards then s.shards[p] else EMPTY
  }

  /** The fence key of a window's one primary part; objects are stored under its name. */
  function Primary(p: Id, w: nat): FenceKey {
    FenceKey(DATASET, p, w, Window)
  }

  function Ids(rows: set<Row>): set<RowId> {
    set r <- rows :: r.id
  }

  function Stamps(rows: set<Row>): set<int> {
    set r <- rows :: r.ts
  }

  predicate IsLatest(rows: set<Row>, m: int) {
    m in Stamps(rows) && forall q <- rows :: q.ts <= m
  }

  /** The latest event time sealed; 0 for an empty window. */
  function LatestTs(rows: set<Row>): int {
    if rows == {} then 0
    else
      LatestExists(rows);
      var m :| m in Stamps(rows) && IsLatest(rows, m);
      m
  }

  lemma {:induction false} LatestExists(rows: set<Row>)
    requires rows != {}
    ensures exists m :: IsLatest(rows, m)
  {
    var r :| r in rows;
    var rest := rows - {r};
    assert rows == rest + {r};
    var m := r.ts;
    if rest != {} {
      LatestExists(rest);
      var n :| IsLatest(rest, n);
      m := Max(r.ts, n);
    }
    assert IsLatest(rows, m);
  }

  /** The manifest of one seal: exactly the sealed rows' identities, nothing deduplicated. */
  function ManifestOf(p: Id, w: nat, rows: set<Row>): Manifest {
    Manifest(w, Primary(p, w), Ids(rows), |rows|, LatestTs(rows))
  }

  /** Check-before-register: is this window's part already in the lake's record? */
  predicate IsRegistered(lake: seq<Manifest>, w: nat, part: FenceKey) {
    exists m <- lake :: m.window == w && m.part == part
  }

  /** One atomic lake transaction: files, manifest and watermark row, or nothing. */
  function Register(sh: Shard, man: Manifest, mark: Option<int>): Shard {
    if IsRegistered(sh.lake, man.window, man.part) then sh
    else sh.(lake := sh.lake + [man], lakeMark := if mark.Some? then mark else sh.lakeMark)
  }

  datatype Verdict = Landed | Lost | NoEvidence

  /** Reconcile's decision from the one read-back. */
  function Judge(prior: Option<int>, preview: Option<int>, readBack: Option<int>): Verdict {
    if preview.Some? && (prior.None? || preview.value > prior.value)
    then if readBack.Some? && readBack.value >= preview.value then Landed else Lost
    else NoEvidence
  }

  function Uncovered(rows: set<Row>, covered: set<RowId>): set<Row> {
    set r <- rows | r.id !in covered
  }

  /** Coverage-guarded drop: whole table when nothing is left over, covered rows otherwise. */
  function DropRows(staging: map<nat, set<Row>>, w: nat, covered: set<RowId>): map<nat, set<Row>> {
    if w !in staging then staging
    else
      var residue := Uncovered(staging[w], covered);
      if residue == {} then staging - {w} else staging[w := residue]
  }

  // ------------------------------------------------------------------ steps

  function With(s: Node, p: Id, sh: Shard): Node {
    s.(shards := s.shards[p := sh])
  }

  function End(s: Node, outcome: Outcome): Node {
    s.(phase := Idle(Some(outcome)))
  }

  function Log(s: Node, e: TraceEvent): Node {
    s.(journal := s.journal + [e])
  }

  predicate Enabled(s: Node, e: Event) {
    match e
    case Arrive(p, w, row) => row.id !in Ids(Of(s, p).ever) && !s.phase.Down?
    case Begin(_, _) => s.phase.Idle?
    case Seal(ok) => s.phase.Sealing? && (ok ==> s.phase.window in Of(s, s.phase.partition).staging)
    case Advance => s.phase.Sealed?
    case Put(ok, landed) => s.phase.Putting? && (ok ==> landed)
    case Commit(_) => s.phase.Committing?
    case ReadBack(_) => s.phase.ReadingBack?
    case Record => s.phase.Recording?
    case Drop(ok, landed) => s.phase.Dropping? && (ok ==> landed)
    case Crash => true
  }

  function Step(s: Node, e: Event): Node
    requires Enabled(s, e)
  {
    match e
    case Arrive(p, w, row) => ArriveStep(s, p, w, row)
    case Begin(p, w) => BeginStep(s, p, w)
    case Seal(ok) => SealStep(s, ok)
    case Advance => AdvanceStep(s)
    case Put(ok, landed) => PutStep(s, ok, landed)
    case Commit(reply) => CommitStep(s, reply)
    case ReadBack(ok) => ReadBackStep(s, ok)
    case Record => RecordStep(s)
    case Drop(ok, landed) => DropStep(s, ok, landed)
    case Crash => CrashStep(s)
  }

  function ArriveStep(s: Node, p: Id, w: nat, row: Row): Node {
    var sh := Of(s, p);
    var table := if w in sh.staging then sh.staging[w] else {};
    With(s, p, sh.(staging := sh.staging[w := table + {row}], ever := sh.ever + {row}))
  }

  /** The fence pre-check against the ledger's dense-next window. */
  function BeginStep(s: Node, p: Id, w: nat): Node {
    var sh, s0 := Of(s, p), s.(journal := []);
    if w < |sh.ledger| then s0.(phase := Dropping(p, w, sh.ledger[w].coverage, AlreadyCommitted))
    else if w > |sh.ledger| then End(s0, Failed(WindowAhead))
    else s0.(phase := Sealing(p, w, Watermark(sh.ledger)))
  }

  function SealStep(s: Node, ok: bool): Node
    requires Enabled(s, Seal(ok))
  {
    var p, w := s.phase.partition, s.phase.window;
    if !ok then End(s, Failed(SealFailed))
    else
      var rows := Of(s, p).staging[w];
      Log(s, SealPart).(phase := Sealed(Attempt(p, w, s.phase.prior, rows, ManifestOf(p, w, rows))))
  }

  function AdvanceStep(s: Node): Node
    requires s.phase.Sealed?
  {
    var a := s.phase.a;
    var ms := Of(s, a.partition).ledger;
    match Admit(ms, a.man)
    case None => s.(phase := Putting(a, Watermark(ms + [a.man])))
    case Some(r) =>
      if r.WindowNotNext? && r.got < r.expected && a.window < |ms|
      then s.(phase := Dropping(a.partition, a.window, ms[a.window].coverage, AlreadyCommitted))
      else End(s, Failed(LedgerRejected))
  }

  /** The object's one PUT; a failed call may still have landed. */
  function PutStep(s: Node, ok: bool, landed: bool): Node
    requires s.phase.Putting?
  {
    var a := s.phase.a;
    var s1 := if landed then s.(objects := s.objects[a.man.part := a.rows]) else s;
    if ok then Log(s1, PutPart).(phase := Committing(a, s.phase.preview)) else End(s1, Failed(PutFailed))
  }

  function CommitStep(s: Node, reply: Reply): Node
    requires s.phase.Committing?
  {
    var a, preview := s.phase.a, s.phase.preview;
    var sh := Of(s, a.partition);
    var landed := With(s, a.partition, Register(sh, a.man, preview));
    var settled := s.calls + [CommitCall(true)];
    var open := s.calls + [CommitCall(false)];
    match reply
    case Accepted => Log(landed, LakeCommitOk).(phase := Recording(a, false), calls := settled)
    case Rejected => Log(s, LakeCommitAbort).(phase := ReadingBack(a, preview, Aborted), calls := open)
    case LostLanded =>
      Log(landed, LakeCommitIndeterminate).(phase := ReadingBack(a, preview, Indeterminate), calls := open)
    case LostDropped => Log(s, LakeCommitIndeterminate).(phase := ReadingBack(a, preview, Indeterminate), calls := open)
    case Misconfigured => End(s.(calls := settled), Failed(LakeFailed))
  }

  function ReadBackStep(s: Node, ok: bool): Node
    requires s.phase.ReadingBack?
  {
    var a, u := s.phase.a, s.phase.unsettled;
    var s1 := s.(calls := s.calls + [ReadBackCall]);
    if !ok then End(s1, Requeue(CatalogUnavailable))
    else
      var s2 := if u == Indeterminate then Log(s1, Reconcile) else s1;
      match Judge(a.prior, s.phase.preview, Of(s, a.partition).lakeMark)
      case Landed => s2.(phase := Recording(a, u == Aborted))
      case Lost => End(s2, Requeue(if u == Aborted then RejectedByBackend else CommitLost))
      case NoEvidence => End(s2, Requeue(Unproven))
  }

  function RecordStep(s: Node): Node
    requires s.phase.Recording?
  {
    var a := s.phase.a;
    var sh := Of(s, a.partition);
    var result := match Admit(sh.ledger, a.man)
      case None => Ok(sh.ledger + [a.man])
      case Some(r) => if r.WindowNotNext? && r.got < r.expected then Ok(sh.ledger) else Err(r);
    match result
    case Err(_) => End(s, Failed(LedgerRejected))
    case Ok(ms) =>
      With(s, a.partition, sh.(ledger := ms)).(
        phase := Dropping(a.partition, a.window, a.man.coverage,
                          if s.phase.yielded then AlreadyCommitted else Committed(Watermark(ms))))
  }

  /** The coverage-guarded drop; a failed call may still have removed the covered rows. */
  function DropStep(s: Node, ok: bool, landed: bool): Node
    requires s.phase.Dropping?
  {
    var p, w, covered := s.phase.partition, s.phase.window, s.phase.covered;
    var sh := Of(s, p);
    var s1 := if landed then With(s, p, sh.(staging := DropRows(sh.staging, w, covered))) else s;
    if !ok then End(s1, Failed(SealFailed))
    else End(if covered != {} && w in sh.staging then Log(s1, DropWindow) else s1, s.phase.outcome)
  }

  /** Process death and reboot: every ledger is rebuilt from the lake's manifests. */
  function CrashStep(s: Node): Node {
    var s1 := s.(calls := s.calls + [Died]);
    if forall p <- s.shards :: Reconstruct(s.shards[p].lake).Ok?
    then s1.(phase := Idle(None),
             shards := map p <- s.shards :: s.shards[p].(ledger := Reconstruct(s.shards[p].lake).value))
    else s1.(phase := Down)
  }

  // ------------------------------------------------------------------- runs

  predicate Legal(s: Node, run: seq<Event>)
    decreases |run|
  {
    run == [] || (Enabled(s, run[0]) && Legal(Step(s, run[0]), run[1..]))
  }

  function Exec(s: Node, run: seq<Event>): Node
    requires Legal(s, run)
    decreases |run|
  {
    if run == [] then s else Exec(Step(s, run[0]), run[1..])
  }

  /** `run` takes s to s'. */
  ghost predicate Takes(s: Node, run: seq<Event>, s': Node) {
    Legal(s, run) && Exec(s, run) == s'
  }

  lemma {:induction false} Then(s: Node, a: seq<Event>, s1: Node, b: seq<Event>, s2: Node)
    requires Takes(s, a, s1) && Takes(s1, b, s2)
    ensures Takes(s, a + b, s2)
    decreases |a|
  {
    if a == [] {
      assert a + b == b;
    } else {
      assert (a + b)[1..] == a[1..] + b;
      Then(Step(s, a[0]), a[1..], s1, b, s2);
    }
  }

  lemma One(s: Node, e: Event)
    requires Enabled(s, e)
    ensures Takes(s, [e], Step(s, e))
  {
    assert Legal(Step(s, e), []);
    assert [e][1..] == [];
  }

  lemma Two(s: Node, e: Event, f: Event)
    requires Enabled(s, e) && Enabled(Step(s, e), f)
    ensures Takes(s, [e, f], Step(Step(s, e), f))
  {
    One(s, e);
    One(Step(s, e), f);
    Then(s, [e], Step(s, e), [f], Step(Step(s, e), f));
    assert [e] + [f] == [e, f];
  }

  /** Does the lake hold this window's manifest? */
  predicate Registered(s: Node, p: Id, w: nat) {
    IsRegistered(Of(s, p).lake, w, Primary(p, w))
  }

  predicate Staged(sh: Shard, r: Row) {
    exists w <- sh.staging :: r in sh.staging[w]
  }

  /** A row is safe while staged, or inside the object of a registered window. */
  ghost predicate Safe(s: Node, p: Id, r: Row) {
    || Staged(Of(s, p), r)
    || exists w: nat :: Registered(s, p, w) && Primary(p, w) in s.objects && r in s.objects[Primary(p, w)]
  }

  ghost predicate NoLoss(s: Node) {
    forall p, r :: r in Of(s, p).ever ==> Safe(s, p, r)
  }
}
