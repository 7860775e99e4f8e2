/**
 What the read-back's verdict is worth. "Lost" is right whenever every attempt at a window
 previews the same advance, and wrong exactly when a retry previews more than the registered
 attempt did. A wrong "landed" always does harm: the lead over the lake is gone once it is
 recorded, and the rows are once they are dropped.
 */
module DrainVerdict {
  import opened Options
  import opened Naming
  import opened Ledger
  import opened Drain
  import opened DrainSafety
  import opened DrainReadBack
  import opened DrainHonesty
  import opened DrainRecord

  // ------------------------------------------------------- the row while ahead

  /** What the registered attempt at the dense-next window previewed. */
  function AheadPreview(sh: Shard): Option<int>
    requires |sh.lake| > |sh.ledger|
  {
    Watermark(sh.ledger + [sh.lake[|sh.ledger|]])
  }

  /** While the lake is ahead, its row is the one that attempt carried. */
  ghost predicate AheadMark(sh: Shard) {
    |sh.lake| > |sh.ledger| && AheadPreview(sh).Some? ==> sh.lakeMark == AheadPreview(sh)
  }

  /** An attempt stands where it began: at the ledger's next window, on the ledger's watermark. */
  predicate Standing(s: Node) {
    match s.phase
    case Sealing(p, w, prior) => StandsAt(Of(s, p).ledger, w, prior)
    case Sealed(a) => StandsAt(Of(s, a.partition).ledger, a.window, a.prior)
    case Putting(a, _) => StandsAt(Of(s, a.partition).ledger, a.window, a.prior)
    case Committing(a, _) => StandsAt(Of(s, a.partition).ledger, a.window, a.prior)
    case ReadingBack(a, _, _) => StandsAt(Of(s, a.partition).ledger, a.window, a.prior)
    case _ => true
  }

  predicate StandsAt(ledger: seq<Manifest>, w: nat, prior: Option<int>) {
    w == |ledger| && prior == Watermark(ledger)
  }

  ghost predicate OrderlyShard(sh: Shard) {
    InOrder(sh.lake) && |sh.lake| <= |sh.ledger| + 1 && AheadMark(sh)
  }

  /** What holds in every run that skips no window, whatever its verdicts. */
  ghost predicate Orderly(s: Node) {
    OwnParts(s) && Standing(s) && forall p :: OrderlyShard(Of(s, p))
  }

  lemma StandingKept(s: Node, e: Event)
    requires Standing(s) && Enabled(s, e)
    ensures Standing(Step(s, e))
  {
    match e {
      case Arrive(p, w, row) => ArriveStands(s, p, w, row);
      case Begin(p, w) => BeginStands(s, p, w);
      case Commit(reply) => CommitStands(s, reply);
      case Record => NoneStands(s, e);
      case ReadBack(_) => NoneStands(s, e);
      case Drop(_, _) => NoneStands(s, e);
      case Crash => NoneStands(s, e);
      case _ => SealStands(s, e);
    }
  }

  lemma NoneStands(s: Node, e: Event)
    requires Enabled(s, e) && (e.Record? || e.ReadBack? || e.Drop? || e.Crash?)
    ensures var s' := Step(s, e);
            s'.phase.Idle? || s'.phase.Recording? || s'.phase.Dropping? || s'.phase.Down?
  {
  }

  lemma ArriveStands(s: Node, p: Id, w: nat, row: Row)
    requires Standing(s)
    ensures Standing(ArriveStep(s, p, w, row))
  {
    assert forall q :: Of(ArriveStep(s, p, w, row), q).ledger == Of(s, q).ledger;
  }

  lemma BeginStands(s: Node, p: Id, w: nat)
    ensures Standing(BeginStep(s, p, w))
  {
    assert Of(BeginStep(s, p, w), p) == Of(s, p);
  }

  lemma CommitStands(s: Node, reply: Reply)
    requires Standing(s) && s.phase.Committing?
    ensures Standing(CommitStep(s, reply))
  {
    CommitOf(s, reply, s.phase.a.partition);
  }

  lemma SealStands(s: Node, e: Event)
    requires Standing(s) && Enabled(s, e) && (e.Seal? || e.Advance? || e.Put?)
    ensures Standing(Step(s, e))
  {
    StillShards(s, e, if e.Seal? then s.phase.partition else s.phase.a.partition);
  }

  /** Only recording and rebooting touch a ledger. */
  lemma LedgerStep(s: Node, e: Event, p: Id)
    requires Enabled(s, e)
    ensures !e.Record? && !e.Crash? ==> Of(Step(s, e), p).ledger == Of(s, p).ledger
    ensures e.Record? ==> Of(Step(s, e), p).ledger == Of(s, p).ledger
                          || |Of(Step(s, e), p).ledger| == |Of(s, p).ledger| + 1
  {
    match e {
      case Record => RecordedLedger(s, p);
      case Commit(reply) => CommitOf(s, reply, p);
      case Crash =>
      case _ => QuietStep(s, e, p);
    }
  }

  lemma RecordedLedger(s: Node, p: Id)
    requires s.phase.Recording?
    ensures Of(RecordStep(s), p).ledger == Of(s, p).ledger
            || |Of(RecordStep(s), p).ledger| == |Of(s, p).ledger| + 1
  {
  }

  lemma OrderlyShardKept(s: Node, e: Event, p: Id)
    requires Orderly(s) && Enabled(s, e) && !Skips(s, e, p)
    ensures OrderlyShard(Of(Step(s, e), p))
  {
    var sh, after := Of(s, p), Of(Step(s, e), p);
    assert OrderlyShard(sh);
    RowStep(s, e, p);
    StepSkipsExactlyWhen(s, e, p);
    LedgerStep(s, e, p);
    if Registers(s, e, p) {
      NewWindow(p, sh.lake, s.phase.a.man);
      OrderAfter(sh.lake, s.phase.a.man);
      RegisteredAhead(sh, s.phase.a.man, after);
    } else if e.Crash? {
      RebootLevels(s, p);
    } else {
      StillOrderly(sh, after);
    }
  }

  lemma RegisteredAhead(sh: Shard, man: Manifest, after: Shard)
    requires |sh.lake| == |sh.ledger| && after.lake == sh.lake + [man] && after.ledger == sh.ledger
    requires Watermark(sh.ledger + [man]).Some? ==> after.lakeMark == Watermark(sh.ledger + [man])
    ensures |after.lake| == |after.ledger| + 1 && AheadMark(after)
  {
    assert after.lake[|after.ledger|] == man;
  }

  lemma StillOrderly(sh: Shard, after: Shard)
    requires OrderlyShard(sh) && after.lake == sh.lake && after.lakeMark == sh.lakeMark
    requires after.ledger == sh.ledger || |after.ledger| == |sh.ledger| + 1
    ensures OrderlyShard(after)
  {
  }

  /** A reboot rebuilds the whole of an ordered record. */
  lemma RebootLevels(s: Node, p: Id)
    requires OwnParts(s) && OrderlyShard(Of(s, p))
    ensures OrderlyShard(Of(CrashStep(s), p))
  {
    CrashRow(s, p);
    if CrashStep(s).phase.Down? {
      assert Of(CrashStep(s), p) == Of(s, p);
    } else {
      RebuiltLedger(s, p);
      var lake, n := Of(s, p).lake, |Of(CrashStep(s), p).ledger|;
      ReconstructIsPrefix(lake);
      if n < |lake| {
        WindowThere(lake, n);
      }
    }
  }

  lemma WindowThere(lake: seq<Manifest>, w: nat)
    requires InOrder(lake) && w < |lake|
    ensures WithWindow(lake, w) != []
  {
    WithWindowIff(lake, w);
    assert lake[w] in lake && lake[w].window == w;
    assert lake[w] in WithWindow(lake, w);
  }

  lemma OrderlyKept(s: Node, e: Event)
    requires Orderly(s) && Enabled(s, e) && forall p :: !Skips(s, e, p)
    ensures Orderly(Step(s, e))
  {
    OwnPartsKept(s, e);
    StandingKept(s, e);
    forall p ensures OrderlyShard(Of(Step(s, e), p)) {
      OrderlyShardKept(s, e, p);
    }
  }

  // ------------------------------------------------------------- "lost", exactly

  function VerdictAt(s: Node): Verdict
    requires s.phase.ReadingBack?
  {
    Judge(s.phase.a.prior, s.phase.preview, Of(s, s.phase.a.partition).lakeMark)
  }

  /**
   A window that is registered is judged lost exactly when this attempt previews more than the
   registered one did, or, if that one previewed nothing, more than the row holds; so never when
   both preview the same.
   */
  lemma LostExactlyWhen(s: Node)
    requires Orderly(s) && s.phase.ReadingBack?
    requires Registered(s, s.phase.a.partition, s.phase.a.window)
    ensures |Of(s, s.phase.a.partition).lake| > |Of(s, s.phase.a.partition).ledger|
    ensures var v := AheadPreview(Of(s, s.phase.a.partition));
            && (v.Some? ==>
                  (VerdictAt(s) == Lost <==> s.phase.preview.Some? && s.phase.preview.value > v.value))
            && (v.None? ==>
                  (VerdictAt(s) == Lost <==>
                     s.phase.preview.Some? && !Leq(s.phase.preview, Of(s, s.phase.a.partition).lakeMark)))
            && (s.phase.preview == v ==> VerdictAt(s) != Lost)
  {
    var a := s.phase.a;
    assert OrderlyShard(Of(s, a.partition));
    OrderedRegistered(s, a.partition, a.window);
    LostOnShard(Of(s, a.partition), s.phase.preview);
  }

  lemma LostOnShard(sh: Shard, preview: Option<int>)
    requires |sh.lake| > |sh.ledger| && AheadMark(sh)
    ensures var v, verdict := AheadPreview(sh), Judge(Watermark(sh.ledger), preview, sh.lakeMark);
            && (v.Some? ==> (verdict == Lost <==> preview.Some? && preview.value > v.value))
            && (v.None? ==> (verdict == Lost <==> preview.Some? && !Leq(preview, sh.lakeMark)))
            && (preview == v ==> verdict != Lost)
  {
    WatermarkMonotone(sh.ledger, sh.lake[|sh.ledger|]);
  }

  /** Previewing, an attempt at a window the lake already holds arrives at what the registered one did. */
  predicate SameAdvance(s: Node, e: Event)
    requires Enabled(s, e)
  {
    e == Advance ==>
      var sh := Of(s, s.phase.a.partition);
      |sh.lake| > |sh.ledger| ==> Watermark(sh.ledger + [s.phase.a.man]) == AheadPreview(sh)
  }

  predicate SameAdvances(s: Node, run: seq<Event>)
    requires Legal(s, run)
    decreases |run|
  {
    run == [] || (SameAdvance(s, run[0]) && SameAdvances(Step(s, run[0]), run[1..]))
  }

  predicate PreviewMatches(sh: Shard, preview: Option<int>) {
    |sh.lake| > |sh.ledger| ==> preview == AheadPreview(sh)
  }

  predicate SamePreview(s: Node) {
    match s.phase
    case Putting(a, v) => PreviewMatches(Of(s, a.partition), v)
    case Committing(a, v) => PreviewMatches(Of(s, a.partition), v)
    case ReadingBack(a, v, _) => PreviewMatches(Of(s, a.partition), v)
    case _ => true
  }

  lemma SamePreviewKept(s: Node, e: Event)
    requires Orderly(s) && SamePreview(s) && Enabled(s, e) && SameAdvance(s, e) && forall p :: !Skips(s, e, p)
    ensures SamePreview(Step(s, e))
  {
    match e {
      case Arrive(p, w, row) => ArriveKeepsPreview(s, p, w, row);
      case Advance => AdvanceGivesPreview(s);
      case Put(ok, landed) => PutKeepsPreview(s, ok, landed);
      case Commit(reply) => CommitKeepsPreview(s, reply);
      case _ => NoPreviewAfter(s, e);
    }
  }

  lemma NoPreviewAfter(s: Node, e: Event)
    requires Enabled(s, e) && !e.Arrive? && !e.Advance? && !e.Put? && !e.Commit?
    ensures var s' := Step(s, e); !s'.phase.Putting? && !s'.phase.Committing? && !s'.phase.ReadingBack?
  {
  }

  lemma ArriveKeepsPreview(s: Node, p: Id, w: nat, row: Row)
    requires SamePreview(s) && Enabled(s, Arrive(p, w, row))
    ensures SamePreview(ArriveStep(s, p, w, row))
  {
    if s.phase.Putting? || s.phase.Committing? || s.phase.ReadingBack? {
      QuietStep(s, Arrive(p, w, row), s.phase.a.partition);
    }
  }

  lemma AdvanceGivesPreview(s: Node)
    requires Enabled(s, Advance) && SameAdvance(s, Advance)
    ensures SamePreview(AdvanceStep(s))
  {
    assert Of(AdvanceStep(s), s.phase.a.partition) == Of(s, s.phase.a.partition);
  }

  lemma PutKeepsPreview(s: Node, ok: bool, landed: bool)
    requires SamePreview(s) && s.phase.Putting?
    ensures SamePreview(PutStep(s, ok, landed))
  {
    assert Of(PutStep(s, ok, landed), s.phase.a.partition) == Of(s, s.phase.a.partition);
  }

  lemma CommitKeepsPreview(s: Node, reply: Reply)
    requires Orderly(s) && SamePreview(s) && Enabled(s, Commit(reply))
    requires !Skips(s, Commit(reply), s.phase.a.partition)
    ensures SamePreview(CommitStep(s, reply))
  {
    var p, man := s.phase.a.partition, s.phase.a.man;
    var sh := Of(s, p);
    assert OrderlyShard(sh);
    CommitOf(s, reply, p);
    RowStep(s, Commit(reply), p);
    if Registers(s, Commit(reply), p) {
      NewWindow(p, sh.lake, man);
      OrderAfter(sh.lake, man);
      assert (sh.lake + [man])[|sh.ledger|] == man;
    }
  }

  /** Every read-back that says "lost" is about a window the lake does not hold. */
  predicate LostVerdictsTrue(s: Node, run: seq<Event>)
    requires Legal(s, run)
    decreases |run|
  {
    run == [] ||
    (&& (run[0] == ReadBack(true) && VerdictAt(s) == Lost ==>
           !Registered(s, s.phase.a.partition, s.phase.a.window))
     && LostVerdictsTrue(Step(s, run[0]), run[1..]))
  }

  lemma {:induction false} SameAdvancesKeep(s: Node, run: seq<Event>)
    requires Orderly(s) && SamePreview(s)
    requires Legal(s, run) && SameAdvances(s, run) && forall p :: NoneSkips(s, run, p)
    ensures LostVerdictsTrue(s, run)
    decreases |run|
  {
    if run != [] {
      if run[0] == ReadBack(true) && Registered(s, s.phase.a.partition, s.phase.a.window) {
        LostExactlyWhen(s);
      }
      forall p ensures !Skips(s, run[0], p) && NoneSkips(Step(s, run[0]), run[1..], p) {
        assert NoneSkips(s, run, p);
      }
      OrderlyKept(s, run[0]);
      SamePreviewKept(s, run[0]);
      SameAdvancesKeep(Step(s, run[0]), run[1..]);
    }
  }

  /**
   If every attempt at a window previews the same advance, "lost" means not registered: in every
   run that skips no window, whatever its "landed" verdicts, and so in every run where those are right.
   */
  lemma LostMeansUnregistered(run: seq<Event>)
    requires Legal(INIT, run) && SameAdvances(INIT, run)
    ensures (forall p :: NoneSkips(INIT, run, p)) ==> LostVerdictsTrue(INIT, run)
    ensures TrueVerdicts(INIT, run) ==> LostVerdictsTrue(INIT, run)
  {
    assert forall p :: Of(INIT, p) == EMPTY;
    if TrueVerdicts(INIT, run) {
      forall p ensures NoneSkips(INIT, run, p) {
        RightVerdictsNeverSkip(INIT, run, p);
      }
    }
    if forall p :: NoneSkips(INIT, run, p) {
      SameAdvancesKeep(INIT, run);
    }
  }

  // ------------------------------------------------------ a wrong "landed" harms

  /** No row is in two tables, nor in a table and the object of another window; objects hold staged rows. */
  ghost predicate SeparateShard(p: Id, sh: Shard, objects: map<FenceKey, set<Row>>) {
    && (forall w, x | w in sh.staging && x in sh.staging && w != x :: sh.staging[w] !! sh.staging[x])
    && (forall i: nat | Primary(p, i) in objects :: Apart(objects[Primary(p, i)], sh, i))
  }

  ghost predicate Apart(rows: set<Row>, sh: Shard, i: nat) {
    rows <= sh.ever && forall w | w in sh.staging && w != i :: rows !! sh.staging[w]
  }

  ghost predicate Separate(s: Node) {
    forall p :: SeparateShard(p, Of(s, p), s.objects)
  }

  lemma SeparateKept(s: Node, e: Event)
    requires Inv(s) && Separate(s) && Enabled(s, e)
    ensures Separate(Step(s, e))
  {
    match e {
      case Arrive(p, w, row) => ArriveSeparate(s, p, w, row);
      case Put(ok, landed) => PutSeparate(s, ok, landed);
      case Drop(ok, landed) => DropSeparate(s, ok, landed);
      case _ => SameTables(s, e);
    }
  }

  lemma SameTables(s: Node, e: Event)
    requires Separate(s) && Enabled(s, e) && !e.Arrive? && !e.Put? && !e.Drop?
    ensures Separate(Step(s, e))
  {
    forall p ensures SeparateShard(p, Of(Step(s, e), p), Step(s, e).objects) {
      SameTablesOf(s, e, p);
      assert SeparateShard(p, Of(s, p), s.objects);
    }
  }

  lemma SameTablesOf(s: Node, e: Event, p: Id)
    requires Enabled(s, e) && !e.Arrive? && !e.Put? && !e.Drop?
    ensures Of(Step(s, e), p).staging == Of(s, p).staging && Of(Step(s, e), p).ever == Of(s, p).ever
    ensures Step(s, e).objects == s.objects
  {
    match e {
      case Commit(reply) => CommitOf(s, reply, p);
      case Record => RecordTables(s, p);
      case Crash => CrashTables(s, p);
      case _ => EarlyTables(s, e, p);
    }
  }

  lemma EarlyTables(s: Node, e: Event, p: Id)
    requires Enabled(s, e) && (e.Begin? || e.Seal? || e.Advance? || e.ReadBack?)
    ensures Step(s, e).shards == s.shards && Step(s, e).objects == s.objects && Of(Step(s, e), p) == Of(s, p)
  {
  }

  lemma RecordTables(s: Node, p: Id)
    requires s.phase.Recording?
    ensures Of(RecordStep(s), p).staging == Of(s, p).staging && Of(RecordStep(s), p).ever == Of(s, p).ever
    ensures RecordStep(s).objects == s.objects
  {
  }

  lemma CrashTables(s: Node, p: Id)
    ensures Of(CrashStep(s), p).staging == Of(s, p).staging && Of(CrashStep(s), p).ever == Of(s, p).ever
    ensures CrashStep(s).objects == s.objects
  {
  }

  lemma ArriveSeparate(s: Node, p: Id, w: nat, row: Row)
    requires Inv(s) && Separate(s) && Enabled(s, Arrive(p, w, row))
    ensures Separate(ArriveStep(s, p, w, row))
  {
    var s' := ArriveStep(s, p, w, row);
    forall q ensures SeparateShard(q, Of(s', q), s'.objects) {
      assert SeparateShard(q, Of(s, q), s.objects);
      if q == p {
        assert ShardInv(p, Of(s, p), s.objects);
        ReceivedSeparate(p, Of(s, p), s.objects, w, row);
      }
    }
  }

  lemma ReceivedSeparate(p: Id, sh: Shard, objects: map<FenceKey, set<Row>>, w: nat, row: Row)
    requires Tables(sh) && SeparateShard(p, sh, objects) && row.id !in Ids(sh.ever)
    ensures var table := if w in sh.staging then sh.staging[w] else {};
            var after := sh.(staging := sh.staging[w := table + {row}], ever := sh.ever + {row});
            SeparateShard(p, after, objects)
  {
    assert row !in sh.ever;
  }

  lemma PutSeparate(s: Node, ok: bool, landed: bool)
    requires Inv(s) && Separate(s) && s.phase.Putting?
    ensures Separate(PutStep(s, ok, landed))
  {
    var s', a := PutStep(s, ok, landed), s.phase.a;
    var sh := Of(s, a.partition);
    assert ShardInv(a.partition, sh, s.objects);
    assert SeparateShard(a.partition, sh, s.objects);
    forall q ensures SeparateShard(q, Of(s', q), s'.objects) {
      assert SeparateShard(q, Of(s, q), s.objects);
      PutStored(s, ok, landed, q);
      if landed {
        StoredSeparate(q, Of(s, q), s.objects, a.partition, a.window, a.rows);
      }
    }
  }

  lemma PutStored(s: Node, ok: bool, landed: bool, q: Id)
    requires s.phase.Putting?
    ensures Of(PutStep(s, ok, landed), q) == Of(s, q)
    ensures PutStep(s, ok, landed).objects ==
            if landed then s.objects[s.phase.a.man.part := s.phase.a.rows] else s.objects
  {
  }

  lemma StoredSeparate(q: Id, sh: Shard, objects: map<FenceKey, set<Row>>, p: Id, w: nat, rows: set<Row>)
    requires SeparateShard(q, sh, objects)
    requires q == p ==> w in sh.staging && rows <= sh.staging[w] <= sh.ever
    ensures SeparateShard(q, sh, objects[Primary(p, w) := rows])
  {
    var after := objects[Primary(p, w) := rows];
    forall i: nat | Primary(q, i) in after ensures Apart(after[Primary(q, i)], sh, i) {
      if q != p || i != w {
        assert Apart(objects[Primary(q, i)], sh, i);
      }
    }
  }

  lemma DropSeparate(s: Node, ok: bool, landed: bool)
    requires Separate(s) && s.phase.Dropping?
    ensures Separate(DropStep(s, ok, landed))
  {
    var s', p := DropStep(s, ok, landed), s.phase.partition;
    forall q ensures SeparateShard(q, Of(s', q), s'.objects) {
      assert SeparateShard(q, Of(s, q), s.objects);
      if q == p && landed {
        DroppedSeparate(p, Of(s, p), s.objects, s.phase.window, s.phase.covered);
      } else {
        assert Of(s', q) == Of(s, q);
      }
    }
  }

  lemma DroppedSeparate(p: Id, sh: Shard, objects: map<FenceKey, set<Row>>, w: nat, covered: set<RowId>)
    requires SeparateShard(p, sh, objects)
    ensures SeparateShard(p, sh.(staging := DropRows(sh.staging, w, covered)), objects)
  {
    var after := DropRows(sh.staging, w, covered);
    assert forall x <- after :: x in sh.staging && after[x] <= sh.staging[x];
  }

  lemma {:induction false} SeparateOverRuns(s: Node, run: seq<Event>)
    requires Inv(s) && Separate(s) && Legal(s, run) && TrueVerdicts(s, run)
    ensures Inv(Exec(s, run)) && Separate(Exec(s, run))
    decreases |run|
  {
    if run != [] {
      SeparateKept(s, run[0]);
      StepKeeps(s, run[0]);
      SeparateOverRuns(Step(s, run[0]), run[1..]);
    }
  }

  /** The three steps that follow a read-back judged "landed". */
  function Recorded(s: Node): Node
    requires s.phase.ReadingBack? && VerdictAt(s) == Landed
  {
    RecordStep(ReadBackStep(s, true))
  }

  lemma RecordedShape(s: Node)
    requires Inv(s) && s.phase.ReadingBack? && VerdictAt(s) == Landed
    ensures var a, t := s.phase.a, Recorded(s);
            && t.objects == s.objects
            && t.phase.Dropping? && t.phase.partition == a.partition
            && t.phase.window == a.window && t.phase.covered == a.man.coverage
            && forall q ::
                 Of(t, q) == if q == a.partition then Of(s, q).(ledger := Of(s, q).ledger + [a.man]) else Of(s, q)
  {
    ReadBackShape(s, true);
    var s1 := ReadBackStep(s, true);
    assert s1.phase == Recording(s.phase.a, s.phase.unsettled == Aborted);
    forall q ensures Of(s1, q) == Of(s, q) {
    }
    forall q
      ensures Of(Recorded(s), q) ==
              if q == s.phase.a.partition then Of(s, q).(ledger := Of(s, q).ledger + [s.phase.a.man]) else Of(s, q)
    {
      RecordEffect(s1, q);
    }
  }

  /** Recorded, a verdict keeps the lake from falling behind exactly when it was right. */
  lemma LeadKeptExactlyWhenRight(s: Node)
    requires Inv(s) && s.phase.ReadingBack? && VerdictAt(s) == Landed
    ensures AheadByAtMostOne(Recorded(s)) <==> Registered(s, s.phase.a.partition, s.phase.a.window)
  {
    var p := s.phase.a.partition;
    RegisteredIff(s, p, s.phase.a.window);
    RecordedShape(s);
    var t := Recorded(s);
    forall q ensures q != p ==> |Of(t, q).ledger| <= |Of(t, q).lake| <= |Of(t, q).ledger| + 1 {
      assert ShardInv(q, Of(s, q), s.objects);
    }
    assert ShardInv(p, Of(s, p), s.objects);
    assert |Of(t, p).ledger| == |Of(s, p).ledger| + 1 && Of(t, p).lake == Of(s, p).lake;
  }

  /** Dropped, the sealed rows survive exactly when the verdict was right. */
  lemma RowsKeptExactlyWhenRight(s: Node)
    requires Inv(s) && Separate(s) && s.phase.ReadingBack? && VerdictAt(s) == Landed && s.phase.a.rows != {}
    ensures Recorded(s).phase.Dropping?
    ensures NoLoss(DropStep(Recorded(s), true, true)) <==> Registered(s, s.phase.a.partition, s.phase.a.window)
  {
    RecordedShape(s);
    if Registered(s, s.phase.a.partition, s.phase.a.window) {
      StepKeeps(s, ReadBack(true));
      ReadBackShape(s, true);
      var s1 := ReadBackStep(s, true);
      assert s1.phase.Recording?;
      StepKeeps(s1, Record);
      StepKeeps(Recorded(s), Drop(true, true));
      InvImplies(DropStep(Recorded(s), true, true));
    } else {
      var r :| r in s.phase.a.rows;
      WrongVerdictLoses(s, r);
    }
  }

  lemma WrongVerdictLoses(s: Node, r: Row)
    requires Inv(s) && Separate(s) && s.phase.ReadingBack? && VerdictAt(s) == Landed && r in s.phase.a.rows
    requires !Registered(s, s.phase.a.partition, s.phase.a.window)
    ensures Recorded(s).phase.Dropping? && !NoLoss(DropStep(Recorded(s), true, true))
  {
    var a, t := s.phase.a, DropStep(Recorded(s), true, true);
    DroppedShape(s);
    SealedOnce(s, r);
    DroppedIsGone(Of(s, a.partition).staging, a.window, a.man.coverage, r);
    NotArchived(s, r);
    NotSafe(s, t, a.partition, r);
    assert r in Of(t, a.partition).ever;
  }

  /** A sealed row is staged in its window's table and in no other. */
  lemma SealedOnce(s: Node, r: Row)
    requires Inv(s) && Separate(s) && s.phase.ReadingBack? && r in s.phase.a.rows
    ensures var a, staging := s.phase.a, Of(s, s.phase.a.partition).staging;
            && r in Of(s, a.partition).ever && r.id in a.man.coverage
            && a.window in staging && r in staging[a.window]
            && forall x | x in staging && x != a.window :: staging[a.window] !! staging[x]
  {
    var p := s.phase.a.partition;
    assert ShardInv(p, Of(s, p), s.objects) && SeparateShard(p, Of(s, p), s.objects);
  }

  /** A row that is neither staged in `t` nor archived in `s`, whose record and objects `t` has. */
  lemma NotSafe(s: Node, t: Node, p: Id, r: Row)
    requires t.objects == s.objects && Of(t, p).lake == Of(s, p).lake && !Staged(Of(t, p), r)
    requires forall x: nat | Registered(s, p, x) :: Primary(p, x) in s.objects ==> r !in s.objects[Primary(p, x)]
    ensures !Safe(t, p, r)
  {
    assert forall x: nat :: Registered(t, p, x) <==> Registered(s, p, x);
  }

  lemma DroppedShape(s: Node)
    requires Inv(s) && s.phase.ReadingBack? && VerdictAt(s) == Landed
    ensures Recorded(s).phase.Dropping?
    ensures var a, t := s.phase.a, DropStep(Recorded(s), true, true);
            var sh, after := Of(s, a.partition), Of(t, a.partition);
            && t.objects == s.objects && after.ever == sh.ever && after.lake == sh.lake
            && after.staging == DropRows(sh.staging, a.window, a.man.coverage)
  {
    RecordedShape(s);
  }

  /** A row sealed for an unregistered window is in no registered window's object. */
  lemma NotArchived(s: Node, r: Row)
    requires Inv(s) && Separate(s) && s.phase.ReadingBack? && r in s.phase.a.rows
    requires !Registered(s, s.phase.a.partition, s.phase.a.window)
    ensures var p := s.phase.a.partition;
            forall x: nat | Registered(s, p, x) :: Primary(p, x) in s.objects ==> r !in s.objects[Primary(p, x)]
  {
    var a := s.phase.a;
    var p, w, sh := a.partition, a.window, Of(s, a.partition);
    assert ShardInv(p, sh, s.objects) && SeparateShard(p, sh, s.objects);
    assert r in sh.staging[w];
    forall x: nat | Registered(s, p, x) ensures Primary(p, x) in s.objects ==> r !in s.objects[Primary(p, x)] {
      RegisteredIff(s, p, x);
      RegisteredIff(s, p, w);
      if Primary(p, x) in s.objects {
        assert Apart(s.objects[Primary(p, x)], sh, x);
      }
    }
  }

  lemma DroppedIsGone(staging: map<nat, set<Row>>, w: nat, covered: set<RowId>, r: Row)
    requires w in staging && r in staging[w] && r.id in covered
    requires forall x | x in staging && x != w :: staging[w] !! staging[x]
    ensures forall x | x in DropRows(staging, w, covered) :: r !in DropRows(staging, w, covered)[x]
  {
    var after := DropRows(staging, w, covered);
    forall x | x in after ensures r !in after[x] {
      if x != w {
        assert after[x] == staging[x];
      }
    }
  }

  /**
   Wherever a run with right verdicts so far reads back "landed": recording keeps the lead, and
   dropping keeps every row, exactly when that verdict is right too.
   */
  lemma WrongLandedHarms(run: seq<Event>)
    requires Legal(INIT, run) && TrueVerdicts(INIT, run)
    requires Exec(INIT, run).phase.ReadingBack? && VerdictAt(Exec(INIT, run)) == Landed
    ensures var s := Exec(INIT, run);
            var right := Registered(s, s.phase.a.partition, s.phase.a.window);
            && (AheadByAtMostOne(Recorded(s)) <==> right)
            && Recorded(s).phase.Dropping?
            && (s.phase.a.rows != {} ==> (NoLoss(DropStep(Recorded(s), true, true)) <==> right))
  {
    assert forall p :: Of(INIT, p) == EMPTY;
    SeparateOverRuns(INIT, run);
    var s := Exec(INIT, run);
    LeadKeptExactlyWhenRight(s);
    RecordedShape(s);
    if s.phase.a.rows != {} {
      RowsKeptExactlyWhenRight(s);
    }
  }
}
