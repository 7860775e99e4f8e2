/**
 The lake's record over every legal run, with no assumption about verdicts: each window has at
 most one manifest; windows stay in order exactly until a commit registers past a ledger that
 is ahead of the lake; and a reboot resumes exactly at the first unregistered window.
 */
module DrainRecord {
  import opened Options
  import opened Naming
  import opened Ledger
  import opened Drain
  import opened DrainSafety
  import opened DrainReadBack
  import opened DrainHonesty

  // ---------------------------------------------------------- one part per window

  predicate OnePerWindow(lake: seq<Manifest>) {
    forall i, j | 0 <= i < j < |lake| :: lake[i].window != lake[j].window
  }

  lemma OnePerWindowKept(s: Node, e: Event, p: Id)
    requires OwnParts(s) && Enabled(s, e) && OnePerWindow(Of(s, p).lake)
    ensures OnePerWindow(Of(Step(s, e), p).lake)
  {
    RowStep(s, e, p);
    if Registers(s, e, p) {
      NewWindow(p, Of(s, p).lake, s.phase.a.man);
    }
  }

  lemma {:induction false} RecordOverRun(s: Node, run: seq<Event>, p: Id)
    requires OwnParts(s) && OnePerWindow(Of(s, p).lake) && Legal(s, run)
    ensures OwnParts(Exec(s, run)) && OnePerWindow(Of(Exec(s, run), p).lake)
    decreases |run|
  {
    if run != [] {
      OwnPartsKept(s, run[0]);
      OnePerWindowKept(s, run[0], p);
      RecordOverRun(Step(s, run[0]), run[1..], p);
    }
  }

  /** The fence, for every legal run: no window ever has a second registered part. */
  lemma OnePartPerWindow(run: seq<Event>, p: Id)
    requires Legal(INIT, run)
    ensures OwnParts(Exec(INIT, run)) && OnePerWindow(Of(Exec(INIT, run), p).lake)
  {
    assert forall q :: Of(INIT, q) == EMPTY;
    RecordOverRun(INIT, run, p);
  }

  // ------------------------------------------------------------- windows in order

  /** The registered windows are 0, 1, 2, ... */
  predicate InOrder(lake: seq<Manifest>) {
    forall i | 0 <= i < |lake| :: lake[i].window == i
  }

  /** The step registers a window while the ledger is ahead of the lake. */
  predicate Skips(s: Node, e: Event, p: Id)
    requires Enabled(s, e)
  {
    Registers(s, e, p) && |Of(s, p).ledger| > |Of(s, p).lake|
  }

  /** From an ordered record, a step leaves a gap exactly when it registers past a ledger that is ahead. */
  lemma StepSkipsExactlyWhen(s: Node, e: Event, p: Id)
    requires OwnParts(s) && InOrder(Of(s, p).lake) && Enabled(s, e)
    ensures !InOrder(Of(Step(s, e), p).lake) <==> Skips(s, e, p)
  {
    RowStep(s, e, p);
    if Registers(s, e, p) {
      var lake, man := Of(s, p).lake, s.phase.a.man;
      NewWindow(p, lake, man);
      assert man.window == |Of(s, p).ledger|;
      OrderAfter(lake, man);
    }
  }

  lemma OrderAfter(lake: seq<Manifest>, man: Manifest)
    requires InOrder(lake) && forall i | 0 <= i < |lake| :: lake[i].window != man.window
    ensures man.window >= |lake| && (InOrder(lake + [man]) <==> man.window == |lake|)
  {
    var all := lake + [man];
    assert all[|lake|] == man && forall i | 0 <= i < |lake| :: all[i] == lake[i];
    if man.window < |lake| {
      WindowAt(lake, man.window);
    }
  }

  lemma WindowAt(lake: seq<Manifest>, w: nat)
    requires InOrder(lake) && w < |lake|
    ensures lake[w].window == w
  {
  }

  ghost predicate StaysInOrder(s: Node, run: seq<Event>, p: Id)
    requires Legal(s, run)
    decreases |run|
  {
    InOrder(Of(s, p).lake) && (run == [] || StaysInOrder(Step(s, run[0]), run[1..], p))
  }

  ghost predicate NoneSkips(s: Node, run: seq<Event>, p: Id)
    requires Legal(s, run)
    decreases |run|
  {
    run == [] || (!Skips(s, run[0], p) && NoneSkips(Step(s, run[0]), run[1..], p))
  }

  lemma {:induction false} OrderOverRun(s: Node, run: seq<Event>, p: Id)
    requires OwnParts(s) && InOrder(Of(s, p).lake) && Legal(s, run)
    ensures StaysInOrder(s, run, p) <==> NoneSkips(s, run, p)
    decreases |run|
  {
    if run != [] {
      StepSkipsExactlyWhen(s, run[0], p);
      OwnPartsKept(s, run[0]);
      if InOrder(Of(Step(s, run[0]), p).lake) {
        OrderOverRun(Step(s, run[0]), run[1..], p);
      }
    }
  }

  /** For every legal run: the record is dense throughout exactly when no commit skips. */
  lemma StaysInOrderExactlyWhen(run: seq<Event>, p: Id)
    requires Legal(INIT, run)
    ensures StaysInOrder(INIT, run, p) <==> NoneSkips(INIT, run, p)
  {
    assert forall q :: Of(INIT, q) == EMPTY;
    OrderOverRun(INIT, run, p);
  }

  /** In order, the registered windows are exactly those below the record's length. */
  lemma OrderedRegistered(s: Node, p: Id, w: nat)
    requires OwnParts(s) && InOrder(Of(s, p).lake)
    ensures Registered(s, p, w) <==> w < |Of(s, p).lake|
  {
    var lake := Of(s, p).lake;
    assert PartsOf(p, lake);
    if w < |lake| {
      assert lake[w] in lake;
    }
  }

  lemma {:induction false} InOrderAtEnd(s: Node, run: seq<Event>, p: Id)
    requires Legal(s, run) && StaysInOrder(s, run, p)
    ensures InOrder(Of(Exec(s, run), p).lake)
    decreases |run|
  {
    if run != [] {
      InOrderAtEnd(Step(s, run[0]), run[1..], p);
    }
  }

  lemma {:induction false} RightVerdictsNeverSkip(s: Node, run: seq<Event>, p: Id)
    requires Inv(s) && Legal(s, run) && TrueVerdicts(s, run)
    ensures NoneSkips(s, run, p)
    decreases |run|
  {
    if run != [] {
      assert ShardInv(p, Of(s, p), s.objects);
      StepKeeps(s, run[0]);
      RightVerdictsNeverSkip(Step(s, run[0]), run[1..], p);
    }
  }

  // ----------------------------------------------------------------------- reboot

  lemma RegisteredMeansWindow(s: Node, p: Id, w: nat)
    requires OwnParts(s)
    ensures Registered(s, p, w) <==> WithWindow(Of(s, p).lake, w) != []
  {
    var lake := Of(s, p).lake;
    WithWindowIff(lake, w);
    if WithWindow(lake, w) != [] {
      var m := WithWindow(lake, w)[0];
      assert m in WithWindow(lake, w);
      var i :| 0 <= i < |lake| && lake[i] == m;
      assert lake[i].part == Primary(p, lake[i].window);
    }
    if Registered(s, p, w) {
      var m :| m in lake && m.window == w && m.part == Primary(p, w);
      assert m in WithWindow(lake, w);
    }
  }

  // A row arrives in one window's table and nowhere else, so no two windows ever cover the same row.

  /** Rows with these ids are known, and in no other window's table. */
  ghost predicate Homed(cov: set<RowId>, w: nat, sh: Shard) {
    cov <= Ids(sh.ever) && forall x <- sh.staging | x != w :: cov !! Ids(sh.staging[x])
  }

  /** A coverage of window w shares no row with another registered window. */
  ghost predicate Clear(cov: set<RowId>, w: nat, lake: seq<Manifest>) {
    forall m <- lake :: m.window != w ==> cov !! m.coverage
  }

  predicate NonZero(cov: set<RowId>) {
    forall id <- cov :: id.num != 0
  }

  ghost predicate Homes(sh: Shard) {
    && (forall w <- sh.staging :: Homed(Ids(sh.staging[w]), w, sh))
    && (forall m <- sh.lake :: Homed(m.coverage, m.window, sh) && Clear(m.coverage, m.window, sh.lake))
    && (forall m <- sh.lake :: NonZero(m.coverage))
  }

  /** The attempt's manifest is homed in its window, and clear of the others. */
  ghost predicate AttemptHomed(s: Node) {
    s.phase.Sealed? || s.phase.Putting? || s.phase.Committing? ==>
      var man, sh := s.phase.a.man, Of(s, s.phase.a.partition);
      Homed(man.coverage, man.window, sh) && Clear(man.coverage, man.window, sh.lake)
  }

  ghost predicate AllHomed(s: Node) {
    OwnParts(s) && AttemptHomed(s) && forall p :: Homes(Of(s, p)) && OnePerWindow(Of(s, p).lake)
  }

  lemma ArriveHomes(sh: Shard, w: nat, row: Row)
    requires Homes(sh) && row.id !in Ids(sh.ever)
    ensures Homes(Received(sh, w, row))
    ensures forall cov, x :: Homed(cov, x, sh) ==> Homed(cov, x, Received(sh, w, row))
  {
    var after := Received(sh, w, row);
    var table := if w in sh.staging then sh.staging[w] else {};
    IdsPlus(table, row);
    IdsPlus(sh.ever, row);
    forall cov, x | Homed(cov, x, sh) ensures Homed(cov, x, after) {
      assert row.id !in cov;
    }
    forall x <- after.staging ensures Homed(Ids(after.staging[x]), x, after) {
      if x != w {
        assert Homed(Ids(sh.staging[x]), x, sh);
      } else {
        forall y <- after.staging | y != w ensures Ids(after.staging[w]) !! Ids(after.staging[y]) {
          assert Homed(Ids(sh.staging[y]), y, sh);
        }
        assert w in sh.staging ==> Homed(Ids(sh.staging[w]), w, sh);
      }
    }
  }

  function Received(sh: Shard, w: nat, row: Row): Shard {
    var table := if w in sh.staging then sh.staging[w] else {};
    sh.(staging := sh.staging[w := table + {row}], ever := sh.ever + {row})
  }

  lemma IdsPlus(rows: set<Row>, row: Row)
    ensures Ids(rows + {row}) == Ids(rows) + {row.id}
  {
    assert row in rows + {row};
  }

  lemma RegisterHomes(sh: Shard, man: Manifest, mark: Option<int>)
    requires Homes(sh) && Homed(man.coverage, man.window, sh) && Clear(man.coverage, man.window, sh.lake)
    requires NonZero(man.coverage)
    ensures Homes(sh.(lake := sh.lake + [man], lakeMark := mark))
  {
    var all := sh.lake + [man];
    forall m <- all ensures Clear(m.coverage, m.window, all) {
      if m in sh.lake {
        assert Clear(m.coverage, m.window, sh.lake);
      }
    }
    var after := sh.(lake := all, lakeMark := mark);
    forall m <- all ensures Homed(m.coverage, m.window, after) {
      assert Homed(m.coverage, m.window, sh);
    }
    forall w <- sh.staging ensures Homed(Ids(sh.staging[w]), w, after) {
      assert Homed(Ids(sh.staging[w]), w, sh);
    }
  }

  lemma DropHomes(sh: Shard, w: nat, covered: set<RowId>)
    requires Homes(sh)
    ensures Homes(sh.(staging := DropRows(sh.staging, w, covered)))
  {
    var after := sh.(staging := DropRows(sh.staging, w, covered));
    assert forall x <- after.staging :: x in sh.staging && after.staging[x] <= sh.staging[x];
    forall cov, x | Homed(cov, x, sh) ensures Homed(cov, x, after) {
      forall y <- after.staging | y != x ensures cov !! Ids(after.staging[y]) {
        assert Ids(after.staging[y]) <= Ids(sh.staging[y]);
      }
    }
    forall x <- after.staging ensures Homed(Ids(after.staging[x]), x, after) {
      assert Ids(after.staging[x]) <= Ids(sh.staging[x]) && Homed(Ids(sh.staging[x]), x, sh);
      assert Homed(Ids(after.staging[x]), x, sh);
    }
  }

  /** The parts of a shard that homes speak of. */
  predicate SameHomes(a: Shard, b: Shard) {
    a.staging == b.staging && a.ever == b.ever && a.lake == b.lake
  }

  lemma SameHomesKeep(a: Shard, b: Shard)
    requires SameHomes(a, b)
    ensures Homes(a) ==> Homes(b)
    ensures forall cov, w :: Homed(cov, w, a) ==> Homed(cov, w, b)
  {
    if Homes(a) {
      forall w <- b.staging ensures Homed(Ids(b.staging[w]), w, b) {
        assert Homed(Ids(a.staging[w]), w, a);
      }
      forall m <- b.lake ensures Homed(m.coverage, m.window, b) {
        assert Homed(m.coverage, m.window, a);
      }
    }
  }

  lemma StillHomes(s: Node, e: Event, p: Id)
    requires Enabled(s, e) && !e.Arrive? && !e.Commit? && !e.Drop?
    ensures SameHomes(Of(s, p), Of(Step(s, e), p))
  {
    match e {
      case Record => StillRecord(s, p);
      case Crash => StillCrash(s, p);
      case _ => StillShards(s, e, p);
    }
  }

  lemma StillRecord(s: Node, p: Id)
    requires s.phase.Recording?
    ensures SameHomes(Of(s, p), Of(RecordStep(s), p))
  {
  }

  lemma StillCrash(s: Node, p: Id)
    ensures SameHomes(Of(s, p), Of(CrashStep(s), p))
  {
  }

  lemma StillShards(s: Node, e: Event, p: Id)
    requires Enabled(s, e) && (e.Begin? || e.Seal? || e.Advance? || e.Put? || e.ReadBack?)
    ensures Step(s, e).shards == s.shards && Of(Step(s, e), p) == Of(s, p)
  {
  }

  lemma HomesKept(s: Node, e: Event, p: Id)
    requires AllHomed(s) && Enabled(s, e)
    ensures Homes(Of(Step(s, e), p))
  {
    assert Homes(Of(s, p));
    match e {
      case Arrive(q, w, row) =>
        if p == q {
          ArriveHomes(Of(s, p), w, row);
        }
      case Commit(reply) => CommitHomes(s, reply, p);
      case Drop(ok, landed) =>
        if p == s.phase.partition && landed {
          DropHomes(Of(s, p), s.phase.window, s.phase.covered);
        }
      case _ =>
        StillHomes(s, e, p);
        SameHomesKeep(Of(s, p), Of(Step(s, e), p));
    }
  }

  lemma CommitHomes(s: Node, reply: Reply, p: Id)
    requires AllHomed(s) && Enabled(s, Commit(reply))
    ensures Homes(Of(CommitStep(s, reply), p))
  {
    var a, sh := s.phase.a, Of(s, p);
    assert Homes(sh);
    CommitOf(s, reply, p);
    if p == a.partition {
      assert NonZero(a.man.coverage) by {
        assert Admit(sh.ledger, a.man).None?;
      }
      RegisterHomes(sh, a.man, if s.phase.preview.Some? then s.phase.preview else sh.lakeMark);
    }
  }

  lemma AttemptHomedKept(s: Node, e: Event)
    requires AllHomed(s) && Enabled(s, e)
    ensures AttemptHomed(Step(s, e))
  {
    match e {
      case Arrive(q, w, row) => ArriveAttempt(s, q, w, row);
      case Seal(ok) => SealAttempt(s, ok);
      case Advance => StillAttempt(s, e);
      case Put(_, _) => StillAttempt(s, e);
      case _ => LaterPhases(s, e);
    }
  }

  lemma ArriveAttempt(s: Node, q: Id, w: nat, row: Row)
    requires AllHomed(s) && Enabled(s, Arrive(q, w, row))
    ensures AttemptHomed(ArriveStep(s, q, w, row))
  {
    if s.phase.Sealed? || s.phase.Putting? || s.phase.Committing? {
      var p := s.phase.a.partition;
      assert Homes(Of(s, q));
      if p == q {
        ArriveHomes(Of(s, p), w, row);
      }
      assert Of(ArriveStep(s, q, w, row), p) == if p == q then Received(Of(s, p), w, row) else Of(s, p);
    }
  }

  lemma SealAttempt(s: Node, ok: bool)
    requires AllHomed(s) && Enabled(s, Seal(ok))
    ensures AttemptHomed(SealStep(s, ok))
  {
    if ok {
      var p, w := s.phase.partition, s.phase.window;
      var sh := Of(s, p);
      assert Homes(sh) && Homed(Ids(sh.staging[w]), w, sh);
      assert Of(SealStep(s, ok), p) == sh;
      forall m <- sh.lake | m.window != w ensures Ids(sh.staging[w]) !! m.coverage {
        assert Homed(m.coverage, m.window, sh);
      }
    }
  }

  lemma StillAttempt(s: Node, e: Event)
    requires AttemptHomed(s) && Enabled(s, e) && (e.Advance? || e.Put?)
    ensures AttemptHomed(Step(s, e))
  {
    StillShards(s, e, s.phase.a.partition);
  }

  lemma {:induction false} HomedOverRun(s: Node, run: seq<Event>)
    requires AllHomed(s) && !s.phase.Down? && Legal(s, run)
    ensures AllHomed(Exec(s, run)) && !Exec(s, run).phase.Down?
    decreases |run|
  {
    if run != [] {
      OwnPartsKept(s, run[0]);
      AttemptHomedKept(s, run[0]);
      forall p ensures Homes(Of(Step(s, run[0]), p)) && OnePerWindow(Of(Step(s, run[0]), p).lake) {
        HomesKept(s, run[0], p);
        assert OnePerWindow(Of(s, p).lake);
        OnePerWindowKept(s, run[0], p);
      }
      StaysUp(s, run[0]);
      HomedOverRun(Step(s, run[0]), run[1..]);
    }
  }

  lemma StaysUp(s: Node, e: Event)
    requires AllHomed(s) && !s.phase.Down? && Enabled(s, e)
    ensures !Step(s, e).phase.Down?
  {
    if e.Crash? {
      RebootComesUp(s);
    } else {
      OnlyCrashDowns(s, e);
    }
  }

  lemma OnlyCrashDowns(s: Node, e: Event)
    requires !s.phase.Down? && Enabled(s, e) && !e.Crash?
    ensures !Step(s, e).phase.Down?
  {
  }

  lemma RebootComesUp(s: Node)
    requires AllHomed(s)
    ensures !CrashStep(s).phase.Down?
  {
    forall p <- s.shards ensures Reconstruct(s.shards[p].lake).Ok? {
      assert Of(s, p) == s.shards[p];
      assert Homes(Of(s, p)) && OnePerWindow(Of(s, p).lake);
      HomesClashless(Of(s, p));
      ReconstructOk(s.shards[p].lake);
    }
  }

  lemma HomesClashless(sh: Shard)
    requires Homes(sh) && OnePerWindow(sh.lake)
    ensures Clashless(sh.lake)
  {
    forall w ensures |WithWindow(sh.lake, w)| <= 1 {
      OneWithWindow(sh.lake, w);
    }
    forall a <- sh.lake, b <- sh.lake | a.window != b.window ensures a.coverage !! b.coverage {
      assert Clear(a.coverage, a.window, sh.lake);
    }
  }

  lemma {:induction false} OneWithWindow(lake: seq<Manifest>, w: nat)
    requires OnePerWindow(lake)
    ensures |WithWindow(lake, w)| <= 1
  {
    if lake != [] {
      OneWithWindow(lake[1..], w);
      if lake[0].window == w {
        NoneWithWindow(lake[1..], w);
      }
    }
  }

  lemma {:induction false} NoneWithWindow(lake: seq<Manifest>, w: nat)
    requires forall i | 0 <= i < |lake| :: lake[i].window != w
    ensures WithWindow(lake, w) == []
  {
    if lake != [] {
      NoneWithWindow(lake[1..], w);
    }
  }

  /** No legal run leaves the node down: whatever the lake holds, a reboot can rebuild its ledgers. */
  lemma NeverDown(run: seq<Event>)
    requires Legal(INIT, run)
    ensures AllHomed(Exec(INIT, run)) && !Exec(INIT, run).phase.Down?
    ensures !CrashStep(Exec(INIT, run)).phase.Down?
  {
    assert forall q :: Of(INIT, q) == EMPTY;
    HomedOverRun(INIT, run);
    RebootComesUp(Exec(INIT, run));
  }

  /** After any legal run, a reboot resumes exactly at the first unregistered window. */
  lemma RebootResumesAtPrefix(run: seq<Event>, p: Id)
    requires Legal(INIT, run)
    ensures var s := Exec(INIT, run);
            var n := |Of(CrashStep(s), p).ledger|;
            && !CrashStep(s).phase.Down?
            && (forall w | 0 <= w < n :: Registered(s, p, w)) && !Registered(s, p, n)
  {
    var s := Exec(INIT, run);
    NeverDown(run);
    OnePartPerWindow(run, p);
    var lake, ledger := Of(s, p).lake, Of(CrashStep(s), p).ledger;
    RebuiltLedger(s, p);
    ReconstructIsPrefix(lake);
    forall w | 0 <= w < |ledger| ensures Registered(s, p, w) {
      RegisteredMeansWindow(s, p, w);
    }
    RegisteredMeansWindow(s, p, |ledger|);
  }

  lemma RebuiltLedger(s: Node, p: Id)
    requires !CrashStep(s).phase.Down?
    ensures Reconstruct(Of(s, p).lake) == Ok(Of(CrashStep(s), p).ledger)
  {
    if p !in s.shards {
      assert Of(s, p) == EMPTY && Of(CrashStep(s), p) == EMPTY;
      assert WithWindow([], 0) == [];
    }
  }
}
