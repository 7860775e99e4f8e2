/**
 The one read-back. When the lake's watermark row and the ledger are in step,
 reconcile's verdict is exact; when a retry has re-sealed other rows than the
 lake registered, it can be wrong, and this module says exactly when.
 */
module DrainReadBack {
  import opened Options
  import opened Naming
  import opened Ledger
  import opened Drain
  import opened DrainSafety
  import opened Seals

  // ------------------------------------------------- when the read-back lies

  /**
   The lake's row stands strictly above the ledger's watermark and at or above
   every event time the ledger has recorded. A caller can check this before an
   attempt: it compares `read_watermarks` with the ledger.
   */
  predicate CanLie(ledger: seq<Manifest>, mark: Option<int>) {
    && mark.Some?
    && (Watermark(ledger).None? || mark.value > Watermark(ledger).value)
    && forall m <- ledger :: m.eventMax <= mark.value
  }

  /**
   For a window the lake has NOT registered: some seal of it, that is some set of
   rows the ledger admits, would be judged "landed" exactly when `CanLie` holds.
   */
  lemma LiesExactlyWhen(ledger: seq<Manifest>, mark: Option<int>, p: Id)
    ensures (exists rows ::
               Sealable(ledger, p, rows) && Judge(Watermark(ledger), Preview(ledger, p, rows), mark) == Landed)
            <==> CanLie(ledger, mark)
  {
    forall rows | Sealable(ledger, p, rows) && Judge(Watermark(ledger), Preview(ledger, p, rows), mark) == Landed
      ensures CanLie(ledger, mark)
    {
      LieImpliesCanLie(ledger, mark, ManifestOf(p, |ledger|, rows));
    }
    if CanLie(ledger, mark) {
      var rows := FillingSeal(ledger, p, mark.value);
      if ledger != [] {
        MaxEventBounds(ledger);
      }
    }
  }

  lemma LieImpliesCanLie(ledger: seq<Manifest>, mark: Option<int>, m: Manifest)
    requires Judge(Watermark(ledger), Watermark(ledger + [m]), mark) == Landed
    ensures CanLie(ledger, mark)
  {
    WatermarkAfter(ledger, m);
    Snoc(ledger, m);
    MaxEventBounds(ledger + [m]);
    assert forall q <- ledger :: q in ledger + [m];
  }

  /** A read-back of an unregistered window, taken while `CanLie` does not hold, never says "landed". */
  predicate Guarded(s: Node, e: Event)
    requires Enabled(s, e)
  {
    e == ReadBack(true) ==>
      var a := s.phase.a;
      var sh := Of(s, a.partition);
      Registered(s, a.partition, a.window) || !CanLie(sh.ledger, sh.lakeMark)
  }

  lemma GuardedVerdictIsTrue(s: Node, e: Event)
    requires Inv(s) && Enabled(s, e) && Guarded(s, e)
    ensures TrueVerdict(s, e)
  {
    if e == ReadBack(true) {
      var a := s.phase.a;
      var sh := Of(s, a.partition);
      if Judge(a.prior, s.phase.preview, sh.lakeMark) == Landed {
        LieImpliesCanLie(sh.ledger, sh.lakeMark, a.man);
      }
    }
  }

  predicate GuardedRun(s: Node, run: seq<Event>)
    requires Legal(s, run)
    decreases |run|
  {
    run == [] || (Guarded(s, run[0]) && GuardedRun(Step(s, run[0]), run[1..]))
  }

  lemma {:induction false} GuardedRunIsTrue(s: Node, run: seq<Event>)
    requires Inv(s) && Legal(s, run) && GuardedRun(s, run)
    ensures TrueVerdicts(s, run)
    decreases |run|
  {
    if run != [] {
      GuardedVerdictIsTrue(s, run[0]);
      StepKeeps(s, run[0]);
      GuardedRunIsTrue(Step(s, run[0]), run[1..]);
    }
  }

  /** No loss for every run whose read-backs are guarded by the comparison above. */
  lemma NoLossWhenGuarded(run: seq<Event>)
    requires Legal(INIT, run) && GuardedRun(INIT, run)
    ensures var s := Exec(INIT, run);
            NoLoss(s) && SingleDense(s) && AheadByAtMostOne(s) && !s.phase.Down?
  {
    assert forall p :: Of(INIT, p) == EMPTY;
    GuardedRunIsTrue(INIT, run);
    NoLossOverRuns(run);
  }

  // --------------------------------------------- checked before each attempt

  /** Something a caller can compute before an attempt: from the ledger, the lake's manifests and its row. */
  type Check = (seq<Manifest>, seq<Manifest>, Option<int>) -> bool

  predicate Passes(c: Check, sh: Shard) {
    c(sh.ledger, sh.lake, sh.lakeMark)
  }

  /** Every attempt of the run begins where the check passes. */
  predicate CheckedRun(c: Check, s: Node, run: seq<Event>)
    requires Legal(s, run)
    decreases |run|
  {
    run == [] ||
    ((run[0].Begin? ==> Passes(c, Of(s, run[0].partition))) && CheckedRun(c, Step(s, run[0]), run[1..]))
  }

  /** What was checked before the attempt still stands when it commits. */
  predicate Held(c: Check, s: Node) {
    match s.phase
    case Sealing(p, _, _) => Passes(c, Of(s, p))
    case Sealed(a) => Passes(c, Of(s, a.partition))
    case Putting(a, _) => Passes(c, Of(s, a.partition))
    case Committing(a, _) => Passes(c, Of(s, a.partition))
    case _ => true
  }

  lemma HeldKept(c: Check, s: Node, e: Event)
    requires Held(c, s) && Enabled(s, e) && (e.Begin? ==> Passes(c, Of(s, e.partition)))
    ensures Held(c, Step(s, e))
  {
    if !e.Commit? && !e.Record? && !e.Crash? {
      forall q ensures SameRecords(Of(s, q), Of(Step(s, e), q)) {
        QuietStep(s, e, q);
      }
      HeldQuietly(c, s, e);
    }
  }

  lemma HeldQuietly(c: Check, s: Node, e: Event)
    requires Held(c, s) && Enabled(s, e) && (e.Begin? ==> Passes(c, Of(s, e.partition)))
    requires !e.Commit? && !e.Record? && !e.Crash?
    requires forall q :: SameRecords(Of(s, q), Of(Step(s, e), q))
    ensures Held(c, Step(s, e))
  {
    var s' := Step(s, e);
    if s'.phase.Sealing? {
      assert SameRecords(Of(s, s'.phase.partition), Of(s', s'.phase.partition));
    } else if s'.phase.Sealed? || s'.phase.Putting? || s'.phase.Committing? {
      assert SameRecords(Of(s, s'.phase.a.partition), Of(s', s'.phase.a.partition));
    }
  }

  /** The lake's manifests name this window. */
  predicate Holds(lake: seq<Manifest>, w: nat) {
    exists m <- lake :: m.window == w
  }

  /**
   The check against a lying read-back. A window the lake already holds may always be retried;
   for any other, ledger and row are compared.
   */
  function NoLie(): Check {
    (ledger, lake, mark) => Holds(lake, |ledger|) || !CanLie(ledger, mark)
  }

  /** At the read-back: this attempt's commit landed, or the row is still the one that was checked. */
  predicate HeldAtReadBack(s: Node) {
    s.phase.ReadingBack? ==>
      var sh := Of(s, s.phase.a.partition);
      Registered(s, s.phase.a.partition, s.phase.a.window) || !CanLie(sh.ledger, sh.lakeMark)
  }

  lemma HeldToReadBack(s: Node, e: Event)
    requires Inv(s) && Enabled(s, e) && Held(NoLie(), s) && HeldAtReadBack(s)
    ensures HeldAtReadBack(Step(s, e))
  {
    match e {
      case Commit(reply) => CommitHolds(s, reply);
      case Arrive(p, w, row) => ArriveHolds(s, p, w, row);
      case _ => OnlyCommitsReadBack(s, e);
    }
  }

  lemma OnlyCommitsReadBack(s: Node, e: Event)
    requires Enabled(s, e) && !e.Commit? && !e.Arrive?
    ensures !Step(s, e).phase.ReadingBack?
  {
  }

  lemma ArriveHolds(s: Node, p: Id, w: nat, row: Row)
    requires Enabled(s, Arrive(p, w, row)) && HeldAtReadBack(s)
    ensures HeldAtReadBack(ArriveStep(s, p, w, row))
  {
    if s.phase.ReadingBack? {
      QuietStep(s, Arrive(p, w, row), s.phase.a.partition);
    }
  }

  lemma CommitHolds(s: Node, reply: Reply)
    requires Inv(s) && Enabled(s, Commit(reply)) && Held(NoLie(), s)
    ensures HeldAtReadBack(CommitStep(s, reply))
  {
    var a := s.phase.a;
    CommitOf(s, reply, a.partition);
    assert a.man.window == a.window && a.man.part == Primary(a.partition, a.window);
    RegisterRegisters(Of(s, a.partition), a.man, s.phase.preview);
    HeldIsRegistered(s, a.partition);
  }

  /** Under the invariant, a dense-next window the manifests name is registered. */
  lemma HeldIsRegistered(s: Node, p: Id)
    requires Inv(s)
    ensures Holds(Of(s, p).lake, |Of(s, p).ledger|) <==> Registered(s, p, |Of(s, p).ledger|)
  {
    RegisteredIff(s, p, |Of(s, p).ledger|);
    var lake := Of(s, p).lake;
    assert ShardInv(p, Of(s, p), s.objects);
    if |lake| > |Of(s, p).ledger| {
      assert lake[|Of(s, p).ledger|] in lake;
    }
  }

  lemma RegisterRegisters(sh: Shard, man: Manifest, mark: Option<int>)
    ensures IsRegistered(Register(sh, man, mark).lake, man.window, man.part)
  {
    assert man in sh.lake + [man];
  }

  lemma {:induction false} CheckedRunIsGuarded(s: Node, run: seq<Event>)
    requires Inv(s) && Held(NoLie(), s) && HeldAtReadBack(s) && Legal(s, run) && CheckedRun(NoLie(), s, run)
    ensures GuardedRun(s, run)
    decreases |run|
  {
    if run != [] {
      GuardedVerdictIsTrue(s, run[0]);
      StepKeeps(s, run[0]);
      HeldKept(NoLie(), s, run[0]);
      HeldToReadBack(s, run[0]);
      CheckedRunIsGuarded(Step(s, run[0]), run[1..]);
    }
  }

  /** So comparing ledger and row before each attempt at a new window is enough: no loss for every run that does. */
  lemma NoLossWhenChecked(run: seq<Event>)
    requires Legal(INIT, run) && CheckedRun(NoLie(), INIT, run)
    ensures GuardedRun(INIT, run)
    ensures var s := Exec(INIT, run);
            NoLoss(s) && SingleDense(s) && AheadByAtMostOne(s) && !s.phase.Down?
  {
    assert forall p :: Of(INIT, p) == EMPTY;
    CheckedRunIsGuarded(INIT, run);
    NoLossWhenGuarded(run);
  }

  // ------------------------------------------------------ identical retries

  /** A re-seal of a window the lake already holds reproduces the registered manifest. */
  predicate Identical(s: Node, e: Event)
    requires Enabled(s, e)
  {
    e == Seal(true) ==>
      var p, w := s.phase.partition, s.phase.window;
      forall m <- Of(s, p).lake :: m.window == w ==> m == ManifestOf(p, w, Of(s, p).staging[w])
  }

  ghost predicate ShardInStep(sh: Shard) {
    sh.ledger <= sh.lake && sh.lakeMark == Watermark(sh.lake)
  }

  /** If the lake is ahead, it is ahead by this attempt's own manifest. */
  ghost predicate AttemptInStep(sh: Shard, man: Manifest) {
    |sh.lake| > |sh.ledger| ==> sh.lake[|sh.ledger|] == man
  }

  ghost predicate PhaseInStep(s: Node) {
    s.phase.Sealed? || s.phase.Putting? || s.phase.Committing? || s.phase.ReadingBack? || s.phase.Recording? ==>
      AttemptInStep(Of(s, s.phase.a.partition), s.phase.a.man)
  }

  /** The ledger is a prefix of the lake's record, and the lake's row is its watermark. */
  ghost predicate InStep(s: Node) {
    PhaseInStep(s) && forall p :: ShardInStep(Of(s, p))
  }

  /** While in step, the verdict is exact: "landed" and "lost" both tell the truth. */
  lemma VerdictExact(s: Node)
    requires Inv(s) && InStep(s) && s.phase.ReadingBack?
    ensures var a := s.phase.a;
            var v := Judge(a.prior, s.phase.preview, Of(s, a.partition).lakeMark);
            && (v == Landed ==> Registered(s, a.partition, a.window))
            && (v == Lost ==> !Registered(s, a.partition, a.window))
            && (v == NoEvidence <==> s.phase.preview == a.prior)
  {
    var a := s.phase.a;
    RegisteredIff(s, a.partition, a.window);
    ReadingBackFacts(s);
    VerdictOnShard(Of(s, a.partition), a.man);
  }

  /** What the invariants say of the one partition an attempt is reading back. */
  lemma ReadingBackFacts(s: Node)
    requires Inv(s) && InStep(s) && s.phase.ReadingBack?
    ensures var a, sh := s.phase.a, Of(s, s.phase.a.partition);
            && a.window == |sh.ledger| && a.prior == Watermark(sh.ledger)
            && s.phase.preview == Watermark(sh.ledger + [a.man])
            && |sh.ledger| <= |sh.lake| <= |sh.ledger| + 1
            && ShardInStep(sh) && AttemptInStep(sh, a.man)
  {
    assert ShardInv(s.phase.a.partition, Of(s, s.phase.a.partition), s.objects);
  }

  lemma VerdictOnShard(sh: Shard, man: Manifest)
    requires ShardInStep(sh) && AttemptInStep(sh, man) && |sh.ledger| <= |sh.lake| <= |sh.ledger| + 1
    ensures var prior, preview := Watermark(sh.ledger), Watermark(sh.ledger + [man]);
            var v := Judge(prior, preview, sh.lakeMark);
            && (v == Landed ==> |sh.lake| > |sh.ledger|)
            && (v == Lost ==> |sh.lake| == |sh.ledger|)
            && (v == NoEvidence <==> preview == prior)
  {
    WatermarkMonotone(sh.ledger, man);
    LakeInStep(sh, man);
  }

  /** In step, the lake is the ledger, or the ledger and this attempt's manifest. */
  lemma LakeInStep(sh: Shard, man: Manifest)
    requires ShardInStep(sh) && AttemptInStep(sh, man) && |sh.ledger| <= |sh.lake| <= |sh.ledger| + 1
    ensures sh.lake == if |sh.lake| == |sh.ledger| then sh.ledger else sh.ledger + [man]
  {
  }

  lemma InStepMeansTrue(s: Node, e: Event)
    requires Inv(s) && InStep(s) && Enabled(s, e)
    ensures TrueVerdict(s, e)
  {
    if e == ReadBack(true) {
      VerdictExact(s);
    }
  }

  /** Outside commit, record and crash, no partition's records or watermark row move. */
  ghost predicate SameRecords(a: Shard, b: Shard) {
    a.lake == b.lake && a.lakeMark == b.lakeMark && a.ledger == b.ledger
  }

  lemma QuietStep(s: Node, e: Event, q: Id)
    requires Enabled(s, e) && !e.Commit? && !e.Record? && !e.Crash?
    ensures SameRecords(Of(s, q), Of(Step(s, e), q))
  {
  }

  lemma InStepKept(s: Node, e: Event)
    requires Inv(s) && InStep(s) && Enabled(s, e) && Identical(s, e)
    ensures InStep(Step(s, e))
  {
    match e {
      case Commit(reply) => CommitInStep(s, reply);
      case Record => RecordInStep(s);
      case Crash => CrashKeeps(s);
      case _ =>
        var s' := Step(s, e);
        forall q ensures SameRecords(Of(s, q), Of(s', q)) {
          QuietStep(s, e, q);
        }
        QuietPhaseInStep(s, e);
    }
  }

  lemma QuietPhaseInStep(s: Node, e: Event)
    requires Inv(s) && InStep(s) && Enabled(s, e) && Identical(s, e)
    requires !e.Commit? && !e.Record? && !e.Crash?
    requires forall q :: SameRecords(Of(s, q), Of(Step(s, e), q))
    ensures PhaseInStep(Step(s, e))
  {
    if e == Seal(true) {
      SealInStep(s);
    } else {
      CarriedInStep(s, e);
    }
  }

  lemma SealInStep(s: Node)
    requires Inv(s) && Enabled(s, Seal(true)) && Identical(s, Seal(true))
    ensures PhaseInStep(SealStep(s, true))
  {
    var s' := SealStep(s, true);
    var sh := Of(s, s.phase.partition);
    assert Of(s', s.phase.partition) == sh;
    if |sh.lake| > |sh.ledger| {
      assert sh.lake[s.phase.window] in sh.lake;
    }
  }

  lemma CarriedInStep(s: Node, e: Event)
    requires PhaseInStep(s) && Enabled(s, e)
    requires !e.Commit? && !e.Record? && !e.Crash? && e != Seal(true)
    requires forall q :: SameRecords(Of(s, q), Of(Step(s, e), q))
    ensures PhaseInStep(Step(s, e))
  {
    var s' := Step(s, e);
    if s.phase.Sealed? || s.phase.Putting? || s.phase.Committing? || s.phase.ReadingBack? || s.phase.Recording? {
      assert SameRecords(Of(s, s.phase.a.partition), Of(s', s.phase.a.partition));
    }
  }

  lemma CommitOf(s: Node, reply: Reply, q: Id)
    requires s.phase.Committing?
    ensures var p := s.phase.a.partition;
            Of(CommitStep(s, reply), q) ==
              if q == p && (reply.Accepted? || reply.LostLanded?)
              then Register(Of(s, p), s.phase.a.man, s.phase.preview) else Of(s, q)
  {
  }

  lemma RegisterInStep(sh: Shard, man: Manifest)
    requires ShardInStep(sh) && AttemptInStep(sh, man) && |sh.ledger| <= |sh.lake| <= |sh.ledger| + 1
    requires IsRegistered(sh.lake, man.window, man.part) <==> |sh.ledger| < |sh.lake|
    ensures var after := Register(sh, man, Watermark(sh.ledger + [man]));
            ShardInStep(after) && AttemptInStep(after, man)
  {
    LakeInStep(sh, man);
    WatermarkMonotone(sh.ledger, man);
  }

  lemma CommitInStep(s: Node, reply: Reply)
    requires Inv(s) && InStep(s) && Enabled(s, Commit(reply))
    ensures InStep(CommitStep(s, reply))
    ensures var p := s.phase.a.partition;
            forall q :: Of(CommitStep(s, reply), q) ==
                        if q == p && (reply.Accepted? || reply.LostLanded?)
                        then Register(Of(s, p), s.phase.a.man, s.phase.preview) else Of(s, q)
  {
    var a := s.phase.a;
    RegisteredIff(s, a.partition, a.window);
    RegisterInStep(Of(s, a.partition), a.man);
    forall q
      ensures ShardInStep(Of(CommitStep(s, reply), q))
      ensures Of(CommitStep(s, reply), q) ==
                if q == a.partition && (reply.Accepted? || reply.LostLanded?)
                then Register(Of(s, a.partition), a.man, s.phase.preview) else Of(s, q)
    {
      CommitOf(s, reply, q);
    }
    CommitOf(s, reply, a.partition);
  }

  lemma RecordEffect(s: Node, q: Id)
    requires s.phase.Recording? && Admit(Of(s, s.phase.a.partition).ledger, s.phase.a.man).None?
    ensures var p, sh := s.phase.a.partition, Of(s, s.phase.a.partition);
            Of(RecordStep(s), q) == if q == p then sh.(ledger := sh.ledger + [s.phase.a.man]) else Of(s, q)
    ensures RecordStep(s).phase.Dropping?
  {
  }

  lemma RecordInStep(s: Node)
    requires Inv(s) && InStep(s) && Enabled(s, Record)
    ensures InStep(RecordStep(s))
  {
    var a := s.phase.a;
    LakeInStep(Of(s, a.partition), a.man);
    RecordedInStep(Of(s, a.partition), a.man);
    forall q ensures ShardInStep(Of(RecordStep(s), q)) {
      RecordEffect(s, q);
    }
    RecordEffect(s, a.partition);
  }

  lemma RecordedInStep(sh: Shard, man: Manifest)
    requires ShardInStep(sh) && sh.lake == sh.ledger + [man]
    ensures ShardInStep(sh.(ledger := sh.ledger + [man]))
  {
  }

  // -------------------------------------------------------------------- runs

  predicate IdenticalRetries(s: Node, run: seq<Event>)
    requires Legal(s, run)
    decreases |run|
  {
    run == [] || (Identical(s, run[0]) && IdenticalRetries(Step(s, run[0]), run[1..]))
  }

  lemma {:induction false} InStepRun(s: Node, run: seq<Event>)
    requires Inv(s) && InStep(s) && Legal(s, run) && IdenticalRetries(s, run)
    ensures var s' := Exec(s, run);
            TrueVerdicts(s, run) && Inv(s') && InStep(s')
    decreases |run|
  {
    if run != [] {
      InStepMeansTrue(s, run[0]);
      StepKeeps(s, run[0]);
      InStepKept(s, run[0]);
      InStepRun(Step(s, run[0]), run[1..]);
    }
  }
}
