/**
 The lake's watermark row. It moves only in the step that registers a window. It can
 fall, and it can claim more than the registered windows prove, when a retry has
 sealed other rows than the lake registered; this module says exactly when.
 */
module DrainHonesty {
  import opened Options
  import opened Naming
  import opened Ledger
  import opened Drain
  import opened DrainSafety
  import opened Seals
  import opened DrainReadBack

  // ------------------------------------------------------- the row, by steps

  /** The step registers a window of this partition. */
  predicate Registers(s: Node, e: Event, p: Id)
    requires Enabled(s, e)
  {
    && e.Commit? && (e.reply.Accepted? || e.reply.LostLanded?)
    && s.phase.a.partition == p
    && !IsRegistered(Of(s, p).lake, s.phase.a.man.window, s.phase.a.man.part)
  }

  /** What any step does to a partition's lake: one more manifest and its row together, or nothing. */
  lemma RowStep(s: Node, e: Event, p: Id)
    requires Enabled(s, e)
    ensures var before, after := Of(s, p), Of(Step(s, e), p);
            if Registers(s, e, p)
            then && after.lake == before.lake + [s.phase.a.man]
                 && after.lakeMark == (if s.phase.preview.Some? then s.phase.preview else before.lakeMark)
            else after.lake == before.lake && after.lakeMark == before.lakeMark
  {
    match e {
      case Commit(reply) => CommitOf(s, reply, p);
      case Record => RecordRow(s, p);
      case Crash => CrashRow(s, p);
      case _ => QuietStep(s, e, p);
    }
  }

  lemma RecordRow(s: Node, p: Id)
    requires s.phase.Recording?
    ensures Of(RecordStep(s), p).lake == Of(s, p).lake && Of(RecordStep(s), p).lakeMark == Of(s, p).lakeMark
  {
  }

  lemma CrashRow(s: Node, p: Id)
    ensures Of(CrashStep(s), p).lake == Of(s, p).lake && Of(CrashStep(s), p).lakeMark == Of(s, p).lakeMark
  {
  }

  // --------------------------------------------------------------- it can fall

  /** The step registers a window whose commit carries an older row. */
  predicate Lowers(s: Node, e: Event, p: Id)
    requires Enabled(s, e)
  {
    Registers(s, e, p) && Below(s.phase.preview, Of(s, p).lakeMark)
  }

  predicate Below(preview: Option<int>, mark: Option<int>) {
    preview.Some? && mark.Some? && preview.value < mark.value
  }

  /** In any state: the row falls exactly in such a step, and moves only where a window is registered. */
  lemma StepLowersExactlyWhen(s: Node, e: Event, p: Id)
    requires Enabled(s, e)
    ensures var before, after := Of(s, p), Of(Step(s, e), p);
            && (!Leq(before.lakeMark, after.lakeMark) <==> Lowers(s, e, p))
            && before.lake <= after.lake
            && (after.lakeMark != before.lakeMark ==> |after.lake| == |before.lake| + 1)
  {
    RowStep(s, e, p);
  }

  ghost predicate NeverFalls(s: Node, run: seq<Event>, p: Id)
    requires Legal(s, run)
    decreases |run|
  {
    run == [] ||
    (Leq(Of(s, p).lakeMark, Of(Step(s, run[0]), p).lakeMark) && NeverFalls(Step(s, run[0]), run[1..], p))
  }

  ghost predicate NoneLowers(s: Node, run: seq<Event>, p: Id)
    requires Legal(s, run)
    decreases |run|
  {
    run == [] || (!Lowers(s, run[0], p) && NoneLowers(Step(s, run[0]), run[1..], p))
  }

  /** For every run from every state: the row never falls exactly when no commit lowers it. */
  lemma {:induction false} NeverFallsExactlyWhen(s: Node, run: seq<Event>, p: Id)
    requires Legal(s, run)
    ensures NeverFalls(s, run, p) <==> NoneLowers(s, run, p)
    decreases |run|
  {
    if run != [] {
      StepLowersExactlyWhen(s, run[0], p);
      NeverFallsExactlyWhen(Step(s, run[0]), run[1..], p);
    }
  }

  lemma LeqTransitive(a: Option<int>, b: Option<int>, c: Option<int>)
    requires Leq(a, b) && Leq(b, c)
    ensures Leq(a, c)
  {
  }

  lemma {:induction false} NeverFallsBetween(s: Node, run: seq<Event>, p: Id)
    requires Legal(s, run) && NeverFalls(s, run, p)
    ensures Leq(Of(s, p).lakeMark, Of(Exec(s, run), p).lakeMark)
    decreases |run|
  {
    if run != [] {
      var s1 := Step(s, run[0]);
      NeverFallsBetween(s1, run[1..], p);
      LeqTransitive(Of(s, p).lakeMark, Of(s1, p).lakeMark, Of(Exec(s1, run[1..]), p).lakeMark);
    }
  }

  /** The row stands above the ledger's watermark; without one, above all its event times. */
  predicate CanFall(ledger: seq<Manifest>, mark: Option<int>) {
    && mark.Some?
    && match Watermark(ledger)
       case Some(v) => v < mark.value
       case None => forall m <- ledger :: m.eventMax < mark.value
  }

  /** Some seal of the next window would lower the row exactly when `CanFall` holds. */
  lemma FallsExactlyWhen(ledger: seq<Manifest>, mark: Option<int>, p: Id)
    ensures (exists rows :: Sealable(ledger, p, rows) && Below(Preview(ledger, p, rows), mark))
            <==> CanFall(ledger, mark)
  {
    forall rows | Sealable(ledger, p, rows) && Below(Preview(ledger, p, rows), mark) ensures CanFall(ledger, mark) {
      FallImpliesCanFall(ledger, mark, ManifestOf(p, |ledger|, rows));
    }
    if CanFall(ledger, mark) {
      if Watermark(ledger).Some? {
        var rows := GappySeal(ledger, p);
        assert Sealable(ledger, p, rows) && Below(Preview(ledger, p, rows), mark);
      } else {
        var rows := FillingSeal(ledger, p, mark.value - 1);
        if ledger != [] {
          MaxEventBounds(ledger);
        }
        assert Sealable(ledger, p, rows) && Below(Preview(ledger, p, rows), mark);
      }
    }
  }

  lemma FallImpliesCanFall(ledger: seq<Manifest>, mark: Option<int>, m: Manifest)
    requires Below(Watermark(ledger + [m]), mark)
    ensures CanFall(ledger, mark)
  {
    WatermarkAfter(ledger, m);
    WatermarkMonotone(ledger, m);
    if Watermark(ledger).None? {
      MaxEventBounds(ledger + [m]);
      assert forall q <- ledger :: q in ledger + [m];
    }
  }

  // ------------------------------------------------------ checked beforehand

  /** Between preview and commit an attempt carries a seal of rows, and the preview the ledger computed for it. */
  predicate Previewed(s: Node) {
    match s.phase
    case Sealed(a) => a.man == ManifestOf(a.partition, a.window, a.rows)
    case Putting(a, v) => PreviewOf(Of(s, a.partition).ledger, a, v)
    case Committing(a, v) => PreviewOf(Of(s, a.partition).ledger, a, v)
    case _ => true
  }

  predicate PreviewOf(ledger: seq<Manifest>, a: Attempt, v: Option<int>) {
    && a.man == ManifestOf(a.partition, |ledger|, a.rows)
    && Sealable(ledger, a.partition, a.rows) && v == Preview(ledger, a.partition, a.rows)
  }

  lemma PreviewedKept(s: Node, e: Event)
    requires Previewed(s) && Enabled(s, e)
    ensures Previewed(Step(s, e))
  {
    match e {
      case Arrive(p, w, row) => ArrivePreviews(s, p, w, row);
      case Seal(ok) => SealPreviews(s, ok);
      case Advance => AdvancePreviews(s);
      case Put(ok, landed) => PutPreviews(s, ok, landed);
      case _ => LaterPhases(s, e);
    }
  }

  /** No other step leads to a phase between seal and commit. */
  lemma LaterPhases(s: Node, e: Event)
    requires Enabled(s, e) && !e.Arrive? && !e.Seal? && !e.Advance? && !e.Put?
    ensures var s' := Step(s, e); !s'.phase.Sealed? && !s'.phase.Putting? && !s'.phase.Committing?
  {
  }

  lemma ArrivePreviews(s: Node, p: Id, w: nat, row: Row)
    requires Previewed(s)
    ensures Previewed(ArriveStep(s, p, w, row))
  {
    assert forall q :: Of(ArriveStep(s, p, w, row), q).ledger == Of(s, q).ledger;
  }

  lemma SealPreviews(s: Node, ok: bool)
    requires Enabled(s, Seal(ok))
    ensures Previewed(SealStep(s, ok))
  {
  }

  lemma PutPreviews(s: Node, ok: bool, landed: bool)
    requires Previewed(s) && s.phase.Putting?
    ensures Previewed(PutStep(s, ok, landed))
  {
    assert Of(PutStep(s, ok, landed), s.phase.a.partition) == Of(s, s.phase.a.partition);
  }

  lemma AdvancePreviews(s: Node)
    requires Previewed(s) && s.phase.Sealed?
    ensures Previewed(AdvanceStep(s))
  {
    var a := s.phase.a;
    assert Of(AdvanceStep(s), a.partition) == Of(s, a.partition);
  }

  /** Every manifest names its own window's part. */
  ghost predicate OwnParts(s: Node) {
    Previewed(s) && forall p :: PartsOf(p, Of(s, p).lake)
  }

  predicate PartsOf(p: Id, lake: seq<Manifest>) {
    forall i | 0 <= i < |lake| :: lake[i].part == Primary(p, lake[i].window)
  }

  lemma OwnPartsKept(s: Node, e: Event)
    requires OwnParts(s) && Enabled(s, e)
    ensures OwnParts(Step(s, e))
  {
    PreviewedKept(s, e);
    forall p ensures PartsOf(p, Of(Step(s, e), p).lake) {
      PartsKept(s, e, p);
    }
  }

  lemma PartsKept(s: Node, e: Event, p: Id)
    requires OwnParts(s) && Enabled(s, e)
    ensures PartsOf(p, Of(Step(s, e), p).lake)
  {
    RowStep(s, e, p);
    assert PartsOf(p, Of(s, p).lake);
  }

  lemma NewWindow(p: Id, lake: seq<Manifest>, man: Manifest)
    requires PartsOf(p, lake) && man.part == Primary(p, man.window) && !IsRegistered(lake, man.window, man.part)
    ensures forall i | 0 <= i < |lake| :: lake[i].window != man.window
  {
    forall i | 0 <= i < |lake| ensures lake[i].window != man.window {
      assert lake[i] in lake && lake[i].part == Primary(p, lake[i].window);
    }
  }

  /** The check against a falling row: a window the lake already holds cannot lower it. */
  function NoFall(): Check {
    (ledger, lake, mark) => Holds(lake, |ledger|) || !CanFall(ledger, mark)
  }

  lemma HeldDoesNotLower(s: Node, e: Event, p: Id)
    requires OwnParts(s) && Held(NoFall(), s) && Enabled(s, e)
    ensures !Lowers(s, e, p)
  {
    if Registers(s, e, p) {
      var sh, a := Of(s, p), s.phase.a;
      NewWindow(p, sh.lake, a.man);
      assert !Holds(sh.lake, |sh.ledger|);
      FallsExactlyWhen(sh.ledger, sh.lakeMark, p);
      assert Sealable(sh.ledger, p, a.rows) && s.phase.preview == Preview(sh.ledger, p, a.rows);
    }
  }

  lemma {:induction false} CheckedNeverFalls(s: Node, run: seq<Event>, p: Id)
    requires OwnParts(s) && Held(NoFall(), s) && Legal(s, run) && CheckedRun(NoFall(), s, run)
    ensures NoneLowers(s, run, p)
    decreases |run|
  {
    if run != [] {
      HeldDoesNotLower(s, run[0], p);
      OwnPartsKept(s, run[0]);
      HeldKept(NoFall(), s, run[0]);
      CheckedNeverFalls(Step(s, run[0]), run[1..], p);
    }
  }

  /** Every run whose attempts begin where no seal could lower the row: it never falls. */
  lemma NeverFallsWhenChecked(run: seq<Event>, p: Id)
    requires Legal(INIT, run) && CheckedRun(NoFall(), INIT, run)
    ensures NeverFalls(INIT, run, p)
  {
    assert forall q :: Of(INIT, q) == EMPTY;
    CheckedNeverFalls(INIT, run, p);
    NeverFallsExactlyWhen(INIT, run, p);
  }

  // ----------------------------------------------------------- it can overclaim

  /** The row claims no more than some gap-free prefix of the registered windows proves. */
  ghost predicate HonestMark(sh: Shard) {
    sh.lakeMark.Some? ==>
      exists n | 0 < n <= |sh.lake| ::
        GapFree(Coverage(sh.lake[..n]), {}) && sh.lakeMark.value <= MaxEvent(sh.lake[..n])
  }

  lemma {:induction false} DoneIsGapFree(ms: seq<Manifest>)
    ensures Done(ms, {}) > 0 ==> GapFree(Coverage(ms[..Done(ms, {})]), {})
  {
    if ms != [] {
      var front := ms[..|ms| - 1];
      DoneIsGapFree(front);
      assert ms[..|ms|] == ms;
      var n := Done(front, {});
      assert ms[..n] == front[..n];
    }
  }

  lemma {:induction false} DoneIsLongest(ms: seq<Manifest>, n: nat)
    requires 0 < n <= |ms| && GapFree(Coverage(ms[..n]), {})
    ensures n <= Done(ms, {})
  {
    var front := ms[..|ms| - 1];
    if n == |ms| {
      assert ms[..n] == ms;
    } else {
      assert ms[..n] == front[..n];
      DoneIsLongest(front, n);
    }
  }

  /** Honesty is the advance rule, run from scratch over the registered windows. */
  lemma HonestMarkIsRule(sh: Shard)
    ensures HonestMark(sh) <==> Leq(sh.lakeMark, Watermark(sh.lake))
  {
    var lake, done := sh.lake, Done(sh.lake, {});
    if sh.lakeMark.Some? && Leq(sh.lakeMark, Watermark(lake)) {
      DoneIsGapFree(lake);
      assert GapFree(Coverage(lake[..done]), {}) && sh.lakeMark.value <= MaxEvent(lake[..done]);
    }
    if sh.lakeMark.Some? && HonestMark(sh) {
      var n :| 0 < n <= |lake| && GapFree(Coverage(lake[..n]), {}) && sh.lakeMark.value <= MaxEvent(lake[..n]);
      DoneIsLongest(lake, n);
      assert lake[..done][..n] == lake[..n];
      MaxEventPrefix(lake[..done], n);
    }
  }

  /** The preview passes what the registered windows and this one prove. */
  predicate Exceeds(preview: Option<int>, lake: seq<Manifest>, man: Manifest) {
    preview.Some? && !Leq(preview, Watermark(lake + [man]))
  }

  predicate Overclaims(s: Node, e: Event, p: Id)
    requires Enabled(s, e)
  {
    Registers(s, e, p) && Exceeds(s.phase.preview, Of(s, p).lake, s.phase.a.man)
  }

  /** From an honest row, a step makes it dishonest exactly when it registers with an exceeding preview. */
  lemma StepOverclaimsExactlyWhen(s: Node, e: Event, p: Id)
    requires Enabled(s, e) && HonestMark(Of(s, p))
    ensures !HonestMark(Of(Step(s, e), p)) <==> Overclaims(s, e, p)
  {
    RowStep(s, e, p);
    HonestMarkIsRule(Of(s, p));
    HonestMarkIsRule(Of(Step(s, e), p));
    if Registers(s, e, p) {
      var lake, man := Of(s, p).lake, s.phase.a.man;
      WatermarkMonotone(lake, man);
      LeqTransitive(Of(s, p).lakeMark, Watermark(lake), Watermark(lake + [man]));
    }
  }

  ghost predicate StaysHonest(s: Node, run: seq<Event>, p: Id)
    requires Legal(s, run)
    decreases |run|
  {
    HonestMark(Of(s, p)) && (run == [] || StaysHonest(Step(s, run[0]), run[1..], p))
  }

  ghost predicate NoneOverclaims(s: Node, run: seq<Event>, p: Id)
    requires Legal(s, run)
    decreases |run|
  {
    run == [] || (!Overclaims(s, run[0], p) && NoneOverclaims(Step(s, run[0]), run[1..], p))
  }

  /** For every run from an honest state: the row stays honest exactly when no commit overclaims. */
  lemma {:induction false} StaysHonestExactlyWhen(s: Node, run: seq<Event>, p: Id)
    requires Legal(s, run) && HonestMark(Of(s, p))
    ensures StaysHonest(s, run, p) <==> NoneOverclaims(s, run, p)
    decreases |run|
  {
    if run != [] {
      StepOverclaimsExactlyWhen(s, run[0], p);
      if HonestMark(Of(Step(s, run[0]), p)) {
        StaysHonestExactlyWhen(Step(s, run[0]), run[1..], p);
      }
    }
  }

  /** The ledger proves more than the lake's manifests: rows they lack, or a later watermark or event time. */
  predicate Drifted(ledger: seq<Manifest>, lake: seq<Manifest>) {
    || Coverage(ledger) != Coverage(lake)
    || !Leq(Watermark(ledger), Watermark(lake))
    || (ledger != [] && lake != [] && MaxEvent(ledger) > MaxEvent(lake))
  }

  /** A seal that fills the ledger's record but leaves a row open that the lake's record lacks. */
  lemma RevealingSeal(ledger: seq<Manifest>, lake: seq<Manifest>, p: Id, x: RowId) returns (rows: set<Row>)
    requires x in Coverage(ledger) && x !in Coverage(lake) && x.num != 0
    ensures Sealable(ledger, p, rows)
    ensures Exceeds(Preview(ledger, p, rows), lake, ManifestOf(p, |ledger|, rows))
  {
    var cov, w := Coverage(ledger), Watermark(lake);
    var n := LongerOrigin(cov);
    var top := RowId(x.origin, n);
    var base := cov + {top};
    HolesFillGaps(base);
    var ids := Holes(base) + {top};
    assert top !in cov && x.num < n;
    assert cov + ids == base + Holes(base);
    var ts := if w.Some? then w.value + 1 else 0;
    rows := RowsAt(ids, ts);
    AdmitsFresh(ledger, p, ids, ts);
    var m := ManifestOf(p, |ledger|, rows);
    RowsAtManifest(p, |ledger|, ids, ts);
    Snoc(lake, m);
    WatermarkAfter(lake, m);
    assert x !in ids;
    assert !Accounted(Coverage(lake) + ids, {}, x.origin, x.num);
    assert top in Coverage(lake) + ids;
    assert !GapFree(Coverage(lake) + ids, {});
  }

  lemma LaterEventSeal(ledger: seq<Manifest>, lake: seq<Manifest>, p: Id) returns (rows: set<Row>)
    requires Coverage(ledger) == Coverage(lake) && ledger != [] && lake != [] && MaxEvent(ledger) > MaxEvent(lake)
    ensures Sealable(ledger, p, rows)
    ensures Exceeds(Preview(ledger, p, rows), lake, ManifestOf(p, |ledger|, rows))
  {
    rows := FillingSeal(ledger, p, MaxEvent(lake));
    var m := ManifestOf(p, |ledger|, rows);
    Snoc(ledger, m);
    WatermarkAfter(ledger, m);
    Snoc(lake, m);
    WatermarkAfter(lake, m);
    WatermarkMonotone(lake, m);
  }

  lemma LaterMarkSeal(ledger: seq<Manifest>, lake: seq<Manifest>, p: Id) returns (rows: set<Row>)
    requires Coverage(ledger) == Coverage(lake) && !Leq(Watermark(ledger), Watermark(lake))
    ensures Sealable(ledger, p, rows)
    ensures Exceeds(Preview(ledger, p, rows), lake, ManifestOf(p, |ledger|, rows))
  {
    rows := GappySeal(ledger, p);
    var m := ManifestOf(p, |ledger|, rows);
    Snoc(ledger, m);
    Snoc(lake, m);
    WatermarkAfter(ledger, m);
    WatermarkAfter(lake, m);
  }

  lemma ExceedImpliesDrifted(ledger: seq<Manifest>, lake: seq<Manifest>, m: Manifest)
    requires |ledger| == |lake| && Exceeds(Watermark(ledger + [m]), lake, m)
    ensures Drifted(ledger, lake)
  {
    Snoc(ledger, m);
    Snoc(lake, m);
    WatermarkAfter(ledger, m);
    WatermarkAfter(lake, m);
  }

  /**
   Some seal of the next window would make the row overclaim exactly when the ledger has
   drifted from the lake's manifests.
   */
  lemma OverclaimsExactlyWhen(ledger: seq<Manifest>, lake: seq<Manifest>, p: Id)
    requires |ledger| == |lake| && Coverage(lake) <= Coverage(ledger) && forall id <- Coverage(ledger) :: id.num != 0
    ensures (exists rows :: Sealable(ledger, p, rows)
                            && Exceeds(Preview(ledger, p, rows), lake, ManifestOf(p, |ledger|, rows)))
            <==> Drifted(ledger, lake)
  {
    forall rows | Sealable(ledger, p, rows) && Exceeds(Preview(ledger, p, rows), lake, ManifestOf(p, |ledger|, rows))
      ensures Drifted(ledger, lake)
    {
      ExceedImpliesDrifted(ledger, lake, ManifestOf(p, |ledger|, rows));
    }
    if Drifted(ledger, lake) {
      if Coverage(ledger) != Coverage(lake) {
        var x :| x in Coverage(ledger) && x !in Coverage(lake);
        var rows := RevealingSeal(ledger, lake, p, x);
      } else if !Leq(Watermark(ledger), Watermark(lake)) {
        var rows := LaterMarkSeal(ledger, lake, p);
      } else {
        var rows := LaterEventSeal(ledger, lake, p);
      }
    }
  }

  // ------------------------------------------------------ checked beforehand

  lemma {:induction false} DenseNums(ms: seq<Manifest>)
    requires forall i | 0 <= i < |ms| :: forall id <- ms[i].coverage :: id.num != 0
    ensures forall id <- Coverage(ms) :: id.num != 0
  {
    if ms != [] {
      DenseNums(ms[..|ms| - 1]);
    }
  }

  /** In every state of the invariant, and level with the lake: drift is exactly what lets a seal overclaim. */
  lemma DriftIsExact(s: Node, p: Id)
    requires Inv(s) && |Of(s, p).ledger| == |Of(s, p).lake|
    ensures var sh := Of(s, p);
            (exists rows :: Sealable(sh.ledger, p, rows)
                            && Exceeds(Preview(sh.ledger, p, rows), sh.lake, ManifestOf(p, |sh.ledger|, rows)))
            <==> Drifted(sh.ledger, sh.lake)
  {
    var sh := Of(s, p);
    CoverageWithin(sh.lake, sh.ledger);
    forall i | 0 <= i < |sh.ledger| ensures forall id <- sh.ledger[i].coverage :: id.num != 0 {
      assert Admit(sh.ledger[..i], sh.ledger[i]).None?;
    }
    DenseNums(sh.ledger);
    OverclaimsExactlyWhen(sh.ledger, sh.lake, p);
  }

  function NoDrift(): Check {
    (ledger, lake, mark) => |ledger| == |lake| ==> !Drifted(ledger, lake)
  }

  lemma HeldDoesNotOverclaim(s: Node, e: Event, p: Id)
    requires Inv(s) && Previewed(s) && Held(NoDrift(), s) && Enabled(s, e)
    ensures !Overclaims(s, e, p)
  {
    if Registers(s, e, p) {
      var sh, a := Of(s, p), s.phase.a;
      assert |sh.lake| == |sh.ledger| by {
        RegisteredIff(s, p, a.window);
      }
      if Exceeds(s.phase.preview, sh.lake, a.man) {
        ExceedImpliesDrifted(sh.ledger, sh.lake, a.man);
      }
    }
  }

  lemma {:induction false} CheckedStaysHonest(s: Node, run: seq<Event>, p: Id)
    requires Inv(s) && Previewed(s) && Held(NoDrift(), s)
    requires Legal(s, run) && TrueVerdicts(s, run) && CheckedRun(NoDrift(), s, run)
    ensures NoneOverclaims(s, run, p)
    decreases |run|
  {
    if run != [] {
      HeldDoesNotOverclaim(s, run[0], p);
      StepKeeps(s, run[0]);
      PreviewedKept(s, run[0]);
      HeldKept(NoDrift(), s, run[0]);
      CheckedStaysHonest(Step(s, run[0]), run[1..], p);
    }
  }

  /** Every run with right verdicts whose attempts begin without drift: the row never overclaims. */
  lemma StaysHonestWhenChecked(run: seq<Event>, p: Id)
    requires Legal(INIT, run) && TrueVerdicts(INIT, run) && CheckedRun(NoDrift(), INIT, run)
    ensures StaysHonest(INIT, run, p)
  {
    assert forall q :: Of(INIT, q) == EMPTY;
    CheckedStaysHonest(INIT, run, p);
    StaysHonestExactlyWhen(INIT, run, p);
  }

  /** All three comparisons before each attempt: every promise about rows, record and watermark row holds. */
  lemma CheckedRunsAreSafe(run: seq<Event>, p: Id)
    requires Legal(INIT, run)
    requires CheckedRun(NoLie(), INIT, run) && CheckedRun(NoFall(), INIT, run) && CheckedRun(NoDrift(), INIT, run)
    ensures var s := Exec(INIT, run);
            NoLoss(s) && SingleDense(s) && AheadByAtMostOne(s) && !s.phase.Down?
    ensures NeverFalls(INIT, run, p) && StaysHonest(INIT, run, p)
  {
    assert forall q :: Of(INIT, q) == EMPTY;
    NoLossWhenChecked(run);
    GuardedRunIsTrue(INIT, run);
    NeverFallsWhenChecked(run, p);
    StaysHonestWhenChecked(run, p);
  }

  // ------------------------------------------------------- identical retries

  lemma InStepNeither(s: Node, e: Event, p: Id)
    requires Inv(s) && InStep(s) && Enabled(s, e)
    ensures !Lowers(s, e, p) && !Overclaims(s, e, p)
  {
    if Registers(s, e, p) {
      var sh, a := Of(s, p), s.phase.a;
      assert |sh.lake| == |sh.ledger| by {
        RegisteredIff(s, p, a.window);
      }
      assert sh.lake == sh.ledger;
      WatermarkMonotone(sh.ledger, a.man);
    }
  }

  lemma {:induction false} InStepHonest(s: Node, run: seq<Event>, p: Id)
    requires Inv(s) && InStep(s) && Legal(s, run) && IdenticalRetries(s, run)
    ensures NoneLowers(s, run, p) && NoneOverclaims(s, run, p)
    decreases |run|
  {
    if run != [] {
      InStepNeither(s, run[0], p);
      InStepMeansTrue(s, run[0]);
      StepKeeps(s, run[0]);
      InStepKept(s, run[0]);
      InStepHonest(Step(s, run[0]), run[1..], p);
    }
  }

  /**
   The choreography's promise, for every run whose retries are identical: no row
   is lost, the record stays single and dense, the lake's watermark row is exactly
   what the registered windows prove, never falls and never overclaims, and a reboot
   resumes exactly at the registered prefix.
   */
  lemma IdenticalRetriesAreSafe(run: seq<Event>, p: Id)
    requires Legal(INIT, run) && IdenticalRetries(INIT, run)
    ensures var s := Exec(INIT, run);
            && NoLoss(s) && SingleDense(s) && AheadByAtMostOne(s)
            && Of(s, p).lakeMark == Watermark(Of(s, p).lake)
            && NeverFalls(INIT, run, p) && StaysHonest(INIT, run, p)
            && |Of(CrashStep(s), p).ledger| == |Of(s, p).lake|
  {
    assert forall q :: Of(INIT, q) == EMPTY;
    var s := Exec(INIT, run);
    InStepRun(INIT, run);
    InvImplies(s);
    InStepHonest(INIT, run, p);
    NeverFallsExactlyWhen(INIT, run, p);
    StaysHonestExactlyWhen(INIT, run, p);
    CrashKeeps(s);
  }

  /** In step, an attempt may begin: the lake already holds its window, or is level with the ledger and its row. */
  lemma InStepPasses(s: Node, p: Id)
    requires Inv(s) && InStep(s)
    ensures Passes(NoLie(), Of(s, p)) && Passes(NoFall(), Of(s, p)) && Passes(NoDrift(), Of(s, p))
  {
    var sh := Of(s, p);
    assert ShardInv(p, sh, s.objects) && ShardInStep(sh);
    if |sh.lake| > |sh.ledger| {
      assert sh.lake[|sh.ledger|] in sh.lake && sh.lake[|sh.ledger|].window == |sh.ledger|;
      assert Holds(sh.lake, |sh.ledger|);
    } else {
      assert sh.lake == sh.ledger;
      LevelPasses(sh);
    }
  }

  lemma LevelPasses(sh: Shard)
    requires sh.lake == sh.ledger && sh.lakeMark == Watermark(sh.ledger)
    ensures Passes(NoLie(), sh) && Passes(NoFall(), sh) && Passes(NoDrift(), sh)
  {
    assert !CanLie(sh.ledger, sh.lakeMark) && !CanFall(sh.ledger, sh.lakeMark);
    assert !Drifted(sh.ledger, sh.lake);
  }

  lemma {:induction false} InStepRunPasses(s: Node, run: seq<Event>)
    requires Inv(s) && InStep(s) && Legal(s, run) && IdenticalRetries(s, run)
    ensures CheckedRun(NoLie(), s, run) && CheckedRun(NoFall(), s, run) && CheckedRun(NoDrift(), s, run)
    decreases |run|
  {
    if run != [] {
      if run[0].Begin? {
        InStepPasses(s, run[0].partition);
      }
      InStepMeansTrue(s, run[0]);
      StepKeeps(s, run[0]);
      InStepKept(s, run[0]);
      InStepRunPasses(Step(s, run[0]), run[1..]);
    }
  }

  /** The checks turn away no run that keeps the documented promise. */
  lemma IdenticalRetriesPass(run: seq<Event>)
    requires Legal(INIT, run) && IdenticalRetries(INIT, run)
    ensures CheckedRun(NoLie(), INIT, run) && CheckedRun(NoFall(), INIT, run) && CheckedRun(NoDrift(), INIT, run)
  {
    assert forall q :: Of(INIT, q) == EMPTY;
    InStepRunPasses(INIT, run);
  }
}
