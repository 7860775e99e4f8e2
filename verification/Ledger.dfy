/**
 The watermark ledger of one partition: committed windows in dense order, and
 the advance rule that says how far the partition is provably complete.

 `Done` and `Watermark` state the rule from scratch over the whole record; the
 class `PartitionState` keeps the source's cached cursor and is proved to agree
 with them after every recorded commit and every recorded loss.
 */
module Ledger {
  import opened Options
  import opened Naming

  /** One staged row's identity: the origin node and its 1-based sequence number. */
  datatype RowId = RowId(origin: Id, num: nat)

  /** A window manifest; its coverage is the set its per-origin ranges denote. */
  datatype Manifest = Manifest(window: nat, part: FenceKey, coverage: set<RowId>, rows: nat, eventMax: int)

  datatype Rejection =
    | WindowNotNext(expected: nat, got: nat)
    | Malformed

  // ------------------------------------------------------- the advance rule

  function Coverage(ms: seq<Manifest>): set<RowId> {
    if ms == [] then {} else Coverage(ms[..|ms| - 1]) + ms[|ms| - 1].coverage
  }

  /** No covered sequence number has an uncovered, unledgered one below it. */
  predicate GapFree(cov: set<RowId>, losses: set<RowId>) {
    forall id <- cov :: forall j | 1 <= j < id.num :: Accounted(cov, losses, id.origin, j)
  }

  predicate Accounted(cov: set<RowId>, losses: set<RowId>, origin: Id, j: nat) {
    RowId(origin, j) in cov || RowId(origin, j) in losses
  }

  /** The latest event time over a record that is not empty. */
  function MaxEvent(ms: seq<Manifest>): int
    requires ms != []
  {
    var last := ms[|ms| - 1].eventMax;
    if |ms| == 1 then last else Max(MaxEvent(ms[..|ms| - 1]), last)
  }

  function Max(a: int, b: int): int {
    if a < b then b else a
  }

  /** How many windows, from window 0, the watermark stands past. */
  function Done(ms: seq<Manifest>, losses: set<RowId>): nat
    ensures Done(ms, losses) <= |ms|
  {
    if ms == [] then 0
    else if GapFree(Coverage(ms), losses) then |ms|
    else Done(ms[..|ms| - 1], losses)
  }

  /** `complete_through` of a record: the latest event time of the windows passed. */
  function WatermarkWith(ms: seq<Manifest>, losses: set<RowId>): Option<int> {
    var n := Done(ms, losses);
    if n == 0 then None else Some(MaxEvent(ms[..n]))
  }

  /** The rule as the daemon runs it: no loss row is ever recorded. */
  function Watermark(ms: seq<Manifest>): Option<int> {
    WatermarkWith(ms, {})
  }

  /** The ledger's validation of an offered manifest. */
  function Admit(ms: seq<Manifest>, m: Manifest): Option<Rejection> {
    if m.window != |ms| then Some(WindowNotNext(|ms|, m.window))
    else if exists id <- m.coverage :: id.num == 0 then Some(Malformed)
    else if m.coverage * Coverage(ms) != {} then Some(Malformed)
    else None
  }

  // ------------------------------------------------------------ consequences

  predicate Leq(a: Option<int>, b: Option<int>) {
    a.None? || (b.Some? && a.value <= b.value)
  }

  lemma Snoc(ms: seq<Manifest>, m: Manifest)
    ensures (ms + [m])[..|ms|] == ms
    ensures Coverage(ms + [m]) == Coverage(ms) + m.coverage
    ensures MaxEvent(ms + [m]) == if ms == [] then m.eventMax else Max(MaxEvent(ms), m.eventMax)
  {
    assert (ms + [m])[..|ms|] == ms;
  }

  /** Recording one more window either passes the whole record or changes nothing. */
  lemma WatermarkAfter(ms: seq<Manifest>, m: Manifest)
    ensures Watermark(ms + [m]) ==
            if GapFree(Coverage(ms + [m]), {}) then Some(MaxEvent(ms + [m])) else Watermark(ms)
  {
    Snoc(ms, m);
    var all := ms + [m];
    assert all[..|all|] == all;
    var n := Done(ms, {});
    assert all[..n] == ms[..n];
  }

  lemma {:induction false} MaxEventBounds(ms: seq<Manifest>)
    requires ms != []
    ensures forall m <- ms :: m.eventMax <= MaxEvent(ms)
    ensures exists m <- ms :: m.eventMax == MaxEvent(ms)
  {
    var front, last := ms[..|ms| - 1], ms[|ms| - 1];
    assert ms == front + [last];
    if front != [] {
      MaxEventBounds(front);
    }
  }

  lemma MaxEventPrefix(ms: seq<Manifest>, n: nat)
    requires 0 < n <= |ms|
    ensures MaxEvent(ms[..n]) <= MaxEvent(ms)
  {
    MaxEventBounds(ms);
    MaxEventBounds(ms[..n]);
  }

  lemma WatermarkBelowMax(ms: seq<Manifest>)
    requires Watermark(ms).Some?
    ensures ms != [] && Watermark(ms).value <= MaxEvent(ms)
  {
    MaxEventPrefix(ms, Done(ms, {}));
  }

  /** A commit never lowers the watermark. */
  lemma WatermarkMonotone(ms: seq<Manifest>, m: Manifest)
    ensures Leq(Watermark(ms), Watermark(ms + [m]))
  {
    WatermarkAfter(ms, m);
    if Watermark(ms).Some? {
      WatermarkBelowMax(ms);
      Snoc(ms, m);
    }
  }

  /**
   Enlarging a window's coverage can lower what its commit previews: the extra
   row may reveal a hole. So a retry that re-seals more rows is not bound to
   preview at least what the first attempt previewed.
   */
  lemma PreviewNotMonotoneInCoverage(o: Id, part: FenceKey)
    ensures
      var small := Manifest(0, part, {RowId(o, 1)}, 1, 50);
      var large := Manifest(0, part, {RowId(o, 1), RowId(o, 3)}, 2, 50);
      small.coverage < large.coverage && Watermark([small]) == Some(50) && Watermark([large]) == None
  {
    var small := Manifest(0, part, {RowId(o, 1)}, 1, 50);
    var large := Manifest(0, part, {RowId(o, 1), RowId(o, 3)}, 2, 50);
    assert RowId(o, 3) in large.coverage && RowId(o, 3) !in small.coverage;
    assert [small] == [] + [small] && [large] == [] + [large];
    Snoc([], small);
    Snoc([], large);
    WatermarkAfter([], small);
    WatermarkAfter([], large);
    assert Coverage([large]) == large.coverage;
    assert !Accounted(large.coverage, {}, o, 2);
    assert !GapFree(large.coverage, {});
  }

  /**
   Exactly when it does: the smaller union is gap-free and advances the watermark,
   and the larger one is not gap-free.
   */
  lemma PreviewFallsExactlyWhen(ms: seq<Manifest>, m: Manifest, larger: Manifest)
    requires m.coverage <= larger.coverage && m.eventMax <= larger.eventMax
    ensures !Leq(Watermark(ms + [m]), Watermark(ms + [larger])) <==>
            && GapFree(Coverage(ms) + m.coverage, {})
            && !GapFree(Coverage(ms) + larger.coverage, {})
            && !Leq(Some(MaxEvent(ms + [m])), Watermark(ms))
  {
    Snoc(ms, m);
    Snoc(ms, larger);
    WatermarkAfter(ms, m);
    WatermarkAfter(ms, larger);
    WatermarkMonotone(ms, larger);
  }

  // -------------------------------------------------------- reconstruction

  function WithWindow(log: seq<Manifest>, w: nat): seq<Manifest> {
    if log == [] then []
    else if log[0].window == w then [log[0]] + WithWindow(log[1..], w)
    else WithWindow(log[1..], w)
  }

  /**
   Boot-time replay of the lake's manifests in window order: stops at the first
   missing window, and fails closed on a duplicated or inadmissible one.
   */
  function Replay(log: seq<Manifest>, ms: seq<Manifest>): Result<seq<Manifest>, Rejection>
    requires |ms| <= |log|
    decreases |log| - |ms|
  {
    var found := WithWindow(log, |ms|);
    if found == [] || |ms| == |log| then Ok(ms)
    else if |found| > 1 then Err(WindowNotNext(|ms| + 1, |ms|))
    else match Admit(ms, found[0])
         case Some(rejection) => Err(rejection)
         case None => Replay(log, ms + [found[0]])
  }

  function Reconstruct(log: seq<Manifest>): Result<seq<Manifest>, Rejection> {
    Replay(log, [])
  }

  /** Window ids equal to positions, every manifest admissible after its predecessors. */
  ghost predicate Dense(log: seq<Manifest>) {
    forall i | 0 <= i < |log| :: log[i].window == i && Admit(log[..i], log[i]).None?
  }

  lemma {:induction false} WithWindowOf(log: seq<Manifest>, base: nat, w: nat)
    requires forall i | 0 <= i < |log| :: log[i].window == base + i
    ensures WithWindow(log, w) == if base <= w < base + |log| then [log[w - base]] else []
  {
    if log != [] {
      WithWindowOf(log[1..], base + 1, w);
    }
  }

  lemma {:induction false} ReplayDense(log: seq<Manifest>, n: nat)
    requires Dense(log) && n <= |log|
    ensures Replay(log, log[..n]) == Ok(log)
    decreases |log| - n
  {
    WithWindowOf(log, 0, n);
    if n < |log| {
      assert log[..n] + [log[n]] == log[..n + 1];
      ReplayDense(log, n + 1);
    } else {
      assert log[..n] == log;
    }
  }

  /** Any dense record reconstructs to itself: reboot loses and invents no window. */
  lemma ReconstructDense(log: seq<Manifest>)
    requires Dense(log)
    ensures Reconstruct(log) == Ok(log)
  {
    assert log[..0] == [];
    ReplayDense(log, 0);
  }

  /** How many manifests of the record are for windows before w. */
  function CountBelow(log: seq<Manifest>, w: nat): nat {
    if log == [] then 0 else CountBelow(log[1..], w) + if log[0].window < w then 1 else 0
  }

  lemma {:induction false} CountBelowStep(log: seq<Manifest>, w: nat)
    ensures CountBelow(log, w + 1) == CountBelow(log, w) + |WithWindow(log, w)| <= |log|
  {
    if log != [] {
      CountBelowStep(log[1..], w);
    }
  }

  lemma {:induction false} CountBelowAll(log: seq<Manifest>, n: nat)
    requires forall w | 0 <= w < n :: |WithWindow(log, w)| == 1
    ensures CountBelow(log, n) == n
  {
    if n > 0 {
      CountBelowAll(log, n - 1);
      CountBelowStep(log, n - 1);
      assert |WithWindow(log, n - 1)| == 1;
    } else {
      NoneBelowZero(log);
    }
  }

  lemma {:induction false} NoneBelowZero(log: seq<Manifest>)
    ensures CountBelow(log, 0) == 0
  {
    if log != [] {
      NoneBelowZero(log[1..]);
    }
  }

  /** What the ledger admits: the next window, seqs from one, and no row an earlier window covers. */
  lemma AdmitExactlyWhen(ms: seq<Manifest>, m: Manifest)
    ensures Admit(ms, m).None? <==>
            && m.window == |ms| && (forall id <- m.coverage :: id.num >= 1)
            && forall i | 0 <= i < |ms| :: ms[i].coverage !! m.coverage
    ensures Admit(ms, m) == Some(WindowNotNext(|ms|, m.window)) <==> m.window != |ms|
  {
    CoverageMeets(ms, m.coverage);
    MeetsExactlyWhen(m.coverage, Coverage(ms));
  }

  lemma MeetsExactlyWhen(a: set<RowId>, b: set<RowId>)
    ensures a * b == {} <==> b !! a
  {
    if a * b == {} {
      forall x | x in a ensures x !in b {
        assert x !in a * b;
      }
    }
  }

  lemma {:induction false} CoverageMeets(ms: seq<Manifest>, cov: set<RowId>)
    ensures Coverage(ms) !! cov <==> forall i | 0 <= i < |ms| :: ms[i].coverage !! cov
  {
    if ms != [] {
      CoverageMeets(ms[..|ms| - 1], cov);
      assert Coverage(ms) == Coverage(ms[..|ms| - 1]) + ms[|ms| - 1].coverage;
    }
  }

  /** A replay under way: dense so far, and each window it took is the record's only one of that id. */
  ghost predicate Replayed(log: seq<Manifest>, ms: seq<Manifest>) {
    Dense(ms) && forall i | 0 <= i < |ms| :: WithWindow(log, i) == [ms[i]]
  }

  lemma {:induction false} ReplayStops(log: seq<Manifest>, ms: seq<Manifest>)
    requires |ms| <= |log| && Replayed(log, ms) && Replay(log, ms).Ok?
    ensures var out := Replay(log, ms).value;
            Replayed(log, out) && WithWindow(log, |out|) == []
    decreases |log| - |ms|
  {
    var found := WithWindow(log, |ms|);
    if |ms| == |log| {
      CountBelowAll(log, |ms|);
      CountBelowStep(log, |ms|);
    } else if found != [] {
      DenseSnoc(ms, found[0]);
      ReplayStops(log, ms + [found[0]]);
    }
  }

  /**
   Any record, in any order and with any windows missing: a successful reboot yields exactly the
   gap-free prefix of its windows, dense, and no manifest of the record has the next window.
   */
  lemma ReconstructIsPrefix(log: seq<Manifest>)
    requires Reconstruct(log).Ok?
    ensures var out := Reconstruct(log).value;
            && Dense(out) && (forall i | 0 <= i < |out| :: WithWindow(log, i) == [out[i]])
            && WithWindow(log, |out|) == []
  {
    ReplayStops(log, []);
  }

  lemma {:induction false} WithWindowIff(log: seq<Manifest>, w: nat)
    ensures forall m :: m in WithWindow(log, w) <==> m in log && m.window == w
  {
    if log != [] {
      WithWindowIff(log[1..], w);
      assert log == [log[0]] + log[1..];
    }
  }

  /** Manifests that never clash: one per window, disjoint coverages, no zero seq. */
  ghost predicate Clashless(log: seq<Manifest>) {
    && (forall w :: |WithWindow(log, w)| <= 1)
    && (forall a <- log, b <- log :: a.window != b.window ==> a.coverage !! b.coverage)
    && (forall a <- log, id <- a.coverage :: id.num != 0)
  }

  lemma ClashlessAdmits(log: seq<Manifest>, ms: seq<Manifest>, m: Manifest)
    requires Clashless(log) && Replayed(log, ms) && WithWindow(log, |ms|) == [m]
    ensures Admit(ms, m).None?
  {
    WithWindowIff(log, |ms|);
    assert m in WithWindow(log, |ms|);
    forall i | 0 <= i < |ms| ensures ms[i].coverage !! m.coverage {
      WithWindowIff(log, i);
      assert ms[i] in WithWindow(log, i);
    }
    CoverageMeets(ms, m.coverage);
  }

  lemma {:induction false} ReplayOk(log: seq<Manifest>, ms: seq<Manifest>)
    requires |ms| <= |log| && Clashless(log) && Replayed(log, ms)
    ensures Replay(log, ms).Ok?
    decreases |log| - |ms|
  {
    var found := WithWindow(log, |ms|);
    if found != [] && |ms| < |log| {
      assert |found| <= 1;
      assert found == [found[0]];
      ClashlessAdmits(log, ms, found[0]);
      DenseSnoc(ms, found[0]);
      ReplayOk(log, ms + [found[0]]);
    }
  }

  /** Such a record always reconstructs, whatever windows are missing. */
  lemma ReconstructOk(log: seq<Manifest>)
    requires Clashless(log)
    ensures Reconstruct(log).Ok?
  {
    ReplayOk(log, []);
  }

  lemma DenseSnoc(log: seq<Manifest>, m: Manifest)
    requires Dense(log) && Admit(log, m).None?
    ensures Dense(log + [m])
  {
    var all := log + [m];
    forall i | 0 <= i < |all| ensures all[i].window == i && Admit(all[..i], all[i]).None? {
      if i < |log| {
        assert all[..i] == log[..i];
      } else {
        assert all[..i] == log;
      }
    }
  }

  // ------------------------------------------- the cached cursor, in place

  /** The cached cursor's fields, tied to the record they summarise. */
  ghost predicate CursorAt(ms: seq<Manifest>, losses: set<RowId>, n: nat, cov: set<RowId>, through: Option<int>) {
    && n <= |ms|
    && cov == Coverage(ms[..n])
    && (n > 0 ==> GapFree(cov, losses))
    && through == if n == 0 then None else Some(MaxEvent(ms[..n]))
  }

  lemma {:induction false} GapFreeWeakens(cov: set<RowId>, losses: set<RowId>, more: set<RowId>)
    requires GapFree(cov, losses) && losses <= more
    ensures GapFree(cov, more)
  {
    forall id <- cov, j | 1 <= j < id.num ensures Accounted(cov, more, id.origin, j) {
      assert Accounted(cov, losses, id.origin, j);
    }
  }

  /** One round of the advance loop, over the record's first n + 1 windows. */
  lemma AdvanceRound(ms: seq<Manifest>, n: nat, losses: set<RowId>)
    requires n < |ms|
    ensures Coverage(ms[..n + 1]) == Coverage(ms[..n]) + ms[n].coverage
    ensures MaxEvent(ms[..n + 1]) == if n == 0 then ms[n].eventMax else Max(MaxEvent(ms[..n]), ms[n].eventMax)
    ensures Done(ms[..n + 1], losses) == if GapFree(Coverage(ms[..n + 1]), losses) then n + 1 else Done(ms[..n], losses)
  {
    assert ms[..n + 1] == ms[..n] + [ms[n]];
    Snoc(ms[..n], ms[n]);
  }

  class PartitionState {
    var windows: seq<Manifest>
    var committed: set<RowId>
    var losses: set<RowId>
    var doneCov: set<RowId>
    var doneWindows: nat
    var completeThrough: Option<int>

    /** The cached cursor is exactly the advance rule run from scratch. */
    ghost predicate Valid()
      reads this
    {
      && committed == Coverage(windows)
      && CursorAt(windows, losses, doneWindows, doneCov, completeThrough)
      && doneWindows == Done(windows, losses)
    }

    constructor ()
      ensures Valid() && windows == [] && losses == {} && completeThrough == None
    {
      windows, committed, losses := [], {}, {};
      doneCov, doneWindows, completeThrough := {}, 0, None;
    }

    /** Re-runs the advance rule from the cached cursor, never from window 0. */
    method Extend()
      requires CursorAt(windows, losses, doneWindows, doneCov, completeThrough)
      requires committed == Coverage(windows)
      modifies this`doneCov, this`doneWindows, this`completeThrough
      ensures Valid()
      ensures completeThrough == WatermarkWith(windows, losses)
    {
      var cov, through, next := doneCov, completeThrough, doneWindows;
      while next < |windows|
        invariant doneWindows <= next <= |windows|
        invariant cov == Coverage(windows[..next])
        invariant through == if next == 0 then None else Some(MaxEvent(windows[..next]))
        invariant CursorAt(windows, losses, doneWindows, doneCov, completeThrough)
        invariant doneWindows == Done(windows[..next], losses)
      {
        AdvanceRound(windows, next, losses);
        cov := cov + windows[next].coverage;
        through := Some(if through.None? then windows[next].eventMax else Max(through.value, windows[next].eventMax));
        if GapFree(cov, losses) {
          doneCov, doneWindows, completeThrough := cov, next + 1, through;
        }
        next := next + 1;
      }
      assert windows[..|windows|] == windows;
    }

    method RecordCommit(m: Manifest) returns (r: Result<Option<int>, Rejection>)
      requires Valid()
      modifies this
      ensures Valid() && losses == old(losses)
      ensures match Admit(old(windows), m)
              case Some(e) =>
                && r == Err(e)
                && windows == old(windows)
                && completeThrough == old(completeThrough)
              case None =>
                && windows == old(windows) + [m]
                && r == Ok(completeThrough)
                && completeThrough == WatermarkWith(windows, losses)
    {
      if m.window != |windows| {
        return Err(WindowNotNext(|windows|, m.window));
      }
      if exists id <- m.coverage :: id.num == 0 {
        return Err(Malformed);
      }
      if m.coverage * committed != {} {
        return Err(Malformed);
      }
      Snoc(windows, m);
      assert (windows + [m])[..doneWindows] == windows[..doneWindows];
      committed := committed + m.coverage;
      windows := windows + [m];
      Extend();
      r := Ok(completeThrough);
    }

    /** Ledgered loss rows excuse holes; the cursor re-extends over the larger excuse. */
    method RecordLoss(origin: Id, first: nat, last: nat) returns (r: Result<Option<int>, Rejection>)
      requires Valid()
      modifies this
      ensures Valid() && windows == old(windows)
      ensures first == 0 || first > last ==> r == Err(Malformed) && losses == old(losses)
      ensures 0 < first <= last ==>
                && losses == old(losses) + (set k | first <= k <= last :: RowId(origin, k))
                && r == Ok(WatermarkWith(windows, losses))
    {
      if first == 0 || first > last {
        return Err(Malformed);
      }
      var more := losses + (set k | first <= k <= last :: RowId(origin, k));
      if doneWindows > 0 {
        GapFreeWeakens(doneCov, losses, more);
      }
      losses := more;
      Extend();
      r := Ok(completeThrough);
    }
  }
}
