/**
 The daemon's drain tick: filter the offered windows by the lateness hold, drain
 each in the order offered, and report.
 */
module Tick {
  import opened Options
  import opened Naming
  import opened Ledger
  import opened Drain
  import opened DrainSafety
  import opened DrainOutcome
  import opened DrainRecord
  import opened Coordinator

  // ---------------------------------------------------------------- schedule

  const I64_MIN := -0x8000_0000_0000_0000
  const I64_MAX := 0x7fff_ffff_ffff_ffff
  type I64 = n: int | -0x8000_0000_0000_0000 <= n <= 0x7fff_ffff_ffff_ffff

  datatype DrainableWindow = DrainableWindow(dataset: Id, partition: Id, window: nat, closedAt: I64)

  function SaturatingAdd(a: I64, b: I64): I64 {
    if a + b > I64_MAX then I64_MAX else if a + b < I64_MIN then I64_MIN else a + b
  }

  predicate HoldElapsed(now: I64, lateness: I64, closedAt: I64) {
    now >= SaturatingAdd(closedAt, lateness)
  }

  function Eligible(now: I64, lateness: I64, offered: seq<DrainableWindow>): seq<DrainableWindow> {
    if offered == [] then []
    else
      var rest := Eligible(now, lateness, offered[1..]);
      if HoldElapsed(now, lateness, offered[0].closedAt) then [offered[0]] + rest else rest
  }

  /**
   Saturation keeps the hold exact except past the end of time, where a window
   whose release instant is not representable waits for the last instant.
   */
  lemma HoldExact(now: I64, lateness: I64, closedAt: I64)
    ensures HoldElapsed(now, lateness, closedAt) <==>
            now - closedAt >= lateness || (closedAt + lateness > I64_MAX && now == I64_MAX)
  {
  }

  /** The filter keeps exactly the released windows, with multiplicity and in order. */
  lemma {:induction false} EligibleIsFilter(now: I64, lateness: I64, offered: seq<DrainableWindow>)
    ensures forall w :: multiset(Eligible(now, lateness, offered))[w] ==
                        if HoldElapsed(now, lateness, w.closedAt) then multiset(offered)[w] else 0
    ensures Embeds(Eligible(now, lateness, offered), offered)
  {
    if offered != [] {
      EligibleIsFilter(now, lateness, offered[1..]);
      assert offered == [offered[0]] + offered[1..];
      assert multiset(offered) == multiset{offered[0]} + multiset(offered[1..]);
    }
  }

  /** `a` is `b` with some elements left out. */
  predicate Embeds(a: seq<DrainableWindow>, b: seq<DrainableWindow>)
    decreases |b|
  {
    a == [] || (b != [] && ((a[0] == b[0] && Embeds(a[1..], b[1..])) || Embeds(a, b[1..])))
  }

  // -------------------------------------------------------------------- tick

  datatype Report = Report(eligible: nat, committed: nat, requeued: nat)

  /** What became of one eligible window: no plan, or an attempt's outcome. */
  type Fate = Option<Outcome>

  predicate IsCommitted(f: Fate) { f.Some? && (f.value.Committed? || f.value.AlreadyCommitted?) }
  predicate IsRequeued(f: Fate) { f.Some? && !IsCommitted(f) }
  predicate IsUnplanned(f: Fate) { f.None? }

  function Count(fates: seq<Fate>, kind: Fate -> bool): nat {
    if fates == [] then 0 else Count(fates[..|fates| - 1], kind) + (if kind(fates[|fates| - 1]) then 1 else 0)
  }

  /** Every window of the lake's records after is there before, or was offered. */
  ghost predicate OnlyOffered(before: seq<Manifest>, after: seq<Manifest>, p: Id, offered: seq<DrainableWindow>) {
    && before <= after
    && forall i | |before| <= i < |after| ::
         exists d <- offered :: d.dataset == DATASET && d.partition == p && d.window == after[i].window
  }

  /** At most the given window was appended. */
  ghost predicate OneMore(before: seq<Manifest>, after: seq<Manifest>, p: Id, d: DrainableWindow) {
    after == before || (d.dataset == DATASET && d.partition == p && Appends(before, after, d.window))
  }

  lemma OfferGrows(before: seq<Manifest>, mid: seq<Manifest>, after: seq<Manifest>, p: Id,
                   offered: seq<DrainableWindow>, d: DrainableWindow)
    requires OnlyOffered(before, mid, p, offered) && OneMore(mid, after, p, d) && d in offered
    ensures OnlyOffered(before, after, p, offered)
  {
    forall i | |before| <= i < |after|
      ensures exists e <- offered :: e.dataset == DATASET && e.partition == p && e.window == after[i].window
    {
      if i < |mid| {
        assert after[i] == mid[i];
      }
    }
  }

  lemma CountSnoc(fates: seq<Fate>, f: Fate)
    ensures Count(fates + [f], IsCommitted) == Count(fates, IsCommitted) + if IsCommitted(f) then 1 else 0
    ensures Count(fates + [f], IsRequeued) == Count(fates, IsRequeued) + if IsRequeued(f) then 1 else 0
  {
    assert (fates + [f])[..|fates|] == fates;
  }

  /** Somewhere in the run this window's attempt began, and without another beginning it ended in this fate. */
  ghost predicate Attempted(start: Node, run: seq<Event>, d: DrainableWindow, fate: Fate) {
    exists m, n | 0 <= m < n <= |run| :: AttemptAt(start, run, d, fate, m, n)
  }

  ghost predicate AttemptAt(start: Node, run: seq<Event>, d: DrainableWindow, fate: Fate, m: nat, n: nat)
    requires m < n <= |run|
  {
    && run[m] == Begin(d.partition, d.window)
    && (forall i | m < i < n :: Within(run[i]))
    && Legal(start, run[..n]) && Exec(start, run[..n]).phase == Idle(fate)
  }

  /** Counted as committed, a window is in the ledger when its attempt ends. */
  lemma CommittedIsRecorded(start: Node, run: seq<Event>, d: DrainableWindow, fate: Fate, m: nat, n: nat)
    requires m < n <= |run| && AttemptAt(start, run, d, fate, m, n) && IsCommitted(fate)
    ensures DrainOutcome.Recorded(Of(Exec(start, run[..n]), d.partition), d.window, fate.value)
  {
    var rest := run[m + 1..n];
    assert run[..n] == run[..m] + ([Begin(d.partition, d.window)] + rest);
    forall i | 0 <= i < |rest| ensures Within(rest[i]) {
      assert rest[i] == run[m + 1 + i];
    }
    Splits(start, run[..m], [Begin(d.partition, d.window)] + rest);
    SuccessIsRecorded(Exec(start, run[..m]), d.partition, d.window, rest);
  }

  lemma AttemptedStays(start: Node, run: seq<Event>, longer: seq<Event>, d: DrainableWindow, fate: Fate)
    requires Attempted(start, run, d, fate) && run <= longer
    ensures Attempted(start, longer, d, fate)
  {
    var m, n :| 0 <= m < n <= |run| && AttemptAt(start, run, d, fate, m, n);
    assert longer[..n] == run[..n];
    assert AttemptAt(start, longer, d, fate, m, n);
  }

  /** A drain just completed is such an attempt. */
  lemma JustAttempted(start: Node, before: seq<Event>, run: seq<Event>, d: DrainableWindow,
                      fate: Fate, world: World, end: Node)
    requires Follows(before + [Begin(d.partition, d.window)], run, world)
    requires Takes(start, run, end) && end.phase == Idle(fate)
    ensures before <= run && Attempted(start, run, d, fate)
  {
    var begun := before + [Begin(d.partition, d.window)];
    FollowsExtends(begun, run, world);
    assert run[..|run|] == run;
    assert run[|before|] == begun[|before|];
    assert AttemptAt(start, run, d, fate, |before|, |run|);
  }

  /** One fate per window so far: none without a plan, else what an attempt on that window reached. */
  ghost predicate Served(start: Node, run: seq<Event>, windows: seq<DrainableWindow>, fates: seq<Fate>) {
    |fates| <= |windows| &&
    (fates == [] ||
     var i := |fates| - 1;
     && (fates[i].None? <==> windows[i].dataset != DATASET)
     && (fates[i].Some? ==> Attempted(start, run, windows[i], fates[i]))
     && Served(start, run, windows, fates[..i]))
  }

  lemma {:induction false} ServedStays(start: Node, run: seq<Event>, longer: seq<Event>,
                                       windows: seq<DrainableWindow>, fates: seq<Fate>)
    requires Served(start, run, windows, fates) && run <= longer
    ensures Served(start, longer, windows, fates)
  {
    if fates != [] {
      var i := |fates| - 1;
      ServedStays(start, run, longer, windows, fates[..i]);
      if fates[i].Some? {
        AttemptedStays(start, run, longer, windows[i], fates[i]);
      }
    }
  }

  lemma ServedSnoc(start: Node, run: seq<Event>, longer: seq<Event>,
                   windows: seq<DrainableWindow>, fates: seq<Fate>, fate: Fate)
    requires Served(start, run, windows, fates) && run <= longer && |fates| < |windows|
    requires fate.None? <==> windows[|fates|].dataset != DATASET
    requires fate.Some? ==> Attempted(start, longer, windows[|fates|], fate)
    ensures Served(start, longer, windows, fates + [fate])
  {
    ServedStays(start, run, longer, windows, fates);
    assert (fates + [fate])[..|fates|] == fates;
  }

  class DaemonCore {
    const drain: DrainCoordinator
    var stalled: bool

    constructor (drain: DrainCoordinator)
      ensures this.drain == drain
    {
      this.drain := drain;
      stalled := false;
    }

    /** A window of a dataset without a plan is left for a later tick. */
    method DrainOne(window: DrainableWindow, world: World) returns (fate: Fate)
      requires drain.Valid() && drain.phase.Idle?
      modifies drain
      ensures drain.Valid() && drain.phase.Idle? && drain.start == old(drain.start) && old(drain.run) <= drain.run
      ensures fate.None? <==> window.dataset != DATASET
      ensures fate.Some? ==> Attempted(drain.start, drain.run, window, fate)
      ensures forall q :: OneMore(old(drain.At(q).lake), drain.At(q).lake, q, window)
    {
      fate := None;
      if window.dataset == DATASET {
        ghost var before := drain.run;
        var outcome := drain.DrainWindow(window.partition, window.window, world);
        JustAttempted(drain.start, before, drain.run, window, Some(outcome), world, drain.View());
        fate := Some(outcome);
      }
    }

    /** One eligible window, drained and added to the report; an unreachable catalog is a stall. */
    method ServeOne(window: DrainableWindow, world: World, report: Report, stall: bool)
      returns (fate: Fate, after: Report, stalling: bool)
      requires drain.Valid() && drain.phase.Idle?
      modifies drain
      ensures drain.Valid() && drain.phase.Idle? && drain.start == old(drain.start) && old(drain.run) <= drain.run
      ensures fate.None? <==> window.dataset != DATASET
      ensures fate.Some? ==> Attempted(drain.start, drain.run, window, fate)
      ensures forall q :: OneMore(old(drain.At(q).lake), drain.At(q).lake, q, window)
      ensures after.eligible == report.eligible
      ensures after.committed == report.committed + if IsCommitted(fate) then 1 else 0
      ensures after.requeued == report.requeued + if IsRequeued(fate) then 1 else 0
      ensures stalling <==> stall || fate == Some(Requeue(CatalogUnavailable))
    {
      fate := DrainOne(window, world);
      after, stalling := report, stall;
      if fate.Some? {
        match fate.value {
          case Committed(_) => after := after.(committed := after.committed + 1);
          case AlreadyCommitted => after := after.(committed := after.committed + 1);
          case Requeue(reason) =>
            after := after.(requeued := after.requeued + 1);
            if reason == CatalogUnavailable {
              stalling := true;
            }
          case Failed(_) => after := after.(requeued := after.requeued + 1);
        }
      }
    }

    /** One pass; `offered` is None when the seal surface cannot enumerate. */
    method DrainOnce(offered: Option<seq<DrainableWindow>>, now: I64, lateness: I64, worlds: seq<World>)
      returns (report: Report, fates: seq<Fate>)
      requires drain.Valid() && drain.phase.Idle?
      requires offered.Some? ==> |worlds| == |offered.value|
      modifies this, drain
      ensures drain.Valid() && drain.phase.Idle? && drain.start == old(drain.start) && old(drain.run) <= drain.run
      ensures offered.None? ==> stalled && report == Report(0, 0, 0) && fates == []
      ensures offered.Some? ==>
                var eligible := Eligible(now, lateness, offered.value);
                && |fates| == |eligible| == report.eligible
                && Served(drain.start, drain.run, eligible, fates)
                && report.committed == Count(fates, IsCommitted)
                && report.requeued == Count(fates, IsRequeued)
                && (stalled <==> Some(Requeue(CatalogUnavailable)) in fates)
                && forall q :: OnlyOffered(old(drain.At(q).lake), drain.At(q).lake, q, eligible)
    {
      fates := [];
      if offered.None? {
        stalled := true;
        return Report(0, 0, 0), [];
      }
      var eligible := Eligible(now, lateness, offered.value);
      EligibleShort(now, lateness, offered.value);
      report := Report(|eligible|, 0, 0);
      var stall := false;
      for i := 0 to |eligible|
        invariant drain.Valid() && drain.phase.Idle? && drain.start == old(drain.start) && old(drain.run) <= drain.run
        invariant |fates| == i && report.eligible == |eligible|
        invariant Served(drain.start, drain.run, eligible, fates)
        invariant report.committed == Count(fates, IsCommitted)
        invariant report.requeued == Count(fates, IsRequeued)
        invariant stall <==> Some(Requeue(CatalogUnavailable)) in fates
        invariant forall q :: OnlyOffered(old(drain.At(q).lake), drain.At(q).lake, q, eligible)
      {
        label before:
        var fate;
        fate, report, stall := ServeOne(eligible[i], worlds[i], report, stall);
        forall q ensures OnlyOffered(old(drain.At(q).lake), drain.At(q).lake, q, eligible) {
          OfferGrows(old(drain.At(q).lake), old@before(drain.At(q).lake), drain.At(q).lake, q, eligible, eligible[i]);
        }
        ServedSnoc(drain.start, old@before(drain.run), drain.run, eligible, fates, fate);
        CountSnoc(fates, fate);
        fates := fates + [fate];
      }
      stalled := stall;
    }
  }

  lemma {:induction false} EligibleShort(now: I64, lateness: I64, offered: seq<DrainableWindow>)
    ensures |Eligible(now, lateness, offered)| <= |offered|
  {
    if offered != [] {
      EligibleShort(now, lateness, offered[1..]);
    }
  }

  /** committed + requeued + unplanned = eligible. */
  lemma {:induction false} TickConserves(fates: seq<Fate>)
    ensures Count(fates, IsCommitted) + Count(fates, IsRequeued) + Count(fates, IsUnplanned) == |fates|
  {
    if fates != [] {
      TickConserves(fates[..|fates| - 1]);
    }
  }

  /**
   Whatever the offer order: every window a tick registers was offered and is registered once.
   As long as no commit skips, and none does while verdicts are right, the tick extends each
   partition's registered prefix consecutively and nothing passes an unregistered window.
   */
  lemma TickExtendsPrefix(run: seq<Event>, p: Id, before: seq<Manifest>, eligible: seq<DrainableWindow>, w: nat)
    requires Legal(INIT, run) && OnlyOffered(before, Of(Exec(INIT, run), p).lake, p, eligible)
    ensures OnePerWindow(Of(Exec(INIT, run), p).lake)
    ensures TrueVerdicts(INIT, run) ==> NoneSkips(INIT, run, p)
    ensures NoneSkips(INIT, run, p) ==>
              var s := Exec(INIT, run);
              && (|before| <= w < |Of(s, p).lake| ==>
                    exists d <- eligible :: d.dataset == DATASET && d.partition == p && d.window == w)
              && (!Registered(s, p, w) ==> forall v | v > w :: !Registered(s, p, v))
  {
    assert forall q :: Of(INIT, q) == EMPTY;
    OnePartPerWindow(run, p);
    if TrueVerdicts(INIT, run) {
      RightVerdictsNeverSkip(INIT, run, p);
    }
    if NoneSkips(INIT, run, p) {
      var s := Exec(INIT, run);
      StaysInOrderExactlyWhen(run, p);
      InOrderAtEnd(INIT, run, p);
      assert |before| <= w < |Of(s, p).lake| ==> Of(s, p).lake[w].window == w;
      forall v: nat ensures Registered(s, p, v) <==> v < |Of(s, p).lake| {
        OrderedRegistered(s, p, v);
      }
    }
  }
}
