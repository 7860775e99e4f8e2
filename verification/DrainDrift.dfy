/**
 What a retry that seals a late row with the rest can do after a commit landed unseen. In two
 runs every verdict is right and no process dies, and yet the lake's watermark row falls, or
 claims more than the registered windows prove. In a third the retry is judged lost although
 its window is registered, and in the last a window is skipped for good.
 */
module DrainDrift {
  import opened Options
  import opened Naming
  import opened Ledger
  import opened Drain
  import opened DrainLoss
  import opened DrainSafety
  import opened DrainHonesty
  import opened DrainRecord

  /** Between attempts, with this partition looking like this. */
  predicate Rests(s: Node, p: Id, sh: Shard) {
    s.phase.Idle? && Of(s, p) == sh
  }

  /** An event of the runs below: no process dies, and no read-back succeeds that could mislead. */
  predicate Blameless(e: Event) {
    e != ReadBack(true) && e != Crash
  }

  ghost predicate Reaches(s: Node, run: seq<Event>, s': Node) {
    Takes(s, run, s') && forall i | 0 <= i < |run| :: Blameless(run[i])
  }

  lemma ThenReaches(s: Node, a: seq<Event>, s1: Node, b: seq<Event>, s2: Node)
    requires Reaches(s, a, s1) && Reaches(s1, b, s2)
    ensures Reaches(s, a + b, s2)
  {
    Then(s, a, s1, b, s2);
  }

  /** So all verdicts of such a run are right, and it loses nothing. */
  lemma {:induction false} BlamelessVerdicts(s: Node, run: seq<Event>)
    requires Legal(s, run) && forall i | 0 <= i < |run| :: Blameless(run[i])
    ensures TrueVerdicts(s, run)
    decreases |run|
  {
    if run != [] {
      assert Blameless(run[0]);
      BlamelessVerdicts(Step(s, run[0]), run[1..]);
    }
  }

  // ------------------------------------------------------- pieces of a run

  lemma Receives(s: Node, p: Id, sh: Shard, w: nat, row: Row) returns (run: seq<Event>, s': Node)
    requires Rests(s, p, sh) && row.id !in Ids(sh.ever)
    ensures Reaches(s, run, s') && Rests(s', p, Received(sh, w, row))
  {
    run := [Arrive(p, w, row)];
    One(s, Arrive(p, w, row));
    s' := Step(s, Arrive(p, w, row));
  }

  /** The window can be sealed and the ledger would admit it. */
  predicate Next(sh: Shard, p: Id, w: nat, man: Manifest) {
    && w == |sh.ledger| && w in sh.staging && man == ManifestOf(p, w, sh.staging[w])
    && Admit(sh.ledger, man).None?
  }

  lemma Commits(s: Node, p: Id, sh: Shard, w: nat, man: Manifest) returns (run: seq<Event>, s': Node)
    requires Rests(s, p, sh) && Next(sh, p, w, man)
    ensures Reaches(s, run, s') && Of(s', p) == sh
    ensures s'.phase ==
            Committing(Attempt(p, w, Watermark(sh.ledger), sh.staging[w], man), Watermark(sh.ledger + [man]))
  {
    run := UpToCommit(p, w);
    s' := s.(objects := s.objects[man.part := sh.staging[w]],
             phase := Committing(Attempt(p, w, Watermark(sh.ledger), sh.staging[w], man), Watermark(sh.ledger + [man])),
             journal := [SealPart, PutPart]);
    ReachesCommit(s, p, w, sh.staging[w], man, Watermark(sh.ledger + [man]), s');
  }

  /** The commit lands; its answer and the read-back are both lost. */
  lemma LandsUnseen(s: Node, p: Id, sh: Shard, w: nat, man: Manifest) returns (run: seq<Event>, s': Node)
    requires Rests(s, p, sh) && Next(sh, p, w, man)
    ensures Reaches(s, run, s') && Rests(s', p, Register(sh, man, Watermark(sh.ledger + [man])))
  {
    var r1, s1 := Commits(s, p, sh, w, man);
    Two(s1, Commit(LostLanded), ReadBack(false));
    s' := Step(Step(s1, Commit(LostLanded)), ReadBack(false));
    ThenReaches(s, r1, s1, [Commit(LostLanded), ReadBack(false)], s');
    run := r1 + [Commit(LostLanded), ReadBack(false)];
  }

  function Booked(sh: Shard, w: nat, man: Manifest): Shard {
    var landed := Register(sh, man, Watermark(sh.ledger + [man]));
    landed.(ledger := sh.ledger + [man], staging := DropRows(sh.staging, w, man.coverage))
  }

  /** The commit is accepted, whether it registers or finds itself registered, then recorded and dropped. */
  lemma Completes(s: Node, p: Id, sh: Shard, w: nat, man: Manifest) returns (run: seq<Event>, s': Node)
    requires Rests(s, p, sh) && Next(sh, p, w, man)
    ensures Reaches(s, run, s') && Rests(s', p, Booked(sh, w, man))
    ensures s'.phase == Idle(Some(Committed(Watermark(sh.ledger + [man]))))
  {
    var r1, s1 := Commits(s, p, sh, w, man);
    var r2, s2 := Accepts(s1, p, sh, w, man);
    var r3, s3 := Drops(s2, p);
    ThenReaches(s, r1, s1, r2, s2);
    ThenReaches(s, r1 + r2, s2, r3, s3);
    run, s' := r1 + r2 + r3, s3;
  }

  lemma Accepts(s: Node, p: Id, sh: Shard, w: nat, man: Manifest) returns (run: seq<Event>, s': Node)
    requires Of(s, p) == sh && man.window == w && Admit(sh.ledger, man).None?
    requires s.phase.Committing? && s.phase.a.partition == p && s.phase.a.window == w && s.phase.a.man == man
    requires s.phase.preview == Watermark(sh.ledger + [man])
    ensures Reaches(s, run, s')
    ensures Of(s', p) == Register(sh, man, Watermark(sh.ledger + [man])).(ledger := sh.ledger + [man])
    ensures s'.phase == Dropping(p, w, man.coverage, Committed(Watermark(sh.ledger + [man])))
  {
    var s1 := Step(s, Commit(Accepted));
    assert Of(s1, p) == Register(sh, man, Watermark(sh.ledger + [man])) && s1.phase == Recording(s.phase.a, false);
    Two(s, Commit(Accepted), Record);
    run, s' := [Commit(Accepted), Record], Step(s1, Record);
  }

  lemma Drops(s: Node, p: Id) returns (run: seq<Event>, s': Node)
    requires s.phase.Dropping? && s.phase.partition == p
    ensures Reaches(s, run, s') && s'.phase == Idle(Some(s.phase.outcome))
    ensures Of(s', p) == Of(s, p).(staging := DropRows(Of(s, p).staging, s.phase.window, s.phase.covered))
  {
    One(s, Drop(true, true));
    run, s' := [Drop(true, true)], Step(s, Drop(true, true));
  }

  // -------------------------------------------------- manifests and previews

  function Seq(n: nat): RowId { RowId([], n) }

  /** The coverage is exactly the first n seqs of the one origin. */
  lemma FirstSeqs(cov: set<RowId>, n: nat)
    requires forall id :: id in cov <==> id.origin == [] && 1 <= id.num <= n
    ensures GapFree(cov, {})
  {
    forall id <- cov, j | 1 <= j < id.num ensures Accounted(cov, {}, id.origin, j) {
      assert RowId(id.origin, j) in cov;
    }
  }

  lemma MissingSeq(cov: set<RowId>, j: nat, k: nat)
    requires 1 <= j < k && Seq(k) in cov && Seq(j) !in cov
    ensures !GapFree(cov, {})
  {
    assert !Accounted(cov, {}, [], j);
  }

  lemma SealOf(w: nat, rows: set<Row>, ids: set<RowId>, ts: int)
    requires Ids(rows) == ids && IsLatest(rows, ts)
    ensures var m := ManifestOf(P, w, rows);
            m.window == w && m.part == Primary(P, w) && m.coverage == ids && m.eventMax == ts
  {
    LatestIs(rows, ts);
  }

  /** What a commit of this manifest previews. */
  lemma PreviewIs(ledger: seq<Manifest>, m: Manifest)
    ensures Coverage(ledger + [m]) == Coverage(ledger) + m.coverage
    ensures MaxEvent(ledger + [m]) == if ledger == [] then m.eventMax else Max(MaxEvent(ledger), m.eventMax)
    ensures Watermark(ledger + [m]) ==
            if GapFree(Coverage(ledger) + m.coverage, {}) then Some(MaxEvent(ledger + [m])) else Watermark(ledger)
  {
    Snoc(ledger, m);
    WatermarkAfter(ledger, m);
  }

  lemma Admissible(ledger: seq<Manifest>, m: Manifest)
    requires m.window == |ledger| && m.coverage * Coverage(ledger) == {} && forall id <- m.coverage :: id.num != 0
    ensures Admit(ledger, m).None?
  {
  }

  // ------------------------------------------------------------- overclaiming

  const A1 := Row(RowId([], 1), 10)
  const A2 := Row(RowId([], 2), 10)
  const A3 := Row(RowId([], 3), 20)

  /** Window 0 seals seq 1, its retry seqs 1 and 2, window 1 seals seq 3. */
  lemma OverclaimSeals()
    ensures var m := ManifestOf(P, 0, {A1});
            m.window == 0 && m.part == Primary(P, 0) && m.coverage == {Seq(1)} && m.eventMax == 10
    ensures var m := ManifestOf(P, 0, {A1, A2});
            m.window == 0 && m.part == Primary(P, 0) && m.coverage == {Seq(1), Seq(2)} && m.eventMax == 10
    ensures var m := ManifestOf(P, 1, {A3});
            m.window == 1 && m.part == Primary(P, 1) && m.coverage == {Seq(3)} && m.eventMax == 20
  {
    SealOf(0, {A1}, {Seq(1)}, 10);
    SealOf(0, {A1, A2}, {Seq(1), Seq(2)}, 10);
    SealOf(1, {A3}, {Seq(3)}, 20);
  }

  /** The row the last commit carries, and what the lake's two manifests prove. */
  lemma OverclaimPreviews(m0: Manifest, retry: Manifest, m1: Manifest)
    requires m0.coverage == {Seq(1)} && m0.eventMax == 10
    requires retry.coverage == {Seq(1), Seq(2)} && retry.eventMax == 10
    requires m1.coverage == {Seq(3)} && m1.eventMax == 20
    ensures Coverage([]) == {} && Coverage([] + [retry]) == {Seq(1), Seq(2)}
    ensures Watermark([] + [m0]) == Some(10) && Watermark([] + [retry] + [m1]) == Some(20)
    ensures Watermark([] + [m0] + [m1]) == Some(10)
  {
    PreviewIs([], m0);
    PreviewIs([], retry);
    PreviewIs([] + [retry], m1);
    PreviewIs([] + [m0], m1);
    FirstSeqs(Coverage([]) + m0.coverage, 1);
    FirstSeqs(Coverage([] + [retry]) + m1.coverage, 3);
    MissingSeq(Coverage([] + [m0]) + m1.coverage, 2, 3);
  }

  /** A run whose row ends at 20 while the registered windows prove no more than 10. */
  lemma OverclaimingRun() returns (run: seq<Event>, s: Node)
    ensures Reaches(INIT, run, s) && TrueVerdicts(INIT, run) && !HonestMark(Of(s, P))
    ensures Of(s, P).lakeMark == Some(20) && Watermark(Of(s, P).lake) == Some(10)
  {
    var m0, retry, m1 := ManifestOf(P, 0, {A1}), ManifestOf(P, 0, {A1, A2}), ManifestOf(P, 1, {A3});
    OverclaimSeals();
    OverclaimPreviews(m0, retry, m1);
    var r1, s1 := LandsUnseenFirst(m0);
    var r2, s2 := RetryWithLateRow(s1, m0, retry);
    ThenReaches(INIT, r1, s1, r2, s2);
    var sh := Shard(map[1 := {A3}], [] + [m0], Some(10), [] + [retry], {A1, A2, A3});
    Admissible([] + [retry], m1);
    var r3;
    r3, s := Completes(s2, P, sh, 1, m1);
    ThenReaches(INIT, r1 + r2, s2, r3, s);
    run := r1 + r2 + r3;
    BlamelessVerdicts(INIT, run);
    HonestMarkIsRule(Of(s, P));
    assert !IsRegistered([] + [m0], 1, Primary(P, 1));
  }

  lemma LandsUnseenFirst(m0: Manifest) returns (run: seq<Event>, s: Node)
    requires m0 == ManifestOf(P, 0, {A1}) && m0.window == 0 && m0.coverage == {Seq(1)}
    requires Watermark([] + [m0]) == Some(10) && Coverage([]) == {}
    ensures Reaches(INIT, run, s)
    ensures Rests(s, P, Shard(map[0 := {A1}], [] + [m0], Some(10), [], {A1}))
  {
    var none: set<Row> := {};
    assert none + {A1} == {A1};
    var r1, s1 := Receives(INIT, P, EMPTY, 0, A1);
    var sh := Shard(map[0 := {A1}], [], None, [], {A1});
    assert Received(EMPTY, 0, A1) == sh;
    Admissible([], m0);
    var r2;
    r2, s := LandsUnseen(s1, P, sh, 0, m0);
    ThenReaches(INIT, r1, s1, r2, s);
    run := r1 + r2;
  }

  lemma RetryWithLateRow(s: Node, m0: Manifest, retry: Manifest) returns (run: seq<Event>, s': Node)
    requires Rests(s, P, Shard(map[0 := {A1}], [] + [m0], Some(10), [], {A1}))
    requires m0.window == 0 && m0.part == Primary(P, 0)
    requires retry == ManifestOf(P, 0, {A1, A2}) && retry.window == 0 && retry.part == Primary(P, 0)
    requires retry.coverage == {Seq(1), Seq(2)} && Coverage([]) == {}
    ensures Reaches(s, run, s')
    ensures Rests(s', P, Shard(map[1 := {A3}], [] + [m0], Some(10), [] + [retry], {A1, A2, A3}))
  {
    var sh := Shard(map[0 := {A1, A2}, 1 := {A3}], [] + [m0], Some(10), [], {A1, A2, A3});
    var r1, s1 := LateRowArrives(s, [] + [m0]);
    Admissible([], retry);
    var r2;
    r2, s' := Completes(s1, P, sh, 0, retry);
    ThenReaches(s, r1, s1, r2, s');
    run := r1 + r2;
    RetryRecorded(sh, m0, retry);
  }

  lemma RetryRecorded(sh: Shard, m0: Manifest, retry: Manifest)
    requires sh.staging == map[0 := {A1, A2}, 1 := {A3}] && sh.lake == [] + [m0]
    requires m0.window == retry.window && m0.part == retry.part && retry.coverage == {Seq(1), Seq(2)}
    ensures Booked(sh, 0, retry) == sh.(ledger := sh.ledger + [retry], staging := map[1 := {A3}])
  {
    assert m0 in [] + [m0];
    assert IsRegistered(sh.lake, retry.window, retry.part);
    assert Uncovered({A1, A2}, {Seq(1), Seq(2)}) == {};
    assert sh.staging - {0} == map[1 := {A3}];
  }

  lemma LateRowArrives(s: Node, lake: seq<Manifest>) returns (run: seq<Event>, s': Node)
    requires Rests(s, P, Shard(map[0 := {A1}], lake, Some(10), [], {A1}))
    ensures Reaches(s, run, s')
    ensures Rests(s', P, Shard(map[0 := {A1, A2}, 1 := {A3}], lake, Some(10), [], {A1, A2, A3}))
  {
    var sh0 := Shard(map[0 := {A1}], lake, Some(10), [], {A1});
    var sh1 := Shard(map[0 := {A1, A2}], lake, Some(10), [], {A1, A2});
    assert {A1} + {A2} == {A1, A2} && {A1, A2} + {A3} == {A1, A2, A3};
    var none: set<Row> := {};
    assert none + {A3} == {A3};
    var r1, s1 := Receives(s, P, sh0, 0, A2);
    assert Received(sh0, 0, A2) == sh1;
    var r2;
    r2, s' := Receives(s1, P, sh1, 1, A3);
    ThenReaches(s, r1, s1, r2, s');
    run := r1 + r2;
  }

  // ------------------------------------------------------------------ falling

  const B1 := Row(RowId([], 1), 10)
  const B2 := Row(RowId([], 2), 50)
  const B3 := Row(RowId([], 3), 60)
  const B4 := Row(RowId([], 4), 50)
  const B5 := Row(RowId([], 5), 55)

  /** Window 0 seals seq 1, window 1 seq 2, its retry seqs 2 and 4, window 2 seq 5. */
  lemma FallSeals()
    ensures var m := ManifestOf(P, 0, {B1});
            m.window == 0 && m.part == Primary(P, 0) && m.coverage == {Seq(1)} && m.eventMax == 10
    ensures var m := ManifestOf(P, 1, {B2});
            m.window == 1 && m.part == Primary(P, 1) && m.coverage == {Seq(2)} && m.eventMax == 50
    ensures var m := ManifestOf(P, 1, {B2, B4});
            m.window == 1 && m.part == Primary(P, 1) && m.coverage == {Seq(2), Seq(4)} && m.eventMax == 50
    ensures var m := ManifestOf(P, 2, {B5});
            m.window == 2 && m.part == Primary(P, 2) && m.coverage == {Seq(5)} && m.eventMax == 55
  {
    SealOf(0, {B1}, {Seq(1)}, 10);
    SealOf(1, {B2}, {Seq(2)}, 50);
    SealOf(1, {B2, B4}, {Seq(2), Seq(4)}, 50);
    SealOf(2, {B5}, {Seq(5)}, 55);
  }

  lemma FallPreviews(m0: Manifest, m1: Manifest, retry: Manifest, m2: Manifest)
    requires m0.coverage == {Seq(1)} && m0.eventMax == 10 && m1.coverage == {Seq(2)} && m1.eventMax == 50
    requires retry.coverage == {Seq(2), Seq(4)} && m2.coverage == {Seq(5)}
    ensures Coverage([]) == {} && Coverage([] + [m0]) == {Seq(1)}
    ensures Coverage([] + [m0] + [retry]) == {Seq(1), Seq(2), Seq(4)}
    ensures Watermark([] + [m0]) == Some(10) && Watermark([] + [m0] + [m1]) == Some(50)
    ensures Watermark([] + [m0] + [retry] + [m2]) == Some(10)
  {
    PreviewIs([], m0);
    PreviewIs([] + [m0], m1);
    PreviewIs([] + [m0], retry);
    PreviewIs([] + [m0] + [retry], m2);
    FirstSeqs(Coverage([]) + m0.coverage, 1);
    FirstSeqs(Coverage([] + [m0]) + m1.coverage, 2);
    MissingSeq(Coverage([] + [m0]) + retry.coverage, 3, 4);
    MissingSeq(Coverage([] + [m0] + [retry]) + m2.coverage, 3, 4);
  }

  /** A run after which the row stands at 50, and a continuation after which it stands at 10. */
  lemma FallingRun() returns (run: seq<Event>, s: Node, more: seq<Event>, s': Node)
    ensures Reaches(INIT, run, s) && Reaches(s, more, s')
    ensures Reaches(INIT, run + more, s') && TrueVerdicts(INIT, run + more)
    ensures Of(s, P).lakeMark == Some(50) && Of(s', P).lakeMark == Some(10) && !NeverFalls(s, more, P)
  {
    var m0, m1 := ManifestOf(P, 0, {B1}), ManifestOf(P, 1, {B2});
    var retry, m2 := ManifestOf(P, 1, {B2, B4}), ManifestOf(P, 2, {B5});
    FallSeals();
    FallPreviews(m0, m1, retry, m2);
    var r1, s1 := FirstWindow(m0);
    var r2, s2 := SecondWindow(s1, m0, m1);
    ThenReaches(INIT, r1, s1, r2, s2);
    run, s := r1 + r2, s2;
    var r3, s3 := LateRowsArrive(s2, [] + [m0] + [m1], [] + [m0]);
    var r4, s4 := SecondRetried(s3, m0, m1, retry);
    ThenReaches(s2, r3, s3, r4, s4);
    var r5, s5 := ThirdWindow(s4, m0, m1, retry, m2);
    ThenReaches(s2, r3 + r4, s4, r5, s5);
    more, s' := r3 + r4 + r5, s5;
    ThenReaches(INIT, run, s, more, s');
    BlamelessVerdicts(INIT, run + more);
    if NeverFalls(s, more, P) {
      NeverFallsBetween(s, more, P);
    }
  }

  lemma FirstWindow(m0: Manifest) returns (run: seq<Event>, s: Node)
    requires m0 == ManifestOf(P, 0, {B1}) && m0.window == 0 && m0.coverage == {Seq(1)}
    requires Watermark([] + [m0]) == Some(10) && Coverage([]) == {}
    ensures Reaches(INIT, run, s)
    ensures Rests(s, P, Shard(map[], [] + [m0], Some(10), [] + [m0], {B1}))
  {
    var none: set<Row> := {};
    assert none + {B1} == {B1};
    var r1, s1 := Receives(INIT, P, EMPTY, 0, B1);
    var sh := Shard(map[0 := {B1}], [], None, [], {B1});
    assert Received(EMPTY, 0, B1) == sh;
    Admissible([], m0);
    var r2;
    r2, s := Completes(s1, P, sh, 0, m0);
    ThenReaches(INIT, r1, s1, r2, s);
    run := r1 + r2;
    assert Uncovered({B1}, {Seq(1)}) == {};
    assert sh.staging - {0} == map[];
  }

  lemma SecondWindow(s: Node, m0: Manifest, m1: Manifest) returns (run: seq<Event>, s': Node)
    requires Rests(s, P, Shard(map[], [] + [m0], Some(10), [] + [m0], {B1}))
    requires m0.window == 0 && m1 == ManifestOf(P, 1, {B2}) && m1.window == 1 && m1.coverage == {Seq(2)}
    requires Watermark([] + [m0] + [m1]) == Some(50) && Coverage([] + [m0]) == {Seq(1)}
    ensures Reaches(s, run, s')
    ensures Rests(s', P, Shard(map[1 := {B2}], [] + [m0] + [m1], Some(50), [] + [m0], {B1, B2}))
  {
    var none: set<Row> := {};
    assert none + {B2} == {B2} && {B1} + {B2} == {B1, B2};
    var sh0 := Shard(map[], [] + [m0], Some(10), [] + [m0], {B1});
    var sh1 := Shard(map[1 := {B2}], [] + [m0], Some(10), [] + [m0], {B1, B2});
    var r1, s1 := Receives(s, P, sh0, 1, B2);
    assert Received(sh0, 1, B2) == sh1;
    Admissible([] + [m0], m1);
    var r2;
    r2, s' := LandsUnseen(s1, P, sh1, 1, m1);
    ThenReaches(s, r1, s1, r2, s');
    run := r1 + r2;
  }

  lemma LateRowsArrive(s: Node, lake: seq<Manifest>, ledger: seq<Manifest>) returns (run: seq<Event>, s': Node)
    requires Rests(s, P, Shard(map[1 := {B2}], lake, Some(50), ledger, {B1, B2}))
    ensures Reaches(s, run, s')
    ensures Rests(s', P, Shard(map[1 := {B2, B4}, 2 := {B5}, 3 := {B3}], lake, Some(50), ledger, {B1, B2, B3, B4, B5}))
  {
    var ever := {B1, B2} + {B3} + {B4};
    var sh := Shard(map[1 := {B2, B4}, 3 := {B3}], lake, Some(50), ledger, ever);
    var r1, s1 := GapArrives(s, lake, ledger);
    var none: set<Row> := {};
    assert none + {B5} == {B5};
    var r2;
    r2, s' := Receives(s1, P, sh, 2, B5);
    ThenReaches(s, r1, s1, r2, s');
    run := r1 + r2;
    assert ever + {B5} == {B1, B2, B3, B4, B5};
    assert sh.staging[2 := {B5}] == map[1 := {B2, B4}, 2 := {B5}, 3 := {B3}];
  }

  lemma GapArrives(s: Node, lake: seq<Manifest>, ledger: seq<Manifest>) returns (run: seq<Event>, s': Node)
    requires Rests(s, P, Shard(map[1 := {B2}], lake, Some(50), ledger, {B1, B2}))
    ensures Reaches(s, run, s')
    ensures Rests(s', P, Shard(map[1 := {B2, B4}, 3 := {B3}], lake, Some(50), ledger, {B1, B2} + {B3} + {B4}))
  {
    var none: set<Row> := {};
    assert none + {B3} == {B3} && {B2} + {B4} == {B2, B4};
    var sh0 := Shard(map[1 := {B2}], lake, Some(50), ledger, {B1, B2});
    var sh1 := Shard(map[1 := {B2}, 3 := {B3}], lake, Some(50), ledger, {B1, B2} + {B3});
    var r1, s1 := Receives(s, P, sh0, 3, B3);
    assert Received(sh0, 3, B3) == sh1;
    var r2;
    r2, s' := Receives(s1, P, sh1, 1, B4);
    ThenReaches(s, r1, s1, r2, s');
    run := r1 + r2;
    assert sh1.staging[1 := {B2, B4}] == map[1 := {B2, B4}, 3 := {B3}];
  }

  lemma SecondRetried(s: Node, m0: Manifest, m1: Manifest, retry: Manifest) returns (run: seq<Event>, s': Node)
    requires Rests(s, P, Shard(map[1 := {B2, B4}, 2 := {B5}, 3 := {B3}], [] + [m0] + [m1], Some(50), [] + [m0],
                               {B1, B2, B3, B4, B5}))
    requires m0.window == 0 && m1.window == 1 && m1.part == Primary(P, 1)
    requires retry == ManifestOf(P, 1, {B2, B4}) && retry.window == 1 && retry.part == Primary(P, 1)
    requires retry.coverage == {Seq(2), Seq(4)} && Coverage([] + [m0]) == {Seq(1)}
    ensures Reaches(s, run, s')
    ensures Rests(s', P, Shard(map[2 := {B5}, 3 := {B3}], [] + [m0] + [m1], Some(50), [] + [m0] + [retry],
                               {B1, B2, B3, B4, B5}))
  {
    Admissible([] + [m0], retry);
    run, s' := Completes(s, P, Of(s, P), 1, retry);
    SecondRecorded(Of(s, P), m0, m1, retry);
  }

  lemma SecondRecorded(sh: Shard, m0: Manifest, m1: Manifest, retry: Manifest)
    requires sh.staging == map[1 := {B2, B4}, 2 := {B5}, 3 := {B3}] && sh.lake == [] + [m0] + [m1]
    requires m1.window == retry.window && m1.part == retry.part && retry.coverage == {Seq(2), Seq(4)}
    ensures Booked(sh, 1, retry) == sh.(ledger := sh.ledger + [retry], staging := map[2 := {B5}, 3 := {B3}])
  {
    assert m1 in [] + [m0] + [m1];
    assert IsRegistered(sh.lake, retry.window, retry.part);
    assert Uncovered({B2, B4}, {Seq(2), Seq(4)}) == {};
    assert sh.staging - {1} == map[2 := {B5}, 3 := {B3}];
  }

  lemma ThirdWindow(s: Node, m0: Manifest, m1: Manifest, retry: Manifest, m2: Manifest)
    returns (run: seq<Event>, s': Node)
    requires Rests(s, P, Shard(map[2 := {B5}, 3 := {B3}], [] + [m0] + [m1], Some(50), [] + [m0] + [retry],
                               {B1, B2, B3, B4, B5}))
    requires m0.window == 0 && m1.window == 1 && m2 == ManifestOf(P, 2, {B5}) && m2.window == 2
    requires m2.coverage == {Seq(5)} && Coverage([] + [m0] + [retry]) == {Seq(1), Seq(2), Seq(4)}
    requires Watermark([] + [m0] + [retry] + [m2]) == Some(10)
    ensures Reaches(s, run, s') && Of(s', P).lakeMark == Some(10)
  {
    Admissible([] + [m0] + [retry], m2);
    run, s' := Completes(s, P, Of(s, P), 2, m2);
  }

  // ------------------------------------------------------------- a false "lost"

  const C2 := Row(RowId([], 2), 50)

  /**
   A retry that previews more than the registered attempt, and whose own commit aborts: judged
   lost, requeued, and registered all along.
   */
  lemma FalseLostRun() returns (run: seq<Event>, s: Node)
    ensures Takes(INIT, run, s) && TrueVerdicts(INIT, run)
    ensures s.phase == Idle(Some(Requeue(RejectedByBackend))) && Registered(s, P, 0)
  {
    var m0, retry := ManifestOf(P, 0, {A1}), ManifestOf(P, 0, {A1, C2});
    SealOf(0, {A1}, {Seq(1)}, 10);
    SealOf(0, {A1, C2}, {Seq(1), Seq(2)}, 50);
    PreviewIs([], m0);
    PreviewIs([], retry);
    FirstSeqs(Coverage([]) + m0.coverage, 1);
    FirstSeqs(Coverage([]) + retry.coverage, 2);
    var r1, s1 := LandsUnseenFirst(m0);
    var r2, s2 := RetryPreviewsMore(s1, m0, retry);
    ThenReaches(INIT, r1, s1, r2, s2);
    BlamelessVerdicts(INIT, r1 + r2);
    var r3;
    r3, s := JudgedLost(s2, m0, retry);
    Then(INIT, r1 + r2, s2, r3, s);
    run := r1 + r2 + r3;
    TrueThroughout(INIT, r1 + r2, s2, r3);
  }

  lemma RetryPreviewsMore(s: Node, m0: Manifest, retry: Manifest) returns (run: seq<Event>, s': Node)
    requires Rests(s, P, Shard(map[0 := {A1}], [] + [m0], Some(10), [], {A1}))
    requires retry == ManifestOf(P, 0, {A1, C2}) && retry.window == 0 && retry.coverage == {Seq(1), Seq(2)}
    requires Coverage([]) == {} && Watermark([] + [retry]) == Some(50)
    ensures Reaches(s, run, s')
    ensures Of(s', P) == Shard(map[0 := {A1, C2}], [] + [m0], Some(10), [], {A1, C2})
    ensures s'.phase == Committing(Attempt(P, 0, None, {A1, C2}, retry), Some(50))
  {
    var sh0 := Shard(map[0 := {A1}], [] + [m0], Some(10), [], {A1});
    var sh1 := Shard(map[0 := {A1, C2}], [] + [m0], Some(10), [], {A1, C2});
    assert {A1} + {C2} == {A1, C2};
    var r1, s1 := Receives(s, P, sh0, 0, C2);
    assert Received(sh0, 0, C2) == sh1;
    Admissible([], retry);
    assert Watermark([]) == None;
    var r2;
    r2, s' := Commits(s1, P, sh1, 0, retry);
    ThenReaches(s, r1, s1, r2, s');
    run := r1 + r2;
  }

  lemma JudgedLost(s: Node, m0: Manifest, retry: Manifest) returns (run: seq<Event>, s': Node)
    requires Of(s, P).lake == [] + [m0] && Of(s, P).lakeMark == Some(10)
    requires m0.window == 0 && m0.part == Primary(P, 0)
    requires s.phase == Committing(Attempt(P, 0, None, {A1, C2}, retry), Some(50))
    ensures Takes(s, run, s') && TrueVerdicts(s, run)
    ensures s'.phase == Idle(Some(Requeue(RejectedByBackend))) && Registered(s', P, 0)
  {
    run := [Commit(Rejected), ReadBack(true)];
    Two(s, Commit(Rejected), ReadBack(true));
    var s1 := Step(s, Commit(Rejected));
    s' := Step(s1, ReadBack(true));
    assert m0 in [] + [m0];
    assert TrueVerdict(s, Commit(Rejected)) && TrueVerdict(s1, ReadBack(true));
    assert run[1..] == [ReadBack(true)] && run[1..][1..] == [];
    assert TrueVerdicts(s', []);
    assert TrueVerdicts(s1, run[1..]);
  }

  lemma {:induction false} TrueThroughout(s: Node, a: seq<Event>, s1: Node, b: seq<Event>)
    requires Takes(s, a, s1) && TrueVerdicts(s, a) && Legal(s1, b) && TrueVerdicts(s1, b) && Legal(s, a + b)
    ensures TrueVerdicts(s, a + b)
    decreases |a|
  {
    if a == [] {
      assert a + b == b;
    } else {
      assert (a + b)[1..] == a[1..] + b;
      TrueThroughout(Step(s, a[0]), a[1..], s1, b);
    }
  }

  // ------------------------------------------------------------- a skipped window

  const R4 := Row(RowId([], 4), 5)

  /** After the loss the next commit registers window 2 over the hole at 1, and the ledger leads the lake. */
  lemma SkippingRun() returns (run: seq<Event>, s: Node)
    ensures Takes(INIT, run, s)
    ensures Registered(s, P, 2) && !Registered(s, P, 1) && !InOrder(Of(s, P).lake)
    ensures |Of(s, P).ledger| == 3 && |Of(s, P).lake| == 2 && !AheadByAtMostOne(s)
  {
    var r1 := UnsafeRun();
    var r2;
    r2, s := SkipsOver(Exec(INIT, r1));
    Then(INIT, r1, Exec(INIT, r1), r2, s);
    run := r1 + r2;
    SkippedRecord(s, ManifestOf(P, 2, {R4}));
  }

  lemma SkipsOver(s: Node) returns (run: seq<Event>, s': Node)
    requires Rests(s, P, SH_LOST)
    ensures Takes(s, run, s')
    ensures Of(s', P).lake == [M0] + [ManifestOf(P, 2, {R4})]
    ensures Of(s', P).ledger == [M0_RETRY, M1] + [ManifestOf(P, 2, {R4})]
  {
    var m2 := ManifestOf(P, 2, {R4});
    SealOf(2, {R4}, {Seq(4)}, 5);
    var none: set<Row> := {};
    assert none + {R4} == {R4};
    var r1, s1 := Receives(s, P, SH_LOST, 2, R4);
    var sh := Shard(map[2 := {R4}], [M0], Some(50), [M0_RETRY, M1], {R1, R2, R3} + {R4});
    assert Received(SH_LOST, 2, R4) == sh;
    LostCoverage();
    Admissible([M0_RETRY, M1], m2);
    var r2;
    r2, s' := Completes(s1, P, sh, 2, m2);
    Then(s, r1, s1, r2, s');
    run := r1 + r2;
  }

  lemma LostCoverage()
    ensures Coverage([M0_RETRY, M1]) == {Seq(1), Seq(2), Seq(3)}
  {
    RetryPreview();
    assert [M0_RETRY, M1] == [M0_RETRY] + [M1];
    Snoc([M0_RETRY], M1);
  }

  lemma SkippedRecord(s: Node, m2: Manifest)
    requires Of(s, P).lake == [M0] + [m2] && Of(s, P).ledger == [M0_RETRY, M1] + [m2]
    requires m2.window == 2 && m2.part == Primary(P, 2)
    ensures Registered(s, P, 2) && !Registered(s, P, 1) && !InOrder(Of(s, P).lake)
    ensures |Of(s, P).ledger| == 3 && |Of(s, P).lake| == 2 && !AheadByAtMostOne(s)
  {
    var lake := [M0] + [m2];
    assert lake[1] == m2 && m2 in lake;
    assert forall m <- lake :: m == M0 || m == m2;
  }
}
