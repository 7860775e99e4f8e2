/**
 A run that loses a row. A commit lands but its reply and its read-back are both
 lost; before the retry a late row reaches the same window, so the retry seals
 other rows than the lake registered and reveals a hole. The ledger's watermark
 then stands below the lake's row, and the next window's read-back mistakes that
 row for its own commit. No crash is involved.
 */
module DrainLoss {
  import opened Options
  import opened Naming
  import opened Ledger
  import opened Drain

  const P: Id := []
  const R1 := Row(RowId([], 1), 50)
  const R2 := Row(RowId([], 2), 5)
  const R3 := Row(RowId([], 3), 10)
  const M0 := Manifest(0, Primary(P, 0), {R1.id}, 1, 50)
  const M0_RETRY := Manifest(0, Primary(P, 0), {R1.id, R3.id}, 2, 50)
  const M1 := Manifest(1, Primary(P, 1), {R2.id}, 1, 5)

  function UpToCommit(p: Id, w: nat): seq<Event> {
    [Begin(p, w), Seal(true), Advance, Put(true, true)]
  }

  /** Window 0 seals row 1; the commit lands, its reply and the read-back are lost. */
  function Lands(): seq<Event> {
    [Arrive(P, 0, R1)] + UpToCommit(P, 0) + [Commit(LostLanded), ReadBack(false)]
  }

  /** Row 2 is staged in window 1, then row 3 late in window 0; the retry seals rows 1 and 3. */
  function Retries(): seq<Event> {
    [Arrive(P, 1, R2), Arrive(P, 0, R3)] + UpToCommit(P, 0) + [Commit(Accepted), Record, Drop(true, true)]
  }

  /** Window 1 seals row 2; the backend rejects the commit, and the read-back says "landed". */
  function Loses(): seq<Event> {
    UpToCommit(P, 1) + [Commit(Rejected), ReadBack(true), Record, Drop(true, true)]
  }

  /** An attempt on the dense-next window reaches its commit call with its rows PUT. */
  lemma ReachesCommit(s: Node, p: Id, w: nat, rows: set<Row>, man: Manifest, preview: Option<int>, s': Node)
    requires s.phase.Idle? && w == |Of(s, p).ledger|
    requires w in Of(s, p).staging && rows == Of(s, p).staging[w] && man == ManifestOf(p, w, rows)
    requires Admit(Of(s, p).ledger, man).None? && preview == Watermark(Of(s, p).ledger + [man])
    requires s' == s.(objects := s.objects[man.part := rows],
                      phase := Committing(Attempt(p, w, Watermark(Of(s, p).ledger), rows, man), preview),
                      journal := [SealPart, PutPart])
    ensures Takes(s, UpToCommit(p, w), s')
  {
    var a := Attempt(p, w, Watermark(Of(s, p).ledger), rows, man);
    var s2 := s.(phase := Sealed(a), journal := [SealPart]);
    Two(s, Begin(p, w), Seal(true));
    assert [] + [SealPart] == [SealPart] && [SealPart] + [PutPart] == [SealPart, PutPart];
    assert Takes(s, [Begin(p, w), Seal(true)], s2);
    Two(s2, Advance, Put(true, true));
    Then(s, [Begin(p, w), Seal(true)], s2, [Advance, Put(true, true)], s');
    assert [Begin(p, w), Seal(true)] + [Advance, Put(true, true)] == UpToCommit(p, w);
  }

  // ------------------------------------------------- the concrete manifests

  lemma LatestIs(rows: set<Row>, m: int)
    requires IsLatest(rows, m)
    ensures LatestTs(rows) == m
  {
  }

  lemma Manifests()
    ensures ManifestOf(P, 0, {R1}) == M0
    ensures ManifestOf(P, 0, {R1, R3}) == M0_RETRY
    ensures ManifestOf(P, 1, {R2}) == M1
  {
    assert IsLatest({R1}, 50) && IsLatest({R1, R3}, 50) && IsLatest({R2}, 5);
    LatestIs({R1}, 50);
    LatestIs({R1, R3}, 50);
    LatestIs({R2}, 5);
    assert Ids({R1}) == {R1.id} && Ids({R2}) == {R2.id} && Ids({R1, R3}) == {R1.id, R3.id};
  }

  lemma FirstPreview()
    ensures Watermark([M0]) == Some(50) && Admit([], M0).None?
  {
    assert [M0] == [] + [M0];
    Snoc([], M0);
    WatermarkAfter([], M0);
  }

  lemma RetryPreview()
    ensures Watermark([M0_RETRY]) == None && Admit([], M0_RETRY).None?
    ensures Coverage([M0_RETRY]) == {R1.id, R3.id}
  {
    assert [M0_RETRY] == [] + [M0_RETRY];
    Snoc([], M0_RETRY);
    WatermarkAfter([], M0_RETRY);
    var cov := {R1.id, R3.id};
    assert Coverage([M0_RETRY]) == cov;
    assert R3.id in cov && !Ledger.Accounted(cov, {}, R3.id.origin, 2);
    assert Watermark([]) == None;
  }

  lemma SecondPreview()
    ensures Watermark([M0_RETRY, M1]) == Some(50) && Admit([M0_RETRY], M1).None?
  {
    RetryPreview();
    assert [M0_RETRY, M1] == [M0_RETRY] + [M1];
    Snoc([M0_RETRY], M1);
    WatermarkAfter([M0_RETRY], M1);
    var cov := {R1.id, R2.id, R3.id};
    assert Coverage([M0_RETRY, M1]) == cov;
    forall id <- cov, j | 1 <= j < id.num ensures Ledger.Accounted(cov, {}, id.origin, j) {
      assert id.origin == [] && (j == 1 || j == 2);
    }
    assert MaxEvent([M0_RETRY]) == 50;
  }

  // ------------------------------------------------------- the three parts

  const OBJ1: map<FenceKey, set<Row>> := map[Primary(P, 0) := {R1}]
  const OBJ2: map<FenceKey, set<Row>> := map[Primary(P, 0) := {R1, R3}]
  const SH_DOUBT := Shard(map[0 := {R1}], [M0], Some(50), [], {R1})
  const SH_LATE := Shard(map[0 := {R1, R3}, 1 := {R2}], [M0], Some(50), [], {R1, R2, R3})
  const SH_DRIFT := Shard(map[1 := {R2}], [M0], Some(50), [M0_RETRY], {R1, R2, R3})
  const SH_LOST := Shard(map[], [M0], Some(50), [M0_RETRY, M1], {R1, R2, R3})

  /** States are compared up to the journal and call logs, which play no part here. */
  predicate Looks(s: Node, sh: Shard, objects: map<FenceKey, set<Row>>) {
    s.phase.Idle? && s.shards == map[P := sh] && s.objects == objects
  }

  lemma CommitLands() returns (s: Node)
    ensures Takes(INIT, Lands(), s) && Looks(s, SH_DOUBT, OBJ1)
  {
    Manifests();
    FirstPreview();
    var s1 := ArriveStep(INIT, P, 0, R1);
    One(INIT, Arrive(P, 0, R1));
    var a := Attempt(P, 0, None, {R1}, M0);
    assert Of(s1, P) == Shard(map[0 := {R1}], [], None, [], {R1});
    var s2 := s1.(objects := OBJ1, phase := Committing(a, Some(50)), journal := [SealPart, PutPart]);
    assert [] + [M0] == [M0];
    ReachesCommit(s1, P, 0, {R1}, M0, Some(50), s2);
    s := LostReply(s2);
    Then(INIT, [Arrive(P, 0, R1)], s1, UpToCommit(P, 0), s2);
    Then(INIT, [Arrive(P, 0, R1)] + UpToCommit(P, 0), s2, [Commit(LostLanded), ReadBack(false)], s);
  }

  lemma LostReply(s: Node) returns (s': Node)
    requires s.phase == Committing(Attempt(P, 0, None, {R1}, M0), Some(50)) && s.objects == OBJ1
    requires s.shards == map[P := Shard(map[0 := {R1}], [], None, [], {R1})]
    ensures Takes(s, [Commit(LostLanded), ReadBack(false)], s') && Looks(s', SH_DOUBT, OBJ1)
  {
    s' := Step(Step(s, Commit(LostLanded)), ReadBack(false));
    Two(s, Commit(LostLanded), ReadBack(false));
    assert [] + [M0] == [M0];
  }

  lemma RetryDrifts(s: Node) returns (s': Node)
    requires Looks(s, SH_DOUBT, OBJ1)
    ensures Takes(s, Retries(), s') && Looks(s', SH_DRIFT, OBJ2)
  {
    Manifests();
    RetryPreview();
    var s1 := LateRows(s);
    var a := Attempt(P, 0, None, {R1, R3}, M0_RETRY);
    var s2 := s1.(objects := OBJ2, phase := Committing(a, None), journal := [SealPart, PutPart]);
    assert [] + [M0_RETRY] == [M0_RETRY] && Watermark([]) == None;
    assert OBJ1[Primary(P, 0) := {R1, R3}] == OBJ2;
    ReachesCommit(s1, P, 0, {R1, R3}, M0_RETRY, None, s2);
    s' := AlreadyRegistered(s2);
    var arrivals: seq<Event> := [Arrive(P, 1, R2), Arrive(P, 0, R3)];
    Then(s, arrivals, s1, UpToCommit(P, 0), s2);
    Then(s, arrivals + UpToCommit(P, 0), s2, [Commit(Accepted), Record, Drop(true, true)], s');
  }

  lemma LateRows(s: Node) returns (s': Node)
    requires Looks(s, SH_DOUBT, OBJ1)
    ensures Takes(s, [Arrive(P, 1, R2), Arrive(P, 0, R3)], s') && Looks(s', SH_LATE, OBJ1)
  {
    var s1 := Step(s, Arrive(P, 1, R2));
    var none: set<Row> := {};
    assert none + {R2} == {R2} && {R1} + {R2} == {R1, R2} && {R1, R2} + {R3} == {R1, R2, R3} && {R1} + {R3} == {R1, R3};
    assert map[0 := {R1}][1 := {R2}] == map[0 := {R1}, 1 := {R2}];
    assert Of(s1, P) == Shard(map[0 := {R1}, 1 := {R2}], [M0], Some(50), [], {R1, R2});
    s' := Step(s1, Arrive(P, 0, R3));
    assert map[0 := {R1}, 1 := {R2}][0 := {R1, R3}] == map[0 := {R1, R3}, 1 := {R2}];
    Two(s, Arrive(P, 1, R2), Arrive(P, 0, R3));
    assert Of(s', P) == SH_LATE;
  }

  lemma AlreadyRegistered(s: Node) returns (s': Node)
    requires s.phase == Committing(Attempt(P, 0, None, {R1, R3}, M0_RETRY), None) && s.objects == OBJ2
    requires s.shards == map[P := SH_LATE]
    ensures Takes(s, [Commit(Accepted), Record, Drop(true, true)], s') && Looks(s', SH_DRIFT, OBJ2)
  {
    RetryPreview();
    assert M0 in [M0] && IsRegistered([M0], 0, Primary(P, 0));
    var s1 := Step(s, Commit(Accepted));
    var s2 := Step(s1, Record);
    assert Of(s1, P) == SH_LATE;
    assert [] + [M0_RETRY] == [M0_RETRY];
    assert Of(s2, P) == SH_LATE.(ledger := [M0_RETRY]);
    s' := Step(s2, Drop(true, true));
    assert Uncovered({R1, R3}, {R1.id, R3.id}) == {};
    assert SH_LATE.staging - {0} == map[1 := {R2}];
    assert Of(s', P) == SH_DRIFT;
    Two(s, Commit(Accepted), Record);
    One(s2, Drop(true, true));
    Then(s, [Commit(Accepted), Record], s2, [Drop(true, true)], s');
    assert [Commit(Accepted), Record] + [Drop(true, true)] == [Commit(Accepted), Record, Drop(true, true)];
  }

  lemma ReadBackLies(s: Node) returns (s': Node)
    requires Looks(s, SH_DRIFT, OBJ2)
    ensures Takes(s, Loses(), s') && s'.phase == Idle(Some(AlreadyCommitted))
    ensures Of(s', P) == SH_LOST
    ensures Primary(P, 0) in s'.objects && s'.objects[Primary(P, 0)] == {R1, R3}
  {
    Manifests();
    RetryPreview();
    SecondPreview();
    assert [M0_RETRY] + [M1] == [M0_RETRY, M1];
    var a := Attempt(P, 1, None, {R2}, M1);
    var s1 := s.(objects := OBJ2[Primary(P, 1) := {R2}], phase := Committing(a, Some(50)),
                 journal := [SealPart, PutPart]);
    ReachesCommit(s, P, 1, {R2}, M1, Some(50), s1);
    s' := Deceived(s1);
    Then(s, UpToCommit(P, 1), s1, [Commit(Rejected), ReadBack(true), Record, Drop(true, true)], s');
  }

  lemma Deceived(s: Node) returns (s': Node)
    requires s.phase == Committing(Attempt(P, 1, None, {R2}, M1), Some(50)) && s.shards == map[P := SH_DRIFT]
    ensures Takes(s, [Commit(Rejected), ReadBack(true), Record, Drop(true, true)], s')
    ensures s'.phase == Idle(Some(AlreadyCommitted)) && s'.objects == s.objects
    ensures Of(s', P) == SH_LOST
  {
    SecondPreview();
    var s1 := Step(s, Commit(Rejected));
    var s2 := Step(s1, ReadBack(true));
    assert Judge(None, Some(50), Some(50)) == Landed;
    assert s2.phase == Recording(Attempt(P, 1, None, {R2}, M1), true) && s2.shards == s.shards;
    var s3 := Step(s2, Record);
    assert [M0_RETRY] + [M1] == [M0_RETRY, M1];
    assert Of(s3, P) == SH_DRIFT.(ledger := [M0_RETRY, M1]);
    assert s3.phase == Dropping(P, 1, {R2.id}, AlreadyCommitted);
    s' := Step(s3, Drop(true, true));
    assert Uncovered({R2}, {R2.id}) == {};
    assert SH_DRIFT.staging - {1} == map[];
    Two(s, Commit(Rejected), ReadBack(true));
    Two(s2, Record, Drop(true, true));
    Then(s, [Commit(Rejected), ReadBack(true)], s2, [Record, Drop(true, true)], s');
    assert [Commit(Rejected), ReadBack(true)] + [Record, Drop(true, true)]
        == [Commit(Rejected), ReadBack(true), Record, Drop(true, true)];
  }

  lemma Row2IsLost(s: Node)
    requires R2 in Of(s, P).ever && Of(s, P).staging == map[] && Of(s, P).lake == [M0]
    requires Primary(P, 0) in s.objects && s.objects[Primary(P, 0)] == {R1, R3}
    ensures !Safe(s, P, R2) && !NoLoss(s)
  {
    assert forall w: nat :: Registered(s, P, w) ==> w == 0;
    assert R2 !in {R1, R3};
  }

  lemma Chain(s: Node, a: seq<Event>, s1: Node, b: seq<Event>, s2: Node, c: seq<Event>, s3: Node)
    requires Takes(s, a, s1) && Takes(s1, b, s2) && Takes(s2, c, s3)
    ensures Takes(s, a + b + c, s3)
  {
    Then(s, a, s1, b, s2);
    Then(s, a + b, s2, c, s3);
  }

  /** The whole run is legal, ends as a success, and row 2 is in neither staging nor a registered object. */
  lemma UnsafeRun() returns (run: seq<Event>)
    ensures run == Lands() + Retries() + Loses()
    ensures Legal(INIT, run) && Exec(INIT, run).phase == Idle(Some(AlreadyCommitted))
    ensures !NoLoss(Exec(INIT, run)) && Of(Exec(INIT, run), P) == SH_LOST
  {
    var s1 := CommitLands();
    var s2 := RetryDrifts(s1);
    var s3 := ReadBackLies(s2);
    run := Lands() + Retries() + Loses();
    Chain(INIT, Lands(), s1, Retries(), s2, Loses(), s3);
    Row2IsLost(s3);
  }
}
