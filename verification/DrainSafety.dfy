/**
 Safety of the drain over whole runs: as long as every "landed" verdict of a
 read-back is true, no row is lost, the lake's record is a dense prefix with one
 manifest per window, and the lake is at most one window ahead of the ledger.
 */
module DrainSafety {
  import opened Options
  import opened Naming
  import opened Ledger
  import opened Drain

  // -------------------------------------------------------------- invariant

  ghost predicate Unique(ever: set<Row>) {
    forall r <- ever, q <- ever :: r.id == q.id ==> r == q
  }

  /** The object holds every row the coverage names. */
  ghost predicate Stored(objects: map<FenceKey, set<Row>>, part: FenceKey, ever: set<Row>, cov: set<RowId>) {
    part in objects && forall r <- ever :: r.id in cov ==> r in objects[part]
  }

  /** Rows named by the coverage are still in the window's table. */
  ghost predicate StillStaged(sh: Shard, w: nat, cov: set<RowId>) {
    forall r <- sh.ever :: r.id in cov ==> w in sh.staging && r in sh.staging[w]
  }

  ghost predicate Archived(p: Id, sh: Shard, objects: map<FenceKey, set<Row>>, r: Row) {
    exists i | 0 <= i < |sh.ledger| :: Primary(p, i) in objects && r in objects[Primary(p, i)]
  }

  /** Row identities are unique, and tables hold only staged rows. */
  ghost predicate Tables(sh: Shard) {
    Unique(sh.ever) && forall w <- sh.staging :: sh.staging[w] <= sh.ever
  }

  /** Two dense records, the lake at most one window ahead and never covering more. */
  ghost predicate Records(sh: Shard) {
    && Dense(sh.lake) && Dense(sh.ledger)
    && |sh.ledger| <= |sh.lake| <= |sh.ledger| + 1
    && (forall i | 0 <= i < |sh.ledger| :: sh.lake[i].coverage <= sh.ledger[i].coverage)
  }

  /** A record names its own windows' parts, covers known rows only, and its objects hold them. */
  ghost predicate Backed(p: Id, ms: seq<Manifest>, ever: set<Row>, objects: map<FenceKey, set<Row>>) {
    forall i | 0 <= i < |ms| ::
      && ms[i].part == Primary(p, i)
      && ms[i].coverage <= Ids(ever)
      && Stored(objects, Primary(p, i), ever, ms[i].coverage)
  }

  ghost predicate AllAccounted(p: Id, sh: Shard, objects: map<FenceKey, set<Row>>) {
    forall r <- sh.ever :: Staged(sh, r) || Archived(p, sh, objects, r)
  }

  ghost predicate ShardInv(p: Id, sh: Shard, objects: map<FenceKey, set<Row>>) {
    && Tables(sh)
    && Records(sh)
    && Backed(p, sh.lake, sh.ever, objects)
    && Backed(p, sh.ledger, sh.ever, objects)
    && (|sh.lake| > |sh.ledger| ==> StillStaged(sh, |sh.ledger|, sh.lake[|sh.ledger|].coverage))
    && AllAccounted(p, sh, objects)
  }

  /** What holds of an attempt from its seal until its record. */
  ghost predicate AttemptInv(s: Node, a: Attempt) {
    var sh := Of(s, a.partition);
    && a.window == |sh.ledger|
    && a.prior == Watermark(sh.ledger)
    && a.man == ManifestOf(a.partition, a.window, a.rows)
    && a.window in sh.staging && a.rows <= sh.staging[a.window]
    && (|sh.lake| > |sh.ledger| ==> sh.lake[a.window].coverage <= a.man.coverage)
  }

  ghost predicate PreviewInv(s: Node, a: Attempt, preview: Option<int>) {
    var ms := Of(s, a.partition).ledger;
    AttemptInv(s, a) && Admit(ms, a.man).None? && preview == Watermark(ms + [a.man])
  }

  ghost predicate IsPut(s: Node, a: Attempt) {
    a.man.part in s.objects && s.objects[a.man.part] == a.rows
  }

  ghost predicate PhaseInv(s: Node) {
    match s.phase
    case Idle(_) => true
    case Down => false
    case Sealing(p, w, prior) => w == |Of(s, p).ledger| && prior == Watermark(Of(s, p).ledger)
    case Sealed(a) => AttemptInv(s, a)
    case Putting(a, preview) => PreviewInv(s, a, preview)
    case Committing(a, preview) => PreviewInv(s, a, preview) && IsPut(s, a)
    case ReadingBack(a, preview, _) => PreviewInv(s, a, preview) && IsPut(s, a)
    case Recording(a, _) =>
      && AttemptInv(s, a) && IsPut(s, a)
      && Admit(Of(s, a.partition).ledger, a.man).None?
      && |Of(s, a.partition).lake| == a.window + 1
    case Dropping(p, w, covered, _) => w < |Of(s, p).ledger| && covered == Of(s, p).ledger[w].coverage
  }

  ghost predicate Inv(s: Node) {
    && PhaseInv(s)
    && forall p :: ShardInv(p, Of(s, p), s.objects)
  }

  /** The one thing a run must not do: believe a read-back that lies. */
  predicate TrueVerdict(s: Node, e: Event)
    requires Enabled(s, e)
  {
    e == ReadBack(true)
    && Judge(s.phase.a.prior, s.phase.preview, Of(s, s.phase.a.partition).lakeMark) == Landed
    ==> Registered(s, s.phase.a.partition, s.phase.a.window)
  }

  // ------------------------------------------------------------- frame rules

  /** A PUT of (p, w) leaves other partitions' invariants alone. */
  lemma OtherShardsKeep(objects: map<FenceKey, set<Row>>, p: Id, w: nat, rows: set<Row>, q: Id, sh: Shard)
    requires p != q && ShardInv(q, sh, objects)
    ensures ShardInv(q, sh, objects[Primary(p, w) := rows])
  {
    var after := objects[Primary(p, w) := rows];
    forall r <- sh.ever | !Staged(sh, r) ensures Archived(q, sh, after, r) {
      var i :| 0 <= i < |sh.ledger| && Primary(q, i) in objects && r in objects[Primary(q, i)];
      assert Primary(q, i) in after && r in after[Primary(q, i)];
    }
  }

  /** A step that changes one shard and no object. */
  lemma OneShardChanged(s: Node, s': Node, p: Id)
    requires Inv(s) && s'.objects == s.objects
    requires s'.shards == s.shards[p := Of(s', p)]
    requires ShardInv(p, Of(s', p), s.objects) && PhaseInv(s')
    ensures Inv(s')
  {
    forall q ensures ShardInv(q, Of(s', q), s'.objects) {
      if q != p {
        assert Of(s', q) == Of(s, q);
      }
    }
  }

  lemma NothingChanged(s: Node, s': Node)
    requires Inv(s) && s'.objects == s.objects && s'.shards == s.shards && PhaseInv(s')
    ensures Inv(s')
  {
    forall q ensures ShardInv(q, Of(s', q), s'.objects) {
      assert Of(s', q) == Of(s, q);
    }
  }

  lemma RegisteredIff(s: Node, p: Id, w: nat)
    requires Inv(s)
    ensures Registered(s, p, w) <==> w < |Of(s, p).lake|
  {
    var sh := Of(s, p);
    if w < |sh.lake| {
      assert sh.lake[w] in sh.lake;
    }
  }

  /** Sealed rows are the unique bearers of the identities their manifest covers. */
  lemma CoveredAreSealed(s: Node, a: Attempt, r: Row)
    requires Inv(s) && AttemptInv(s, a)
    requires r in Of(s, a.partition).ever && r.id in a.man.coverage
    ensures r in a.rows
  {
    var q :| q in a.rows && q.id == r.id;
  }

  // ----------------------------------------------------------- preservation

  lemma ArriveKeeps(s: Node, p: Id, w: nat, row: Row)
    requires Inv(s) && Enabled(s, Arrive(p, w, row))
    ensures Inv(ArriveStep(s, p, w, row))
  {
    var s' := ArriveStep(s, p, w, row);
    ArriveKeepsShard(p, Of(s, p), s.objects, w, row, Of(s', p));
    ArriveKeepsPhase(s, p, w, row);
    OneShardChanged(s, s', p);
  }

  lemma ArriveKeepsPhase(s: Node, p: Id, w: nat, row: Row)
    requires PhaseInv(s)
    ensures PhaseInv(ArriveStep(s, p, w, row))
  {
    var s' := ArriveStep(s, p, w, row);
    forall q
      ensures Of(s', q).lake == Of(s, q).lake && Of(s', q).ledger == Of(s, q).ledger
      ensures forall x <- Of(s, q).staging :: x in Of(s', q).staging && Of(s, q).staging[x] <= Of(s', q).staging[x]
    {
    }
  }

  lemma ArriveKeepsShard(p: Id, sh: Shard, objects: map<FenceKey, set<Row>>, w: nat, row: Row, sh': Shard)
    requires ShardInv(p, sh, objects) && row.id !in Ids(sh.ever)
    requires sh' == sh.(staging := sh.staging[w := (if w in sh.staging then sh.staging[w] else {}) + {row}],
                        ever := sh.ever + {row})
    ensures ShardInv(p, sh', objects)
  {
    assert Ids(sh'.ever) == Ids(sh.ever) + {row.id};
    forall r <- sh'.ever ensures Staged(sh', r) || Archived(p, sh', objects, r) {
      if r == row {
        assert w in sh'.staging && r in sh'.staging[w];
      } else if Staged(sh, r) {
        var x :| x in sh.staging && r in sh.staging[x];
        assert x in sh'.staging && r in sh'.staging[x];
      } else {
        assert Archived(p, sh, objects, r);
      }
    }
    assert Tables(sh') by {
      forall r <- sh'.ever, q <- sh'.ever | r.id == q.id ensures r == q {
        assert r in sh.ever ==> r.id in Ids(sh.ever);
        assert q in sh.ever ==> q.id in Ids(sh.ever);
      }
    }
    FreshKeepsBacked(p, sh.lake, sh.ever, objects, row);
    FreshKeepsBacked(p, sh.ledger, sh.ever, objects, row);
  }

  lemma FreshKeepsBacked(p: Id, ms: seq<Manifest>, ever: set<Row>, objects: map<FenceKey, set<Row>>, row: Row)
    requires Backed(p, ms, ever, objects) && row.id !in Ids(ever)
    ensures Backed(p, ms, ever + {row}, objects)
  {
    assert Ids(ever + {row}) == Ids(ever) + {row.id};
  }

  lemma BeginKeeps(s: Node, p: Id, w: nat)
    requires Inv(s) && Enabled(s, Begin(p, w))
    ensures Inv(BeginStep(s, p, w))
  {
    NothingChanged(s, BeginStep(s, p, w));
  }

  lemma SealKeeps(s: Node, ok: bool)
    requires Inv(s) && Enabled(s, Seal(ok))
    ensures Inv(SealStep(s, ok))
  {
    var s' := SealStep(s, ok);
    if ok {
      var a := s'.phase.a;
      var sh := Of(s, a.partition);
      assert Of(s', a.partition) == sh;
      if |sh.lake| > |sh.ledger| {
        forall id <- sh.lake[a.window].coverage ensures id in a.man.coverage {
          var r :| r in sh.ever && r.id == id;
          assert r in a.rows;
        }
      }
    }
    NothingChanged(s, s');
  }

  lemma AdvanceKeeps(s: Node)
    requires Inv(s) && Enabled(s, Advance)
    ensures Inv(AdvanceStep(s))
  {
    assert Of(AdvanceStep(s), s.phase.a.partition) == Of(s, s.phase.a.partition);
    NothingChanged(s, AdvanceStep(s));
  }

  lemma PutKeeps(s: Node, ok: bool, landed: bool)
    requires Inv(s) && Enabled(s, Put(ok, landed))
    ensures Inv(PutStep(s, ok, landed))
  {
    var a := s.phase.a;
    PutPhase(s, ok, landed);
    if landed {
      PutKeepsOwnShard(s);
      forall q ensures ShardInv(q, Of(s, q), s.objects[a.man.part := a.rows]) {
        if q != a.partition {
          OtherShardsKeep(s.objects, a.partition, a.window, a.rows, q, Of(s, q));
        }
      }
    }
  }

  lemma PutPhase(s: Node, ok: bool, landed: bool)
    requires PhaseInv(s) && Enabled(s, Put(ok, landed))
    ensures var s' := PutStep(s, ok, landed);
            && PhaseInv(s') && (forall q :: Of(s', q) == Of(s, q))
            && s'.objects == if landed then s.objects[s.phase.a.man.part := s.phase.a.rows] else s.objects
  {
    assert PutStep(s, ok, landed).shards == s.shards;
  }

  /** An overwrite of the attempt's own object loses no archived row: that window is not in the ledger. */
  lemma PutAccounts(p: Id, sh: Shard, objects: map<FenceKey, set<Row>>, rows: set<Row>)
    requires AllAccounted(p, sh, objects)
    ensures AllAccounted(p, sh, objects[Primary(p, |sh.ledger|) := rows])
  {
    var after := objects[Primary(p, |sh.ledger|) := rows];
    forall r <- sh.ever | !Staged(sh, r) ensures Archived(p, sh, after, r) {
      var i :| 0 <= i < |sh.ledger| && Primary(p, i) in objects && r in objects[Primary(p, i)];
      assert Primary(p, i) in after && r in after[Primary(p, i)];
    }
  }

  lemma PutBacks(p: Id, ms: seq<Manifest>, ever: set<Row>, objects: map<FenceKey, set<Row>>, w: nat, rows: set<Row>)
    requires Backed(p, ms, ever, objects)
    requires w < |ms| ==> forall r <- ever :: r.id in ms[w].coverage ==> r in rows
    ensures Backed(p, ms, ever, objects[Primary(p, w) := rows])
  {
    var after := objects[Primary(p, w) := rows];
    forall i | 0 <= i < |ms| ensures Stored(after, Primary(p, i), ever, ms[i].coverage) {
      if i != w {
        assert after[Primary(p, i)] == objects[Primary(p, i)];
      }
    }
  }

  lemma PutKeepsOwnShard(s: Node)
    requires Inv(s) && s.phase.Putting?
    ensures var a := s.phase.a; ShardInv(a.partition, Of(s, a.partition), s.objects[a.man.part := a.rows])
  {
    var a := s.phase.a;
    var p, w, sh := a.partition, a.window, Of(s, a.partition);
    PutAccounts(p, sh, s.objects, a.rows);
    forall r <- sh.ever | w < |sh.lake| && r.id in sh.lake[w].coverage ensures r in a.rows {
      CoveredAreSealed(s, a, r);
    }
    PutBacks(p, sh.lake, sh.ever, s.objects, w, a.rows);
    PutBacks(p, sh.ledger, sh.ever, s.objects, w, a.rows);
  }

  lemma CommitKeeps(s: Node, reply: Reply)
    requires Inv(s) && Enabled(s, Commit(reply))
    ensures Inv(CommitStep(s, reply))
  {
    var s' := CommitStep(s, reply);
    if reply.Accepted? || reply.LostLanded? {
      RegisterKeeps(s);
      var a := s.phase.a;
      OneShardChanged(s, s', a.partition);
    } else {
      assert Of(s', s.phase.a.partition) == Of(s, s.phase.a.partition);
      NothingChanged(s, s');
    }
  }

  lemma RegisterKeeps(s: Node)
    requires Inv(s) && s.phase.Committing?
    ensures var a := s.phase.a;
            var sh, sh' := Of(s, a.partition), Register(Of(s, a.partition), a.man, s.phase.preview);
            && ShardInv(a.partition, sh', s.objects)
            && |sh'.lake| == a.window + 1
            && sh'.lake[a.window].coverage <= a.man.coverage
  {
    var a := s.phase.a;
    var p, w, sh := a.partition, a.window, Of(s, a.partition);
    var sh' := Register(sh, a.man, s.phase.preview);
    RegisteredIff(s, p, w);
    if |sh.lake| == w {
      LakeAdmits(sh.lake, sh.ledger, a.man);
      DenseSnoc(sh.lake, a.man);
      forall r <- sh.ever | r.id in a.man.coverage
        ensures r in s.objects[Primary(p, w)] && r in sh.staging[w]
      {
        CoveredAreSealed(s, a, r);
      }
      forall r <- sh'.ever ensures Staged(sh', r) || Archived(p, sh', s.objects, r) {
        assert Staged(sh, r) || Archived(p, sh, s.objects, r);
      }
    }
  }

  lemma {:induction false} CoverageWithin(a: seq<Manifest>, b: seq<Manifest>)
    requires |a| == |b| && forall i | 0 <= i < |a| :: a[i].coverage <= b[i].coverage
    ensures Coverage(a) <= Coverage(b)
  {
    if a != [] {
      CoverageWithin(a[..|a| - 1], b[..|b| - 1]);
    }
  }

  /** What the ledger admits, the lake's smaller record admits too. */
  lemma LakeAdmits(lake: seq<Manifest>, ledger: seq<Manifest>, m: Manifest)
    requires |lake| == |ledger| && forall i | 0 <= i < |lake| :: lake[i].coverage <= ledger[i].coverage
    requires Admit(ledger, m).None?
    ensures Admit(lake, m).None?
  {
    CoverageWithin(lake, ledger);
    assert m.coverage * Coverage(lake) <= m.coverage * Coverage(ledger);
  }

  lemma ReadBackKeeps(s: Node, ok: bool)
    requires Inv(s) && Enabled(s, ReadBack(ok)) && TrueVerdict(s, ReadBack(ok))
    ensures Inv(ReadBackStep(s, ok))
  {
    var s' := ReadBackStep(s, ok);
    ReadBackShape(s, ok);
    if s'.phase.Recording? {
      RegisteredIff(s, s.phase.a.partition, s.phase.a.window);
      RecordingPhase(s, s');
    }
    NothingChanged(s, s');
  }

  /** A read-back moves only the phase: to the end, or to recording a window judged landed. */
  lemma ReadBackShape(s: Node, ok: bool)
    requires s.phase.ReadingBack?
    ensures var s' := ReadBackStep(s, ok);
            && s'.shards == s.shards && s'.objects == s.objects
            && (s'.phase.Idle? || (s'.phase.Recording? && s'.phase.a == s.phase.a))
            && (s'.phase.Recording? ==>
                  ok && Judge(s.phase.a.prior, s.phase.preview, Of(s, s.phase.a.partition).lakeMark) == Landed)
  {
  }

  lemma RecordingPhase(s: Node, s': Node)
    requires PhaseInv(s) && s.phase.ReadingBack? && s'.phase.Recording? && s'.phase.a == s.phase.a
    requires s'.shards == s.shards && s'.objects == s.objects
    requires |Of(s, s.phase.a.partition).lake| == s.phase.a.window + 1
    ensures PhaseInv(s')
  {
    assert Of(s', s.phase.a.partition) == Of(s, s.phase.a.partition);
  }

  lemma RecordKeeps(s: Node)
    requires Inv(s) && Enabled(s, Record)
    ensures Inv(RecordStep(s))
  {
    var s', a := RecordStep(s), s.phase.a;
    RecordKeepsOwnShard(s);
    OneShardChanged(s, s', a.partition);
  }

  lemma RecordKeepsOwnShard(s: Node)
    requires Inv(s) && s.phase.Recording?
    ensures var a := s.phase.a;
            var sh := Of(s, a.partition);
            ShardInv(a.partition, sh.(ledger := sh.ledger + [a.man]), s.objects)
  {
    var a := s.phase.a;
    var p, w, sh := a.partition, a.window, Of(s, a.partition);
    var sh' := sh.(ledger := sh.ledger + [a.man]);
    DenseSnoc(sh.ledger, a.man);
    assert Backed(p, sh'.ledger, sh.ever, s.objects) by {
      assert a.man.coverage <= Ids(sh.ever);
      forall r <- sh.ever | r.id in a.man.coverage ensures r in s.objects[Primary(p, w)] {
        CoveredAreSealed(s, a, r);
      }
    }
    LongerLedgerAccounts(p, sh, sh', s.objects);
  }

  /** Recording more windows can only account for more rows. */
  lemma LongerLedgerAccounts(p: Id, sh: Shard, sh': Shard, objects: map<FenceKey, set<Row>>)
    requires AllAccounted(p, sh, objects) && sh' == sh.(ledger := sh'.ledger) && |sh.ledger| <= |sh'.ledger|
    ensures AllAccounted(p, sh', objects)
  {
    forall r <- sh'.ever ensures Staged(sh', r) || Archived(p, sh', objects, r) {
      if Staged(sh, r) {
        assert Staged(sh', r);
      } else {
        var i :| 0 <= i < |sh.ledger| && Primary(p, i) in objects && r in objects[Primary(p, i)];
        assert i < |sh'.ledger|;
      }
    }
  }

  lemma DropKeeps(s: Node, ok: bool, landed: bool)
    requires Inv(s) && Enabled(s, Drop(ok, landed))
    ensures Inv(DropStep(s, ok, landed))
  {
    var s' := DropStep(s, ok, landed);
    if landed {
      DropKeepsOwnShard(s);
      OneShardChanged(s, s', s.phase.partition);
    } else {
      NothingChanged(s, s');
    }
  }

  lemma DropKeepsOwnShard(s: Node)
    requires Inv(s) && s.phase.Dropping?
    ensures var p, sh := s.phase.partition, Of(s, s.phase.partition);
            ShardInv(p, sh.(staging := DropRows(sh.staging, s.phase.window, s.phase.covered)), s.objects)
  {
    var p, w, cov := s.phase.partition, s.phase.window, s.phase.covered;
    var sh := Of(s, p);
    var sh' := sh.(staging := DropRows(sh.staging, w, cov));
    forall r <- sh'.ever ensures Staged(sh', r) || Archived(p, sh', s.objects, r) {
      if Staged(sh, r) {
        var x :| x in sh.staging && r in sh.staging[x];
        if x == w && r.id in cov {
          assert Primary(p, w) in s.objects && r in s.objects[Primary(p, w)];
        } else {
          UncoveredStay(sh.staging, w, cov, x, r);
        }
      } else {
        assert Archived(p, sh, s.objects, r);
      }
    }
  }

  lemma UncoveredStay(staging: map<nat, set<Row>>, w: nat, cov: set<RowId>, x: nat, r: Row)
    requires x in staging && r in staging[x] && (x != w || r.id !in cov)
    ensures x in DropRows(staging, w, cov) && r in DropRows(staging, w, cov)[x]
  {
    if x == w {
      assert r in Uncovered(staging[w], cov);
    }
  }

  lemma CrashKeeps(s: Node)
    requires Inv(s)
    ensures Inv(CrashStep(s))
    ensures forall p :: Of(CrashStep(s), p) == Of(s, p).(ledger := Of(s, p).lake)
  {
    forall p ensures Reconstruct(Of(s, p).lake) == Ok(Of(s, p).lake) {
      ReconstructDense(Of(s, p).lake);
    }
    assert forall p <- s.shards :: s.shards[p] == Of(s, p);
    var s' := CrashStep(s);
    forall p ensures ShardInv(p, Of(s', p), s'.objects) && Of(s', p) == Of(s, p).(ledger := Of(s, p).lake) {
      RebootKeepsShard(p, Of(s, p), s.objects);
    }
  }

  lemma RebootKeepsShard(p: Id, sh: Shard, objects: map<FenceKey, set<Row>>)
    requires ShardInv(p, sh, objects)
    ensures ShardInv(p, sh.(ledger := sh.lake), objects)
  {
    LongerLedgerAccounts(p, sh, sh.(ledger := sh.lake), objects);
  }

  lemma StepKeeps(s: Node, e: Event)
    requires Inv(s) && Enabled(s, e) && TrueVerdict(s, e)
    ensures Inv(Step(s, e))
  {
    match e
    case Arrive(p, w, row) => ArriveKeeps(s, p, w, row);
    case Begin(p, w) => BeginKeeps(s, p, w);
    case Seal(ok) => SealKeeps(s, ok);
    case Advance => AdvanceKeeps(s);
    case Put(ok, landed) => PutKeeps(s, ok, landed);
    case Commit(reply) => CommitKeeps(s, reply);
    case ReadBack(ok) => ReadBackKeeps(s, ok);
    case Record => RecordKeeps(s);
    case Drop(ok, landed) => DropKeeps(s, ok, landed);
    case Crash => CrashKeeps(s);
  }

  // ------------------------------------------------------------------- runs

  predicate TrueVerdicts(s: Node, run: seq<Event>)
    requires Legal(s, run)
    decreases |run|
  {
    run == [] || (TrueVerdict(s, run[0]) && TrueVerdicts(Step(s, run[0]), run[1..]))
  }

  lemma {:induction false} RunKeeps(s: Node, run: seq<Event>)
    requires Inv(s) && Legal(s, run) && TrueVerdicts(s, run)
    ensures Inv(Exec(s, run))
    decreases |run|
  {
    if run != [] {
      StepKeeps(s, run[0]);
      RunKeeps(Step(s, run[0]), run[1..]);
    }
  }

  /** At most one registered manifest per window, and the windows are 0, 1, 2, ... */
  ghost predicate SingleDense(s: Node) {
    forall p, i, j | 0 <= i < |Of(s, p).lake| && 0 <= j < |Of(s, p).lake| ::
      && Of(s, p).lake[i].window == i
      && (Of(s, p).lake[i].window == Of(s, p).lake[j].window ==> i == j)
  }

  ghost predicate AheadByAtMostOne(s: Node) {
    forall p :: |Of(s, p).ledger| <= |Of(s, p).lake| <= |Of(s, p).ledger| + 1
  }

  lemma InvImplies(s: Node)
    requires Inv(s)
    ensures NoLoss(s) && SingleDense(s) && AheadByAtMostOne(s) && !s.phase.Down?
  {
    forall p, r | r in Of(s, p).ever ensures Safe(s, p, r) {
      var sh := Of(s, p);
      if !Staged(sh, r) {
        assert Archived(p, sh, s.objects, r);
        var i :| 0 <= i < |sh.ledger| && Primary(p, i) in s.objects && r in s.objects[Primary(p, i)];
        RegisteredIff(s, p, i);
      }
    }
  }

  /**
   No loss over whole runs: any sequence of attempts, arrivals, commit replies,
   failed calls, crashes and reboots, provided read-backs that say "landed" are
   right. Late rows may arrive in any window at any point.
   */
  lemma NoLossOverRuns(run: seq<Event>)
    requires Legal(INIT, run) && TrueVerdicts(INIT, run)
    ensures var s := Exec(INIT, run);
            NoLoss(s) && SingleDense(s) && AheadByAtMostOne(s) && !s.phase.Down?
  {
    assert forall p :: Of(INIT, p) == EMPTY;
    assert Inv(INIT);
    RunKeeps(INIT, run);
    InvImplies(Exec(INIT, run));
  }
}
