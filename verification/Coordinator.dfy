/**
 `DrainCoordinator` as imperative code over its ports: the fields are what the
 ports hold, objects are stored under their rendered part names, and
 `DrainWindow` is proved to be a run of the step machine in `Drain`.
 */
module Coordinator {
  import opened Options
  import opened Naming
  import opened Ledger
  import opened Drain
  import opened DrainOutcome

  datatype Arrival = Arrival(partition: Id, window: nat, row: Row)

  /** What the world does during one attempt: port answers, and rows arriving before each call. */
  datatype World = World(
    sealOk: bool, putOk: bool, putLanded: bool, reply: Reply, readOk: bool, dropOk: bool, dropLanded: bool,
    beforeSeal: seq<Arrival>, beforePut: seq<Arrival>, beforeCommit: seq<Arrival>,
    beforeRead: seq<Arrival>, beforeDrop: seq<Arrival>)

  /** The name-keyed store holds exactly the key-indexed objects, under their names. */
  ghost predicate Represents(store: map<string, set<Row>>, objects: map<FenceKey, set<Row>>) {
    && (forall k :: k in objects <==> PartName(k) in store)
    && (forall k <- objects :: store[PartName(k)] == objects[k])
  }

  /** Injective names make a PUT by name a PUT by key. */
  lemma PutByName(store: map<string, set<Row>>, objects: map<FenceKey, set<Row>>, key: FenceKey, rows: set<Row>)
    requires Represents(store, objects)
    ensures Represents(store[PartName(key) := rows], objects[key := rows])
  {
    forall k ensures PartName(k) == PartName(key) <==> k == key {
      PartNameInjective(k, key);
    }
  }

  /** The backend keeps objects under the paths of their names: for this dataset those are injective too. */
  lemma PathsOfDataset(k: FenceKey, k': FenceKey)
    requires k.dataset == DATASET && k'.dataset == DATASET
    ensures ObjectPath(k) == ObjectPath(k') <==> k == k'
  {
    assert |DATASET| == 9;
    ObjectPathsCollideExactlyWhen(k, k');
  }

  /** Likewise the backend's check by part name is the fence's check by key. */
  lemma CheckByName(lake: seq<Manifest>, w: nat, part: FenceKey)
    ensures IsRegistered(lake, w, part) <==> exists m <- lake :: m.window == w && PartName(m.part) == PartName(part)
  {
    forall m <- lake ensures m.part == part <==> PartName(m.part) == PartName(part) {
      PartNameInjective(m.part, part);
    }
  }

  /** The backend transaction: nothing if the name is already there, else manifest and watermark row together. */
  function LandByName(sh: Shard, man: Manifest, preview: Option<int>): Shard {
    if exists m <- sh.lake :: m.window == man.window && PartName(m.part) == PartName(man.part) then sh
    else sh.(lake := sh.lake + [man], lakeMark := if preview.Some? then preview else sh.lakeMark)
  }

  lemma LandIsRegister(sh: Shard, man: Manifest, preview: Option<int>)
    ensures LandByName(sh, man, preview) == Register(sh, man, preview)
  {
    CheckByName(sh.lake, man.window, man.part);
  }

  /** The attempt holds exactly these rows, and its manifest their ids, their number and their latest time. */
  ghost predicate SealsTable(a: Attempt, rows: set<Row>) {
    && a.rows == rows && a.man.rows == |rows|
    && (forall id :: id in a.man.coverage <==> exists r <- rows :: r.id == id)
    && (rows != {} ==> (exists r <- rows :: r.ts == a.man.eventMax) && forall r <- rows :: r.ts <= a.man.eventMax)
  }

  /** The ledger is already past this window. */
  predicate Passed(r: Rejection) {
    r.WindowNotNext? && r.got < r.expected
  }

  /** Where each reply to the commit leads. */
  function AfterCommit(a: Attempt, preview: Option<int>, reply: Reply): Phase {
    match reply
    case Accepted => Recording(a, false)
    case Rejected => ReadingBack(a, preview, Aborted)
    case LostLanded => ReadingBack(a, preview, Indeterminate)
    case LostDropped => ReadingBack(a, preview, Indeterminate)
    case Misconfigured => Idle(Some(Failed(LakeFailed)))
  }

  /** The one journal name a settled reply gets; a configuration error gets none. */
  function OutcomeName(reply: Reply): seq<TraceEvent> {
    match reply
    case Accepted => [LakeCommitOk]
    case Rejected => [LakeCommitAbort]
    case Misconfigured => []
    case _ => [LakeCommitIndeterminate]
  }

  lemma CommitEffect(s: Node, reply: Reply)
    requires s.phase.Committing?
    ensures var a, preview := s.phase.a, s.phase.preview;
            var lands := reply.Accepted? || reply.LostLanded?;
            CommitStep(s, reply) == Node(
              if lands then s.shards[a.partition := Register(Of(s, a.partition), a.man, preview)] else s.shards,
              s.objects,
              AfterCommit(a, preview, reply),
              s.journal + OutcomeName(reply),
              s.calls + [CommitCall(reply.Accepted? || reply.Misconfigured?)])
  {
  }

  /** The event is one this attempt may take, answered the way the world answered. */
  predicate Answers(e: Event, world: World) {
    match e
    case Arrive(_, _, _) => true
    case Seal(ok) => ok ==> world.sealOk
    case Advance => true
    case Put(ok, landed) => ok == world.putOk && landed == (world.putOk || world.putLanded)
    case Commit(reply) => reply == world.reply
    case ReadBack(ok) => ok == world.readOk
    case Record => true
    case Drop(ok, landed) => ok == world.dropOk && landed == (world.dropOk || world.dropLanded)
    case Begin(_, _) => false
    case Crash => false
  }

  /** The run was extended by such events alone. */
  ghost predicate Follows(before: seq<Event>, after: seq<Event>, world: World)
    decreases |after|
  {
    before == after
    || (after != [] && Answers(after[|after| - 1], world) && Follows(before, after[..|after| - 1], world))
  }

  lemma FollowsSnoc(before: seq<Event>, after: seq<Event>, e: Event, world: World)
    requires Follows(before, after, world) && Answers(e, world)
    ensures Follows(before, after + [e], world)
  {
    assert (after + [e])[..|after|] == after;
  }

  lemma {:induction false} FollowsExtends(before: seq<Event>, after: seq<Event>, world: World)
    requires Follows(before, after, world)
    ensures before <= after && forall i | |before| <= i < |after| :: Answers(after[i], world)
    decreases |after|
  {
    if before != after {
      FollowsExtends(before, after[..|after| - 1], world);
    }
  }

  /** What the step machine says of a completed attempt, for the run the methods recorded. */
  lemma OutcomeHolds(
    start: Node, before: seq<Event>, was: Node, run: seq<Event>, end: Node, p: Id, w: nat, world: World)
    requires Takes(start, before, was) && Takes(start, run, end) && end.phase.Idle?
    requires Follows(before + [Begin(p, w)], run, world)
    ensures end.phase.last.Some?
    ensures Succeeds(end.phase.last.value) ==> Recorded(Of(end, p), w, end.phase.last.value)
  {
    var begun := before + [Begin(p, w)];
    FollowsExtends(begun, run, world);
    var rest := run[|begun|..];
    assert run == before + ([Begin(p, w)] + rest);
    forall i | 0 <= i < |rest| ensures Within(rest[i]) {
      assert rest[i] == run[|begun| + i];
    }
    Splits(start, before, [Begin(p, w)] + rest);
    SuccessIsRecorded(was, p, w, rest);
  }

  class DrainCoordinator {
    var shards: map<Id, Shard>
    var store: map<string, set<Row>>
    var journal: seq<TraceEvent>
    var calls: seq<Call>
    ghost var objects: map<FenceKey, set<Row>>
    ghost var phase: Phase
    ghost var run: seq<Event>
    ghost var start: Node

    ghost function View(): Node
      reads this
    {
      Node(shards, objects, phase, journal, calls)
    }

    /** The store is represented, and the current state is the recorded run's end. */
    ghost predicate Valid()
      reads this
    {
      Represents(store, objects) && Takes(start, run, View())
    }

    function At(p: Id): Shard
      reads this`shards
    {
      if p in shards then shards[p] else EMPTY
    }

    /** Every partition's registered record, apart from at most one manifest appended for (p, w). */
    twostate predicate RegistersOnly(p: Id, w: nat)
      reads this`shards
    {
      forall q ::
        || At(q).lake == old(At(q).lake)
        || (q == p && Appends(old(At(q).lake), At(q).lake, w))
    }

    ghost method Took(before: Node, e: Event)
      requires Takes(start, run, before) && Enabled(before, e) && View() == Step(before, e)
      modifies this`run
      ensures run == old(run) + [e] && View() == old(View()) && Takes(start, run, View())
    {
      One(before, e);
      Then(start, run, before, [e], View());
      run := run + [e];
    }

    constructor ()
      ensures Valid() && View() == INIT && start == INIT && run == []
    {
      shards, store, journal, calls := map[], map[], [], [];
      objects, phase, run, start := map[], Idle(None), [], INIT;
    }

    /** Rows land in staging between two port calls. */
    method Arrivals(rows: seq<Arrival>, ghost world: World, ghost from: seq<Event>)
      requires Valid() && !phase.Down? && Follows(from, run, world)
      modifies this`shards, this`run
      ensures Valid() && Follows(from, run, world)
      ensures forall p :: SameButStaging(old(At(p)), At(p))
    {
      for i := 0 to |rows|
        invariant Valid() && Follows(from, run, world)
        invariant forall p :: SameButStaging(old(At(p)), At(p))
      {
        Accept(rows[i].partition, rows[i].window, rows[i].row, world, from);
      }
    }

    /** One row; a re-used identity is refused. */
    method Accept(p: Id, w: nat, row: Row, ghost world: World, ghost from: seq<Event>)
      requires Valid() && !phase.Down? && Follows(from, run, world)
      modifies this`shards, this`run
      ensures Valid() && Follows(from, run, world)
      ensures forall q :: SameButStaging(old(At(q)), At(q))
      ensures row.id !in Ids(old(At(p)).ever) ==> w in At(p).staging && row in At(p).staging[w]
    {
      var sh := At(p);
      if row.id !in Ids(sh.ever) {
        ghost var before := View();
        var table := if w in sh.staging then sh.staging[w] else {};
        shards := shards[p := sh.(staging := sh.staging[w := table + {row}], ever := sh.ever + {row})];
        assert View() == Step(before, Arrive(p, w, row));
        FollowsSnoc(from, run, Arrive(p, w, row), world);
        Took(before, Arrive(p, w, row));
      }
    }

    // ------------------------------------------------------------ port calls

    /** The fence pre-check reads the ledger's dense-next window and its watermark. */
    method BeginAttempt(p: Id, w: nat) returns (expected: nat, prior: Option<int>)
      requires Valid() && phase.Idle?
      modifies this`journal, this`phase, this`run
      ensures Valid() && run == old(run) + [Begin(p, w)] && expected == |At(p).ledger|
      ensures phase == BeginStep(old(View()), p, w).phase
      ensures w == expected ==> prior == Watermark(At(p).ledger)
    {
      ghost var before := View();
      expected, prior := |At(p).ledger|, None;
      if w == expected {
        prior := Watermark(At(p).ledger);
      }
      journal := [];
      phase := BeginStep(before, p, w).phase;
      Took(before, Begin(p, w));
    }

    method SealWindow(p: Id, w: nat, prior: Option<int>, world: World, ghost from: seq<Event>)
      returns (sealed: Option<Attempt>)
      requires Valid() && phase == Sealing(p, w, prior) && Follows(from, run, world)
      modifies this`journal, this`phase, this`run
      ensures Valid() && Follows(from, run, world)
      ensures sealed.Some? <==> world.sealOk && w in At(p).staging
      ensures sealed.None? ==> phase == Idle(Some(Failed(SealFailed)))
      ensures sealed.Some? ==>
                && phase == Sealed(sealed.value) && sealed.value.partition == p
                && sealed.value.window == w && sealed.value.man.window == w
      // the seal takes the whole table, and its manifest says so
      ensures sealed.Some? ==> SealsTable(sealed.value, At(p).staging[w])
      ensures journal == old(journal) + if sealed.Some? then [SealPart] else []
    {
      ghost var before := View();
      if !world.sealOk || w !in At(p).staging {
        FollowsSnoc(from, run, Seal(false), world);
        phase := Idle(Some(Failed(SealFailed)));
        Took(before, Seal(false));
        return None;
      }
      var rows := At(p).staging[w];
      sealed := Some(Attempt(p, w, prior, rows, ManifestOf(p, w, rows)));
      if rows != {} {
        LatestExists(rows);
      }
      journal := journal + [SealPart];
      phase := Sealed(sealed.value);
      FollowsSnoc(from, run, Seal(true), world);
      Took(before, Seal(true));
    }

    /** The ledger's preview of what this commit would advance the watermark to. */
    method AdvanceFor(a: Attempt) returns (r: Result<Option<int>, Rejection>)
      requires Valid() && phase == Sealed(a)
      modifies this`phase, this`run
      ensures Valid() && run == old(run) + [Advance]
      ensures r.Ok? ==> phase == Putting(a, r.value) && r.value == Watermark(At(a.partition).ledger + [a.man])
      ensures r.Err? && r.error.WindowNotNext? ==>
                r.error.expected == |At(a.partition).ledger| && r.error.got == a.man.window
      ensures r.Err? && Passed(r.error) && a.window < |At(a.partition).ledger| ==>
                phase == Dropping(a.partition, a.window, At(a.partition).ledger[a.window].coverage, AlreadyCommitted)
      ensures r.Err? && !(Passed(r.error) && a.window < |At(a.partition).ledger|) ==>
                phase == Idle(Some(Failed(LedgerRejected)))
    {
      ghost var before := View();
      var ms := At(a.partition).ledger;
      var rejection := Admit(ms, a.man);
      r := if rejection.None? then Ok(Watermark(ms + [a.man])) else Err(rejection.value);
      phase := AdvanceStep(before).phase;
      Took(before, Advance);
    }

    /** The object goes under its rendered name, which is to say under its key. */
    method StorePart(key: FenceKey, rows: set<Row>)
      requires Represents(store, objects)
      modifies this`store, this`objects
      ensures Represents(store, objects)
      ensures store == old(store)[PartName(key) := rows] && objects == old(objects)[key := rows]
    {
      PutByName(store, objects, key, rows);
      store := store[PartName(key) := rows];
      objects := objects[key := rows];
    }

    method PutPart(a: Attempt, ghost preview: Option<int>, ok: bool, landed: bool) returns (done: bool)
      requires Valid() && phase == Putting(a, preview)
      modifies this`store, this`objects, this`journal, this`phase, this`run
      ensures Valid() && run == old(run) + [Put(ok, ok || landed)] && done == ok
      ensures phase == if done then Committing(a, preview) else Idle(Some(Failed(PutFailed)))
      ensures store == if ok || landed then old(store)[PartName(a.man.part) := a.rows] else old(store)
    {
      ghost var before := View();
      done := ok;
      if ok || landed {
        StorePart(a.man.part, a.rows);
      }
      if ok {
        journal := journal + [TraceEvent.PutPart];
      }
      phase := if ok then Committing(a, preview) else Idle(Some(Failed(PutFailed)));
      Took(before, Put(ok, ok || landed));
    }

    /** The backend transaction checks by name; the fence it enforces is by key. */
    method LandFiles(p: Id, man: Manifest, mark: Option<int>)
      modifies this`shards
      ensures shards == old(shards)[p := Register(old(At(p)), man, mark)]
      ensures forall q :: At(q).lake == old(At(q).lake) || (q == p && At(q).lake == old(At(q).lake) + [man])
    {
      LandIsRegister(At(p), man, mark);
      shards := shards[p := LandByName(At(p), man, mark)];
    }

    method CommitFiles(a: Attempt, preview: Option<int>, reply: Reply)
      requires Valid() && phase == Committing(a, preview)
      modifies this`shards, this`journal, this`calls, this`phase, this`run
      ensures Valid() && run == old(run) + [Commit(reply)]
      ensures phase == AfterCommit(a, preview, reply)
      ensures forall q :: At(q).lake == old(At(q).lake)
                          || (q == a.partition && At(q).lake == old(At(q).lake) + [a.man])
    {
      ghost var before := View();
      CommitEffect(before, reply);
      if reply.Accepted? || reply.LostLanded? {
        LandFiles(a.partition, a.man, preview);
      }
      journal := journal + OutcomeName(reply);
      calls := calls + [CommitCall(reply.Accepted? || reply.Misconfigured?)];
      phase := AfterCommit(a, preview, reply);
      assert View() == CommitStep(before, reply);
      Took(before, Commit(reply));
    }

    /** The one read-back; an unreachable catalog yields no verdict. */
    method ReadAndJudge(a: Attempt, preview: Option<int>, u: Unsettled, ok: bool) returns (verdict: Option<Verdict>)
      requires Valid() && phase == ReadingBack(a, preview, u)
      modifies this`journal, this`calls, this`phase, this`run
      ensures Valid() && run == old(run) + [ReadBack(ok)]
      ensures phase == match verdict
                       case None => Idle(Some(Requeue(CatalogUnavailable)))
                       case Some(Landed) => Recording(a, u == Aborted)
                       case Some(Lost) => Idle(Some(Requeue(if u == Aborted then RejectedByBackend else CommitLost)))
                       case Some(NoEvidence) => Idle(Some(Requeue(Unproven)))
      ensures verdict == if ok then Some(Judge(a.prior, preview, At(a.partition).lakeMark)) else None
    {
      ghost var before := View();
      calls := calls + [ReadBackCall];
      verdict := None;
      if ok {
        if u == Indeterminate {
          journal := journal + [Reconcile];
        }
        verdict := Some(Judge(a.prior, preview, At(a.partition).lakeMark));
      }
      phase := ReadBackStep(before, ok).phase;
      Took(before, ReadBack(ok));
    }

    method RecordCommit(a: Attempt, yielded: bool) returns (r: Result<Option<int>, Rejection>)
      requires Valid() && phase == Recording(a, yielded)
      modifies this`shards, this`phase, this`run
      ensures Valid() && run == old(run) + [Record]
      ensures r.Err? ==> phase == Idle(Some(Failed(LedgerRejected)))
      ensures r.Ok? ==> phase == Dropping(a.partition, a.window, a.man.coverage,
                                          if yielded then AlreadyCommitted else Committed(r.value))
      ensures r.Ok? ==> r.value == Watermark(At(a.partition).ledger)
      ensures forall q :: At(q).lake == old(At(q).lake)
    {
      ghost var before := View();
      var sh := At(a.partition);
      var rejection := Admit(sh.ledger, a.man);
      if rejection.None? {
        shards := shards[a.partition := sh.(ledger := sh.ledger + [a.man])];
        r := Ok(Watermark(sh.ledger + [a.man]));
      } else if Passed(rejection.value) {
        shards := shards[a.partition := sh];
        r := Ok(Watermark(sh.ledger));
      } else {
        r := Err(rejection.value);
      }
      phase := RecordStep(before).phase;
      assert View() == RecordStep(before);
      Took(before, Record);
    }

    /** The coverage-guarded drop; journaled when it was authorised and a table was there. */
    method DropCovered(p: Id, w: nat, covered: set<RowId>, outcome: Outcome, ok: bool, landed: bool)
      returns (end: Outcome)
      requires Valid() && phase == Dropping(p, w, covered, outcome)
      modifies this`shards, this`journal, this`phase, this`run
      ensures Valid() && run == old(run) + [Drop(ok, ok || landed)]
      ensures phase == Idle(Some(end)) && end == if ok then outcome else Failed(SealFailed)
      // journaled exactly when it was authorised, done, and a table was there
      ensures journal == old(journal) + if ok && covered != {} && w in old(At(p)).staging then [DropWindow] else []
      ensures forall q :: At(q).lake == old(At(q).lake)
    {
      ghost var before := View();
      end := if ok then outcome else Failed(SealFailed);
      var sh := At(p);
      if ok || landed {
        shards := shards[p := sh.(staging := DropRows(sh.staging, w, covered))];
      }
      if ok && covered != {} && w in sh.staging {
        journal := journal + [DropWindow];
      }
      phase := Idle(Some(end));
      assert View() == DropStep(before, ok, ok || landed);
      Took(before, Drop(ok, ok || landed));
    }

    // --------------------------------------------------------- choreography

    /**
     Drains one window end to end: one pre-check of this window, then only events answered the
     way the world answered, reaching the returned outcome by a run of the step machine.
     */
    method DrainWindow(p: Id, w: nat, world: World) returns (outcome: Outcome)
      requires Valid() && phase.Idle?
      modifies this
      ensures Valid() && start == old(start) && Follows(old(run) + [Begin(p, w)], run, world)
      ensures phase == Idle(Some(outcome)) && RegistersOnly(p, w)
      // a window ahead of the ledger is refused, nothing else is, and then nothing has moved
      ensures outcome == Failed(WindowAhead) <==> w > |old(At(p)).ledger|
      ensures outcome == Failed(WindowAhead) ==> shards == old(shards) && store == old(store) && calls == old(calls)
      // a window the ledger already holds needs only its drop
      ensures w < |old(At(p)).ledger| ==> outcome == if world.dropOk then AlreadyCommitted else Failed(SealFailed)
      // success is reported only for a window the ledger holds, with the watermark that includes it
      ensures Succeeds(outcome) ==> Recorded(At(p), w, outcome)
    {
      ghost var before := run;
      ghost var was := View();
      var expected, prior := BeginAttempt(p, w);
      ghost var from := run;
      if w < expected {
        outcome := FinishAlreadyCommitted(p, w, world, from);
      } else if w > expected {
        outcome := Failed(WindowAhead);
      } else {
        outcome := DrainNext(p, w, prior, world, from);
      }
      OutcomeHolds(start, before, was, run, View(), p, w, world);
    }

    /** Seal, preview, and on to the object and the commit. */
    method DrainNext(p: Id, w: nat, prior: Option<int>, world: World, ghost from: seq<Event>) returns (outcome: Outcome)
      requires Valid() && phase == Sealing(p, w, prior) && w == |At(p).ledger| && Follows(from, run, world)
      modifies this
      ensures Valid() && start == old(start) && Follows(from, run, world)
      ensures outcome != Failed(WindowAhead) && phase == Idle(Some(outcome)) && RegistersOnly(p, w)
    {
      Arrivals(world.beforeSeal, world, from);
      assert SameButStaging(old(At(p)), At(p));
      var sealed := SealWindow(p, w, prior, world, from);
      if sealed.None? {
        return Failed(SealFailed);
      }
      var a := sealed.value;
      FollowsSnoc(from, run, Advance, world);
      var previewed := AdvanceFor(a);
      // One attempt at a time: nothing recorded this window since the pre-check.
      assert previewed.Err? ==> !Passed(previewed.error);
      if previewed.Err? {
        return Failed(LedgerRejected);
      }
      outcome := PutAndCommit(a, previewed.value, world, from);
    }

    method PutAndCommit(a: Attempt, preview: Option<int>, world: World, ghost from: seq<Event>)
      returns (outcome: Outcome)
      requires Valid() && phase == Putting(a, preview) && a.man.window == a.window && Follows(from, run, world)
      modifies this
      ensures Valid() && start == old(start) && Follows(from, run, world)
      ensures outcome != Failed(WindowAhead) && phase == Idle(Some(outcome)) && RegistersOnly(a.partition, a.window)
    {
      Arrivals(world.beforePut, world, from);
      FollowsSnoc(from, run, Put(world.putOk, world.putOk || world.putLanded), world);
      var put := PutPart(a, preview, world.putOk, world.putLanded);
      if !put {
        return Failed(PutFailed);
      }
      outcome := CommitPart(a, preview, world, from);
    }

    method CommitPart(a: Attempt, preview: Option<int>, world: World, ghost from: seq<Event>) returns (outcome: Outcome)
      requires Valid() && phase == Committing(a, preview) && a.man.window == a.window && Follows(from, run, world)
      modifies this
      ensures Valid() && start == old(start) && Follows(from, run, world)
      ensures outcome != Failed(WindowAhead) && phase == Idle(Some(outcome)) && RegistersOnly(a.partition, a.window)
    {
      Arrivals(world.beforeCommit, world, from);
      FollowsSnoc(from, run, Commit(world.reply), world);
      CommitFiles(a, preview, world.reply);
      outcome := SettleCommit(a, preview, world, from);
    }

    /** The three-valued outcome: record, read back once, or fail. */
    method SettleCommit(a: Attempt, preview: Option<int>, world: World, ghost from: seq<Event>)
      returns (outcome: Outcome)
      requires Valid() && phase == AfterCommit(a, preview, world.reply) && Follows(from, run, world)
      modifies this
      ensures Valid() && start == old(start) && Follows(from, run, world)
      ensures outcome != Failed(WindowAhead) && phase == Idle(Some(outcome))
      ensures forall q :: At(q).lake == old(At(q).lake)
    {
      match world.reply {
        case Accepted => outcome := FinishCommitted(a, false, world, from);
        case Rejected => outcome := ReconcileCommit(a, preview, Aborted, world, from);
        case Misconfigured => outcome := Failed(LakeFailed);
        case _ => outcome := ReconcileCommit(a, preview, Indeterminate, world, from);
      }
    }

    /** Exactly one read-back, then the verdict. */
    method ReconcileCommit(a: Attempt, preview: Option<int>, u: Unsettled, world: World, ghost from: seq<Event>)
      returns (outcome: Outcome)
      requires Valid() && phase == ReadingBack(a, preview, u) && Follows(from, run, world)
      modifies this
      ensures Valid() && start == old(start) && Follows(from, run, world)
      ensures outcome != Failed(WindowAhead) && phase == Idle(Some(outcome))
      ensures forall q :: At(q).lake == old(At(q).lake)
    {
      Arrivals(world.beforeRead, world, from);
      FollowsSnoc(from, run, ReadBack(world.readOk), world);
      var verdict := ReadAndJudge(a, preview, u, world.readOk);
      if verdict.None? {
        return Requeue(CatalogUnavailable);
      }
      match verdict.value {
        case Landed => outcome := FinishCommitted(a, u == Aborted, world, from);
        case Lost => outcome := Requeue(if u == Aborted then RejectedByBackend else CommitLost);
        case NoEvidence => outcome := Requeue(Unproven);
      }
    }

    method FinishCommitted(a: Attempt, yielded: bool, world: World, ghost from: seq<Event>) returns (outcome: Outcome)
      requires Valid() && phase == Recording(a, yielded) && Follows(from, run, world)
      modifies this
      ensures Valid() && start == old(start) && Follows(from, run, world)
      ensures outcome != Failed(WindowAhead) && phase == Idle(Some(outcome))
      ensures forall q :: At(q).lake == old(At(q).lake)
    {
      FollowsSnoc(from, run, Record, world);
      var recorded := RecordCommit(a, yielded);
      if recorded.Err? {
        return Failed(LedgerRejected);
      }
      var reached := if yielded then AlreadyCommitted else Committed(recorded.value);
      outcome := DropPending(a.partition, a.window, a.man.coverage, reached, world, from);
    }

    /** The drop both successes end with. */
    method DropPending(p: Id, w: nat, covered: set<RowId>, reached: Outcome, world: World, ghost from: seq<Event>)
      returns (outcome: Outcome)
      requires Valid() && phase == Dropping(p, w, covered, reached) && Follows(from, run, world)
      modifies this
      ensures Valid() && start == old(start) && Follows(from, run, world)
      ensures outcome == (if world.dropOk then reached else Failed(SealFailed)) && phase == Idle(Some(outcome))
      ensures forall q :: At(q).lake == old(At(q).lake)
    {
      Arrivals(world.beforeDrop, world, from);
      FollowsSnoc(from, run, Drop(world.dropOk, world.dropOk || world.dropLanded), world);
      outcome := DropCovered(p, w, covered, reached, world.dropOk, world.dropLanded);
    }

    method FinishAlreadyCommitted(p: Id, w: nat, world: World, ghost from: seq<Event>) returns (outcome: Outcome)
      requires Valid() && w < |At(p).ledger| && Follows(from, run, world)
      requires phase == Dropping(p, w, At(p).ledger[w].coverage, AlreadyCommitted)
      modifies this
      ensures Valid() && start == old(start) && Follows(from, run, world)
      ensures outcome == if world.dropOk then AlreadyCommitted else Failed(SealFailed)
      ensures phase == Idle(Some(outcome))
      ensures forall q :: At(q).lake == old(At(q).lake)
    {
      outcome := DropPending(p, w, At(p).ledger[w].coverage, AlreadyCommitted, world, from);
    }
  }

  /** One manifest, for window w, was appended. */
  ghost predicate Appends(a: seq<Manifest>, b: seq<Manifest>, w: nat) {
    |b| == |a| + 1 && a <= b && b[|a|].window == w
  }

  /** Arrivals touch the tables only, and only by adding rows. */
  ghost predicate SameButStaging(a: Shard, b: Shard) {
    && a.lake == b.lake && a.lakeMark == b.lakeMark && a.ledger == b.ledger
    && forall w <- a.staging :: w in b.staging && a.staging[w] <= b.staging[w]
  }
}
