/**
 What an attempt's outcome says about the record: success is reported only for a window the
 ledger has recorded, with the watermark that includes it; and where verdicts are right, the
 window is registered and none of its covered rows is left in staging.
 */
module DrainOutcome {
  import opened Options
  import opened Naming
  import opened Ledger
  import opened Drain
  import opened DrainSafety

  predicate Succeeds(o: Outcome) {
    o.Committed? || o.AlreadyCommitted?
  }

  /** The window is in the ledger, and a reported watermark is the one that includes it. */
  predicate Recorded(sh: Shard, w: nat, o: Outcome) {
    w < |sh.ledger| && (o.Committed? ==> o.mark == Watermark(sh.ledger))
  }

  /** The attempt under way, or just ended, is at this window. */
  predicate AttemptOn(s: Node, p: Id, w: nat) {
    match s.phase
    case Sealing(q, x, _) => q == p && x == w
    case Sealed(a) => IsOn(a, p, w)
    case Putting(a, _) => IsOn(a, p, w)
    case Committing(a, _) => IsOn(a, p, w)
    case ReadingBack(a, _, _) => IsOn(a, p, w)
    case Recording(a, _) => IsOn(a, p, w)
    case Dropping(q, x, _, o) => q == p && x == w && Recorded(Of(s, p), w, o)
    case Idle(last) => last.Some? && (Succeeds(last.value) ==> Recorded(Of(s, p), w, last.value))
    case Down => false
  }

  predicate IsOn(a: Attempt, p: Id, w: nat) {
    a.partition == p && a.window == w && a.man.window == w
  }

  /** An event within one attempt. */
  predicate Within(e: Event) {
    !e.Begin? && !e.Crash?
  }

  lemma BeginsOn(s: Node, p: Id, w: nat)
    requires s.phase.Idle?
    ensures AttemptOn(BeginStep(s, p, w), p, w)
  {
    assert Of(BeginStep(s, p, w), p) == Of(s, p);
  }

  lemma StaysOn(s: Node, e: Event, p: Id, w: nat)
    requires AttemptOn(s, p, w) && Enabled(s, e) && Within(e)
    ensures AttemptOn(Step(s, e), p, w)
  {
    match e {
      case Arrive(q, x, row) => ArriveStaysOn(s, q, x, row, p, w);
      case Seal(ok) => SealStaysOn(s, ok, p, w);
      case Advance => AdvanceStaysOn(s, p, w);
      case Put(ok, landed) => PutStaysOn(s, ok, landed, p, w);
      case Commit(reply) => CommitStaysOn(s, reply, p, w);
      case ReadBack(ok) => ReadBackStaysOn(s, ok, p, w);
      case Record => RecordStaysOn(s, p, w);
      case Drop(ok, landed) => DropStaysOn(s, ok, landed, p, w);
    }
  }

  lemma ArriveStaysOn(s: Node, q: Id, x: nat, row: Row, p: Id, w: nat)
    requires AttemptOn(s, p, w)
    ensures AttemptOn(ArriveStep(s, q, x, row), p, w)
  {
    assert Of(ArriveStep(s, q, x, row), p).ledger == Of(s, p).ledger;
  }

  lemma SealStaysOn(s: Node, ok: bool, p: Id, w: nat)
    requires AttemptOn(s, p, w) && Enabled(s, Seal(ok))
    ensures AttemptOn(SealStep(s, ok), p, w)
  {
  }

  lemma AdvanceStaysOn(s: Node, p: Id, w: nat)
    requires AttemptOn(s, p, w) && s.phase.Sealed?
    ensures AttemptOn(AdvanceStep(s), p, w)
  {
    assert Of(AdvanceStep(s), p) == Of(s, p);
  }

  lemma PutStaysOn(s: Node, ok: bool, landed: bool, p: Id, w: nat)
    requires AttemptOn(s, p, w) && s.phase.Putting?
    ensures AttemptOn(PutStep(s, ok, landed), p, w)
  {
  }

  lemma CommitStaysOn(s: Node, reply: Reply, p: Id, w: nat)
    requires AttemptOn(s, p, w) && s.phase.Committing?
    ensures AttemptOn(CommitStep(s, reply), p, w)
  {
  }

  lemma ReadBackStaysOn(s: Node, ok: bool, p: Id, w: nat)
    requires AttemptOn(s, p, w) && s.phase.ReadingBack?
    ensures AttemptOn(ReadBackStep(s, ok), p, w)
  {
  }

  lemma RecordStaysOn(s: Node, p: Id, w: nat)
    requires AttemptOn(s, p, w) && s.phase.Recording?
    ensures AttemptOn(RecordStep(s), p, w)
  {
  }

  lemma DropStaysOn(s: Node, ok: bool, landed: bool, p: Id, w: nat)
    requires AttemptOn(s, p, w) && s.phase.Dropping?
    ensures AttemptOn(DropStep(s, ok, landed), p, w)
  {
    assert Of(DropStep(s, ok, landed), p).ledger == Of(s, p).ledger;
  }

  lemma {:induction false} EndsOn(s: Node, rest: seq<Event>, p: Id, w: nat)
    requires AttemptOn(s, p, w) && Legal(s, rest) && forall i | 0 <= i < |rest| :: Within(rest[i])
    ensures AttemptOn(Exec(s, rest), p, w)
    decreases |rest|
  {
    if rest != [] {
      assert Within(rest[0]);
      StaysOn(s, rest[0], p, w);
      EndsOn(Step(s, rest[0]), rest[1..], p, w);
    }
  }

  lemma {:induction false} Splits(s: Node, a: seq<Event>, b: seq<Event>)
    requires Legal(s, a + b)
    ensures Legal(s, a) && Legal(Exec(s, a), b) && Exec(s, a + b) == Exec(Exec(s, a), b)
    decreases |a|
  {
    if a == [] {
      assert a + b == b;
    } else {
      assert (a + b)[1..] == a[1..] + b;
      Splits(Step(s, a[0]), a[1..], b);
    }
  }

  /**
   Every attempt of every run, from any state: if it ends in success, its window is in the ledger,
   and a reported watermark is the ledger's with this window.
   */
  lemma SuccessIsRecorded(s: Node, p: Id, w: nat, rest: seq<Event>)
    requires Legal(s, [Begin(p, w)] + rest) && forall i | 0 <= i < |rest| :: Within(rest[i])
    ensures var end := Exec(s, [Begin(p, w)] + rest);
            end.phase.Idle? ==>
              && end.phase.last.Some?
              && (Succeeds(end.phase.last.value) ==> Recorded(Of(end, p), w, end.phase.last.value))
  {
    Splits(s, [Begin(p, w)], rest);
    One(s, Begin(p, w));
    BeginsOn(s, p, w);
    EndsOn(BeginStep(s, p, w), rest, p, w);
  }

  /** A window ahead of the ledger is refused at once, and nothing but the journal and the phase moves. */
  lemma AheadIsRefused(s: Node, p: Id, w: nat)
    requires s.phase.Idle?
    ensures BeginStep(s, p, w).phase == Idle(Some(Failed(WindowAhead))) <==> w > |Of(s, p).ledger|
    ensures var t := BeginStep(s, p, w);
            t.shards == s.shards && t.objects == s.objects && t.calls == s.calls && t.journal == []
  {
  }

  // ------------------------------------------------------- what each step moves

  /** A sealed window the ledger has passed meanwhile is not put again: only its pending drop is completed. */
  lemma PassedAdvanceDrops(s: Node)
    requires s.phase.Sealed? && s.phase.a.man.window == s.phase.a.window
    ensures var a := s.phase.a;
            var ms := Of(s, a.partition).ledger;
            a.window < |ms| <==> AdvanceStep(s).phase.Dropping?
    ensures var a, t := s.phase.a, AdvanceStep(s);
            t.phase.Dropping? ==>
              t == s.(phase := Dropping(a.partition, a.window, Of(s, a.partition).ledger[a.window].coverage,
                                        AlreadyCommitted))
  {
  }

  /** Recording appends this manifest to this ledger and touches nothing else of any partition. */
  lemma RecordMoves(s: Node, q: Id)
    requires s.phase.Recording? && Admit(Of(s, s.phase.a.partition).ledger, s.phase.a.man).None?
    ensures var a := s.phase.a;
            Of(RecordStep(s), q) ==
              if q == a.partition then Of(s, q).(ledger := Of(s, q).ledger + [a.man]) else Of(s, q)
    ensures RecordStep(s).objects == s.objects && RecordStep(s).calls == s.calls && RecordStep(s).journal == s.journal
  {
  }

  /** The drop moves this partition's staging alone, if it landed, and is journaled if it did its work. */
  lemma DropMoves(s: Node, ok: bool, landed: bool, q: Id)
    requires s.phase.Dropping?
    ensures var p, w, covered := s.phase.partition, s.phase.window, s.phase.covered;
            Of(DropStep(s, ok, landed), q) ==
              if q == p && landed then Of(s, q).(staging := DropRows(Of(s, q).staging, w, covered)) else Of(s, q)
    ensures DropStep(s, ok, landed).journal ==
            s.journal + if ok && s.phase.covered != {} && s.phase.window in Of(s, s.phase.partition).staging
                        then [DropWindow] else []
  {
  }

  // ----------------------------------------------------------------- and drained

  /** No row the ledger's entry covers is left in the window's table. */
  ghost predicate Emptied(sh: Shard, w: nat) {
    w < |sh.ledger| && (w in sh.staging ==> Ids(sh.staging[w]) !! sh.ledger[w].coverage)
  }

  ghost predicate DrainedOn(s: Node, p: Id, w: nat) {
    s.phase.Idle? && s.phase.last.Some? && Succeeds(s.phase.last.value) ==> Emptied(Of(s, p), w)
  }

  lemma DrainedStays(s: Node, e: Event, p: Id, w: nat)
    requires Inv(s) && AttemptOn(s, p, w) && DrainedOn(s, p, w) && Enabled(s, e) && Within(e)
    ensures DrainedOn(Step(s, e), p, w)
  {
    match e {
      case Arrive(q, x, row) => ArriveDrained(s, q, x, row, p, w);
      case Drop(ok, landed) => DropDrains(s, ok, landed, p, w);
      case _ => OnlyDropsSucceed(s, e);
    }
  }

  /** Success is reported by a completed drop and by nothing else. */
  lemma OnlyDropsSucceed(s: Node, e: Event)
    requires Enabled(s, e) && Within(e) && !e.Arrive? && !e.Drop?
    ensures var t := Step(s, e); t.phase.Idle? ==> t.phase.last.Some? && !Succeeds(t.phase.last.value)
  {
  }

  lemma ArriveDrained(s: Node, q: Id, x: nat, row: Row, p: Id, w: nat)
    requires Inv(s) && DrainedOn(s, p, w) && Enabled(s, Arrive(q, x, row))
    ensures DrainedOn(ArriveStep(s, q, x, row), p, w)
  {
    if s.phase.Idle? && s.phase.last.Some? && Succeeds(s.phase.last.value) && q == p {
      assert ShardInv(p, Of(s, p), s.objects);
      ReceivedEmptied(p, Of(s, p), s.objects, w, x, row);
    }
  }

  lemma ReceivedEmptied(p: Id, sh: Shard, objects: map<FenceKey, set<Row>>, w: nat, x: nat, row: Row)
    requires Emptied(sh, w) && Backed(p, sh.ledger, sh.ever, objects) && row.id !in Ids(sh.ever)
    ensures var table := if x in sh.staging then sh.staging[x] else {};
            Emptied(sh.(staging := sh.staging[x := table + {row}], ever := sh.ever + {row}), w)
  {
    assert sh.ledger[w].coverage <= Ids(sh.ever);
  }

  lemma DropDrains(s: Node, ok: bool, landed: bool, p: Id, w: nat)
    requires Inv(s) && AttemptOn(s, p, w) && Enabled(s, Drop(ok, landed))
    ensures DrainedOn(DropStep(s, ok, landed), p, w)
  {
    if ok {
      var sh := Of(s, p);
      DropEmpties(sh.staging, w, s.phase.covered);
      assert Of(DropStep(s, ok, landed), p) == sh.(staging := DropRows(sh.staging, w, s.phase.covered));
    }
  }

  /** The drop leaves exactly the uncovered rows of that window, all other tables, and no empty table behind. */
  lemma DropLeavesExactly(staging: map<nat, set<Row>>, w: nat, covered: set<RowId>, x: nat, r: Row)
    ensures x in DropRows(staging, w, covered) && r in DropRows(staging, w, covered)[x] <==>
            x in staging && r in staging[x] && !(x == w && r.id in covered)
    ensures w in DropRows(staging, w, covered) ==> DropRows(staging, w, covered)[w] != {}
  {
    if w in staging && r in staging[w] && r.id !in covered {
      assert r in Uncovered(staging[w], covered);
    }
  }

  lemma DropEmpties(staging: map<nat, set<Row>>, w: nat, covered: set<RowId>)
    ensures w in DropRows(staging, w, covered) ==> Ids(DropRows(staging, w, covered)[w]) !! covered
  {
  }

  lemma {:induction false} EndsDrained(s: Node, rest: seq<Event>, p: Id, w: nat)
    requires Inv(s) && AttemptOn(s, p, w) && DrainedOn(s, p, w) && Legal(s, rest) && TrueVerdicts(s, rest)
    requires forall i | 0 <= i < |rest| :: Within(rest[i])
    ensures Inv(Exec(s, rest)) && AttemptOn(Exec(s, rest), p, w) && DrainedOn(Exec(s, rest), p, w)
    decreases |rest|
  {
    if rest != [] {
      assert Within(rest[0]);
      DrainedStays(s, rest[0], p, w);
      StaysOn(s, rest[0], p, w);
      StepKeeps(s, rest[0]);
      EndsDrained(Step(s, rest[0]), rest[1..], p, w);
    }
  }

  /**
   Where verdicts are right, success means drained: the window is recorded and registered, and
   every row its entry covers has left staging.
   */
  lemma SuccessIsDrained(s: Node, p: Id, w: nat, rest: seq<Event>)
    requires Inv(s) && Legal(s, [Begin(p, w)] + rest) && TrueVerdicts(s, [Begin(p, w)] + rest)
    requires forall i | 0 <= i < |rest| :: Within(rest[i])
    ensures var end := Exec(s, [Begin(p, w)] + rest);
            end.phase.Idle? && end.phase.last.Some? && Succeeds(end.phase.last.value) ==>
              Recorded(Of(end, p), w, end.phase.last.value) && Registered(end, p, w) && Emptied(Of(end, p), w)
  {
    var all := [Begin(p, w)] + rest;
    assert all[1..] == rest;
    BeginsOn(s, p, w);
    StepKeeps(s, Begin(p, w));
    EndsDrained(BeginStep(s, p, w), rest, p, w);
    RegisteredIff(Exec(s, all), p, w);
    assert ShardInv(p, Of(Exec(s, all), p), Exec(s, all).objects);
  }
}
