/**
 The seeded scheduler: a single-threaded executor over virtual time, polling
 tasks in rounds in an order a strategy picks. Tasks are finite scripts.
 */
module Scheduler {
  import opened Options

  const U64_MAX: nat := 0xffff_ffff_ffff_ffff

  /** What a task does between polls. `Block` waits for something other than time, forever. */
  datatype Script =
    | Done
    | Block
    | Yield(next: Script)
    | Sleep(nanos: nat, next: Script)
    | Spawn(child: Script, next: Script)

  datatype State = Runnable(script: Script) | Asleep(deadline: nat, next: Script)
  datatype Task = Task(id: nat, state: State)

  /** One poll's effects; `rest` is None when the task completed. */
  datatype Polled = Polled(rest: Option<State>, woke: bool, spawned: seq<Script>, armed: set<nat>)

  function SaturatingAdd(a: nat, b: nat): nat {
    if a + b > U64_MAX then U64_MAX else a + b
  }

  function Poll(s: Script, now: nat): Polled {
    match s
    case Done => Polled(None, false, [], {})
    case Block => Polled(Some(Runnable(Block)), false, [], {})
    case Yield(next) => Polled(Some(Runnable(next)), true, [], {})
    case Sleep(n, next) =>
      var deadline := SaturatingAdd(now, n);
      if now >= deadline then var r := Poll(next, now); r.(armed := {deadline} + r.armed)
      else Polled(Some(Asleep(deadline, next)), false, [], {deadline})
    case Spawn(child, next) => var r := Poll(next, now); r.(spawned := [child] + r.spawned)
  }

  function PollState(st: State, now: nat): Polled {
    match st
    case Runnable(s) => Poll(s, now)
    case Asleep(d, next) => if now >= d then Poll(next, now) else Polled(Some(st), false, [], {})
  }

  // ----------------------------------------------------------------- measures

  function Work(s: Script): nat {
    match s
    case Done => 0
    case Block => 1
    case Yield(next) => 1 + Work(next)
    case Sleep(_, next) => 1 + Work(next)
    case Spawn(child, next) => 2 + Work(child) + Work(next)
  }

  /** How many tasks end up blocked on something other than time, children included. */
  function Blocks(s: Script): nat {
    match s
    case Done => 0
    case Block => 1
    case Yield(next) => Blocks(next)
    case Sleep(_, next) => Blocks(next)
    case Spawn(child, next) => Blocks(child) + Blocks(next)
  }

  /** The latest instant a script or one of its children sleeps to, starting at `now`. */
  function Horizon(s: Script, now: nat): nat {
    match s
    case Done => now
    case Block => now
    case Yield(next) => Horizon(next, now)
    case Sleep(n, next) => Horizon(next, SaturatingAdd(now, n))
    case Spawn(child, next) => Max(Horizon(child, now), Horizon(next, now))
  }

  function Max(a: nat, b: nat): nat {
    if a >= b then a else b
  }

  function Remaining(st: State): Script {
    if st.Runnable? then st.script else st.next
  }

  function Load(st: State): nat { 1 + Work(Remaining(st)) }
  function Stuck(st: State): nat { Blocks(Remaining(st)) }

  /** The latest instant a task or one of its descendants sleeps to. */
  function Reach(st: State, now: nat): nat {
    match st
    case Runnable(s) => Horizon(s, now)
    case Asleep(d, next) => Horizon(next, Max(d, now))
  }

  /** The latest instant any of the tasks sleeps to, and at least `now`. */
  function Latest(ts: seq<Task>, now: nat): nat {
    if ts == [] then now else Max(Latest(ts[..|ts| - 1], now), Reach(ts[|ts| - 1].state, now))
  }

  /** One for a task that sleeps past `bound`, as a measure. */
  function Beyond(now: nat, bound: nat): State -> nat {
    (st: State) => if Reach(st, now) > bound then 1 else 0
  }

  /** One for a task asleep until exactly this deadline. */
  function AsleepUntil(d: nat): State -> nat {
    (st: State) => if st.Asleep? && st.deadline == d then 1 else 0
  }

  function Sum(ts: seq<Task>, f: State -> nat): nat {
    if ts == [] then 0 else Sum(ts[..|ts| - 1], f) + f(ts[|ts| - 1].state)
  }

  function SumScripts(ss: seq<Script>, f: State -> nat): nat {
    if ss == [] then 0 else f(Runnable(ss[0])) + SumScripts(ss[1..], f)
  }

  /** What is left of a measure after a poll: the task itself plus its new children. */
  function Left(r: Polled, f: State -> nat): nat {
    (if r.rest.None? then 0 else f(r.rest.value)) + SumScripts(r.spawned, f)
  }

  predicate IsProgress(r: Polled) {
    r.rest.None? || r.woke || r.spawned != []
  }

  lemma ConsScripts(child: Script, ss: seq<Script>, f: State -> nat)
    ensures SumScripts([child] + ss, f) == f(Runnable(child)) + SumScripts(ss, f)
  {
    assert ([child] + ss)[1..] == ss;
  }

  /** A poll never adds work, and whatever it does except wait costs some. */
  lemma {:induction false} PollCosts(s: Script, now: nat)
    ensures var r := Poll(s, now);
            && Left(r, Load) <= 1 + Work(s)
            && (IsProgress(r) || r.armed != {} ==> Left(r, Load) < 1 + Work(s))
  {
    match s
    case Sleep(n, next) => PollCosts(next, now);
    case Spawn(child, next) =>
      PollCosts(next, now);
      ConsScripts(child, Poll(next, now).spawned, Load);
    case _ =>
  }

  /** A poll moves blocked ends; it neither adds nor loses one. */
  lemma {:induction false} PollKeepsBlocks(s: Script, now: nat)
    ensures Left(Poll(s, now), Stuck) == Blocks(s)
  {
    match s
    case Sleep(n, next) => PollKeepsBlocks(next, now);
    case Spawn(child, next) =>
      PollKeepsBlocks(next, now);
      ConsScripts(child, Poll(next, now).spawned, Stuck);
    case _ =>
  }

  /** Time only runs forward, and saturates. */
  lemma {:induction false} HorizonAhead(s: Script, now: nat)
    requires now <= U64_MAX
    ensures now <= Horizon(s, now) <= U64_MAX
  {
    match s
    case Yield(next) => HorizonAhead(next, now);
    case Sleep(n, next) => HorizonAhead(next, SaturatingAdd(now, n));
    case Spawn(child, next) =>
      HorizonAhead(child, now);
      HorizonAhead(next, now);
    case _ =>
  }

  /** A poll moves the sleeps still ahead; it neither adds nor loses a latest one. */
  lemma {:induction false} PollKeepsHorizon(s: Script, now: nat, bound: nat)
    requires now <= bound && now <= U64_MAX
    ensures Left(Poll(s, now), Beyond(now, bound)) == 0 <==> Horizon(s, now) <= bound
  {
    match s
    case Sleep(n, next) =>
      PollKeepsHorizon(next, now, bound);
      SleepKeepsHorizon(n, next, now, bound);
    case Spawn(child, next) =>
      PollKeepsHorizon(next, now, bound);
      ConsScripts(child, Poll(next, now).spawned, Beyond(now, bound));
      assert Beyond(now, bound)(Runnable(child)) == 0 <==> Horizon(child, now) <= bound;
    case _ =>
      assert Beyond(now, bound)(Runnable(Block)) == 0;
  }

  lemma SleepKeepsHorizon(n: nat, next: Script, now: nat, bound: nat)
    requires now <= bound && now <= U64_MAX
    requires Left(Poll(next, now), Beyond(now, bound)) == 0 <==> Horizon(next, now) <= bound
    ensures Left(Poll(Sleep(n, next), now), Beyond(now, bound)) == 0 <==> Horizon(Sleep(n, next), now) <= bound
  {
    var d, f := SaturatingAdd(now, n), Beyond(now, bound);
    if now < d {
      assert Left(Poll(Sleep(n, next), now), f) == f(Asleep(d, next));
    } else {
      assert Left(Poll(Sleep(n, next), now), f) == Left(Poll(next, now), f);
    }
  }

  /** A future deadline a poll arms is the one its task now sleeps to. */
  lemma {:induction false} PollBacks(s: Script, now: nat, d: nat)
    requires d > now && d in Poll(s, now).armed
    ensures Left(Poll(s, now), AsleepUntil(d)) > 0
  {
    match s
    case Sleep(n, next) =>
      if now >= SaturatingAdd(now, n) {
        PollBacks(next, now, d);
      }
    case Spawn(child, next) =>
      PollBacks(next, now, d);
      ConsScripts(child, Poll(next, now).spawned, AsleepUntil(d));
  }

  /** A task left over is blocked, or waits for a future deadline it has armed. */
  ghost predicate Waits(st: State, now: nat, deadlines: set<nat>) {
    match st
    case Runnable(s) => s == Block
    case Asleep(d, _) => d > now && d in deadlines
  }

  lemma {:induction false} PollLeaves(s: Script, now: nat)
    ensures var r := Poll(s, now);
            && (r.rest.Some? && !r.woke ==> Waits(r.rest.value, now, r.armed))
            && (r.rest.Some? && r.rest.value.Asleep? ==> r.rest.value.deadline in r.armed)
            && (now <= U64_MAX ==> forall d <- r.armed :: d <= U64_MAX)
  {
    match s
    case Sleep(n, next) => PollLeaves(next, now);
    case Spawn(child, next) => PollLeaves(next, now);
    case _ =>
  }

  // --------------------------------------------------------------- the bench

  /** The identities of a list of tasks, with multiplicity. */
  function IdBag(ts: seq<Task>): multiset<nat> {
    if ts == [] then multiset{} else IdBag(ts[..|ts| - 1]) + multiset{ts[|ts| - 1].id}
  }

  function SwapRemove(ts: seq<Task>, i: nat): seq<Task>
    requires i < |ts|
  {
    var last := |ts| - 1;
    if i == last then ts[..last] else ts[..i] + [ts[last]] + ts[i + 1..last]
  }

  /** Children pushed by a poll, as fresh tasks. */
  function Fresh(scripts: seq<Script>, id: nat): seq<Task> {
    if scripts == [] then [] else [Task(id, Runnable(scripts[0]))] + Fresh(scripts[1..], id + 1)
  }

  /** A round in progress: not yet polled, polled and pending, newly spawned; and the logs. */
  datatype Bench = Bench(
    round: seq<Task>, still: seq<Task>, queue: seq<Task>, deadlines: set<nat>, nextId: nat,
    polled: multiset<nat>, finished: multiset<nat>, progressed: bool)

  /** One pick and poll: the chosen task leaves by swap, and its poll's effects land. */
  function PollAt(b: Bench, i: nat, now: nat): Bench
    requires i < |b.round|
  {
    var t := b.round[i];
    var r := PollState(t.state, now);
    Bench(
      SwapRemove(b.round, i),
      if r.rest.None? then b.still else b.still + [Task(t.id, r.rest.value)],
      b.queue + Fresh(r.spawned, b.nextId),
      b.deadlines + r.armed,
      b.nextId + |r.spawned|,
      b.polled + multiset{t.id},
      if r.rest.None? then b.finished + multiset{t.id} else b.finished,
      b.progressed || r.rest.None? || r.woke)
  }

  function InPlay(b: Bench, f: State -> nat): nat {
    Sum(b.round, f) + Sum(b.still, f) + Sum(b.queue, f)
  }

  lemma {:induction false} Concat(a: seq<Task>, b: seq<Task>, f: State -> nat)
    ensures Sum(a + b, f) == Sum(a, f) + Sum(b, f)
  {
    if b == [] {
      assert a + b == a;
    } else {
      assert (a + b)[..|a + b| - 1] == a + b[..|b| - 1];
      Concat(a, b[..|b| - 1], f);
    }
  }

  lemma {:induction false} ConcatIds(a: seq<Task>, b: seq<Task>)
    ensures IdBag(a + b) == IdBag(a) + IdBag(b)
  {
    if b == [] {
      assert a + b == a;
    } else {
      assert (a + b)[..|a + b| - 1] == a + b[..|b| - 1];
      ConcatIds(a, b[..|b| - 1]);
    }
  }

  lemma Single(t: Task, f: State -> nat)
    ensures Sum([t], f) == f(t.state) && IdBag([t]) == multiset{t.id}
  {
    assert [t][..0] == [];
  }

  lemma Reassemble(ts: seq<Task>, i: nat)
    requires i < |ts| - 1
    ensures ts == ts[..i] + [ts[i]] + ts[i + 1..|ts| - 1] + [ts[|ts| - 1]]
  {
  }

  /** Removing by swap takes out exactly the chosen task: any measure ... */
  lemma SwapRemoveSum(ts: seq<Task>, i: nat, f: State -> nat)
    requires i < |ts|
    ensures Sum(ts, f) == Sum(SwapRemove(ts, i), f) + f(ts[i].state)
  {
    var last := |ts| - 1;
    if i < last {
      var a, b := ts[..i], ts[i + 1..last];
      Reassemble(ts, i);
      Single(ts[i], f);
      Single(ts[last], f);
      Concat(a, [ts[i]], f);
      Concat(a + [ts[i]], b, f);
      Concat(a + [ts[i]] + b, [ts[last]], f);
      Concat(a, [ts[last]], f);
      Concat(a + [ts[last]], b, f);
    }
  }

  /** ... and the identities. */
  lemma SwapRemoveIds(ts: seq<Task>, i: nat)
    requires i < |ts|
    ensures IdBag(ts) == IdBag(SwapRemove(ts, i)) + multiset{ts[i].id}
  {
    var last := |ts| - 1;
    if i < last {
      var a, b := ts[..i], ts[i + 1..last];
      Reassemble(ts, i);
      Single(ts[i], Load);
      Single(ts[last], Load);
      ConcatIds(a, [ts[i]]);
      ConcatIds(a + [ts[i]], b);
      ConcatIds(a + [ts[i]] + b, [ts[last]]);
      ConcatIds(a, [ts[last]]);
      ConcatIds(a + [ts[last]], b);
    }
  }

  lemma {:induction false} FreshSum(scripts: seq<Script>, id: nat, f: State -> nat)
    ensures Sum(Fresh(scripts, id), f) == SumScripts(scripts, f) && |Fresh(scripts, id)| == |scripts|
    ensures forall t <- Fresh(scripts, id) :: t.state.Runnable?
  {
    if scripts != [] {
      var t := Task(id, Runnable(scripts[0]));
      FreshSum(scripts[1..], id + 1, f);
      Concat([t], Fresh(scripts[1..], id + 1), f);
      Single(t, f);
    }
  }

  /** The books of one poll, for any measure. */
  lemma PollAtBalance(b: Bench, i: nat, now: nat, f: State -> nat)
    requires i < |b.round|
    ensures InPlay(PollAt(b, i, now), f) + f(b.round[i].state) ==
            InPlay(b, f) + Left(PollState(b.round[i].state, now), f)
  {
    var t := b.round[i];
    var r := PollState(t.state, now);
    SwapRemoveSum(b.round, i, f);
    FreshSum(r.spawned, b.nextId, f);
    Concat(b.queue, Fresh(r.spawned, b.nextId), f);
    if r.rest.Some? {
      var t' := Task(t.id, r.rest.value);
      Single(t', f);
      Concat(b.still, [t'], f);
    }
  }

  // --------------------------------------------------------- round invariants

  /** `all` is dealt out between two bags. */
  ghost predicate Shares(all: multiset<nat>, a: multiset<nat>, b: multiset<nat>) {
    forall x :: all[x] == a[x] + b[x]
  }

  /** Every task of the round is waiting for its one poll, or polled; polled ones finished or are pending. */
  ghost predicate OnceEach(start: seq<Task>, b: Bench) {
    Shares(IdBag(start), IdBag(b.round), b.polled) && Shares(b.polled, IdBag(b.still), b.finished)
  }

  lemma OnceEachKept(start: seq<Task>, b: Bench, i: nat, now: nat)
    requires i < |b.round| && OnceEach(start, b)
    ensures OnceEach(start, PollAt(b, i, now))
  {
    var t := b.round[i];
    var r := PollState(t.state, now);
    SwapRemoveIds(b.round, i);
    if r.rest.Some? {
      var t' := Task(t.id, r.rest.value);
      Single(t', Load);
      ConcatIds(b.still, [t']);
    }
  }

  /** Work only shrinks, and shrinks strictly once anything but waiting has happened. */
  ghost predicate Costs(start: seq<Task>, before: set<nat>, b: Bench) {
    && InPlay(b, Load) <= Sum(start, Load)
    && (b.progressed || b.queue != [] || b.deadlines != before ==> InPlay(b, Load) < Sum(start, Load))
  }

  lemma CostsKept(start: seq<Task>, before: set<nat>, b: Bench, i: nat, now: nat)
    requires i < |b.round| && Costs(start, before, b)
    ensures Costs(start, before, PollAt(b, i, now))
  {
    var t := b.round[i];
    PollAtBalance(b, i, now, Load);
    StateCosts(t.state, now);
    FreshSum(PollState(t.state, now).spawned, b.nextId, Load);
  }

  lemma StateCosts(st: State, now: nat)
    ensures var r := PollState(st, now);
            && Left(r, Load) <= Load(st)
            && (IsProgress(r) || r.armed != {} ==> Left(r, Load) < Load(st))
  {
    PollCosts(Remaining(st), now);
    if st.Asleep? && st.deadline > now {
      AsleepStays(st, now, Load);
    }
  }

  lemma BlocksKept(b: Bench, i: nat, now: nat)
    requires i < |b.round|
    ensures InPlay(PollAt(b, i, now), Stuck) == InPlay(b, Stuck)
  {
    PollAtBalance(b, i, now, Stuck);
    PollKeepsBlocks(Remaining(b.round[i].state), now);
  }

  lemma {:induction false} LatestBeyond(ts: seq<Task>, now: nat, bound: nat)
    requires now <= bound
    ensures Latest(ts, now) <= bound <==> Sum(ts, Beyond(now, bound)) == 0
  {
    if ts != [] {
      LatestBeyond(ts[..|ts| - 1], now, bound);
    }
  }

  lemma {:induction false} LatestAhead(ts: seq<Task>, now: nat)
    ensures now <= Latest(ts, now)
  {
    if ts != [] {
      LatestAhead(ts[..|ts| - 1], now);
    }
  }

  function LatestIn(b: Bench, now: nat): nat {
    Max(Latest(b.round, now), Max(Latest(b.still, now), Latest(b.queue, now)))
  }

  lemma LatestInBeyond(b: Bench, now: nat, bound: nat)
    requires now <= bound
    ensures LatestIn(b, now) <= bound <==> InPlay(b, Beyond(now, bound)) == 0
  {
    LatestBeyond(b.round, now, bound);
    LatestBeyond(b.still, now, bound);
    LatestBeyond(b.queue, now, bound);
  }

  lemma BeyondKept(b: Bench, i: nat, now: nat, bound: nat)
    requires i < |b.round| && now <= bound && now <= U64_MAX
    ensures LatestIn(PollAt(b, i, now), now) <= bound <==> LatestIn(b, now) <= bound
  {
    var f := Beyond(now, bound);
    LatestInBeyond(b, now, bound);
    LatestInBeyond(PollAt(b, i, now), now, bound);
    PollAtBalance(b, i, now, f);
    StateKeepsReach(b.round[i].state, now, bound);
    SwapRemoveSum(b.round, i, f);
  }

  lemma StateKeepsReach(st: State, now: nat, bound: nat)
    requires now <= bound && now <= U64_MAX
    ensures Left(PollState(st, now), Beyond(now, bound)) == 0 <==> Beyond(now, bound)(st) == 0
  {
    PollKeepsHorizon(Remaining(st), now, bound);
    if st.Asleep? && st.deadline > now {
      AsleepStays(st, now, Beyond(now, bound));
    }
  }

  /** Polling a task before its deadline leaves it as it is. */
  lemma AsleepStays(st: State, now: nat, f: State -> nat)
    requires st.Asleep? && st.deadline > now
    ensures Left(PollState(st, now), f) == f(st)
  {
  }

  lemma LatestKept(b: Bench, i: nat, now: nat)
    requires i < |b.round| && now <= U64_MAX
    ensures LatestIn(PollAt(b, i, now), now) == LatestIn(b, now)
  {
    LatestAhead(b.round, now);
    LatestAhead(PollAt(b, i, now).round, now);
    BeyondKept(b, i, now, LatestIn(b, now));
    BeyondKept(b, i, now, LatestIn(PollAt(b, i, now), now));
  }

  /** Every future deadline is one a task of the round sleeps to. */
  ghost predicate Backed(b: Bench, now: nat) {
    forall d <- b.deadlines | d > now :: InPlay(b, AsleepUntil(d)) > 0
  }

  lemma BackedKept(b: Bench, i: nat, now: nat)
    requires i < |b.round| && Backed(b, now)
    ensures Backed(PollAt(b, i, now), now)
  {
    var st := b.round[i].state;
    var r := PollState(st, now);
    forall d <- PollAt(b, i, now).deadlines | d > now ensures InPlay(PollAt(b, i, now), AsleepUntil(d)) > 0 {
      var f := AsleepUntil(d);
      PollAtBalance(b, i, now, f);
      SwapRemoveSum(b.round, i, f);
      if st.Asleep? && st.deadline > now {
        AsleepStays(st, now, f);
      } else if d in r.armed {
        PollBacks(Remaining(st), now, d);
      } else {
        assert f(st) == 0;
      }
    }
  }

  /** The tasks spawned in this round have the ids handed out in it, one each. */
  ghost predicate FreshIds(b: Bench, id: nat) {
    forall x :: IdBag(b.queue)[x] == if id <= x < b.nextId then 1 else 0
  }

  lemma {:induction false} FreshIdBag(scripts: seq<Script>, id: nat, x: nat)
    ensures IdBag(Fresh(scripts, id))[x] == if id <= x < id + |scripts| then 1 else 0
  {
    if scripts != [] {
      var t := Task(id, Runnable(scripts[0]));
      FreshIdBag(scripts[1..], id + 1, x);
      ConcatIds([t], Fresh(scripts[1..], id + 1));
      Single(t, Load);
    }
  }

  lemma FreshIdsKept(b: Bench, i: nat, now: nat, id: nat)
    requires i < |b.round| && FreshIds(b, id) && id <= b.nextId
    ensures FreshIds(PollAt(b, i, now), id) && b.nextId <= PollAt(b, i, now).nextId
  {
    var r := PollState(b.round[i].state, now);
    ConcatIds(b.queue, Fresh(r.spawned, b.nextId));
    forall x: nat ensures IdBag(PollAt(b, i, now).queue)[x] == if id <= x < PollAt(b, i, now).nextId then 1 else 0 {
      FreshIdBag(r.spawned, b.nextId, x);
    }
  }

  /** Every sleeper's deadline is armed or already past. */
  ghost predicate Sleepers(ts: seq<Task>, now: nat, deadlines: set<nat>) {
    forall t <- ts :: t.state.Asleep? ==> t.state.deadline in deadlines || t.state.deadline <= now
  }

  ghost predicate AllWait(ts: seq<Task>, now: nat, deadlines: set<nat>) {
    forall t <- ts :: Waits(t.state, now, deadlines)
  }

  ghost predicate Timed(b: Bench, now: nat) {
    && Sleepers(b.round, now, b.deadlines) && Sleepers(b.still, now, b.deadlines)
    && (forall t <- b.queue :: t.state.Runnable?)
    && (now <= U64_MAX ==> forall d <- b.deadlines :: d <= U64_MAX)
    && (!b.progressed ==> AllWait(b.still, now, b.deadlines) && b.finished == multiset{})
  }

  lemma TimedKept(b: Bench, i: nat, now: nat)
    requires i < |b.round| && Timed(b, now)
    ensures Timed(PollAt(b, i, now), now)
  {
    var t := b.round[i];
    var r := PollState(t.state, now);
    PollLeaves(Remaining(t.state), now);
    FreshSum(r.spawned, b.nextId, Load);
    assert forall x <- SwapRemove(b.round, i) :: x in b.round;
  }

  /** Everything a round keeps, from its start on. */
  ghost predicate RoundInv(start: seq<Task>, before: set<nat>, id: nat, now: nat, b: Bench) {
    && OnceEach(start, b) && Costs(start, before, b) && Timed(b, now)
    && InPlay(b, Stuck) == Sum(start, Stuck) && before <= b.deadlines
    && LatestIn(b, now) == Latest(start, now) && Backed(b, now)
    && FreshIds(b, id) && id <= b.nextId
  }

  lemma RoundInvKept(start: seq<Task>, before: set<nat>, id: nat, now: nat, b: Bench, i: nat)
    requires RoundInv(start, before, id, now, b) && i < |b.round| && now <= U64_MAX
    ensures RoundInv(start, before, id, now, PollAt(b, i, now))
  {
    OnceEachKept(start, b, i, now);
    CostsKept(start, before, b, i, now);
    TimedKept(b, i, now);
    BlocksKept(b, i, now);
    LatestKept(b, i, now);
    BackedKept(b, i, now);
    FreshIdsKept(b, i, now, id);
  }

  /** What a completed round guarantees. */
  ghost predicate RoundDone(start: seq<Task>, before: set<nat>, id: nat, now: nat, b: Bench) {
    && b.polled == IdBag(start) && Shares(IdBag(start), IdBag(b.still), b.finished)
    && before <= b.deadlines && (now <= U64_MAX ==> forall d <- b.deadlines :: d <= U64_MAX)
    && Sleepers(b.still, now, b.deadlines) && (forall t <- b.queue :: t.state.Runnable?)
    && Sum(b.still, Load) + Sum(b.queue, Load) <= Sum(start, Load)
    && (b.progressed || b.queue != [] || b.deadlines != before ==>
          Sum(b.still, Load) + Sum(b.queue, Load) < Sum(start, Load))
    && Sum(b.still, Stuck) + Sum(b.queue, Stuck) == Sum(start, Stuck)
    && Max(Latest(b.still, now), Latest(b.queue, now)) == Latest(start, now)
    && (forall d <- b.deadlines | d > now :: Sum(b.still, AsleepUntil(d)) + Sum(b.queue, AsleepUntil(d)) > 0)
    && FreshIds(b, id) && id <= b.nextId
    && (!b.progressed ==> b.finished == multiset{} && AllWait(b.still, now, b.deadlines))
  }

  lemma RoundInvStarts(start: seq<Task>, before: set<nat>, now: nat, id: nat)
    requires Sleepers(start, now, before) && (now <= U64_MAX ==> forall d <- before :: d <= U64_MAX)
    requires forall d <- before | d > now :: Sum(start, AsleepUntil(d)) > 0
    ensures RoundInv(start, before, id, now, Bench(start, [], [], before, id, multiset{}, multiset{}, false))
  {
    LatestAhead(start, now);
  }

  lemma RoundInvEnds(start: seq<Task>, before: set<nat>, id: nat, now: nat, b: Bench, progressed: bool)
    requires RoundInv(start, before, id, now, b) && b.round == [] && progressed == (b.progressed || b.queue != [])
    ensures RoundDone(start, before, id, now, b.(progressed := progressed))
  {
    assert forall x :: IdBag(start)[x] == b.polled[x];
    LatestAhead(b.still, now);
    LatestAhead(b.queue, now);
    assert forall d <- b.deadlines | d > now :: InPlay(b, AsleepUntil(d)) > 0;
  }

  /** The bench after a sequence of picks. */
  function AfterPicks(b: Bench, picks: seq<nat>, now: nat): Bench {
    if picks == [] then b
    else
      var prev, i := AfterPicks(b, picks[..|picks| - 1], now), picks[|picks| - 1];
      if i < |prev.round| then PollAt(prev, i, now) else prev
  }

  lemma PicksSnoc(b: Bench, picks: seq<nat>, i: nat, now: nat)
    requires i < |AfterPicks(b, picks, now).round|
    ensures AfterPicks(b, picks + [i], now) == PollAt(AfterPicks(b, picks, now), i, now)
  {
    assert (picks + [i])[..|picks|] == picks;
  }

  lemma {:induction false} PicksKeep(start: seq<Task>, before: set<nat>, id: nat, now: nat, b: Bench, picks: seq<nat>)
    requires RoundInv(start, before, id, now, b) && now <= U64_MAX
    ensures RoundInv(start, before, id, now, AfterPicks(b, picks, now))
  {
    if picks != [] {
      var prev, i := AfterPicks(b, picks[..|picks| - 1], now), picks[|picks| - 1];
      PicksKeep(start, before, id, now, b, picks[..|picks| - 1]);
      if i < |prev.round| {
        RoundInvKept(start, before, id, now, prev, i);
      }
    }
  }

  /** Whatever the strategy picked, a round that ran out satisfies `RoundDone`. */
  lemma RoundOutcome(start: seq<Task>, before: set<nat>, now: nat, b: Bench, picks: seq<nat>, progressed: bool)
    requires b == Bench(start, [], [], before, b.nextId, multiset{}, multiset{}, false) && now <= U64_MAX
    requires Sleepers(start, now, before) && (now <= U64_MAX ==> forall d <- before :: d <= U64_MAX)
    requires forall d <- before | d > now :: Sum(start, AsleepUntil(d)) > 0
    requires AfterPicks(b, picks, now).round == []
    requires progressed == (AfterPicks(b, picks, now).progressed || AfterPicks(b, picks, now).queue != [])
    ensures RoundDone(start, before, b.nextId, now, AfterPicks(b, picks, now).(progressed := progressed))
  {
    RoundInvStarts(start, before, now, b.nextId);
    PicksKeep(start, before, b.nextId, now, b, picks);
    RoundInvEnds(start, before, b.nextId, now, AfterPicks(b, picks, now), progressed);
  }

  // --------------------------------------------------------------- scheduler

  /** A strategy: a pure function of its call history, whose last entry is the current round length. */
  type Strategy = seq<nat> -> nat

  ghost predicate KeepsIndexContract(pick: Strategy) {
    forall h: seq<nat> | h != [] && h[|h| - 1] > 0 :: pick(h) < h[|h| - 1]
  }

  function Future(deadlines: set<nat>, now: nat): set<nat> {
    set d <- deadlines | d > now
  }

  predicate IsLeast(s: set<nat>, m: nat) {
    m in s && forall d <- s :: m <= d
  }

  lemma {:induction false} LeastExists(s: set<nat>)
    requires s != {}
    ensures exists m :: IsLeast(s, m)
  {
    var x :| x in s;
    var rest := s - {x};
    assert s == rest + {x};
    if rest == {} {
      assert IsLeast(s, x);
    } else {
      LeastExists(rest);
      var m :| IsLeast(rest, m);
      assert IsLeast(s, if m < x then m else x);
    }
  }

  function Least(s: set<nat>): (m: nat)
    requires s != {}
    ensures IsLeast(s, m)
  {
    LeastExists(s);
    var m :| m in s && IsLeast(s, m);
    m
  }

  /** How one turn of the loop ended. */
  datatype Turn = Again | Idle(stuck: nat) | Overflow

  /** Tasks blocked on something other than time. */
  ghost predicate AllBlocked(ts: seq<Task>) {
    forall t <- ts :: t.state == Runnable(Block)
  }

  lemma {:induction false} BlockedCount(ts: seq<Task>)
    requires AllBlocked(ts)
    ensures Sum(ts, Stuck) == |ts|
  {
    if ts != [] {
      assert ts[|ts| - 1] in ts;
      BlockedCount(ts[..|ts| - 1]);
    }
  }

  /** Sleepers are armed or due, and every future deadline has a sleeper. */
  ghost predicate Ready(ts: seq<Task>, now: nat, deadlines: set<nat>) {
    && now <= U64_MAX && (forall d <- deadlines :: d <= U64_MAX)
    && Sleepers(ts, now, deadlines)
    && (forall d <- deadlines | d > now :: Sum(ts, AsleepUntil(d)) > 0)
  }

  lemma SpawnKeeps(ts: seq<Task>, now: nat, deadlines: set<nat>, id: nat, script: Script)
    requires Ready(ts, now, deadlines) && Named(ts, id)
    ensures Ready(ts + [Task(id, Runnable(script))], now, deadlines)
    ensures Named(ts + [Task(id, Runnable(script))], id + 1)
  {
    var t := Task(id, Runnable(script));
    ConcatIds(ts, [t]);
    Single(t, Load);
    forall d <- deadlines | d > now ensures Sum(ts + [t], AsleepUntil(d)) > 0 {
      Concat(ts, [t], AsleepUntil(d));
    }
  }

  class SeededScheduler {
    var clock: nat
    var tasks: seq<Task>
    var deadlines: set<nat>
    var history: seq<nat>
    var nextId: nat

    /** Sleepers are armed, every future deadline has its sleeper, and task ids are distinct. */
    ghost predicate Valid()
      reads this
    {
      Ready(tasks, clock, deadlines) && Named(tasks, nextId)
    }

    constructor ()
      ensures Valid() && clock == 0 && tasks == [] && deadlines == {} && nextId == 0
    {
      clock, tasks, deadlines, history, nextId := 0, [], {}, [], 0;
    }

    method SpawnTask(script: Script)
      requires Valid()
      modifies this`tasks, this`nextId
      ensures Valid() && tasks == old(tasks) + [Task(old(nextId), Runnable(script))] && nextId == old(nextId) + 1
    {
      SpawnKeeps(tasks, clock, deadlines, nextId, script);
      tasks := tasks + [Task(nextId, Runnable(script))];
      nextId := nextId + 1;
    }

    /**
     One round over `start`, polling in the order the strategy picks. `RoundDone`
     says that every task present at the start is polled exactly once and then
     finished or is pending, that progress (a completion, a wake or a spawn) costs
     work, that the latest instant still to be slept to is unchanged, and that
     without progress only waiting tasks are left.
     */
    method PollRound(start: seq<Task>, pick: Strategy)
      returns (still: seq<Task>, progressed: bool, polled: multiset<nat>, finished: multiset<nat>)
      requires tasks == [] && Ready(start, clock, deadlines) && KeepsIndexContract(pick)
      modifies this`tasks, this`deadlines, this`history, this`nextId
      ensures RoundDone(start, old(deadlines), old(nextId), clock,
                        Bench([], still, tasks, deadlines, nextId, polled, finished, progressed))
      ensures tasks != [] ==> progressed
    {
      ghost var b0 := Bench(start, [], tasks, deadlines, nextId, multiset{}, multiset{}, false);
      ghost var picks;
      still, progressed, polled, finished, picks := PollAll(start, pick);
      progressed := progressed || tasks != [];
      RoundOutcome(start, old(deadlines), clock, b0, picks, progressed);
    }

    /** The loop: some sequence of picks, polled one after the other. */
    method PollAll(start: seq<Task>, pick: Strategy)
      returns (still: seq<Task>, progressed: bool, polled: multiset<nat>, finished: multiset<nat>,
               ghost picks: seq<nat>)
      requires KeepsIndexContract(pick)
      modifies this`tasks, this`deadlines, this`history, this`nextId
      ensures AfterPicks(Bench(start, [], old(tasks), old(deadlines), old(nextId), multiset{}, multiset{}, false),
                         picks, clock)
              == Bench([], still, tasks, deadlines, nextId, polled, finished, progressed)
    {
      ghost var b0 := Bench(start, [], tasks, deadlines, nextId, multiset{}, multiset{}, false);
      picks := [];
      var round, woke := start, false;
      still, progressed, polled, finished := [], false, multiset{}, multiset{};
      while round != []
        invariant AfterPicks(b0, picks, clock) ==
                  Bench(round, still, tasks, deadlines, nextId, polled, finished, progressed || woke)
        decreases |round|
      {
        ghost var b := Bench(round, still, tasks, deadlines, nextId, polled, finished, progressed || woke);
        var index, r := PollNext(round, pick);
        PicksSnoc(b0, picks, index, clock);
        picks := picks + [index];
        var id := round[index].id;
        round := SwapRemove(round, index);
        polled := polled + multiset{id};
        woke := woke || r.woke;
        if r.rest.None? {
          progressed := true;
          finished := finished + multiset{id};
        } else {
          still := still + [Task(id, r.rest.value)];
        }
        assert PollAt(b, index, clock)
            == Bench(round, still, tasks, deadlines, nextId, polled, finished, progressed || woke);
      }
      progressed := progressed || woke;
    }

    /** The strategy's pick, polled: spawns and deadlines land in the scheduler. */
    method PollNext(round: seq<Task>, pick: Strategy) returns (index: nat, r: Polled)
      requires round != [] && KeepsIndexContract(pick)
      modifies this`tasks, this`deadlines, this`history, this`nextId
      ensures index < |round| && r == PollState(round[index].state, clock)
      ensures tasks == old(tasks) + Fresh(r.spawned, old(nextId)) && nextId == old(nextId) + |r.spawned|
      ensures deadlines == old(deadlines) + r.armed
    {
      history := history + [|round|];
      index := pick(history);
      assert index < |round|;
      r := PollState(round[index].state, clock);
      tasks := tasks + Fresh(r.spawned, nextId);
      nextId := nextId + |r.spawned|;
      deadlines := deadlines + r.armed;
    }

    /** One turn of the executor's loop. */
    method TakeTurn(pick: Strategy) returns (turn: Turn, progressed: bool)
      requires Valid() && KeepsIndexContract(pick)
      modifies this
      ensures Valid() && Sum(tasks, Stuck) == old(Sum(tasks, Stuck))
      ensures turn.Idle? ==> turn.stuck == |tasks| && AllBlocked(tasks)
      // the prune overflows exactly when a round is polled at the last instant
      ensures turn.Overflow? <==> old(tasks) != [] && old(clock) == U64_MAX
      ensures turn.Overflow? ==> clock == U64_MAX
      // time moves only after a round without progress, to the least deadline still in the future
      ensures clock != old(clock) ==>
                turn == Again && !progressed && clock > old(clock) && IsLeast(deadlines, clock) && tasks != []
      // the latest instant still to be slept to stays what it was
      ensures Latest(tasks, clock) == old(Latest(tasks, clock))
      // each turn consumes work, or else a deadline
      ensures turn == Again ==>
                || Sum(tasks, Load) < old(Sum(tasks, Load))
                || (Sum(tasks, Load) == old(Sum(tasks, Load))
                    && |Future(deadlines, clock)| < old(|Future(deadlines, clock)|))
    {
      if tasks == [] {
        return Idle(0), false;
      }
      progressed := PollTasks(pick);
      if clock == U64_MAX {
        // `now + 1` does not fit: the prune below overflows
        return Overflow, progressed;
      }
      if progressed {
        deadlines := Future(deadlines, clock);
        return Again, true;
      }
      turn := Settle();
    }

    /** Takes the queue as one round and puts back what is left of it. */
    method PollTasks(pick: Strategy) returns (progressed: bool)
      requires Valid() && KeepsIndexContract(pick)
      modifies this`tasks, this`deadlines, this`history, this`nextId
      ensures Valid() && Ready(tasks, clock, Future(deadlines, clock))
      ensures Sum(tasks, Stuck) == old(Sum(tasks, Stuck)) && Latest(tasks, clock) == old(Latest(tasks, clock))
      ensures progressed || deadlines != old(deadlines) ==> Sum(tasks, Load) < old(Sum(tasks, Load))
      ensures !progressed ==>
                && Sum(tasks, Load) <= old(Sum(tasks, Load))
                && AllWait(tasks, clock, Future(deadlines, clock))
                && (Future(deadlines, clock) == {} ==> AllBlocked(tasks))
                && (old(tasks) != [] ==> tasks != [])
    {
      var round := tasks;
      tasks := [];
      var still, polled, finished;
      still, progressed, polled, finished := PollRound(round, pick);
      ghost var b := Bench([], still, tasks, deadlines, nextId, polled, finished, progressed);
      RoundLeaves(round, old(deadlines), old(nextId), clock, b);
      if !progressed {
        QuietLeaves(round, old(deadlines), old(nextId), clock, b);
      }
      tasks := tasks + still;
    }

    /** After a round without progress: prune, then stop or move the clock. */
    method Settle() returns (turn: Turn)
      requires Valid() && Ready(tasks, clock, Future(deadlines, clock))
      requires AllWait(tasks, clock, Future(deadlines, clock))
      modifies this`deadlines, this`clock
      ensures Valid() && Latest(tasks, clock) == old(Latest(tasks, clock))
      ensures turn == if old(Future(deadlines, clock)) == {} then Idle(|tasks|) else Again
      ensures turn.Idle? ==> clock == old(clock)
      ensures turn.Again? ==>
                && clock > old(clock) && IsLeast(deadlines, clock)
                && |Future(deadlines, clock)| < |old(Future(deadlines, clock))|
    {
      ghost var pending := deadlines;
      deadlines := Future(deadlines, clock);
      if deadlines == {} {
        return Idle(|tasks|);
      }
      var next := Least(deadlines);
      PruneShrinks(pending, clock, next);
      AdvanceKeeps(tasks, clock, next, deadlines);
      clock := next;
      return Again;
    }

    /**
     Runs to quiescence, for every strategy that keeps its index contract. The
     answer is the number of blocked ends the scripts had to begin with, and the
     clock stops at the latest instant any of them sleeps to, so neither depends on
     the interleaving. `None` is the arithmetic overflow: it happens exactly when
     that latest instant is the last u64 one.
     */
    method RunUntilIdle(pick: Strategy) returns (stuck: Option<nat>)
      requires Valid() && KeepsIndexContract(pick)
      modifies this
      ensures Valid() && clock >= old(clock)
      ensures stuck.None? <==> old(tasks) != [] && old(Latest(tasks, clock)) == U64_MAX
      ensures stuck.Some? ==>
                && stuck.value == |tasks| == old(Sum(tasks, Stuck))
                && AllBlocked(tasks)
      ensures clock == old(Latest(tasks, clock))
    {
      while true
        invariant Valid() && clock >= old(clock)
        invariant Sum(tasks, Stuck) == old(Sum(tasks, Stuck))
        invariant Latest(tasks, clock) == old(Latest(tasks, clock))
        invariant old(tasks) == [] ==> tasks == []
        invariant old(tasks) != [] && clock == U64_MAX ==> tasks != []
        decreases Sum(tasks, Load), |Future(deadlines, clock)|
      {
        LatestWithinU64(tasks, clock, deadlines);
        label turn:
        var turn, progressed := TakeTurn(pick);
        match turn {
          case Idle(n) =>
            BlockedCount(tasks);
            BlockedLatest(tasks, clock);
            return Some(n);
          case Overflow =>
            LatestAhead(tasks, clock);
            return None;
          case Again =>
        }
      }
    }
  }

  /** No id twice, and all of them handed out already. */
  ghost predicate Named(ts: seq<Task>, nextId: nat) {
    forall x :: IdBag(ts)[x] <= 1 && (x >= nextId ==> IdBag(ts)[x] == 0)
  }

  lemma {:induction false} BlockedLatest(ts: seq<Task>, now: nat)
    requires AllBlocked(ts)
    ensures Latest(ts, now) == now
  {
    if ts != [] {
      assert ts[|ts| - 1] in ts;
      BlockedLatest(ts[..|ts| - 1], now);
    }
  }

  lemma {:induction false} LatestWithinU64(ts: seq<Task>, now: nat, deadlines: set<nat>)
    requires now <= U64_MAX && Sleepers(ts, now, deadlines) && forall d <- deadlines :: d <= U64_MAX
    ensures Latest(ts, now) <= U64_MAX
  {
    if ts != [] {
      var st := ts[|ts| - 1].state;
      assert ts[|ts| - 1] in ts;
      LatestWithinU64(ts[..|ts| - 1], now, deadlines);
      HorizonAhead(Remaining(st), if st.Asleep? then Max(st.deadline, now) else now);
    }
  }

  lemma {:induction false} WaitingReach(ts: seq<Task>, now: nat, next: nat, deadlines: set<nat>)
    requires AllWait(ts, now, deadlines) && now <= next && forall d <- deadlines | d > now :: next <= d
    ensures Latest(ts, next) == Max(next, Latest(ts, now))
  {
    LatestAhead(ts, now);
    if ts != [] {
      assert ts[|ts| - 1] in ts;
      assert Waits(ts[|ts| - 1].state, now, deadlines);
      WaitingReach(ts[..|ts| - 1], now, next, deadlines);
    }
  }

  lemma {:induction false} SleeperReach(ts: seq<Task>, now: nat, d: nat)
    requires Sum(ts, AsleepUntil(d)) > 0 && now <= d <= U64_MAX
    ensures Latest(ts, now) >= d
  {
    var st := ts[|ts| - 1].state;
    if AsleepUntil(d)(st) > 0 {
      HorizonAhead(st.next, d);
    } else {
      SleeperReach(ts[..|ts| - 1], now, d);
    }
  }

  /** Moving the clock to the least future deadline leaves the latest instant where it was. */
  lemma AdvanceKeeps(ts: seq<Task>, now: nat, next: nat, deadlines: set<nat>)
    requires Ready(ts, now, deadlines) && AllWait(ts, now, deadlines) && IsLeast(deadlines, next) && now < next
    ensures Ready(ts, next, deadlines) && Latest(ts, next) == Latest(ts, now)
  {
    WaitingReach(ts, now, next, deadlines);
    SleeperReach(ts, now, next);
  }

  lemma {:induction false} ConcatLatest(a: seq<Task>, b: seq<Task>, now: nat)
    ensures Latest(a + b, now) == Max(Latest(a, now), Latest(b, now))
  {
    LatestAhead(a, now);
    if b == [] {
      assert a + b == a;
    } else {
      assert (a + b)[..|a + b| - 1] == a + b[..|b| - 1];
      ConcatLatest(a, b[..|b| - 1], now);
    }
  }

  /** What a completed round leaves in the queue, in the terms of a turn. */
  lemma RoundLeaves(start: seq<Task>, before: set<nat>, id: nat, now: nat, b: Bench)
    requires RoundDone(start, before, id, now, b) && Named(start, id) && now <= U64_MAX
    ensures var all := b.queue + b.still;
            && Ready(all, now, b.deadlines) && Ready(all, now, Future(b.deadlines, now)) && Named(all, b.nextId)
            && Sum(all, Load) <= Sum(start, Load) && Sum(all, Stuck) == Sum(start, Stuck)
            && (b.progressed || b.deadlines != before ==> Sum(all, Load) < Sum(start, Load))
            && Latest(all, now) == Latest(start, now)
  {
    Concat(b.queue, b.still, Load);
    Concat(b.queue, b.still, Stuck);
    ConcatLatest(b.queue, b.still, now);
    ConcatIds(b.queue, b.still);
    forall d <- b.deadlines | d > now ensures Sum(b.queue + b.still, AsleepUntil(d)) > 0 {
      Concat(b.queue, b.still, AsleepUntil(d));
    }
  }

  /** Without progress everything left waits, and without a future deadline it is blocked for good. */
  lemma QuietLeaves(start: seq<Task>, before: set<nat>, id: nat, now: nat, b: Bench)
    requires RoundDone(start, before, id, now, b) && !b.progressed && b.queue == []
    ensures var all := b.queue + b.still;
            && AllWait(all, now, Future(b.deadlines, now))
            && (Future(b.deadlines, now) == {} ==> AllBlocked(all))
            && (all != [] <==> start != [])
  {
    forall t <- b.queue + b.still ensures Waits(t.state, now, Future(b.deadlines, now)) {
      assert Waits(t.state, now, b.deadlines);
    }
    SameBag(start, b.still);
  }

  /** Lists with the same ids are empty together. */
  lemma SameBag(a: seq<Task>, b: seq<Task>)
    requires Shares(IdBag(a), IdBag(b), multiset{})
    ensures a == [] <==> b == []
  {
    if a != [] {
      assert IdBag(a)[a[|a| - 1].id] > 0;
    }
    if b != [] {
      assert IdBag(b)[b[|b| - 1].id] > 0;
    }
  }

  lemma PruneShrinks(deadlines: set<nat>, now: nat, next: nat)
    requires next in deadlines && next > now
    ensures |Future(Future(deadlines, now), next)| < |Future(deadlines, now)|
  {
    var all := Future(deadlines, now);
    assert Future(all, next) <= all - {next};
    SubsetSize(Future(all, next), all - {next});
  }

  lemma {:induction false} SubsetSize(a: set<nat>, b: set<nat>)
    requires a <= b
    ensures |a| <= |b|
  {
    if a != {} {
      var x :| x in a;
      SubsetSize(a - {x}, b - {x});
    }
  }

  // ------------------------------------------------------ how long a run takes

  /** A sleep that fits lasts exactly its nanoseconds from the poll that begins it. */
  lemma SleepLasts(n: nat, next: Script, now: nat)
    requires 0 < n && now + n <= U64_MAX
    ensures Poll(Sleep(n, next), now) == Polled(Some(Asleep(now + n, next)), false, [], {now + n})
  {
    assert SaturatingAdd(now, n) == now + n;
  }

  /** Until its deadline a sleeper stays as it is; from then on it goes on with what follows. */
  lemma SleeperWakes(d: nat, next: Script, now: nat)
    ensures PollState(Asleep(d, next), now) ==
            if now < d then Polled(Some(Asleep(d, next)), false, [], {}) else Poll(next, now)
  {
  }

  /** The longest chain of sleeps in a script and its children: a plain sum along each path. */
  function Longest(s: Script): nat {
    match s
    case Done => 0
    case Block => 0
    case Yield(next) => Longest(next)
    case Sleep(n, next) => n + Longest(next)
    case Spawn(child, next) => if Longest(child) >= Longest(next) then Longest(child) else Longest(next)
  }

  /** The last instant there is, or the exact one if it comes before. */
  function Clipped(instant: nat): nat {
    if instant <= 0xffff_ffff_ffff_ffff then instant else 0xffff_ffff_ffff_ffff
  }

  lemma {:induction false} HorizonIsLongest(s: Script, now: nat)
    requires now <= U64_MAX
    ensures Horizon(s, now) == Clipped(now + Longest(s))
  {
    match s
    case Yield(next) => HorizonIsLongest(next, now);
    case Sleep(n, next) =>
      HorizonIsLongest(next, SaturatingAdd(now, n));
      ClippedTwice(now, n, Longest(next));
      assert Longest(s) == n + Longest(next);
    case Spawn(child, next) =>
      HorizonIsLongest(child, now);
      HorizonIsLongest(next, now);
      ClippedMax(now, Longest(child), Longest(next));
    case _ =>
  }

  lemma ClippedMax(now: nat, a: nat, b: nat)
    ensures Max(Clipped(now + a), Clipped(now + b)) == Clipped(now + if a >= b then a else b)
  {
  }

  lemma ClippedTwice(now: nat, n: nat, more: nat)
    ensures Clipped(SaturatingAdd(now, n) + more) == Clipped(now + (n + more))
  {
  }

  function LongestOf(scripts: seq<Script>): nat {
    if scripts == [] then 0
    else
      var rest, last := LongestOf(scripts[..|scripts| - 1]), Longest(scripts[|scripts| - 1]);
      if last > rest then last else rest
  }

  /** The tasks are these scripts, none of them started. */
  predicate Unstarted(ts: seq<Task>, scripts: seq<Script>) {
    |ts| == |scripts| && forall i | 0 <= i < |ts| :: ts[i].state == Runnable(scripts[i])
  }

  lemma {:induction false} LatestIsLongest(ts: seq<Task>, scripts: seq<Script>, now: nat)
    requires Unstarted(ts, scripts) && now <= U64_MAX
    ensures Latest(ts, now) == Clipped(now + LongestOf(scripts))
  {
    if ts != [] {
      LatestIsLongest(ts[..|ts| - 1], scripts[..|scripts| - 1], now);
      HorizonIsLongest(scripts[|scripts| - 1], now);
    }
  }

  /**
   A fresh scheduler given these scripts: the clock stops after the longest chain of sleeps among
   them, in plain nanoseconds, and the run overflows exactly when that chain reaches the last instant.
   */
  method RunScripts(scripts: seq<Script>, pick: Strategy) returns (clock: nat, stuck: Option<nat>)
    requires KeepsIndexContract(pick)
    ensures clock == Clipped(LongestOf(scripts))
    ensures stuck == None <==> scripts != [] && LongestOf(scripts) >= 0xffff_ffff_ffff_ffff
  {
    var sched := new SeededScheduler();
    for i := 0 to |scripts|
      invariant fresh(sched) && sched.Valid() && sched.clock == 0
      invariant Unstarted(sched.tasks, scripts[..i])
    {
      sched.SpawnTask(scripts[i]);
      assert scripts[..i + 1] == scripts[..i] + [scripts[i]];
    }
    assert scripts[..|scripts|] == scripts;
    LatestIsLongest(sched.tasks, scripts, 0);
    stuck := sched.RunUntilIdle(pick);
    clock := sched.clock;
  }

  // ------------------------------------------------------- the overflow, shown

  /** A saturated sleep alone: the task would finish, but the prune at the last instant overflows. */
  method SaturatedSleepOverflows(pick: Strategy) returns (stuck: Option<nat>)
    requires KeepsIndexContract(pick)
    ensures stuck == None
  {
    var sched := new SeededScheduler();
    sched.SpawnTask(Sleep(U64_MAX, Done));
    SingleLatest(Task(0, Runnable(Sleep(U64_MAX, Done))), 0);
    assert sched.tasks == [Task(0, Runnable(Sleep(U64_MAX, Done)))];
    stuck := sched.RunUntilIdle(pick);
  }

  /** Two sleeps that together pass the last instant but run side by side: no overflow. */
  method SideBySideSleepsFinish(pick: Strategy) returns (stuck: Option<nat>)
    requires KeepsIndexContract(pick)
    ensures stuck == Some(0)
  {
    var sched := new SeededScheduler();
    sched.SpawnTask(HALF);
    sched.SpawnTask(HALF);
    TwoHalves();
    stuck := sched.RunUntilIdle(pick);
  }

  const HALF := Sleep(0x8000_0000_0000_0000, Done)

  lemma TwoHalves()
    ensures var ts := [] + [Task(0, Runnable(HALF))] + [Task(1, Runnable(HALF))];
            ts != [] && Latest(ts, 0) == 0x8000_0000_0000_0000 && Sum(ts, Stuck) == 0
  {
    var a, b := Task(0, Runnable(HALF)), Task(1, Runnable(HALF));
    assert [] + [a] + [b] == [a] + [b];
    SingleLatest(a, 0);
    SingleLatest(b, 0);
    ConcatLatest([a], [b], 0);
    Single(a, Stuck);
    Single(b, Stuck);
    Concat([a], [b], Stuck);
  }

  lemma SingleLatest(t: Task, now: nat)
    ensures Latest([t], now) == Max(now, Reach(t.state, now))
  {
    assert [t][..0] == [];
  }
}
