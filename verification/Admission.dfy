/**
 In-flight byte admission: many threads share one 64-bit counter and interleave
 at every atomic operation of `admit` and of the guard's drop.
 */
module Admission {
  const MODULUS: nat := 0x1_0000_0000_0000_0000

  type U64 = n: int | 0 <= n < 0x1_0000_0000_0000_0000

  /** Where one thread stands between its atomic operations. */
  datatype Stage =
    | Idle
    | Added(bytes: U64, previous: U64)
    | Refusing(bytes: U64)
    | Held(bytes: U64)

  datatype State = State(max: U64, counter: U64, threads: seq<Stage>)

  datatype Action =
    | FetchAdd(thread: nat, bytes: U64)
    | Compare(thread: nat)
    | RollBack(thread: nat)
    | Release(thread: nat)

  function SaturatingAdd(a: U64, b: U64): U64 {
    if a + b < MODULUS then a + b else MODULUS - 1
  }

  /** The comparison a thread makes with the value its own `fetch_add` returned. */
  predicate Passes(previous: U64, bytes: U64, max: U64) {
    SaturatingAdd(previous, bytes) <= max
  }

  predicate Enabled(s: State, a: Action) {
    && a.thread < |s.threads|
    && match a
       case FetchAdd(t, _) => s.threads[t].Idle?
       case Compare(t) => s.threads[t].Added?
       case RollBack(t) => s.threads[t].Refusing?
       case Release(t) => s.threads[t].Held?
  }

  function Moves(s: State, t: nat, stage: Stage): State
    requires t < |s.threads|
  {
    s.(threads := s.threads[t := stage])
  }

  function Step(s: State, a: Action): State
    requires Enabled(s, a)
  {
    match a
    case FetchAdd(t, b) => Moves(s, t, Added(b, s.counter)).(counter := (s.counter + b) % MODULUS)
    case Compare(t) =>
      var g := s.threads[t];
      Moves(s, t, if Passes(g.previous, g.bytes, s.max) then Held(g.bytes) else Refusing(g.bytes))
    case RollBack(t) => Moves(s, t, Idle).(counter := (s.counter - s.threads[t].bytes) % MODULUS)
    case Release(t) => Moves(s, t, Idle).(counter := (s.counter - s.threads[t].bytes) % MODULUS)
  }

  predicate Legal(s: State, run: seq<Action>)
    decreases |run|
  {
    run == [] || (Enabled(s, run[0]) && Legal(Step(s, run[0]), run[1..]))
  }

  function Exec(s: State, run: seq<Action>): State
    requires Legal(s, run)
    decreases |run|
  {
    if run == [] then s else Exec(Step(s, run[0]), run[1..])
  }

  function Start(max: U64, threads: nat): State {
    State(max, 0, seq(threads, _ => Idle))
  }

  // ------------------------------------------------------------- bookkeeping

  /** Bytes this thread has added to the counter and not yet taken back. */
  function Outstanding(g: Stage): nat {
    if g.Idle? then 0 else g.bytes
  }

  /** Bytes of an admitted guard. */
  function Admitted(g: Stage): nat {
    if g.Held? then g.bytes else 0
  }

  /** Bytes admitted, or whose comparison is certain to admit them. */
  function Winning(g: Stage, max: U64): nat {
    if g.Held? || (g.Added? && Passes(g.previous, g.bytes, max)) then g.bytes else 0
  }

  function TotalOutstanding(gs: seq<Stage>): nat {
    if gs == [] then 0 else Outstanding(gs[0]) + TotalOutstanding(gs[1..])
  }

  function TotalAdmitted(gs: seq<Stage>): nat {
    if gs == [] then 0 else Admitted(gs[0]) + TotalAdmitted(gs[1..])
  }

  function TotalWinning(gs: seq<Stage>, max: U64): nat {
    if gs == [] then 0 else Winning(gs[0], max) + TotalWinning(gs[1..], max)
  }

  lemma {:induction false} OneThreadMoves(gs: seq<Stage>, t: nat, g: Stage, max: U64)
    requires t < |gs|
    ensures TotalOutstanding(gs[t := g]) == TotalOutstanding(gs) - Outstanding(gs[t]) + Outstanding(g)
    ensures TotalWinning(gs[t := g], max) == TotalWinning(gs, max) - Winning(gs[t], max) + Winning(g, max)
  {
    if t == 0 {
      assert gs[t := g][1..] == gs[1..];
    } else {
      assert gs[t := g][1..] == gs[1..][t - 1 := g];
      OneThreadMoves(gs[1..], t - 1, g, max);
    }
  }

  lemma {:induction false} TotalsNest(gs: seq<Stage>, max: U64)
    ensures TotalAdmitted(gs) <= TotalWinning(gs, max) <= TotalOutstanding(gs)
  {
    if gs != [] {
      TotalsNest(gs[1..], max);
    }
  }

  lemma {:induction false} IdleTotals(gs: seq<Stage>)
    requires forall g <- gs :: g.Idle?
    ensures TotalOutstanding(gs) == 0
  {
    if gs != [] {
      IdleTotals(gs[1..]);
    }
  }

  // -------------------------------------------------------------- invariants

  /** The counter is the outstanding total modulo 2^64, wrapped or not. */
  predicate Counted(s: State) {
    s.counter == TotalOutstanding(s.threads) % MODULUS
  }

  predicate Capped(s: State) {
    TotalWinning(s.threads, s.max) <= s.max
  }

  /** A real total under the 64-bit modulus. */
  predicate Unwrapped(s: State) {
    TotalOutstanding(s.threads) < MODULUS
  }

  lemma SubtractWraps(total: nat, counter: U64, b: U64)
    requires counter == total % MODULUS && b <= total
    ensures (counter - b) % MODULUS == (total - b) % MODULUS
  {
    var q := total / MODULUS;
    assert total == q * MODULUS + counter;
    ModShift(counter - b, q);
  }

  lemma {:induction false} ModShift(x: int, q: nat)
    ensures (x + q * MODULUS) % MODULUS == x % MODULUS
    decreases q
  {
    if q > 0 {
      ModShift(x, q - 1);
      assert x + q * MODULUS == x + (q - 1) * MODULUS + MODULUS;
    }
  }

  lemma AddWraps(total: nat, counter: U64, b: U64)
    requires counter == total % MODULUS
    ensures (counter + b) % MODULUS == (total + b) % MODULUS
  {
    var q := total / MODULUS;
    assert total == q * MODULUS + counter;
    ModShift(counter + b, q);
  }

  lemma BackAndForth(counter: U64, b: U64)
    ensures ((counter + b) % MODULUS - b) % MODULUS == counter
  {
  }

  lemma {:induction false} HeldIsOutstanding(gs: seq<Stage>, t: nat)
    requires t < |gs|
    ensures Outstanding(gs[t]) <= TotalOutstanding(gs)
  {
    if t > 0 {
      HeldIsOutstanding(gs[1..], t - 1);
    }
  }

  lemma StepCounts(s: State, a: Action)
    requires Enabled(s, a) && Counted(s)
    ensures Counted(Step(s, a))
  {
    var t := a.thread;
    OneThreadMoves(s.threads, t, Step(s, a).threads[t], s.max);
    HeldIsOutstanding(s.threads, t);
    match a
    case FetchAdd(_, b) => AddWraps(TotalOutstanding(s.threads), s.counter, b);
    case Compare(_) =>
    case _ => SubtractWraps(TotalOutstanding(s.threads), s.counter, s.threads[t].bytes);
  }

  /** The one step that can raise what is admitted is a `fetch_add`, and its comparison sees everything. */
  lemma StepCaps(s: State, a: Action)
    requires Enabled(s, a) && Counted(s) && Capped(s) && Unwrapped(s)
    requires Unwrapped(Step(s, a))
    ensures Capped(Step(s, a))
  {
    OneThreadMoves(s.threads, a.thread, Step(s, a).threads[a.thread], s.max);
    TotalsNest(s.threads, s.max);
  }

  /** Every state the run passes through keeps the real total below 2^64. */
  predicate NeverWraps(s: State, run: seq<Action>)
    requires Legal(s, run)
    decreases |run|
  {
    Unwrapped(s) && (run == [] || NeverWraps(Step(s, run[0]), run[1..]))
  }

  lemma {:induction false} RunCounts(s: State, run: seq<Action>)
    requires Legal(s, run) && Counted(s)
    ensures Counted(Exec(s, run)) && |Exec(s, run).threads| == |s.threads| && Exec(s, run).max == s.max
    decreases |run|
  {
    if run != [] {
      StepCounts(s, run[0]);
      RunCounts(Step(s, run[0]), run[1..]);
    }
  }

  lemma {:induction false} RunCaps(s: State, run: seq<Action>)
    requires Legal(s, run) && Counted(s) && Capped(s) && NeverWraps(s, run)
    ensures Capped(Exec(s, run)) && Unwrapped(Exec(s, run))
    decreases |run|
  {
    if run != [] {
      var next := Step(s, run[0]);
      assert Unwrapped(next) by { assert NeverWraps(next, run[1..]); }
      StepCounts(s, run[0]);
      StepCaps(s, run[0]);
      RunCaps(next, run[1..]);
    }
  }

  lemma {:induction false} StartIsEmpty(max: U64, n: nat)
    ensures TotalOutstanding(Start(max, n).threads) == 0
  {
    IdleTotals(Start(max, n).threads);
  }

  /**
   Any number of threads, any interleaving: the counter is the outstanding bytes modulo
   2^64, so it is zero again once every thread is idle; and while the real total stays
   below 2^64 the bytes held by admitted guards never exceed the cap.
   */
  lemma AdmissionIsSafe(max: U64, n: nat, run: seq<Action>)
    requires Legal(Start(max, n), run)
    ensures var s := Exec(Start(max, n), run);
            && s.counter == TotalOutstanding(s.threads) % MODULUS
            && ((forall g <- s.threads :: g.Idle?) ==> s.counter == 0)
    ensures NeverWraps(Start(max, n), run) ==>
              var s := Exec(Start(max, n), run);
              && s.counter == TotalOutstanding(s.threads)
              && TotalAdmitted(s.threads) <= max
  {
    var start := Start(max, n);
    StartIsEmpty(max, n);
    TotalsNest(start.threads, max);
    RunCounts(start, run);
    var s := Exec(start, run);
    if forall g <- s.threads :: g.Idle? {
      IdleTotals(s.threads);
    }
    if NeverWraps(start, run) {
      RunCaps(start, run);
      TotalsNest(s.threads, max);
    }
  }

  /** A `fetch_add` past the admitted bytes, with room in the wrapped total, or under the largest cap. */
  predicate Breaks(s: State, a: Action) {
    && a.FetchAdd?
    && TotalWinning(s.threads, s.max) + a.bytes > s.max
    && (|| s.max == MODULUS - 1
        || (TotalOutstanding(s.threads) >= MODULUS
            && TotalOutstanding(s.threads) % MODULUS + a.bytes <= s.max))
  }

  /**
   Admitted bytes, those certain to be admitted included, pass the cap in exactly such a step.
   */
  lemma CapBreaksExactlyWhen(s: State, a: Action)
    requires Enabled(s, a) && Counted(s) && Capped(s)
    ensures !Capped(Step(s, a)) <==> Breaks(s, a)
  {
    var total := TotalOutstanding(s.threads);
    OneThreadMoves(s.threads, a.thread, Step(s, a).threads[a.thread], s.max);
    TotalsNest(s.threads, s.max);
    if total < MODULUS {
      assert total % MODULUS == total;
    }
  }

  /** Once no thread is between its `fetch_add` and its comparison, those are the admitted bytes. */
  lemma {:induction false} SettledTotals(gs: seq<Stage>, max: U64)
    requires forall g <- gs :: !g.Added?
    ensures TotalAdmitted(gs) == TotalWinning(gs, max)
  {
    if gs != [] {
      assert gs[0] in gs;
      SettledTotals(gs[1..], max);
    }
  }

  ghost predicate StaysCapped(s: State, run: seq<Action>)
    requires Legal(s, run)
    decreases |run|
  {
    Capped(s) && (run == [] || StaysCapped(Step(s, run[0]), run[1..]))
  }

  ghost predicate NoneBreaks(s: State, run: seq<Action>)
    requires Legal(s, run)
    decreases |run|
  {
    run == [] || (!Breaks(s, run[0]) && NoneBreaks(Step(s, run[0]), run[1..]))
  }

  /** For every interleaving: the cap holds throughout exactly when no such step occurs. */
  lemma {:induction false} StaysCappedExactlyWhen(s: State, run: seq<Action>)
    requires Legal(s, run) && Counted(s) && Capped(s)
    ensures StaysCapped(s, run) <==> NoneBreaks(s, run)
    decreases |run|
  {
    if run != [] {
      CapBreaksExactlyWhen(s, run[0]);
      StepCounts(s, run[0]);
      if Capped(Step(s, run[0])) {
        StaysCappedExactlyWhen(Step(s, run[0]), run[1..]);
      }
    }
  }

  // The cap is really passed on such a run: a cap of 10, ten bytes held, and two
  // refused requests whose rollback is late bring the counter round to zero.

  const HALF: U64 := 0x8000_0000_0000_0000

  lemma Cons(s: State, a: Action, next: State, rest: seq<Action>)
    requires Enabled(s, a) && Step(s, a) == next && Legal(next, rest)
    ensures Legal(s, [a] + rest) && Exec(s, [a] + rest) == Exec(next, rest)
  {
    assert ([a] + rest)[1..] == rest;
  }

  /** From the first request to both large ones being refused. */
  lemma CounterComesRound(rest: seq<Action>)
    requires Legal(State(10, 0, [Held(10), Refusing(HALF), Refusing(HALF - 10), Idle]), rest)
    ensures var run := [FetchAdd(0, 10)] + ([Compare(0)] + ([FetchAdd(1, HALF)] + ([Compare(1)]
                       + ([FetchAdd(2, HALF - 10)] + ([Compare(2)] + rest)))));
            && Legal(State(10, 0, [Idle, Idle, Idle, Idle]), run)
            && Exec(State(10, 0, [Idle, Idle, Idle, Idle]), run)
               == Exec(State(10, 0, [Held(10), Refusing(HALF), Refusing(HALF - 10), Idle]), rest)
  {
    var s1 := State(10, 10, [Added(10, 0), Idle, Idle, Idle]);
    var s2 := State(10, 10, [Held(10), Idle, Idle, Idle]);
    var s3 := State(10, 10 + HALF, [Held(10), Added(HALF, 10), Idle, Idle]);
    var s4 := State(10, 10 + HALF, [Held(10), Refusing(HALF), Idle, Idle]);
    var s5 := State(10, 0, [Held(10), Refusing(HALF), Added(HALF - 10, 10 + HALF), Idle]);
    var s6 := State(10, 0, [Held(10), Refusing(HALF), Refusing(HALF - 10), Idle]);
    var r6 := rest;
    var r5 := [Compare(2)] + r6;
    var r4 := [FetchAdd(2, HALF - 10)] + r5;
    var r3 := [Compare(1)] + r4;
    var r2 := [FetchAdd(1, HALF)] + r3;
    Cons(s5, Compare(2), s6, r6);
    Cons(s4, FetchAdd(2, HALF - 10), s5, r5);
    Cons(s3, Compare(1), s4, r4);
    Cons(s2, FetchAdd(1, HALF), s3, r3);
    Cons(s1, Compare(0), s2, r2);
    Cons(State(10, 0, [Idle, Idle, Idle, Idle]), FetchAdd(0, 10), s1, [Compare(0)] + r2);
  }

  lemma CapPassedAfterWrap()
    ensures exists run ::
              Legal(Start(10, 4), run) && TotalAdmitted(Exec(Start(10, 4), run).threads) == 20
  {
    var s6 := State(10, 0, [Held(10), Refusing(HALF), Refusing(HALF - 10), Idle]);
    var s7 := State(10, 10, [Held(10), Refusing(HALF), Refusing(HALF - 10), Added(10, 0)]);
    var s8 := State(10, 10, [Held(10), Refusing(HALF), Refusing(HALF - 10), Held(10)]);
    Cons(s7, Compare(3), s8, []);
    Cons(s6, FetchAdd(3, 10), s7, [Compare(3)]);
    CounterComesRound([FetchAdd(3, 10)] + [Compare(3)]);
    assert Start(10, 4) == State(10, 0, [Idle, Idle, Idle, Idle]);
    AdmittedOfFour(Held(10), Refusing(HALF), Refusing(HALF - 10), Held(10));
  }

  lemma AdmittedOfFour(a: Stage, b: Stage, c: Stage, d: Stage)
    ensures TotalAdmitted([a, b, c, d]) == Admitted(a) + Admitted(b) + Admitted(c) + Admitted(d)
  {
    assert [a, b, c, d][1..] == [b, c, d];
    assert [b, c, d][1..] == [c, d];
    assert [c, d][1..] == [d];
    assert [d][1..] == [];
    assert TotalAdmitted([d]) == Admitted(d);
    assert TotalAdmitted([c, d]) == Admitted(c) + Admitted(d);
  }

  // ------------------------------------------------------------------- guard

  /** The shared counter and one guard per thread, changed in place. */
  class Server {
    const max: U64
    var counter: U64
    var threads: seq<Stage>

    ghost function View(): State reads this {
      State(max, counter, threads)
    }

    constructor (max: U64, n: nat)
      ensures View() == Start(max, n) && Counted(View()) && Capped(View())
    {
      this.max := max;
      counter := 0;
      threads := seq(n, _ => Idle);
      new;
      StartIsEmpty(max, n);
      TotalsNest(threads, max);
    }

    /**
     One thread's `admit` when no other thread runs in between: a refusal leaves the counter as
     it was, and as long as the total does not wrap it succeeds exactly when the bytes fit
     beside everything outstanding.
     */
    method Admit(t: nat, bytes: U64) returns (ok: bool)
      requires t < |threads| && threads[t].Idle? && Counted(View())
      modifies this
      ensures ok <==> Passes(old(counter), bytes, max)
      ensures threads == if ok then old(threads)[t := Held(bytes)] else old(threads)
      ensures counter == if ok then (old(counter) + bytes) % MODULUS else old(counter)
      ensures Counted(View())
      ensures old(TotalOutstanding(threads)) + bytes < MODULUS ==>
                && (ok <==> old(TotalOutstanding(threads)) + bytes <= max)
                && (old(Capped(View())) ==> Capped(View()))
    {
      var previous := counter;
      OneThreadMoves(threads, t, Held(bytes), max);
      TotalsNest(threads, max);
      AddWraps(TotalOutstanding(threads), counter, bytes);
      counter := (counter + bytes) % MODULUS;
      if SaturatingAdd(previous, bytes) > max {
        BackAndForth(previous, bytes);
        counter := (counter - bytes) % MODULUS;
        return false;
      }
      threads := threads[t := Held(bytes)];
      return true;
    }

    /** The guard's drop gives back exactly what its admission added. */
    method Drop(t: nat)
      requires t < |threads| && threads[t].Held? && Counted(View())
      modifies this
      ensures threads == old(threads)[t := Idle] && Counted(View())
      ensures TotalOutstanding(threads) == old(TotalOutstanding(threads)) - old(threads[t].bytes)
    {
      StepCounts(View(), Release(t));
      OneThreadMoves(threads, t, Idle, max);
      counter := (counter - threads[t].bytes) % MODULUS;
      threads := threads[t := Idle];
    }
  }
}
