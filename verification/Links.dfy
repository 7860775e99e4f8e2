/**
 Fault links: how overlapping holds compose on one link, and when live
 connections are cut.
 */
module Links {
  datatype LinkCondition = Pass | Drop | Delay(ms: nat) | BandwidthCap(bytesPerSec: nat)
  datatype LinkConditions = LinkConditions(clientToServer: LinkCondition, serverToClient: LinkCondition)

  const CHUNK: nat := 16 * 1024
  const NANOS: nat := 1_000_000_000
  const U64_MAX: nat := 0xFFFF_FFFF_FFFF_FFFF

  /** How long, in nanoseconds, a chunk of `bytes` bytes is held. */
  function Pace(c: LinkCondition, bytes: nat): nat {
    match c
    case Pass => 0
    case Drop => 0
    case Delay(ms) => ms * 1_000_000
    case BandwidthCap(rate) => if rate == 0 then 0 else Least(bytes * NANOS / rate, U64_MAX)
  }

  function Least(a: nat, b: nat): nat {
    if a <= b then a else b
  }

  function MostRestrictive(a: LinkCondition, b: LinkCondition): LinkCondition {
    if a.Drop? || b.Drop? then Drop
    else if Pace(b, CHUNK) > Pace(a, CHUNK) then b
    else a
  }

  function Compose(a: LinkConditions, b: LinkConditions): LinkConditions {
    LinkConditions(MostRestrictive(a.clientToServer, b.clientToServer),
                   MostRestrictive(a.serverToClient, b.serverToClient))
  }

  predicate EitherDropped(c: LinkConditions) {
    c.clientToServer.Drop? || c.serverToClient.Drop?
  }

  datatype Hold = Hold(id: nat, conditions: LinkConditions)

  /** The fold over every outstanding hold, in id order. */
  function Effective(holds: seq<Hold>): LinkConditions {
    if holds == [] then LinkConditions(Pass, Pass)
    else Compose(Effective(holds[..|holds| - 1]), holds[|holds| - 1].conditions)
  }

  datatype Direction = ToServer | ToClient

  function Toward(c: LinkConditions, d: Direction): LinkCondition {
    if d.ToServer? then c.clientToServer else c.serverToClient
  }

  // -------------------------------------------------------------- composition

  /** One direction is dropped exactly when some live hold drops it. */
  lemma {:induction false} DroppedIff(holds: seq<Hold>, d: Direction)
    ensures Toward(Effective(holds), d).Drop? <==> exists h <- holds :: Toward(h.conditions, d).Drop?
  {
    if holds != [] {
      var front, last := holds[..|holds| - 1], holds[|holds| - 1];
      DroppedIff(front, d);
      EffectiveSnoc(holds, d);
      RestrictedTo(Toward(Effective(front), d), Toward(last.conditions, d));
      assert holds == front + [last];
    }
  }

  lemma EffectiveSnoc(holds: seq<Hold>, d: Direction)
    requires holds != []
    ensures Toward(Effective(holds), d) ==
            MostRestrictive(Toward(Effective(holds[..|holds| - 1]), d), Toward(holds[|holds| - 1].conditions, d))
  {
  }

  /** Of two conditions the result is a drop if either is, and one of the two in any case. */
  lemma RestrictedTo(a: LinkCondition, b: LinkCondition)
    ensures MostRestrictive(a, b).Drop? <==> a.Drop? || b.Drop?
    ensures MostRestrictive(a, b) == a || MostRestrictive(a, b) == b
  {
  }

  /** No condition is invented: it is `Pass` or what some live hold asked for. */
  lemma {:induction false} EffectiveIsHeld(holds: seq<Hold>, d: Direction)
    ensures var e := Toward(Effective(holds), d);
            e.Pass? || exists h <- holds :: Toward(h.conditions, d) == e
  {
    if holds != [] {
      var front, last := holds[..|holds| - 1], holds[|holds| - 1];
      EffectiveIsHeld(front, d);
      EffectiveSnoc(holds, d);
      RestrictedTo(Toward(Effective(front), d), Toward(last.conditions, d));
      assert holds == front + [last];
    }
  }

  /** At a full chunk no hold is relaxed by another one. */
  lemma {:induction false} EffectiveIsSlowest(holds: seq<Hold>, d: Direction, h: Hold)
    requires h in holds && !Toward(Effective(holds), d).Drop?
    ensures Pace(Toward(h.conditions, d), CHUNK) <= Pace(Toward(Effective(holds), d), CHUNK)
  {
    var front, last := holds[..|holds| - 1], holds[|holds| - 1];
    assert holds == front + [last];
    if h in front {
      EffectiveIsSlowest(front, d, h);
    }
  }

  ghost predicate SameHolds(a: seq<Hold>, b: seq<Hold>) {
    forall h: Hold :: h in a <==> h in b
  }

  lemma SlowestBoundsOther(a: seq<Hold>, b: seq<Hold>, d: Direction)
    requires SameHolds(a, b) && !Toward(Effective(b), d).Drop?
    ensures Pace(Toward(Effective(a), d), CHUNK) <= Pace(Toward(Effective(b), d), CHUNK)
  {
    EffectiveIsHeld(a, d);
    var e := Toward(Effective(a), d);
    if !e.Pass? {
      var h :| h in a && Toward(h.conditions, d) == e;
      EffectiveIsSlowest(b, d, h);
    }
  }

  /** Whatever order the holds are folded in, the drop verdict and the full-chunk pace agree. */
  lemma OrderIndependent(a: seq<Hold>, b: seq<Hold>, d: Direction)
    requires SameHolds(a, b)
    ensures Toward(Effective(a), d).Drop? <==> Toward(Effective(b), d).Drop?
    ensures Pace(Toward(Effective(a), d), CHUNK) == Pace(Toward(Effective(b), d), CHUNK)
  {
    DroppedIff(a, d);
    DroppedIff(b, d);
    if !Toward(Effective(a), d).Drop? {
      SlowestBoundsOther(a, b, d);
      SlowestBoundsOther(b, a, d);
    }
  }

  // ------------------------------------------------------- chunks below CHUNK

  lemma ScaleMonotone(a: int, b: int, c: nat)
    requires a <= b
    ensures a * c <= b * c
  {
  }

  lemma QuotientBounds(k: nat, rate: nat, q: nat)
    requires rate > 0 && q == k / rate
    ensures q * rate <= k < q * rate + rate
  {
  }

  lemma QuotientLeast(qa: nat, qb: nat, a: nat, b: nat, rate: nat)
    requires qa * rate <= a <= b < qb * rate + rate
    ensures qa <= qb
  {
    if qb + 1 <= qa {
      ScaleMonotone(qb + 1, qa, rate);
    }
  }

  lemma DivMonotone(a: nat, b: nat, rate: nat)
    requires a <= b && rate > 0
    ensures a / rate <= b / rate
  {
    QuotientBounds(a, rate, a / rate);
    QuotientBounds(b, rate, b / rate);
    QuotientLeast(a / rate, b / rate, a, b, rate);
  }

  /** A shorter chunk is never held longer. */
  lemma PaceMonotone(c: LinkCondition, n: nat)
    requires n <= CHUNK
    ensures Pace(c, n) <= Pace(c, CHUNK)
  {
    if c.BandwidthCap? && c.bytesPerSec > 0 {
      DivMonotone(n * NANOS, CHUNK * NANOS, c.bytesPerSec);
    }
  }

  function FullPace(h: Hold, d: Direction): nat {
    Pace(Toward(h.conditions, d), CHUNK)
  }

  /** The earliest of the holds that hold a full chunk longest. */
  predicate FirstSlowest(holds: seq<Hold>, d: Direction, i: int) {
    && 0 <= i < |holds|
    && (forall j | 0 <= j < |holds| :: FullPace(holds[j], d) <= FullPace(holds[i], d))
    && (forall j | 0 <= j < i :: FullPace(holds[j], d) < FullPace(holds[i], d))
  }

  /** The fold's winner: the first slowest hold, or `Pass` when no hold slows a full chunk. */
  lemma {:induction false} Winner(holds: seq<Hold>, d: Direction) returns (i: int)
    requires !Toward(Effective(holds), d).Drop?
    ensures i < 0 ==> Toward(Effective(holds), d).Pass? && forall h <- holds :: FullPace(h, d) == 0
    ensures i >= 0 ==> FirstSlowest(holds, d, i) && FullPace(holds[i], d) > 0
    ensures i >= 0 ==> Toward(Effective(holds), d) == Toward(holds[i].conditions, d)
  {
    i := -1;
    if holds != [] {
      var front, last := holds[..|holds| - 1], holds[|holds| - 1];
      assert holds == front + [last];
      EffectiveSnoc(holds, d);
      i := Winner(front, d);
      var held := Toward(Effective(front), d);
      assert Pace(held, CHUNK) == if i < 0 then 0 else FullPace(front[i], d);
      if FullPace(last, d) > Pace(held, CHUNK) {
        assert forall j | 0 <= j < |front| :: front[j] in front && holds[j] == front[j];
        i := |front|;
      }
    }
  }

  /** The winner is a cap that is faster than this condition on this chunk. */
  predicate Undercuts(winner: LinkCondition, c: LinkCondition, n: nat) {
    winner.BandwidthCap? && Pace(winner, n) < Pace(c, n)
  }

  lemma OnlyCapsUndercut(winner: LinkCondition, c: LinkCondition, n: nat)
    requires n <= CHUNK && Pace(c, CHUNK) <= Pace(winner, CHUNK) && !winner.Drop? && !c.Drop?
    ensures Pace(winner, n) < Pace(c, n) <==> Undercuts(winner, c, n)
  {
    PaceMonotone(c, n);
  }

  lemma FirstSlowestUnique(holds: seq<Hold>, d: Direction, i: int, j: int)
    requires FirstSlowest(holds, d, i) && FirstSlowest(holds, d, j)
    ensures i == j
  {
    assert FullPace(holds[i], d) == FullPace(holds[j], d);
  }

  /**
   The promise that no window relaxes another fails for shorter chunks. In any table
   that drops nothing, a hold is cut short on a chunk exactly when the first slowest
   hold is a cap that is faster on that chunk. Ties at a full chunk go to the earlier hold.
   */
  lemma RelaxedExactlyWhen(holds: seq<Hold>, d: Direction, h: Hold, n: nat)
    requires h in holds && n <= CHUNK && !Toward(Effective(holds), d).Drop?
    ensures Pace(Toward(Effective(holds), d), n) < Pace(Toward(h.conditions, d), n) <==>
            exists i ::
              FirstSlowest(holds, d, i) && Undercuts(Toward(holds[i].conditions, d), Toward(h.conditions, d), n)
  {
    var c := Toward(h.conditions, d);
    PaceMonotone(c, n);
    DroppedIff(holds, d);
    var i := Winner(holds, d);
    if i >= 0 {
      EffectiveIsSlowest(holds, d, h);
      OnlyCapsUndercut(Toward(holds[i].conditions, d), c, n);
      forall j | FirstSlowest(holds, d, j) ensures j == i {
        FirstSlowestUnique(holds, d, i, j);
      }
    } else {
      assert FullPace(h, d) == 0;
    }
  }

  /** A delay and a cap, in either order: the cap must be slower on a full chunk, or as slow and held first. */
  lemma DelayRelaxedExactlyWhen(ms: nat, rate: nat, n: nat)
    requires n <= CHUNK
    ensures var delay, cap := Delay(ms), BandwidthCap(rate);
            Pace(MostRestrictive(delay, cap), n) < Pace(delay, n)
            <==> Pace(cap, n) < Pace(delay, n) && Pace(delay, CHUNK) < Pace(cap, CHUNK)
    ensures var delay, cap := Delay(ms), BandwidthCap(rate);
            Pace(MostRestrictive(cap, delay), n) < Pace(delay, n)
            <==> Pace(cap, n) < Pace(delay, n) && Pace(delay, CHUNK) <= Pace(cap, CHUNK)
  {
    PaceMonotone(BandwidthCap(rate), n);
  }

  /** A tie: the cap was held first, so a one-byte chunk waits 61ns instead of a millisecond. */
  lemma TieRelaxesDelay()
    ensures var delay, cap := Delay(1), BandwidthCap(16_384_000);
            && Pace(delay, CHUNK) == Pace(cap, CHUNK)
            && Pace(MostRestrictive(cap, delay), 1) == 61
            && Pace(MostRestrictive(delay, cap), 1) == 1_000_000
  {
    assert Pace(BandwidthCap(16_384_000), CHUNK) == 1_000_000;
  }

  lemma DelayRelaxedExample()
    ensures var delay, cap := Delay(1), BandwidthCap(2000);
            Pace(MostRestrictive(delay, cap), 1) == 500_000 && Pace(delay, 1) == 1_000_000
  {
    assert Pace(BandwidthCap(2000), CHUNK) == 8_192_000_000;
  }

  /** A cap is never relaxed by more than one nanosecond, whatever else is held. */
  lemma CapsRelaxByOneAtMost(holds: seq<Hold>, d: Direction, h: Hold, n: nat)
    requires h in holds && n <= CHUNK && !Toward(Effective(holds), d).Drop?
    requires Toward(h.conditions, d).BandwidthCap?
    ensures Pace(Toward(h.conditions, d), n) <= Pace(Toward(Effective(holds), d), n) + 1
  {
    var c, e := Toward(h.conditions, d), Toward(Effective(holds), d);
    PaceMonotone(c, n);
    EffectiveIsSlowest(holds, d, h);
    if e.BandwidthCap? {
      CapBehind(e.bytesPerSec, c.bytesPerSec, n);
    }
  }

  /** If cap `a` holds a full chunk at least as long as `b`, it is at most 1ns behind on a shorter one. */
  lemma CapBehind(a: nat, b: nat, n: nat)
    requires n <= CHUNK
    ensures Pace(BandwidthCap(b), CHUNK) <= Pace(BandwidthCap(a), CHUNK) ==>
              Pace(BandwidthCap(b), n) <= Pace(BandwidthCap(a), n) + 1
  {
    if a > 0 && b > 0 {
      NoClip(a, n);
      NoClip(b, n);
      NoClip(a, CHUNK);
      NoClip(b, CHUNK);
      if CHUNK * NANOS / b <= CHUNK * NANOS / a {
        var m, k := n * NANOS, CHUNK * NANOS;
        BehindByOne(a, b, m, k, k / a, k / b, m / a, m / b);
      }
    } else if a == 0 && b > 0 {
      DivMonotone(n * NANOS, CHUNK * NANOS, b);
    }
  }

  lemma NoClip(rate: nat, n: nat)
    requires n <= CHUNK && rate > 0
    ensures Pace(BandwidthCap(rate), n) == n * NANOS / rate
  {
    var k := n * NANOS;
    assert k <= CHUNK * NANOS < U64_MAX;
    assert k / rate <= k by { DivShrinks(k, rate); }
  }

  lemma DivShrinks(k: nat, rate: nat)
    requires rate > 0
    ensures k / rate <= k
  {
    QuotientBounds(k, rate, k / rate);
    AtLeastOnce(k / rate, rate);
  }

  lemma AtLeastOnce(q: nat, rate: nat)
    requires rate > 0
    ensures q <= q * rate
  {
    ScaleMonotone(1, rate, q);
  }

  lemma BehindByOne(a: nat, b: nat, m: nat, k: nat, ka: nat, kb: nat, x: nat, y: nat)
    requires a > 0 && b > 0 && ka == k / a && kb == k / b && x == m / a && y == m / b
    requires m <= k && kb <= ka
    ensures y <= x + 1
  {
    QuotientBounds(m, a, x);
    QuotientBounds(m, b, y);
    QuotientBounds(k, a, ka);
    QuotientBounds(k, b, kb);
    QuotientLeast(y, kb, m, k, b);
    ScaleMonotone(kb, ka, b);
    NotTwoBehind(a, b, m, k, ka, x, y);
  }

  lemma NotTwoBehind(a: nat, b: nat, m: nat, k: nat, q: nat, x: nat, y: nat)
    requires y * b <= m < x * a + a
    requires q * a <= k < q * b + b
    requires y <= q
    ensures y <= x + 1
  {
    if x + 2 <= y {
      ScaleMonotone(x + 2, y, b);
      Spread(x, 2, b);
      if a <= b {
        SpreadMonotone(a, b, x);
      } else {
        ScaleMonotone(x + 1, q, a - b);
        Spread(x, 1, a - b);
        Difference(x, a, b);
        Difference(q, a, b);
      }
    }
  }

  lemma Spread(x: nat, n: nat, b: nat)
    ensures (x + n) * b == x * b + n * b
  {
  }

  lemma SpreadMonotone(a: nat, b: nat, x: nat)
    requires a <= b
    ensures x * a <= x * b
  {
    ScaleMonotone(a, b, x);
  }

  lemma Difference(x: nat, a: nat, b: nat)
    requires b <= a
    ensures x * (a - b) == x * a - x * b
  {
  }

  // -------------------------------------------------- conditions in plain numbers

  /** A delay holds any chunk its milliseconds; a cap holds it the time the rate needs; the rest hold nothing. */
  lemma PaceInNumbers(ms: nat, rate: nat, n: nat)
    ensures Pace(Delay(ms), n) == ms * 1_000_000
    ensures Pace(Pass, n) == 0 && Pace(Drop, n) == 0 && Pace(BandwidthCap(0), n) == 0
    ensures rate > 0 && n <= 16384 ==> Pace(BandwidthCap(rate), n) == n * 1_000_000_000 / rate
  {
    if rate > 0 && n <= 16384 {
      NoClip(rate, n);
    }
  }

  /** Of two delays the longer one applies. */
  lemma LongerDelayWins(a: nat, b: nat)
    ensures MostRestrictive(Delay(a), Delay(b)) == Delay(if b > a then b else a)
  {
  }

  /** Of two caps the one that needs more whole nanoseconds for 16384 bytes; a zero cap caps nothing. */
  lemma SlowerCapWins(a: nat, b: nat)
    requires a > 0 && b > 0
    ensures MostRestrictive(BandwidthCap(a), BandwidthCap(b)) ==
            if 16_384_000_000_000 / b > 16_384_000_000_000 / a then BandwidthCap(b) else BandwidthCap(a)
    ensures MostRestrictive(BandwidthCap(a), BandwidthCap(0)) == BandwidthCap(a)
  {
    NoClip(a, 16384);
    NoClip(b, 16384);
  }

  /** Against a cap a delay wins in either order if it outlasts 16384 bytes at that rate. */
  lemma LongDelayBeatsCap(ms: nat, rate: nat)
    requires ms * 1_000_000 * rate > 16_384_000_000_000
    ensures MostRestrictive(Delay(ms), BandwidthCap(rate)) == Delay(ms)
    ensures MostRestrictive(BandwidthCap(rate), Delay(ms)) == Delay(ms)
  {
    if rate > 0 {
      NoClip(rate, 16384);
      QuotientBounds(16_384_000_000_000, rate, 16_384_000_000_000 / rate);
      BelowDelay(16_384_000_000_000 / rate, ms * 1_000_000, rate, 16_384_000_000_000);
    }
  }

  lemma BelowDelay(q: nat, d: nat, rate: nat, k: nat)
    requires q * rate <= k < d * rate
    ensures q < d
  {
    if d <= q {
      ScaleMonotone(d, q, rate);
    }
  }

  /** And a cap that needs longer for them wins in either order. */
  lemma SlowCapBeatsDelay(ms: nat, rate: nat)
    requires rate > 0 && 16_384_000_000_000 / rate > ms * 1_000_000
    ensures MostRestrictive(Delay(ms), BandwidthCap(rate)) == BandwidthCap(rate)
    ensures MostRestrictive(BandwidthCap(rate), Delay(ms)) == BandwidthCap(rate)
  {
    NoClip(rate, 16384);
  }

  /** A condition that holds a full chunk at least this many milliseconds, or drops it. */
  predicate AtLeast(c: LinkCondition, ms: nat) {
    match c
    case Pass => ms == 0
    case Drop => true
    case Delay(m) => m >= ms
    case BandwidthCap(rate) => if rate == 0 then ms == 0 else 16_384_000_000_000 / rate >= ms * 1_000_000
  }

  lemma AtLeastPace(c: LinkCondition, ms: nat)
    requires !c.Drop?
    ensures AtLeast(c, ms) <==> Pace(c, CHUNK) >= ms * 1_000_000
  {
    if c.BandwidthCap? && c.bytesPerSec > 0 {
      NoClip(c.bytesPerSec, 16384);
    }
  }

  /** No live delay is cut short on a full chunk. */
  ghost predicate DelaysHold(c: LinkCondition, live: map<nat, LinkConditions>, d: Direction) {
    forall id <- live :: Toward(live[id], d).Delay? ==> AtLeast(c, Toward(live[id], d).ms)
  }

  lemma GovernsDelays(c: LinkCondition, live: map<nat, LinkConditions>, d: Direction)
    requires Governs(c, live, d)
    ensures DelaysHold(c, live, d)
  {
    forall id <- live | Toward(live[id], d).Delay? ensures AtLeast(c, Toward(live[id], d).ms) {
      if !c.Drop? {
        AtLeastPace(c, Toward(live[id], d).ms);
        assert Pace(Toward(live[id], d), CHUNK) <= Pace(c, CHUNK);
      }
    }
  }

  // --------------------------------------------------------------------- link

  /** What the injectors did to the link. */
  datatype Act = Held(conditions: LinkConditions) | Released(id: nat)

  function HoldCount(log: seq<Act>): nat {
    if log == [] then 0
    else HoldCount(log[..|log| - 1]) + if log[|log| - 1].Held? then 1 else 0
  }

  /** The holds taken and not released; hold ids count up from zero and are never reused. */
  function Live(log: seq<Act>): map<nat, LinkConditions> {
    if log == [] then map[]
    else
      var front := log[..|log| - 1];
      match log[|log| - 1]
      case Held(c) => Live(front)[HoldCount(front) := c]
      case Released(id) => Live(front) - {id}
  }

  predicate Cut(live: map<nat, LinkConditions>) {
    exists id <- live :: live[id].clientToServer.Drop? || live[id].serverToClient.Drop?
  }

  /** How many steps of the history took the link from not dropped to dropped. */
  function Cuts(log: seq<Act>): nat {
    if log == [] then 0
    else
      var front := log[..|log| - 1];
      Cuts(front) + if !Cut(Live(front)) && Cut(Live(log)) then 1 else 0
  }

  lemma Snoc(log: seq<Act>, a: Act)
    ensures (log + [a])[..|log + [a]| - 1] == log
  {
  }

  /** The table lists exactly the live holds, in strictly increasing id order. */
  ghost predicate Lists(holds: seq<Hold>, live: map<nat, LinkConditions>) {
    && (forall i, j | 0 <= i < j < |holds| :: holds[i].id < holds[j].id)
    && (forall h <- holds :: h.id in live && live[h.id] == h.conditions)
    && (forall id <- live :: Hold(id, live[id]) in holds)
  }

  lemma DropVerdict(holds: seq<Hold>, live: map<nat, LinkConditions>)
    requires Lists(holds, live)
    ensures EitherDropped(Effective(holds)) <==> Cut(live)
  {
    DroppedIff(holds, ToServer);
    DroppedIff(holds, ToClient);
    if Cut(live) {
      var id :| id in live && (live[id].clientToServer.Drop? || live[id].serverToClient.Drop?);
      var h := Hold(id, live[id]);
      assert h in holds;
      assert Toward(h.conditions, ToServer).Drop? || Toward(h.conditions, ToClient).Drop?;
    }
    if EitherDropped(Effective(holds)) {
      var d := if Effective(holds).clientToServer.Drop? then ToServer else ToClient;
      assert Toward(Effective(holds), d).Drop?;
      var h :| h in holds && Toward(h.conditions, d).Drop?;
      assert live[h.id].clientToServer.Drop? || live[h.id].serverToClient.Drop?;
    }
  }

  /** Taking the next hold extends the table and the history alike. */
  lemma HoldLists(holds: seq<Hold>, log: seq<Act>, c: LinkConditions)
    requires Lists(holds, Live(log)) && forall h <- holds :: h.id < HoldCount(log)
    ensures var id, all := HoldCount(log), log + [Held(c)];
            && id !in Live(log)
            && HoldCount(all) == id + 1
            && Live(all) == Live(log)[id := c]
            && Lists(holds + [Hold(id, c)], Live(all))
            && (Cut(Live(all)) <==> Cut(Live(log)) || EitherDropped(c))
            && Cuts(all) == Cuts(log) + if !Cut(Live(log)) && Cut(Live(all)) then 1 else 0
  {
    var id := HoldCount(log);
    Snoc(log, Held(c));
    forall other <- Live(log) ensures other < id {
      assert Hold(other, Live(log)[other]) in holds;
    }
    var live := Live(log + [Held(c)]);
    assert live == Live(log)[id := c];
    CutAfter(Live(log), id, c);
  }

  lemma CutAfter(live: map<nat, LinkConditions>, id: nat, c: LinkConditions)
    requires id !in live
    ensures Cut(live[id := c]) <==> Cut(live) || EitherDropped(c)
  {
    var after := live[id := c];
    assert after[id] == c && forall other <- live :: after[other] == live[other];
  }

  ghost predicate Tracks(holds: seq<Hold>, nextId: nat, epoch: nat, log: seq<Act>) {
    && Lists(holds, Live(log))
    && (forall h <- holds :: h.id < nextId)
    && nextId == HoldCount(log)
    && epoch == Cuts(log)
  }

  function EpochAfter(epoch: nat, before: seq<Hold>, after: seq<Hold>): nat {
    if EitherDropped(Effective(after)) && !EitherDropped(Effective(before)) then epoch + 1 else epoch
  }

  lemma HoldTracks(holds: seq<Hold>, nextId: nat, epoch: nat, log: seq<Act>, c: LinkConditions)
    requires Tracks(holds, nextId, epoch, log)
    ensures var after := holds + [Hold(nextId, c)];
            Tracks(after, nextId + 1, EpochAfter(epoch, holds, after), log + [Held(c)])
    ensures nextId !in Live(log) && Live(log + [Held(c)]) == Live(log)[nextId := c]
    ensures EpochAfter(epoch, holds, holds + [Hold(nextId, c)])
            == epoch + if EitherDropped(c) && !Cut(Live(log)) then 1 else 0
  {
    HoldLists(holds, log, c);
    DropVerdict(holds, Live(log));
    DropVerdict(holds + [Hold(nextId, c)], Live(log + [Held(c)]));
  }

  /** Dropped iff a live hold drops; else Pass or one of theirs, and at a full chunk the slowest of them. */
  ghost predicate Governs(c: LinkCondition, live: map<nat, LinkConditions>, d: Direction) {
    && (c.Drop? <==> exists id <- live :: Toward(live[id], d).Drop?)
    && (c.Pass? || exists id <- live :: Toward(live[id], d) == c)
    && (forall id <- live :: !c.Drop? ==> Pace(Toward(live[id], d), CHUNK) <= Pace(c, CHUNK))
  }

  /** The earliest of the live holds that hold a full chunk longest. */
  ghost predicate FirstSlowestLive(live: map<nat, LinkConditions>, d: Direction, id: nat) {
    && id in live
    && (forall k <- live :: Pace(Toward(live[k], d), CHUNK) <= Pace(Toward(live[id], d), CHUNK))
    && (forall k <- live :: k < id ==> Pace(Toward(live[k], d), CHUNK) < Pace(Toward(live[id], d), CHUNK))
  }

  ghost predicate Undercut(live: map<nat, LinkConditions>, d: Direction, id: nat, n: nat)
    requires id in live
  {
    exists k :: FirstSlowestLive(live, d, k) && Undercuts(Toward(live[k], d), Toward(live[id], d), n)
  }

  /** Unless the direction is dropped, a live hold is cut short on a chunk exactly when it is undercut. */
  ghost predicate RelaxesExactly(c: LinkCondition, live: map<nat, LinkConditions>, d: Direction) {
    !c.Drop? ==>
      forall id, n: nat | id in live && n <= CHUNK ::
        Pace(c, n) < Pace(Toward(live[id], d), n) <==> Undercut(live, d, id, n)
  }

  class FaultLink {
    var nextId: nat
    var active: seq<Hold>
    var cutEpoch: nat
    ghost var log: seq<Act>

    ghost predicate Valid() reads this {
      Tracks(active, nextId, cutEpoch, log)
    }

    constructor ()
      ensures Valid() && log == []
    {
      nextId, active, cutEpoch, log := 0, [], 0, [];
    }

    /** Cuts live connections exactly when this hold is what drops the link. */
    method HoldConditions(conditions: LinkConditions) returns (id: nat)
      requires Valid()
      modifies this
      ensures Valid() && log == old(log) + [Held(conditions)]
      ensures id !in Live(old(log)) && Live(log) == Live(old(log))[id := conditions]
      ensures var drops := conditions.clientToServer.Drop? || conditions.serverToClient.Drop?;
              cutEpoch == old(cutEpoch) + if drops && !Cut(Live(old(log))) then 1 else 0
    {
      id := nextId;
      HoldTracks(active, id, cutEpoch, log, conditions);
      nextId := nextId + 1;
      var before := active;
      active := active + [Hold(id, conditions)];
      cutEpoch := EpochAfter(cutEpoch, before, active);
      log := log + [Held(conditions)];
    }

    /** Lifts that hold and no other, and never cuts a connection. */
    method Release(id: nat)
      requires Valid()
      modifies this
      ensures Valid() && log == old(log) + [Released(id)]
      ensures Live(log) == Live(old(log)) - {id} && cutEpoch == old(cutEpoch)
    {
      ghost var live := Live(log);
      Snoc(log, Released(id));
      log := log + [Released(id)];
      assert Live(log) == live - {id};
      assert forall other <- Live(log) :: Live(log)[other] == live[other];
      active := Without(active, id);
      WithoutLists(old(active), live, id);
    }

    /** The conditions every pump reads, against the live holds of the whole history. */
    method Conditions() returns (c: LinkConditions)
      requires Valid()
      ensures EitherDropped(c) <==> Cut(Live(log))
      ensures Governs(c.clientToServer, Live(log), ToServer) && Governs(c.serverToClient, Live(log), ToClient)
      ensures DelaysHold(c.clientToServer, Live(log), ToServer) && DelaysHold(c.serverToClient, Live(log), ToClient)
      ensures RelaxesExactly(c.clientToServer, Live(log), ToServer)
      ensures RelaxesExactly(c.serverToClient, Live(log), ToClient)
    {
      c := Effective(active);
      DropVerdict(active, Live(log));
      EffectiveByHistory(active, Live(log), ToServer);
      EffectiveByHistory(active, Live(log), ToClient);
      GovernsDelays(c.clientToServer, Live(log), ToServer);
      GovernsDelays(c.serverToClient, Live(log), ToClient);
      RelaxesByHistory(active, Live(log), ToServer);
      RelaxesByHistory(active, Live(log), ToClient);
    }
  }

  lemma FirstSlowestByHistory(holds: seq<Hold>, live: map<nat, LinkConditions>, d: Direction, i: nat)
    requires Lists(holds, live) && i < |holds|
    ensures FirstSlowest(holds, d, i) <==> FirstSlowestLive(live, d, holds[i].id)
  {
    assert holds[i] in holds;
    if FirstSlowest(holds, d, i) {
      forall k <- live
        ensures Pace(Toward(live[k], d), CHUNK) <= FullPace(holds[i], d)
        ensures k < holds[i].id ==> Pace(Toward(live[k], d), CHUNK) < FullPace(holds[i], d)
      {
        var j :| 0 <= j < |holds| && holds[j] == Hold(k, live[k]);
        assert FullPace(holds[j], d) <= FullPace(holds[i], d);
      }
    }
    if FirstSlowestLive(live, d, holds[i].id) {
      forall j | 0 <= j < |holds|
        ensures FullPace(holds[j], d) <= FullPace(holds[i], d)
        ensures j < i ==> FullPace(holds[j], d) < FullPace(holds[i], d)
      {
        assert holds[j] in holds && holds[j].id in live;
      }
    }
  }

  lemma UndercutByHistory(holds: seq<Hold>, live: map<nat, LinkConditions>, d: Direction, id: nat, n: nat)
    requires Lists(holds, live) && id in live
    ensures Undercut(live, d, id, n) <==>
            exists i :: FirstSlowest(holds, d, i) && Undercuts(Toward(holds[i].conditions, d), Toward(live[id], d), n)
  {
    if Undercut(live, d, id, n) {
      var k :| FirstSlowestLive(live, d, k) && Undercuts(Toward(live[k], d), Toward(live[id], d), n);
      var i :| 0 <= i < |holds| && holds[i] == Hold(k, live[k]);
      FirstSlowestByHistory(holds, live, d, i);
    }
    forall i | FirstSlowest(holds, d, i) && Undercuts(Toward(holds[i].conditions, d), Toward(live[id], d), n)
      ensures Undercut(live, d, id, n)
    {
      FirstSlowestByHistory(holds, live, d, i);
      assert holds[i] in holds && live[holds[i].id] == holds[i].conditions;
    }
  }

  lemma RelaxesByHistory(holds: seq<Hold>, live: map<nat, LinkConditions>, d: Direction)
    requires Lists(holds, live)
    ensures RelaxesExactly(Toward(Effective(holds), d), live, d)
  {
    var c := Toward(Effective(holds), d);
    if !c.Drop? {
      forall id, n: nat | id in live && n <= CHUNK
        ensures Pace(c, n) < Pace(Toward(live[id], d), n) <==> Undercut(live, d, id, n)
      {
        RelaxedExactlyWhen(holds, d, Hold(id, live[id]), n);
        UndercutByHistory(holds, live, d, id, n);
      }
    }
  }

  lemma EffectiveByHistory(holds: seq<Hold>, live: map<nat, LinkConditions>, d: Direction)
    requires Lists(holds, live)
    ensures Governs(Toward(Effective(holds), d), live, d)
  {
    DropByHistory(holds, live, d);
    HeldByHistory(holds, live, d);
    forall id <- live | !Toward(Effective(holds), d).Drop?
      ensures Pace(Toward(live[id], d), CHUNK) <= Pace(Toward(Effective(holds), d), CHUNK)
    {
      EffectiveIsSlowest(holds, d, Hold(id, live[id]));
    }
  }

  lemma DropByHistory(holds: seq<Hold>, live: map<nat, LinkConditions>, d: Direction)
    requires Lists(holds, live)
    ensures Toward(Effective(holds), d).Drop? <==> exists id <- live :: Toward(live[id], d).Drop?
  {
    DroppedIff(holds, d);
    if Toward(Effective(holds), d).Drop? {
      var h :| h in holds && Toward(h.conditions, d).Drop?;
      assert h.id in live && live[h.id] == h.conditions;
    } else {
      forall id <- live ensures !Toward(live[id], d).Drop? {
        assert Hold(id, live[id]) in holds;
      }
    }
  }

  lemma HeldByHistory(holds: seq<Hold>, live: map<nat, LinkConditions>, d: Direction)
    requires Lists(holds, live)
    ensures Toward(Effective(holds), d).Pass? || exists id <- live :: Toward(live[id], d) == Toward(Effective(holds), d)
  {
    EffectiveIsHeld(holds, d);
    if !Toward(Effective(holds), d).Pass? {
      var h :| h in holds && Toward(h.conditions, d) == Toward(Effective(holds), d);
      assert h.id in live && live[h.id] == h.conditions;
    }
  }

  function Without(holds: seq<Hold>, id: nat): seq<Hold> {
    if holds == [] then []
    else
      var front := Without(holds[..|holds| - 1], id);
      if holds[|holds| - 1].id == id then front else front + [holds[|holds| - 1]]
  }

  lemma {:induction false} WithoutMembers(holds: seq<Hold>, id: nat)
    ensures forall h: Hold :: h in Without(holds, id) <==> h in holds && h.id != id
  {
    if holds != [] {
      var front := holds[..|holds| - 1];
      WithoutMembers(front, id);
      assert holds == front + [holds[|holds| - 1]];
    }
  }

  lemma {:induction false} WithoutSorted(holds: seq<Hold>, id: nat)
    requires forall i, j | 0 <= i < j < |holds| :: holds[i].id < holds[j].id
    ensures forall i, j | 0 <= i < j < |Without(holds, id)| :: Without(holds, id)[i].id < Without(holds, id)[j].id
  {
    if holds != [] {
      var front, last := holds[..|holds| - 1], holds[|holds| - 1];
      WithoutSorted(front, id);
      WithoutMembers(front, id);
      forall i | 0 <= i < |Without(front, id)| ensures Without(front, id)[i].id < last.id {
        assert Without(front, id)[i] in front;
      }
    }
  }

  lemma WithoutLists(holds: seq<Hold>, live: map<nat, LinkConditions>, id: nat)
    requires Lists(holds, live)
    ensures Lists(Without(holds, id), live - {id})
    ensures forall h <- Without(holds, id) :: h in holds
  {
    WithoutMembers(holds, id);
    WithoutSorted(holds, id);
  }
}
