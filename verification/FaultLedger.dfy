/**
 The judge's fault ledger: up to three journal lines per fault are reassembled into
 one window, and a collision of fault ids is an error.

 Lines arrive decoded. Ids are compared as Rust compares strings, code point by code point.
 */
module FaultLedger {
  import opened Options

  datatype Phase = Armed | Started | Ended

  datatype Line = Line(faultId: string, kind: string, target: string, phase: Phase, at: nat)

  datatype Window = Window(faultId: string, kind: string, target: string,
                           armedAt: Option<nat>, startedAt: Option<nat>, endedAt: Option<nat>)

  datatype LedgerError =
    | RepeatedPhase(lineNo: nat, faultId: string, phase: Phase)
    | InconsistentWindow(lineNo: nat, faultId: string, found: string, known: string)

  function Slot(w: Window, p: Phase): Option<nat> {
    match p
    case Armed => w.armedAt
    case Started => w.startedAt
    case Ended => w.endedAt
  }

  function Fill(w: Window, p: Phase, at: nat): Window {
    match p
    case Armed => w.(armedAt := Some(at))
    case Started => w.(startedAt := Some(at))
    case Ended => w.(endedAt := Some(at))
  }

  // -------------------------------------------------------------- the grouping

  /** Two lines that may stand in one ledger. */
  predicate Compatible(a: Line, b: Line) {
    a.faultId == b.faultId ==> a.phase != b.phase && a.kind == b.kind && a.target == b.target
  }

  /** Each (fault, phase) at most once, and one kind and target per fault. */
  predicate Consistent(lines: seq<Line>) {
    forall i, j | 0 <= i < j < |lines| :: Compatible(lines[i], lines[j])
  }

  predicate Mentions(lines: seq<Line>, id: string) {
    exists l <- lines :: l.faultId == id
  }

  predicate Journals(lines: seq<Line>, id: string, p: Phase) {
    exists l <- lines :: l.faultId == id && l.phase == p
  }

  /** The window holds what the lines of its fault say, and nothing else. */
  predicate Describes(w: Window, lines: seq<Line>) {
    && Mentions(lines, w.faultId)
    && (forall l <- lines :: l.faultId == w.faultId ==>
          l.kind == w.kind && l.target == w.target && Slot(w, l.phase) == Some(l.at))
    && (forall p :: Slot(w, p).Some? ==> Journals(lines, w.faultId, p))
  }

  lemma DescribesSlot(w: Window, v: Window, lines: seq<Line>, p: Phase)
    requires Describes(w, lines) && Describes(v, lines) && w.faultId == v.faultId && Slot(w, p).Some?
    ensures Slot(v, p) == Slot(w, p)
  {
    var l :| l in lines && l.faultId == w.faultId && l.phase == p;
  }

  /** Each of a described window's times is that of its line of that phase, and absent without one. */
  lemma DescribedTimes(w: Window, lines: seq<Line>, t: nat)
    requires Describes(w, lines)
    ensures w.armedAt == Some(t) <==> Line(w.faultId, w.kind, w.target, Armed, t) in lines
    ensures w.startedAt == Some(t) <==> Line(w.faultId, w.kind, w.target, Started, t) in lines
    ensures w.endedAt == Some(t) <==> Line(w.faultId, w.kind, w.target, Ended, t) in lines
  {
    DescribedTime(w, lines, Armed, t);
    DescribedTime(w, lines, Started, t);
    DescribedTime(w, lines, Ended, t);
  }

  lemma DescribedTime(w: Window, lines: seq<Line>, p: Phase, t: nat)
    requires Describes(w, lines)
    ensures Slot(w, p) == Some(t) <==> Line(w.faultId, w.kind, w.target, p, t) in lines
  {
    if Slot(w, p).Some? {
      assert Journals(lines, w.faultId, p);
      var l :| l in lines && l.faultId == w.faultId && l.phase == p;
      assert l == Line(w.faultId, w.kind, w.target, p, l.at);
    }
  }

  /** The lines leave no choice of window. */
  lemma DescribesUnique(w: Window, v: Window, lines: seq<Line>)
    requires Describes(w, lines) && Describes(v, lines) && w.faultId == v.faultId
    ensures w == v
  {
    forall p ensures Slot(w, p) == Slot(v, p) {
      if Slot(w, p).Some? {
        DescribesSlot(w, v, lines, p);
      } else if Slot(v, p).Some? {
        DescribesSlot(v, w, lines, p);
      }
    }
    assert Slot(w, Armed) == Slot(v, Armed) && Slot(w, Started) == Slot(v, Started) && Slot(w, Ended) == Slot(v, Ended);
    var l :| l in lines && l.faultId == w.faultId;
  }

  // -------------------------------------------------------------- the loop body

  /** The table after reading exactly these lines. */
  ghost predicate Groups(table: map<string, Window>, lines: seq<Line>) {
    && (forall l <- lines :: l.faultId in table)
    && (forall id <- table :: table[id].faultId == id && Describes(table[id], lines))
  }

  function Opened(table: map<string, Window>, l: Line): Window {
    if l.faultId in table then table[l.faultId]
    else Window(l.faultId, l.kind, l.target, None, None, None)
  }

  predicate Agrees(w: Window, l: Line) {
    w.kind == l.kind && w.target == l.target
  }

  lemma ConsistentSnoc(lines: seq<Line>, l: Line)
    ensures Consistent(lines + [l]) <==> Consistent(lines) && forall k <- lines :: Compatible(k, l)
  {
    var all := lines + [l];
    if Consistent(all) {
      forall i, j | 0 <= i < j < |lines| ensures Compatible(lines[i], lines[j]) {
        assert Compatible(all[i], all[j]);
      }
      forall k <- lines ensures Compatible(k, l) {
        var i :| 0 <= i < |lines| && lines[i] == k;
        assert Compatible(all[i], all[|lines|]);
      }
    }
  }

  /** A line fits exactly when the window its fault already has agrees with it and lacks its phase. */
  lemma LineFits(table: map<string, Window>, lines: seq<Line>, l: Line)
    requires Groups(table, lines)
    ensures (forall k <- lines :: Compatible(k, l))
            <==> Agrees(Opened(table, l), l) && Slot(Opened(table, l), l.phase).None?
  {
    if l.faultId in table {
      var w := table[l.faultId];
      assert Describes(w, lines);
      if Slot(w, l.phase).Some? {
        var k :| k in lines && k.faultId == w.faultId && k.phase == l.phase;
        assert !Compatible(k, l);
      } else if !Agrees(w, l) {
        var k :| k in lines && k.faultId == w.faultId;
        assert !Compatible(k, l);
      }
    }
  }

  lemma DescribesFilled(w: Window, lines: seq<Line>, l: Line)
    requires w.faultId == l.faultId && Agrees(w, l) && Slot(w, l.phase).None?
    requires Describes(w, lines) || ((forall k <- lines :: k.faultId != w.faultId) && (forall p :: Slot(w, p).None?))
    ensures Describes(Fill(w, l.phase, l.at), lines + [l])
  {
    var v, all := Fill(w, l.phase, l.at), lines + [l];
    assert l in all;
    forall p | Slot(v, p).Some? ensures Journals(all, v.faultId, p) {
      if p == l.phase {
        assert l.faultId == v.faultId && l.phase == p;
      } else {
        assert Slot(w, p).Some?;
        var k :| k in lines && k.faultId == w.faultId && k.phase == p;
        assert k in all;
      }
    }
  }

  lemma DescribesOther(w: Window, lines: seq<Line>, l: Line)
    requires Describes(w, lines) && w.faultId != l.faultId
    ensures Describes(w, lines + [l])
  {
    var all := lines + [l];
    forall k | k in lines ensures k in all {
    }
    forall p | Slot(w, p).Some? ensures Journals(all, w.faultId, p) {
      var k :| k in lines && k.faultId == w.faultId && k.phase == p;
      assert k in all;
    }
  }

  lemma GroupsSnoc(table: map<string, Window>, lines: seq<Line>, l: Line)
    requires Groups(table, lines) && Agrees(Opened(table, l), l) && Slot(Opened(table, l), l.phase).None?
    ensures Groups(table[l.faultId := Fill(Opened(table, l), l.phase, l.at)], lines + [l])
  {
    DescribesFilled(Opened(table, l), lines, l);
    forall id <- table | id != l.faultId ensures Describes(table[id], lines + [l]) {
      DescribesOther(table[id], lines, l);
    }
  }

  // -------------------------------------------------------------------- order

  predicate Before(a: string, b: string) {
    b != "" && (a == "" || a[0] < b[0] || (a[0] == b[0] && Before(a[1..], b[1..])))
  }

  /** One id is a proper prefix of the other, or the first character in which they differ is smaller. */
  lemma {:induction false} BeforeIsLexicographic(a: string, b: string)
    ensures Before(a, b) <==> exists k :: DiffersAt(a, b, k)
  {
    if a == "" {
      assert b != "" ==> DiffersAt(a, b, 0);
    } else if b != "" && a[0] == b[0] {
      BeforeIsLexicographic(a[1..], b[1..]);
      forall k | DiffersAt(a[1..], b[1..], k) ensures DiffersAt(a, b, k + 1) {
        assert forall i | 0 <= i < k + 1 :: i > 0 ==> a[i] == a[1..][i - 1] && b[i] == b[1..][i - 1];
      }
      forall k | DiffersAt(a, b, k) ensures DiffersAt(a[1..], b[1..], k - 1) {
      }
    } else if b != "" {
      assert a[0] < b[0] ==> DiffersAt(a, b, 0);
    }
  }

  predicate DiffersAt(a: string, b: string, k: int) {
    && 0 <= k <= |a| && k < |b| && (forall i | 0 <= i < k :: a[i] == b[i])
    && (k == |a| || a[k] < b[k])
  }

  lemma {:induction false} BeforeTotal(a: string, b: string)
    ensures Before(a, b) || Before(b, a) || a == b
  {
    if a != "" && b != "" {
      BeforeTotal(a[1..], b[1..]);
      if a[0] == b[0] && a[1..] == b[1..] {
        assert a == [a[0]] + a[1..] && b == [b[0]] + b[1..];
      }
    }
  }

  lemma {:induction false} BeforeTransitive(a: string, b: string, c: string)
    requires Before(a, b) && Before(b, c)
    ensures Before(a, c)
  {
    if a != "" && a[0] == b[0] == c[0] {
      BeforeTransitive(a[1..], b[1..], c[1..]);
    }
  }

  lemma {:induction false} BeforeIrreflexive(a: string)
    ensures !Before(a, a)
  {
    if a != "" {
      BeforeIrreflexive(a[1..]);
    }
  }

  predicate Sorted(ws: seq<Window>) {
    forall i, j | 0 <= i < j < |ws| :: Before(ws[i].faultId, ws[j].faultId)
  }

  lemma {:induction false} LeastId(ids: set<string>)
    requires ids != {}
    ensures exists least <- ids :: IsLeast(ids, least)
    decreases |ids|
  {
    var some :| some in ids;
    var rest := ids - {some};
    assert ids == rest + {some};
    if rest == {} {
      assert IsLeast(ids, some);
    } else {
      LeastId(rest);
      var least :| least in rest && IsLeast(rest, least);
      LeastOfBoth(rest, least, some);
    }
  }

  predicate IsLeast(ids: set<string>, least: string) {
    forall id <- ids :: id == least || Before(least, id)
  }

  lemma LeastOfBoth(rest: set<string>, least: string, some: string)
    requires least in rest && IsLeast(rest, least)
    ensures IsLeast(rest + {some}, some) || IsLeast(rest + {some}, least)
  {
    BeforeTotal(some, least);
    if Before(some, least) {
      forall id <- rest + {some} ensures id == some || Before(some, id) {
        if id in rest && id != least {
          BeforeTransitive(some, least, id);
        }
      }
    }
  }

  lemma SortedHead(ws: seq<Window>, vs: seq<Window>)
    requires Sorted(ws) && Sorted(vs) && ws != [] && vs != []
    requires forall w: Window :: w in ws <==> w in vs
    ensures ws[0] == vs[0]
  {
    assert ws[0] in ws && vs[0] in vs;
    assert ws[0] in vs && vs[0] in ws;
    var i :| 0 <= i < |vs| && vs[i] == ws[0];
    var j :| 0 <= j < |ws| && ws[j] == vs[0];
    if i != 0 {
      assert Before(vs[0].faultId, ws[0].faultId);
      if j == 0 {
        assert ws[0] == vs[0];
      } else {
        assert Before(ws[0].faultId, vs[0].faultId);
        BeforeTransitive(vs[0].faultId, ws[0].faultId, vs[0].faultId);
        BeforeIrreflexive(vs[0].faultId);
      }
    }
  }

  lemma TailMembers(ws: seq<Window>, w: Window)
    requires Sorted(ws) && ws != []
    ensures w in ws[1..] <==> w in ws && w != ws[0]
  {
    assert ws == [ws[0]] + ws[1..];
    BeforeIrreflexive(ws[0].faultId);
    assert forall i | 0 < i < |ws| :: Before(ws[0].faultId, ws[i].faultId);
  }

  /** A sorted listing is determined by what it lists. */
  lemma {:induction false} SortedUnique(ws: seq<Window>, vs: seq<Window>)
    requires Sorted(ws) && Sorted(vs)
    requires forall w: Window :: w in ws <==> w in vs
    ensures ws == vs
  {
    assert vs != [] ==> vs[0] in vs;
    if ws != [] {
      assert ws[0] in vs;
      SortedHead(ws, vs);
      forall w: Window ensures w in ws[1..] <==> w in vs[1..] {
        TailMembers(ws, w);
        TailMembers(vs, w);
      }
      SortedUnique(ws[1..], vs[1..]);
      assert ws == [ws[0]] + ws[1..] && vs == [vs[0]] + vs[1..];
    }
  }

  // ------------------------------------------------------------------- parsing

  /** The table's windows in id order. */
  method IntoValues(table: map<string, Window>) returns (ws: seq<Window>)
    requires forall id <- table :: table[id].faultId == id
    ensures Sorted(ws)
    ensures forall w: Window :: w in ws <==> w.faultId in table && table[w.faultId] == w
  {
    ws := [];
    var left := table.Keys;
    while left != {}
      invariant left <= table.Keys
      invariant Sorted(ws)
      invariant forall w: Window :: w in ws <==> w.faultId in table && w.faultId !in left && table[w.faultId] == w
      invariant forall w <- ws, id <- left :: Before(w.faultId, id)
      decreases |left|
    {
      LeastId(left);
      var least :| least in left && IsLeast(left, least);
      forall i | 0 <= i < |ws| ensures Before(ws[i].faultId, least) {
        assert ws[i] in ws;
      }
      forall w <- ws, id <- left ensures Before(w.faultId, id) {
      }
      ws := ws + [table[least]];
      left := left - {least};
    }
  }

  predicate HasWindow(ws: seq<Window>, id: string) {
    exists w <- ws :: w.faultId == id
  }

  /** What a ledger must be: sorted, and exactly the windows the lines describe. */
  ghost predicate Assembles(ws: seq<Window>, lines: seq<Line>) {
    && Sorted(ws)
    && (forall w <- ws :: Describes(w, lines))
    && (forall l <- lines :: HasWindow(ws, l.faultId))
  }

  method ParseFaultLedger(lines: seq<Line>) returns (r: Result<seq<Window>, LedgerError>)
    ensures r.Ok? <==> Consistent(lines)
    ensures r.Ok? ==> Assembles(r.value, lines)
    ensures r.Err? ==>
              && 1 <= r.error.lineNo <= |lines|
              && Consistent(lines[..r.error.lineNo - 1])
              && !Consistent(lines[..r.error.lineNo])
              && r.error.faultId == lines[r.error.lineNo - 1].faultId
    ensures r.Err? ==>
              var bad := lines[r.error.lineNo - 1];
              var earlier := lines[..r.error.lineNo - 1];
              if r.error.InconsistentWindow?
              then && r.error.found == bad.kind + "/" + bad.target
                   && exists l <- earlier :: Clashes(l, bad) && r.error.known == l.kind + "/" + l.target
              else exists l <- earlier :: l.faultId == bad.faultId && l.phase == bad.phase == r.error.phase
  {
    var table: map<string, Window> := map[];
    for n := 0 to |lines|
      invariant Tabled(lines[..n]) == Some(table)
    {
      var line := lines[n];
      var window := Opened(table, line);
      TabledSnoc(lines, n);
      if !Agrees(window, line) {
        DisagreesAt(lines, n, table);
        var found, known := line.kind + "/" + line.target, window.kind + "/" + window.target;
        return Err(InconsistentWindow(n + 1, line.faultId, found, known));
      }
      if Slot(window, line.phase).Some? {
        RepeatsAt(lines, n, table);
        return Err(RepeatedPhase(n + 1, line.faultId, line.phase));
      }
      table := table[line.faultId := Fill(window, line.phase, line.at)];
    }
    assert lines[..|lines|] == lines;
    TabledIff(lines);
    var ws := IntoValues(table);
    TableAssembles(table, ws, lines);
    return Ok(ws);
  }

  /** The table the loop has built after these lines, or none once a line did not fit. */
  function Tabled(lines: seq<Line>): Option<map<string, Window>> {
    if lines == [] then Some(map[])
    else
      match Tabled(lines[..|lines| - 1])
      case None => None
      case Some(table) =>
        var l := lines[|lines| - 1];
        if Agrees(Opened(table, l), l) && Slot(Opened(table, l), l.phase).None?
        then Some(table[l.faultId := Fill(Opened(table, l), l.phase, l.at)]) else None
  }

  lemma TabledSnoc(lines: seq<Line>, n: nat)
    requires n < |lines|
    ensures lines[..n + 1][..n] == lines[..n] && lines[..n + 1][n] == lines[n]
  {
  }

  /** The loop goes through exactly on consistent lines, and then groups them. */
  lemma {:induction false} TabledIff(lines: seq<Line>)
    ensures Tabled(lines).Some? <==> Consistent(lines)
    ensures Tabled(lines).Some? ==> Groups(Tabled(lines).value, lines)
  {
    if lines != [] {
      var front, last := lines[..|lines| - 1], lines[|lines| - 1];
      assert lines == front + [last];
      TabledIff(front);
      ConsistentSnoc(front, last);
      if Tabled(front).Some? {
        var table := Tabled(front).value;
        LineFits(table, front, last);
        if Tabled(lines).Some? {
          GroupsSnoc(table, front, last);
        }
      }
    }
  }

  /** A line that does not fit is the first to break consistency. */
  lemma BreaksAt(lines: seq<Line>, n: nat, table: map<string, Window>)
    requires n < |lines| && Tabled(lines[..n]) == Some(table) && Tabled(lines[..n + 1]).None?
    ensures Consistent(lines[..n]) && !Consistent(lines[..n + 1]) && !Consistent(lines)
    ensures Groups(table, lines[..n])
  {
    TabledIff(lines[..n]);
    TabledIff(lines[..n + 1]);
    BadLine(lines, n);
  }

  lemma DisagreesAt(lines: seq<Line>, n: nat, table: map<string, Window>)
    requires n < |lines| && Tabled(lines[..n]) == Some(table) && !Agrees(Opened(table, lines[n]), lines[n])
    ensures Consistent(lines[..n]) && !Consistent(lines[..n + 1]) && !Consistent(lines)
    ensures exists l <- lines[..n] :: Clashes(l, lines[n]) && Agrees(Opened(table, lines[n]), l)
  {
    TabledSnoc(lines, n);
    BreaksAt(lines, n, table);
    Disagrees(table, lines[..n], lines[n]);
  }

  lemma RepeatsAt(lines: seq<Line>, n: nat, table: map<string, Window>)
    requires n < |lines| && Tabled(lines[..n]) == Some(table)
    requires Slot(Opened(table, lines[n]), lines[n].phase).Some?
    ensures Consistent(lines[..n]) && !Consistent(lines[..n + 1]) && !Consistent(lines)
    ensures exists l <- lines[..n] :: l.faultId == lines[n].faultId && l.phase == lines[n].phase
  {
    TabledSnoc(lines, n);
    BreaksAt(lines, n, table);
    Repeats(table, lines[..n], lines[n]);
  }

  lemma TableAssembles(table: map<string, Window>, ws: seq<Window>, lines: seq<Line>)
    requires Groups(table, lines) && Sorted(ws)
    requires forall w: Window :: w in ws <==> w.faultId in table && table[w.faultId] == w
    ensures Assembles(ws, lines)
  {
    forall w <- ws ensures Describes(w, lines) {
      assert Describes(table[w.faultId], lines);
    }
    forall l <- lines ensures HasWindow(ws, l.faultId) {
      assert table[l.faultId] in ws;
    }
  }

  /** Two lines of one fault that disagree on its kind or target. */
  predicate Clashes(a: Line, b: Line) {
    a.faultId == b.faultId && (a.kind != b.kind || a.target != b.target)
  }

  /** A line that breaks the prefix breaks the whole. */
  lemma BadLine(lines: seq<Line>, n: nat)
    requires n < |lines| && !Consistent(lines[..n + 1])
    ensures !Consistent(lines)
  {
    var i, j :| 0 <= i < j < n + 1 && !Compatible(lines[..n + 1][i], lines[..n + 1][j]);
    assert !Compatible(lines[i], lines[j]);
  }

  lemma Disagrees(table: map<string, Window>, lines: seq<Line>, line: Line)
    requires Groups(table, lines) && !Agrees(Opened(table, line), line)
    ensures exists l <- lines :: Clashes(l, line) && Agrees(Opened(table, line), l)
  {
    var w := table[line.faultId];
    assert Describes(w, lines);
    var l :| l in lines && l.faultId == w.faultId;
  }

  lemma Repeats(table: map<string, Window>, lines: seq<Line>, line: Line)
    requires Groups(table, lines) && Slot(Opened(table, line), line.phase).Some?
    ensures exists l <- lines :: l.faultId == line.faultId && l.phase == line.phase
  {
    var w := table[line.faultId];
    assert Describes(w, lines) && Journals(lines, w.faultId, line.phase);
  }

  /** There is only one ledger for a set of lines. */
  lemma AssemblesUnique(ws: seq<Window>, vs: seq<Window>, a: seq<Line>, b: seq<Line>)
    requires Assembles(ws, a) && Assembles(vs, b)
    requires forall l: Line :: l in a <==> l in b
    ensures ws == vs
  {
    AssemblesWithin(ws, vs, a, b);
    AssemblesWithin(vs, ws, b, a);
    SortedUnique(ws, vs);
  }

  lemma DescribesBySet(w: Window, a: seq<Line>, b: seq<Line>)
    requires Describes(w, a) && forall l: Line :: l in a <==> l in b
    ensures Describes(w, b)
  {
    var some :| some in a && some.faultId == w.faultId;
    assert some in b;
    forall p | Slot(w, p).Some? ensures Journals(b, w.faultId, p) {
      var l :| l in a && l.faultId == w.faultId && l.phase == p;
      assert l in b;
    }
  }

  lemma AssemblesOne(w: Window, vs: seq<Window>, b: seq<Line>)
    requires Describes(w, b) && Assembles(vs, b)
    ensures w in vs
  {
    var l :| l in b && l.faultId == w.faultId;
    var v :| v in vs && v.faultId == l.faultId;
    DescribesUnique(w, v, b);
  }

  lemma AssemblesWithin(ws: seq<Window>, vs: seq<Window>, a: seq<Line>, b: seq<Line>)
    requires Assembles(ws, a) && Assembles(vs, b)
    requires forall l: Line :: l in a <==> l in b
    ensures forall w <- ws :: w in vs
  {
    forall w <- ws ensures w in vs {
      DescribesBySet(w, a, b);
      AssemblesOne(w, vs, b);
    }
  }

  // -------------------------------------------------------- order independence

  lemma {:induction false} TwiceAt(lines: seq<Line>, l: Line) returns (i: nat, j: nat)
    requires multiset(lines)[l] >= 2
    ensures i < j < |lines| && lines[i] == l == lines[j]
  {
    var front, last := lines[..|lines| - 1], lines[|lines| - 1];
    assert lines == front + [last];
    if last == l {
      assert multiset(front)[l] >= 1;
      assert l in front;
      i :| 0 <= i < |front| && front[i] == l;
      j := |lines| - 1;
    } else {
      i, j := TwiceAt(front, l);
    }
  }

  lemma TwiceIn(lines: seq<Line>, i: nat, j: nat)
    requires i < j < |lines| && lines[i] == lines[j]
    ensures multiset(lines)[lines[i]] >= 2
  {
    var head, tail := lines[..j], lines[j..];
    assert lines == head + tail;
    assert head[i] == lines[i] && tail[0] == lines[i];
    assert lines[i] in head && lines[i] in tail;
    assert multiset(head)[lines[i]] >= 1 && multiset(tail)[lines[i]] >= 1;
  }

  lemma ConsistentCarries(a: seq<Line>, b: seq<Line>)
    requires multiset(a) == multiset(b) && Consistent(a)
    ensures Consistent(b)
  {
    forall i, j | 0 <= i < j < |b| ensures Compatible(b[i], b[j]) {
      if b[i] == b[j] {
        TwiceIn(b, i, j);
        var p, q := TwiceAt(a, b[i]);
      } else {
        assert b[i] in multiset(b) && b[j] in multiset(b);
        assert b[i] in a && b[j] in a;
        var p :| 0 <= p < |a| && a[p] == b[i];
        var q :| 0 <= q < |a| && a[q] == b[j];
        if p < q {
          assert Compatible(a[p], a[q]);
        } else {
          assert Compatible(a[q], a[p]);
        }
      }
    }
  }

  /** Neither success nor the ledger depends on the order of the lines. */
  lemma OrderIndependent(a: seq<Line>, b: seq<Line>)
    requires multiset(a) == multiset(b)
    ensures Consistent(a) <==> Consistent(b)
    ensures forall ws, vs :: Assembles(ws, a) && Assembles(vs, b) ==> ws == vs
  {
    if Consistent(a) { ConsistentCarries(a, b); }
    if Consistent(b) { ConsistentCarries(b, a); }
    forall l: Line ensures l in a <==> l in b {
      assert l in multiset(a) <==> l in multiset(b);
    }
    forall ws, vs | Assembles(ws, a) && Assembles(vs, b) ensures ws == vs {
      AssemblesUnique(ws, vs, a, b);
    }
  }

  // ------------------------------------------------------------------- queries

  const U64_MAX: nat := 0xFFFF_FFFF_FFFF_FFFF

  datatype AlibiTolerance = AlibiTolerance(startSlack: nat, endSlack: nat)

  function SaturatingAdd(a: nat, b: nat): nat {
    if a + b <= U64_MAX then a + b else U64_MAX
  }

  predicate Covers(w: Window, from: nat, until: nat, t: AlibiTolerance) {
    match w.startedAt
    case None => false
    case Some(started) =>
      if started > SaturatingAdd(from, t.startSlack) then false
      else
        match w.endedAt
        case None => true
        case Some(ended) => SaturatingAdd(ended, t.endSlack) >= until
  }

  /** On 64-bit times the alibi is containment in exact arithmetic: saturation never grants or denies one. */
  lemma CoversExact(w: Window, from: nat, until: nat, t: AlibiTolerance)
    requires until <= U64_MAX && (w.startedAt.Some? ==> w.startedAt.value <= U64_MAX)
    ensures Covers(w, from, until, t) <==>
            && w.startedAt.Some? && w.startedAt.value <= from + t.startSlack
            && (w.endedAt.Some? ==> until <= w.endedAt.value + t.endSlack)
  {
  }

  /** The part of a node id before its first '/'. */
  function NodeHost(id: string): string {
    if id == "" || id[0] == '/' then "" else [id[0]] + NodeHost(id[1..])
  }

  predicate IsTerminal(w: Window) {
    w.kind in {"node_kill", "membership_leave", "flight_kill_mid_stream"}
  }

  function WindowsTargeting(ws: seq<Window>, node: string): seq<Window> {
    if ws == [] then []
    else if NodeHost(ws[0].target) == NodeHost(node) then [ws[0]] + WindowsTargeting(ws[1..], node)
    else WindowsTargeting(ws[1..], node)
  }

  function Earliest(ws: seq<Window>): Option<nat> {
    if ws == [] then None
    else
      var rest := Earliest(ws[1..]);
      if !IsTerminal(ws[0]) || ws[0].startedAt.None? then rest
      else if rest.None? || ws[0].startedAt.value <= rest.value then ws[0].startedAt
      else rest
  }

  function TerminalHorizon(ws: seq<Window>, node: string): Option<nat> {
    Earliest(WindowsTargeting(ws, node))
  }

  /** A bare roster name and any rendered incarnation of it name the same host. */
  lemma {:induction false} HostOfRendered(name: string, incarnation: string)
    requires '/' !in name
    ensures NodeHost(name + "/" + incarnation) == name && NodeHost(name) == name
  {
    if name != "" {
      assert name[0] in name;
      assert (name + "/" + incarnation)[1..] == name[1..] + "/" + incarnation;
      HostOfRendered(name[1..], incarnation);
    }
  }

  lemma {:induction false} TargetingMembers(ws: seq<Window>, node: string)
    ensures forall w: Window ::
              w in WindowsTargeting(ws, node) <==> w in ws && NodeHost(w.target) == NodeHost(node)
  {
    if ws != [] {
      TargetingMembers(ws[1..], node);
      assert ws == [ws[0]] + ws[1..];
    }
  }

  /** A terminal fault of this node that really started. */
  predicate Fells(w: Window, node: string) {
    && (w.kind == "node_kill" || w.kind == "membership_leave" || w.kind == "flight_kill_mid_stream")
    && w.startedAt.Some? && NodeHost(w.target) == NodeHost(node)
  }

  lemma {:induction false} EarliestIsLeast(ws: seq<Window>)
    ensures Earliest(ws).None? <==> forall w <- ws :: !(IsTerminal(w) && w.startedAt.Some?)
    ensures Earliest(ws).Some? ==>
              && (exists w <- ws :: IsTerminal(w) && w.startedAt == Earliest(ws))
              && (forall w <- ws :: IsTerminal(w) && w.startedAt.Some? ==> Earliest(ws).value <= w.startedAt.value)
  {
    if ws != [] {
      EarliestIsLeast(ws[1..]);
      assert ws == [ws[0]] + ws[1..];
    }
  }

  /** The horizon is the first instant a terminal fault felled the node, and absent exactly when none did. */
  lemma HorizonIsFirstFelling(ws: seq<Window>, node: string)
    ensures TerminalHorizon(ws, node).None? <==> forall w <- ws :: !Fells(w, node)
    ensures TerminalHorizon(ws, node).Some? ==>
              && (exists w <- ws :: Fells(w, node) && w.startedAt == TerminalHorizon(ws, node))
              && (forall w <- ws :: Fells(w, node) ==> TerminalHorizon(ws, node).value <= w.startedAt.value)
  {
    TargetingMembers(ws, node);
    EarliestIsLeast(WindowsTargeting(ws, node));
  }
}
