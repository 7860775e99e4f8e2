/**
 The in-memory network double: per-node mailboxes, one-directional blackholes,
 and the fault counts a run is judged by.
 */
module Network {
  import opened Options

  type NodeId = string
  type Bytes = seq<int>

  datatype Message = Message(from: NodeId, payload: Bytes)
  datatype FaultCount = FaultCount(armed: nat, fired: nat)
  datatype TransportError = UnknownPeer(peer: NodeId) | Closed

  /** What became of a send. */
  datatype Fate = Queued | Lost | Refused

  datatype Event =
    | Attached(node: NodeId)
    | Blackholed(from: NodeId, to: NodeId)
    | Healed(from: NodeId, to: NodeId)
    | Sent(from: NodeId, to: NodeId, payload: Bytes, fate: Fate)
    | Received(to: NodeId, from: NodeId, payload: Bytes)

  function Front(log: seq<Event>): seq<Event>
    requires log != []
  {
    log[..|log| - 1]
  }

  function Last(log: seq<Event>): Event
    requires log != []
  {
    log[|log| - 1]
  }

  // ------------------------------------------------------------------ history

  predicate Known(log: seq<Event>, node: NodeId) {
    Attached(node) in log
  }

  /** The latest of the link's blackhole and heal events is a blackhole. */
  predicate Dark(log: seq<Event>, from: NodeId, to: NodeId) {
    if log == [] then false
    else if Last(log) == Blackholed(from, to) then true
    else if Last(log) == Healed(from, to) then false
    else Dark(Front(log), from, to)
  }

  function FateOf(log: seq<Event>, from: NodeId, to: NodeId): Fate {
    if Dark(log, from, to) then Lost else if Known(log, to) then Queued else Refused
  }

  /** What waits for a node: everything queued to it, less one message per receive. */
  function Mailbox(log: seq<Event>, node: NodeId): seq<Message> {
    if log == [] then []
    else
      var rest := Mailbox(Front(log), node);
      match Last(log)
      case Sent(from, to, payload, fate) =>
        if to == node && fate.Queued? then rest + [Message(from, payload)] else rest
      case Received(to, _, _) =>
        if to == node && rest != [] then rest[1..] else rest
      case _ => rest
  }

  /** The fate of each send and the message of each receive are the ones the history allows. */
  predicate Genuine(log: seq<Event>) {
    log == [] ||
    (&& Genuine(Front(log))
     && match Last(log)
        case Sent(from, to, _, fate) => fate == FateOf(Front(log), from, to)
        case Received(to, from, payload) =>
          var box := Mailbox(Front(log), to);
          box != [] && box[0] == Message(from, payload)
        case _ => true)
  }

  // -------------------------------------------------------- one link's traffic

  /** Payloads sent on the link while it was not blackholed, to an attached peer, in order. */
  function Accepted(log: seq<Event>, from: NodeId, to: NodeId): seq<Bytes> {
    if log == [] then []
    else
      var rest, e := Accepted(Front(log), from, to), Last(log);
      if e.Sent? && e.from == from && e.to == to && e.fate.Queued? then rest + [e.payload] else rest
  }

  function Delivered(log: seq<Event>, from: NodeId, to: NodeId): seq<Bytes> {
    if log == [] then []
    else
      var rest, e := Delivered(Front(log), from, to), Last(log);
      if e.Received? && e.from == from && e.to == to then rest + [e.payload] else rest
  }

  function FromOnly(box: seq<Message>, from: NodeId): seq<Bytes> {
    if box == [] then []
    else (if box[0].from == from then [box[0].payload] else []) + FromOnly(box[1..], from)
  }

  lemma {:induction false} FromOnlySnoc(box: seq<Message>, m: Message, from: NodeId)
    ensures FromOnly(box + [m], from) == FromOnly(box, from) + if m.from == from then [m.payload] else []
  {
    if box == [] {
      assert box + [m] == [m];
    } else {
      assert (box + [m])[1..] == box[1..] + [m];
      FromOnlySnoc(box[1..], m, from);
    }
  }

  /**
   FIFO without loss, duplication or reordering: what the link accepted is what was
   delivered from it followed by what still waits.
   */
  lemma {:induction false} LinkIsFifo(log: seq<Event>, from: NodeId, to: NodeId)
    requires Genuine(log)
    ensures Accepted(log, from, to) == Delivered(log, from, to) + FromOnly(Mailbox(log, to), from)
  {
    if log != [] {
      LinkIsFifo(Front(log), from, to);
      var e, box := Last(log), Mailbox(Front(log), to);
      if e.Sent? {
        FromOnlySnoc(box, Message(e.from, e.payload), from);
      } else if e.Received? && e.to == to {
        assert FromOnly(box, from) == (if e.from == from then [e.payload] else []) + FromOnly(box[1..], from);
      }
    }
  }

  function SendsTo(log: seq<Event>, from: NodeId, to: NodeId): nat {
    if log == [] then 0
    else
      var e := Last(log);
      SendsTo(Front(log), from, to) + if e.Sent? && e.from == from && e.to == to then 1 else 0
  }

  function FatesOn(log: seq<Event>, from: NodeId, to: NodeId, fate: Fate): nat {
    if log == [] then 0
    else
      var e := Last(log);
      FatesOn(Front(log), from, to, fate)
      + if e.Sent? && e.from == from && e.to == to && e.fate == fate then 1 else 0
  }

  lemma {:induction false} FatesPartition(log: seq<Event>, from: NodeId, to: NodeId)
    ensures SendsTo(log, from, to)
            == |Accepted(log, from, to)| + FatesOn(log, from, to, Lost) + FatesOn(log, from, to, Refused)
  {
    if log != [] {
      FatesPartition(Front(log), from, to);
    }
  }

  /** Every send on a link is received, still queued, dropped by the blackhole, or refused as unknown. */
  lemma SendsConserved(log: seq<Event>, from: NodeId, to: NodeId)
    requires Genuine(log)
    ensures SendsTo(log, from, to)
            == |Delivered(log, from, to)| + |FromOnly(Mailbox(log, to), from)|
               + FatesOn(log, from, to, Lost) + FatesOn(log, from, to, Refused)
  {
    FatesPartition(log, from, to);
    LinkIsFifo(log, from, to);
  }

  /** A peer attached before the run's first send is never refused. */
  lemma {:induction false} KnownPeersNotRefused(before: seq<Event>, log: seq<Event>, from: NodeId, to: NodeId)
    requires Genuine(before + log) && Known(before, to) && FatesOn(before, from, to, Refused) == 0
    ensures FatesOn(before + log, from, to, Refused) == 0
    decreases |log|
  {
    if log == [] {
      assert before + log == before;
    } else {
      assert Front(before + log) == before + Front(log);
      KnownPeersNotRefused(before, Front(log), from, to);
    }
  }

  // ------------------------------------------------------------ fault accounts

  function FaultId(from: NodeId, to: NodeId): string {
    "net:blackhole:" + from + "->" + to
  }

  /** The longer sender id swallows the arrow and the beginning of the shorter one's peer. */
  ghost predicate Swallows(f: NodeId, t: NodeId, f2: NodeId, t2: NodeId) {
    exists x: NodeId :: f2 == f + "->" + x && t == x + "->" + t2
  }

  /** Two links share a fault id exactly when they are one link, or one sender id swallows the other's arrow. */
  lemma FaultIdsCollideExactlyWhen(f: NodeId, t: NodeId, f2: NodeId, t2: NodeId)
    ensures FaultId(f, t) == FaultId(f2, t2) <==>
            (f == f2 && t == t2) || Swallows(f, t, f2, t2) || Swallows(f2, t2, f, t)
  {
    StripHead(f, t);
    StripHead(f2, t2);
    if FaultId(f, t) == FaultId(f2, t2) {
      ArrowSplits(f, t, f2, t2);
      ArrowSplits(f2, t2, f, t);
    }
    if Swallows(f, t, f2, t2) {
      SwallowedIsEqual(f, t, f2, t2);
    }
    if Swallows(f2, t2, f, t) {
      SwallowedIsEqual(f2, t2, f, t);
    }
  }

  lemma StripHead(f: NodeId, t: NodeId)
    ensures FaultId(f, t)[|"net:blackhole:"|..] == f + "->" + t
    ensures FaultId(f, t) == "net:blackhole:" + (f + "->" + t)
  {
  }

  lemma SwallowedIsEqual(f: NodeId, t: NodeId, f2: NodeId, t2: NodeId)
    requires Swallows(f, t, f2, t2)
    ensures f + "->" + t == f2 + "->" + t2
  {
    var x: NodeId :| f2 == f + "->" + x && t == x + "->" + t2;
    assert f + "->" + (x + "->" + t2) == (f + "->" + x) + "->" + t2;
  }

  lemma ArrowSplits(f: NodeId, t: NodeId, f2: NodeId, t2: NodeId)
    requires f + "->" + t == f2 + "->" + t2
    ensures |f| < |f2| ==> Swallows(f, t, f2, t2)
    ensures |f| == |f2| ==> f == f2 && t == t2
  {
    var s := f + "->" + t;
    assert s[|f|] == '-' && s[|f| + 1] == '>';
    assert s[|f2|] == '-' && forall i | 0 <= i < |f2| :: s[i] == f2[i];
    if |f| < |f2| {
      var x := f2[|f| + 2..];
      assert f2 == f + "->" + x;
      assert s[|f| + 2..] == t;
      assert (f2 + "->" + t2)[|f| + 2..] == x + "->" + t2;
    } else if |f| == |f2| {
      assert f == s[..|f|] == f2;
      assert t == s[|f| + 2..] == t2;
    }
  }

  /** So two links can share one account. */
  lemma FaultIdCollides()
    ensures FaultId("a->b", "c") == "net:blackhole:a->b->c" == FaultId("a", "b->c")
  {
  }

  /** The id holds no "->" of its own. */
  predicate Plain(id: NodeId) {
    forall i | 0 <= i < |id| - 1 :: id[i] == '-' ==> id[i + 1] != '>'
  }

  lemma PlainSwallowsNothing(f: NodeId, t: NodeId, f2: NodeId, t2: NodeId)
    requires Plain(f2)
    ensures !Swallows(f, t, f2, t2)
  {
    forall x: NodeId ensures !Plain(f + "->" + x) {
      var s := f + "->" + x;
      assert s[|f|] == '-' && s[|f| + 1] == '>';
    }
  }

  /** In particular, links are told apart by their fault ids when the sender ids are plain. */
  lemma FaultIdInjective(f: NodeId, t: NodeId, f2: NodeId, t2: NodeId)
    requires Plain(f) && Plain(f2) && FaultId(f, t) == FaultId(f2, t2)
    ensures f == f2 && t == t2
  {
    FaultIdsCollideExactlyWhen(f, t, f2, t2);
    PlainSwallowsNothing(f, t, f2, t2);
    PlainSwallowsNothing(f2, t2, f, t);
  }

  /** All events accounted under one fault id. */
  function Tally(log: seq<Event>, id: string): FaultCount {
    if log == [] then FaultCount(0, 0)
    else
      var t, e := Tally(Front(log), id), Last(log);
      if e.Blackholed? && FaultId(e.from, e.to) == id then t.(armed := t.armed + 1)
      else if e.Sent? && e.fate.Lost? && FaultId(e.from, e.to) == id then t.(fired := t.fired + 1)
      else t
  }

  function Armings(log: seq<Event>, from: NodeId, to: NodeId): nat {
    if log == [] then 0
    else Armings(Front(log), from, to) + if Last(log) == Blackholed(from, to) then 1 else 0
  }

  /** An event the ledger counts: an arming or a drop. */
  predicate Counted(e: Event) {
    e.Blackholed? || (e.Sent? && e.fate.Lost?)
  }

  predicate SharesAccount(e: Event, from: NodeId, to: NodeId) {
    Counted(e) && FaultId(e.from, e.to) == FaultId(from, to) && !(e.from == from && e.to == to)
  }

  /** No other link with this link's fault id was ever armed or dropped anything. */
  predicate SoleAccount(log: seq<Event>, from: NodeId, to: NodeId) {
    forall e <- log :: !SharesAccount(e, from, to)
  }

  lemma {:induction false} AccountHoldsOwn(log: seq<Event>, from: NodeId, to: NodeId)
    ensures var t := Tally(log, FaultId(from, to));
            t.armed >= Armings(log, from, to) && t.fired >= FatesOn(log, from, to, Lost)
  {
    if log != [] {
      AccountHoldsOwn(Front(log), from, to);
    }
  }

  /** The account of a link's fault id is that link's armings and drops, exactly when no other link shares it. */
  lemma {:induction false} FiredEqualsDrops(log: seq<Event>, from: NodeId, to: NodeId)
    ensures Tally(log, FaultId(from, to)) == FaultCount(Armings(log, from, to), FatesOn(log, from, to, Lost))
            <==> SoleAccount(log, from, to)
  {
    if log != [] {
      FiredEqualsDrops(Front(log), from, to);
      AccountHoldsOwn(Front(log), from, to);
      SoleAccountSnoc(Front(log), Last(log), from, to);
      assert log == Front(log) + [Last(log)];
    }
  }

  lemma SoleAccountSnoc(log: seq<Event>, e: Event, from: NodeId, to: NodeId)
    ensures SoleAccount(log + [e], from, to) <==> SoleAccount(log, from, to) && !SharesAccount(e, from, to)
  {
    assert forall k <- log :: k in log + [e];
    assert e in log + [e];
  }

  lemma {:induction false} DarkWasArmed(log: seq<Event>, from: NodeId, to: NodeId)
    requires Dark(log, from, to)
    ensures Armings(log, from, to) > 0
  {
    if Last(log) != Blackholed(from, to) {
      DarkWasArmed(Front(log), from, to);
    }
  }

  /** A link that never was armed drops nothing. */
  lemma {:induction false} DropsNeedArming(log: seq<Event>, from: NodeId, to: NodeId)
    requires Genuine(log) && FatesOn(log, from, to, Lost) > 0
    ensures Armings(log, from, to) > 0
  {
    var e := Last(log);
    if e.Sent? && e.from == from && e.to == to && e.fate == Lost {
      DarkWasArmed(Front(log), from, to);
    } else {
      DropsNeedArming(Front(log), from, to);
    }
  }

  // ------------------------------------------------------------------- network

  /** Everything the network keeps: mailboxes, link faults and the fault accounts. */
  datatype Net = Net(mailboxes: map<NodeId, seq<Message>>, links: map<(NodeId, NodeId), bool>,
                     ledger: map<string, FaultCount>)

  function CountOf(ledger: map<string, FaultCount>, id: string): FaultCount {
    if id in ledger then ledger[id] else FaultCount(0, 0)
  }

  predicate Drops(links: map<(NodeId, NodeId), bool>, from: NodeId, to: NodeId) {
    (from, to) in links && links[(from, to)]
  }

  function Armed(ledger: map<string, FaultCount>, id: string): map<string, FaultCount> {
    ledger[id := CountOf(ledger, id).(armed := CountOf(ledger, id).armed + 1)]
  }

  function Fired(ledger: map<string, FaultCount>, id: string): map<string, FaultCount> {
    ledger[id := CountOf(ledger, id).(fired := CountOf(ledger, id).fired + 1)]
  }

  function Apply(n: Net, e: Event): Net {
    match e
    case Attached(node) =>
      if node in n.mailboxes then n else n.(mailboxes := n.mailboxes[node := []])
    case Blackholed(from, to) =>
      n.(ledger := Armed(n.ledger, FaultId(from, to)), links := n.links[(from, to) := true])
    case Healed(from, to) =>
      if (from, to) in n.links then n.(links := n.links[(from, to) := false]) else n
    case Sent(from, to, payload, _) =>
      if Drops(n.links, from, to) then n.(ledger := Fired(n.ledger, FaultId(from, to)))
      else if to in n.mailboxes then n.(mailboxes := n.mailboxes[to := n.mailboxes[to] + [Message(from, payload)]])
      else n
    case Received(to, _, _) =>
      if to in n.mailboxes && n.mailboxes[to] != [] then n.(mailboxes := n.mailboxes[to := n.mailboxes[to][1..]]) else n
  }

  function Replay(log: seq<Event>): Net {
    if log == [] then Net(map[], map[], map[]) else Apply(Replay(Front(log)), Last(log))
  }

  /** A link is marked dark exactly when the history left it dark. */
  lemma {:induction false} ReplayLinks(log: seq<Event>, from: NodeId, to: NodeId)
    ensures Drops(Replay(log).links, from, to) <==> Dark(log, from, to)
  {
    if log != [] {
      ReplayLinks(Front(log), from, to);
    }
  }

  lemma {:induction false} ReplayKnown(log: seq<Event>, node: NodeId)
    ensures node in Replay(log).mailboxes <==> Known(log, node)
  {
    if log != [] {
      ReplayKnown(Front(log), node);
      assert log == Front(log) + [Last(log)];
    }
  }

  /** The mailbox holds exactly what the history left waiting. */
  lemma {:induction false} ReplayMailbox(log: seq<Event>, node: NodeId)
    requires Genuine(log)
    ensures Mailbox(log, node) == if node in Replay(log).mailboxes then Replay(log).mailboxes[node] else []
  {
    if log != [] {
      var front, e := Front(log), Last(log);
      ReplayMailbox(front, node);
      if e.Sent? {
        ReplayLinks(front, e.from, e.to);
        ReplayKnown(front, e.to);
      }
    }
  }

  /** The ledger's account of a fault id is the history's. */
  lemma {:induction false} ReplayLedger(log: seq<Event>, id: string)
    requires Genuine(log)
    ensures CountOf(Replay(log).ledger, id) == Tally(log, id)
  {
    if log != [] {
      var front, e := Front(log), Last(log);
      ReplayLedger(front, id);
      if e.Sent? {
        ReplayLinks(front, e.from, e.to);
      }
    }
  }

  lemma Snoc(log: seq<Event>, e: Event)
    ensures Front(log + [e]) == log && Last(log + [e]) == e
  {
  }

  class InMemNetwork {
    var mailboxes: map<NodeId, seq<Message>>
    var links: map<(NodeId, NodeId), bool>
    var ledger: map<string, FaultCount>
    ghost var log: seq<Event>

    ghost function View(): Net reads this {
      Net(mailboxes, links, ledger)
    }

    /** The state is what the whole history of calls makes it. */
    ghost predicate Valid() reads this {
      Genuine(log) && View() == Replay(log)
    }

    constructor ()
      ensures Valid() && log == []
    {
      mailboxes, links, ledger, log := map[], map[], map[], [];
    }

    /** Reattaching keeps whatever waits in the mailbox. */
    method Endpoint(node: NodeId)
      requires Valid()
      modifies this
      ensures Valid() && log == old(log) + [Attached(node)]
    {
      Snoc(log, Attached(node));
      log := log + [Attached(node)];
      if node !in mailboxes {
        mailboxes := mailboxes[node := []];
      }
    }

    method Blackhole(from: NodeId, to: NodeId)
      requires Valid()
      modifies this
      ensures Valid() && log == old(log) + [Blackholed(from, to)]
    {
      Snoc(log, Blackholed(from, to));
      log := log + [Blackholed(from, to)];
      ledger := Armed(ledger, FaultId(from, to));
      links := links[(from, to) := true];
    }

    method Heal(from: NodeId, to: NodeId)
      requires Valid()
      modifies this
      ensures Valid() && log == old(log) + [Healed(from, to)]
    {
      Snoc(log, Healed(from, to));
      log := log + [Healed(from, to)];
      if (from, to) in links {
        links := links[(from, to) := false];
      }
    }

    /** A dropped send still reports success; only an unattached peer is an error. */
    method Send(from: NodeId, to: NodeId, payload: Bytes) returns (r: Result<(), TransportError>)
      requires Valid()
      modifies this
      ensures Valid() && log == old(log) + [Sent(from, to, payload, FateOf(old(log), from, to))]
      ensures r == if FateOf(old(log), from, to).Refused? then Err(UnknownPeer(to)) else Ok(())
    {
      ghost var e := Sent(from, to, payload, FateOf(log, from, to));
      ReplayLinks(log, from, to);
      ReplayKnown(log, to);
      Snoc(log, e);
      log := log + [e];
      if Drops(links, from, to) {
        ledger := Fired(ledger, FaultId(from, to));
        r := Ok(());
      } else if to in mailboxes {
        mailboxes := mailboxes[to := mailboxes[to] + [Message(from, payload)]];
        r := Ok(());
      } else {
        r := Err(UnknownPeer(to));
      }
    }

    /** One poll of a receive: the oldest waiting message, `None` while there is none. */
    method PollReceive(node: NodeId) returns (r: Result<Option<Message>, TransportError>)
      requires Valid()
      modifies this
      ensures Valid()
      ensures r.Err? <==> !Known(old(log), node)
      ensures r.Err? ==> r.error == Closed && log == old(log)
      ensures r.Ok? && r.value.None? ==> Mailbox(old(log), node) == [] && log == old(log)
      ensures r.Ok? && r.value.Some? ==>
                && Mailbox(old(log), node) != [] && Mailbox(old(log), node)[0] == r.value.value
                && log == old(log) + [Received(node, r.value.value.from, r.value.value.payload)]
    {
      ReplayKnown(log, node);
      ReplayMailbox(log, node);
      if node !in mailboxes {
        return Err(Closed);
      }
      if mailboxes[node] == [] {
        return Ok(None);
      }
      var m := mailboxes[node][0];
      Snoc(log, Received(node, m.from, m.payload));
      log := log + [Received(node, m.from, m.payload)];
      mailboxes := mailboxes[node := mailboxes[node][1..]];
      return Ok(Some(m));
    }

    /** A link's account holds its armings and exactly the messages it dropped, unless another link shares it. */
    method LinkCount(from: NodeId, to: NodeId) returns (c: FaultCount)
      requires Valid()
      ensures c == FaultCount(Armings(log, from, to), FatesOn(log, from, to, Lost)) <==> SoleAccount(log, from, to)
      ensures c.armed >= Armings(log, from, to) && c.fired >= FatesOn(log, from, to, Lost)
    {
      ReplayLedger(log, FaultId(from, to));
      FiredEqualsDrops(log, from, to);
      AccountHoldsOwn(log, from, to);
      c := CountOf(ledger, FaultId(from, to));
    }
  }
}
