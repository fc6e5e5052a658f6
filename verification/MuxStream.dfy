/**
  The two ends of one output stream of a mux: the process that sends what its user writes,
  allowed by tickets, and the process that hands to the peer's user what the demultiplexer
  buffered, granting the right to send half a buffer for each half consumed.
 */
module MuxStream {

  datatype Option<+T> = None | Some(value: T)

  /** What a user writes: `writable` tells whether the message can be put on the wire at all. */
  datatype Item = Item(v: int, writable: bool)

  /** What a user reads; Blank is the empty message that marks an end on the wire. */
  datatype Val = Val(v: int) | Blank

  /** A message on the wire, but for its tag: data or end, perhaps the first of the tag, or a grant. */
  datatype Kind = Data(x: Val, first: bool) | Fin(first: bool) | Grant

  predicate IsFirst(k: Kind)
  {
    !k.Grant? && k.first
  }

  function Payload(k: Kind): Val
  {
    if k.Data? then k.x else Blank
  }

  // ----- the sender -----

  datatype Where = Starting | Ready | Holding(d: Item) | Ended

  /**
    The channel of the user and whether it was closed, where the process is, the messages it
    may still send, the tickets waiting for it, and whether the first message is still to be
    sent. The rest is history: what the user asked to send, what went on the wire, how many
    messages were discarded, the tickets taken.
   */
  datatype Sender = Sender(
    queue: seq<Item>, closed: bool, at: Where, nmsgs: nat, tickets: nat, first: bool,
    asked: seq<Item>, sent: seq<Val>, discards: nat, taken: nat)

  const NEW_SENDER := Sender([], false, Starting, 0, 2, true, [], [], 0, 0)

  /** The user writes a message. */
  function Ask(x: Sender, d: Item): Sender
  {
    x.(queue := x.queue + [d], asked := x.asked + [d])
  }

  /** What can be put on the wire of some messages. */
  function Writables(ds: seq<Item>): seq<Val>
  {
    if ds == [] then []
    else Writables(ds[..|ds| - 1]) + if ds[|ds| - 1].writable then [Val(ds[|ds| - 1].v)] else []
  }

  /** The message taken from the user that is not written yet. */
  function Held(x: Sender): seq<Item>
  {
    if x.at.Holding? then [x.at.d] else []
  }

  /** Nothing the user wrote is lost, made up or moved: it is sent, discarded, held, or still in the channel. */
  predicate AskedOk(x: Sender)
  {
    && Writables(x.asked) == x.sent + Writables(Held(x) + x.queue)
    && |x.asked| == |x.sent| + x.discards + |Held(x) + x.queue|
    && (x.at == Ended ==> x.closed && x.queue == [])
  }

  lemma {:induction false} WritablesAppend(a: seq<Item>, b: seq<Item>)
    ensures Writables(a + b) == Writables(a) + Writables(b)
    decreases |b|
  {
    if b == [] {
      assert a + b == a;
    } else {
      assert (a + b)[..|a + b| - 1] == a + b[..|b| - 1];
      WritablesAppend(a, b[..|b| - 1]);
    }
  }

  lemma WritablesOne(d: Item)
    ensures Writables([d]) == if d.writable then [Val(d.v)] else []
  {
    assert [d][..0] == [];
  }

  /** The process takes a ticket before it starts, and when it holds a message but may not send it. */
  predicate NeedsTicket(x: Sender)
  {
    x.at == Starting || (x.at.Holding? && x.nmsgs == 0)
  }

  function TakeTicket(h: nat, x: Sender): Option<Sender>
  {
    if NeedsTicket(x) && x.tickets > 0 then
      Some(x.(at := if x.at == Starting then Ready else x.at,
              nmsgs := x.nmsgs + h, tickets := x.tickets - 1, taken := x.taken + 1))
    else None
  }

  function TakeMessage(x: Sender): Option<Sender>
  {
    if x.at == Ready && x.queue != [] then Some(x.(at := Holding(x.queue[0]), queue := x.queue[1..])) else None
  }

  /** Write the message held; one that is not writable is dropped, but it has used its turn. */
  function WriteMessage(x: Sender): Option<(Sender, seq<Kind>)>
  {
    if !x.at.Holding? || x.nmsgs == 0 then None
    else if x.at.d.writable then
      var v := Val(x.at.d.v);
      Some((x.(at := Ready, nmsgs := x.nmsgs - 1, first := false, sent := x.sent + [v]), [Data(v, x.first)]))
    else
      Some((x.(at := Ready, nmsgs := x.nmsgs - 1, discards := x.discards + 1), []))
  }

  function WriteEnd(x: Sender): Option<(Sender, seq<Kind>)>
  {
    if x.at == Ready && x.queue == [] && x.closed then Some((x.(at := Ended), [Fin(x.first)])) else None
  }

  // ----- the receiver -----

  /**
    The channel filled by the demultiplexer, whether it is closed, the message on its way to
    the user, the messages posted since the last grant; then what the user got, whether the
    user saw the end, and the grants sent.
   */
  datatype Receiver = Receiver(
    buf: seq<Val>, closed: bool, hand: Option<Val>, nposts: nat, got: seq<Val>, ended: bool, grants: nat)

  function NewReceiver(x: Val): Receiver
  {
    Receiver([x], false, None, 0, [], false, 0)
  }

  function Pick(h: nat, r: Receiver): Option<Receiver>
  {
    if r.hand.None? && r.buf != [] && r.nposts < h then Some(r.(hand := Some(r.buf[0]), buf := r.buf[1..])) else None
  }

  function Post(r: Receiver): Option<Receiver>
  {
    if r.hand.Some? then Some(r.(hand := None, got := r.got + [r.hand.value], nposts := r.nposts + 1)) else None
  }

  function GiveGrant(h: nat, r: Receiver): Option<Receiver>
  {
    if r.nposts == h && r.hand.None? then Some(r.(nposts := 0, grants := r.grants + 1)) else None
  }

  function SeeEnd(h: nat, r: Receiver): Option<Receiver>
  {
    if r.hand.None? && r.buf == [] && r.closed && r.nposts < h && !r.ended then Some(r.(ended := true)) else None
  }

  // ----- one stream, seen from outside -----

  /**
    Both ends, what is on the wire between them in each direction, and whether each peer
    still has the tag in its table. `stray` would be an end on the wrong side.
   */
  datatype Stream = Stream(
    snd: Option<Sender>, rcv: Option<Receiver>, fwd: seq<Kind>, back: seq<Kind>,
    open: bool, joined: bool, stray: bool)

  const CLOSED_STREAM := Stream(None, None, [], [], false, false, false)

  function DataKinds(vs: seq<Val>, first: bool): seq<Kind>
  {
    if vs == [] then [] else [Data(vs[0], first)] + DataKinds(vs[1..], false)
  }

  /** What left the sender and did not reach the user, past the wire. */
  function Arrived(r: Receiver): seq<Val>
  {
    r.got + (if r.hand.Some? then [r.hand.value] else []) + r.buf
  }

  /** The messages that n tickets, or n grants, are for. */
  function Times(h: nat, n: nat): nat
  {
    h * n
  }

  predicate SenderOk(h: nat, x: Sender)
  {
    && x.nmsgs <= h
    && |x.sent| + x.discards + x.nmsgs == Times(h, x.taken)
    && (x.at == Starting ==> x.taken == 0)
    && (x.first <==> x.sent == [])
    && Blank !in x.sent
    && AskedOk(x)
  }

  predicate ReceiverOk(h: nat, r: Receiver)
  {
    && r.nposts <= h && |r.got| == Times(h, r.grants) + r.nposts
    && (r.hand.Some? ==> r.nposts < h)
    && (r.ended ==> r.closed && r.buf == [] && r.hand.None?)
  }

  function Grants(v: Stream): nat
  {
    if v.rcv.Some? then v.rcv.value.grants else 0
  }

  /** The wire carries, in order, what was sent and has not arrived, then the end. */
  predicate WireOk(x: Sender, rcv: Option<Receiver>, fwd: seq<Kind>)
  {
    if rcv.None? then fwd == DataKinds(x.sent, true) + (if x.at == Ended then [Fin(x.first)] else [])
    else
      var r := rcv.value;
      if x.sent == [] then
        x.at == Ended && fwd == [] && Arrived(r) == [Blank] && !r.closed
      else
        && Arrived(r) <= x.sent
        && (r.closed ==> x.at == Ended && Arrived(r) == x.sent)
        && fwd == DataKinds(x.sent[|Arrived(r)|..], false) + (if x.at == Ended && !r.closed then [Fin(false)] else [])
  }

  ghost predicate StreamOk(h: nat, v: Stream)
  {
    && !v.stray
    && (forall k | 0 <= k < |v.back| :: v.back[k] == Grant)
    && if v.snd.None? then v == CLOSED_STREAM
       else
         var x := v.snd.value;
         && SenderOk(h, x) && WireOk(x, v.rcv, v.fwd)
         && (v.rcv.Some? ==> ReceiverOk(h, v.rcv.value))
         && v.open == (x.at != Ended)
         && v.joined == (v.rcv.Some? && !v.rcv.value.closed)
         && x.taken <= 2 + Grants(v)
         && (v.open ==> x.tickets + |v.back| + x.taken == 2 + Grants(v))
  }

  // ----- what follows for a stream -----

  /** Sent and not yet given to the user. */
  function Undelivered(v: Stream): int
    requires v.snd.Some?
  {
    |v.snd.value.sent| - if v.rcv.Some? then |v.rcv.value.got| else 0
  }

  lemma {:induction false} DataKindsLength(vs: seq<Val>, first: bool)
    ensures |DataKinds(vs, first)| == |vs|
    ensures forall k | 0 <= k < |vs| :: DataKinds(vs, first)[k] == Data(vs[k], first && k == 0)
    decreases vs
  {
    if vs != [] { DataKindsLength(vs[1..], false); }
  }

  lemma {:induction false} DataKindsAppend(vs: seq<Val>, x: Val, first: bool)
    ensures DataKinds(vs + [x], first) == DataKinds(vs, first) + [Data(x, first && vs == [])]
    decreases vs
  {
    if vs == [] {
      assert [x][1..] == [];
    } else {
      assert (vs + [x])[0] == vs[0] && (vs + [x])[1..] == vs[1..] + [x];
      DataKindsAppend(vs[1..], x, false);
    }
  }

  lemma TimesMonotone(h: nat, a: nat, b: nat)
    requires a <= b
    ensures Times(h, a) <= Times(h, b)
  {}

  lemma TimesNext(h: nat, n: nat)
    ensures Times(h, n + 1) == Times(h, n) + h && Times(h, 0) == 0
  {}

  lemma TimesTwoMore(h: nat, n: nat)
    ensures Times(h, 2 + n) == 2 * h + Times(h, n)
  {}

  /** What a stream has sent and not delivered is covered by two tickets. */
  lemma {:induction false} InFlightBound(h: nat, v: Stream)
    requires StreamOk(h, v) && v.snd.Some? && v.snd.value.sent != []
    ensures Undelivered(v) <= 2 * h
  {
    hide Times, WireOk, AskedOk;
    TimesMonotone(h, v.snd.value.taken, 2 + Grants(v));
    TimesTwoMore(h, Grants(v));
    TimesNext(h, 0);
  }

  /** So there is room in the buffer for every message on the wire. */
  lemma {:induction false} RoomForNext(h: nat, v: Stream)
    requires StreamOk(h, v) && v.rcv.Some? && v.snd.value.sent != [] && v.fwd != [] && v.fwd[0].Data?
    ensures |v.rcv.value.buf| < 2 * h
  {
    InFlightBound(h, v);
    DataKindsLength(v.snd.value.sent[|Arrived(v.rcv.value)|..], false);
  }

  /** The balance of a sender that has no ticket and no grant coming. */
  lemma {:induction false} CreditBalance(h: nat, v: Stream)
    requires StreamOk(h, v) && v.open && v.back == [] && v.snd.value.tickets == 0 && v.snd.value.nmsgs == 0
    ensures var nposts := if v.rcv.Some? then v.rcv.value.nposts else 0;
            Undelivered(v) + nposts + v.snd.value.discards == 2 * h
  {
    hide Times, WireOk, AskedOk;
    TimesTwoMore(h, Grants(v));
    TimesNext(h, 0);
  }

  /** The sender waits for a ticket and nothing of the stream is under way to give it one. */
  predicate Stalled(h: nat, v: Stream)
  {
    && v.open && v.snd.Some? && NeedsTicket(v.snd.value) && v.snd.value.tickets == 0
    && v.back == [] && v.fwd == []
    && (v.rcv.Some? ==> v.rcv.value.buf == [] && v.rcv.value.hand.None? && v.rcv.value.nposts < h)
  }

  /**
    A sender without tickets, with no grant coming and all it sent delivered and accounted
    for, is stalled for good exactly when more than half a buffer of its messages was
    discarded: discarded messages use up turns nobody gives back.
   */
  lemma {:induction false} StallsIffDiscards(h: nat, v: Stream)
    requires StreamOk(h, v) && v.open && NeedsTicket(v.snd.value) && v.snd.value.tickets == 0 && h > 0
    ensures Stalled(h, v) <==> v.back == [] && Undelivered(v) == 0 && v.snd.value.discards > h
  {
    var x := v.snd.value;
    if v.back == [] {
      assert x.at != Starting;
      CreditBalance(h, v);
      if v.rcv.Some? {
        DataKindsLength(x.sent[|Arrived(v.rcv.value)|..], false);
      } else {
        DataKindsLength(x.sent, true);
      }
    }
  }

  /**
    What the user got of a stream is a prefix of what its peer's user wrote that could be
    sent, and all of it at the end, if there was anything.
   */
  lemma {:induction false} DeliveredInOrder(h: nat, v: Stream)
    requires StreamOk(h, v) && v.rcv.Some? && Writables(v.snd.value.asked) != []
    ensures v.rcv.value.got <= v.snd.value.sent <= Writables(v.snd.value.asked)
    ensures v.rcv.value.ended ==> v.snd.value.at == Ended && v.rcv.value.got == Writables(v.snd.value.asked)
  {
    var r, x := v.rcv.value, v.snd.value;
    assert r.got <= Arrived(r);
    if x.at == Ended { assert Held(x) + x.queue == [] && x.sent + [] == x.sent; }
  }

  /** The end of a stream that sent nothing is read as a message, and is never seen as an end. */
  lemma {:induction false} EmptyStreamNeverEnds(h: nat, v: Stream)
    requires StreamOk(h, v) && v.rcv.Some? && Writables(v.snd.value.asked) == []
    ensures !v.rcv.value.ended && v.joined && v.rcv.value.got <= Arrived(v.rcv.value) == [Blank]
  {
    var r := v.rcv.value;
    assert r.got <= Arrived(r);
  }

  // ----- every step keeps the stream in order -----

  lemma TicketAsked(y: Sender, h: nat)
    requires AskedOk(y) && TakeTicket(h, y).Some?
    ensures AskedOk(TakeTicket(h, y).value)
  {}

  /** What a sender does on its side leaves the wire as it was. */
  lemma WireAt(x: Sender, x': Sender, rcv: Option<Receiver>, fwd: seq<Kind>)
    requires WireOk(x, rcv, fwd) && x'.sent == x.sent && x'.first == x.first && (x'.at == Ended <==> x.at == Ended)
    ensures WireOk(x', rcv, fwd)
  {}

  lemma {:induction false} KeepTicket(h: nat, v: Stream, x: Sender)
    requires StreamOk(h, v) && v.snd.Some? && TakeTicket(h, v.snd.value) == Some(x)
    ensures StreamOk(h, v.(snd := Some(x)))
  {
    TimesNext(h, v.snd.value.taken);
    TicketAsked(v.snd.value, h);
    hide Times, WireOk, AskedOk;
    assert WireOk(v.snd.value, v.rcv, v.fwd);
    WireAt(v.snd.value, x, v.rcv, v.fwd);
  }

  lemma {:induction false} KeepMessage(h: nat, v: Stream, x: Sender)
    requires StreamOk(h, v) && v.snd.Some? && TakeMessage(v.snd.value) == Some(x)
    ensures StreamOk(h, v.(snd := Some(x)))
  {
    var y := v.snd.value;
    assert Held(x) + x.queue == Held(y) + y.queue;
    WireAt(y, x, v.rcv, v.fwd);
    hide Times, WireOk;
  }

  lemma {:induction false} AskAsked(y: Sender, d: Item)
    requires AskedOk(y) && !y.closed
    ensures AskedOk(Ask(y, d))
  {
    hide Writables;
    var pending := Held(y) + y.queue;
    assert Held(y) + (y.queue + [d]) == pending + [d];
    WritablesAppend(y.asked, [d]);
    WritablesAppend(pending, [d]);
    assert y.sent + Writables(pending) + Writables([d]) == y.sent + (Writables(pending) + Writables([d]));
  }

  lemma {:induction false} KeepAsk(h: nat, v: Stream, d: Item)
    requires StreamOk(h, v) && v.snd.Some? && !v.snd.value.closed
    ensures StreamOk(h, v.(snd := Some(Ask(v.snd.value, d))))
  {
    AskAsked(v.snd.value, d);
    WireAt(v.snd.value, Ask(v.snd.value, d), v.rcv, v.fwd);
    hide Times, WireOk, AskedOk;
  }

  lemma {:induction false} KeepClose(h: nat, v: Stream)
    requires StreamOk(h, v) && v.snd.Some?
    ensures StreamOk(h, v.(snd := Some(v.snd.value.(closed := true))))
  {
    var y := v.snd.value;
    assert AskedOk(y.(closed := true));
    WireAt(y, y.(closed := true), v.rcv, v.fwd);
    hide Times, WireOk, AskedOk;
  }

  /** What was held is sent or discarded. */
  lemma {:induction false} WriteAsked(y: Sender)
    requires AskedOk(y) && WriteMessage(y).Some?
    ensures AskedOk(WriteMessage(y).value.0)
  {
    hide Writables;
    var x, w := WriteMessage(y).value.0, Writables([y.at.d]);
    assert Held(y) + y.queue == [y.at.d] + y.queue && Held(x) + x.queue == y.queue;
    WritablesAppend([y.at.d], y.queue);
    WritablesOne(y.at.d);
    assert y.sent + (w + Writables(y.queue)) == (y.sent + w) + Writables(y.queue);
    assert x.sent == y.sent + w;
  }

  /** A message written goes to the end of the wire. */
  lemma {:induction false} WireWritten(y: Sender, x: Sender, rcv: Option<Receiver>, fwd: seq<Kind>, w: Val)
    requires WireOk(y, rcv, fwd) && y.at != Ended && x.at != Ended && x.sent == y.sent + [w] && (y.first <==> y.sent == [])
    ensures WireOk(x, rcv, fwd + [Data(w, y.first)])
  {
    if rcv.None? {
      DataKindsAppend(y.sent, w, true);
    } else {
      var n := |Arrived(rcv.value)|;
      assert x.sent[n..] == y.sent[n..] + [w];
      DataKindsAppend(y.sent[n..], w, false);
    }
  }

  lemma {:induction false} KeepWrite(h: nat, v: Stream, x: Sender, out: seq<Kind>)
    requires StreamOk(h, v) && v.snd.Some? && WriteMessage(v.snd.value) == Some((x, out))
    ensures StreamOk(h, v.(snd := Some(x), fwd := v.fwd + out))
  {
    hide Times, WireOk, AskedOk;
    var y := v.snd.value;
    WriteAsked(y);
    if y.at.d.writable {
      WireWritten(y, x, v.rcv, v.fwd, Val(y.at.d.v));
    } else {
      assert v.fwd + [] == v.fwd;
      WireAt(y, x, v.rcv, v.fwd);
    }
  }

  lemma WireEnded(y: Sender, x: Sender, rcv: Option<Receiver>, fwd: seq<Kind>)
    requires WireOk(y, rcv, fwd) && y.at != Ended && x == y.(at := Ended) && (y.first <==> y.sent == [])
    ensures WireOk(x, rcv, fwd + [Fin(y.first)])
  {}

  lemma {:induction false} KeepEnd(h: nat, v: Stream, x: Sender, out: seq<Kind>)
    requires StreamOk(h, v) && v.snd.Some? && WriteEnd(v.snd.value) == Some((x, out))
    ensures StreamOk(h, v.(snd := Some(x), fwd := v.fwd + out, open := false))
  {
    WireEnded(v.snd.value, x, v.rcv, v.fwd);
    assert AskedOk(x);
    hide Times, WireOk, AskedOk;
  }

  /** The first message of a tag makes a receiver, whatever it is. */
  lemma {:induction false} KeepJoin(h: nat, v: Stream)
    requires StreamOk(h, v) && v.snd.Some? && v.fwd != [] && !v.joined && IsFirst(v.fwd[0])
    ensures v.rcv.None? && !v.fwd[0].Grant?
    ensures StreamOk(h, v.(rcv := Some(NewReceiver(Payload(v.fwd[0]))), fwd := v.fwd[1..], joined := true))
  {
    hide AskedOk;
    TimesNext(h, 0);
    var x := v.snd.value;
    if v.rcv.Some? {
      DataKindsLength(x.sent[|Arrived(v.rcv.value)|..], false);
    } else {
      var r := NewReceiver(Payload(v.fwd[0]));
      if x.sent != [] {
        assert DataKinds(x.sent, true) == [Data(x.sent[0], true)] + DataKinds(x.sent[1..], false);
        assert Arrived(r) == [x.sent[0]] == x.sent[..1];
      }
    }
  }

  /** A message that is not the first always finds the tag in the table. */
  lemma {:induction false} NothingToDiscard(h: nat, v: Stream)
    requires StreamOk(h, v) && v.snd.Some? && v.fwd != [] && !v.joined
    ensures IsFirst(v.fwd[0])
  {
    var x := v.snd.value;
    if v.rcv.None? {
      DataKindsLength(x.sent, true);
    } else {
      DataKindsLength(x.sent[|Arrived(v.rcv.value)|..], false);
    }
  }

  /** The next message on the wire, and what it does to what has arrived. */
  lemma {:induction false} WireNext(x: Sender, r: Receiver, fwd: seq<Kind>)
    requires WireOk(x, Some(r), fwd) && fwd != [] && !r.closed
    ensures !fwd[0].Grant?
    ensures fwd[0].Data? ==> WireOk(x, Some(r.(buf := r.buf + [fwd[0].x])), fwd[1..])
    ensures fwd[0].Fin? ==> WireOk(x, Some(r.(closed := true)), fwd[1..])
  {
    var n := |Arrived(r)|;
    var rest := x.sent[n..];
    if rest == [] {
      assert DataKinds(rest, false) == [];
      assert Arrived(r) == x.sent;
      assert Arrived(r.(closed := true)) == Arrived(r);
    } else {
      OneMoreArrived(x, r, rest);
    }
  }

  lemma {:induction false} OneMoreArrived(x: Sender, r: Receiver, rest: seq<Val>)
    requires Arrived(r) <= x.sent && rest == x.sent[|Arrived(r)|..] && rest != []
    ensures DataKinds(rest, false) == [Data(rest[0], false)] + DataKinds(rest[1..], false)
    ensures var r' := r.(buf := r.buf + [rest[0]]);
            Arrived(r') <= x.sent && rest[1..] == x.sent[|Arrived(r')|..]
  {
    var n := |Arrived(r)|;
    assert Arrived(r.(buf := r.buf + [rest[0]])) == Arrived(r) + [rest[0]] == x.sent[..n + 1];
  }

  lemma {:induction false} KeepArrive(h: nat, v: Stream)
    requires StreamOk(h, v) && v.snd.Some? && v.fwd != [] && v.joined
    ensures !v.fwd[0].Grant?
    ensures v.fwd[0].Data? ==>
      var r := v.rcv.value;
      StreamOk(h, v.(rcv := Some(r.(buf := r.buf + [v.fwd[0].x])), fwd := v.fwd[1..]))
    ensures v.fwd[0].Fin? ==>
      StreamOk(h, v.(rcv := Some(v.rcv.value.(closed := true)), fwd := v.fwd[1..], joined := false))
  {
    var x, r := v.snd.value, v.rcv.value;
    WireNext(x, r, v.fwd);
    hide WireOk, SenderOk, Arrived, Times;
  }

  lemma {:induction false} KeepGrantArrive(h: nat, v: Stream)
    requires StreamOk(h, v) && v.snd.Some? && v.back != []
    ensures v.back[0] == Grant
    ensures v.open ==> StreamOk(h, v.(snd := Some(v.snd.value.(tickets := v.snd.value.tickets + 1)), back := v.back[1..]))
    ensures !v.open ==> StreamOk(h, v.(back := v.back[1..]))
  {}

  /** What a reader does on its side leaves the wire as it was. */
  lemma WireSame(x: Sender, r: Receiver, r': Receiver, fwd: seq<Kind>)
    requires WireOk(x, Some(r), fwd) && Arrived(r') == Arrived(r) && r'.closed == r.closed
    ensures WireOk(x, Some(r'), fwd)
  {}

  lemma {:induction false} KeepPick(h: nat, v: Stream, r: Receiver)
    requires StreamOk(h, v) && v.rcv.Some? && Pick(h, v.rcv.value) == Some(r)
    ensures StreamOk(h, v.(rcv := Some(r)))
  {
    assert Arrived(r) == Arrived(v.rcv.value);
    hide WireOk, SenderOk, Arrived, Times;
    WireSame(v.snd.value, v.rcv.value, r, v.fwd);
  }

  lemma {:induction false} KeepPost(h: nat, v: Stream, r: Receiver)
    requires StreamOk(h, v) && v.rcv.Some? && Post(v.rcv.value) == Some(r)
    ensures StreamOk(h, v.(rcv := Some(r)))
  {
    assert Arrived(r) == Arrived(v.rcv.value);
    hide WireOk, SenderOk, Arrived, Times;
    WireSame(v.snd.value, v.rcv.value, r, v.fwd);
  }

  lemma {:induction false} KeepGrant(h: nat, v: Stream, r: Receiver)
    requires StreamOk(h, v) && v.rcv.Some? && GiveGrant(h, v.rcv.value) == Some(r)
    ensures StreamOk(h, v.(rcv := Some(r), back := v.back + [Grant]))
  {
    hide WireOk, SenderOk, Times;
    assert Arrived(r) == Arrived(v.rcv.value);
    hide Arrived;
    WireSame(v.snd.value, v.rcv.value, r, v.fwd);
    TimesNext(h, v.rcv.value.grants);
  }

  lemma {:induction false} KeepSeeEnd(h: nat, v: Stream, r: Receiver)
    requires StreamOk(h, v) && v.rcv.Some? && SeeEnd(h, v.rcv.value) == Some(r)
    ensures StreamOk(h, v.(rcv := Some(r)))
  {
    assert Arrived(r) == Arrived(v.rcv.value);
    hide WireOk, SenderOk, Arrived, Times;
    WireSame(v.snd.value, v.rcv.value, r, v.fwd);
  }
}
