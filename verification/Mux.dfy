/**
  Two muxes joined by a duplex device: many streams, opened by either side, share one wire in
  each direction. The processes of all streams and the two demultiplexers interleave freely.

  A stream is known on both sides by its tag only. The view of one tag is a stream of module
  MuxStream, and every step of the whole keeps every view in order.
 */
module Mux {
  import opened MuxStream

  /** Tags have 28 bits; the other four flag messages. */
  const TAG_LIMIT: nat := 0x1000_0000

  /** How many tags a mux can generate before they repeat. */
  const TAG_PERIOD: nat := 0x800_0000 - 1

  datatype Msg = Msg(tag: nat, kind: Kind)

  /** How many new streams may wait for the user to accept them. */
  const ACCEPT: nat := 10

  /**
    A mux: its last tag, the tags in its table, the processes of its streams, and the new
    streams its user has not accepted. When there is one more than may wait, that is the one
    that the demultiplexer is waiting to hand over.
   */
  datatype Peer = Peer(tag: nat, live: set<nat>, outs: map<nat, Sender>, ins: map<nat, Receiver>, waiting: nat)

  /** One thing for each of the two peers, 0 and 1. */
  datatype Both<T> = Both(zero: T, one: T)
  {
    function At(k: nat): T {
      if k == 0 then zero else one
    }

    function Set(k: nat, x: T): Both<T> {
      if k == 0 then this.(zero := x) else this.(one := x)
    }
  }

  /** wires.At(k) goes from peer k to the other. */
  datatype State = State(peers: Both<Peer>, wires: Both<seq<Msg>>)

  datatype Action =
    | Open                       // the user asks for an output stream
    | Send(tag: nat, d: Item)    // the user writes, or closes, its end
    | Close(tag: nat)
    | Ticket(tag: nat)           // the sending process
    | Take(tag: nat)
    | Write(tag: nat)
    | End(tag: nat)
    | Accept                     // the user accepts a stream opened by the other peer
    | Demux                      // the demultiplexer takes the next message off the wire
    | PickUp(tag: nat)           // the process before the reading user
    | Deliver(tag: nat)
    | GrantFlow(tag: nat)
    | Hangup(tag: nat)

  // ----- tags -----

  function NextTag(tag: nat): nat
  {
    (if tag + 2 >= TAG_LIMIT then tag % 2 else tag) + 2
  }

  /** The tag of the n-th stream opened by peer k, counting from 1. */
  function NthTag(k: nat, n: nat): nat
  {
    if n == 0 then k else NextTag(NthTag(k, n - 1))
  }

  lemma NextPlace(m: nat)
    ensures (m + 1) % TAG_PERIOD == if m % TAG_PERIOD == TAG_PERIOD - 1 then 0 else m % TAG_PERIOD + 1
  {}

  lemma {:induction false} NthTagValue(k: nat, n: nat)
    requires k < 2
    ensures NthTag(k, n) == if n == 0 then k else k + 2 * ((n - 1) % TAG_PERIOD + 1)
  {
    if n > 1 {
      NthTagValue(k, n - 1);
      NextPlace(n - 2);
    } else if n == 1 {
      assert NthTag(k, 0) == k;
    }
  }

  /** The muxes never generate the same tag, and one repeats a tag exactly after a whole period. */
  lemma {:induction false} TagsApart(k: nat, n: nat, k': nat, n': nat)
    requires k < 2 && k' < 2 && n > 0 && n' > 0
    ensures NthTag(k, n) == NthTag(k', n') <==> k == k' && (n - 1) % TAG_PERIOD == (n' - 1) % TAG_PERIOD
  {
    NthTagValue(k, n);
    NthTagValue(k', n');
  }

  // ----- steps -----

  function Init(): State
  {
    State(Both(Peer(0, {}, map[], map[], 0), Peer(1, {}, map[], map[], 0)), Both([], []))
  }

  function Tagged(tag: nat, ks: seq<Kind>): seq<Msg>
  {
    if ks == [] then [] else [Msg(tag, ks[0])] + Tagged(tag, ks[1..])
  }

  function SetPeer(s: State, k: nat, p: Peer): State
    requires k < 2
  {
    s.(peers := s.peers.Set(k, p))
  }

  function Put(s: State, k: nat, ms: seq<Msg>): State
    requires k < 2
  {
    s.(wires := s.wires.Set(k, s.wires.At(k) + ms))
  }

  function SetOut(s: State, k: nat, tag: nat, x: Sender): State
    requires k < 2
  {
    SetPeer(s, k, s.peers.At(k).(outs := s.peers.At(k).outs[tag := x]))
  }

  function SetIn(s: State, k: nat, tag: nat, r: Receiver): State
    requires k < 2
  {
    SetPeer(s, k, s.peers.At(k).(ins := s.peers.At(k).ins[tag := r]))
  }

  /** A new stream; the record of a finished one that had the tag is forgotten. */
  function OpenStream(s: State, k: nat): State
    requires k < 2
  {
    var p, q := s.peers.At(k), s.peers.At(1 - k);
    var tag := NextTag(p.tag);
    var s1 := SetPeer(s, k, p.(tag := tag, live := p.live + {tag}, outs := p.outs[tag := NEW_SENDER]));
    if tag in q.ins && q.ins[tag].ended then SetPeer(s1, 1 - k, q.(ins := q.ins - {tag})) else s1
  }

  /** What peer k does with a message; None if it must wait for room in a buffer. */
  function Receive(nbuf: nat, s: State, k: nat, m: Msg): Option<State>
    requires k < 2
  {
    var p := s.peers.At(k);
    if m.tag !in p.live then
      if IsFirst(m.kind) then
        Some(SetPeer(s, k, p.(live := p.live + {m.tag}, ins := p.ins[m.tag := NewReceiver(Payload(m.kind))],
                              waiting := p.waiting + 1)))
      else Some(s)   // the stream was closed: discard
    else if m.tag in p.outs then
      match m.kind
      case Grant => Some(SetOut(s, k, m.tag, p.outs[m.tag].(tickets := p.outs[m.tag].tickets + 1)))
      case Fin(_) => Some(SetPeer(s, k, p.(live := p.live - {m.tag})))
      case Data(_, _) => Some(s)
    else if m.tag in p.ins then
      var r := p.ins[m.tag];
      match m.kind
      case Grant => Some(s)
      case Fin(_) => Some(SetPeer(s, k, p.(live := p.live - {m.tag}, ins := p.ins[m.tag := r.(closed := true)])))
      case Data(x, _) => if |r.buf| < nbuf then Some(SetIn(s, k, m.tag, r.(buf := r.buf + [x]))) else None
    else Some(s)
  }

  /** The state after peer k does a, or None if it cannot. */
  function Step(nbuf: nat, s: State, k: nat, a: Action): Option<State>
    requires k < 2
  {
    var p, h := s.peers.At(k), nbuf / 2;
    match a
    case Open => Some(OpenStream(s, k))
    case Send(t, d) =>
      if t !in p.outs || p.outs[t].closed || |p.outs[t].queue| >= nbuf then None
      else Some(SetOut(s, k, t, Ask(p.outs[t], d)))
    case Close(t) =>
      if t !in p.outs || p.outs[t].closed then None else Some(SetOut(s, k, t, p.outs[t].(closed := true)))
    case Ticket(t) =>
      if t !in p.outs || TakeTicket(h, p.outs[t]).None? then None
      else Some(SetOut(s, k, t, TakeTicket(h, p.outs[t]).value))
    case Take(t) =>
      if t !in p.outs || TakeMessage(p.outs[t]).None? then None
      else Some(SetOut(s, k, t, TakeMessage(p.outs[t]).value))
    case Write(t) =>
      if t !in p.outs || WriteMessage(p.outs[t]).None? then None
      else
        var (x, out) := WriteMessage(p.outs[t]).value;
        Some(Put(SetOut(s, k, t, x), k, Tagged(t, out)))
    case End(t) =>
      if t !in p.outs || WriteEnd(p.outs[t]).None? then None
      else
        var (x, out) := WriteEnd(p.outs[t]).value;
        Some(Put(SetPeer(s, k, p.(outs := p.outs[t := x], live := p.live - {t})), k, Tagged(t, out)))
    case Demux =>
      var w := s.wires.At(1 - k);
      if w == [] || p.waiting > ACCEPT then None else Receive(nbuf, s.(wires := s.wires.Set(1 - k, w[1..])), k, w[0])
    case Accept => if p.waiting == 0 then None else Some(SetPeer(s, k, p.(waiting := p.waiting - 1)))
    case PickUp(t) =>
      if t !in p.ins || Pick(h, p.ins[t]).None? then None else Some(SetIn(s, k, t, Pick(h, p.ins[t]).value))
    case Deliver(t) =>
      if t !in p.ins || Post(p.ins[t]).None? then None else Some(SetIn(s, k, t, Post(p.ins[t]).value))
    case GrantFlow(t) =>
      if t !in p.ins || GiveGrant(h, p.ins[t]).None? then None
      else Some(Put(SetIn(s, k, t, GiveGrant(h, p.ins[t]).value), k, [Msg(t, Grant)]))
    case Hangup(t) =>
      if t !in p.ins || SeeEnd(h, p.ins[t]).None? then None else Some(SetIn(s, k, t, SeeEnd(h, p.ins[t]).value))
  }

  // ----- the view of one tag -----

  function Proj(w: seq<Msg>, tag: nat): seq<Kind>
  {
    if w == [] then []
    else (if w[0].tag == tag then [w[0].kind] else []) + Proj(w[1..], tag)
  }

  function Lookup<T>(m: map<nat, T>, tag: nat): Option<T>
  {
    if tag in m then Some(m[tag]) else None
  }

  /** What there is of a tag, whose parity says who opened it. */
  function View(s: State, tag: nat): Stream
  {
    var o := tag % 2;
    var p, q := s.peers.At(o), s.peers.At(1 - o);
    Stream(Lookup(p.outs, tag), Lookup(q.ins, tag), Proj(s.wires.At(o), tag), Proj(s.wires.At(1 - o), tag),
           tag in p.live, tag in q.live, tag in q.outs || tag in p.ins)
  }

  predicate AcceptOk(s: State)
  {
    s.peers.At(0).waiting <= ACCEPT + 1 && s.peers.At(1).waiting <= ACCEPT + 1
  }

  ghost predicate Inv(nbuf: nat, s: State)
  {
    && s.peers.At(0).tag % 2 == 0 && s.peers.At(1).tag % 2 == 1
    && AcceptOk(s)
    && forall tag: nat :: StreamOk(nbuf / 2, View(s, tag))
  }

  lemma {:induction false} ProjAppend(w: seq<Msg>, ms: seq<Msg>, tag: nat)
    ensures Proj(w + ms, tag) == Proj(w, tag) + Proj(ms, tag)
    decreases w
  {
    if w == [] {
      assert w + ms == ms;
    } else {
      assert (w + ms)[0] == w[0] && (w + ms)[1..] == w[1..] + ms;
      ProjAppend(w[1..], ms, tag);
    }
  }

  lemma {:induction false} ProjTagged(t: nat, ks: seq<Kind>, tag: nat)
    ensures Proj(Tagged(t, ks), tag) == if t == tag then ks else []
    decreases ks
  {
    if ks != [] { ProjTagged(t, ks[1..], tag); }
  }

  /** The tag of this peer's next stream is not in use anywhere. */
  ghost predicate FreshTag(s: State, k: nat)
    requires k < 2
  {
    FreshIs(View(s, NextTag(s.peers.At(k).tag)))
  }

  // ----- each kind of step -----

  /** Replacing the view of one tag. */
  ghost predicate OnlyViewChanges(s: State, s': State, t: nat, v: Stream)
  {
    && View(s', t) == v
    && (forall k | 0 <= k < 2 :: s'.peers.At(k).tag % 2 == s.peers.At(k).tag % 2)
    && forall tag: nat | tag != t :: View(s', tag) == View(s, tag)
  }

  lemma {:induction false} ViewChangeKeeps(nbuf: nat, s: State, s': State, t: nat, v: Stream)
    requires Inv(nbuf, s) && OnlyViewChanges(s, s', t, v) && StreamOk(nbuf / 2, v) && AcceptOk(s')
    ensures Inv(nbuf, s')
  {
    hide StreamOk, View, AcceptOk;
    forall tag: nat ensures StreamOk(nbuf / 2, View(s', tag)) {
      assert StreamOk(nbuf / 2, View(s, tag));
    }
    assert s.peers.At(0).tag % 2 == 0 && s'.peers.At(0).tag % 2 == s.peers.At(0).tag % 2;
    assert s.peers.At(1).tag % 2 == 1 && s'.peers.At(1).tag % 2 == s.peers.At(1).tag % 2;
  }

  lemma {:induction false} ProjPut(w: seq<Msg>, t: nat, out: seq<Kind>)
    ensures forall tag: nat :: Proj(w + Tagged(t, out), tag) == if t == tag then Proj(w, tag) + out else Proj(w, tag)
  {
    forall tag: nat ensures Proj(w + Tagged(t, out), tag) == if t == tag then Proj(w, tag) + out else Proj(w, tag) {
      ProjAppend(w, Tagged(t, out), tag);
      ProjTagged(t, out, tag);
      assert Proj(w, tag) + [] == Proj(w, tag);
    }
  }

  lemma {:induction false} SetOutView(s: State, k: nat, t: nat, x: Sender)
    requires k < 2 && t in s.peers.At(k).outs && t % 2 == k
    ensures OnlyViewChanges(s, SetOut(s, k, t, x), t, View(s, t).(snd := Some(x)))
  {}

  lemma {:induction false} SetInView(s: State, k: nat, t: nat, r: Receiver)
    requires k < 2 && t in s.peers.At(k).ins && t % 2 == 1 - k
    ensures OnlyViewChanges(s, SetIn(s, k, t, r), t, View(s, t).(rcv := Some(r)))
  {}

  /** The peer that opened a tag writes for it. */
  lemma {:induction false} PutFwdView(s: State, k: nat, t: nat, out: seq<Kind>)
    requires k < 2 && t % 2 == k
    ensures OnlyViewChanges(s, Put(s, k, Tagged(t, out)), t, View(s, t).(fwd := View(s, t).fwd + out))
  {
    ProjPut(s.wires.At(k), t, out);
    hide Proj, Tagged;
  }

  lemma {:induction false} PutBackView(s: State, k: nat, t: nat, out: seq<Kind>)
    requires k < 2 && t % 2 == 1 - k
    ensures OnlyViewChanges(s, Put(s, k, Tagged(t, out)), t, View(s, t).(back := View(s, t).back + out))
  {
    ProjPut(s.wires.At(k), t, out);
    hide Proj, Tagged;
  }

  lemma {:induction false} LeaveView(s: State, k: nat, t: nat)
    requires k < 2 && t % 2 == k
    ensures var p := s.peers.At(k);
            OnlyViewChanges(s, SetPeer(s, k, p.(live := p.live - {t})), t, View(s, t).(open := false))
  {}

  lemma ViewTwice(s: State, s1: State, s2: State, t: nat, v1: Stream, v2: Stream)
    requires OnlyViewChanges(s, s1, t, v1) && OnlyViewChanges(s1, s2, t, v2)
    ensures OnlyViewChanges(s, s2, t, v2)
  {
    hide View;
  }

  lemma PutNothing(s: State, k: nat, t: nat)
    requires k < 2
    ensures Put(s, k, Tagged(t, [])) == s
  {
    assert s.wires.At(k) + [] == s.wires.At(k);
  }

  /** Senders are on the side of their tag's parity, receivers on the other. */
  lemma {:induction false} Sides(nbuf: nat, s: State, k: nat, t: nat)
    requires Inv(nbuf, s) && k < 2
    ensures t in s.peers.At(k).outs ==> t % 2 == k && View(s, t).snd == Some(s.peers.At(k).outs[t])
    ensures t in s.peers.At(k).ins ==> t % 2 == 1 - k && View(s, t).rcv == Some(s.peers.At(k).ins[t]) && View(s, t).snd.Some?
  {
    assert StreamOk(nbuf / 2, View(s, t));
  }

  /** A step of a sender that writes nothing. */
  lemma {:induction false} SenderStep(nbuf: nat, s: State, k: nat, a: Action) returns (v: Stream)
    requires Inv(nbuf, s) && k < 2 && Step(nbuf, s, k, a).Some?
    requires a.Send? || a.Close? || a.Ticket? || a.Take?
    ensures OnlyViewChanges(s, Step(nbuf, s, k, a).value, a.tag, v) && StreamOk(nbuf / 2, v)
    ensures a.tag in s.peers.At(k).outs && View(s, a.tag).snd == Some(s.peers.At(k).outs[a.tag])
    ensures a.Send? || a.Close? ==> v.snd.Some? && UserOnly(s.peers.At(k).outs[a.tag], v.snd.value) && v == View(s, a.tag).(snd := v.snd)
  {
    var h, t := nbuf / 2, a.tag;
    Sides(nbuf, s, k, t);
    var u, y := View(s, t), s.peers.At(k).outs[t];
    assert StreamOk(h, u);
    hide StreamOk, View, OnlyViewChanges;
    var x := y;
    match a {
      case Send(_, d) => x := Ask(y, d); KeepAsk(h, u, d);
      case Close(_) => x := y.(closed := true); KeepClose(h, u);
      case Ticket(_) => x := TakeTicket(h, y).value; KeepTicket(h, u, x);
      case Take(_) => x := TakeMessage(y).value; KeepMessage(h, u, x);
    }
    SetOutView(s, k, t, x);
    v := u.(snd := Some(x));
  }

  /** Only what the user does differs. */
  predicate UserOnly(y: Sender, x: Sender)
  {
    x == y.(queue := x.queue, asked := x.asked, closed := x.closed)
  }

  lemma {:induction false} WriteStep(nbuf: nat, s: State, k: nat, a: Action) returns (v: Stream)
    requires Inv(nbuf, s) && k < 2 && Step(nbuf, s, k, a).Some? && (a.Write? || a.End?)
    ensures OnlyViewChanges(s, Step(nbuf, s, k, a).value, a.tag, v) && StreamOk(nbuf / 2, v)
    ensures a.tag in s.peers.At(k).outs && View(s, a.tag).snd == Some(s.peers.At(k).outs[a.tag])
  {
    var h, t := nbuf / 2, a.tag;
    Sides(nbuf, s, k, t);
    var u, y := View(s, t), s.peers.At(k).outs[t];
    assert StreamOk(h, u);
    hide StreamOk, View, OnlyViewChanges;
    var x, out := y, [];
    if a.Write? {
      x, out := WriteMessage(y).value.0, WriteMessage(y).value.1;
      KeepWrite(h, u, x, out);
    } else {
      x, out := WriteEnd(y).value.0, WriteEnd(y).value.1;
      KeepEnd(h, u, x, out);
    }
    var s1 := SetOut(s, k, t, x);
    SetOutView(s, k, t, x);
    v := u.(snd := Some(x));
    if a.End? {
      var p := s1.peers.At(k);
      LeaveView(s1, k, t);
      var s2 := SetPeer(s1, k, p.(live := p.live - {t}));
      ViewIs(s, s1, t, v);
      ViewTwice(s, s1, s2, t, v, v.(open := false));
      s1, v := s2, v.(open := false);
    }
    PutFwdView(s1, k, t, out);
    ViewIs(s, s1, t, v);
    ViewTwice(s, s1, Put(s1, k, Tagged(t, out)), t, v, v.(fwd := v.fwd + out));
    v := v.(fwd := v.fwd + out);
  }

  lemma ViewIs(s: State, s': State, t: nat, v: Stream)
    requires OnlyViewChanges(s, s', t, v)
    ensures View(s', t) == v
  {}

  /** A step on the side of a reader. */
  lemma {:induction false} InStep(nbuf: nat, s: State, k: nat, a: Action) returns (v: Stream)
    requires Inv(nbuf, s) && k < 2 && Step(nbuf, s, k, a).Some?
    requires a.PickUp? || a.Deliver? || a.GrantFlow? || a.Hangup?
    ensures OnlyViewChanges(s, Step(nbuf, s, k, a).value, a.tag, v) && StreamOk(nbuf / 2, v)
    ensures a.tag in s.peers.At(k).ins && View(s, a.tag).rcv == Some(s.peers.At(k).ins[a.tag])
  {
    var h, t := nbuf / 2, a.tag;
    Sides(nbuf, s, k, t);
    var u, y := View(s, t), s.peers.At(k).ins[t];
    assert StreamOk(h, u);
    hide StreamOk, View, OnlyViewChanges;
    var r := y;
    match a {
      case PickUp(_) => r := Pick(h, y).value; KeepPick(h, u, r);
      case Deliver(_) => r := Post(y).value; KeepPost(h, u, r);
      case GrantFlow(_) => r := GiveGrant(h, y).value; KeepGrant(h, u, r);
      case Hangup(_) => r := SeeEnd(h, y).value; KeepSeeEnd(h, u, r);
    }
    SetInView(s, k, t, r);
    var s1 := SetIn(s, k, t, r);
    v := u.(rcv := Some(r));
    if a.GrantFlow? {
      ViewIs(s, s1, t, v);
      PutBackView(s1, k, t, [Grant]);
      TaggedOne(t);
      ViewTwice(s, s1, Put(s1, k, [Msg(t, Grant)]), t, v, v.(back := v.back + [Grant]));
      v := v.(back := v.back + [Grant]);
    }
  }

  lemma TaggedOne(t: nat)
    ensures Tagged(t, [Grant]) == [Msg(t, Grant)]
  {
    assert [Grant][1..] == [];
  }

  /** The tag of the next stream and the one that is opened for it. */
  lemma {:induction false} OpenStep(nbuf: nat, s: State, k: nat) returns (v: Stream)
    requires Inv(nbuf, s) && k < 2 && FreshTag(s, k)
    ensures OnlyViewChanges(s, OpenStream(s, k), NextTag(s.peers.At(k).tag), v) && StreamOk(nbuf / 2, v)
  {
    var t := NextTag(s.peers.At(k).tag);
    var u := View(s, t);
    assert StreamOk(nbuf / 2, u) && s.peers.At(k).tag % 2 == k;
    assert !u.stray && (u.snd.None? ==> u == CLOSED_STREAM);
    assert u.rcv.Some? && u.rcv.value.ended ==> !u.joined;
    v := CLOSED_STREAM.(snd := Some(NEW_SENDER), open := true);
    NewStreamOk(nbuf / 2);
    hide StreamOk, Inv;
    OpenViews(s, k, t);
  }

  lemma NewStreamOk(h: nat)
    ensures StreamOk(h, CLOSED_STREAM.(snd := Some(NEW_SENDER), open := true))
  {
    assert DataKinds([], true) == [] && Held(NEW_SENDER) + NEW_SENDER.queue == [];
  }

  lemma {:induction false} OpenViews(s: State, k: nat, t: nat)
    requires k < 2 && t == NextTag(s.peers.At(k).tag) && s.peers.At(k).tag % 2 == k && FreshTag(s, k)
    requires var u := View(s, t); !u.stray && (u.snd.None? ==> u == CLOSED_STREAM)
    requires var u := View(s, t); u.rcv.Some? && u.rcv.value.ended ==> !u.joined
    ensures OnlyViewChanges(s, OpenStream(s, k), t, CLOSED_STREAM.(snd := Some(NEW_SENDER), open := true))
  {
    assert t % 2 == k;
    assert FreshIs(View(s, t));
    hide Proj, NextTag, FreshTag;
    var p, q := s.peers.At(k), s.peers.At(1 - k);
    var s1 := SetPeer(s, k, p.(tag := t, live := p.live + {t}, outs := p.outs[t := NEW_SENDER]));
    forall tag: nat | tag != t ensures View(s1, tag) == View(s, tag) {}
    forall tag: nat | tag != t ensures View(OpenStream(s, k), tag) == View(s1, tag) {}
  }

  /** The view of a tag whose last stream, if there was one, is over. */
  predicate FreshIs(v: Stream)
  {
    v.snd.Some? ==> v.snd.value.at == Ended && v.rcv.Some? && v.rcv.value.ended && v.fwd == [] && v.back == []
  }

  // ----- the demultiplexer -----

  /** The message peer k's demultiplexer is about to handle, seen from its stream. */
  lemma {:induction false} HeadOfWire(s: State, k: nat)
    requires k < 2 && s.wires.At(1 - k) != []
    ensures var w := s.wires.At(1 - k);
            var m := w[0];
            var s1 := s.(wires := s.wires.Set(1 - k, w[1..]));
            && (forall tag: nat | tag != m.tag :: View(s1, tag) == View(s, tag))
            && (m.tag % 2 == 1 - k ==> View(s, m.tag).fwd == [m.kind] + View(s1, m.tag).fwd
                                       && View(s1, m.tag) == View(s, m.tag).(fwd := View(s, m.tag).fwd[1..]))
            && (m.tag % 2 == k ==> View(s, m.tag).back == [m.kind] + View(s1, m.tag).back
                                   && View(s1, m.tag) == View(s, m.tag).(back := View(s, m.tag).back[1..]))
  {}

  // what Receive does to the view of a stream opened by the other peer

  lemma {:induction false} JoinView(nbuf: nat, s: State, k: nat, m: Msg)
    requires k < 2 && m.tag % 2 == 1 - k && !View(s, m.tag).joined && IsFirst(m.kind)
    ensures var v, r := View(s, m.tag), Receive(nbuf, s, k, m);
            r.Some? && OnlyViewChanges(s, r.value, m.tag, v.(rcv := Some(NewReceiver(Payload(m.kind))), joined := true))
  {
    hide Proj, NewReceiver, Payload;
    var p := s.peers.At(k);
    var r := NewReceiver(Payload(m.kind));
    var s1 := SetPeer(s, k, p.(live := p.live + {m.tag}, ins := p.ins[m.tag := r], waiting := p.waiting + 1));
    assert Receive(nbuf, s, k, m) == Some(s1);
    forall tag: nat | tag != m.tag ensures View(s1, tag) == View(s, tag) {}
  }

  lemma {:induction false} FinView(nbuf: nat, s: State, k: nat, m: Msg)
    requires k < 2 && m.tag % 2 == 1 - k && m.tag !in s.peers.At(k).outs
    requires View(s, m.tag).joined && View(s, m.tag).rcv.Some? && m.kind.Fin?
    ensures var v, r := View(s, m.tag), Receive(nbuf, s, k, m);
            r.Some? && OnlyViewChanges(s, r.value, m.tag, v.(rcv := Some(v.rcv.value.(closed := true)), joined := false))
  {}

  lemma {:induction false} DataView(nbuf: nat, s: State, k: nat, m: Msg)
    requires k < 2 && m.tag % 2 == 1 - k && m.tag !in s.peers.At(k).outs
    requires var v := View(s, m.tag); v.joined && v.rcv.Some? && m.kind.Data? && |v.rcv.value.buf| < nbuf
    ensures var v, r := View(s, m.tag), Receive(nbuf, s, k, m);
            r.Some? && OnlyViewChanges(s, r.value, m.tag, v.(rcv := Some(v.rcv.value.(buf := v.rcv.value.buf + [m.kind.x]))))
  {}

  lemma {:induction false} OnlyViewAfterPop(s: State, k: nat, s': State, v: Stream)
    requires k < 2 && s.wires.At(1 - k) != []
    requires OnlyViewChanges(s.(wires := s.wires.Set(1 - k, s.wires.At(1 - k)[1..])), s', s.wires.At(1 - k)[0].tag, v)
    ensures OnlyViewChanges(s, s', s.wires.At(1 - k)[0].tag, v)
  {
    HeadOfWire(s, k);
  }

  /** The view of a stream after its next message was handled. */
  function Handled(v: Stream): Stream
    requires v.fwd != []
  {
    var m, rest := v.fwd[0], v.(fwd := v.fwd[1..]);
    if !v.joined then rest.(rcv := Some(NewReceiver(Payload(m))), joined := true)
    else if v.rcv.None? then rest
    else if m.Data? then rest.(rcv := Some(v.rcv.value.(buf := v.rcv.value.buf + [m.x])))
    else rest.(rcv := Some(v.rcv.value.(closed := true)), joined := false)
  }

  lemma {:induction false} HandledOk(nbuf: nat, v: Stream)
    requires nbuf >= 2 && StreamOk(nbuf / 2, v) && v.snd.Some? && v.fwd != []
    ensures StreamOk(nbuf / 2, Handled(v))
    ensures !v.joined ==> IsFirst(v.fwd[0])
    ensures v.joined ==> v.rcv.Some? && !v.fwd[0].Grant? && (v.fwd[0].Data? ==> |v.rcv.value.buf| < nbuf)
  {
    var h := nbuf / 2;
    if v.joined {
      KeepArrive(h, v);
      if v.fwd[0].Data? { RoomForNext(h, v); }
    } else {
      NothingToDiscard(h, v);
      KeepJoin(h, v);
    }
  }

  /** The demultiplexer of peer k can go on: it is not waiting to hand over a new stream. */
  predicate Idle(s: State, k: nat)
    requires k < 2
  {
    s.peers.At(k).waiting <= ACCEPT
  }

  /** A message of a stream opened by the other peer. */
  lemma {:induction false} DemuxStream(nbuf: nat, s: State, k: nat) returns (v: Stream)
    requires Inv(nbuf, s) && nbuf >= 2 && k < 2 && Idle(s, k) && s.wires.At(1 - k) != [] && s.wires.At(1 - k)[0].tag % 2 == 1 - k
    ensures Step(nbuf, s, k, Demux).Some?
    ensures OnlyViewChanges(s, Step(nbuf, s, k, Demux).value, s.wires.At(1 - k)[0].tag, v) && StreamOk(nbuf / 2, v)
    ensures View(s, s.wires.At(1 - k)[0].tag).fwd != []
  {
    var w := s.wires.At(1 - k);
    var m := w[0];
    var u := View(s, m.tag);
    assert StreamOk(nbuf / 2, u);
    HeadOfWire(s, k);
    HandledOk(nbuf, u);
    var s1 := s.(wires := s.wires.Set(1 - k, w[1..]));
    var u1 := View(s1, m.tag);
    assert u1 == u.(fwd := u.fwd[1..]) && m.kind == u.fwd[0];
    assert u.joined ==> m.tag !in s1.peers.At(k).outs;
    hide StreamOk, View, OnlyViewChanges;
    if !u.joined {
      JoinView(nbuf, s1, k, m);
    } else if m.kind.Data? {
      DataView(nbuf, s1, k, m);
    } else {
      FinView(nbuf, s1, k, m);
    }
    v := Handled(u);
    OnlyViewAfterPop(s, k, Receive(nbuf, s1, k, m).value, v);
  }

  /** What a grant does to the stream it is for. */
  function Granted(v: Stream): Stream
    requires v.back != []
  {
    if v.open && v.snd.Some? then v.(snd := Some(v.snd.value.(tickets := v.snd.value.tickets + 1)), back := v.back[1..])
    else v.(back := v.back[1..])
  }

  lemma {:induction false} GrantView(nbuf: nat, s: State, k: nat, m: Msg)
    requires k < 2 && m.tag % 2 == k && m.kind == Grant && m.tag in s.peers.At(k).outs
    ensures var v, r := View(s, m.tag), Receive(nbuf, s, k, m);
            r.Some? && OnlyViewChanges(s, r.value, m.tag,
              if v.open then v.(snd := Some(v.snd.value.(tickets := v.snd.value.tickets + 1))) else v)
  {
    if m.tag in s.peers.At(k).live {
      SetOutView(s, k, m.tag, s.peers.At(k).outs[m.tag].(tickets := s.peers.At(k).outs[m.tag].tickets + 1));
    }
  }

  /** Grants that arrive are for streams that were opened, and keep them in order. */
  lemma {:induction false} GrantFound(nbuf: nat, s: State, k: nat, m: Msg, rest: seq<Kind>)
    requires Inv(nbuf, s) && k < 2 && m.tag % 2 == k && View(s, m.tag).back == [m.kind] + rest
    ensures m.kind == Grant && m.tag in s.peers.At(k).outs && View(s, m.tag).snd.Some?
    ensures StreamOk(nbuf / 2, Granted(View(s, m.tag)))
  {
    var u := View(s, m.tag);
    assert StreamOk(nbuf / 2, u);
    assert u.snd.Some? && u.back != [];
    KeepGrantArrive(nbuf / 2, u);
    hide StreamOk, Inv;
  }

  /** A grant for a stream this peer opened. */
  lemma {:induction false} DemuxGrant(nbuf: nat, s: State, k: nat) returns (v: Stream)
    requires Inv(nbuf, s) && k < 2 && Idle(s, k) && s.wires.At(1 - k) != [] && s.wires.At(1 - k)[0].tag % 2 == k
    ensures Step(nbuf, s, k, Demux).Some?
    ensures OnlyViewChanges(s, Step(nbuf, s, k, Demux).value, s.wires.At(1 - k)[0].tag, v) && StreamOk(nbuf / 2, v)
    ensures View(s, s.wires.At(1 - k)[0].tag).back != []
  {
    hide StreamOk, View, OnlyViewChanges, Inv;
    var w := s.wires.At(1 - k);
    var m := w[0];
    var s1 := s.(wires := s.wires.Set(1 - k, w[1..]));
    var u := View(s, m.tag);
    HeadOfWire(s, k);
    GrantFound(nbuf, s, k, m, View(s1, m.tag).back);
    GrantView(nbuf, s1, k, m);
    v := Granted(u);
    OnlyViewAfterPop(s, k, Receive(nbuf, s1, k, m).value, v);
  }

  /** The next message of the wire, whatever stream it is for. */
  lemma {:induction false} DemuxStep(nbuf: nat, s: State, k: nat) returns (v: Stream)
    requires Inv(nbuf, s) && nbuf >= 2 && k < 2 && Idle(s, k) && s.wires.At(1 - k) != []
    ensures Step(nbuf, s, k, Demux).Some?
    ensures OnlyViewChanges(s, Step(nbuf, s, k, Demux).value, s.wires.At(1 - k)[0].tag, v) && StreamOk(nbuf / 2, v)
    ensures var u := View(s, s.wires.At(1 - k)[0].tag); u.fwd != [] || u.back != []
  {
    hide StreamOk, View, OnlyViewChanges, Step, Inv;
    if s.wires.At(1 - k)[0].tag % 2 == k { v := DemuxGrant(nbuf, s, k); } else { v := DemuxStream(nbuf, s, k); }
  }

  /**
    Flow control: in any state that can be reached, the demultiplexer of either peer can
    handle the next message at once, unless it is waiting for its user to accept a new
    stream; no stream that is not read can make it wait.
   */
  lemma {:induction false} DemuxNeverBlocks(nbuf: nat, s: State, k: nat)
    requires Inv(nbuf, s) && nbuf >= 2 && k < 2 && s.wires.At(1 - k) != []
    ensures Step(nbuf, s, k, Demux).Some? <==> s.peers.At(k).waiting <= ACCEPT
  {
    if Idle(s, k) { var v := DemuxStep(nbuf, s, k); }
  }

  lemma StepAccepts(nbuf: nat, s: State, k: nat, a: Action)
    requires AcceptOk(s) && k < 2 && Step(nbuf, s, k, a).Some?
    ensures AcceptOk(Step(nbuf, s, k, a).value)
  {}

  lemma AcceptView(s: State, k: nat)
    requires k < 2 && s.peers.At(k).waiting > 0
    ensures var s' := SetPeer(s, k, s.peers.At(k).(waiting := s.peers.At(k).waiting - 1));
            forall tag: nat :: OnlyViewChanges(s, s', tag, View(s, tag))
  {
    var s' := SetPeer(s, k, s.peers.At(k).(waiting := s.peers.At(k).waiting - 1));
    forall tag: nat ensures View(s', tag) == View(s, tag) {}
  }

  /** A step is about one tag, if any, and leaves the stream of that tag in order. */
  lemma {:induction false} StepView(nbuf: nat, s: State, k: nat, a: Action) returns (t: nat, v: Stream)
    requires Inv(nbuf, s) && nbuf >= 2 && k < 2 && Step(nbuf, s, k, a).Some? && (a == Open ==> FreshTag(s, k))
    ensures OnlyViewChanges(s, Step(nbuf, s, k, a).value, t, v) && StreamOk(nbuf / 2, v)
    ensures a == Open ==> t == NextTag(s.peers.At(k).tag)
    ensures a == Demux ==> View(s, t).fwd != [] || View(s, t).back != []
    ensures a == Accept ==> v == View(s, t)
    ensures a != Open && a != Demux && a != Accept ==> t == a.tag
  {
    if a == Open {
      t := NextTag(s.peers.At(k).tag);
      v := OpenStep(nbuf, s, k);
    } else if a == Demux {
      t := s.wires.At(1 - k)[0].tag;
      v := DemuxStep(nbuf, s, k);
    } else if a == Accept {
      AcceptView(s, k);
      t, v := 0, View(s, 0);
      assert StreamOk(nbuf / 2, v);
    } else if a.PickUp? || a.Deliver? || a.GrantFlow? || a.Hangup? {
      t := a.tag;
      v := InStep(nbuf, s, k, a);
    } else if a.Write? || a.End? {
      t := a.tag;
      v := WriteStep(nbuf, s, k, a);
    } else {
      t := a.tag;
      v := SenderStep(nbuf, s, k, a);
    }
  }

  lemma {:induction false} StepKeeps(nbuf: nat, s: State, k: nat, a: Action)
    requires Inv(nbuf, s) && nbuf >= 2 && k < 2 && Step(nbuf, s, k, a).Some? && (a == Open ==> FreshTag(s, k))
    ensures Inv(nbuf, Step(nbuf, s, k, a).value)
  {
    assert AcceptOk(s);
    hide StreamOk, View, OnlyViewChanges, Step, Inv, AcceptOk;
    var t, v := StepView(nbuf, s, k, a);
    StepAccepts(nbuf, s, k, a);
    ViewChangeKeeps(nbuf, s, Step(nbuf, s, k, a).value, t, v);
  }

  // ----- runs -----

  /** Who does what. */
  datatype Move = Move(who: nat, a: Action)

  /** s' is reached from s by the moves, no stream being opened on a tag still in use. */
  ghost predicate Runs(nbuf: nat, s: State, moves: seq<Move>, s': State)
    decreases moves
  {
    if moves == [] then s' == s
    else
      var m := moves[0];
      && m.who < 2 && (m.a == Open ==> FreshTag(s, m.who))
      && Step(nbuf, s, m.who, m.a).Some?
      && Runs(nbuf, Step(nbuf, s, m.who, m.a).value, moves[1..], s')
  }

  lemma {:induction false} InitOk(nbuf: nat)
    ensures Inv(nbuf, Init())
  {
    forall tag: nat ensures StreamOk(nbuf / 2, View(Init(), tag)) {
      assert View(Init(), tag) == CLOSED_STREAM;
    }
  }

  lemma {:induction false} RunKeeps(nbuf: nat, s: State, moves: seq<Move>, s': State)
    requires nbuf >= 2 && Inv(nbuf, s) && Runs(nbuf, s, moves, s')
    ensures Inv(nbuf, s')
    decreases moves
  {
    if moves != [] {
      StepKeeps(nbuf, s, moves[0].who, moves[0].a);
      RunKeeps(nbuf, Step(nbuf, s, moves[0].who, moves[0].a).value, moves[1..], s');
    }
  }

  /** Every state a run leads to is in order. */
  lemma {:induction false} Reachable(nbuf: nat, moves: seq<Move>, s: State)
    requires nbuf >= 2 && Runs(nbuf, Init(), moves, s)
    ensures Inv(nbuf, s)
  {
    InitOk(nbuf);
    RunKeeps(nbuf, Init(), moves, s);
  }

  // ----- what holds in every run -----

  /**
    Flow control. In every run no buffer ever holds more than nbuf messages, no sender is
    allowed more than half of it, and a demultiplexer waits for nothing but a user that does
    not accept new streams.
   */
  lemma {:induction false} FlowControl(nbuf: nat, moves: seq<Move>, s: State)
    requires nbuf >= 2 && Runs(nbuf, Init(), moves, s)
    ensures forall k, t | 0 <= k < 2 && t in s.peers.At(k).ins :: |s.peers.At(k).ins[t].buf| <= nbuf
    ensures forall k, t | 0 <= k < 2 && t in s.peers.At(k).outs :: s.peers.At(k).outs[t].nmsgs <= nbuf / 2
    ensures forall k | 0 <= k < 2 && s.wires.At(1 - k) != [] ::
              Step(nbuf, s, k, Demux).Some? <==> s.peers.At(k).waiting <= ACCEPT
  {
    Reachable(nbuf, moves, s);
    forall k, t | 0 <= k < 2 && t in s.peers.At(k).ins ensures |s.peers.At(k).ins[t].buf| <= nbuf {
      Sides(nbuf, s, k, t);
      BufferBound(nbuf / 2, View(s, t));
    }
    forall k, t | 0 <= k < 2 && t in s.peers.At(k).outs ensures s.peers.At(k).outs[t].nmsgs <= nbuf / 2 {
      Sides(nbuf, s, k, t);
      assert StreamOk(nbuf / 2, View(s, t));
    }
    forall k | 0 <= k < 2 && s.wires.At(1 - k) != []
      ensures Step(nbuf, s, k, Demux).Some? <==> s.peers.At(k).waiting <= ACCEPT
    {
      DemuxNeverBlocks(nbuf, s, k);
    }
  }

  lemma {:induction false} BufferBound(h: nat, v: Stream)
    requires StreamOk(h, v) && v.rcv.Some? && v.snd.Some? && h > 0
    ensures |v.rcv.value.buf| <= 2 * h
  {
    var r := v.rcv.value;
    assert |Arrived(r)| >= |r.buf|;
    if v.snd.value.sent != [] { InFlightBound(h, v); }
  }

  /**
    Delivery. In every run the user of a peer gets what the other's user wrote to a stream of
    that very tag: a prefix of the messages that can be sent at all, in order and none twice,
    and all of them by the time it sees the end, if there was any.
   */
  lemma {:induction false} Delivery(nbuf: nat, moves: seq<Move>, s: State, k: nat, t: nat)
    requires nbuf >= 2 && Runs(nbuf, Init(), moves, s) && k < 2 && t in s.peers.At(k).ins
    ensures t in s.peers.At(1 - k).outs && t !in s.peers.At(k).outs
    ensures var x, r := s.peers.At(1 - k).outs[t], s.peers.At(k).ins[t];
            Writables(x.asked) != [] ==>
              r.got <= x.sent <= Writables(x.asked) && (r.ended ==> x.at == Ended && r.got == Writables(x.asked))
  {
    Reachable(nbuf, moves, s);
    Sides(nbuf, s, k, t);
    assert StreamOk(nbuf / 2, View(s, t));
    if Writables(View(s, t).snd.value.asked) != [] { DeliveredInOrder(nbuf / 2, View(s, t)); }
  }

  /**
    A stream closed before anything could be sent is the exception: its reader gets one
    message the writer never wrote, and never sees the end.
   */
  lemma {:induction false} EmptyDelivery(nbuf: nat, moves: seq<Move>, s: State, k: nat, t: nat)
    requires nbuf >= 2 && Runs(nbuf, Init(), moves, s) && k < 2 && t in s.peers.At(k).ins
    ensures t in s.peers.At(1 - k).outs
    ensures var r := s.peers.At(k).ins[t];
            Writables(s.peers.At(1 - k).outs[t].asked) == [] ==> !r.ended && t in s.peers.At(k).live && Arrived(r) == [Blank]
  {
    Reachable(nbuf, moves, s);
    Sides(nbuf, s, k, t);
    assert StreamOk(nbuf / 2, View(s, t));
    if Writables(View(s, t).snd.value.asked) == [] { EmptyStreamNeverEnds(nbuf / 2, View(s, t)); }
  }

  /**
    Progress. A sender that waits for a ticket has one coming, or messages not delivered yet,
    or a grant about to be sent, unless more than half a buffer of its messages was
    discarded; then, once all it sent is delivered, nothing under way can end its wait.
   */
  lemma {:induction false} Progress(nbuf: nat, moves: seq<Move>, s: State, k: nat, t: nat)
    requires nbuf >= 2 && Runs(nbuf, Init(), moves, s) && k < 2 && t in s.peers.At(k).outs
    requires NeedsTicket(s.peers.At(k).outs[t]) && s.peers.At(k).outs[t].tickets == 0
    ensures t % 2 == k
    ensures Stalled(nbuf / 2, View(s, t))
       <==> View(s, t).back == [] && Undelivered(View(s, t)) == 0 && s.peers.At(k).outs[t].discards > nbuf / 2
  {
    Reachable(nbuf, moves, s);
    Sides(nbuf, s, k, t);
    assert StreamOk(nbuf / 2, View(s, t));
    StallsIffDiscards(nbuf / 2, View(s, t));
  }

  // ----- a stream that is stalled stays so -----

  /** What a user may still do to a stream that is stalled does not end its wait. */
  lemma StalledUser(h: nat, v: Stream, x: Sender)
    requires Stalled(h, v) && UserOnly(v.snd.value, x)
    ensures Stalled(h, v.(snd := Some(x)))
  {}

  /** Neither the process that sends nor the one that reads can do anything for a stream that is stalled. */
  lemma {:induction false} NothingToDo(nbuf: nat, s: State, k: nat, a: Action, t: nat)
    requires Inv(nbuf, s) && k < 2 && Stalled(nbuf / 2, View(s, t))
    requires a == Ticket(t) || a == Take(t) || a == Write(t) || a == End(t)
          || a == PickUp(t) || a == Deliver(t) || a == GrantFlow(t) || a == Hangup(t)
    ensures Step(nbuf, s, k, a).None?
  {
    Sides(nbuf, s, k, t);
    assert StreamOk(nbuf / 2, View(s, t));
    hide View, StreamOk;
  }

  lemma {:induction false} StalledStep(nbuf: nat, s: State, k: nat, a: Action, t: nat)
    requires Inv(nbuf, s) && nbuf >= 2 && k < 2 && Step(nbuf, s, k, a).Some? && (a == Open ==> FreshTag(s, k))
    requires Stalled(nbuf / 2, View(s, t))
    ensures Stalled(nbuf / 2, View(Step(nbuf, s, k, a).value, t))
  {
    var t', v := StepView(nbuf, s, k, a);
    var s' := Step(nbuf, s, k, a).value;
    if t' == t && a != Accept {
      assert a != Open;
      assert a != Demux;
      if !(a.Send? || a.Close?) { NothingToDo(nbuf, s, k, a, t); assert false; }
      var v' := SenderStep(nbuf, s, k, a);
      StalledUser(nbuf / 2, View(s, t), v'.snd.value);
    }
  }

  /** Whatever both peers and their users do, a stream that is stalled is stalled for good. */
  lemma {:induction false} StalledStays(nbuf: nat, s: State, t: nat, moves: seq<Move>, s': State)
    requires Inv(nbuf, s) && nbuf >= 2 && Stalled(nbuf / 2, View(s, t)) && Runs(nbuf, s, moves, s')
    ensures Stalled(nbuf / 2, View(s', t))
    decreases moves
  {
    if moves != [] {
      var m := moves[0];
      hide View, Stalled, Inv, Step;
      StepKeeps(nbuf, s, m.who, m.a);
      StalledStep(nbuf, s, m.who, m.a, t);
      StalledStays(nbuf, Step(nbuf, s, m.who, m.a).value, t, moves[1..], s');
    }
  }

  // ----- a run that stalls -----

  lemma RunCons(nbuf: nat, s: State, m: Move, s1: State, rest: seq<Move>, s': State)
    requires m.who < 2 && (m.a == Open ==> FreshTag(s, m.who)) && Step(nbuf, s, m.who, m.a) == Some(s1)
    requires Runs(nbuf, s1, rest, s')
    ensures Runs(nbuf, s, [m] + rest, s')
  {
    assert ([m] + rest)[1..] == rest;
  }

  /** The state where peer 0 has one stream and nothing was sent. */
  function Alone(x: Sender): State
  {
    State(Both(Peer(2, {2}, map[2 := x], map[], 0), Peer(1, {}, map[], map[], 0)), Both([], []))
  }

  /** What the user or the process of that stream can do next, without writing to the wire. */
  predicate Local(nbuf: nat, x: Sender, a: Action, y: Sender)
  {
    || (a.Send? && a.tag == 2 && !x.closed && |x.queue| < nbuf && y == Ask(x, a.d))
    || (a == Take(2) && TakeMessage(x) == Some(y))
    || (a == Ticket(2) && TakeTicket(nbuf / 2, x) == Some(y))
    || (a == Write(2) && WriteMessage(x) == Some((y, [])))
  }

  lemma {:induction false} AloneStep(nbuf: nat, x: Sender, a: Action, y: Sender, rest: seq<Move>, s': State)
    requires Local(nbuf, x, a, y) && Runs(nbuf, Alone(y), rest, s')
    ensures Runs(nbuf, Alone(x), [Move(0, a)] + rest, s')
  {
    assert map[2 := x][2 := y] == map[2 := y];
    assert SetOut(Alone(x), 0, 2, y) == Alone(y);
    PutNothing(Alone(y), 0, 2);
    RunCons(nbuf, Alone(x), Move(0, a), Alone(y), rest, s');
  }

  const UNWRITABLE := Item(0, false)

  /** The process once its user wrote a message and it took it. */
  function Taken(x: Sender): Sender
  {
    x.(at := Holding(UNWRITABLE), asked := x.asked + [UNWRITABLE])
  }

  lemma {:induction false} AloneTakes(nbuf: nat, x: Sender, rest: seq<Move>, s: State) returns (moves: seq<Move>)
    requires nbuf >= 2 && x.at == Ready && x.queue == [] && !x.closed && Runs(nbuf, Alone(Taken(x)), rest, s)
    ensures Runs(nbuf, Alone(x), moves, s)
  {
    var x1 := Ask(x, UNWRITABLE);
    assert x1.queue == [UNWRITABLE] && x1.queue[1..] == x.queue;
    assert Local(nbuf, x1, Take(2), Taken(x)) && Local(nbuf, x, Send(2, UNWRITABLE), x1);
    hide *;
    AloneStep(nbuf, x1, Take(2), Taken(x), rest, s);
    AloneStep(nbuf, x, Send(2, UNWRITABLE), x1, [Move(0, Take(2))] + rest, s);
    moves := [Move(0, Send(2, UNWRITABLE))] + ([Move(0, Take(2))] + rest);
  }

  lemma {:induction false} AloneTickets(nbuf: nat, x: Sender, rest: seq<Move>, s: State) returns (moves: seq<Move>)
    requires TakeTicket(nbuf / 2, x).Some? && Runs(nbuf, Alone(TakeTicket(nbuf / 2, x).value), rest, s)
    ensures Runs(nbuf, Alone(x), moves, s)
  {
    AloneStep(nbuf, x, Ticket(2), TakeTicket(nbuf / 2, x).value, rest, s);
    moves := [Move(0, Ticket(2))] + rest;
  }

  /** The process once it discarded the message it held. */
  function Dropped(x: Sender): Sender
    requires x.nmsgs > 0
  {
    x.(at := Ready, nmsgs := x.nmsgs - 1, discards := x.discards + 1)
  }

  lemma {:induction false} AloneDrops(nbuf: nat, x: Sender, rest: seq<Move>, s: State) returns (moves: seq<Move>)
    requires x.at == Holding(UNWRITABLE) && x.nmsgs > 0 && Runs(nbuf, Alone(Dropped(x)), rest, s)
    ensures Runs(nbuf, Alone(x), moves, s)
  {
    AloneStep(nbuf, x, Write(2), Dropped(x), rest, s);
    moves := [Move(0, Write(2))] + rest;
  }

  /** The process once it took and discarded n messages. */
  function Wasted(x: Sender, n: nat): Sender
    requires x.nmsgs >= n
    decreases n
  {
    if n == 0 then x else Wasted(Dropped(Taken(x)), n - 1)
  }

  lemma {:induction false} WastedIs(x: Sender, n: nat)
    requires x.at == Ready && x.nmsgs >= n
    ensures var y := Wasted(x, n);
            && y == x.(nmsgs := x.nmsgs - n, discards := x.discards + n, asked := y.asked)
    decreases n
  {
    if n > 0 { WastedIs(Dropped(Taken(x)), n - 1); }
  }

  lemma {:induction false} AloneWastes(nbuf: nat, x: Sender, n: nat, rest: seq<Move>, s: State) returns (moves: seq<Move>)
    requires nbuf >= 2 && x.at == Ready && x.queue == [] && !x.closed && x.nmsgs >= n
    requires Runs(nbuf, Alone(Wasted(x, n)), rest, s)
    ensures Runs(nbuf, Alone(x), moves, s)
    decreases n
  {
    if n == 0 {
      moves := rest;
    } else {
      hide Runs, Alone;
      moves := AloneWastes(nbuf, Dropped(Taken(x)), n - 1, rest, s);
      moves := AloneDrops(nbuf, Taken(x), moves, s);
      moves := AloneTakes(nbuf, x, moves, s);
    }
  }

  lemma {:induction false} AloneStalls(h: nat, x: Sender)
    requires NeedsTicket(x) && x.tickets == 0
    ensures Stalled(h, View(Alone(x), 2))
  {}

  /** With one ticket left and no turns, a whole ticket of discarded messages is enough. */
  lemma {:induction false} SpendsLast(nbuf: nat, x: Sender) returns (moves: seq<Move>, s: State)
    requires nbuf >= 2 && x.at == Ready && x.nmsgs == 0 && x.tickets == 1 && x.queue == [] && !x.closed
    ensures Runs(nbuf, Alone(x), moves, s) && Stalled(nbuf / 2, View(s, 2))
  {
    var h := nbuf / 2;
    var x1 := TakeTicket(h, Taken(x)).value;
    var x2 := Dropped(x1);
    WastedIs(x2, h - 1);
    var x3 := Taken(Wasted(x2, h - 1));
    s := Alone(x3);
    AloneStalls(h, x3);
    assert Runs(nbuf, s, [], s);
    hide Runs, Alone, Wasted, Stalled, View;
    moves := AloneTakes(nbuf, Wasted(x2, h - 1), [], s);
    moves := AloneWastes(nbuf, x2, h - 1, moves, s);
    moves := AloneDrops(nbuf, x1, moves, s);
    moves := AloneTickets(nbuf, Taken(x), moves, s);
    moves := AloneTakes(nbuf, x, moves, s);
  }

  lemma {:induction false} SpendsTickets(nbuf: nat) returns (moves: seq<Move>, s: State)
    requires nbuf >= 2
    ensures Runs(nbuf, Alone(NEW_SENDER), moves, s) && Stalled(nbuf / 2, View(s, 2))
  {
    var h := nbuf / 2;
    var x1 := TakeTicket(h, NEW_SENDER).value;
    WastedIs(x1, h);
    hide Runs, Alone, Wasted, Stalled, View;
    moves, s := SpendsLast(nbuf, Wasted(x1, h));
    moves := AloneWastes(nbuf, x1, h, moves, s);
    moves := AloneTickets(nbuf, NEW_SENDER, moves, s);
  }

  lemma {:induction false} AloneOpens(nbuf: nat, rest: seq<Move>, s: State) returns (moves: seq<Move>)
    requires Runs(nbuf, Alone(NEW_SENDER), rest, s)
    ensures Runs(nbuf, Init(), moves, s)
  {
    var none: map<nat, Sender> := map[];
    assert none[2 := NEW_SENDER] == map[2 := NEW_SENDER];
    assert NextTag(0) == 2 && {} + {2} == {2};
    assert OpenStream(Init(), 0) == Alone(NEW_SENDER);
    assert FreshTag(Init(), 0);
    RunCons(nbuf, Init(), Move(0, Open), Alone(NEW_SENDER), rest, s);
    moves := [Move(0, Open)] + rest;
  }

  /**
    Whatever the size of the buffer, two tickets of discarded messages stall the next message,
    and nothing that may follow ever sends it.
   */
  lemma {:induction false} DiscardsStall(nbuf: nat) returns (moves: seq<Move>, s: State)
    requires nbuf >= 2
    ensures Runs(nbuf, Init(), moves, s) && Stalled(nbuf / 2, View(s, 2))
    ensures forall more, s' | Runs(nbuf, s, more, s') :: Stalled(nbuf / 2, View(s', 2))
  {
    hide Runs, Stalled, View;
    moves, s := SpendsTickets(nbuf);
    moves := AloneOpens(nbuf, moves, s);
    Reachable(nbuf, moves, s);
    forall more, s' | Runs(nbuf, s, more, s') ensures Stalled(nbuf / 2, View(s', 2)) {
      StalledStays(nbuf, s, 2, more, s');
    }
  }

  // ----- tags are fresh for a whole period -----

  function Opens(moves: seq<Move>, k: nat): nat
  {
    if moves == [] then 0 else Opens(moves[1..], k) + if moves[0] == Move(k, Open) then 1 else 0
  }

  /** The steps alone, whatever tags are used. */
  ghost predicate Moves(nbuf: nat, s: State, moves: seq<Move>, s': State)
    decreases moves
  {
    if moves == [] then s' == s
    else
      var m := moves[0];
      m.who < 2 && Step(nbuf, s, m.who, m.a).Some? && Moves(nbuf, Step(nbuf, s, m.who, m.a).value, moves[1..], s')
  }

  /** The first n tags of peer k, and no other, may be in use. */
  ghost predicate UsedTags(s: State, k: nat, n: nat)
    requires k < 2
  {
    s.peers.At(k).tag == k + 2 * n && forall t | t in s.peers.At(k).outs :: t <= s.peers.At(k).tag
  }

  lemma {:induction false} StepUses(nbuf: nat, s: State, k: nat, a: Action, j: nat, n: nat)
    requires k < 2 && j < 2 && Step(nbuf, s, k, a).Some? && UsedTags(s, j, n) && n < TAG_PERIOD
    ensures UsedTags(Step(nbuf, s, k, a).value, j, if k == j && a == Open then n + 1 else n)
  {}

  lemma {:induction false} StepUsesNoTag(nbuf: nat, s: State, k: nat, a: Action, j: nat, n: nat)
    requires k < 2 && j < 2 && Step(nbuf, s, k, a).Some? && UsedTags(s, j, n) && !(k == j && a == Open)
    ensures UsedTags(Step(nbuf, s, k, a).value, j, n)
  {}

  lemma {:induction false} FreshAhead(s: State, k: nat, n: nat)
    requires k < 2 && UsedTags(s, k, n) && n < TAG_PERIOD
    ensures FreshTag(s, k)
  {
    assert NextTag(s.peers.At(k).tag) == k + 2 * n + 2;
  }

  /** As long as each side opens no more streams than there are tags, no tag is reused. */
  lemma {:induction false} NoReuse(nbuf: nat, s: State, moves: seq<Move>, s': State, n0: nat, n1: nat)
    requires Moves(nbuf, s, moves, s') && UsedTags(s, 0, n0) && UsedTags(s, 1, n1)
    requires n0 + Opens(moves, 0) <= TAG_PERIOD && n1 + Opens(moves, 1) <= TAG_PERIOD
    ensures Runs(nbuf, s, moves, s')
    decreases moves
  {
    if moves != [] {
      var m := moves[0];
      var s1 := Step(nbuf, s, m.who, m.a).value;
      if m.a == Open {
        FreshAhead(s, m.who, if m.who == 0 then n0 else n1);
        if m.who == 0 {
          StepUses(nbuf, s, 0, Open, 0, n0);
          StepUsesNoTag(nbuf, s, 0, Open, 1, n1);
          NoReuse(nbuf, s1, moves[1..], s', n0 + 1, n1);
        } else {
          StepUses(nbuf, s, 1, Open, 1, n1);
          StepUsesNoTag(nbuf, s, 1, Open, 0, n0);
          NoReuse(nbuf, s1, moves[1..], s', n0, n1 + 1);
        }
      } else {
        StepUsesNoTag(nbuf, s, m.who, m.a, 0, n0);
        StepUsesNoTag(nbuf, s, m.who, m.a, 1, n1);
        NoReuse(nbuf, s1, moves[1..], s', n0, n1);
      }
    }
  }

  /** Hence any moves at all are a run, up to the first repeated tag. */
  lemma {:induction false} MovesAreRuns(nbuf: nat, moves: seq<Move>, s: State)
    requires Moves(nbuf, Init(), moves, s) && Opens(moves, 0) <= TAG_PERIOD && Opens(moves, 1) <= TAG_PERIOD
    ensures Runs(nbuf, Init(), moves, s)
  {
    assert UsedTags(Init(), 0, 0) && UsedTags(Init(), 1, 0);
    NoReuse(nbuf, Init(), moves, s, 0, 0);
  }
}
