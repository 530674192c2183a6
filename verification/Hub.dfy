/** The live stream hub: one event loop over connections, subscriptions and the bounded,
    closable send channel of each connection. */
module Hub {
  import Collections

  type Conn = int
  type Message = string

  /** Capacity of a send channel. */
  const CAPACITY: nat := 256

  /** A send channel. `received` is what writePump has taken from it so far. */
  datatype Chan = Chan(open: bool, buffer: seq<Message>, received: seq<Message>) {
    /** Everything ever sent on the channel, in order. */
    function Sent(): seq<Message> { received + buffer }

    predicate HasRoom() { |buffer| < CAPACITY }
  }

  datatype State = State(connections: set<Conn>, streams: map<string, set<Conn>>, chans: map<Conn, Chan>)

  datatype Event =
    | Register(conn: Conn)                              // a new connection with a new channel
    | Unregister(conn: Conn)
    | Subscription(name: string, conn: Conn, remove: bool)
    | Publish(stream: string, message: Message)
    | Take(conn: Conn)                                  // writePump receives from the channel

  function Subscribers(s: State, stream: string): set<Conn> {
    if stream in s.streams then s.streams[stream] else {}
  }

  /** The connected subscribers whose channel has room, and those whose channel is full. */
  function Reached(s: State, stream: string): set<Conn> {
    set c | c in Subscribers(s, stream) && c in s.connections && c in s.chans && s.chans[c].HasRoom()
  }

  function Evicted(s: State, stream: string): set<Conn> {
    set c | c in Subscribers(s, stream) && c in s.connections && c in s.chans && !s.chans[c].HasRoom()
  }

  /** Every connection registers once, with a channel of its own, before anything else is
      heard from it. */
  predicate Enabled(s: State, e: Event) {
    match e
    case Register(c) => c !in s.chans
    case Unregister(c) => c in s.chans
    case Subscription(_, c, _) => c in s.chans
    case Publish(_, _) => true
    case Take(c) => c in s.chans && s.chans[c].buffer != []
  }

  function Closed(ch: Chan): Chan { ch.(open := false) }

  /** The channel of c after a delivery. */
  function Delivered(s: State, stream: string, m: Message, c: Conn): Chan
    requires c in s.chans
  {
    if c in Reached(s, stream) then s.chans[c].(buffer := s.chans[c].buffer + [m])
    else if c in Evicted(s, stream) then Closed(s.chans[c])
    else s.chans[c]
  }

  function Step(s: State, e: Event): State
    requires Enabled(s, e)
  {
    match e
    case Register(c) => s.(connections := s.connections + {c}, chans := s.chans[c := Chan(true, [], [])])
    case Unregister(c) =>
      if c in s.connections then s.(connections := s.connections - {c}, chans := s.chans[c := Closed(s.chans[c])])
        else s
    case Subscription(name, c, remove) =>
      if name in s.streams && remove then s.(streams := s.streams[name := s.streams[name] - {c}])
      else s.(streams := s.streams[name := Subscribers(s, name) + {c}])
    case Publish(stream, m) =>
      if Subscribers(s, stream) == {} then s
      else
        State(s.connections - Evicted(s, stream),
              s.streams[stream := Reached(s, stream)],
              map c | c in s.chans :: Delivered(s, stream, m, c))
    case Take(c) =>
      var ch := s.chans[c];
      s.(chans := s.chans[c := ch.(buffer := ch.buffer[1..], received := ch.received + [ch.buffer[0]])])
  }

  /** The event closes a closed channel or sends on one. */
  predicate Panics(s: State, e: Event) {
    match e
    case Unregister(c) => c in s.connections && c in s.chans && !s.chans[c].open
    case Publish(stream, _) => exists c ::
      c in Subscribers(s, stream) && c in s.connections && c in s.chans && !s.chans[c].open
    case _ => false
  }

  /** The listed connections are exactly those with an open channel. */
  ghost predicate Invariant(s: State) {
    && s.connections <= s.chans.Keys
    && (forall c :: c in s.chans ==> (s.chans[c].open <==> c in s.connections) && |s.chans[c].buffer| <= CAPACITY)
    && (forall name :: name in s.streams ==> s.streams[name] <= s.chans.Keys)
  }

  const INITIAL: State := State({}, map[], map[])

  ghost predicate IsRun(states: seq<State>, events: seq<Event>) {
    && |states| == |events| + 1 && states[0] == INITIAL
    && forall i :: 0 <= i < |events| ==> Enabled(states[i], events[i]) && states[i + 1] == Step(states[i], events[i])
  }

  lemma StepKeepsInvariant(s: State, e: Event)
    requires Invariant(s) && Enabled(s, e)
    ensures Invariant(Step(s, e)) && !Panics(s, e)
    ensures forall c :: c in s.chans ==> c in Step(s, e).chans
  {
  }

  /** On every run no channel is closed twice or sent to after closing, and the listed
      connections are exactly those with an open channel. */
  lemma {:induction false} NeverPanics(states: seq<State>, events: seq<Event>, i: nat)
    requires IsRun(states, events) && i < |states|
    ensures Invariant(states[i])
    ensures i < |events| ==> !Panics(states[i], events[i])
  {
    if i > 0 {
      NeverPanics(states, events, i - 1);
      StepKeepsInvariant(states[i - 1], events[i - 1]);
      assert states[i - 1 + 1] == Step(states[i - 1], events[i - 1]);
    }
    if i < |events| {
      StepKeepsInvariant(states[i], events[i]);
    }
  }

  /** What event i sends to connection c: its message, if c is connected, subscribed and has
      room at that moment. */
  function SentBy(s: State, e: Event, c: Conn): seq<Message> {
    if e.Publish? && c in Reached(s, e.stream) then [e.message] else []
  }

  function AllSentBy(states: seq<State>, events: seq<Event>, c: Conn, i: nat): seq<Message>
    requires i <= |events| && |states| == |events| + 1
  {
    if i == 0 then [] else AllSentBy(states, events, c, i - 1) + SentBy(states[i - 1], events[i - 1], c)
  }

  lemma StepSends(s: State, e: Event, c: Conn)
    requires Invariant(s) && Enabled(s, e)
    ensures c in s.chans ==> Step(s, e).chans[c].Sent() == s.chans[c].Sent() + SentBy(s, e, c)
    ensures c !in s.chans ==> SentBy(s, e, c) == [] && (c in Step(s, e).chans ==> Step(s, e).chans[c].Sent() == [])
  {
    if c in s.chans {
      var ch, after := s.chans[c], Step(s, e).chans[c];
      assert ch.Sent() + [] == ch.Sent();
      if e.Take? && e.conn == c {
        assert ch.buffer == [ch.buffer[0]] + ch.buffer[1..];
        assert after.Sent() == ch.received + ([ch.buffer[0]] + ch.buffer[1..]);
      } else if e.Publish? && c in Reached(s, e.stream) {
        assert after.Sent() == ch.received + (ch.buffer + [e.message]);
      }
    }
  }

  /** Exactly-once, in-order delivery: what a connection's channel has carried is, in publish
      order, each message published while it was connected, subscribed and had room. */
  lemma {:induction false} DeliveredExactly(states: seq<State>, events: seq<Event>, c: Conn, i: nat)
    requires IsRun(states, events) && i < |states|
    ensures c in states[i].chans ==> states[i].chans[c].Sent() == AllSentBy(states, events, c, i)
    ensures c !in states[i].chans ==> AllSentBy(states, events, c, i) == []
  {
    if i > 0 {
      DeliveredExactly(states, events, c, i - 1);
      NeverPanics(states, events, i - 1);
      StepSends(states[i - 1], events[i - 1], c);
      StepKeepsInvariant(states[i - 1], events[i - 1]);
      assert states[i - 1 + 1] == Step(states[i - 1], events[i - 1]);
    }
  }

  /** After a delivery the subscribers of the stream are connected, have taken the message and
      were subscribed before; a full one is disconnected and its channel closed. */
  lemma DeliveryLeavesConnected(s: State, stream: string, m: Message)
    requires Invariant(s)
    ensures var t := Step(s, Publish(stream, m));
      && Subscribers(t, stream) == Reached(s, stream) <= t.connections
      && (forall c :: c in Reached(s, stream) ==> t.chans[c].buffer == s.chans[c].buffer + [m])
      && (forall c :: c in Evicted(s, stream) ==> c !in t.connections && !t.chans[c].open)
      && (forall name :: name != stream ==> Subscribers(t, name) == Subscribers(s, name))
  {
  }

  /** A subscription message leaves the connection subscribed, unless it asks for removal from
      a stream that exists: removal from an unknown stream subscribes. Nothing else changes. */
  lemma SubscribedAfter(s: State, name: string, c: Conn, remove: bool)
    requires Invariant(s) && c in s.chans
    ensures var t := Step(s, Subscription(name, c, remove));
      && (c in Subscribers(t, name) <==> !(remove && name in s.streams))
      && (forall d :: d != c ==> (d in Subscribers(t, name) <==> d in Subscribers(s, name)))
      && name in t.streams && (forall other :: other != name ==> Subscribers(t, other) == Subscribers(s, other))
      && t.connections == s.connections && t.chans == s.chans
  {
  }

  /** Once a stream has been named it stays, so from then on removal removes. */
  lemma {:induction false} StreamsStay(states: seq<State>, events: seq<Event>, name: string, i: nat, j: nat)
    requires IsRun(states, events) && i <= j < |states| && name in states[i].streams
    ensures name in states[j].streams
    decreases j
  {
    if i < j {
      StreamsStay(states, events, name, i, j - 1);
      assert states[j - 1 + 1] == Step(states[j - 1], events[j - 1]);
    }
  }

  /** A closed channel stays closed, carries nothing more, and its connection is never listed
      again. */
  lemma {:induction false} ClosedForGood(states: seq<State>, events: seq<Event>, c: Conn, i: nat, j: nat)
    requires IsRun(states, events) && i <= j < |states| && c in states[i].chans && !states[i].chans[c].open
    ensures c in states[j].chans && !states[j].chans[c].open && c !in states[j].connections
    ensures states[j].chans[c].Sent() == states[i].chans[c].Sent()
    decreases j
  {
    NeverPanics(states, events, j);
    if i < j {
      ClosedForGood(states, events, c, i, j - 1);
      NeverPanics(states, events, j - 1);
      StepSends(states[j - 1], events[j - 1], c);
      assert states[j - 1 + 1] == Step(states[j - 1], events[j - 1]);
    }
  }

  // ---------- who is connected

  /** Nothing but connection c and its channel differs. */
  ghost predicate OthersSame(s: State, t: State, c: Conn) {
    && t.streams == s.streams
    && (forall d :: d != c ==> (d in t.connections <==> d in s.connections) && (d in t.chans <==> d in s.chans))
    && (forall d :: d != c && d in s.chans && d in t.chans ==> t.chans[d] == s.chans[d])
  }

  /** Registering lists a connection, with an open and empty channel. */
  lemma RegisterConnects(s: State, c: Conn)
    requires c !in s.chans
    ensures var t := Step(s, Register(c));
      && c in t.connections && c in t.chans && t.chans[c].open
      && t.chans[c].buffer == [] && t.chans[c].received == []
      && OthersSame(s, t, c)
  {
  }

  /** Unregistering takes it off the list and closes its channel; what is in there can still be taken. */
  lemma UnregisterCloses(s: State, c: Conn)
    requires Invariant(s) && c in s.chans
    ensures var t := Step(s, Unregister(c));
      && c !in t.connections && c in t.chans && !t.chans[c].open
      && t.chans[c].buffer == s.chans[c].buffer && t.chans[c].received == s.chans[c].received
      && OthersSame(s, t, c)
  {
  }

  /** Taking moves the oldest message out of a channel. */
  lemma TakeIsInOrder(s: State, c: Conn)
    requires c in s.chans && s.chans[c].buffer != []
    ensures var t := Step(s, Take(c));
      && c in t.chans && t.chans[c].open == s.chans[c].open && (c in t.connections <==> c in s.connections)
      && t.chans[c].received == s.chans[c].received + [s.chans[c].buffer[0]]
      && [s.chans[c].buffer[0]] + t.chans[c].buffer == s.chans[c].buffer
      && OthersSame(s, t, c)
  {
  }

  predicate IsSubscribed(s: State, stream: string, c: Conn) {
    stream in s.streams && c in s.streams[stream]
  }

  /** What a message does to one connection: a listed subscriber with fewer than 256 messages waiting
      gets it, one with 256 is disconnected and closed, and for all others nothing changes but that
      those no longer listed are not subscribed any more. */
  lemma DeliveredTo(s: State, stream: string, m: Message, c: Conn)
    requires Invariant(s) && c in s.chans
    ensures var t := Step(s, Publish(stream, m));
      var listed, subscribed := c in s.connections, IsSubscribed(s, stream, c);
      && c in t.chans && t.chans[c].received == s.chans[c].received
      && (forall name :: name != stream ==> (IsSubscribed(t, name, c) <==> IsSubscribed(s, name, c)))
      && if listed && subscribed && |s.chans[c].buffer| < 256 then
           && c in t.connections && t.chans[c].open && t.chans[c].buffer == s.chans[c].buffer + [m]
           && IsSubscribed(t, stream, c)
         else if listed && subscribed then
           && c !in t.connections && !t.chans[c].open && t.chans[c].buffer == s.chans[c].buffer
           && !IsSubscribed(t, stream, c)
         else
           && (c in t.connections <==> listed) && t.chans[c] == s.chans[c] && !IsSubscribed(t, stream, c)
  {
    var t := Step(s, Publish(stream, m));
    assert Subscribers(s, stream) != {} ==> t.streams[stream] == Reached(s, stream);
  }

  /** The event takes connection c off the list: it unregisters, or a stream it is subscribed to has a
      message when 256 are waiting in its channel. */
  predicate Disconnects(s: State, e: Event, c: Conn) {
    || e == Unregister(c)
    || (e.Publish? && IsSubscribed(s, e.stream, c) && c in s.chans && |s.chans[c].buffer| >= 256)
  }

  /** Connection c has registered before event i, and nothing has disconnected it since. */
  ghost predicate Connected(states: seq<State>, events: seq<Event>, c: Conn, i: nat)
    requires |states| == |events| + 1 && i <= |events|
  {
    exists r :: 0 <= r < i && events[r] == Register(c) &&
      forall k :: r < k < i ==> !Disconnects(states[k], events[k], c)
  }

  lemma ConnectedStep(states: seq<State>, events: seq<Event>, c: Conn, i: nat)
    requires |states| == |events| + 1 && i < |events|
    ensures Connected(states, events, c, i + 1) <==>
            events[i] == Register(c) || (Connected(states, events, c, i) && !Disconnects(states[i], events[i], c))
  {
    hide Disconnects;
    if Connected(states, events, c, i) && !Disconnects(states[i], events[i], c) {
      var r :| 0 <= r < i && events[r] == Register(c) &&
        forall k :: r < k < i ==> !Disconnects(states[k], events[k], c);
      assert forall k :: r < k < i + 1 ==> !Disconnects(states[k], events[k], c);
    }
  }

  lemma ListedStep(s: State, e: Event, c: Conn)
    requires Invariant(s) && Enabled(s, e)
    ensures c in Step(s, e).connections <==> e == Register(c) || (c in s.connections && !Disconnects(s, e, c))
  {
    if e.Publish? && c in s.chans {
      DeliveredTo(s, e.stream, e.message, c);
    }
  }

  /** On every run a connection is listed exactly if it has registered, and has since neither
      unregistered nor been evicted by a message to its full channel. */
  lemma {:induction false} ListedExactly(states: seq<State>, events: seq<Event>, c: Conn, i: nat)
    requires IsRun(states, events) && i < |states|
    ensures c in states[i].connections <==> Connected(states, events, c, i)
  {
    if i > 0 {
      ListedExactly(states, events, c, i - 1);
      NeverPanics(states, events, i - 1);
      ConnectedStep(states, events, c, i - 1);
      ListedStep(states[i - 1], events[i - 1], c);
      assert states[i - 1 + 1] == Step(states[i - 1], events[i - 1]);
    }
  }

  // ---------- the event loop

  class EventLoop {
    var connections: set<Conn>
    var streams: map<string, set<Conn>>
    var chans: map<Conn, Chan>

    ghost function View(): State
      reads this
    {
      State(connections, streams, chans)
    }

    constructor ()
      ensures View() == INITIAL && Invariant(View())
    {
      connections, streams, chans := {}, map[], map[];
    }

    /** close(c.send): panics on a closed channel. */
    method CloseChannel(c: Conn)
      requires c in chans && chans[c].open
      modifies this`chans
      ensures chans == old(chans)[c := Closed(old(chans)[c])]
    {
      chans := chans[c := Closed(chans[c])];
    }

    /** The non-blocking send: panics on a closed channel, fails on a full one. */
    method TrySend(c: Conn, m: Message) returns (sent: bool)
      requires c in chans && chans[c].open
      modifies this`chans
      ensures sent == old(chans)[c].HasRoom()
      ensures chans == if sent then old(chans)[c := old(chans)[c].(buffer := old(chans)[c].buffer + [m])]
        else old(chans)
    {
      sent := chans[c].HasRoom();
      if sent {
        chans := chans[c := chans[c].(buffer := chans[c].buffer + [m])];
      }
    }

    method Handle(e: Event)
      requires Invariant(View()) && Enabled(View(), e)
      modifies this
      ensures Invariant(View()) && View() == Step(old(View()), e)
    {
      StepKeepsInvariant(View(), e);
      match e {
        case Register(c) =>
          chans := chans[c := Chan(true, [], [])];
          connections := connections + {c};
        case Unregister(c) =>
          if c in connections {
            connections := connections - {c};
            CloseChannel(c);
          }
        case Subscription(name, c, remove) =>
          var exists_ := name in streams;
          if exists_ && remove {
            streams := streams[name := streams[name] - {c}];
          } else {
            if !exists_ {
              streams := streams[name := {}];
            }
            streams := streams[name := streams[name] + {c}];
          }
        case Publish(stream, m) =>
          Deliver(stream, m);
        case Take(c) =>
          var ch := chans[c];
          chans := chans[c := ch.(buffer := ch.buffer[1..], received := ch.received + [ch.buffer[0]])];
      }
    }

    /** The loop over the subscribers of a stream, in whatever order the map yields them. */
    method Deliver(stream: string, m: Message)
      requires Invariant(View())
      modifies this
      ensures View() == Step(old(View()), Publish(stream, m))
    {
      if stream !in streams || streams[stream] == {} {
        return;
      }
      ghost var s := View();
      var rest := streams[stream];
      while rest != {}
        invariant stream in streams && rest <= s.streams[stream]
        invariant forall c :: c in connections <==> c in s.connections && (c in rest || c !in Evicted(s, stream))
        invariant streams == s.streams[stream := streams[stream]]
        invariant forall c :: c in streams[stream] <==> c in rest || c in Reached(s, stream)
        invariant chans.Keys == s.chans.Keys
        invariant forall c :: c in chans ==> chans[c] == if c in rest then s.chans[c] else Delivered(s, stream, m, c)
        decreases rest
      {
        var sub := Collections.Pick(rest);
        rest := rest - {sub};
        if sub !in connections {
          streams := streams[stream := streams[stream] - {sub}];
        } else {
          var sent := TrySend(sub, m);
          if !sent {
            CloseChannel(sub);
            connections := connections - {sub};
            streams := streams[stream := streams[stream] - {sub}];
          }
        }
      }
      assert rest == {};
      assert forall c :: c in streams[stream] <==> c in Reached(s, stream);
      assert streams[stream] == Reached(s, stream);
      assert forall c :: c in connections <==> c in s.connections - Evicted(s, stream);
      assert connections == s.connections - Evicted(s, stream);
      assert chans == Step(s, Publish(stream, m)).chans;
    }
  }
}
