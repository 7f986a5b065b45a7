/** A cluster of servers over Redis (redis_broadcast.go). Redis hands each published message to every server, in
    publishing order, through one inbox per server; the set of subscribers is fixed. A step is one operation of
    an application on one server, the handling of one message, or one part of a request. */
module Cluster {
  import opened Broadcast
  import opened RedisNode

  datatype Sending = Sending(from: Node, room: string, all: bool)

  datatype Asking = Asking(owner: Node, question: Question, published: bool)

  datatype Cluster = Cluster(
    nodes: seq<State>,
    inboxes: seq<seq<Message>>,
    clearing: multiset<(Node, string)>,           // `Clear` calls whose request is still to be published
    sent: map<Tag, Sending>,
    asked: map<ReqId, Asking>,
    results: map<ReqId, Answer>,                  // what `Len` and `AllRooms` returned
    // History, which no step looks at.
    reached: map<(Tag, Node), set<Target<Conn>>>,       // whom a server emitted to when it dealt with an event
    emitted: multiset<(Tag, Node, Target<Conn>)>,
    answers: map<(ReqId, Node), Answer>,          // what a server answered when it handled a request
    got: map<ReqId, set<Node>>                    // whose answers a request has counted
  )

  function Initial(n: nat): Cluster {
    Cluster(seq(n, _ => State(map[], map[])), seq(n, _ => []), multiset{}, map[], map[], map[],
            map[], multiset{}, map[], map[])
  }

  /** PUBLISH: one copy for every server, the publisher's own included. */
  function PublishAll(inboxes: seq<seq<Message>>, ms: seq<Message>): (r: seq<seq<Message>>)
    ensures |r| == |inboxes| && forall k :: 0 <= k < |r| ==> r[k] == inboxes[k] + ms
  {
    seq(|inboxes|, k requires 0 <= k < |inboxes| => inboxes[k] + ms)
  }

  function Tagged(tag: Tag, n: Node, targets: set<Target<Conn>>): multiset<(Tag, Node, Target<Conn>)> {
    multiset(set x | x in targets :: (tag, n, x))
  }

  // ---------- steps ----------

  datatype Change = Join(room: string, conn: Conn) | Leave(room: string, conn: Conn) | LeaveAll(conn: Conn)

  function Changed(rooms: Rooms<Conn>, change: Change): Rooms<Conn> {
    match change
    case Join(room, c) => Joined(rooms, room, c)
    case Leave(room, c) => Left(rooms, room, c)
    case LeaveAll(c) => LeftAll(rooms, c)
  }

  datatype Step =
    | Member(n: Node, change: Change)
    | Send(n: Node, sending: Sending, tag: Tag)
    | Clear(n: Node, room: string)
    | PublishClear(n: Node, room: string)
    | Register(n: Node, id: ReqId, question: Question)
    | PublishAsk(id: ReqId)
    | Deliver(n: Node)
    | Return(id: ReqId)

  predicate Sized(s: Cluster) { |s.inboxes| == |s.nodes| }

  predicate DoMember(s: Cluster, s': Cluster, n: Node, change: Change) {
    n < |s.nodes| && s' == s.(nodes := s.nodes[n := s.nodes[n].(rooms := Changed(s.nodes[n].rooms, change))])
  }

  /** The room a sending travels under. */
  function WireRoom(x: Sending): string { if x.all then "" else x.room }

  function EventOf(x: Sending, tag: Tag): Message { Event(x.from, WireRoom(x), tag) }

  function LocalTargets(rooms: Rooms<Conn>, x: Sending): set<Target<Conn>> {
    if x.all then AllTargets(rooms) else RoomTargets(rooms, x.room)
  }

  predicate DoSend(s: Cluster, s': Cluster, n: Node, x: Sending, tag: Tag) {
    && n < |s.nodes| && x.from == n && tag !in s.sent
    && var targets := LocalTargets(s.nodes[n].rooms, x);
    && s' == s.(inboxes := PublishAll(s.inboxes, [EventOf(x, tag)]), sent := s.sent[tag := x],
                reached := s.reached[(tag, n) := targets], emitted := s.emitted + Tagged(tag, n, targets))
  }

  /** Clears the room here, and leaves the publishing to a goroutine. */
  predicate DoClear(s: Cluster, s': Cluster, n: Node, room: string) {
    && n < |s.nodes|
    && s' == s.(nodes := s.nodes[n := s.nodes[n].(rooms := Cleared(s.nodes[n].rooms, room))],
                clearing := s.clearing + multiset{(n, room)})
  }

  predicate DoPublishClear(s: Cluster, s': Cluster, n: Node, room: string) {
    && (n, room) in s.clearing
    && s' == s.(inboxes := PublishAll(s.inboxes, [ClearRequest(n, room)]), clearing := s.clearing - multiset{(n, room)})
  }

  /** Reads the number of subscribers and registers the request. */
  predicate DoRegister(s: Cluster, s': Cluster, n: Node, id: ReqId, q: Question) {
    && n < |s.nodes| && id !in s.asked
    && var requests := s.nodes[n].requests[id := Request(|s.nodes|, 0, 0, {}, 0)];
    && s' == s.(nodes := s.nodes[n := s.nodes[n].(requests := requests)],
                asked := s.asked[id := Asking(n, q, false)], got := s.got[id := {}])
  }

  predicate DoPublishAsk(s: Cluster, s': Cluster, id: ReqId) {
    && id in s.asked && !s.asked[id].published
    && s' == s.(inboxes := PublishAll(s.inboxes, [Ask(id, s.asked[id].question)]),
                asked := s.asked[id := s.asked[id].(published := true)])
  }

  /** A server handles the message at the head of its inbox. */
  predicate DoDeliver(s: Cluster, s': Cluster, n: Node) {
    && Sized(s) && n < |s.nodes| && s.inboxes[n] != []
    && var m := s.inboxes[n][0];
    && var e := Handle(n, s.nodes[n], m);
    && s' == s.(nodes := s.nodes[n := e.state],
                inboxes := PublishAll(s.inboxes[n := s.inboxes[n][1..]], e.published),
                reached := if m.Event? && m.from != n then s.reached[(m.tag, n) := e.emitted] else s.reached,
                emitted := if m.Event? then s.emitted + Tagged(m.tag, n, e.emitted) else s.emitted,
                answers := if m.Ask? then s.answers[(m.id, n) := AnswerTo(s.nodes[n].rooms, m.question)] else s.answers,
                got := if m.Reply? && m.id in s.nodes[n].requests && m.id in s.got
                       then s.got[m.id := s.got[m.id] + {m.from}] else s.got)
  }

  /** `done` has fired: the call returns and the request is dropped. */
  predicate DoReturn(s: Cluster, s': Cluster, id: ReqId) {
    && id in s.asked && s.asked[id].owner < |s.nodes|
    && var n := s.asked[id].owner;
    && id in s.nodes[n].requests && s.nodes[n].requests[id].done > 0
    && var req := s.nodes[n].requests[id];
    && s' == s.(nodes := s.nodes[n := s.nodes[n].(requests := s.nodes[n].requests - {id})],
                results := s.results[id := if s.asked[id].question.LenOf? then Count(req.connections)
                                           else Names(req.names)])
  }

  predicate Next(s: Cluster, s': Cluster, step: Step) {
    match step
    case Member(n, change) => DoMember(s, s', n, change)
    case Send(n, x, tag) => DoSend(s, s', n, x, tag)
    case Clear(n, room) => DoClear(s, s', n, room)
    case PublishClear(n, room) => DoPublishClear(s, s', n, room)
    case Register(n, id, q) => DoRegister(s, s', n, id, q)
    case PublishAsk(id) => DoPublishAsk(s, s', id)
    case Deliver(n) => DoDeliver(s, s', n)
    case Return(id) => DoReturn(s, s', id)
  }

  predicate Run(states: seq<Cluster>, steps: seq<Step>) {
    && |states| == |steps| + 1
    && states[0] == Initial(|states[0].nodes|)
    && forall i :: 0 <= i < |steps| ==> Next(states[i], states[i + 1], steps[i])
  }
}
