/** One server of a cluster that shares its rooms over Redis (redis_broadcast.go): what it does with each
    message it receives, as functions on its state and as the methods that change it. */
module RedisNode {
  import opened Broadcast

  /** A server; its number stands for its UUID. */
  type Node = nat

  /** A connection, by its session id; ids are unique on one server only. */
  type Conn = nat

  /** Request ids are fresh UUIDs. */
  type ReqId = nat

  /** The event and arguments of one `Send` or `SendAll`. */
  type Tag = nat

  datatype Question = LenOf(room: string) | AllRooms

  datatype Answer = Count(connections: nat) | Names(rooms: set<string>)

  /** What is published. The room of an `Event` is "" for all rooms. The sender of a `Reply` is not in the
      message itself: it is kept here to say whose answer it is. */
  datatype Message =
    | Event(from: Node, room: string, tag: Tag)
    | Ask(id: ReqId, question: Question)
    | ClearRequest(from: Node, room: string)
    | Reply(id: ReqId, from: Node, answer: Answer)

  /** A request that waits for its answers; `done` counts the sends on its channel. */
  datatype Request = Request(numSub: nat, msgCount: nat, connections: nat, names: set<string>, done: nat)

  datatype State = State(rooms: Rooms<Conn>, requests: map<ReqId, Request>)

  /** The new state, what is published and who is emitted to. */
  datatype Effect = Effect(state: State, published: seq<Message>, emitted: set<Target<Conn>>)

  /** Whom a received event reaches; a node's own echo reaches nobody. */
  function EventTargets(self: Node, rooms: Rooms<Conn>, from: Node, room: string): set<Target<Conn>> {
    if from == self then {} else if room != "" then RoomTargets(rooms, room) else AllTargets(rooms)
  }

  function AnswerTo<C(==)>(rooms: Rooms<C>, q: Question): Answer {
    match q
    case LenOf(room) => Count(|Members(rooms, room)|)
    case AllRooms => Names(rooms.Keys)
  }

  function Collected(req: Request, answer: Answer): Request {
    var added := match answer
                 case Count(n) => req.(msgCount := req.msgCount + 1, connections := req.connections + n)
                 case Names(rooms) => req.(msgCount := req.msgCount + 1, names := req.names + rooms);
    if added.numSub == added.msgCount then added.(done := added.done + 1) else added
  }

  function Handle(self: Node, s: State, m: Message): Effect {
    match m
    case Event(from, room, _) => Effect(s, [], EventTargets(self, s.rooms, from, room))
    case Ask(id, q) => Effect(s, [Reply(id, self, AnswerTo(s.rooms, q))], {})
    case ClearRequest(from, room) =>
      Effect(if from == self then s else s.(rooms := Cleared(s.rooms, room)), [], {})
    case Reply(id, _, answer) =>
      if id !in s.requests then Effect(s, [], {})
      else Effect(s.(requests := s.requests[id := Collected(s.requests[id], answer)]), [], {})
  }

  class Server {
    const self: Node
    const local: Adapter<Conn>      // the rooms and connections of this server
    var requests: map<ReqId, Request>
    var published: seq<Message>

    ghost predicate Valid()
      reads this, local
    {
      local.Valid()
    }

    ghost function Model(): State
      reads this, local
    {
      State(local.rooms, requests)
    }

    constructor (self: Node)
      ensures Valid() && fresh(local) && this.self == self
      ensures Model() == State(map[], map[]) && published == [] && local.emitted == multiset{}
    {
      this.self, requests, published := self, map[], [];
      local := new Adapter<Conn>();
    }

    /** Emits to the local members at once and publishes for the others. */
    method Send(room: string, tag: Tag)
      requires Valid()
      modifies this`published, local`emitted
      ensures Valid() && local.emitted == old(local.emitted) + multiset(RoomTargets(local.rooms, room))
      ensures published == old(published) + [Event(self, room, tag)]
    {
      local.Send(room);
      published := published + [Event(self, room, tag)];
    }

    method SendAll(tag: Tag)
      requires Valid()
      modifies this`published, local`emitted
      ensures Valid() && local.emitted == old(local.emitted) + multiset(AllTargets(local.rooms))
      ensures published == old(published) + [Event(self, "", tag)]
    {
      local.SendAll();
      published := published + [Event(self, "", tag)];
    }

    /** `Len` and `AllRooms` up to the wait: the request is registered before it is published. */
    method Register(id: ReqId, numSub: nat)
      requires Valid()
      modifies this`requests
      ensures Valid() && requests == old(requests)[id := Request(numSub, 0, 0, {}, 0)]
    {
      requests := requests[id := Request(numSub, 0, 0, {}, 0)];
    }

    method Publish(m: Message)
      requires Valid()
      modifies this`published
      ensures Valid() && published == old(published) + [m]
    {
      published := published + [m];
    }

    method OnMessage(from: Node, room: string)
      requires Valid()
      modifies local`emitted
      ensures Valid() && local.emitted == old(local.emitted) + multiset(EventTargets(self, local.rooms, from, room))
    {
      if self == from {
        return;
      }
      if room != "" {
        local.Send(room);
      } else {
        local.SendAll();
      }
    }

    method OnResponse(id: ReqId, answer: Answer)
      requires Valid()
      modifies this`requests
      ensures Valid()
      ensures requests == if id !in old(requests) then old(requests)
                          else old(requests)[id := Collected(old(requests)[id], answer)]
    {
      if id !in requests {
        return;
      }
      var req := requests[id];
      match answer {
        case Count(n) =>
          req := req.(msgCount := req.msgCount + 1, connections := req.connections + n);
        case Names(rooms) =>
          req := req.(msgCount := req.msgCount + 1, names := req.names + rooms);
      }
      if req.numSub == req.msgCount {
        req := req.(done := req.done + 1);
      }
      requests := requests[id := req];
    }

    /** One round of the dispatch loop. */
    method Dispatch(m: Message)
      requires Valid()
      modifies this`requests, this`published, local
      ensures Valid()
      ensures var e := Handle(self, old(Model()), m);
              && Model() == e.state && published == old(published) + e.published
              && local.emitted == old(local.emitted) + multiset(e.emitted)
    {
      match m
      case Event(from, room, _) =>
        OnMessage(from, room);
      case Ask(id, LenOf(room)) =>
        var n := local.Len(room);
        Publish(Reply(id, self, Count(n)));
      case Ask(id, AllRooms) =>
        Publish(Reply(id, self, Names(local.rooms.Keys)));
      case ClearRequest(from, room) =>
        if from != self {
          local.Clear(room);
        }
      case Reply(id, _, answer) =>
        OnResponse(id, answer);
    }
  }
}
