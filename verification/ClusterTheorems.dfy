/** What holds in every run of `Cluster`: it does what one in-memory adapter over all servers' rooms would do. */
module ClusterTheorems {
  import opened Broadcast
  import opened RedisNode
  import opened Cluster
  import opened ClusterProof

  ghost predicate AllTidy(s: Cluster) {
    forall k :: 0 <= k < |s.nodes| ==> Tidy(s.nodes[k].rooms)
  }

  ghost predicate Kept(s: Cluster) {
    EventInv(s) && AskInv(s) && AllTidy(s)
  }

  lemma InitialKept(n: nat)
    ensures Kept(Initial(n))
  {
  }

  lemma NextKeepsTidy(s: Cluster, s': Cluster, step: Step)
    requires AllTidy(s) && Next(s, s', step)
    ensures AllTidy(s')
  {
    if step.Member? && !step.change.LeaveAll? {
      ChangesMembers(s.nodes[step.n].rooms, step.change.room, step.change.conn, "");
    } else if step.Member? {
      ChangesMembers(s.nodes[step.n].rooms, "", step.change.conn, "");
    }
  }

  lemma {:induction false} RunKeeps(states: seq<Cluster>, steps: seq<Step>, i: nat)
    requires Run(states, steps) && i < |states|
    ensures Kept(states[i]) && |states[i].nodes| == |states[0].nodes|
  {
    if i == 0 {
      InitialKept(|states[0].nodes|);
    } else {
      RunKeeps(states, steps, i - 1);
      NextKeepsEvents(states[i - 1], states[i], steps[i - 1]);
      NextKeepsAsks(states[i - 1], states[i], steps[i - 1]);
      NextKeepsTidy(states[i - 1], states[i], steps[i - 1]);
    }
  }

  /** No server's rooms change between two states of a run. */
  ghost predicate Unchanged(states: seq<Cluster>, i: nat, j: nat)
    requires j < |states|
  {
    forall m, k :: i <= m <= j && 0 <= k < |states[m].nodes| && k < |states[i].nodes| ==>
      states[m].nodes[k].rooms == states[i].nodes[k].rooms
  }

  // ---------- the one adapter the cluster stands for ----------

  /** A connection of the cluster: its server and its id there. */
  type Peer = (Node, Conn)

  ghost function Everybody(nodes: seq<State>, room: string): set<Peer> {
    set k, c | 0 <= k < |nodes| && c in Members(nodes[k].rooms, room) :: (k, c)
  }

  /** All rooms of all servers. */
  ghost function Union(nodes: seq<State>): Rooms<Peer> {
    map room | room in (set k, r | 0 <= k < |nodes| && r in nodes[k].rooms :: r) :: Everybody(nodes, room)
  }

  lemma UnionMembers(nodes: seq<State>, room: string)
    ensures Members(Union(nodes), room) == Everybody(nodes, room)
  {
    if room !in Union(nodes) {
      forall k | 0 <= k < |nodes| ensures room !in nodes[k].rooms {}
    }
  }

  /** Whom the one adapter would emit to. */
  ghost function MemoryTargets(nodes: seq<State>, x: Sending): set<Target<Peer>> {
    if x.all then AllTargets(Union(nodes)) else RoomTargets(Union(nodes), x.room)
  }

  // ---------- sending ----------

  /** At this step the server deals with the event, and reaches these. */
  ghost predicate DealsWith(s: Cluster, step: Step, tag: Tag, k: Node, targets: set<Target<Conn>>) {
    k < |s.nodes| && if step.Deliver? then DeliversEvent(s, step.n, tag, k, targets)
                     else step.Send? && step.n == k && step.tag == tag
                          && targets == LocalTargets(s.nodes[k].rooms, step.sending)
  }

  ghost predicate DeliversEvent(s: Cluster, n: Node, tag: Tag, k: Node, targets: set<Target<Conn>>)
    requires k < |s.nodes|
  {
    && n == k && Sized(s) && s.inboxes[k] != [] && s.inboxes[k][0].Event?
    && var m := s.inboxes[k][0];
    m.tag == tag && m.from != k && targets == EventTargets(k, s.nodes[k].rooms, m.from, m.room)
  }

  /** History only grows. */
  ghost predicate Grows(s: Cluster, s': Cluster) {
    && (forall tag :: tag in s.sent ==> tag in s'.sent && s'.sent[tag] == s.sent[tag])
    && (forall x :: x in s.reached ==> x in s'.reached && s'.reached[x] == s.reached[x])
    && (forall x :: x in s.answers ==> x in s'.answers && s'.answers[x] == s.answers[x])
    && (forall id :: id in s.asked ==> id in s'.asked && s'.asked[id].owner == s.asked[id].owner
                                       && s'.asked[id].question == s.asked[id].question)
  }

  lemma DeliverGrows(s: Cluster, s': Cluster, n: Node)
    requires EventInv(s) && AskInv(s) && DoDeliver(s, s', n)
    ensures Grows(s, s')
  {
    var m := s.inboxes[n][0];
    assert m in s.inboxes[n] && GenuineEvent(s, m) && GenuineAsk(s, m);
    assert m.Event? ==> EventAt(s, m.tag, n);
    assert m.Ask? ==> AskAt(s, m.id, n);
  }

  lemma SendGrows(s: Cluster, s': Cluster, n: Node, x: Sending, tag: Tag)
    requires EventInv(s) && DoSend(s, s', n, x, tag)
    ensures Grows(s, s')
  {
  }

  lemma NextGrows(s: Cluster, s': Cluster, step: Step)
    requires EventInv(s) && AskInv(s) && Next(s, s', step)
    ensures Grows(s, s')
  {
    if step.Deliver? {
      DeliverGrows(s, s', step.n);
    } else if step.Send? {
      SendGrows(s, s', step.n, step.sending, step.tag);
    }
  }

  lemma GrowsOn(a: Cluster, b: Cluster, c: Cluster)
    requires Grows(a, b) && Grows(b, c)
    ensures Grows(a, c)
  {
  }

  lemma StepGrows(states: seq<Cluster>, steps: seq<Step>, i: nat)
    requires Run(states, steps) && i < |steps|
    ensures Grows(states[i], states[i + 1])
  {
    RunKeeps(states, steps, i);
    NextGrows(states[i], states[i + 1], steps[i]);
  }

  lemma {:induction false} ChainGrows(states: seq<Cluster>, i: nat, j: nat)
    requires i <= j < |states| && forall m :: i <= m < j ==> Grows(states[m], states[m + 1])
    ensures Grows(states[i], states[j])
  {
    if i < j {
      ChainGrows(states, i, j - 1);
      GrowsOn(states[i], states[j - 1], states[j - 1 + 1]);
    }
  }

  lemma RunGrows(states: seq<Cluster>, steps: seq<Step>, i: nat, j: nat)
    requires Run(states, steps) && i <= j < |states|
    ensures Grows(states[i], states[j])
  {
    forall m | i <= m < j ensures Grows(states[m], states[m + 1]) {
      StepGrows(states, steps, m);
    }
    ChainGrows(states, i, j);
  }

  lemma {:induction false} ReachIsAMoment(states: seq<Cluster>, steps: seq<Step>, i: nat, j: nat, tag: Tag, k: Node)
      returns (m: nat)
    requires Run(states, steps) && i <= j < |states|
    requires (tag, k) !in states[i].reached && (tag, k) in states[j].reached
    ensures i <= m < j && DealsWith(states[m], steps[m], tag, k, states[j].reached[(tag, k)])
  {
    var n := j - 1;
    RunKeeps(states, steps, n);
    assert Next(states[n], states[n + 1], steps[n]);
    if (tag, k) in states[n].reached {
      m := ReachIsAMoment(states, steps, i, n, tag, k);
      RunGrows(states, steps, n, j);
    } else {
      m := n;
    }
  }

  /** No inbox holds the event any more. */
  ghost predicate Drained(s: Cluster, tag: Tag) {
    forall k, i :: 0 <= k < |s.inboxes| && 0 <= i < |s.inboxes[k]| ==>
      !(s.inboxes[k][i].Event? && s.inboxes[k][i].tag == tag)
  }

  /** Once the inboxes are drained of an event, each server has dealt with it once since it was sent, the sender
      when it sent it; it emitted once to each target it had at that moment, and to nobody else. */
  lemma EventIsDealtWith(states: seq<Cluster>, steps: seq<Step>, i: nat, j: nat, k: Node) returns (m: nat)
    requires Run(states, steps) && i < j < |states| && steps[i].Send? && Drained(states[j], steps[i].tag)
    requires k < |states[i].nodes|
    ensures i <= m < j && k < |states[m].nodes|
    ensures (steps[i].tag, k) in states[j].reached
    ensures var x := steps[i].sending;
            states[j].reached[(steps[i].tag, k)] ==
              (if k == steps[i].n then LocalTargets(states[i].nodes[k].rooms, x)
               else EventTargets(k, states[m].nodes[k].rooms, steps[i].n, WireRoom(x)))
    ensures forall y: Target<Conn> ::
              states[j].emitted[(steps[i].tag, k, y)] == if y in states[j].reached[(steps[i].tag, k)] then 1 else 0
  {
    var tag := steps[i].tag;
    RunKeeps(states, steps, i);
    RunKeeps(states, steps, j);
    assert Next(states[i], states[i + 1], steps[i]);
    RunGrows(states, steps, i + 1, j);
    assert EventAt(states[j], tag, k);
    assert EventOf(states[j].sent[tag], tag) !in states[j].inboxes[k];
    m := ReachIsAMoment(states, steps, i, j, tag, k);
    if k != steps[i].n {
      MomentIsADelivery(states, steps, i, m, k, states[j].reached[(tag, k)]);
    }
  }

  /** What another server deals with after the sending is the message of that sending. */
  lemma MomentIsADelivery(states: seq<Cluster>, steps: seq<Step>, i: nat, m: nat, k: Node, targets: set<Target<Conn>>)
    requires Run(states, steps) && i <= m < |steps| && steps[i].Send? && k != steps[i].n
    requires DealsWith(states[m], steps[m], steps[i].tag, k, targets)
    ensures k < |states[m].nodes|
    ensures targets == EventTargets(k, states[m].nodes[k].rooms, steps[i].n, WireRoom(steps[i].sending))
  {
    assert i < m;
    assert Next(states[i], states[i + 1], steps[i]) && Next(states[m], states[m + 1], steps[m]);
    RunKeeps(states, steps, m);
    RunGrows(states, steps, i + 1, m);
    assert steps[m].Deliver? && GenuineEvent(states[m], states[m].inboxes[k][0]);
  }

  lemma MemoryReaches(nodes: seq<State>, x: Sending, k: Node, r: string, c: Conn)
    ensures (r, (k, c)) in MemoryTargets(nodes, x) <==>
              k < |nodes| && c in Members(nodes[k].rooms, r) && (x.all || r == x.room)
  {
    UnionMembers(nodes, r);
    TargetsAreMembers(Union(nodes), x.room, (r, (k, c)));
  }

  /** The cluster emitted to exactly those the one adapter would have emitted to, once each. */
  ghost predicate EmittedAsOne(s: Cluster, tag: Tag, x: Sending, nodes: seq<State>) {
    forall k: Node, r: string, c: Conn ::
      s.emitted[(tag, k, (r, c))] == if (r, (k, c)) in MemoryTargets(nodes, x) then 1 else 0
  }

  /** The servers other than `n` have nobody in a room with a name. */
  ghost predicate OthersUnnamed(nodes: seq<State>, n: Node) {
    forall k :: 0 <= k < |nodes| && k != n ==> nodes[k].rooms.Keys <= {""}
  }

  lemma Emissions(states: seq<Cluster>, steps: seq<Step>, i: nat, j: nat, k: Node, r: string, c: Conn)
    requires Run(states, steps) && i < j < |states| && steps[i].Send? && Drained(states[j], steps[i].tag)
    requires Unchanged(states, i, j)
    ensures var x := steps[i].sending;
            states[j].emitted[(steps[i].tag, k, (r, c))] ==
              if k < |states[i].nodes| && c in Members(states[i].nodes[k].rooms, r)
                 && (x.all || r == x.room || (x.room == "" && k != steps[i].n)) then 1 else 0
  {
    RunKeeps(states, steps, i);
    RunKeeps(states, steps, j);
    if k < |states[i].nodes| {
      var m := EventIsDealtWith(states, steps, i, j, k);
      assert states[m].nodes[k].rooms == states[i].nodes[k].rooms;
      TargetsAreMembers(states[i].nodes[k].rooms, steps[i].sending.room, (r, c));
    }
  }

  /** Sending refines the in-memory adapter: while nobody joins or leaves, a drained `SendAll`, or `Send` to a room
      with a name, has emitted exactly once to each connection the one adapter over all rooms would emit to. A
      `Send` to the room "" does so exactly if the other servers have no named rooms: they take it for all rooms. */
  lemma SendRefinesMemory(states: seq<Cluster>, steps: seq<Step>, i: nat, j: nat)
    requires Run(states, steps) && i < j < |states| && steps[i].Send? && Drained(states[j], steps[i].tag)
    requires Unchanged(states, i, j)
    ensures EmittedAsOne(states[j], steps[i].tag, steps[i].sending, states[i].nodes) <==>
              steps[i].sending.all || steps[i].sending.room != "" || OthersUnnamed(states[i].nodes, steps[i].n)
  {
    var (s, tag, x, nodes) := (states[j], steps[i].tag, steps[i].sending, states[i].nodes);
    RunKeeps(states, steps, i);
    if x.all || x.room != "" || OthersUnnamed(nodes, steps[i].n) {
      forall k: Node, r: string, c: Conn
        ensures s.emitted[(tag, k, (r, c))] == if (r, (k, c)) in MemoryTargets(nodes, x) then 1 else 0
      {
        Emissions(states, steps, i, j, k, r, c);
        MemoryReaches(nodes, x, k, r, c);
      }
    } else {
      var k :| 0 <= k < |nodes| && k != steps[i].n && !(nodes[k].rooms.Keys <= {""});
      var r :| r in nodes[k].rooms && r != "";
      var c :| c in nodes[k].rooms[r];
      Emissions(states, steps, i, j, k, r, c);
      MemoryReaches(nodes, x, k, r, c);
    }
  }

  // ---------- asking ----------

  /** At any time a registered request has fired at most once, and it has fired exactly if every server's answer
      has been counted. */
  lemma DoneOnceAllAnswered(states: seq<Cluster>, steps: seq<Step>, i: nat, id: ReqId)
    requires Run(states, steps) && i < |states| && Live(states[i], id)
    ensures id in states[i].got && states[i].got[id] <= Everyone(|states[i].nodes|)
    ensures states[i].nodes[states[i].asked[id].owner].requests[id].done
         == if states[i].got[id] == Everyone(|states[i].nodes|) then 1 else 0
  {
    RunKeeps(states, steps, i);
    assert IdInv(states[i], id);
    AllAreEveryone(states[i].got[id], |states[i].nodes|);
  }

  /** No answer is missed, since a request is registered before it is published: when no message of a published
      request is under way to the servers or back to its owner, it has fired. */
  lemma NoAnswerMissed(states: seq<Cluster>, steps: seq<Step>, i: nat, id: ReqId)
    requires Run(states, steps) && i < |states| && Live(states[i], id) && states[i].asked[id].published
    requires forall k, m :: 0 <= k < |states[i].inboxes| && m in states[i].inboxes[k] && OfRequest(m) ==> m.id != id
    ensures states[i].nodes[states[i].asked[id].owner].requests[id].done == 1
  {
    var s := states[i];
    RunKeeps(states, steps, i);
    assert IdInv(s, id);
    forall k: Node | k < |s.nodes| ensures k in s.got[id] {
      assert AskAt(s, id, k) && ReplyAt(s, id, k);
      assert (id, k) in s.answers;
    }
    assert s.got[id] == Everyone(|s.nodes|);
  }

  lemma {:induction false} AnswerIsAMoment(states: seq<Cluster>, steps: seq<Step>, i: nat, j: nat, id: ReqId, k: Node)
      returns (m: nat)
    requires Run(states, steps) && i <= j < |states|
    requires (id, k) !in states[i].answers && (id, k) in states[j].answers
    ensures i <= m < j && k < |states[m].nodes| && id in states[m].asked
    ensures states[j].answers[(id, k)] == AnswerTo(states[m].nodes[k].rooms, states[m].asked[id].question)
  {
    var n := j - 1;
    RunKeeps(states, steps, n);
    assert Next(states[n], states[n + 1], steps[n]);
    if (id, k) in states[n].answers {
      m := AnswerIsAMoment(states, steps, i, n, id, k);
      RunGrows(states, steps, n, j);
    } else {
      m := n;
      assert GenuineAsk(states[n], states[n].inboxes[k][0]);
    }
  }

  /** What `Len` or `AllRooms` returns is put together from one answer of every server, each true of that
      server's rooms at a moment between the call and its return. */
  lemma GatherIsExact(states: seq<Cluster>, steps: seq<Step>, i: nat, j: nat)
    requires Run(states, steps) && i < j < |states| && steps[i].Register? && steps[i].id in states[j].results
    ensures var (s, id, q) := (states[j], steps[i].id, steps[i].question);
            && s.results[id] == Gathered(s.answers, id, q, |s.nodes|)
            && forall k: Node :: k < |s.nodes| ==> AnsweredWithin(states, i, j, id, k, q)
  {
    var (s, id, q) := (states[j], steps[i].id, steps[i].question);
    RunKeeps(states, steps, i);
    RunKeeps(states, steps, j);
    assert Next(states[i], states[i + 1], steps[i]);
    RunGrows(states, steps, i + 1, j);
    assert IdInv(s, id);
    forall k: Node | k < |s.nodes| ensures AnsweredWithin(states, i, j, id, k, q) {
      var m := AnswerIsAMoment(states, steps, i + 1, j, id, k);
      RunGrows(states, steps, i + 1, m);
    }
  }

  ghost predicate AnsweredWithin(states: seq<Cluster>, i: nat, j: nat, id: ReqId, k: Node, q: Question)
    requires j < |states|
  {
    (id, k) in states[j].answers
    && exists m :: i < m < j && k < |states[m].nodes|
                   && states[j].answers[(id, k)] == AnswerTo(states[m].nodes[k].rooms, q)
  }

  /** The connections of one server, as peers. */
  ghost function Peers(k: Node, members: set<Conn>): set<Peer> {
    set c | c in members :: (k, c)
  }

  lemma {:induction false} PeersCount(k: Node, members: set<Conn>)
    ensures |Peers(k, members)| == |members|
  {
    if members != {} {
      var c :| c in members;
      PeersCount(k, members - {c});
      assert Peers(k, members) == Peers(k, members - {c}) + {(k, c)};
      assert (k, c) !in Peers(k, members - {c});
    }
  }

  lemma EverybodySplits(nodes: seq<State>, room: string, n: nat)
    requires n < |nodes|
    ensures |Everybody(nodes[..n + 1], room)| == |Everybody(nodes[..n], room)| + |Members(nodes[n].rooms, room)|
  {
    var (before, last) := (Everybody(nodes[..n], room), Peers(n, Members(nodes[n].rooms, room)));
    forall k: Node, c: Conn ensures (k, c) in Everybody(nodes[..n + 1], room) <==> (k, c) in before + last {
      assert k < n ==> nodes[..n][k] == nodes[..n + 1][k];
    }
    assert Everybody(nodes[..n + 1], room) == before + last;
    assert before !! last;
    PeersCount(n, Members(nodes[n].rooms, room));
  }

  /** The sizes of a room on all servers add up to the size of the one room. */
  lemma {:induction false} SizesAddUp(nodes: seq<State>, room: string,
          answers: map<(ReqId, Node), Answer>, id: ReqId, n: nat, all: nat)
    requires n <= |nodes| && n <= all
    requires forall k: Node :: k < n ==>
               (id, k) in answers && answers[(id, k)] == Count(|Members(nodes[k].rooms, room)|)
    ensures Total(answers, id, Everyone(all), n) == |Everybody(nodes[..n], room)|
  {
    if n == 0 {
      assert Everybody(nodes[..0], room) == {};
    } else {
      SizesAddUp(nodes, room, answers, id, n - 1, all);
      EverybodySplits(nodes, room, n - 1);
    }
  }

  lemma NamesAddUp(nodes: seq<State>, answers: map<(ReqId, Node), Answer>, id: ReqId)
    requires forall k: Node :: k < |nodes| ==> (id, k) in answers && answers[(id, k)] == Names(nodes[k].rooms.Keys)
    ensures AllNames(answers, id, Everyone(|nodes|)) == Union(nodes).Keys
  {
    forall r ensures r in AllNames(answers, id, Everyone(|nodes|)) <==> r in Union(nodes).Keys {
      if r in AllNames(answers, id, Everyone(|nodes|)) {
        var k: Node :| k in Everyone(|nodes|) && (id, k) in answers && r in NamesOf(answers[(id, k)]);
        assert r in nodes[k].rooms;
      }
      if r in Union(nodes) {
        var k: Node :| k < |nodes| && r in nodes[k].rooms;
        assert r in NamesOf(answers[(id, k)]);
      }
    }
  }

  /** Asking refines the in-memory adapter: while nobody joins or leaves, `Len` returns the size of the room in
      the one adapter over all rooms, and `AllRooms` its rooms. */
  lemma AskRefinesMemory(states: seq<Cluster>, steps: seq<Step>, i: nat, j: nat)
    requires Run(states, steps) && i < j < |states| && steps[i].Register? && steps[i].id in states[j].results
    requires Unchanged(states, i, j)
    ensures states[j].results[steps[i].id] == AnswerTo(Union(states[i].nodes), steps[i].question)
  {
    var (s, id, q, nodes) := (states[j], steps[i].id, steps[i].question, states[i].nodes);
    GatherIsExact(states, steps, i, j);
    RunKeeps(states, steps, i);
    RunKeeps(states, steps, j);
    forall k: Node | k < |nodes|
      ensures (id, k) in s.answers && s.answers[(id, k)] == AnswerTo(nodes[k].rooms, q)
    {
      assert AnsweredWithin(states, i, j, id, k, q);
    }
    if q.LenOf? {
      SizesAddUp(nodes, q.room, s.answers, id, |nodes|, |nodes|);
      assert nodes[..|nodes|] == nodes;
      UnionMembers(nodes, q.room);
    } else {
      NamesAddUp(nodes, s.answers, id);
    }
  }

  // ---------- clearing ----------

  /** The room is gone from the server that cleared it; elsewhere it is gone, or the request to clear it waits. */
  ghost predicate ClearUnderWay(s: Cluster, n: Node, room: string) {
    && Sized(s) && n < |s.nodes| && room !in s.nodes[n].rooms
    && ((n, room) in s.clearing
        || forall k :: 0 <= k < |s.nodes| && k != n ==>
             ClearRequest(n, room) in s.inboxes[k] || room !in s.nodes[k].rooms)
  }

  ghost predicate Joins(step: Step, room: string) {
    step.Member? && step.change.Join? && step.change.room == room
  }

  lemma DeliverKeepsClearing(s: Cluster, s': Cluster, d: Node, n: Node, room: string)
    requires ClearUnderWay(s, n, room) && DoDeliver(s, s', d)
    ensures ClearUnderWay(s', n, room)
  {
    var m := s.inboxes[d][0];
    forall k | 0 <= k < |s.nodes| && (ClearRequest(n, room) in s.inboxes[k] || room !in s.nodes[k].rooms) && k != n
      ensures ClearRequest(n, room) in s'.inboxes[k] || room !in s'.nodes[k].rooms
    {
      var rest := s.inboxes[d := s.inboxes[d][1..]][k];
      assert s'.inboxes[k] == rest + Handle(d, s.nodes[d], m).published;
      assert s.inboxes[d] == [m] + s.inboxes[d][1..];
      if ClearRequest(n, room) in s.inboxes[k] && (k != d || m != ClearRequest(n, room)) {
        assert ClearRequest(n, room) in rest;
      }
    }
  }

  lemma NextKeepsClearing(s: Cluster, s': Cluster, step: Step, n: Node, room: string)
    requires ClearUnderWay(s, n, room) && Next(s, s', step) && !Joins(step, room)
    ensures ClearUnderWay(s', n, room)
  {
    if step.Deliver? {
      DeliverKeepsClearing(s, s', step.n, n, room);
    }
  }

  lemma {:induction false} StaysClearing(states: seq<Cluster>, steps: seq<Step>, i: nat, j: nat, n: Node, room: string)
    requires |states| == |steps| + 1 && i <= j < |states| && ClearUnderWay(states[i], n, room)
    requires forall k :: i <= k < j ==> Next(states[k], states[k + 1], steps[k]) && !Joins(steps[k], room)
    ensures ClearUnderWay(states[j], n, room)
  {
    if i < j {
      StaysClearing(states, steps, i, j - 1, n, room);
      NextKeepsClearing(states[j - 1], states[j - 1 + 1], steps[j - 1], n, room);
    }
  }

  /** Clearing refines the in-memory adapter: unless somebody joins the room in the meantime, it is gone from
      every server once the request has been published and handled everywhere. */
  lemma ClearRefinesMemory(states: seq<Cluster>, steps: seq<Step>, i: nat, j: nat)
    requires Run(states, steps) && i < j < |states| && steps[i].Clear?
    requires forall k :: i <= k < j ==> !Joins(steps[k], steps[i].room)
    requires (steps[i].n, steps[i].room) !in states[j].clearing
    requires forall k :: 0 <= k < |states[j].inboxes| ==>
               ClearRequest(steps[i].n, steps[i].room) !in states[j].inboxes[k]
    ensures steps[i].room !in Union(states[j].nodes)
  {
    var (n, room) := (steps[i].n, steps[i].room);
    RunKeeps(states, steps, i);
    assert Next(states[i], states[i + 1], steps[i]);
    StaysClearing(states, steps, i + 1, j, n, room);
  }

  // ---------- a room without a name ----------

  const LOBBY: State := State(map["lobby" := {7}], map[])

  const UNNAMED: Sending := Sending(0, "", false)

  lemma LobbyJoined(s: Cluster)
    requires s == Initial(2)
    ensures DoMember(s, s.(nodes := [State(map[], map[]), LOBBY]), 1, Join("lobby", 7))
  {
    var nobody: set<Conn>, nowhere: Rooms<Conn> := {}, map[];
    assert nobody + {7} == {7};
    assert Joined(nowhere, "lobby", 7) == LOBBY.rooms;
    assert s.nodes[1 := LOBBY] == [State(map[], map[]), LOBBY];
  }

  lemma UnnamedSent(s: Cluster)
    requires s.nodes == [State(map[], map[]), LOBBY] && s.inboxes == [[], []]
    requires s.sent == map[] && s.reached == map[] && s.emitted == multiset{}
    ensures var e := EventOf(UNNAMED, 0);
            DoSend(s, s.(inboxes := [[e], [e]], sent := map[0 := UNNAMED], reached := map[(0, 0) := {}]), 0, UNNAMED, 0)
  {
    var e := EventOf(UNNAMED, 0);
    var none: seq<Message> := [];
    assert none + [e] == [e];
    assert PublishAll(s.inboxes, [e]) == [[e], [e]];
    assert RoomTargets(s.nodes[0].rooms, "") == {} && Tagged(0, 0, {}) == multiset{};
  }

  lemma UnnamedHandled(s: Cluster)
    requires s.nodes == [State(map[], map[]), LOBBY] && s.reached == map[(0, 0) := {}] && s.emitted == multiset{}
    requires var e := EventOf(UNNAMED, 0); s.inboxes == [[e], [e]]
    ensures var e := EventOf(UNNAMED, 0);
            DoDeliver(s, s.(inboxes := [[e], []], reached := map[(0, 0) := {}, (0, 1) := {("lobby", 7)}],
                            emitted := multiset{(0, 1, ("lobby", 7))}), 1)
  {
    var e := EventOf(UNNAMED, 0);
    var none: seq<Message> := [];
    assert [e] + none == [e] && none + none == none && s.inboxes[1][1..] == none;
    assert PublishAll([[e], none], []) == [[e], []];
    assert AllTargets(LOBBY.rooms) == {("lobby", 7)};
    assert (set x | x in {("lobby", 7)} :: (0, 1, x)) == {(0, 1, ("lobby", 7))};
    assert s.nodes[1 := LOBBY] == s.nodes;
  }

  /** A run in which a `Send` to the room "" reaches a connection that is in another room only. */
  lemma UnnamedRoomReachesAll() returns (states: seq<Cluster>, steps: seq<Step>)
    ensures Run(states, steps) && |steps| == 3 && steps[1] == Send(0, UNNAMED, 0)
    ensures states[3].emitted[(0, 1, ("lobby", 7))] == 1
    ensures ("lobby", (1, 7)) !in MemoryTargets(states[1].nodes, UNNAMED)
  {
    var e := EventOf(UNNAMED, 0);
    var s0 := Initial(2);
    var s1 := s0.(nodes := [State(map[], map[]), LOBBY]);
    var s2 := s1.(inboxes := [[e], [e]], sent := map[0 := UNNAMED], reached := map[(0, 0) := {}]);
    var s3 := s2.(inboxes := [[e], []], reached := map[(0, 0) := {}, (0, 1) := {("lobby", 7)}],
                  emitted := multiset{(0, 1, ("lobby", 7))});
    LobbyJoined(s0);
    assert s0.inboxes == [[], []];
    UnnamedSent(s1);
    UnnamedHandled(s2);
    states, steps := [s0, s1, s2, s3], [Member(1, Join("lobby", 7)), Send(0, UNNAMED, 0), Deliver(1)];
    MemoryReaches(s1.nodes, UNNAMED, 1, "lobby", 7);
  }
}
