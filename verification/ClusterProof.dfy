/** What every run of `Cluster` keeps. */
module ClusterProof {
  import opened Broadcast
  import opened RedisNode
  import opened Cluster

  // ---------- inboxes ----------

  ghost function Pending(s: Cluster, n: Node, m: Message): nat
    requires n < |s.inboxes|
  {
    multiset(s.inboxes[n])[m]
  }

  /** How publishing and taking the head change what is pending. */
  lemma PublishedPending(inboxes: seq<seq<Message>>, ms: seq<Message>, k: nat, m: Message)
    requires k < |inboxes|
    ensures multiset(PublishAll(inboxes, ms)[k])[m] == multiset(inboxes[k])[m] + multiset(ms)[m]
  {
  }

  lemma DeliveredPending(inboxes: seq<seq<Message>>, n: nat, ms: seq<Message>, k: nat, m: Message)
    requires n < |inboxes| && k < |inboxes| && inboxes[n] != []
    ensures multiset(PublishAll(inboxes[n := inboxes[n][1..]], ms)[k])[m]
         == multiset(inboxes[k])[m] + multiset(ms)[m] - (if k == n && inboxes[n][0] == m then 1 else 0)
  {
    assert inboxes[n] == [inboxes[n][0]] + inboxes[n][1..];
    PublishedPending(inboxes[n := inboxes[n][1..]], ms, k, m);
  }

  // ---------- events ----------

  /** The event of a sending waits once in the inbox of each other server that has not dealt with it. */
  ghost predicate EventAt(s: Cluster, tag: Tag, n: Node)
    requires tag in s.sent && n < |s.inboxes|
  {
    if n == s.sent[tag].from then (tag, n) in s.reached
    else Pending(s, n, EventOf(s.sent[tag], tag)) == if (tag, n) in s.reached then 0 else 1
  }

  ghost predicate GenuineEvent(s: Cluster, m: Message) {
    m.Event? ==> m.tag in s.sent && m == EventOf(s.sent[m.tag], m.tag)
  }

  /** Each server has emitted once to whom it reached. */
  ghost predicate EmittedOnce(s: Cluster) {
    forall tag: Tag, n: Node, x: Target<Conn> ::
      s.emitted[(tag, n, x)] == if (tag, n) in s.reached && x in s.reached[(tag, n)] then 1 else 0
  }

  ghost predicate EventInv(s: Cluster) {
    && Sized(s)
    && (forall tag: Tag, n: Node :: (tag, n) in s.reached ==> tag in s.sent && n < |s.nodes|)
    && (forall n, i :: 0 <= n < |s.inboxes| && 0 <= i < |s.inboxes[n]| ==> GenuineEvent(s, s.inboxes[n][i]))
    && (forall tag, n :: tag in s.sent && 0 <= n < |s.inboxes| ==> EventAt(s, tag, n))
    && EmittedOnce(s)
  }

  lemma OneMoreReach(s: Cluster, s': Cluster, tag: Tag, n: Node, targets: set<Target<Conn>>)
    requires EmittedOnce(s) && (tag, n) !in s.reached
    requires s'.reached == s.reached[(tag, n) := targets] && s'.emitted == s.emitted + Tagged(tag, n, targets)
    ensures EmittedOnce(s')
  {
  }

  /** A step that publishes no event and handles none. */
  lemma OtherKeepsEvents(s: Cluster, s': Cluster, ms: seq<Message>)
    requires EventInv(s) && |s'.nodes| == |s.nodes| && s'.inboxes == PublishAll(s.inboxes, ms)
    requires s'.sent == s.sent && s'.reached == s.reached && s'.emitted == s.emitted
    requires forall m :: m in ms ==> !m.Event?
    ensures EventInv(s')
  {
    forall tag, n | tag in s'.sent && 0 <= n < |s'.inboxes|
      ensures EventAt(s', tag, n)
    {
      assert EventAt(s, tag, n);
      PublishedPending(s.inboxes, ms, n, EventOf(s.sent[tag], tag));
    }
  }

  lemma SendKeepsEvents(s: Cluster, s': Cluster, n: Node, x: Sending, tag: Tag)
    requires EventInv(s) && DoSend(s, s', n, x, tag)
    ensures EventInv(s')
  {
    OneMoreReach(s, s', tag, n, LocalTargets(s.nodes[n].rooms, x));
    forall t, k | t in s'.sent && 0 <= k < |s'.inboxes|
      ensures EventAt(s', t, k)
    {
      PublishedPending(s.inboxes, [EventOf(x, tag)], k, EventOf(s'.sent[t], t));
      if t != tag {
        assert EventAt(s, t, k);
      } else {
        NoEventYet(s, tag, x, k);
      }
    }
  }

  lemma NoEventYet(s: Cluster, tag: Tag, x: Sending, k: nat)
    requires EventInv(s) && tag !in s.sent && k < |s.inboxes|
    ensures Pending(s, k, EventOf(x, tag)) == 0
  {
  }

  lemma DeliverKeepsGenuine(s: Cluster, s': Cluster, n: Node)
    requires EventInv(s) && DoDeliver(s, s', n)
    ensures forall k, i :: 0 <= k < |s'.inboxes| && 0 <= i < |s'.inboxes[k]| ==> GenuineEvent(s', s'.inboxes[k][i])
  {
    var m := s.inboxes[n][0];
    var ms := Handle(n, s.nodes[n], m).published;
    forall k, i | 0 <= k < |s'.inboxes| && 0 <= i < |s'.inboxes[k]|
      ensures GenuineEvent(s', s'.inboxes[k][i])
    {
      var before := s.inboxes[n := s.inboxes[n][1..]][k];
      assert s'.inboxes[k] == before + ms;
      if i < |before| {
        assert GenuineEvent(s, s.inboxes[k][if k == n then i + 1 else i]);
      }
    }
  }

  lemma DeliverKeepsEmitted(s: Cluster, s': Cluster, n: Node)
    requires EmittedOnce(s) && DoDeliver(s, s', n)
    requires var m := s.inboxes[n][0];
             m.Event? && m.from != n ==> (m.tag, n) !in s.reached
    ensures EmittedOnce(s')
  {
    var m := s.inboxes[n][0];
    var e := Handle(n, s.nodes[n], m);
    if m.Event? && m.from != n {
      OneMoreReach(s, s', m.tag, n, e.emitted);
    } else {
      assert m.Event? ==> Tagged(m.tag, n, {}) == multiset{};
    }
  }

  lemma DeliverKeepsEventAt(s: Cluster, s': Cluster, n: Node, tag: Tag, k: Node)
    requires EventInv(s) && DoDeliver(s, s', n) && tag in s.sent && k < |s.inboxes| && EventAt(s, tag, k)
    ensures EventAt(s', tag, k)
  {
    var m := s.inboxes[n][0];
    assert GenuineEvent(s, m);
    DeliveredPending(s.inboxes, n, Handle(n, s.nodes[n], m).published, k, EventOf(s.sent[tag], tag));
  }

  lemma DeliverKeepsEvents(s: Cluster, s': Cluster, n: Node)
    requires EventInv(s) && DoDeliver(s, s', n)
    ensures EventInv(s')
  {
    var m := s.inboxes[n][0];
    DeliverKeepsGenuine(s, s', n);
    assert GenuineEvent(s, m) && m in s.inboxes[n];
    assert m.Event? ==> EventAt(s, m.tag, n);
    DeliverKeepsEmitted(s, s', n);
    forall tag, k | tag in s'.sent && 0 <= k < |s'.inboxes|
      ensures EventAt(s', tag, k)
    {
      assert EventAt(s, tag, k);
      DeliverKeepsEventAt(s, s', n, tag, k);
    }
  }

  lemma NothingPublished(inboxes: seq<seq<Message>>)
    ensures PublishAll(inboxes, []) == inboxes
  {
    forall k | 0 <= k < |inboxes| ensures PublishAll(inboxes, [])[k] == inboxes[k] {
      assert inboxes[k] + [] == inboxes[k];
    }
  }

  lemma NextKeepsEvents(s: Cluster, s': Cluster, step: Step)
    requires EventInv(s) && Next(s, s', step)
    ensures EventInv(s')
  {
    NothingPublished(s.inboxes);
    match step
    case Send(n, x, tag) => SendKeepsEvents(s, s', n, x, tag);
    case Deliver(n) => DeliverKeepsEvents(s, s', n);
    case PublishClear(n, room) => OtherKeepsEvents(s, s', [ClearRequest(n, room)]);
    case PublishAsk(id) => OtherKeepsEvents(s, s', [Ask(id, s.asked[id].question)]);
    case _ => OtherKeepsEvents(s, s', []);
  }

  // ---------- requests ----------

  function CountOf(a: Answer): nat { if a.Count? then a.connections else 0 }

  function NamesOf(a: Answer): set<string> { if a.Names? then a.rooms else {} }

  /** The sum of the answers the servers below `n` in `who` gave. */
  ghost function Total(answers: map<(ReqId, Node), Answer>, id: ReqId, who: set<Node>, n: nat): nat {
    if n == 0 then 0
    else
      var last := if n - 1 in who && (id, n - 1) in answers then CountOf(answers[(id, n - 1)]) else 0;
      Total(answers, id, who, n - 1) + last
  }

  ghost function AllNames(answers: map<(ReqId, Node), Answer>, id: ReqId, who: set<Node>): set<string> {
    set k, room | k in who && (id, k) in answers && room in NamesOf(answers[(id, k)]) :: room
  }

  ghost function Everyone(n: nat): (r: set<Node>)
    ensures |r| == n && forall k: Node :: k in r <==> k < n
  {
    if n == 0 then {} else Everyone(n - 1) + {n - 1}
  }

  lemma AllAreEveryone(who: set<Node>, n: nat)
    requires who <= Everyone(n)
    ensures |who| <= n && (|who| == n <==> who == Everyone(n))
  {
    Smaller(who, Everyone(n));
  }

  lemma {:induction false} Smaller(a: set<Node>, b: set<Node>)
    requires a <= b
    ensures |a| <= |b| && (|a| == |b| ==> a == b)
  {
    if a != {} {
      var x :| x in a;
      Smaller(a - {x}, b - {x});
    }
  }

  lemma {:induction false} TotalAdds(answers: map<(ReqId, Node), Answer>, id: ReqId, who: set<Node>, k: Node, n: nat)
    requires k !in who && (id, k) in answers
    ensures Total(answers, id, who + {k}, n)
         == Total(answers, id, who, n) + if k < n then CountOf(answers[(id, k)]) else 0
  {
    if n > 0 {
      TotalAdds(answers, id, who, k, n - 1);
    }
  }

  lemma {:induction false} TotalKept(a: map<(ReqId, Node), Answer>, b: map<(ReqId, Node), Answer>,
          id: ReqId, who: set<Node>, n: nat)
    requires forall k :: k in who ==> (id, k) in a && (id, k) in b && a[(id, k)] == b[(id, k)]
    ensures Total(a, id, who, n) == Total(b, id, who, n)
  {
    if n > 0 {
      TotalKept(a, b, id, who, n - 1);
    }
  }

  /** A published request waits once in the inbox of each server that has not answered it. */
  ghost predicate AskAt(s: Cluster, id: ReqId, n: Node)
    requires id in s.asked && n < |s.inboxes|
  {
    && ((id, n) in s.answers ==> s.asked[id].published)
    && Pending(s, n, Ask(id, s.asked[id].question)) == if s.asked[id].published && (id, n) !in s.answers then 1 else 0
  }

  ghost predicate GenuineAsk(s: Cluster, m: Message) {
    && (m.Ask? ==> m.id in s.asked && m.question == s.asked[m.id].question)
    && (m.Reply? ==> m.id in s.asked && m.from < |s.nodes|)
    && (m.Reply? ==> (m.id, m.from) in s.answers && m.answer == s.answers[(m.id, m.from)])
  }

  /** The request is registered at the server that asked. */
  ghost predicate Live(s: Cluster, id: ReqId) {
    && id in s.asked && s.asked[id].owner < |s.nodes|
    && id in s.nodes[s.asked[id].owner].requests
  }

  /** What a registered request has collected so far. */
  ghost predicate Tallied(req: Request, id: ReqId, who: set<Node>, answers: map<(ReqId, Node), Answer>, n: nat) {
    && who <= Everyone(n) && (forall k :: k in who ==> (id, k) in answers)
    && req.numSub == n && req.msgCount == |who|
    && req.connections == Total(answers, id, who, n) && req.names == AllNames(answers, id, who)
    && req.done == if |who| == n then 1 else 0
  }

  /** An answer waits once in the inbox of the server that asked until it is counted there. */
  ghost predicate ReplyAt(s: Cluster, id: ReqId, k: Node)
    requires Live(s, id) && id in s.got && Sized(s)
  {
    (id, k) in s.answers ==>
      Pending(s, s.asked[id].owner, Reply(id, k, s.answers[(id, k)])) == if k in s.got[id] then 0 else 1
  }

  ghost predicate Collecting(s: Cluster, id: ReqId)
    requires Live(s, id) && Sized(s)
  {
    && id in s.got
    && Tallied(s.nodes[s.asked[id].owner].requests[id], id, s.got[id], s.answers, |s.nodes|)
    && forall k :: 0 <= k < |s.nodes| ==> ReplyAt(s, id, k)
  }

  /** What all servers together answered. */
  ghost function Gathered(answers: map<(ReqId, Node), Answer>, id: ReqId, q: Question, n: nat): Answer {
    if q.LenOf? then Count(Total(answers, id, Everyone(n), n)) else Names(AllNames(answers, id, Everyone(n)))
  }

  ghost predicate Returned(s: Cluster, id: ReqId) {
    && id in s.asked && (forall k :: 0 <= k < |s.nodes| ==> (id, k) in s.answers)
    && id in s.results && s.results[id] == Gathered(s.answers, id, s.asked[id].question, |s.nodes|)
  }

  /** A request is collecting its answers, or it has returned what everyone answered. */
  ghost predicate IdInv(s: Cluster, id: ReqId)
    requires Sized(s)
  {
    && (Live(s, id) ==> Collecting(s, id))
    && (Live(s, id) || Returned(s, id))
    && (id in s.results ==> Returned(s, id) && !Live(s, id))
  }

  ghost predicate AllGenuine(s: Cluster, inboxes: seq<seq<Message>>) {
    forall k, i :: 0 <= k < |inboxes| && 0 <= i < |inboxes[k]| ==> GenuineAsk(s, inboxes[k][i])
  }

  ghost predicate Base(s: Cluster) {
    && Sized(s)
    && (forall id: ReqId, n: Node :: (id, n) in s.answers ==> id in s.asked && n < |s.nodes|)
    && (forall id :: id in s.asked ==> s.asked[id].owner < |s.nodes|)
    && (forall n, id :: 0 <= n < |s.nodes| && id in s.nodes[n].requests ==> id in s.asked && s.asked[id].owner == n)
    && s.results.Keys <= s.asked.Keys
  }

  ghost predicate AskInv(s: Cluster) {
    && Base(s)
    && AllGenuine(s, s.inboxes)
    && (forall id, n :: id in s.asked && 0 <= n < |s.inboxes| ==> AskAt(s, id, n))
    && (forall id :: id in s.asked ==> IdInv(s, id))
  }

  // ---------- what leaves a request alone ----------

  /** The step does not concern this request. */
  ghost predicate SameAt(s: Cluster, s': Cluster, id: ReqId)
    requires id in s.asked && Base(s) && Base(s')
  {
    var n := s.asked[id].owner;
    && |s'.nodes| == |s.nodes| && id in s'.asked
    && s'.asked[id].owner == n && s'.asked[id].question == s.asked[id].question
    && (forall k: Node :: ((id, k) in s.answers <==> (id, k) in s'.answers)
                          && ((id, k) in s.answers ==> s'.answers[(id, k)] == s.answers[(id, k)]))
    && (forall k: Node, a: Answer :: Pending(s', n, Reply(id, k, a)) == Pending(s, n, Reply(id, k, a)))
    && (id in s.got ==> id in s'.got && s'.got[id] == s.got[id])
    && (id in s.results <==> id in s'.results) && (id in s.results ==> s'.results[id] == s.results[id])
    && (id in s.nodes[n].requests <==> id in s'.nodes[n].requests)
    && (id in s.nodes[n].requests ==> s'.nodes[n].requests[id] == s.nodes[n].requests[id])
  }

  lemma TallyKept(req: Request, id: ReqId, who: set<Node>,
          a: map<(ReqId, Node), Answer>, b: map<(ReqId, Node), Answer>, n: nat)
    requires Tallied(req, id, who, a, n)
    requires forall k :: k in who ==> (id, k) in b && b[(id, k)] == a[(id, k)]
    ensures Tallied(req, id, who, b, n)
  {
    TotalKept(a, b, id, who, n);
    assert AllNames(a, id, who) == AllNames(b, id, who);
  }

  lemma IdKept(s: Cluster, s': Cluster, id: ReqId)
    requires Base(s) && Base(s') && id in s.asked && IdInv(s, id) && SameAt(s, s', id)
    ensures IdInv(s', id)
  {
    if Live(s, id) {
      TallyKept(s.nodes[s.asked[id].owner].requests[id], id, s.got[id], s.answers, s'.answers, |s.nodes|);
      forall k | 0 <= k < |s.nodes| ensures ReplyAt(s', id, k) {
        assert ReplyAt(s, id, k);
      }
    } else {
      TotalKept(s.answers, s'.answers, id, Everyone(|s.nodes|), |s.nodes|);
      assert AllNames(s.answers, id, Everyone(|s.nodes|)) == AllNames(s'.answers, id, Everyone(|s.nodes|));
    }
  }

  lemma PublishedGenuine(s: Cluster, s': Cluster, inboxes: seq<seq<Message>>, ms: seq<Message>)
    requires AllGenuine(s, inboxes)
    requires forall k, i :: 0 <= k < |inboxes| && 0 <= i < |inboxes[k]| ==>
               (GenuineAsk(s, inboxes[k][i]) ==> GenuineAsk(s', inboxes[k][i]))
    requires forall i :: 0 <= i < |ms| ==> GenuineAsk(s', ms[i])
    ensures AllGenuine(s', PublishAll(inboxes, ms))
  {
    var r := PublishAll(inboxes, ms);
    forall k, i | 0 <= k < |r| && 0 <= i < |r[k]|
      ensures GenuineAsk(s', r[k][i])
    {
      assert r[k] == inboxes[k] + ms;
      if i < |inboxes[k]| {
        assert GenuineAsk(s, inboxes[k][i]);
      }
    }
  }

  lemma TailGenuine(s: Cluster, n: nat)
    requires AllGenuine(s, s.inboxes) && n < |s.inboxes| && s.inboxes[n] != []
    ensures AllGenuine(s, s.inboxes[n := s.inboxes[n][1..]])
  {
    var r := s.inboxes[n := s.inboxes[n][1..]];
    forall k, i | 0 <= k < |r| && 0 <= i < |r[k]|
      ensures GenuineAsk(s, r[k][i])
    {
      assert GenuineAsk(s, s.inboxes[k][if k == n then i + 1 else i]);
    }
  }

  // ---------- steps that neither ask nor answer ----------

  ghost predicate OfRequest(m: Message) { m.Ask? || m.Reply? }

  /** Requests and their history stay as they are, and so do their messages. */
  ghost predicate SameRequests(s: Cluster, s': Cluster) {
    && Sized(s) && |s'.nodes| == |s.nodes| && |s'.inboxes| == |s.inboxes|
    && s'.asked == s.asked && s'.results == s.results && s'.answers == s.answers && s'.got == s.got
    && (forall k :: 0 <= k < |s.nodes| ==> s'.nodes[k].requests == s.nodes[k].requests)
    && (forall k, m :: 0 <= k < |s.inboxes| && OfRequest(m) ==> Pending(s', k, m) == Pending(s, k, m))
  }

  lemma OthersKeepId(s: Cluster, s': Cluster, id: ReqId)
    requires Base(s) && Base(s') && SameRequests(s, s') && id in s.asked && IdInv(s, id)
    ensures IdInv(s', id)
  {
    assert SameAt(s, s', id);
    IdKept(s, s', id);
  }

  lemma OthersKeepAsks(s: Cluster, s': Cluster)
    requires AskInv(s) && SameRequests(s, s') && AllGenuine(s', s'.inboxes)
    ensures AskInv(s')
  {
    forall id, n | id in s'.asked && 0 <= n < |s'.inboxes|
      ensures AskAt(s', id, n)
    {
      assert AskAt(s, id, n);
    }
    forall id | id in s'.asked
      ensures IdInv(s', id)
    {
      OthersKeepId(s, s', id);
    }
  }

  lemma AppendKeepsAsks(s: Cluster, s': Cluster, ms: seq<Message>)
    requires AskInv(s) && |s'.nodes| == |s.nodes| && s'.inboxes == PublishAll(s.inboxes, ms)
    requires s'.asked == s.asked && s'.results == s.results && s'.answers == s.answers && s'.got == s.got
    requires forall k :: 0 <= k < |s.nodes| ==> s'.nodes[k].requests == s.nodes[k].requests
    requires forall i :: 0 <= i < |ms| ==> !OfRequest(ms[i])
    ensures AskInv(s')
  {
    PublishedGenuine(s, s', s.inboxes, ms);
    forall k, m | 0 <= k < |s.inboxes| && OfRequest(m)
      ensures Pending(s', k, m) == Pending(s, k, m)
    {
      PublishedPending(s.inboxes, ms, k, m);
      assert m !in ms;
    }
    OthersKeepAsks(s, s');
  }

  // ---------- asking ----------

  lemma RegisterKeepsBase(s: Cluster, s': Cluster, n: Node, id: ReqId, q: Question)
    requires Base(s) && AllGenuine(s, s.inboxes) && DoRegister(s, s', n, id, q)
    ensures Base(s') && AllGenuine(s', s'.inboxes)
  {
    NothingPublished(s.inboxes);
    PublishedGenuine(s, s', s.inboxes, []);
  }

  lemma RegisterKeepsId(s: Cluster, s': Cluster, n: Node, id: ReqId, q: Question, x: ReqId)
    requires Base(s) && Base(s') && DoRegister(s, s', n, id, q) && x in s'.asked && (x in s.asked ==> IdInv(s, x))
    ensures IdInv(s', x)
  {
    if x == id {
      NobodyAnswered(s.answers, id, |s.nodes|);
    } else {
      assert SameAt(s, s', x);
      IdKept(s, s', x);
    }
  }

  lemma RegisterKeepsAsks(s: Cluster, s': Cluster, n: Node, id: ReqId, q: Question)
    requires AskInv(s) && DoRegister(s, s', n, id, q)
    ensures AskInv(s')
  {
    RegisterKeepsBase(s, s', n, id, q);
    forall x, k | x in s'.asked && 0 <= k < |s'.inboxes|
      ensures AskAt(s', x, k)
    {
      if x == id {
        NoAskYet(s, id, q, k);
      } else {
        assert AskAt(s, x, k);
      }
    }
    forall x | x in s'.asked
      ensures IdInv(s', x)
    {
      RegisterKeepsId(s, s', n, id, q, x);
    }
  }

  lemma NoAskYet(s: Cluster, id: ReqId, q: Question, k: nat)
    requires AllGenuine(s, s.inboxes) && id !in s.asked && k < |s.inboxes|
    ensures Pending(s, k, Ask(id, q)) == 0
  {
  }

  lemma {:induction false} NobodyAnswered(answers: map<(ReqId, Node), Answer>, id: ReqId, n: nat)
    ensures Total(answers, id, {}, n) == 0 && AllNames(answers, id, {}) == {}
  {
    if n > 0 {
      NobodyAnswered(answers, id, n - 1);
    }
  }

  lemma PublishAskKeepsBase(s: Cluster, s': Cluster, id: ReqId)
    requires Base(s) && AllGenuine(s, s.inboxes) && DoPublishAsk(s, s', id)
    ensures Base(s') && AllGenuine(s', s'.inboxes)
  {
    PublishedGenuine(s, s', s.inboxes, [Ask(id, s.asked[id].question)]);
  }

  lemma PublishAskKeepsId(s: Cluster, s': Cluster, id: ReqId, x: ReqId)
    requires Base(s) && Base(s') && DoPublishAsk(s, s', id) && x in s.asked && IdInv(s, x)
    ensures IdInv(s', x)
  {
    assert SameAt(s, s', x);
    IdKept(s, s', x);
  }

  lemma PublishAskKeepsAsks(s: Cluster, s': Cluster, id: ReqId)
    requires AskInv(s) && DoPublishAsk(s, s', id)
    ensures AskInv(s')
  {
    PublishAskKeepsBase(s, s', id);
    forall x, k | x in s'.asked && 0 <= k < |s'.inboxes|
      ensures AskAt(s', x, k)
    {
      assert AskAt(s, x, k);
      PublishedPending(s.inboxes, [Ask(id, s.asked[id].question)], k, Ask(x, s.asked[x].question));
    }
    forall x | x in s'.asked
      ensures IdInv(s', x)
    {
      PublishAskKeepsId(s, s', id, x);
    }
  }

  lemma ReturnKeepsBase(s: Cluster, s': Cluster, id: ReqId)
    requires Base(s) && AllGenuine(s, s.inboxes) && DoReturn(s, s', id)
    ensures Base(s') && AllGenuine(s', s'.inboxes)
  {
    NothingPublished(s.inboxes);
    PublishedGenuine(s, s', s.inboxes, []);
  }

  lemma ReturnKeepsId(s: Cluster, s': Cluster, id: ReqId, x: ReqId)
    requires Base(s) && Base(s') && DoReturn(s, s', id) && x in s.asked && IdInv(s, x)
    ensures IdInv(s', x)
  {
    if x == id {
      AllAreEveryone(s.got[id], |s.nodes|);
    } else {
      assert SameAt(s, s', x);
      IdKept(s, s', x);
    }
  }

  lemma ReturnKeepsAsks(s: Cluster, s': Cluster, id: ReqId)
    requires AskInv(s) && DoReturn(s, s', id)
    ensures AskInv(s')
  {
    ReturnKeepsBase(s, s', id);
    forall x, k | x in s'.asked && 0 <= k < |s'.inboxes|
      ensures AskAt(s', x, k)
    {
      assert AskAt(s, x, k);
    }
    forall x | x in s'.asked
      ensures IdInv(s', x)
    {
      ReturnKeepsId(s, s', id, x);
    }
  }

  // ---------- delivering ----------

  /** A handled event or clear request concerns no request. */
  lemma DeliverOtherKeepsAsks(s: Cluster, s': Cluster, n: Node)
    requires AskInv(s) && DoDeliver(s, s', n) && !OfRequest(s.inboxes[n][0])
    ensures AskInv(s')
  {
    TailGenuine(s, n);
    PublishedGenuine(s, s', s.inboxes[n := s.inboxes[n][1..]], []);
    forall k, m | 0 <= k < |s.inboxes| && OfRequest(m)
      ensures Pending(s', k, m) == Pending(s, k, m)
    {
      DeliveredPending(s.inboxes, n, [], k, m);
    }
    OthersKeepAsks(s, s');
  }

  /** The request at the head of an inbox is one its server has not answered. */
  lemma HeadIsUnanswered(s: Cluster, n: Node)
    requires AskInv(s) && n < |s.inboxes| && s.inboxes[n] != [] && s.inboxes[n][0].Ask?
    ensures var m := s.inboxes[n][0];
            && m.id in s.asked && m.question == s.asked[m.id].question
            && s.asked[m.id].published && (m.id, n) !in s.answers
  {
    var m := s.inboxes[n][0];
    assert GenuineAsk(s, m) && m in s.inboxes[n] && AskAt(s, m.id, n);
  }

  lemma DeliverAskKeepsBase(s: Cluster, s': Cluster, n: Node)
    requires Base(s) && AllGenuine(s, s.inboxes) && DoDeliver(s, s', n) && s.inboxes[n][0].Ask?
    requires s.inboxes[n][0].id in s.asked && (s.inboxes[n][0].id, n) !in s.answers
    ensures Base(s') && AllGenuine(s', s'.inboxes)
  {
    var m := s.inboxes[n][0];
    TailGenuine(s, n);
    var reply := Reply(m.id, n, AnswerTo(s.nodes[n].rooms, m.question));
    PublishedGenuine(s, s', s.inboxes[n := s.inboxes[n][1..]], [reply]);
  }

  lemma DeliverAskSameAt(s: Cluster, s': Cluster, n: Node, x: ReqId)
    requires Base(s) && Base(s') && DoDeliver(s, s', n) && s.inboxes[n][0].Ask?
    requires x in s.asked && x != s.inboxes[n][0].id
    requires forall k: Node, b: Answer ::
               Pending(s', s.asked[x].owner, Reply(x, k, b)) == Pending(s, s.asked[x].owner, Reply(x, k, b))
    ensures SameAt(s, s', x)
  {
  }

  lemma DeliverAskKeepsId(s: Cluster, s': Cluster, n: Node, x: ReqId)
    requires Base(s) && Base(s') && AllGenuine(s, s.inboxes) && DoDeliver(s, s', n) && s.inboxes[n][0].Ask?
    requires (s.inboxes[n][0].id, n) !in s.answers && x in s.asked && IdInv(s, x)
    ensures IdInv(s', x)
  {
    var m := s.inboxes[n][0];
    var reply := Reply(m.id, n, AnswerTo(s.nodes[n].rooms, m.question));
    forall k: Node, b: Answer
      ensures Pending(s', s.asked[x].owner, Reply(x, k, b))
           == Pending(s, s.asked[x].owner, Reply(x, k, b)) + if reply == Reply(x, k, b) then 1 else 0
    {
      DeliveredPending(s.inboxes, n, [reply], s.asked[x].owner, Reply(x, k, b));
    }
    if x == m.id {
      AnsweredKeepsId(s, s', n, x, reply.answer);
    } else {
      DeliverAskSameAt(s, s', n, x);
      IdKept(s, s', x);
    }
  }

  lemma DeliverAskKeepsAsks(s: Cluster, s': Cluster, n: Node)
    requires AskInv(s) && DoDeliver(s, s', n) && s.inboxes[n][0].Ask?
    ensures AskInv(s')
  {
    var m := s.inboxes[n][0];
    HeadIsUnanswered(s, n);
    DeliverAskKeepsBase(s, s', n);
    forall x, k | x in s'.asked && 0 <= k < |s'.inboxes|
      ensures AskAt(s', x, k)
    {
      assert AskAt(s, x, k);
      DeliveredPending(s.inboxes, n, Handle(n, s.nodes[n], m).published, k, Ask(x, s.asked[x].question));
    }
    forall x | x in s'.asked
      ensures IdInv(s', x)
    {
      DeliverAskKeepsId(s, s', n, x);
    }
  }

  lemma AnsweredKeepsId(s: Cluster, s': Cluster, n: Node, id: ReqId, a: Answer)
    requires Base(s) && Base(s') && AllGenuine(s, s.inboxes) && id in s.asked && IdInv(s, id)
    requires (id, n) !in s.answers && n < |s.nodes| && |s'.nodes| == |s.nodes|
    requires s'.asked == s.asked && s'.got == s.got && s'.results == s.results && s'.answers == s.answers[(id, n) := a]
    requires forall k :: 0 <= k < |s.nodes| ==> s'.nodes[k].requests == s.nodes[k].requests
    requires forall k: Node, b: Answer :: Pending(s', s.asked[id].owner, Reply(id, k, b))
               == Pending(s, s.asked[id].owner, Reply(id, k, b)) + if k == n && b == a then 1 else 0
    ensures IdInv(s', id)
  {
    assert Live(s, id);
    TallyKept(s.nodes[s.asked[id].owner].requests[id], id, s.got[id], s.answers, s'.answers, |s.nodes|);
    forall k | 0 <= k < |s.nodes| ensures ReplyAt(s', id, k) {
      assert ReplyAt(s, id, k);
      if k == n {
        NoReplyYet(s, id, n, a, s.asked[id].owner);
      }
    }
  }

  lemma NoReplyYet(s: Cluster, id: ReqId, n: Node, a: Answer, k: nat)
    requires AllGenuine(s, s.inboxes) && (id, n) !in s.answers && k < |s.inboxes|
    ensures Pending(s, k, Reply(id, n, a)) == 0
  {
  }

  lemma DeliverReplyKeepsBase(s: Cluster, s': Cluster, n: Node)
    requires Base(s) && AllGenuine(s, s.inboxes) && DoDeliver(s, s', n) && s.inboxes[n][0].Reply?
    ensures Base(s') && AllGenuine(s', s'.inboxes)
    ensures GenuineAsk(s, s.inboxes[n][0])
  {
    TailGenuine(s, n);
    PublishedGenuine(s, s', s.inboxes[n := s.inboxes[n][1..]], []);
  }

  lemma NamesAdd(answers: map<(ReqId, Node), Answer>, id: ReqId, who: set<Node>, k: Node)
    requires (id, k) in answers
    ensures AllNames(answers, id, who + {k}) == AllNames(answers, id, who) + NamesOf(answers[(id, k)])
  {
  }

  lemma CollectOne(req: Request, id: ReqId, who: set<Node>, answers: map<(ReqId, Node), Answer>, n: nat, k: Node)
    requires Tallied(req, id, who, answers, n) && k < n && k !in who && (id, k) in answers
    ensures Tallied(Collected(req, answers[(id, k)]), id, who + {k}, answers, n)
  {
    AllAreEveryone(who, n);
    AllAreEveryone(who + {k}, n);
    TotalAdds(answers, id, who, k, n);
    NamesAdd(answers, id, who, k);
    assert |who + {k}| == |who| + 1;
  }

  /** An answer that is counted was not counted before. */
  lemma CountedKeepsId(s: Cluster, s': Cluster, n: Node, m: Message)
    requires Base(s) && Base(s') && DoDeliver(s, s', n) && m == s.inboxes[n][0] && m.Reply? && GenuineAsk(s, m)
    requires s.asked[m.id].owner == n && IdInv(s, m.id) && m.id in s.nodes[n].requests
    requires forall k: Node, b: Answer :: Pending(s', n, Reply(m.id, k, b))
               == Pending(s, n, Reply(m.id, k, b)) - if m == Reply(m.id, k, b) then 1 else 0
    ensures IdInv(s', m.id)
  {
    var (id, who) := (m.id, s.got[m.id]);
    assert m in s.inboxes[n] && ReplyAt(s, id, m.from);
    CollectOne(s.nodes[n].requests[id], id, who, s.answers, |s.nodes|, m.from);
    forall k | 0 <= k < |s.nodes| ensures ReplyAt(s', id, k) {
      assert ReplyAt(s, id, k);
    }
  }

  lemma DeliverReplyKeepsId(s: Cluster, s': Cluster, n: Node, x: ReqId)
    requires Base(s) && Base(s') && DoDeliver(s, s', n) && s.inboxes[n][0].Reply? && GenuineAsk(s, s.inboxes[n][0])
    requires x in s.asked && IdInv(s, x)
    ensures IdInv(s', x)
  {
    var m := s.inboxes[n][0];
    forall k: Node, b: Answer
      ensures Pending(s', s.asked[x].owner, Reply(x, k, b))
           == Pending(s, s.asked[x].owner, Reply(x, k, b))
              - if s.asked[x].owner == n && m == Reply(x, k, b) then 1 else 0
    {
      DeliveredPending(s.inboxes, n, [], s.asked[x].owner, Reply(x, k, b));
    }
    if x == m.id && s.asked[x].owner == n {
      if x in s.nodes[n].requests {
        CountedKeepsId(s, s', n, m);
      } else {
        ReturnedKept(s, s', x);
      }
    } else {
      assert SameAt(s, s', x);
      IdKept(s, s', x);
    }
  }

  lemma ReturnedKept(s: Cluster, s': Cluster, id: ReqId)
    requires Base(s) && Base(s') && id in s.asked && IdInv(s, id) && !Live(s, id) && !Live(s', id)
    requires s'.answers == s.answers && s'.results == s.results && s'.asked == s.asked && |s'.nodes| == |s.nodes|
    ensures IdInv(s', id)
  {
  }

  lemma DeliverReplyKeepsAsks(s: Cluster, s': Cluster, n: Node)
    requires AskInv(s) && DoDeliver(s, s', n) && s.inboxes[n][0].Reply?
    ensures AskInv(s')
  {
    DeliverReplyKeepsBase(s, s', n);
    forall x, k | x in s'.asked && 0 <= k < |s'.inboxes|
      ensures AskAt(s', x, k)
    {
      assert AskAt(s, x, k);
      DeliveredPending(s.inboxes, n, [], k, Ask(x, s.asked[x].question));
    }
    forall x | x in s'.asked
      ensures IdInv(s', x)
    {
      DeliverReplyKeepsId(s, s', n, x);
    }
  }

  lemma DeliverKeepsAsks(s: Cluster, s': Cluster, n: Node)
    requires AskInv(s) && DoDeliver(s, s', n)
    ensures AskInv(s')
  {
    var m := s.inboxes[n][0];
    if m.Ask? {
      DeliverAskKeepsAsks(s, s', n);
    } else if m.Reply? {
      DeliverReplyKeepsAsks(s, s', n);
    } else {
      DeliverOtherKeepsAsks(s, s', n);
    }
  }

  lemma NextKeepsAsks(s: Cluster, s': Cluster, step: Step)
    requires AskInv(s) && Next(s, s', step)
    ensures AskInv(s')
  {
    NothingPublished(s.inboxes);
    match step
    case Member(n, change) => AppendKeepsAsks(s, s', []);
    case Send(n, x, tag) => AppendKeepsAsks(s, s', [EventOf(x, tag)]);
    case Clear(n, room) => AppendKeepsAsks(s, s', []);
    case PublishClear(n, room) => AppendKeepsAsks(s, s', [ClearRequest(n, room)]);
    case Register(n, id, q) => RegisterKeepsAsks(s, s', n, id, q);
    case PublishAsk(id) => PublishAskKeepsAsks(s, s', id);
    case Deliver(n) => DeliverKeepsAsks(s, s', n);
    case Return(id) => ReturnKeepsAsks(s, s', id);
  }
}
