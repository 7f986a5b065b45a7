/** Ack callbacks of one connection (namespace_conn.go, connection_handlers.go, connection.go). Ids come from one
    counter; callbacks live with the instance of the namespace that emitted them, and a namespace that is left
    and entered again is a new instance. */
module Acks {
  import opened Bytes

  type Callback = nat

  /** A `namespaceConn`, by the order of its creation. */
  type Instance = nat

  datatype Binding = Binding(namespace: string, acks: map<uint64, Callback>)

  /** Who was given an id, and the callback it stands for. */
  datatype Issue = Issue(instance: Instance, callback: Callback)

  datatype Firing = Firing(id: uint64, namespace: string, issue: Issue)

  datatype State = State(
    id: uint64,
    instances: seq<Binding>,
    current: map<string, Instance>,         // the connection's namespaces
    unsent: map<uint64, Instance>,          // stored callbacks whose packet is not written yet
    written: seq<(string, uint64)>,         // packets that ask for an ack: namespace and id
    serving: Option<(Instance, uint64)>,    // the ack being handled, up to the deferred delete
    reading: bool,
    // History.
    emits: nat,
    issued: map<uint64, Issue>,
    answered: set<uint64>,                  // ids that an ack has found registered
    finished: set<uint64>,                  // ids whose callback has been deleted again
    fired: seq<Firing>
  )

  const INITIAL: State := State(0, [], map[], map[], [], None, true, 0, map[], {}, {}, [])

  /** The root namespace has two names. */
  function Key(namespace: string): string { if namespace == "/" then "" else namespace }

  function NextId(id: uint64): uint64 { (id + 1) % TWO_64 }

  function Callbacks(fired: seq<Firing>): seq<Callback> {
    seq(|fired|, i requires 0 <= i < |fired| => fired[i].issue.callback)
  }

  // ---------- steps ----------

  datatype Step =
    | Connect(namespace: string)
    | Disconnect(namespace: string)
    | Emit(instance: Instance, callback: Callback)
    | Write(id: uint64)
    | AckBegin(namespace: string, id: uint64, decodes: bool)
    | AckEnd
    | Stop

  /** Packets are handled one at a time. */
  predicate Idle(s: State) { s.reading && s.serving.None? }

  predicate DoConnect(s: State, s': State, ns: string) {
    && Idle(s)
    && var key := Key(ns);
    && s' == if key in s.current then s
             else s.(instances := s.instances + [Binding(key, map[])], current := s.current[key := |s.instances|])
  }

  predicate DoDisconnect(s: State, s': State, ns: string) {
    Idle(s) && s' == s.(current := s.current - {Key(ns)})
  }

  /** Takes an id and stores the callback under it; the instance need not be current any more. */
  predicate DoEmit(s: State, s': State, i: Instance, cb: Callback) {
    && i < |s.instances|
    && var id := NextId(s.id);
    && s' == s.(id := id, instances := s.instances[i := s.instances[i].(acks := s.instances[i].acks[id := cb])],
                unsent := s.unsent[id := i], emits := s.emits + 1, issued := s.issued[id := Issue(i, cb)])
  }

  /** Then the packet is written. */
  predicate DoWrite(s: State, s': State, id: uint64) {
    && id in s.unsent && s.unsent[id] < |s.instances|
    && s' == s.(unsent := s.unsent - {id}, written := s.written + [(Key(s.instances[s.unsent[id]].namespace), id)])
  }

  /** An ack arrives: the callback it finds is called, if the arguments decode. */
  predicate DoAckBegin(s: State, s': State, ns: string, id: uint64, decodes: bool) {
    && Idle(s)
    && var key := Key(ns);
    && if key !in s.current || s.current[key] >= |s.instances| then s' == s
       else
         var i := s.current[key];
         if id !in s.instances[i].acks then s' == s.(serving := Some((i, id)), reading := decodes)
         else s' == s.(serving := Some((i, id)), reading := decodes, answered := s.answered + {id},
                       fired := if !decodes then s.fired
                                else s.fired + [Firing(id, key, Issue(i, s.instances[i].acks[id]))])
  }

  predicate DoAckEnd(s: State, s': State) {
    && s.serving.Some? && s.serving.value.0 < |s.instances|
    && var (i, id) := s.serving.value;
    && s' == s.(serving := None, instances := s.instances[i := s.instances[i].(acks := s.instances[i].acks - {id})],
                finished := if id in s.instances[i].acks then s.finished + {id} else s.finished)
  }

  /** A packet for a namespace nobody handles, one that does not decode or a failing handler ends the reading. */
  predicate DoStop(s: State, s': State) {
    Idle(s) && s' == s.(reading := false)
  }

  predicate Next(s: State, s': State, step: Step) {
    match step
    case Connect(ns) => DoConnect(s, s', ns)
    case Disconnect(ns) => DoDisconnect(s, s', ns)
    case Emit(i, cb) => DoEmit(s, s', i, cb)
    case Write(id) => DoWrite(s, s', id)
    case AckBegin(ns, id, decodes) => DoAckBegin(s, s', ns, id, decodes)
    case AckEnd => DoAckEnd(s, s')
    case Stop => DoStop(s, s')
  }

  predicate Run(states: seq<State>, steps: seq<Step>) {
    && |states| == |steps| + 1 && states[0] == INITIAL
    && forall i :: 0 <= i < |steps| ==> Next(states[i], states[i + 1], steps[i])
  }

  // ---------- what every run keeps ----------

  /** An id is registered with an instance from its issue until its callback is deleted. */
  ghost predicate Registered(s: State, i: Instance, id: uint64)
    requires i < |s.instances|
  {
    && (id in s.instances[i].acks <==>
          id in s.issued && s.issued[id].instance == i && id !in s.finished)
    && (id in s.instances[i].acks ==> s.issued[id].callback == s.instances[i].acks[id])
  }

  ghost predicate FiredRight(s: State, f: Firing) {
    && f.id in s.answered && f.id in s.issued && f.issue == s.issued[f.id]
    && f.issue.instance < |s.instances| && f.namespace == s.instances[f.issue.instance].namespace
  }

  ghost predicate Inv(s: State) {
    && s.id == s.emits
    && (forall id :: id in s.issued ==> id <= s.id && s.issued[id].instance < |s.instances|)
    && (forall key :: key in s.current ==>
          s.current[key] < |s.instances| && s.instances[s.current[key]].namespace == key)
    && (forall i :: 0 <= i < |s.instances| ==> Key(s.instances[i].namespace) == s.instances[i].namespace)
    && (forall i, id :: 0 <= i < |s.instances| ==> Registered(s, i, id))
    && s.answered <= s.issued.Keys && s.finished <= s.issued.Keys
    && (forall id :: id in s.answered && id !in s.finished ==> s.serving == Some((s.issued[id].instance, id)))
    && (s.serving.Some? ==> s.serving.value.0 < |s.instances|)
    && (forall id :: id in s.unsent ==> id in s.issued && s.issued[id].instance == s.unsent[id])
  }

  ghost predicate History(s: State) {
    && (forall k :: 0 <= k < |s.fired| ==> FiredRight(s, s.fired[k]))
    && (forall j, k :: 0 <= j < k < |s.fired| ==> s.fired[j].id != s.fired[k].id)
    && (forall k :: 0 <= k < |s.written| ==>
          s.written[k].1 in s.issued && s.issued[s.written[k].1].instance < |s.instances|
          && s.written[k].0 == s.instances[s.issued[s.written[k].1].instance].namespace)
  }

  lemma EmitKeeps(s: State, s': State, i: Instance, cb: Callback)
    requires Inv(s) && History(s) && DoEmit(s, s', i, cb) && s'.emits < TWO_64
    ensures Inv(s') && History(s')
  {
    forall j, id | 0 <= j < |s'.instances|
      ensures Registered(s', j, id)
    {
      assert Registered(s, j, id);
    }
    forall k | 0 <= k < |s'.fired| ensures FiredRight(s', s'.fired[k]) {
      assert FiredRight(s, s.fired[k]);
    }
  }

  lemma AckBeginKeeps(s: State, s': State, ns: string, id: uint64, decodes: bool)
    requires Inv(s) && History(s) && DoAckBegin(s, s', ns, id, decodes)
    ensures Inv(s') && History(s')
  {
    if Key(ns) in s.current {
      assert Registered(s, s.current[Key(ns)], id);
    }
    forall j, k | 0 <= j < |s'.instances|
      ensures Registered(s', j, k)
    {
      assert Registered(s, j, k);
    }
    forall k | 0 <= k < |s'.fired| ensures FiredRight(s', s'.fired[k]) {
      assert k < |s.fired| ==> FiredRight(s, s.fired[k]);
    }
  }

  lemma ConnectKeeps(s: State, s': State, ns: string)
    requires Inv(s) && History(s) && DoConnect(s, s', ns)
    ensures Inv(s') && History(s')
  {
    forall j, k | 0 <= j < |s'.instances|
      ensures Registered(s', j, k)
    {
      if j < |s.instances| {
        assert Registered(s, j, k);
      }
    }
    forall k | 0 <= k < |s'.fired| ensures FiredRight(s', s'.fired[k]) {
      assert FiredRight(s, s.fired[k]);
    }
  }

  lemma AckEndKeeps(s: State, s': State)
    requires Inv(s) && History(s) && DoAckEnd(s, s')
    ensures Inv(s') && History(s')
  {
    var (i, id) := s.serving.value;
    assert Registered(s, i, id);
    forall j, k | 0 <= j < |s'.instances|
      ensures Registered(s', j, k)
    {
      assert Registered(s, j, k);
    }
    forall k | 0 <= k < |s'.fired| ensures FiredRight(s', s'.fired[k]) {
      assert FiredRight(s, s.fired[k]);
    }
  }

  lemma WriteKeeps(s: State, s': State, id: uint64)
    requires Inv(s) && History(s) && DoWrite(s, s', id)
    ensures Inv(s') && History(s')
  {
    forall j, k | 0 <= j < |s'.instances| ensures Registered(s', j, k) {
      assert Registered(s, j, k);
    }
    forall k | 0 <= k < |s'.fired| ensures FiredRight(s', s'.fired[k]) {
      assert FiredRight(s, s.fired[k]);
    }
  }

  lemma StopKeeps(s: State, s': State)
    requires Inv(s) && History(s) && DoStop(s, s')
    ensures Inv(s') && History(s')
  {
    forall j, k | 0 <= j < |s'.instances| ensures Registered(s', j, k) {
      assert Registered(s, j, k);
    }
    forall k | 0 <= k < |s'.fired| ensures FiredRight(s', s'.fired[k]) {
      assert FiredRight(s, s.fired[k]);
    }
  }

  lemma DisconnectKeeps(s: State, s': State, ns: string)
    requires Inv(s) && History(s) && DoDisconnect(s, s', ns)
    ensures Inv(s') && History(s')
  {
    forall j, k | 0 <= j < |s'.instances| ensures Registered(s', j, k) {
      assert Registered(s, j, k);
    }
    forall k | 0 <= k < |s'.fired| ensures FiredRight(s', s'.fired[k]) {
      assert FiredRight(s, s.fired[k]);
    }
  }

  lemma NextKeeps(s: State, s': State, step: Step)
    requires Inv(s) && History(s) && Next(s, s', step) && s'.emits < TWO_64
    ensures Inv(s') && History(s')
  {
    match step
    case Connect(ns) => ConnectKeeps(s, s', ns);
    case Disconnect(ns) => DisconnectKeeps(s, s', ns);
    case Emit(i, cb) => EmitKeeps(s, s', i, cb);
    case Write(id) => WriteKeeps(s, s', id);
    case AckBegin(ns, id, decodes) => AckBeginKeeps(s, s', ns, id, decodes);
    case AckEnd => AckEndKeeps(s, s');
    case Stop => StopKeeps(s, s');
  }

  lemma {:induction false} Kept(states: seq<State>, steps: seq<Step>, n: nat)
    requires Run(states, steps) && n < |states| && states[n].emits < TWO_64
    ensures Inv(states[n]) && History(states[n])
  {
    if n > 0 {
      assert Next(states[n - 1], states[n], steps[n - 1]);
      Kept(states, steps, n - 1);
      NextKeeps(states[n - 1], states[n], steps[n - 1]);
    }
  }

  // ---------- whole runs ----------

  /** No id fires twice, and each firing is of the callback that was issued the id, in the namespace of the
      instance it was issued to. */
  lemma FiresOnceForItsOwn(states: seq<State>, steps: seq<Step>, n: nat)
    requires Run(states, steps) && n < |states| && states[n].emits < TWO_64
    ensures var s := states[n];
            && (forall j, k :: 0 <= j < k < |s.fired| ==> s.fired[j].id != s.fired[k].id)
            && forall k :: 0 <= k < |s.fired| ==>
                 && s.fired[k].id in s.issued && s.fired[k].issue == s.issued[s.fired[k].id]
                 && s.fired[k].issue.instance < |s.instances|
                 && s.fired[k].namespace == s.instances[s.fired[k].issue.instance].namespace
  {
    Kept(states, steps, n);
    forall k | 0 <= k < |states[n].fired| ensures FiredRight(states[n], states[n].fired[k]) {}
  }

  /** The id belongs to the instance that the namespace has now, and its callback is still there. */
  ghost predicate Expected(s: State, key: string, id: uint64) {
    key in s.current && id in s.issued && s.issued[id].instance == s.current[key] && id !in s.finished
  }

  /** A callback fires exactly when an ack with its id arrives for its own namespace while the instance that
      emitted it is the current one, for the first time, and decodes. */
  lemma FiresExactlyWhen(states: seq<State>, steps: seq<Step>, n: nat)
    requires Run(states, steps) && n < |steps| && states[n].emits < TWO_64
    ensures states[n + 1].fired == states[n].fired +
              match steps[n]
              case AckBegin(ns, id, decodes) =>
                if decodes && Expected(states[n], Key(ns), id) then [Firing(id, Key(ns), states[n].issued[id])] else []
              case _ => []
  {
    Kept(states, steps, n);
    assert Next(states[n], states[n + 1], steps[n]);
    match steps[n]
    case AckBegin(ns, id, decodes) =>
      if Key(ns) in states[n].current {
        assert Registered(states[n], states[n].current[Key(ns)], id);
      }
    case _ =>
  }

  /** The id was not issued by the instance that the namespace has now, if it has one. */
  ghost predicate Stale(s: State, key: string, id: uint64) {
    key in s.current ==> id in s.issued && s.issued[id].instance != s.current[key]
  }

  /** An ack whose id was issued to another instance, such as one of the same namespace before it was left and
      entered again, fires nothing and changes no callbacks, neither when it arrives nor when it is done with. */
  lemma StaleAckIsHarmless(states: seq<State>, steps: seq<Step>, n: nat)
    requires Run(states, steps) && n < |steps| && states[n].emits < TWO_64
    ensures var (s, s') := (states[n], states[n + 1]);
            match steps[n]
            case AckBegin(ns, id, _) =>
              Stale(s, Key(ns), id) ==> s'.fired == s.fired && s'.answered == s.answered && s'.instances == s.instances
            case AckEnd =>
              s.serving.Some?
              && var (i, id) := s.serving.value;
              (id in s.issued && s.issued[id].instance != i ==>
                 s'.fired == s.fired && s'.finished == s.finished && s'.instances == s.instances)
            case _ => true
  {
    Kept(states, steps, n);
    assert Next(states[n], states[n + 1], steps[n]);
    match steps[n]
    case AckBegin(ns, id, _) =>
      if Key(ns) in states[n].current {
        assert Registered(states[n], states[n].current[Key(ns)], id);
      }
    case AckEnd =>
      var (i, id) := states[n].serving.value;
      assert Registered(states[n], i, id);
      assert id !in states[n].instances[i].acks ==> states[n].instances[i].acks - {id} == states[n].instances[i].acks;
    case _ =>
  }

  // ---------- the ack for a packet ----------

  /** The step issues the id while an ack with it is being served for the same instance: a guess of the next id. */
  ghost predicate IssuedWhileServed(s: State, step: Step, id: uint64) {
    step.Emit? && NextId(s.id) == id && s.serving == Some((step.instance, id))
  }

  ghost predicate Guessed(states: seq<State>, steps: seq<Step>, n: nat, id: uint64) {
    exists k :: 0 <= k < n && k < |steps| && k < |states| && IssuedWhileServed(states[k], steps[k], id)
  }

  /** The ack arrives for the id of a callback that is there. */
  ghost predicate Finds(s: State, step: Step, id: uint64) {
    step.AckBegin? && step.id == id && Expected(s, Key(step.namespace), id)
  }

  ghost predicate Found(states: seq<State>, steps: seq<Step>, n: nat, id: uint64) {
    exists k :: 0 <= k < n && k < |steps| && k < |states| && Finds(states[k], steps[k], id)
  }

  /** No ack has found the callback, and it is deleted or about to be. */
  ghost predicate Lost(s: State, id: uint64) {
    && id in s.issued && id !in s.answered
    && (id in s.finished || s.serving == Some((s.issued[id].instance, id)))
  }

  lemma EmitLoses(s: State, s': State, i: Instance, cb: Callback, id: uint64)
    requires Inv(s) && DoEmit(s, s', i, cb) && s'.emits < TWO_64
    ensures Lost(s', id) <==> Lost(s, id) || IssuedWhileServed(s, Emit(i, cb), id)
    ensures s'.answered == s.answered
  {
  }

  lemma AckBeginLoses(s: State, s': State, ns: string, ack: uint64, decodes: bool, id: uint64)
    requires Inv(s) && DoAckBegin(s, s', ns, ack, decodes)
    ensures Lost(s', id) <==> Lost(s, id)
    ensures id in s'.answered <==> id in s.answered || Finds(s, AckBegin(ns, ack, decodes), id)
  {
    if Key(ns) in s.current {
      assert Registered(s, s.current[Key(ns)], ack);
    }
  }

  lemma AckEndLoses(s: State, s': State, id: uint64)
    requires Inv(s) && DoAckEnd(s, s')
    ensures Lost(s', id) <==> Lost(s, id)
    ensures s'.answered == s.answered
  {
    assert Registered(s, s.serving.value.0, s.serving.value.1);
  }

  lemma NextLoses(s: State, s': State, step: Step, id: uint64)
    requires Inv(s) && Next(s, s', step) && s'.emits < TWO_64
    ensures Lost(s', id) <==> Lost(s, id) || IssuedWhileServed(s, step, id)
    ensures id in s'.answered <==> id in s.answered || Finds(s, step, id)
  {
    match step
    case Emit(i, cb) => EmitLoses(s, s', i, cb, id);
    case AckBegin(ns, ack, decodes) => AckBeginLoses(s, s', ns, ack, decodes, id);
    case AckEnd => AckEndLoses(s, s', id);
    case _ =>
  }

  /** In every run: a callback is deleted, or about to be, without an ack having found it exactly if an ack with its
      id was being served for its instance when the id was issued. */
  lemma {:induction false} LostExactly(states: seq<State>, steps: seq<Step>, n: nat, id: uint64)
    requires Run(states, steps) && n < |states| && states[n].emits < TWO_64
    ensures Lost(states[n], id) <==> Guessed(states, steps, n, id)
    ensures id in states[n].answered <==> Found(states, steps, n, id)
  {
    if n > 0 {
      var k := n - 1;
      assert Next(states[k], states[n], steps[k]);
      Kept(states, steps, k);
      LostExactly(states, steps, k, id);
      NextLoses(states[k], states[n], steps[k], id);
      GuessedLater(states, steps, n, id);
    }
  }

  lemma GuessedLater(states: seq<State>, steps: seq<Step>, n: nat, id: uint64)
    requires |states| == |steps| + 1 && 0 < n < |states|
    ensures Guessed(states, steps, n, id) <==>
            Guessed(states, steps, n - 1, id) || IssuedWhileServed(states[n - 1], steps[n - 1], id)
    ensures Found(states, steps, n, id) <==> Found(states, steps, n - 1, id) || Finds(states[n - 1], steps[n - 1], id)
  {
  }

  /** Every packet that asks for an ack was registered before it was written, under the namespace it names. An ack
      for it that decodes fires its callback exactly if the namespace still has the instance that wrote it, no ack has
      found the callback before, and none with its id was being served for the instance when the id was issued. */
  lemma ReplyFindsItsCallback(states: seq<State>, steps: seq<Step>, n: nat, k: nat)
    requires Run(states, steps) && n < |steps| && states[n].emits < TWO_64 && k < |states[n].written|
    requires steps[n] == AckBegin(states[n].written[k].0, states[n].written[k].1, true)
    ensures var (key, id) := states[n].written[k];
            && id in states[n].issued && states[n].issued[id].instance < |states[n].instances|
            && Key(key) == key && key == states[n].instances[states[n].issued[id].instance].namespace
            && states[n + 1].fired == states[n].fired +
                 if key in states[n].current && states[n].current[key] == states[n].issued[id].instance
                    && !Found(states, steps, n, id) && !Guessed(states, steps, n, id)
                 then [Firing(id, key, states[n].issued[id])] else []
  {
    Kept(states, steps, n);
    LostExactly(states, steps, n, states[n].written[k].1);
    FiresExactlyWhen(states, steps, n);
  }

  /** The run in which the guess does harm: an ack with the id 1 is being served when the first `Emit` takes that id
      and stores its callback; the deferred delete removes it. The packet is written, and the first ack for it fires
      nothing, although the namespace has not been left. */
  lemma GuessedAckLosesCallback() returns (states: seq<State>, steps: seq<Step>)
    ensures Run(states, steps) && |steps| == 6 && steps[5] == AckBegin("", 1, true)
    ensures states[5].written == [("", 1)] && 1 in states[5].issued && "" in states[5].current
    ensures states[5].current[""] == states[5].issued[1].instance
    ensures !Found(states, steps, 5, 1) && states[6].fired == []
  {
    var s1 := INITIAL.(instances := [Binding("", map[])], current := map["" := 0]);
    var s2 := s1.(serving := Some((0, 1)));
    var s3 := s2.(id := 1, instances := [Binding("", map[1 := 7])], unsent := map[1 := 0], emits := 1,
                  issued := map[1 := Issue(0, 7)]);
    var s4 := s3.(serving := None, instances := [Binding("", map[])], finished := {1});
    var s5 := s4.(unsent := map[], written := [("", 1)]);
    var s6 := s5.(serving := Some((0, 1)));
    states := [INITIAL, s1, s2, s3, s4, s5, s6];
    steps := [Connect(""), AckBegin("", 1, true), Emit(0, 7), AckEnd, Write(1), AckBegin("", 1, true)];
    assert DoConnect(INITIAL, s1, "");
    assert DoAckBegin(s1, s2, "", 1, true);
    assert DoEmit(s2, s3, 0, 7);
    assert map[1 := 7] - {1} == map[];
    assert DoAckEnd(s3, s4);
    assert DoWrite(s4, s5, 1);
    assert DoAckBegin(s5, s6, "", 1, true);
  }
}

/** The connection's fields and their methods. */
module AckObjects {
  import opened Bytes
  import opened Acks

  class NamespaceConn {
    const namespace: string
    var ack: map<uint64, Callback>

    constructor (namespace: string)
      ensures this.namespace == namespace && ack == map[]
    {
      this.namespace, ack := namespace, map[];
    }
  }

  class Connection {
    var id: uint64
    var namespaces: map<string, NamespaceConn>
    var called: seq<Callback>
    ghost var all: seq<NamespaceConn>
    ghost var model: State

    ghost predicate Valid()
      reads this, all
    {
      && model.id == id && |all| == |model.instances|
      && (forall i :: 0 <= i < |all| ==>
            all[i].ack == model.instances[i].acks && Key(all[i].namespace) == model.instances[i].namespace)
      && (forall i, j :: 0 <= i < j < |all| ==> all[i] != all[j])
      && namespaces.Keys == model.current.Keys
      && (forall key :: key in namespaces ==> model.current[key] < |all| && namespaces[key] == all[model.current[key]])
      && called == Callbacks(model.fired)
    }

    constructor ()
      ensures Valid() && model == INITIAL && fresh(all)
    {
      id, namespaces, called, all, model := 0, map[], [], [], INITIAL;
    }

    /** The counter is shared by all namespaces; the callback is stored before the packet is written. */
    method Emit(nc: NamespaceConn, callback: Callback, ghost i: Instance)
        returns (header: (string, uint64), ghost stored: State)
      requires Valid() && i < |all| && all[i] == nc
      modifies this`id, this`model, nc`ack
      ensures Valid() && DoEmit(old(model), stored, i, callback) && DoWrite(stored, model, id)
      ensures header == model.written[|model.written| - 1]
    {
      id := NextId(id);
      nc.ack := nc.ack[id := callback];
      stored := model.(id := id, instances := model.instances[i := model.instances[i].(acks := nc.ack)],
                       unsent := model.unsent[id := i], emits := model.emits + 1,
                       issued := model.issued[id := Issue(i, callback)]);
      header := (if nc.namespace != "/" then nc.namespace else "", id);
      model := stored.(unsent := stored.unsent - {id}, written := stored.written + [header]);
    }

    /** Handles an ack packet: looks the callback up, calls it, and deletes it whatever came of it. */
    method HandleAck(namespace: string, ackId: uint64, decodes: bool) returns (ghost begun: State)
      requires Valid() && Idle(model)
      modifies this`called, this`model, all`ack
      ensures Valid() && DoAckBegin(old(model), begun, namespace, ackId, decodes)
      ensures if begun.serving.Some? then DoAckEnd(begun, model) else model == begun
    {
      var key := if namespace == "/" then "" else namespace;
      if key !in namespaces {
        return model;
      }
      ghost var i := model.current[key];
      Call(namespaces[key], key, ackId, decodes);
      begun := model;
      Delete(namespaces[key], ackId, i);
    }

    method Call(nc: NamespaceConn, ghost key: string, ackId: uint64, decodes: bool)
      requires Valid() && Idle(model) && key in namespaces && namespaces[key] == nc && Key(key) == key
      modifies this`called, this`model
      ensures Valid() && DoAckBegin(old(model), model, key, ackId, decodes)
      ensures model.serving == Some((model.current[key], ackId)) && model.instances == old(model.instances)
    {
      model := model.(serving := Some((model.current[key], ackId)), reading := decodes);
      if ackId in nc.ack {
        model := model.(answered := model.answered + {ackId});
        if decodes {
          called := called + [nc.ack[ackId]];
          model := model.(fired := model.fired + [Firing(ackId, key, Issue(model.current[key], nc.ack[ackId]))]);
        }
      }
    }

    method Delete(nc: NamespaceConn, ackId: uint64, ghost i: Instance)
      requires Valid() && i < |all| && all[i] == nc && model.serving == Some((i, ackId))
      modifies nc`ack, this`model
      ensures Valid() && DoAckEnd(old(model), model)
    {
      model := model.(serving := None, instances := model.instances[i := model.instances[i].(acks := nc.ack - {ackId})],
                      finished := if ackId in nc.ack then model.finished + {ackId} else model.finished);
      nc.ack := nc.ack - {ackId};
    }

    method HandleConnect(namespace: string, known: bool)
      requires Valid() && Idle(model)
      modifies this`namespaces, this`all, this`model
      ensures Valid() && if known then DoConnect(old(model), model, namespace) else DoStop(old(model), model)
    {
      var key := if namespace == "/" then "" else namespace;
      if !known {
        model := model.(reading := false);
        return;
      }
      if key !in namespaces {
        Enter(key);
      }
    }

    method Enter(key: string)
      requires Valid() && key !in namespaces && Key(key) == key
      modifies this`namespaces, this`all, this`model
      ensures Valid()
      ensures model == old(model).(instances := old(model.instances) + [Binding(key, map[])],
                                   current := old(model.current)[key := |old(model.instances)|])
    {
      var nc := new NamespaceConn(key);
      model := model.(instances := model.instances + [Binding(key, map[])],
                      current := model.current[key := |model.instances|]);
      namespaces := namespaces[key := nc];
      all := all + [nc];
    }

    method HandleDisconnect(namespace: string)
      requires Valid() && Idle(model)
      modifies this`namespaces, this`model
      ensures Valid() && DoDisconnect(old(model), model, namespace)
    {
      var key := if namespace == "/" then "" else namespace;
      namespaces := namespaces - {key};
      model := model.(current := model.current - {key});
    }
  }
}
