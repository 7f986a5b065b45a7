/** The drain barrier of a payload (engineio/payload/pauser.go): first its lock sections as functions
    on values, with what every interleaving of them keeps; then, in `PauserObject`, the object that carries them out. */
module Pauser {

  datatype Status = Normal | Pausing | Paused

  type Thread = nat

  /** A channel is a handle; `closed` holds the handles that have been closed. `sleeping` are the `Pause`
      calls that wait on the condition variable, `woken` those a broadcast has reached since. */
  datatype State = State(
    status: Status,
    worker: nat,
    pausing: nat,
    paused: nat,
    nextChan: nat,
    closed: set<nat>,
    sleeping: set<Thread>,
    woken: set<Thread>
  )

  const INITIAL: State := State(Normal, 0, 0, 1, 2, {}, {}, {})

  // ---------- lock sections ----------

  /** Closing a channel a second time panics, so each close has to show it is the first. */
  function Close(s: State, chan: nat): State
    requires chan !in s.closed
  {
    s.(closed := s.closed + {chan})
  }

  /** `sync.Cond.Broadcast`. */
  function Broadcast(s: State): State {
    s.(woken := s.woken + s.sleeping, sleeping := {})
  }

  /** The result of the part of `Pause` behind its wait loop, or going to sleep in it. */
  datatype PauseResult = Returned(ok: bool) | Waiting

  function PauseWait(s: State, t: Thread): (State, PauseResult)
    requires Inv(s)
  {
    if s.worker != 0 then (s.(sleeping := s.sleeping + {t}), Waiting)
    else if s.status == Paused then (s, Returned(false))
    else (Broadcast(Close(s, s.paused).(status := Paused)), Returned(true))
  }

  /** `Pause` up to its return or its first wait. */
  function PauseEnter(s: State, t: Thread): (State, PauseResult)
    requires Inv(s) && t !in s.sleeping && t !in s.woken
  {
    if s.status == Paused then (s, Returned(false))
    else if s.status == Normal then PauseWait(Close(s, s.pausing).(status := Pausing), t)
    else PauseWait(s, t)
  }

  /** A waiting `Pause` that was woken takes the lock again and checks its loop condition. */
  function PauseWake(s: State, t: Thread): (State, PauseResult)
    requires Inv(s) && t in s.woken
  {
    PauseWait(s.(woken := s.woken - {t}), t)
  }

  function Resume(s: State): State {
    s.(status := Normal, paused := s.nextChan, pausing := s.nextChan + 1, nextChan := s.nextChan + 2)
  }

  function Working(s: State): (State, bool) {
    if s.status == Paused then (s, false) else (s.(worker := s.worker + 1), true)
  }

  function Done(s: State): State {
    if s.status == Paused || s.worker == 0 then s
    else Broadcast(s.(worker := s.worker - 1))
  }

  // ---------- what every interleaving keeps ----------

  /** The current channels are fresh handles; each is closed exactly in the states that say so; a paused
      barrier has no worker; and nobody sleeps without a worker that will wake him. */
  predicate Inv(s: State) {
    && s.paused < s.nextChan && s.pausing < s.nextChan && s.paused != s.pausing
    && (forall c :: c in s.closed ==> c < s.nextChan)
    && (s.paused in s.closed <==> s.status == Paused)
    && (s.pausing in s.closed ==> s.status != Normal)
    && (s.status == Pausing ==> s.pausing in s.closed)
    && (s.status == Paused ==> s.worker == 0)
    && (s.sleeping != {} ==> s.worker != 0)
    && s.sleeping !! s.woken
  }

  /** What one lock section reports to its caller. */
  datatype Event =
    | PauseReturned(t: Thread, ok: bool)
    | PauseWaits(t: Thread)
    | Resumed
    | WorkingReturned(ok: bool)
    | DoneReturned

  predicate Next(s: State, s': State, e: Event)
    requires Inv(s)
  {
    match e
    case PauseReturned(t, ok) =>
      || (t !in s.sleeping && t !in s.woken && PauseEnter(s, t) == (s', Returned(ok)))
      || (t in s.woken && PauseWake(s, t) == (s', Returned(ok)))
    case PauseWaits(t) =>
      || (t !in s.sleeping && t !in s.woken && PauseEnter(s, t) == (s', Waiting))
      || (t in s.woken && PauseWake(s, t) == (s', Waiting))
    case Resumed => s' == Resume(s)
    case WorkingReturned(ok) => Working(s) == (s', ok)
    case DoneReturned => s' == Done(s)
  }

  lemma NextKeepsInv(s: State, s': State, e: Event)
    requires Inv(s) && Next(s, s', e)
    ensures Inv(s')
  {
  }

  /** A run: `|events| + 1` states, one lock section between neighbours. */
  predicate Run(states: seq<State>, events: seq<Event>) {
    && |states| == |events| + 1
    && states[0] == INITIAL
    && forall i :: 0 <= i < |events| ==> Inv(states[i]) && Next(states[i], states[i + 1], events[i])
  }

  /** Every state a run of lock sections can reach keeps the invariant, so no channel is ever closed twice:
      the functions above could not even be applied. */
  lemma {:induction false} RunKeepsInv(states: seq<State>, events: seq<Event>)
    requires |states| == |events| + 1 && states[0] == INITIAL
    requires forall i :: 0 <= i < |events| ==> Inv(states[i]) ==> Next(states[i], states[i + 1], events[i])
    ensures Run(states, events)
    ensures forall i :: 0 <= i < |states| ==> Inv(states[i])
  {
    if |events| == 0 {
      return;
    }
    var n := |events| - 1;
    RunKeepsInv(states[..n + 1], events[..n]);
    assert states[..n + 1][n] == states[n] && Inv(states[n]);
    forall i | 0 <= i < |events|
      ensures Inv(states[i]) && Next(states[i], states[i + 1], events[i])
    {
      if i < n {
        assert states[..n + 1][i] == states[i] && states[..n + 1][i + 1] == states[i + 1];
      }
    }
    NextKeepsInv(states[n], states[n + 1], events[n]);
    forall i | 0 <= i < |states|
      ensures Inv(states[i])
    {
      if i <= n {
        assert states[..n + 1][i] == states[i];
      }
    }
  }

  /** While no `Resume` comes, a paused barrier stays paused with the same channels, and in that
      stretch neither another `Pause` nor a `Working` succeeds. */
  lemma {:induction false} PausedUntilResumed(states: seq<State>, events: seq<Event>, i: nat, j: nat)
    requires Run(states, events) && i < j <= |events|
    requires states[i + 1].status == Paused
    requires forall k :: i < k < j ==> events[k] != Resumed
    ensures states[j].status == Paused
    ensures states[j].paused == states[i + 1].paused && states[j].paused in states[j].closed
    ensures forall k :: i < k < j ==> events[k] != WorkingReturned(true)
                                      && !(events[k].PauseReturned? && events[k].ok)
  {
    if i + 1 < j {
      PausedUntilResumed(states, events, i, j - 1);
    }
    NextKeepsInv(states[j - 1], states[j], events[j - 1]);
  }

  /** At most one `Pause` returns true between two `Resume`s. */
  lemma OnePausePerResume(states: seq<State>, events: seq<Event>, i: nat, j: nat)
    requires Run(states, events) && i < j < |events|
    requires events[i].PauseReturned? && events[i].ok
    requires events[j].PauseReturned? && events[j].ok
    ensures exists k :: i < k < j && events[k] == Resumed
  {
    if forall k :: i < k < j ==> events[k] != Resumed {
      PausedUntilResumed(states, events, i, j + 1);
      assert false;
    }
  }
}

/** The fields of the barrier, changed in place by its lock sections. */
module PauserObject {
  import P = Pauser
  import opened Pauser

  /** A channel that is only ever closed. */
  class Trigger {
    var isClosed: bool

    constructor ()
      ensures !isClosed
    {
      isClosed := false;
    }

    /** Closing twice panics. */
    method Close()
      requires !isClosed
      modifies this
      ensures isClosed
    {
      isClosed := true;
    }
  }

  class Barrier {
    var worker: nat
    var pausing: Trigger
    var paused: Trigger
    var status: Status
    ghost var model: State

    /** The fields are those of a state every interleaving keeps sound. */
    ghost predicate Valid()
      reads this, pausing, paused
    {
      && Inv(model)
      && model.status == status && model.worker == worker
      && (model.pausing in model.closed <==> pausing.isClosed)
      && (model.paused in model.closed <==> paused.isClosed)
      && pausing != paused
    }

    constructor ()
      ensures Valid() && model == INITIAL && fresh(pausing) && fresh(paused)
    {
      worker, status, model := 0, Normal, INITIAL;
      pausing := new Trigger();
      paused := new Trigger();
    }

    /** `Pause` up to its return or first wait. */
    method PauseEnter(ghost t: Thread) returns (r: PauseResult)
      requires Valid() && t !in model.sleeping && t !in model.woken
      modifies this, pausing, paused
      ensures Valid() && (model, r) == P.PauseEnter(old(model), t)
      ensures pausing == old(pausing) && paused == old(paused)
    {
      if status == Paused {
        return Returned(false);
      }
      if status == Normal {
        pausing.Close();
        status := Pausing;
        model := P.Close(model, model.pausing).(status := Pausing);
      }
      r := PauseWait(t);
    }

    /** The wait loop's condition and what follows it. */
    method PauseWait(ghost t: Thread) returns (r: PauseResult)
      requires Valid() && t !in model.sleeping && t !in model.woken
      modifies this, paused
      ensures Valid() && (model, r) == P.PauseWait(old(model), t)
      ensures pausing == old(pausing) && paused == old(paused)
    {
      if worker != 0 {
        model := model.(sleeping := model.sleeping + {t});
        return Waiting;
      }
      if status == Paused {
        return Returned(false);
      }
      paused.Close();
      status := Paused;
      model := P.Broadcast(P.Close(model, model.paused).(status := Paused));
      r := Returned(true);
    }

    method PauseWake(ghost t: Thread) returns (r: PauseResult)
      requires Valid() && t in model.woken
      modifies this, paused
      ensures Valid() && (model, r) == P.PauseWake(old(model), t)
      ensures pausing == old(pausing) && paused == old(paused)
    {
      model := model.(woken := model.woken - {t});
      r := PauseWait(t);
    }

    method Resume()
      requires Valid()
      modifies this
      ensures Valid() && model == P.Resume(old(model))
      ensures fresh(paused) && fresh(pausing)
    {
      status := Normal;
      paused := new Trigger();
      pausing := new Trigger();
      model := P.Resume(model);
    }

    method Working() returns (ok: bool)
      requires Valid()
      modifies this
      ensures Valid() && (model, ok) == P.Working(old(model))
      ensures pausing == old(pausing) && paused == old(paused)
    {
      if status == Paused {
        return false;
      }
      worker := worker + 1;
      model := model.(worker := model.worker + 1);
      ok := true;
    }

    method Done()
      requires Valid()
      modifies this
      ensures Valid() && model == P.Done(old(model))
      ensures pausing == old(pausing) && paused == old(paused)
    {
      if status == Paused || worker == 0 {
        return;
      }
      worker := worker - 1;
      model := P.Broadcast(model.(worker := model.worker - 1));
    }
  }
}
