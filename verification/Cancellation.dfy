/** The cancellation token: one `cancel` or more against any number of waiters, in every
    interleaving of their steps. */
module Cancellation {
  import opened Text

  /** A call of `cancel` stores the flag and then notifies. */
  datatype Canceller = Called | Stored | Finished

  /** A call of `cancelled` creates its notification future and then loads the flag. The
      future remembers how many notifications there had been, and is ready after any
      later one. */
  datatype Waiter = Entered | Listening(seen: nat) | Blocked(seen: nat) | Returned

  datatype Token = Token(flag: bool, notified: nat, cancellers: map<nat, Canceller>, waiters: map<nat, Waiter>)

  const FRESH := Token(false, 0, map[], map[])

  datatype Event =
    | CallCancel(id: nat)
    | Store(id: nat)
    | Notify(id: nat)
    | CallCancelled(id: nat)
    | Listen(id: nat)
    | Load(id: nat)
    | Wake(id: nat)

  /** The next state, or none if the event cannot happen. */
  function Step(t: Token, e: Event): Option<Token> {
    match e
    case CallCancel(id) =>
      if id in t.cancellers then None else Some(t.(cancellers := t.cancellers[id := Called]))
    case Store(id) =>
      if id in t.cancellers && t.cancellers[id].Called?
      then Some(t.(flag := true, cancellers := t.cancellers[id := Stored])) else None
    case Notify(id) =>
      if id in t.cancellers && t.cancellers[id].Stored?
      then Some(t.(notified := t.notified + 1, cancellers := t.cancellers[id := Finished])) else None
    case CallCancelled(id) =>
      if id in t.waiters then None else Some(t.(waiters := t.waiters[id := Entered]))
    case Listen(id) =>
      if id in t.waiters && t.waiters[id].Entered?
      then Some(t.(waiters := t.waiters[id := Listening(t.notified)])) else None
    case Load(id) =>
      if id in t.waiters && t.waiters[id].Listening?
      then Some(t.(waiters := t.waiters[id := if t.flag then Returned else Blocked(t.waiters[id].seen)])) else None
    case Wake(id) =>
      if id in t.waiters && Ready(t, t.waiters[id])
      then Some(t.(waiters := t.waiters[id := Returned])) else None
  }

  /** A blocked waiter that a notification has reached. */
  predicate Ready(t: Token, w: Waiter) {
    w.Blocked? && w.seen < t.notified
  }

  function Run(events: seq<Event>): Option<Token> {
    if events == [] then Some(FRESH)
    else
      var before := Run(events[..|events| - 1]);
      if before.Some? then Step(before.value, events[|events| - 1]) else None
  }

  ghost predicate Sound(t: Token) {
    && (t.notified > 0 ==> t.flag)
    && (forall id :: id in t.cancellers && !t.cancellers[id].Called? ==> t.flag)
    && (forall id :: id in t.cancellers && t.cancellers[id].Finished? ==> t.notified > 0)
    && (forall id :: id in t.waiters && t.waiters[id].Blocked? ==> t.waiters[id].seen == 0)
    && (forall id :: id in t.waiters && t.waiters[id].Listening? ==> t.waiters[id].seen <= t.notified)
    && (forall id :: id in t.waiters && t.waiters[id].Returned? ==> t.flag)
    && (t.flag ==> exists id :: id in t.cancellers && !t.cancellers[id].Called?)
  }

  lemma StepKeepsSound(t: Token, e: Event)
    requires Sound(t) && Step(t, e).Some?
    ensures Sound(Step(t, e).value)
  {
    var after := Step(t, e).value;
    if e.CallCancel? || e.Store? || e.Notify? {
      if t.flag {
        var id :| id in t.cancellers && !t.cancellers[id].Called?;
        assert id in after.cancellers && !after.cancellers[id].Called?;
      } else if e.Store? {
        assert e.id in after.cancellers && !after.cancellers[e.id].Called?;
      }
    }
  }

  lemma {:induction false} ReachableIsSound(events: seq<Event>)
    requires Run(events).Some?
    ensures Sound(Run(events).value)
  {
    if events != [] {
      var front := events[..|events| - 1];
      ReachableIsSound(front);
      StepKeepsSound(Run(front).value, events[|events| - 1]);
    }
  }

  /** Once a `cancel` has finished, every waiter that is blocked is ready to go on: no
      wake-up is lost. Before one has stored the flag, no waiter returns. */
  lemma NoLostWakeUp(events: seq<Event>, waiter: nat)
    requires Run(events).Some? && waiter in Run(events).value.waiters
    ensures var t := Run(events).value;
            && ((exists c :: c in t.cancellers && t.cancellers[c].Finished?) && t.waiters[waiter].Blocked?
                ==> Step(t, Wake(waiter)).Some?)
            && (t.waiters[waiter].Returned? ==> exists c :: c in t.cancellers && !t.cancellers[c].Called?)
  {
    ReachableIsSound(events);
  }

  /** And a waiter that comes later does not block: it loads the flag as set. */
  lemma LaterWaitersReturn(events: seq<Event>, waiter: nat)
    requires Run(events).Some? && waiter in Run(events).value.waiters && Run(events).value.waiters[waiter].Listening?
    requires exists c :: c in Run(events).value.cancellers && Run(events).value.cancellers[c].Finished?
    ensures Step(Run(events).value, Load(waiter)).Some?
    ensures Step(Run(events).value, Load(waiter)).value.waiters[waiter] == Returned
  {
    ReachableIsSound(events);
  }

  // ----- why the future is created first -----

  /** The same call with its first two steps swapped: it loads the flag, and if that was
      clear it creates its future and waits. */
  function SwappedLoad(t: Token, id: nat): Token
    requires id in t.waiters
  {
    t.(waiters := t.waiters[id := if t.flag then Returned else Entered])
  }

  function SwappedListen(t: Token, id: nat): Token
    requires id in t.waiters
  {
    t.(waiters := t.waiters[id := Blocked(t.notified)])
  }

  /** Then a whole `cancel` between the two steps is missed, and the waiter stays blocked
      although `cancel` has finished. */
  lemma SwappedLosesTheWakeUp(c: nat, w: nat)
    ensures var loaded := SwappedLoad(Token(false, 0, map[c := Called], map[w := Entered]), w);
            var stored := Step(loaded, Store(c)).value;
            var cancelled := Step(stored, Notify(c)).value;
            var blocked := SwappedListen(cancelled, w);
            && blocked.cancellers[c].Finished? && blocked.waiters[w].Blocked?
            && Step(blocked, Wake(w)).None?
  {
  }

  /** Nobody is held up but a waiter that listens to nothing new: a call can be made under
      any fresh name, and whatever else happens, each goes through its steps in order. */
  lemma CallsProceed(t: Token, id: nat)
    ensures Step(t, CallCancel(id)).Some? <==> id !in t.cancellers
    ensures Step(t, CallCancelled(id)).Some? <==> id !in t.waiters
    ensures id in t.cancellers ==> (Step(t, Store(id)).Some? <==> t.cancellers[id].Called?)
    ensures id in t.cancellers ==> (Step(t, Notify(id)).Some? <==> t.cancellers[id].Stored?)
    ensures id in t.waiters ==> (Step(t, Listen(id)).Some? <==> t.waiters[id].Entered?)
    ensures id in t.waiters ==> (Step(t, Load(id)).Some? <==> t.waiters[id].Listening?)
    ensures id in t.waiters ==> (Step(t, Wake(id)).Some? ==> t.waiters[id].Blocked?)
    ensures Step(t, Store(id)).Some? ==> Step(Step(t, Store(id)).value, Notify(id)).Some?
    ensures Step(t, Listen(id)).Some? ==> Step(Step(t, Listen(id)).value, Load(id)).Some?
  {
  }
}
