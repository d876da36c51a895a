/** The manager of browser sessions: every interleaving of its calls as runs of a state
    machine, and what the calls do while they hold the lock as methods that make such
    runs. */
module SessionManager {
  import opened Text

  datatype Config = Config(idleTtl: nat, maxLifetime: nat, maxSessions: nat)

  /** A tab. `operator` is the call that holds its page lock. */
  datatype Session = Session(createdAt: int, lastUsed: int, operator: Option<nat>)

  predicate Expired(c: Config, s: Session, now: int) {
    now - s.lastUsed > c.idleTtl || now - s.createdAt > c.maxLifetime
  }

  function Dead(c: Config, sessions: map<string, Session>, now: int): set<string> {
    set id | id in sessions && Expired(c, sessions[id], now)
  }

  function Live(c: Config, sessions: map<string, Session>, now: int): map<string, Session> {
    map id | id in sessions && !Expired(c, sessions[id], now) :: sessions[id]
  }

  function Touched(sessions: map<string, Session>, id: string, now: int): map<string, Session>
    requires id in sessions
  {
    sessions[id := sessions[id].(lastUsed := now)]
  }

  // ----- every interleaving -----

  /** The call that holds the lock of the map across an await. */
  datatype Holder =
    | Using(task: nat, session: string, onPage: bool)
    | Closing(task: nat)
    | Sweeping(now: int, dead: set<string>)
    | Draining(task: nat)

  datatype SweepTask = Unborn | Running | Aborted

  /** `starting` are the calls of `start` between their check and their insertion. */
  datatype Manager = Manager(sessions: map<string, Session>, holder: Option<Holder>, starting: set<nat>, sweep: SweepTask)

  const INITIAL := Manager(map[], None, {}, Unborn)

  datatype Event =
    | Connects
    | StartChecks(task: nat)
    | StartFails(task: nat)
    | StartInserts(task: nat, id: string, now: int)
    | UseBegins(task: nat, id: string, now: int)
    | UseLocksPage(task: nat)
    | UseEnds(task: nat)
    | EndRemoves(task: nat, id: string)
    | EndReturns(task: nat)
    | SweepBegins(now: int)
    | SweepRemoves(id: string)
    | SweepEnds
    | ShutdownBegins(task: nat)
    | ShutdownRemoves(id: string)
    | ShutdownReturns(task: nat)

  /** The state after an event, or none if it cannot happen there. A call that asks
      for the lock while it is held waits, so its event cannot happen yet. */
  function Step(c: Config, m: Manager, e: Event): Option<Manager> {
    match e
    case Connects => if m.sweep.Unborn? then Some(m.(sweep := Running)) else None
    case StartFails(task) => if task in m.starting then Some(m.(starting := m.starting - {task})) else None
    case StartChecks(_) => if m.holder.None? then Start(c, m, e) else None
    case StartInserts(_, _, _) => if m.holder.None? then Start(c, m, e) else None
    case UseBegins(_, _, _) => if m.holder.None? then Some(Use(m, e)) else None
    case EndRemoves(task, id) =>
      if m.holder.Some? then None
      else if id in m.sessions then Some(m.(sessions := m.sessions - {id}, holder := Some(Closing(task))))
      else Some(m)
    case SweepBegins(now) =>
      if m.holder.None? && m.sweep.Running? then Some(m.(holder := Some(Sweeping(now, Dead(c, m.sessions, now))))) else None
    case ShutdownBegins(task) => if m.holder.None? then Some(m.(holder := Some(Draining(task)))) else None
    case _ => if m.holder.Some? then Continue(m, m.holder.value, e) else None
  }

  function Start(c: Config, m: Manager, e: Event): Option<Manager>
    requires e.StartChecks? || e.StartInserts?
  {
    match e
    case StartChecks(task) =>
      if m.sweep.Unborn? || task in m.starting then None
      else if |m.sessions| < c.maxSessions then Some(m.(starting := m.starting + {task}))
      else Some(m)
    case StartInserts(task, id, now) =>
      if task in m.starting
      then Some(m.(sessions := m.sessions[id := Session(now, now, None)], starting := m.starting - {task}))
      else None
  }

  function Use(m: Manager, e: Event): Manager
    requires e.UseBegins?
  {
    if e.id in m.sessions
    then m.(sessions := Touched(m.sessions, e.id, e.now), holder := Some(Using(e.task, e.id, false)))
    else m
  }

  /** A step of the call that holds the lock. */
  function Continue(m: Manager, h: Holder, e: Event): Option<Manager> {
    match (h, e)
    case (Using(task, id, false), UseLocksPage(task')) =>
      if task == task' && id in m.sessions && m.sessions[id].operator.None?
      then Some(m.(sessions := m.sessions[id := m.sessions[id].(operator := Some(task))], holder := Some(Using(task, id, true))))
      else None
    case (Using(task, id, onPage), UseEnds(task')) =>
      if task == task' && id in m.sessions
      then Some(m.(sessions := if onPage then m.sessions[id := m.sessions[id].(operator := None)] else m.sessions, holder := None))
      else None
    case (Closing(task), EndReturns(task')) => if task == task' then Some(m.(holder := None)) else None
    case (Sweeping(now, dead), SweepRemoves(id)) =>
      if id in dead then Some(m.(sessions := m.sessions - {id}, holder := Some(Sweeping(now, dead - {id})))) else None
    case (Sweeping(_, dead), SweepEnds) => if dead == {} then Some(m.(holder := None)) else None
    case (Draining(_), ShutdownRemoves(id)) => if id in m.sessions then Some(m.(sessions := m.sessions - {id})) else None
    case (Draining(task), ShutdownReturns(task')) =>
      if task == task' && m.sessions == map[]
      then Some(m.(holder := None, sweep := if m.sweep.Running? then Aborted else m.sweep))
      else None
    case _ => None
  }

  /** The state after a whole run from `m`, or none if some event could not happen. */
  function RunFrom(c: Config, m: Manager, events: seq<Event>): Option<Manager> {
    if events == [] then Some(m)
    else
      var before := RunFrom(c, m, events[..|events| - 1]);
      if before.Some? then Step(c, before.value, events[|events| - 1]) else None
  }

  predicate Possible(c: Config, events: seq<Event>) {
    RunFrom(c, INITIAL, events).Some?
  }

  function After(c: Config, events: seq<Event>): Manager
    requires Possible(c, events)
  {
    RunFrom(c, INITIAL, events).value
  }

  lemma OneMoreStep(c: Config, m: Manager, events: seq<Event>, e: Event)
    ensures RunFrom(c, m, events + [e])
         == if RunFrom(c, m, events).Some? then Step(c, RunFrom(c, m, events).value, e) else None
  {
    assert (events + [e])[..|events|] == events;
  }

  // ----- what holds in every reachable state -----

  /** The page lock of a tab is held just by the operation that runs on it, that tab is
      still in the map, and a sweep has exactly the expired sessions left to remove. */
  ghost predicate Sound(c: Config, m: Manager) {
    && (forall id :: id in m.sessions ==>
          m.sessions[id].operator ==
          if m.holder.Some? && m.holder.value.Using? && m.holder.value.session == id && m.holder.value.onPage
          then Some(m.holder.value.task) else None)
    && (m.holder.Some? && m.holder.value.Using? ==> m.holder.value.session in m.sessions)
    && (m.holder.Some? && m.holder.value.Sweeping? ==> m.holder.value.dead == Dead(c, m.sessions, m.holder.value.now))
  }

  lemma StepKeepsSound(c: Config, m: Manager, e: Event)
    requires Sound(c, m) && Step(c, m, e).Some?
    ensures Sound(c, Step(c, m, e).value)
  {
  }

  lemma {:induction false} RunKeepsSound(c: Config, m: Manager, events: seq<Event>)
    requires Sound(c, m) && RunFrom(c, m, events).Some?
    ensures Sound(c, RunFrom(c, m, events).value)
  {
    if events != [] {
      var front := events[..|events| - 1];
      RunKeepsSound(c, m, front);
      StepKeepsSound(c, RunFrom(c, m, front).value, events[|events| - 1]);
    }
  }

  lemma ReachableIsSound(c: Config, events: seq<Event>)
    requires Possible(c, events)
    ensures Sound(c, After(c, events))
  {
    RunKeepsSound(c, INITIAL, events);
  }

  /** The tab an operation was begun on stays in the map until the operation ends, and
      its page lock is free when the operation asks for it: the lock of the map already
      keeps every other operation out, on this tab and on all others. */
  lemma OperationKeepsItsTab(c: Config, events: seq<Event>)
    requires Possible(c, events)
    requires After(c, events).holder.Some? && After(c, events).holder.value.Using?
    ensures var m := After(c, events);
            var use := m.holder.value;
            && use.session in m.sessions
            && (m.sessions[use.session].operator == if use.onPage then Some(use.task) else None)
            && (!use.onPage ==> Step(c, m, UseLocksPage(use.task)).Some?)
            && Step(c, m, UseEnds(use.task)).Some?
  {
    ReachableIsSound(c, events);
  }

  /** Until an operation ends, nothing in the map changes but the holder of its own
      tab's page lock. */
  lemma {:induction false} NothingMovesDuringAnOperation(c: Config, m: Manager, events: seq<Event>, task: nat, id: string)
    requires m.holder.Some? && m.holder.value.Using? && m.holder.value.task == task && m.holder.value.session == id
    requires UseEnds(task) !in events && RunFrom(c, m, events).Some? && id in m.sessions
    ensures var after := RunFrom(c, m, events).value;
            && after.holder.Some? && after.holder.value.Using?
            && after.holder.value.task == task && after.holder.value.session == id
            && after.sessions.Keys == m.sessions.Keys
            && after.sessions - {id} == m.sessions - {id}
            && after.sessions[id].(operator := None) == m.sessions[id].(operator := None)
  {
    if events != [] {
      var front, e := events[..|events| - 1], events[|events| - 1];
      assert UseEnds(task) !in front;
      NothingMovesDuringAnOperation(c, m, front, task, id);
      assert e in events;
    }
  }

  /** Why a session can be gone after one more event: it was ended, the manager was shut
      down, or a sweep found it past one of its limits. It was not in use. */
  lemma RemovalHasACause(c: Config, events: seq<Event>, e: Event, id: string)
    requires Possible(c, events) && Possible(c, events + [e])
    requires id in After(c, events).sessions && id !in After(c, events + [e]).sessions
    ensures var m := After(c, events);
            && !(m.holder.Some? && m.holder.value.Using?)
            && ((e.EndRemoves? && e.id == id)
                || (e == ShutdownRemoves(id) && m.holder.value.Draining?)
                || (e == SweepRemoves(id) && m.holder.value.Sweeping? && Expired(c, m.sessions[id], m.holder.value.now)))
  {
    ReachableIsSound(c, events);
    OneMoreStep(c, INITIAL, events, e);
  }

  // ----- a whole sweep -----

  lemma SweepStep(c: Config, m: Manager, e: Event, now: int)
    requires m.holder == Some(Sweeping(now, Dead(c, m.sessions, now))) && !e.SweepEnds? && Step(c, m, e).Some?
    ensures var after := Step(c, m, e).value;
            && after.holder == Some(Sweeping(now, Dead(c, after.sessions, now)))
            && Live(c, after.sessions, now) == Live(c, m.sessions, now)
  {
    var after := Step(c, m, e).value;
    if e.SweepRemoves? {
      assert Dead(c, after.sessions, now) == Dead(c, m.sessions, now) - {e.id};
    }
  }

  lemma {:induction false} SweepInProgress(c: Config, m: Manager, events: seq<Event>, now: int)
    requires m.holder == Some(Sweeping(now, Dead(c, m.sessions, now)))
    requires SweepEnds !in events && RunFrom(c, m, events).Some?
    ensures var after := RunFrom(c, m, events).value;
            && after.holder == Some(Sweeping(now, Dead(c, after.sessions, now)))
            && Live(c, after.sessions, now) == Live(c, m.sessions, now)
  {
    if events != [] {
      var front, e := events[..|events| - 1], events[|events| - 1];
      assert SweepEnds !in front;
      SweepInProgress(c, m, front, now);
      assert e in events;
      SweepStep(c, RunFrom(c, m, front).value, e, now);
    }
  }

  /** However its removals are ordered and whatever other calls do meanwhile, a sweep
      leaves exactly the sessions that were within both limits when it began. */
  lemma SweepLeavesTheLive(c: Config, m: Manager, events: seq<Event>, now: int)
    requires RunFrom(c, m, [SweepBegins(now)] + events + [SweepEnds]).Some? && SweepEnds !in events
    ensures RunFrom(c, m, [SweepBegins(now)] + events + [SweepEnds]).value.sessions == Live(c, m.sessions, now)
  {
    var first := [SweepBegins(now)];
    OneMoreStep(c, m, first + events, SweepEnds);
    FirstStep(c, m, SweepBegins(now), events);
    var begun := Step(c, m, SweepBegins(now)).value;
    SweepInProgress(c, begun, events, now);
    var swept := RunFrom(c, begun, events).value;
    assert Dead(c, swept.sessions, now) == {};
    assert swept.sessions == Live(c, swept.sessions, now) by {
      forall id | id in swept.sessions
        ensures !Expired(c, swept.sessions[id], now)
      {
        assert id !in Dead(c, swept.sessions, now);
      }
    }
  }

  lemma {:induction false} FirstStep(c: Config, m: Manager, e: Event, events: seq<Event>)
    ensures RunFrom(c, m, [e] + events)
         == if Step(c, m, e).Some? then RunFrom(c, Step(c, m, e).value, events) else None
  {
    if events == [] {
      assert [e] + events == [e];
      OneMoreStep(c, m, [], e);
      assert [] + [e] == [e];
    } else {
      var front, last := events[..|events| - 1], events[|events| - 1];
      FirstStep(c, m, e, front);
      assert [e] + events == [e] + front + [last];
      OneMoreStep(c, m, [e] + front, last);
    }
  }

  // ----- how old a session is -----

  /** When the session `id` was inserted last. */
  function InsertedAt(events: seq<Event>, id: string): Option<int> {
    if events == [] then None
    else
      match events[|events| - 1]
      case StartInserts(_, other, now) =>
        if other == id then Some(now) else InsertedAt(events[..|events| - 1], id)
      case _ => InsertedAt(events[..|events| - 1], id)
  }

  /** When the session `id` was inserted or last asked for, whichever is later in the run. */
  function UsedAt(events: seq<Event>, id: string): Option<int> {
    if events == [] then None
    else
      match events[|events| - 1]
      case StartInserts(_, other, now) => if other == id then Some(now) else UsedAt(events[..|events| - 1], id)
      case UseBegins(_, other, now) => if other == id then Some(now) else UsedAt(events[..|events| - 1], id)
      case _ => UsedAt(events[..|events| - 1], id)
  }

  /** The two times a session carries are those of the run that made it. */
  lemma {:induction false} TimesAreKept(c: Config, events: seq<Event>, id: string)
    requires Possible(c, events) && id in After(c, events).sessions
    ensures InsertedAt(events, id) == Some(After(c, events).sessions[id].createdAt)
    ensures UsedAt(events, id) == Some(After(c, events).sessions[id].lastUsed)
  {
    var front, e := events[..|events| - 1], events[|events| - 1];
    if id in After(c, front).sessions {
      TimesAreKept(c, front, id);
    }
  }

  /** So a sweep at `now` leaves a session just if its last use is not longer ago than one
      limit and its insertion not longer than the other, however often it was used. */
  lemma SweepGoesByTheTimes(c: Config, events: seq<Event>, removals: seq<Event>, now: int, id: string)
    requires Possible(c, events + ([SweepBegins(now)] + removals + [SweepEnds])) && SweepEnds !in removals
    requires Possible(c, events) && id in After(c, events).sessions
    ensures InsertedAt(events, id).Some? && UsedAt(events, id).Some?
    ensures id in After(c, events + ([SweepBegins(now)] + removals + [SweepEnds])).sessions
       <==> now <= UsedAt(events, id).value + c.idleTtl && now <= InsertedAt(events, id).value + c.maxLifetime
  {
    var sweep := [SweepBegins(now)] + removals + [SweepEnds];
    RunSplit(c, INITIAL, events, sweep);
    SweepLeavesTheLive(c, After(c, events), removals, now);
    TimesAreKept(c, events, id);
  }

  // ----- the cap on live sessions -----

  /** A run with never more than `k` calls of `start` between check and insertion. */
  predicate AtMostStarting(c: Config, events: seq<Event>, k: nat) {
    && Possible(c, events)
    && |After(c, events).starting| <= k
    && (events != [] ==> AtMostStarting(c, events[..|events| - 1], k))
  }

  lemma SubsetSize<T>(small: set<T>, big: set<T>)
    requires small <= big
    ensures |small| <= |big|
  {
    assert big == small + (big - small);
  }

  lemma StepKeepsCap(c: Config, m: Manager, e: Event, k: nat)
    requires k >= 1 && Step(c, m, e).Some? && |Step(c, m, e).value.starting| <= k
    requires |m.sessions| + |m.starting| <= c.maxSessions - 1 + k
    ensures |Step(c, m, e).value.sessions| + |Step(c, m, e).value.starting| <= c.maxSessions - 1 + k
  {
    var after := Step(c, m, e).value;
    if e.StartInserts? {
      InsertKeepsSum(c, m, e);
    } else if !(e.StartChecks? && |m.sessions| < c.maxSessions) {
      OthersOnlyRemove(c, m, e);
      SubsetSize(after.sessions.Keys, m.sessions.Keys);
      SubsetSize(after.starting, m.starting);
    }
  }

  lemma InsertKeepsSum(c: Config, m: Manager, e: Event)
    requires e.StartInserts? && Step(c, m, e).Some?
    ensures var after := Step(c, m, e).value;
            |after.sessions| + |after.starting| <= |m.sessions| + |m.starting|
  {
    var after := Step(c, m, e).value;
    assert after.sessions.Keys == m.sessions.Keys + {e.id};
    assert |after.sessions| == |after.sessions.Keys|;
  }

  lemma OthersOnlyRemove(c: Config, m: Manager, e: Event)
    requires !e.StartInserts? && !(e.StartChecks? && |m.sessions| < c.maxSessions) && Step(c, m, e).Some?
    ensures Step(c, m, e).value.sessions.Keys <= m.sessions.Keys
    ensures Step(c, m, e).value.starting <= m.starting
  {
  }

  /** With at most `k` calls of `start` in flight there are never more than
      `maxSessions - 1 + k` sessions, whatever else the calls interleave with. With one
      at a time that is `maxSessions`. */
  lemma {:induction false} SessionsAreBounded(c: Config, events: seq<Event>, k: nat)
    requires k >= 1 && AtMostStarting(c, events, k)
    ensures |After(c, events).sessions| + |After(c, events).starting| <= c.maxSessions - 1 + k
  {
    if events != [] {
      var front := events[..|events| - 1];
      SessionsAreBounded(c, front, k);
      StepKeepsCap(c, After(c, front), events[|events| - 1], k);
    }
  }

  /** The checks of `start` that found room. */
  function Admitted(c: Config, events: seq<Event>): nat
    requires Possible(c, events)
  {
    if events == [] then 0
    else
      var front, e := events[..|events| - 1], events[|events| - 1];
      Admitted(c, front) + if e.StartChecks? && |After(c, front).sessions| < c.maxSessions then 1 else 0
  }

  /** The starts that failed behind their check, or inserted their session. */
  function Finished(events: seq<Event>): nat {
    if events == [] then 0
    else
      var e := events[|events| - 1];
      Finished(events[..|events| - 1]) + if e.StartFails? || e.StartInserts? then 1 else 0
  }

  /** Every start that found room is counted until it fails or inserts, and none twice. */
  lemma {:induction false} StartsAreCounted(c: Config, events: seq<Event>)
    requires Possible(c, events)
    ensures |After(c, events).starting| == Admitted(c, events) - Finished(events)
  {
    if events != [] {
      var front, e := events[..|events| - 1], events[|events| - 1];
      StartsAreCounted(c, front);
      StartingChanges(c, After(c, front), e);
    }
  }

  lemma StartingChanges(c: Config, m: Manager, e: Event)
    requires Step(c, m, e).Some?
    ensures |Step(c, m, e).value.starting| == |m.starting|
         + (if e.StartChecks? && |m.sessions| < c.maxSessions then 1 else 0) - (if e.StartFails? || e.StartInserts? then 1 else 0)
  {
    hide Use, Continue, Dead;
    if !e.StartChecks? && !e.StartFails? && !e.StartInserts? {
      OthersKeepStarting(c, m, e);
    }
  }

  lemma OthersKeepStarting(c: Config, m: Manager, e: Event)
    requires !e.StartChecks? && !e.StartFails? && !e.StartInserts? && Step(c, m, e).Some?
    ensures Step(c, m, e).value.starting == m.starting
  {
  }

  /** Nothing starts before the browser is connected, and the first session comes last
      of connection, check and insertion. */
  lemma {:induction false} ConnectedFirst(c: Config, events: seq<Event>)
    requires Possible(c, events)
    ensures Connects !in events ==> After(c, events).sessions == map[] && After(c, events).starting == {}
    ensures After(c, events).sweep.Unborn? <==> Connects !in events
  {
    if events != [] {
      var front, e := events[..|events| - 1], events[|events| - 1];
      ConnectedFirst(c, front);
      assert events == front + [e];
    }
  }

  // ----- the bound is reached -----

  function Name(i: nat): (id: string)
    ensures |id| == i
  {
    seq(i, _ => 'x')
  }

  /** `n` starts one after the other. */
  function Fill(n: nat): seq<Event> {
    if n == 0 then [Connects] else Fill(n - 1) + [StartChecks(0)] + [StartInserts(0, Name(n - 1), 0)]
  }

  /** `j` starts past their check after that. */
  function Crowd(n: nat, j: nat): seq<Event> {
    if j == 0 then Fill(n) else Crowd(n, j - 1) + [StartChecks(j - 1)]
  }

  /** Then the last `i` of `k` insert their sessions. */
  function Rush(n: nat, k: nat, i: nat): seq<Event>
    requires i <= k
  {
    if i == 0 then Crowd(n, k) else Rush(n, k, i - 1) + [StartInserts(k - i, Name(n + i - 1), 0)]
  }

  ghost predicate Crowded(m: Manager, n: nat, j: nat) {
    && m.holder.None? && m.sweep.Running?
    && |m.sessions| == n && (forall id :: id in m.sessions ==> |id| < n)
    && |m.starting| == j && (forall t: nat :: t in m.starting <==> t < j)
  }

  lemma CheckCrowds(c: Config, m: Manager, n: nat, j: nat)
    requires Crowded(m, n, j) && n < c.maxSessions
    ensures Step(c, m, StartChecks(j)).Some? && Crowded(Step(c, m, StartChecks(j)).value, n, j + 1)
  {
  }

  lemma InsertCrowds(c: Config, m: Manager, n: nat, j: nat)
    requires Crowded(m, n, j + 1)
    ensures Step(c, m, StartInserts(j, Name(n), 0)).Some?
    ensures Crowded(Step(c, m, StartInserts(j, Name(n), 0)).value, n + 1, j)
  {
    var after := Step(c, m, StartInserts(j, Name(n), 0)).value;
    assert after.sessions.Keys == m.sessions.Keys + {Name(n)};
    assert |after.sessions| == |after.sessions.Keys|;
  }

  /** A run that ends crowded. */
  ghost predicate Reaches(c: Config, events: seq<Event>, k: nat, n: nat, j: nat) {
    AtMostStarting(c, events, k) && Crowded(After(c, events), n, j)
  }

  lemma ChecksOnce(c: Config, events: seq<Event>, k: nat, n: nat, j: nat)
    requires Reaches(c, events, k, n, j) && n < c.maxSessions && j < k
    ensures Reaches(c, events + [StartChecks(j)], k, n, j + 1)
  {
    CheckCrowds(c, After(c, events), n, j);
    OneMoreStep(c, INITIAL, events, StartChecks(j));
    assert (events + [StartChecks(j)])[..|events|] == events;
  }

  lemma InsertsOnce(c: Config, events: seq<Event>, k: nat, n: nat, j: nat)
    requires Reaches(c, events, k, n, j + 1) && j < k
    ensures Reaches(c, events + [StartInserts(j, Name(n), 0)], k, n + 1, j)
  {
    InsertCrowds(c, After(c, events), n, j);
    OneMoreStep(c, INITIAL, events, StartInserts(j, Name(n), 0));
    assert (events + [StartInserts(j, Name(n), 0)])[..|events|] == events;
  }

  lemma {:induction false} FillReaches(c: Config, n: nat, k: nat)
    requires n < c.maxSessions && k >= 1
    ensures Reaches(c, Fill(n), k, n, 0)
  {
    if n == 0 {
      assert [Connects][..0] == [];
      assert AtMostStarting(c, [], k);
      assert After(c, [Connects]) == INITIAL.(sweep := Running);
    } else {
      FillReaches(c, n - 1, k);
      ChecksOnce(c, Fill(n - 1), k, n - 1, 0);
      InsertsOnce(c, Fill(n - 1) + [StartChecks(0)], k, n - 1, 0);
    }
  }

  lemma {:induction false} CrowdReaches(c: Config, n: nat, k: nat, j: nat)
    requires n < c.maxSessions && j <= k && k >= 1
    ensures Reaches(c, Crowd(n, j), k, n, j)
  {
    if j == 0 {
      FillReaches(c, n, k);
    } else {
      CrowdReaches(c, n, k, j - 1);
      ChecksOnce(c, Crowd(n, j - 1), k, n, j - 1);
    }
  }

  lemma {:induction false} RushReaches(c: Config, n: nat, k: nat, i: nat)
    requires n < c.maxSessions && i <= k && k >= 1
    ensures Reaches(c, Rush(n, k, i), k, n + i, k - i)
  {
    hide Reaches, Crowd, Fill;
    if i == 0 {
      CrowdReaches(c, n, k, k);
    } else {
      RushReaches(c, n, k, i - 1);
      InsertsOnce(c, Rush(n, k, i - 1), k, n + i - 1, k - i);
    }
  }

  /** The bound is the best one: the check and the insertion are two separate holds of
      the lock, so `k` starts can all pass the check before any of them inserts. */
  lemma CapIsExceeded(c: Config, k: nat)
    requires k >= 1 && c.maxSessions >= 1
    ensures AtMostStarting(c, Rush(c.maxSessions - 1, k, k), k)
    ensures |After(c, Rush(c.maxSessions - 1, k, k)).sessions| == c.maxSessions - 1 + k
  {
    RushReaches(c, c.maxSessions - 1, k, k);
  }

  // ----- after a shutdown -----

  /** What the return of a shutdown leaves: no session, and no sweep ever again; but the
      starts that are past their check go on. */
  lemma ShutdownClears(c: Config, events: seq<Event>, task: nat)
    requires Possible(c, events + [ShutdownReturns(task)])
    ensures var after := After(c, events + [ShutdownReturns(task)]);
            && after.sessions == map[] && after.holder.None? && !after.sweep.Running?
            && after.starting == After(c, events).starting
  {
    OneMoreStep(c, INITIAL, events, ShutdownReturns(task));
  }

  ghost predicate Unswept(m: Manager, id: string) {
    && m.sweep.Aborted? && id in m.sessions
    && !(m.holder.Some? && (m.holder.value.Sweeping? || m.holder.value.Draining?))
  }

  lemma StaysUnswept(c: Config, m: Manager, e: Event, id: string)
    requires Unswept(m, id) && Step(c, m, e).Some?
    requires !e.ShutdownBegins? && !(e.EndRemoves? && e.id == id)
    ensures Unswept(Step(c, m, e).value, id)
  {
  }

  /** A start that was past its check when a shutdown returned can still insert its
      session, and then nothing but `end` or another shutdown removes it: it outlives
      every limit, as the sweep is gone. */
  lemma {:induction false} StartOutlivesShutdown(c: Config, m: Manager, task: nat, id: string, now: int, more: seq<Event>)
    requires m.sweep.Aborted? && m.holder.None? && task in m.starting
    requires RunFrom(c, m, [StartInserts(task, id, now)] + more).Some?
    requires forall i :: 0 <= i < |more| ==> !more[i].ShutdownBegins? && !(more[i].EndRemoves? && more[i].id == id)
    ensures Unswept(RunFrom(c, m, [StartInserts(task, id, now)] + more).value, id)
  {
    var first := [StartInserts(task, id, now)];
    if more == [] {
      assert first + more == first;
      OneMoreStep(c, m, [], first[0]);
      assert [] + [first[0]] == first;
    } else {
      var front, e := more[..|more| - 1], more[|more| - 1];
      assert first + more == first + front + [e];
      OneMoreStep(c, m, first + front, e);
      StartOutlivesShutdown(c, m, task, id, now, front);
      StaysUnswept(c, RunFrom(c, m, first + front).value, e, id);
    }
  }

  /** Such a start: it passes its check before a shutdown and inserts after it. */
  const STRAGGLER: seq<Event> := [Connects] + [StartChecks(0)] + [ShutdownBegins(1)] + [ShutdownReturns(1)]

  /** So a manager that allows any session at all can be left with one that nothing but
      `end` or another shutdown removes. */
  lemma ShutdownIsOutlived(c: Config, id: string, now: int, more: seq<Event>)
    requires c.maxSessions >= 1
    requires RunFrom(c, INITIAL, STRAGGLER + ([StartInserts(0, id, now)] + more)).Some?
    requires forall i :: 0 <= i < |more| ==> !more[i].ShutdownBegins? && !(more[i].EndRemoves? && more[i].id == id)
    ensures Unswept(After(c, STRAGGLER + ([StartInserts(0, id, now)] + more)), id)
  {
    var m := StragglerWaits(c);
    RunSplit(c, INITIAL, STRAGGLER, [StartInserts(0, id, now)] + more);
    StartOutlivesShutdown(c, m, 0, id, now, more);
  }

  /** The run is possible, and so is the insertion after it. */
  lemma StragglerWaits(c: Config) returns (m: Manager)
    requires c.maxSessions >= 1
    ensures RunFrom(c, INITIAL, STRAGGLER) == Some(m) && m == Manager(map[], None, {0}, Aborted)
    ensures forall id, now :: Step(c, m, StartInserts(0, id, now)).Some?
  {
    m := Manager(map[], None, {0}, Aborted);
    OneMoreStep(c, INITIAL, [], Connects);
    assert [] + [Connects] == [Connects];
    OneMoreStep(c, INITIAL, [Connects], StartChecks(0));
    OneMoreStep(c, INITIAL, [Connects] + [StartChecks(0)], ShutdownBegins(1));
    OneMoreStep(c, INITIAL, [Connects] + [StartChecks(0)] + [ShutdownBegins(1)], ShutdownReturns(1));
  }

  lemma {:induction false} RunSplit(c: Config, m: Manager, first: seq<Event>, more: seq<Event>)
    ensures RunFrom(c, m, first + more)
         == if RunFrom(c, m, first).Some? then RunFrom(c, RunFrom(c, m, first).value, more) else None
  {
    if more == [] {
      assert first + more == first;
    } else {
      var front, last := more[..|more| - 1], more[|more| - 1];
      RunSplit(c, m, first, front);
      assert first + more == first + front + [last];
      OneMoreStep(c, m, first + front, last);
    }
  }

  // ----- the calls -----

  lemma Begins(c: Config, m: Manager, first: Event, after: Manager)
    requires Step(c, m, first) == Some(after)
    ensures RunFrom(c, m, [first] + []) == Some(after)
  {
    OneMoreStep(c, m, [], first);
    assert [] + [first] == [first] + [];
  }

  lemma GoesOn(c: Config, m: Manager, first: Event, done: seq<Event>, now: Manager, e: Event, after: Manager)
    requires RunFrom(c, m, [first] + done) == Some(now) && Step(c, now, e) == Some(after)
    ensures RunFrom(c, m, [first] + (done + [e])) == Some(after)
    ensures RunFrom(c, m, [first] + done + [e]) == Some(after)
  {
    OneMoreStep(c, m, [first] + done, e);
    Regroup([first], done, [e]);
  }

  lemma DrainsOne(c: Config, m: Manager, task: nat, id: string)
    requires m.holder == Some(Draining(task)) && id in m.sessions
    ensures Step(c, m, ShutdownRemoves(id)) == Some(m.(sessions := m.sessions - {id}))
    ensures |m.sessions - {id}| < |m.sessions|
  {
    assert m.sessions.Keys == (m.sessions - {id}).Keys + {id};
  }

  lemma DrainsAll(c: Config, m: Manager, task: nat)
    requires m.holder == Some(Draining(task)) && m.sessions == map[]
    ensures Step(c, m, ShutdownReturns(task)) == Some(m.(holder := None, sweep := if m.sweep.Running? then Aborted else m.sweep))
  {
  }

  /** What a call does while it holds the lock of the map is a run of the machine, with
      nothing in between. A call that finds the lock held waits, so every method asks for
      `holder.None?`. Of the state, `holder` and `starting` are only in the tasks
      themselves, and `sweep` is the handle of the sweeping task. */
  class BrowserSessionManager {
    const config: Config
    var sessions: map<string, Session>
    var sweep: SweepTask
    ghost var holder: Option<Holder>
    ghost var starting: set<nat>

    ghost function State(): Manager
      reads this
    {
      Manager(sessions, holder, starting, sweep)
    }

    ghost predicate Valid()
      reads this
    {
      Sound(config, State())
    }

    constructor (config: Config)
      ensures this.config == config && State() == INITIAL && Valid()
    {
      this.config, sessions, sweep, holder, starting := config, map[], Unborn, None, {};
    }

    /** `ensure_connected`: the sweep is started with the first connection, and once. */
    method EnsureConnected()
      requires Valid()
      modifies this
      ensures Valid() && !sweep.Unborn?
      ensures if old(sweep).Unborn? then Step(config, old(State()), Connects) == Some(State()) else State() == old(State())
    {
      if sweep == Unborn {
        sweep := Running;
      }
    }

    /** The check of `start`: there is room just for a task that is then starting. */
    method HasRoom(ghost task: nat) returns (room: bool)
      requires Valid() && holder.None? && !sweep.Unborn? && task !in starting
      modifies this
      ensures Valid() && Step(config, old(State()), StartChecks(task)) == Some(State())
      ensures room <==> task in starting
    {
      room := |sessions| < config.maxSessions;
      if room {
        starting := starting + {task};
      }
    }

    /** The insertion of `start`. */
    method Insert(ghost task: nat, id: string, now: int)
      requires Valid() && holder.None? && task in starting
      modifies this
      ensures Valid() && Step(config, old(State()), StartInserts(task, id, now)) == Some(State())
    {
      ghost var before := State();
      sessions := sessions[id := Session(now, now, None)];
      starting := starting - {task};
      StepKeepsSound(config, before, StartInserts(task, id, now));
    }

    /** `end`, which holds the lock until the page is closed. */
    method End(ghost task: nat, id: string) returns (found: bool)
      requires Valid() && holder.None?
      modifies this
      ensures Valid() && holder.None? && (found <==> id in old(sessions))
      ensures RunFrom(config, old(State()), [EndRemoves(task, id)] + if found then [EndReturns(task)] else []) == Some(State())
      ensures id !in sessions && forall other :: other in old(sessions) && other != id ==> other in sessions && sessions[other] == old(sessions[other])
    {
      ghost var before := State();
      found := id in sessions;
      sessions := sessions - {id};
      if found {
        holder := Some(Closing(task));
      }
      assert !found ==> sessions == old(sessions);
      Begins(config, before, EndRemoves(task, id), State());
      if found {
        ghost var closing := State();
        holder := None;
        GoesOn(config, before, EndRemoves(task, id), [], closing, EndReturns(task), State());
        assert [EndRemoves(task, id)] + [] + [EndReturns(task)] == [EndRemoves(task, id)] + [EndReturns(task)];
      }
      RunKeepsSound(config, before, [EndRemoves(task, id)] + if found then [EndReturns(task)] else []);
    }

    /** `with_session`: the session is touched and its page locked; the operation runs
        and both locks are given back. */
    method WithSession(task: nat, id: string, now: int) returns (found: bool)
      requires Valid() && holder.None?
      modifies this
      ensures Valid() && holder.None? && (found <==> id in old(sessions))
      ensures RunFrom(config, old(State()), Operation(task, id, now, found)) == Some(State())
      ensures sessions.Keys == old(sessions).Keys && sessions - {id} == old(sessions) - {id}
      ensures found ==> sessions[id] == old(sessions[id]).(lastUsed := now, operator := None)
    {
      ghost var before := State();
      ghost var begin := [UseBegins(task, id, now)];
      OneMoreStep(config, before, [], UseBegins(task, id, now));
      assert [] + begin == begin + [];
      found := id in sessions;
      if found {
        sessions := Touched(sessions, id, now);
        holder := Some(Using(task, id, false));
        OneMoreStep(config, before, begin, UseLocksPage(task));
        sessions := sessions[id := sessions[id].(operator := Some(task))];
        holder := Some(Using(task, id, true));
        OneMoreStep(config, before, begin + [UseLocksPage(task)], UseEnds(task));
        sessions := sessions[id := sessions[id].(operator := None)];
        holder := None;
      }
      assert RunFrom(config, before, Operation(task, id, now, found)) == Some(State());
      RunKeepsSound(config, before, Operation(task, id, now, found));
    }

    /** One round of the sweep: the expired sessions are collected first and then
        removed one by one. */
    method Sweep(now: int) returns (ghost removals: seq<Event>)
      requires Valid() && holder.None? && sweep.Running?
      modifies this
      ensures Valid() && SweepEnds !in removals
      ensures RunFrom(config, old(State()), [SweepBegins(now)] + removals + [SweepEnds]) == Some(State())
      ensures sessions == Live(config, old(sessions), now)
    {
      hide RunFrom, Sound, Dead, Live;
      ghost var before := State();
      var dead := Collect(now);
      holder := Some(Sweeping(now, dead));
      removals := [];
      Begins(config, before, SweepBegins(now), State());
      while dead != {}
        invariant holder == Some(Sweeping(now, dead)) && SweepEnds !in removals
        invariant RunFrom(config, before, [SweepBegins(now)] + removals) == Some(State())
        decreases |dead|
      {
        var id :| id in dead;
        ghost var state := State();
        sessions := sessions - {id};
        dead := dead - {id};
        holder := Some(Sweeping(now, dead));
        GoesOn(config, before, SweepBegins(now), removals, state, SweepRemoves(id), State());
        removals := removals + [SweepRemoves(id)];
      }
      ghost var swept := State();
      holder := None;
      GoesOn(config, before, SweepBegins(now), removals, swept, SweepEnds, State());
      SweepLeavesTheLive(config, before, removals, now);
      RunKeepsSound(config, before, [SweepBegins(now)] + removals + [SweepEnds]);
    }

    method Collect(now: int) returns (dead: set<string>)
      ensures dead == Dead(config, sessions, now)
    {
      var unseen := sessions.Keys;
      dead := {};
      while unseen != {}
        invariant unseen <= sessions.Keys
        invariant dead == set id | id in sessions && id !in unseen && Expired(config, sessions[id], now)
        decreases |unseen|
      {
        var id :| id in unseen;
        if Expired(config, sessions[id], now) {
          dead := dead + {id};
        }
        unseen := unseen - {id};
      }
    }

    /** `shutdown`: every session goes, and the sweep with them. */
    method Shutdown(ghost task: nat) returns (ghost removals: seq<Event>)
      requires Valid() && holder.None?
      modifies this
      ensures Valid() && sessions == map[] && !sweep.Running? && starting == old(starting)
      ensures RunFrom(config, old(State()), [ShutdownBegins(task)] + removals + [ShutdownReturns(task)]) == Some(State())
    {
      ghost var before := State();
      hide RunFrom, Sound, Dead, Start, Use, Continue;
      holder, removals := Some(Draining(task)), [];
      Begins(config, before, ShutdownBegins(task), State());
      while sessions != map[]
        invariant holder == Some(Draining(task)) && sweep == old(sweep) && starting == old(starting)
        invariant RunFrom(config, before, [ShutdownBegins(task)] + removals) == Some(State())
        decreases |sessions|
      {
        assert exists id :: id in sessions;
        var id :| id in sessions;
        ghost var state := State();
        DrainsOne(config, state, task, id);
        sessions := sessions - {id};
        GoesOn(config, before, ShutdownBegins(task), removals, state, ShutdownRemoves(id), State());
        removals := removals + [ShutdownRemoves(id)];
      }
      ghost var drained := State();
      holder := None;
      if sweep == Running {
        sweep := Aborted;
      }
      DrainsAll(config, drained, task);
      GoesOn(config, before, ShutdownBegins(task), removals, drained, ShutdownReturns(task), State());
      RunKeepsSound(config, before, [ShutdownBegins(task)] + removals + [ShutdownReturns(task)]);
    }
  }

  /** The run of a whole operation, or of one that finds no session. */
  function Operation(task: nat, id: string, now: int, found: bool): seq<Event> {
    if found then [UseBegins(task, id, now)] + [UseLocksPage(task)] + [UseEnds(task)] else [UseBegins(task, id, now)]
  }
}
