/** The login rate limiter: a fixed window of failures per key. */
module LoginLimiter {
  import opened Text

  const MAX_FAILURES: nat := 0xFFFF_FFFF

  datatype AttemptWindow = AttemptWindow(started: int, failures: nat)

  datatype Limits = Limits(maxAttempts: nat, window: int)

  predicate ValidLimits(l: Limits) {
    0 < l.maxAttempts <= MAX_FAILURES && l.window > 0
  }

  /** `duration_since` is zero for a time in the future. */
  predicate Expired(l: Limits, w: AttemptWindow, now: int) {
    now >= w.started && now - w.started >= l.window
  }

  // ----- one key -----

  function Checked(l: Limits, entry: Option<AttemptWindow>, now: int): (bool, Option<AttemptWindow>) {
    match entry
    case None => (true, None)
    case Some(w) => if Expired(l, w, now) then (true, None) else (w.failures < l.maxAttempts, entry)
  }

  function SaturatingIncrement(n: nat): nat {
    if n < MAX_FAILURES then n + 1 else MAX_FAILURES
  }

  function Failed(l: Limits, entry: Option<AttemptWindow>, now: int): AttemptWindow {
    var w := if entry.Some? && !Expired(l, entry.value, now) then entry.value else AttemptWindow(now, 0);
    w.(failures := SaturatingIncrement(w.failures))
  }

  function Lookup(windows: map<string, AttemptWindow>, key: string): Option<AttemptWindow> {
    if key in windows then Some(windows[key]) else None
  }

  /** The shared limiter. Every method holds the lock throughout and reads the
      clock under it. */
  class LoginRateLimiter {
    var windows: map<string, AttemptWindow>
    const limits: Limits

    constructor (limits: Limits)
      requires ValidLimits(limits)
      ensures this.limits == limits && windows == map[]
    {
      this.limits, this.windows := limits, map[];
    }

    method Allowed(key: string, now: int) returns (allowed: bool)
      modifies this
      ensures allowed == Checked(limits, old(Lookup(windows, key)), now).0
      ensures windows == React(limits, old(windows), Check(key, now))
    {
      if key !in windows {
        return true;
      }
      var window := windows[key];
      if Expired(limits, window, now) {
        windows := windows - {key};
        return true;
      }
      return window.failures < limits.maxAttempts;
    }

    method RecordFailure(key: string, now: int)
      modifies this
      ensures windows == React(limits, old(windows), Failure(key, now))
    {
      if key !in windows {
        windows := windows[key := AttemptWindow(now, 0)];
      }
      if Expired(limits, windows[key], now) {
        windows := windows[key := AttemptWindow(now, 0)];
      }
      windows := windows[key := windows[key].(failures := SaturatingIncrement(windows[key].failures))];
    }

    method RecordSuccess(key: string)
      modifies this
      ensures windows == React(limits, old(windows), Success(key))
    {
      windows := windows - {key};
    }
  }

  // ----- runs over all keys -----

  datatype Event = Check(key: string, at: int) | Failure(key: string, at: int) | Success(key: string)

  function Put(windows: map<string, AttemptWindow>, key: string, entry: Option<AttemptWindow>): map<string, AttemptWindow> {
    if entry.Some? then windows[key := entry.value] else windows - {key}
  }

  function React(l: Limits, windows: map<string, AttemptWindow>, event: Event): map<string, AttemptWindow> {
    var entry := Lookup(windows, event.key);
    match event
    case Check(key, at) => Put(windows, key, Checked(l, entry, at).1)
    case Failure(key, at) => Put(windows, key, Some(Failed(l, entry, at)))
    case Success(key) => Put(windows, key, None)
  }

  function RunAll(l: Limits, events: seq<Event>): map<string, AttemptWindow> {
    if events == [] then map[]
    else React(l, RunAll(l, events[..|events| - 1]), events[|events| - 1])
  }

  function OnlyKey(events: seq<Event>, key: string): seq<Event> {
    if events == [] then []
    else
      var rest, last := OnlyKey(events[..|events| - 1], key), events[|events| - 1];
      if last.key == key then rest + [last] else rest
  }

  /** What a key's window is after any run depends on that key's events alone, and so
      does every answer given for it. */
  lemma {:induction false} OtherKeysDoNotMatter(l: Limits, events: seq<Event>, key: string, now: int)
    ensures Lookup(RunAll(l, events), key) == Lookup(RunAll(l, OnlyKey(events, key)), key)
    ensures Checked(l, Lookup(RunAll(l, events), key), now).0
         == Checked(l, Lookup(RunAll(l, OnlyKey(events, key)), key), now).0
  {
    if events != [] {
      var front, last := events[..|events| - 1], events[|events| - 1];
      OtherKeysDoNotMatter(l, front, key, now);
      if last.key == key {
        var own := OnlyKey(events, key);
        assert own[..|own| - 1] == OnlyKey(front, key);
      } else {
        assert OnlyKey(events, key) == OnlyKey(front, key);
      }
    }
  }

  // ----- runs of one key between two successes -----

  /** A login first asks whether it may try. One that is let through records its failure
      later, or drops out without recording anything, as when the account is not
      verified or the store does not answer. */
  datatype Move = Asks(at: int) | Fails(at: int) | Drops(at: int)

  /** A key's window, and how many logins were let through and are still verifying
      their password. */
  datatype Track = Track(entry: Option<AttemptWindow>, inFlight: int)

  function Next(l: Limits, t: Track, move: Move): Track {
    match move
    case Asks(at) =>
      var (allowed, entry) := Checked(l, t.entry, at);
      Track(entry, if allowed then t.inFlight + 1 else t.inFlight)
    case Fails(at) => Track(Some(Failed(l, t.entry, at)), t.inFlight - 1)
    case Drops(_) => t.(inFlight := t.inFlight - 1)
  }

  function Tracked(l: Limits, started: nat, moves: seq<Move>): Track {
    if moves == [] then Track(None, started)
    else Next(l, Tracked(l, started, moves[..|moves| - 1]), moves[|moves| - 1])
  }

  /** The clock does not go back, only a login that was let through records a
      failure or drops out, and at most `most` logins are in flight at a time. `started` were
      when the segment began. */
  predicate Legal(l: Limits, started: nat, most: nat, moves: seq<Move>) {
    if moves == [] then started <= most
    else
      var front := moves[..|moves| - 1];
      && Legal(l, started, most, front)
      && (front != [] ==> front[|front| - 1].at <= moves[|moves| - 1].at)
      && 0 <= Tracked(l, started, moves).inFlight <= most
  }

  function FailureTimes(moves: seq<Move>): seq<int> {
    if moves == [] then []
    else
      var rest, last := FailureTimes(moves[..|moves| - 1]), moves[|moves| - 1];
      if last.Fails? then rest + [last.at] else rest
  }

  /** How many of the times lie in `[from, to)`. */
  function CountIn(times: seq<int>, from: int, to: int): nat {
    if times == [] then 0
    else
      var rest := CountIn(times[..|times| - 1], from, to);
      if from <= times[|times| - 1] < to then rest + 1 else rest
  }

  lemma CountPush(times: seq<int>, t: int, from: int, to: int)
    ensures CountIn(times + [t], from, to) == CountIn(times, from, to) + (if from <= t < to then 1 else 0)
  {
    assert (times + [t])[..|times|] == times;
  }

  lemma {:induction false} CountSplit(times: seq<int>, from: int, middle: int, to: int)
    requires from <= middle <= to
    ensures CountIn(times, from, to) == CountIn(times, from, middle) + CountIn(times, middle, to)
  {
    if times != [] {
      CountSplit(times[..|times| - 1], from, middle, to);
    }
  }

  lemma {:induction false} CountShrinks(times: seq<int>, from: int, to: int, from': int, to': int)
    requires from <= from' && to' <= to
    ensures CountIn(times, from', to') <= CountIn(times, from, to)
  {
    if times != [] {
      CountShrinks(times[..|times| - 1], from, to, from', to');
    }
  }

  /** The last window that was opened, even after its entry is gone, and the
      failures in it. */
  datatype Window = Window(start: int, count: nat)

  function LastWindow(l: Limits, started: nat, moves: seq<Move>): Option<Window> {
    if moves == [] then None
    else
      var front, move := moves[..|moves| - 1], moves[|moves| - 1];
      var before := LastWindow(l, started, front);
      if !move.Fails? then before
      else
        var entry := Tracked(l, started, front).entry;
        if entry.Some? && before.Some? && !Expired(l, entry.value, move.at)
        then Some(before.value.(count := before.value.count + 1))
        else Some(Window(move.at, 1))
  }

  function Now(moves: seq<Move>): int
    requires moves != []
  {
    moves[|moves| - 1].at
  }

  function PerWindow(l: Limits, most: nat): int {
    l.maxAttempts - 1 + most
  }

  /** The failures in the half-open interval of length `window` from `from` on. */
  function Burst(times: seq<int>, from: int, window: int): nat {
    CountIn(times, from, from + window)
  }

  /** The failures so far, split at the window opened last: at most `n` in it, one of
      them at its very start, and at most `n - 1` in the stretch before it. */
  ghost predicate Bounded(times: seq<int>, last: Option<Window>, window: int, n: int) {
    && (last.None? ==> times == [])
    && (last.Some? ==>
          var s, count := last.value.start, last.value.count;
          && 1 <= count <= n
          && CountIn(times, s, s + window) == count
          && CountIn(times, s + 1, s + window) <= count - 1
          && (forall a, b {:trigger CountIn(times, a, b)} :: a >= s + window ==> CountIn(times, a, b) == 0)
          && (forall a {:trigger CountIn(times, a, s)} :: a > s - window ==> CountIn(times, a, s) <= n - 1))
    && (forall a :: Burst(times, a, window) <= 2 * n - 1)
  }

  lemma AnotherInWindow(times: seq<int>, last: Window, window: int, n: int, t: int)
    requires Bounded(times, Some(last), window, n) && last.start <= t < last.start + window && last.count + 1 <= n
    ensures Bounded(times + [t], Some(Window(last.start, last.count + 1)), window, n)
  {
    hide CountIn;
    var s := last.start;
    forall a, b
      ensures CountIn(times + [t], a, b) == CountIn(times, a, b) + (if a <= t < b then 1 else 0)
    {
      CountPush(times, t, a, b);
    }
    forall a
      ensures Burst(times + [t], a, window) <= 2 * n - 1
    {
      assert Burst(times, a, window) <= 2 * n - 1;
      if a <= s && t < a + window {
        CountSplit(times, a, s, a + window);
        CountShrinks(times, s, s + window, s, a + window);
      } else if s < a <= t {
        CountSplit(times, a, s + window, a + window);
        CountShrinks(times, s + 1, s + window, a, s + window);
      }
    }
  }

  /** The stretch before a new window holds fewer than `n` failures. */
  lemma BeforeNewWindow(times: seq<int>, last: Option<Window>, window: int, n: int, t: int, a: int)
    requires Bounded(times, last, window, n) && n >= 1 && window > 0 && a > t - window
    requires last.Some? ==> t >= last.value.start + window
    ensures CountIn(times, a, t) <= n - 1
  {
    if a > t {
      NothingBackwards(times, a, t);
    } else if last.Some? {
      var end := last.value.start + window;
      if a < end {
        CountSplit(times, a, end, t);
        CountShrinks(times, last.value.start + 1, end, a, end);
      }
    }
  }

  /** Nothing was recorded at or behind the start of a new window. */
  lemma NothingSince(times: seq<int>, last: Option<Window>, window: int, n: int, t: int, a: int, b: int)
    requires Bounded(times, last, window, n) && a >= t
    requires last.Some? ==> t >= last.value.start + window
    ensures CountIn(times, a, b) == 0
  {
  }

  lemma FirstInWindow(times: seq<int>, last: Option<Window>, window: int, n: int, t: int)
    requires Bounded(times, last, window, n) && n >= 1 && window > 0
    requires last.Some? ==> t >= last.value.start + window
    ensures Bounded(times + [t], Some(Window(t, 1)), window, n)
  {
    hide CountIn;
    var after := times + [t];
    forall a, b | a >= t
      ensures CountIn(after, a, b) == if a == t < b then 1 else 0
    {
      CountPush(times, t, a, b);
      NothingSince(times, last, window, n, t, a, b);
    }
    forall a | a > t - window
      ensures CountIn(after, a, t) <= n - 1
    {
      CountPush(times, t, a, t);
      BeforeNewWindow(times, last, window, n, t, a);
    }
    forall a
      ensures Burst(after, a, window) <= 2 * n - 1
    {
      CountPush(times, t, a, a + window);
      assert Burst(times, a, window) <= 2 * n - 1;
      if a <= t < a + window {
        BeforeNewWindow(times, last, window, n, t, a);
        NothingSince(times, last, window, n, t, t, a + window);
        CountSplit(times, a, t, a + window);
      }
    }
  }

  lemma {:induction false} NothingBackwards(times: seq<int>, from: int, to: int)
    requires to <= from
    ensures CountIn(times, from, to) == 0
  {
    if times != [] {
      NothingBackwards(times[..|times| - 1], from, to);
    }
  }

  /** How the entry in the map stands to the window opened last. */
  ghost predicate Mirrors(l: Limits, t: Track, last: Option<Window>, now: int, n: int) {
    if t.entry.Some? then
      && last.Some? && last.value.start == t.entry.value.started <= now
      && t.entry.value.failures == (if last.value.count < MAX_FAILURES then last.value.count else MAX_FAILURES)
      && last.value.count + t.inFlight <= n
    else
      last.Some? ==> last.value.start + l.window <= now
  }

  /** What every legal run keeps. */
  lemma {:induction false} RunsAreBounded(l: Limits, started: nat, most: nat, moves: seq<Move>)
    requires ValidLimits(l) && most >= 1 && Legal(l, started, most, moves)
    ensures Bounded(FailureTimes(moves), LastWindow(l, started, moves), l.window, PerWindow(l, most))
    ensures moves != [] ==>
      Mirrors(l, Tracked(l, started, moves), LastWindow(l, started, moves), Now(moves), PerWindow(l, most))
    ensures moves == [] ==> LastWindow(l, started, moves) == None
    decreases |moves|
  {
    if moves != [] {
      var front, move, n := moves[..|moves| - 1], moves[|moves| - 1], PerWindow(l, most);
      RunsAreBounded(l, started, most, front);
      var before, last, times := Tracked(l, started, front), LastWindow(l, started, front), FailureTimes(front);
      if move.Fails? {
        if before.entry.Some? && !Expired(l, before.entry.value, move.at) {
          AnotherInWindow(times, last.value, l.window, n, move.at);
        } else {
          FirstInWindow(times, last, l.window, n, move.at);
        }
      }
    }
  }

  /** Between two successes of a key, with at most `most` logins in flight at a
      time, no half-open interval as long as the window holds more than
      2 * (maxAttempts - 1 + most) - 1 recorded failures. When each login records
      its failure before the next one asks, that is 2 * maxAttempts - 1. */
  lemma FailuresPerInterval(l: Limits, started: nat, most: nat, moves: seq<Move>, from: int)
    requires ValidLimits(l) && most >= 1 && Legal(l, started, most, moves)
    ensures Burst(FailureTimes(moves), from, l.window) <= 2 * (l.maxAttempts - 1 + most) - 1
  {
    RunsAreBounded(l, started, most, moves);
  }

  // ----- the segments of a whole run are such runs -----

  /** What a key's moves do to the map. */
  function EventsOf(key: string, moves: seq<Move>): seq<Event> {
    if moves == [] then []
    else EventsOf(key, moves[..|moves| - 1]) + EventOf(key, moves[|moves| - 1])
  }

  function EventOf(key: string, move: Move): seq<Event> {
    match move
    case Asks(at) => [Check(key, at)]
    case Fails(at) => [Failure(key, at)]
    case Drops(_) => []
  }

  /** Every run of a key's events without a success is made by such moves. */
  lemma {:induction false} SegmentIsMoves(segment: seq<Event>, key: string) returns (moves: seq<Move>)
    requires forall i :: 0 <= i < |segment| ==> segment[i].key == key && !segment[i].Success?
    ensures EventsOf(key, moves) == segment
  {
    if segment == [] {
      moves := [];
    } else {
      var last := segment[|segment| - 1];
      var front := SegmentIsMoves(segment[..|segment| - 1], key);
      moves := front + [if last.Check? then Asks(last.at) else Fails(last.at)];
      assert moves[..|front|] == front;
    }
  }

  lemma ReactsAlike(l: Limits, done: seq<Event>, t: Track, key: string, move: Move)
    requires Lookup(RunAll(l, done), key) == t.entry && !move.Drops?
    ensures Lookup(RunAll(l, done + EventOf(key, move)), key) == Next(l, t, move).entry
  {
    hide Expired, SaturatingIncrement;
    var event := EventOf(key, move)[0];
    assert done + EventOf(key, move) == done + [event];
    assert (done + [event])[..|done|] == done;
  }

  lemma DropKeepsEntry(l: Limits, t: Track, move: Move)
    requires move.Drops?
    ensures Next(l, t, move).entry == t.entry
  {
  }

  /** From any moment at which a key has no entry, as after a success, to its next
      success the map holds for it what the run of its own moves says. */
  lemma {:induction false} SegmentIsTracked(l: Limits, before: seq<Event>, moves: seq<Move>, key: string, started: nat)
    requires Lookup(RunAll(l, before), key) == None
    ensures Lookup(RunAll(l, before + EventsOf(key, moves)), key) == Tracked(l, started, moves).entry
  {
    hide React, Next, Lookup;
    if moves == [] {
      assert before + EventsOf(key, moves) == before;
    } else {
      var front, last := moves[..|moves| - 1], moves[|moves| - 1];
      var done := before + EventsOf(key, front);
      SegmentIsTracked(l, before, front, key, started);
      if last.Drops? {
        assert EventsOf(key, moves) == EventsOf(key, front);
        DropKeepsEntry(l, Tracked(l, started, front), last);
      } else {
        Regroup(before, EventsOf(key, front), EventOf(key, last));
        ReactsAlike(l, done, Tracked(l, started, front), key, last);
      }
    }
  }

  lemma SuccessClears(l: Limits, before: seq<Event>, key: string)
    ensures Lookup(RunAll(l, before + [Success(key)]), key) == None
  {
    assert (before + [Success(key)])[..|before|] == before;
  }

  // ----- the bound is reached -----

  function Asking(n: nat, at: int): seq<Move> {
    if n == 0 then [] else Asking(n - 1, at) + [Asks(at)]
  }

  function Failing(n: nat, at: int): seq<Move> {
    if n == 0 then [] else Failing(n - 1, at) + [Fails(at)]
  }

  /** `n` logins that are let through and fail, one after the other, all at `at`. */
  function Attempts(n: nat, at: int): seq<Move> {
    if n == 0 then [] else Attempts(n - 1, at) + [Asks(at)] + [Fails(at)]
  }

  /** A window with `k` logins in flight: all are let through and one of them opens it;
      at `late` as many others as it has room for are let through and fail, and then
      those that were let through first. */
  function Fill(l: Limits, k: nat, open: int, late: int): seq<Move>
    requires ValidLimits(l) && k >= 1
  {
    Asking(k, open) + [Fails(open)] + Attempts(l.maxAttempts - 1, late) + Failing(k - 1, late)
  }

  /** One failure, the rest of its window at the last moment, and then a whole new
      window. */
  function WorstCase(l: Limits, k: nat): seq<Move>
    requires ValidLimits(l) && k >= 1
  {
    Fill(l, k, 0, l.window - 1) + Fill(l, k, l.window, l.window)
  }

  /** Where a legal run with at most `k` in flight has got by `now`. */
  predicate Stands(l: Limits, k: nat, moves: seq<Move>, entry: Option<AttemptWindow>, inFlight: int, now: int) {
    && Legal(l, 0, k, moves)
    && (moves != [] ==> Now(moves) <= now)
    && Tracked(l, 0, moves) == Track(entry, inFlight)
  }

  lemma OneMove(l: Limits, k: nat, moves: seq<Move>, entry: Option<AttemptWindow>, inFlight: int, now: int, move: Move)
    requires Stands(l, k, moves, entry, inFlight, now) && now <= move.at
    requires 0 <= Next(l, Track(entry, inFlight), move).inFlight <= k
    ensures var after := Next(l, Track(entry, inFlight), move);
            Stands(l, k, moves + [move], after.entry, after.inFlight, move.at)
  {
    assert (moves + [move])[..|moves|] == moves;
  }

  /** All are let through while no window stands. */
  lemma {:induction false} AskingStands(l: Limits, k: nat, moves: seq<Move>, entry: Option<AttemptWindow>, n: nat, now: int, at: int)
    requires Stands(l, k, moves, entry, 0, now) && now <= at && n <= k
    requires entry.Some? ==> Expired(l, entry.value, at)
    ensures Stands(l, k, moves + Asking(n, at), if n == 0 then entry else None, n, at)
  {
    if n == 0 {
      assert moves + Asking(0, at) == moves;
    } else {
      AskingStands(l, k, moves, entry, n - 1, now, at);
      OneMove(l, k, moves + Asking(n - 1, at), if n == 1 then entry else None, n - 1, at, Asks(at));
      Regroup(moves, Asking(n - 1, at), [Asks(at)]);
    }
  }

  /** Further attempts in a window with room for them. */
  lemma {:induction false} AttemptsStand(l: Limits, k: nat, moves: seq<Move>, start: int, failures: nat, n: nat, now: int, at: int)
    requires ValidLimits(l) && k >= 1 && Stands(l, k, moves, Some(AttemptWindow(start, failures)), k - 1, now)
    requires now <= at && start <= at < start + l.window && failures + n <= l.maxAttempts
    ensures Stands(l, k, moves + Attempts(n, at), Some(AttemptWindow(start, failures + n)), k - 1, at)
  {
    if n == 0 {
      assert moves + Attempts(0, at) == moves;
    } else {
      hide Stands, Expired;
      AttemptsStand(l, k, moves, start, failures, n - 1, now, at);
      OneAttempt(l, k, moves + Attempts(n - 1, at), start, failures + n - 1, at);
      OneMoreAttempt(moves, n, at);
    }
  }

  lemma OneAttempt(l: Limits, k: nat, moves: seq<Move>, start: int, failures: nat, at: int)
    requires ValidLimits(l) && k >= 1 && Stands(l, k, moves, Some(AttemptWindow(start, failures)), k - 1, at)
    requires start <= at < start + l.window && failures < l.maxAttempts
    ensures Stands(l, k, moves + [Asks(at)] + [Fails(at)], Some(AttemptWindow(start, failures + 1)), k - 1, at)
  {
    hide Stands;
    var w := AttemptWindow(start, failures);
    OneMove(l, k, moves, Some(w), k - 1, at, Asks(at));
    OneMove(l, k, moves + [Asks(at)], Some(w), k, at, Fails(at));
  }

  lemma OneMoreAttempt(moves: seq<Move>, n: nat, at: int)
    requires n > 0
    ensures moves + Attempts(n, at) == moves + Attempts(n - 1, at) + [Asks(at)] + [Fails(at)]
  {
    Regroup(moves, Attempts(n - 1, at), [Asks(at)]);
    Regroup(moves, Attempts(n - 1, at) + [Asks(at)], [Fails(at)]);
  }

  lemma {:induction false} FailingStands(l: Limits, k: nat, moves: seq<Move>, w: AttemptWindow, f: nat, n: nat, now: int, at: int)
    returns (last: AttemptWindow)
    requires Stands(l, k, moves, Some(w), f, now) && n <= f <= k && now <= at && w.started <= at < w.started + l.window
    ensures last.started == w.started && Stands(l, k, moves + Failing(n, at), Some(last), f - n, at)
  {
    if n == 0 {
      assert moves + Failing(0, at) == moves;
      last := w;
    } else {
      last := FailingStands(l, k, moves, w, f, n - 1, now, at);
      OneMove(l, k, moves + Failing(n - 1, at), Some(last), f - n + 1, at, Fails(at));
      Regroup(moves, Failing(n - 1, at), [Fails(at)]);
      last := Failed(l, Some(last), at);
    }
  }

  lemma FillStands(l: Limits, k: nat, moves: seq<Move>, entry: Option<AttemptWindow>, now: int, open: int, late: int)
    returns (last: AttemptWindow)
    requires ValidLimits(l) && k >= 1 && Stands(l, k, moves, entry, 0, now)
    requires now <= open <= late < open + l.window && (entry.Some? ==> Expired(l, entry.value, open))
    ensures last.started == open && Stands(l, k, moves + Fill(l, k, open, late), Some(last), 0, late)
  {
    hide Stands, Asking, Attempts, Failing;
    AskingStands(l, k, moves, entry, k, now, open);
    var asked := moves + Asking(k, open);
    OneMove(l, k, asked, None, k, open, Fails(open));
    var begun := asked + [Fails(open)];
    AttemptsStand(l, k, begun, open, 1, l.maxAttempts - 1, open, late);
    var filled := begun + Attempts(l.maxAttempts - 1, late);
    last := FailingStands(l, k, filled, AttemptWindow(open, l.maxAttempts), k - 1, k - 1, late, late);
    assert moves + Fill(l, k, open, late) == filled + Failing(k - 1, late);
  }

  function FailuresIn(moves: seq<Move>, from: int, to: int): nat {
    CountIn(FailureTimes(moves), from, to)
  }

  function IfIn(at: int, from: int, to: int, n: nat): nat {
    if from <= at < to then n else 0
  }

  lemma OneCounts(moves: seq<Move>, move: Move, from: int, to: int)
    ensures FailuresIn(moves + [move], from, to)
         == FailuresIn(moves, from, to) + (if move.Fails? then IfIn(move.at, from, to, 1) else 0)
  {
    assert (moves + [move])[..|moves|] == moves;
    if move.Fails? {
      CountPush(FailureTimes(moves), move.at, from, to);
    }
  }

  lemma {:induction false} AskingCounts(moves: seq<Move>, n: nat, at: int, from: int, to: int)
    ensures FailuresIn(moves + Asking(n, at), from, to) == FailuresIn(moves, from, to)
  {
    if n == 0 {
      assert moves + Asking(0, at) == moves;
    } else {
      AskingCounts(moves, n - 1, at, from, to);
      OneCounts(moves + Asking(n - 1, at), Asks(at), from, to);
      Regroup(moves, Asking(n - 1, at), [Asks(at)]);
    }
  }

  lemma {:induction false} FailingCounts(moves: seq<Move>, n: nat, at: int, from: int, to: int)
    ensures FailuresIn(moves + Failing(n, at), from, to) == FailuresIn(moves, from, to) + IfIn(at, from, to, n)
  {
    if n == 0 {
      assert moves + Failing(0, at) == moves;
    } else {
      FailingCounts(moves, n - 1, at, from, to);
      OneCounts(moves + Failing(n - 1, at), Fails(at), from, to);
      Regroup(moves, Failing(n - 1, at), [Fails(at)]);
    }
  }

  lemma {:induction false} AttemptsCount(moves: seq<Move>, n: nat, at: int, from: int, to: int)
    ensures FailuresIn(moves + Attempts(n, at), from, to) == FailuresIn(moves, from, to) + IfIn(at, from, to, n)
  {
    if n == 0 {
      assert moves + Attempts(0, at) == moves;
    } else {
      hide FailuresIn;
      AttemptsCount(moves, n - 1, at, from, to);
      var before := moves + Attempts(n - 1, at);
      OneCounts(before, Asks(at), from, to);
      OneCounts(before + [Asks(at)], Fails(at), from, to);
      OneMoreAttempt(moves, n, at);
    }
  }

  lemma FillCounts(l: Limits, k: nat, moves: seq<Move>, open: int, late: int, from: int, to: int)
    requires ValidLimits(l) && k >= 1
    ensures FailuresIn(moves + Fill(l, k, open, late), from, to)
         == FailuresIn(moves, from, to) + IfIn(open, from, to, 1) + IfIn(late, from, to, l.maxAttempts - 1 + k - 1)
  {
    hide FailuresIn, Asking, Attempts, Failing;
    var asked := moves + Asking(k, open);
    AskingCounts(moves, k, open, from, to);
    OneCounts(asked, Fails(open), from, to);
    var begun := asked + [Fails(open)];
    AttemptsCount(begun, l.maxAttempts - 1, late, from, to);
    var filled := begun + Attempts(l.maxAttempts - 1, late);
    FailingCounts(filled, k - 1, late, from, to);
    assert moves + Fill(l, k, open, late) == filled + Failing(k - 1, late);
  }

  /** The bound is the best one: for every limit, every window above one and every
      number of logins in flight there is a run with that many failures in one interval
      as long as the window. */
  lemma BoundIsReached(l: Limits, k: nat)
    requires ValidLimits(l) && l.window >= 2 && k >= 1
    ensures Legal(l, 0, k, WorstCase(l, k))
    ensures Burst(FailureTimes(WorstCase(l, k)), l.window - 1, l.window) == 2 * (l.maxAttempts - 1 + k) - 1
  {
    hide Fill, FailureTimes, CountIn;
    var w := l.window;
    var first := Fill(l, k, 0, w - 1);
    assert [] + first == first;
    var last := FillStands(l, k, [], None, 0, 0, w - 1);
    var final := FillStands(l, k, first, Some(last), w - 1, w, w);
    FillCounts(l, k, [], 0, w - 1, w - 1, w - 1 + w);
    FillCounts(l, k, first, w, w, w - 1, w - 1 + w);
    NoMovesNoFailures(w - 1, w - 1 + w);
  }

  lemma NoMovesNoFailures(from: int, to: int)
    ensures FailuresIn([], from, to) == 0
  {
  }

  /** The moves that let a login through. */
  function Admitted(l: Limits, started: nat, moves: seq<Move>): nat {
    if moves == [] then 0
    else
      var front, last := moves[..|moves| - 1], moves[|moves| - 1];
      Admitted(l, started, front)
      + if last.Asks? && Checked(l, Tracked(l, started, front).entry, last.at).0 then 1 else 0
  }

  /** The moves that end one, with a failure or without. */
  function Ended(moves: seq<Move>): nat {
    if moves == [] then 0 else Ended(moves[1..]) + if moves[0].Asks? then 0 else 1
  }

  lemma {:induction false} EndedOn(front: seq<Move>, last: Move)
    ensures Ended(front + [last]) == Ended(front) + if last.Asks? then 0 else 1
  {
    var all := front + [last];
    if front == [] {
      assert all[1..] == [];
    } else {
      EndedOn(front[1..], last);
      assert all[1..] == front[1..] + [last];
    }
  }

  /** In flight are the logins that were let through and have not ended. */
  lemma {:induction false} InFlightCounts(l: Limits, started: nat, moves: seq<Move>)
    ensures Tracked(l, started, moves).inFlight == started + Admitted(l, started, moves) - Ended(moves)
  {
    if moves != [] {
      var front, last := moves[..|moves| - 1], moves[|moves| - 1];
      InFlightCounts(l, started, front);
      EndedOn(front, last);
      assert moves == front + [last];
    }
  }
}
