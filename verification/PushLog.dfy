module PushLog {
  /**
   What a log of registrations, passes and push attempts says about each device, and the guarantees that follow from
   a log in which every attempt was justified when it was made.
   */
  import opened Util

  const WAKE_WINDOW := 120
  const KEEP := 200
  const MAX_ALERTS_PER_DAY := 6

  /** `Registered` says whether the device is in the city of the log and has a transport. */
  datatype Event =
    | Registered(token: Id, wakes: seq<int>, reachable: bool)
    | Gone(token: Id)
    | Woken(token: Id, now: int, due: seq<int>)
    | Alerted(token: Id, alert: Id, delivered: bool)
    | PassDone(now: int)
    | DayBegan
    | Restarted

  type Log = seq<Event>

  /** The instants of `wakes` that are due: not in the future and at most two minutes old. */
  function DueIn(wakes: seq<int>, now: int): (due: seq<int>)
    ensures forall t :: t in due <==> t in wakes && now - WAKE_WINDOW <= t <= now
  {
    if wakes == [] then []
    else (if now - WAKE_WINDOW <= wakes[0] <= now then [wakes[0]] else []) + DueIn(wakes[1..], now)
  }

  function Later(wakes: seq<int>, now: int): (later: seq<int>)
    ensures forall t :: t in later <==> t in wakes && t > now
  {
    if wakes == [] then [] else (if wakes[0] > now then [wakes[0]] else []) + Later(wakes[1..], now)
  }

  function LastOf(s: seq<Id>, k: nat): seq<Id> {
    if |s| <= k then s else s[|s| - k..]
  }

  // ---- a device as the log tells it ----

  /** The instants a device still waits for. */
  function Stored(log: Log, n: nat, token: Id): seq<int>
    requires n <= |log|
  {
    if n == 0 then []
    else
      var e, w := log[n - 1], Stored(log, n - 1, token);
      if e.Registered? && e.token == token then e.wakes
      else if e.Gone? && e.token == token then []
      else if e.Woken? && e.token == token then Later(w, e.now)
      else w
  }

  predicate Reachable(log: Log, n: nat, token: Id)
    requires n <= |log|
  {
    n > 0 &&
    var e := log[n - 1];
    if e.Registered? && e.token == token then e.reachable
    else !(e.Gone? && e.token == token) && Reachable(log, n - 1, token)
  }

  /** The alerts a device remembers: the last two hundred attempts. */
  function Memory(log: Log, n: nat, token: Id): seq<Id>
    requires n <= |log|
  {
    if n == 0 then []
    else
      var e, m := log[n - 1], Memory(log, n - 1, token);
      if e.Gone? && e.token == token then []
      else if e.Alerted? && e.token == token then LastOf(m + [e.alert], KEEP)
      else m
  }

  /** Both a new day and a restart of the process clear the counts. */
  predicate Clears(e: Event) {
    e.DayBegan? || e.Restarted?
  }

  /** Alerts delivered since the counts were last cleared. */
  function Delivered(log: Log, n: nat, token: Id): nat
    requires n <= |log|
  {
    if n == 0 then 0
    else
      var e, d := log[n - 1], Delivered(log, n - 1, token);
      if Clears(e) then 0 else if e.Alerted? && e.token == token && e.delivered then d + 1 else d
  }

  /** Alerts delivered since the day began, whatever happened to the counts. */
  function DeliveredToday(log: Log, n: nat, token: Id): nat
    requires n <= |log|
  {
    if n == 0 then 0
    else
      var e, d := log[n - 1], DeliveredToday(log, n - 1, token);
      if e.DayBegan? then 0 else if e.Alerted? && e.token == token && e.delivered then d + 1 else d
  }

  function RestartsToday(log: Log, n: nat): nat
    requires n <= |log|
  {
    if n == 0 then 0
    else if log[n - 1].DayBegan? then 0
    else RestartsToday(log, n - 1) + if log[n - 1].Restarted? then 1 else 0
  }

  /** An event is justified by what the log said before it. */
  ghost predicate Justified(log: Log, k: nat)
    requires k < |log|
  {
    match log[k]
    case Alerted(token, alert, _) => alert !in Memory(log, k, token) && Delivered(log, k, token) < MAX_ALERTS_PER_DAY
    case Woken(token, now, due) => due == DueIn(Stored(log, k, token), now)
    case PassDone(now) => forall token :: Reachable(log, k, token) ==> DueIn(Stored(log, k, token), now) == []
    case _ => true
  }

  ghost predicate Sound(log: Log) {
    forall k :: 0 <= k < |log| ==> Justified(log, k)
  }

  // ---- a longer log says the same about its past ----

  lemma {:induction false} PastKept(a: Log, b: Log, n: nat, token: Id)
    requires a <= b && n <= |a|
    ensures Stored(a, n, token) == Stored(b, n, token)
    ensures Reachable(a, n, token) == Reachable(b, n, token)
    ensures Memory(a, n, token) == Memory(b, n, token)
    ensures Delivered(a, n, token) == Delivered(b, n, token)
  {
    hide LastOf, Later;
    if n > 0 {
      PastKept(a, b, n - 1, token);
    }
  }

  lemma JustifiedKept(a: Log, b: Log, k: nat)
    requires a <= b && k < |a|
    ensures Justified(a, k) == Justified(b, k)
  {
    hide Stored, Reachable, Memory, Delivered, DueIn;
    forall token
      ensures Stored(a, k, token) == Stored(b, k, token) && Reachable(a, k, token) == Reachable(b, k, token)
      ensures Memory(a, k, token) == Memory(b, k, token) && Delivered(a, k, token) == Delivered(b, k, token)
    {
      PastKept(a, b, k, token);
    }
  }

  lemma SoundMore(log: Log, e: Event)
    requires Sound(log) && Justified(log + [e], |log|)
    ensures Sound(log + [e])
  {
    hide Justified;
    var b := log + [e];
    forall k | 0 <= k < |b| ensures Justified(b, k) {
      if k < |log| {
        JustifiedKept(log, b, k);
      }
    }
  }

  // ---- alerts: at most once ----

  /** The alert attempts to the device among events `i..n`. */
  function Attempts(log: Log, i: nat, n: nat, token: Id): nat
    requires i <= n <= |log|
    decreases n
  {
    if n == i then 0
    else Attempts(log, i, n - 1, token) + if log[n - 1].Alerted? && log[n - 1].token == token then 1 else 0
  }

  lemma {:induction false} MemoryBounded(log: Log, n: nat, token: Id)
    requires n <= |log|
    ensures |Memory(log, n, token)| <= KEEP
  {
    if n > 0 {
      MemoryBounded(log, n - 1, token);
    }
  }

  /** An attempted alert is remembered until two hundred more attempts were made or the device went. */
  lemma {:induction false} Remembered(log: Log, i: nat, n: nat, token: Id)
    requires i < n <= |log| && log[i].Alerted? && log[i].token == token
    requires forall k :: i < k < n ==> !(log[k].Gone? && log[k].token == token)
    requires Attempts(log, i + 1, n, token) < KEEP
    ensures var m, c := Memory(log, n, token), Attempts(log, i + 1, n, token); c < |m| && m[|m| - 1 - c] == log[i].alert
    decreases n
  {
    MemoryBounded(log, n - 1, token);
    if i + 1 < n {
      Remembered(log, i, n - 1, token);
    }
  }

  /**
   Two attempts of one alert to one device are two hundred attempts apart, unless the device went in between: so
   never twice from one list of alerts with an id repeated, nor after a restart, as long as it is remembered.
   */
  lemma AlertedOnce(log: Log, i: nat, j: nat, token: Id, alert: Id)
    requires Sound(log) && i < j < |log|
    requires log[i].Alerted? && log[i].token == token && log[i].alert == alert
    requires log[j].Alerted? && log[j].token == token && log[j].alert == alert
    requires forall k :: i < k < j ==> !(log[k].Gone? && log[k].token == token)
    ensures Attempts(log, i + 1, j, token) >= KEEP
  {
    hide Memory, Attempts, Stored, Delivered;
    assert Justified(log, j);
    if Attempts(log, i + 1, j, token) < KEEP {
      Remembered(log, i, j, token);
    }
  }

  /** At most six alerts are delivered to a device between two clearings of the counts. */
  lemma {:induction false} SixADay(log: Log, n: nat, token: Id)
    requires Sound(log) && n <= |log|
    ensures Delivered(log, n, token) <= MAX_ALERTS_PER_DAY
  {
    hide Memory, Stored;
    if n > 0 {
      SixADay(log, n - 1, token);
      assert Justified(log, n - 1);
    }
  }

  /** A day holds six deliveries to a device, and six more for each restart in it. */
  lemma {:induction false} SixForEachRestart(log: Log, n: nat, token: Id)
    requires Sound(log) && n <= |log|
    ensures DeliveredToday(log, n, token) <= MAX_ALERTS_PER_DAY * RestartsToday(log, n) + Delivered(log, n, token)
    ensures DeliveredToday(log, n, token) <= MAX_ALERTS_PER_DAY * (RestartsToday(log, n) + 1)
  {
    hide Sound;
    SixADay(log, n, token);
    if n > 0 {
      SixForEachRestart(log, n - 1, token);
      SixADay(log, n - 1, token);
    }
  }

  // ---- wake-ups: exactly once ----

  /** The device was registered at `r` with this instant, and neither re-registered nor gone since. */
  predicate Waiting(log: Log, r: nat, n: nat, token: Id, t: int) {
    && r < n <= |log| && log[r].Registered? && log[r].token == token && log[r].reachable && t in log[r].wakes
    && forall k :: r < k < n ==> !((log[k].Registered? || log[k].Gone?) && log[k].token == token)
  }

  predicate WokenFor(e: Event, token: Id, t: int) {
    e.Woken? && e.token == token && t in e.due
  }

  lemma WaitingShorter(log: Log, r: nat, m: nat, n: nat, token: Id, t: int)
    requires Waiting(log, r, n, token, t) && r < m <= n
    ensures Waiting(log, r, m, token, t)
  {}

  lemma {:induction false} StaysReachable(log: Log, r: nat, n: nat, token: Id, t: int)
    requires Waiting(log, r, n, token, t)
    ensures Reachable(log, n, token)
    decreases n
  {
    if r + 1 < n {
      StaysReachable(log, r, n - 1, token, t);
    }
  }

  /** A stored instant was stored all along since the registration. */
  lemma {:induction false} StoredBefore(log: Log, r: nat, m: nat, n: nat, token: Id, t: int)
    requires Waiting(log, r, n, token, t) && r < m <= n
    ensures t in Stored(log, n, token) ==> t in Stored(log, m, token)
    decreases n
  {
    if m < n {
      StoredBefore(log, r, m, n - 1, token, t);
    }
  }

  /** An attempt consumes the instant. */
  lemma Consumed(log: Log, i: nat, token: Id, t: int)
    requires Sound(log) && i < |log| && WokenFor(log[i], token, t)
    ensures t !in Stored(log, i + 1, token) && t in Stored(log, i, token) && log[i].now - WAKE_WINDOW <= t <= log[i].now
  {
    hide Memory, Delivered, Reachable;
    assert Justified(log, i);
  }

  /** An instant is attempted at most once. */
  lemma WokenOnce(log: Log, r: nat, n: nat, token: Id, t: int, i: nat, j: nat)
    requires Sound(log) && Waiting(log, r, n, token, t) && r < i < j < n
    ensures WokenFor(log[i], token, t) ==> !WokenFor(log[j], token, t)
  {
    hide Sound, Stored;
    if WokenFor(log[i], token, t) {
      Consumed(log, i, token, t);
      WaitingShorter(log, r, j, n, token, t);
      StoredBefore(log, r, i + 1, j, token, t);
      DueStored(log, j, token, t);
    }
  }

  lemma DueStored(log: Log, j: nat, token: Id, t: int)
    requires Sound(log) && j < |log|
    ensures WokenFor(log[j], token, t) ==> t in Stored(log, j, token)
  {
    hide Memory, Delivered, Reachable;
    assert Justified(log, j);
  }

  lemma StoredAtStart(log: Log, r: nat, n: nat, token: Id, t: int)
    requires Waiting(log, r, n, token, t)
    ensures t in Stored(log, r + 1, token)
  {}

  /** An instant no longer stored was there when a wake-up not before it was sent. */
  lemma {:induction false} StoredOrWoken(log: Log, r: nat, n: nat, token: Id, t: int) returns (k: nat)
    requires Sound(log) && Waiting(log, r, n, token, t) && t !in Stored(log, n, token)
    ensures r < k < n && log[k].Woken? && log[k].token == token && log[k].now >= t && t in Stored(log, k, token)
    decreases n
  {
    hide Memory, Delivered, Reachable;
    StoredAtStart(log, r, n, token, t);
    if t in Stored(log, n - 1, token) {
      k := n - 1;
    } else {
      k := StoredOrWoken(log, r, n - 1, token, t);
    }
  }

  /** Time does not run backwards in the log. */
  predicate Forward(log: Log) {
    forall i, j :: 0 <= i < j < |log| && Timed(log[i]) && Timed(log[j]) ==> log[i].now <= log[j].now
  }

  predicate Timed(e: Event) {
    e.Woken? || e.PassDone?
  }

  /** A pass inside the two minutes from the instant on attempts it, then or earlier. */
  lemma WokenInWindow(log: Log, r: nat, p: nat, n: nat, token: Id, t: int) returns (k: nat)
    requires Sound(log) && Forward(log) && Waiting(log, r, n, token, t)
    requires r < p < n && log[p].PassDone? && t <= log[p].now <= t + WAKE_WINDOW
    ensures r < k < p && WokenFor(log[k], token, t)
  {
    hide Memory, Delivered, Stored, Reachable;
    WaitingShorter(log, r, p, n, token, t);
    StaysReachable(log, r, p, token, t);
    assert Justified(log, p);
    assert t !in DueIn(Stored(log, p, token), log[p].now);
    k := StoredOrWoken(log, r, p, token, t);
    assert Justified(log, k);
    assert Timed(log[k]) && Timed(log[p]);
  }

  /** Some pass takes place in the two minutes from the instant on. */
  predicate PassInWindow(log: Log, r: nat, n: nat, t: int) {
    exists p :: r < p < n && p < |log| && log[p].PassDone? && t <= log[p].now <= t + WAKE_WINDOW
  }

  /** Every attempt is part of a pass, which is done by event `n`. */
  predicate PassesDone(log: Log, n: nat) {
    forall k :: 0 <= k < n <= |log| && log[k].Woken? ==>
             exists p :: k < p < n && log[p].PassDone? && log[p].now == log[k].now
  }

  /** A registered instant of a reachable device is attempted, once, exactly when a pass falls in its two minutes. */
  lemma WokenExactly(log: Log, r: nat, n: nat, token: Id, t: int)
    requires Sound(log) && Forward(log) && PassesDone(log, n) && Waiting(log, r, n, token, t)
    ensures (exists k :: r < k < n && WokenFor(log[k], token, t)) <==> PassInWindow(log, r, n, t)
    ensures forall i, j :: r < i < j < n ==> !(WokenFor(log[i], token, t) && WokenFor(log[j], token, t))
  {
    if PassInWindow(log, r, n, t) {
      var p :| r < p < n && p < |log| && log[p].PassDone? && t <= log[p].now <= t + WAKE_WINDOW;
      var k := WokenInWindow(log, r, p, n, token, t);
    }
    forall k | r < k < n && WokenFor(log[k], token, t) ensures PassInWindow(log, r, n, t) {
      assert Justified(log, k);
      var p :| k < p < n && log[p].PassDone? && log[p].now == log[k].now;
    }
    forall i: nat, j: nat | r < i < j < n ensures !(WokenFor(log[i], token, t) && WokenFor(log[j], token, t)) {
      WokenOnce(log, r, n, token, t, i, j);
    }
  }

  /** The last pass before `t`, or none. */
  lemma {:induction false} LastPassBefore(log: Log, r: nat, n: nat, t: int) returns (p: Option<nat>)
    requires r <= n <= |log|
    ensures p.Some? ==> r < p.value < n && log[p.value].PassDone? && log[p.value].now < t
    ensures forall k :: (if p.Some? then p.value else r) < k < n && log[k].PassDone? ==> log[k].now >= t
    decreases n
  {
    if n <= r + 1 {
      p := None;
    } else if log[n - 1].PassDone? && log[n - 1].now < t {
      p := Some(n - 1);
    } else {
      p := LastPassBefore(log, r, n - 1, t);
    }
  }

  lemma {:induction false} FirstPassAfter(log: Log, a: nat, n: nat, q: nat) returns (p: nat)
    requires a < q < n <= |log| && log[q].PassDone?
    ensures a < p <= q && log[p].PassDone? && forall k :: a < k < p ==> !log[k].PassDone?
    decreases q
  {
    if k :| a < k < q && log[k].PassDone? {
      p := FirstPassAfter(log, a, n, k);
    } else {
      p := q;
    }
  }

  /** Passes at most two minutes apart, the first soon enough after the registration and the last not before `t`. */
  predicate Regular(log: Log, r: nat, n: nat, t: int)
    requires n <= |log|
  {
    && (exists q :: r < q < n && log[q].PassDone? && log[q].now >= t)
    && (forall p :: r < p < n && log[p].PassDone? && NoPassBetween(log, r, p) ==> log[p].now <= t + WAKE_WINDOW)
    && (forall p, q :: r < p < q < n && log[p].PassDone? && log[q].PassDone? && NoPassBetween(log, p, q) ==>
          log[q].now <= log[p].now + WAKE_WINDOW)
  }

  predicate NoPassBetween(log: Log, a: int, b: int)
    requires b <= |log|
  {
    forall k :: 0 <= k && a < k < b ==> !log[k].PassDone?
  }

  lemma RegularReaches(log: Log, r: nat, n: nat, t: int) returns (q: nat)
    requires n <= |log| && Regular(log, r, n, t)
    ensures r < q < n && log[q].PassDone? && log[q].now >= t
  {
    hide NoPassBetween;
    q :| r < q < n && log[q].PassDone? && log[q].now >= t;
  }

  /** A pass is not late after the pass before it, or after the registration. */
  lemma RegularNext(log: Log, r: nat, n: nat, t: int, a: nat, p: nat)
    requires n <= |log| && Regular(log, r, n, t) && r <= a < p < n && log[p].PassDone? && NoPassBetween(log, a, p)
    requires a != r ==> log[a].PassDone?
    ensures log[p].now <= (if a == r then t else log[a].now) + WAKE_WINDOW
  {
    hide NoPassBetween;
  }

  /** Regular passes include one in the two minutes from the instant on. */
  lemma RegularPassInWindow(log: Log, r: nat, n: nat, t: int) returns (p: nat)
    requires n <= |log| && Forward(log) && Regular(log, r, n, t)
    ensures r < p < n && log[p].PassDone? && t <= log[p].now <= t + WAKE_WINDOW
  {
    hide Forward, Regular;
    var q := RegularReaches(log, r, n, t);
    var before := LastPassBefore(log, r, n, t);
    var a := if before.Some? then before.value else r;
    if before.Some? && q < before.value {
      LaterNotBefore(log, q, before.value);
    }
    p := FirstPassAfter(log, a, n, q);
    assert NoPassBetween(log, a, p);
    RegularNext(log, r, n, t, a, p);
  }

  /** With passes at most two minutes apart every registered instant is attempted in exactly one pass. */
  lemma RegularPassesWake(log: Log, r: nat, n: nat, token: Id, t: int) returns (k: nat)
    requires Sound(log) && Forward(log) && Waiting(log, r, n, token, t) && Regular(log, r, n, t)
    ensures r < k < n && WokenFor(log[k], token, t)
    ensures forall j :: r < j < n && WokenFor(log[j], token, t) ==> j == k
  {
    hide Sound, Forward, Waiting, Regular, WokenFor;
    WaitingSpan(log, r, n, token, t);
    var p := RegularPassInWindow(log, r, n, t);
    k := WokenInWindow(log, r, p, n, token, t);
    forall j: nat | r < j < n && WokenFor(log[j], token, t) ensures j == k {
      if j < k {
        WokenOnce(log, r, n, token, t, j, k);
      } else if k < j {
        WokenOnce(log, r, n, token, t, k, j);
      }
    }
  }

  lemma WaitingSpan(log: Log, r: nat, n: nat, token: Id, t: int)
    requires Waiting(log, r, n, token, t)
    ensures r < n <= |log|
  {}

  lemma LaterNotBefore(log: Log, p: nat, q: nat)
    requires Forward(log) && p < q < |log| && log[p].PassDone? && log[q].PassDone?
    ensures log[p].now <= log[q].now
  {
    assert Timed(log[p]) && Timed(log[q]);
  }
}
