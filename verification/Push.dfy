module Push {
  /**
   The device store and the two push passes of one city: silent wake-ups and alert pushes. A send is answered by an
   oracle; every step appends what it did to a log.
   */
  import opened Util
  import opened PushLog

  datatype Device = Device(city: Id, platform: Id, wakes: seq<int>, routes: set<Id>, alertsSent: seq<Id>)

  datatype Alert = Alert(id: Id, routes: set<Id>)

  datatype Reply = Arrived | Dead | Failed

  /** The city, the platforms it has a transport for, and what the `n`-th attempt is answered. */
  datatype Env = Env(city: Id, senders: set<Id>, reply: nat -> Reply)

  datatype State = State(devices: map<Id, Device>, seen: set<Id>, counts: map<Id, nat>, log: Log)

  datatype Step =
    | Register(token: Id, city: Id, platform: Id, wakes: seq<int>, routes: set<Id>)
    | Unregister(token: Id)
    | WakePass(now: int, order: seq<Id>)
    | AlertPass(alerts: seq<Alert>, order: seq<Id>)
    | NewDay
    | Restart

  // ---- the store ----

  function Reaches(e: Env, d: Device): bool {
    d.city == e.city && d.platform in e.senders
  }

  /** The row keeps what it remembers of alerts; everything else is replaced. */
  function Upsert(e: Env, st: State, token: Id, city: Id, platform: Id, wakes: seq<int>, routes: set<Id>): State {
    var sent := if token in st.devices then st.devices[token].alertsSent else [];
    var d := Device(city, platform, wakes, routes, sent);
    st.(devices := st.devices[token := d], log := st.log + [Registered(token, wakes, Reaches(e, d))])
  }

  function Delete(st: State, token: Id): State {
    if token in st.devices then st.(devices := st.devices - {token}, log := st.log + [Gone(token)]) else st
  }

  // ---- wake-ups ----

  function DueTokens(e: Env, devices: map<Id, Device>, order: seq<Id>, n: nat, now: int): seq<Id>
    requires n <= |order|
  {
    if n == 0 then []
    else
      var t := order[n - 1];
      DueTokens(e, devices, order, n - 1, now) +
      if t in devices && devices[t].city == e.city && DueIn(devices[t].wakes, now) != [] then [t] else []
  }

  /** One silent wake-up: whatever is due by now is consumed, delivered or not. */
  function WakeOne(e: Env, st: State, token: Id, now: int): State {
    if token !in st.devices || !Reaches(e, st.devices[token]) then st
    else
      var d := st.devices[token];
      var next := st.(devices := st.devices[token := d.(wakes := Later(d.wakes, now))],
                      log := st.log + [Woken(token, now, DueIn(d.wakes, now))]);
      if e.reply(|st.log|).Dead? then Delete(next, token) else next
  }

  function WakeAll(e: Env, st: State, tokens: seq<Id>, n: nat, now: int): State
    requires n <= |tokens|
  {
    if n == 0 then st else WakeOne(e, WakeAll(e, st, tokens, n - 1, now), tokens[n - 1], now)
  }

  // ---- alerts ----

  /** The alerts to push: with an id and routes, and not seen by this process; repeated ids stay repeated. */
  function ToPush(alerts: seq<Alert>, seen: set<Id>, n: nat): seq<Alert>
    requires n <= |alerts|
  {
    if n == 0 then []
    else
      var a := alerts[n - 1];
      ToPush(alerts, seen, n - 1) + if a.id.text != "" && a.routes != {} && a.id !in seen then [a] else []
  }

  function Following(e: Env, devices: map<Id, Device>, routes: set<Id>, order: seq<Id>, n: nat): seq<Id>
    requires n <= |order|
  {
    if n == 0 then []
    else
      var t := order[n - 1];
      Following(e, devices, routes, order, n - 1) +
      if t in devices && devices[t].city == e.city && devices[t].routes * routes != {} then [t] else []
  }

  function CountOf(counts: map<Id, nat>, token: Id): nat {
    if token in counts then counts[token] else 0
  }

  /** One alert to one device, unless it remembers the alert or had its share of the day. */
  function SendAlert(e: Env, st: State, alert: Id, token: Id): State {
    if token !in st.devices || !Reaches(e, st.devices[token])
       || alert in st.devices[token].alertsSent || CountOf(st.counts, token) >= MAX_ALERTS_PER_DAY then st
    else
      var d := st.devices[token];
      var reply := e.reply(|st.log|);
      var next := st.(devices := st.devices[token := d.(alertsSent := LastOf(d.alertsSent + [alert], KEEP))],
                      log := st.log + [Alerted(token, alert, reply.Arrived?)]);
      match reply
      case Arrived => next.(counts := next.counts[token := CountOf(next.counts, token) + 1])
      case Dead => Delete(next, token)
      case Failed => next
  }

  function SendAll(e: Env, st: State, alert: Id, tokens: seq<Id>, n: nat): State
    requires n <= |tokens|
  {
    if n == 0 then st else SendAlert(e, SendAll(e, st, alert, tokens, n - 1), alert, tokens[n - 1])
  }

  function PushOne(e: Env, st: State, a: Alert, order: seq<Id>): State {
    var next := st.(seen := st.seen + {a.id});
    var tokens := Following(e, next.devices, a.routes, order, |order|);
    SendAll(e, next, a.id, tokens, |tokens|)
  }

  function PushAll(e: Env, st: State, alerts: seq<Alert>, order: seq<Id>, n: nat): State
    requires n <= |alerts|
  {
    if n == 0 then st else PushOne(e, PushAll(e, st, alerts, order, n - 1), alerts[n - 1], order)
  }

  // ---- the steps ----

  /** `order` lists every device: the order the store answers in. */
  predicate Lists(order: seq<Id>, devices: map<Id, Device>) {
    forall t :: t in devices ==> t in order
  }

  predicate Allowed(st: State, step: Step) {
    match step
    case WakePass(_, order) => Lists(order, st.devices)
    case AlertPass(_, order) => Lists(order, st.devices)
    case _ => true
  }

  function Apply(e: Env, st: State, step: Step): State {
    match step
    case Register(token, city, platform, wakes, routes) => Upsert(e, st, token, city, platform, wakes, routes)
    case Unregister(token) => Delete(st, token)
    case WakePass(now, order) =>
      var tokens := DueTokens(e, st.devices, order, |order|, now);
      var woken := WakeAll(e, st, tokens, |tokens|, now);
      woken.(log := woken.log + [PassDone(now)])
    case AlertPass(alerts, order) =>
      var unseen := ToPush(alerts, st.seen, |alerts|);
      PushAll(e, st, unseen, order, |unseen|)
    case NewDay => st.(counts := map[], log := st.log + [DayBegan])
    case Restart => st.(seen := {}, counts := map[], log := st.log + [Restarted])
  }

  function Run(e: Env, steps: seq<Step>, n: nat): State
    requires n <= |steps|
  {
    if n == 0 then State(map[], {}, map[], []) else Apply(e, Run(e, steps, n - 1), steps[n - 1])
  }

  predicate AllAllowed(e: Env, steps: seq<Step>, n: nat)
    requires n <= |steps|
  {
    n == 0 || (AllAllowed(e, steps, n - 1) && Allowed(Run(e, steps, n - 1), steps[n - 1]))
  }

  // ---- the store and the log agree ----

  ghost predicate Agrees(e: Env, st: State, token: Id) {
    && CountOf(st.counts, token) == Delivered(st.log, |st.log|, token)
    && if token in st.devices then
         var d := st.devices[token];
         && d.wakes == Stored(st.log, |st.log|, token)
         && d.alertsSent == Memory(st.log, |st.log|, token)
         && Reaches(e, d) == Reachable(st.log, |st.log|, token)
       else
         && Stored(st.log, |st.log|, token) == [] && Memory(st.log, |st.log|, token) == []
         && !Reachable(st.log, |st.log|, token)
  }

  ghost predicate Inv(e: Env, st: State) {
    Sound(st.log) && forall token :: Agrees(e, st, token)
  }

  /** What one more event makes of the log's account of a device. */
  lemma OneMore(log: Log, ev: Event, token: Id)
    ensures var b, n := log + [ev], |log|;
            && Stored(b, n + 1, token) ==
               (if ev.Registered? && ev.token == token then ev.wakes
                else if ev.Gone? && ev.token == token then []
                else if ev.Woken? && ev.token == token then Later(Stored(log, n, token), ev.now)
                else Stored(log, n, token))
            && Reachable(b, n + 1, token) ==
               (if ev.Registered? && ev.token == token then ev.reachable
                else !(ev.Gone? && ev.token == token) && Reachable(log, n, token))
            && Memory(b, n + 1, token) ==
               (if ev.Gone? && ev.token == token then []
                else if ev.Alerted? && ev.token == token then LastOf(Memory(log, n, token) + [ev.alert], KEEP)
                else Memory(log, n, token))
            && Delivered(b, n + 1, token) ==
               (if Clears(ev) then 0
                else if ev.Alerted? && ev.token == token && ev.delivered then Delivered(log, n, token) + 1
                else Delivered(log, n, token))
  {
    hide Later, LastOf;
    PastKept(log, log + [ev], |log|, token);
  }

  /** Appending a justified event keeps the log sound; whether it is justified is read off the state. */
  lemma Append(e: Env, st: State, ev: Event)
    requires Inv(e, st)
    requires ev.Alerted? ==> ev.token in st.devices && ev.alert !in st.devices[ev.token].alertsSent
                             && CountOf(st.counts, ev.token) < MAX_ALERTS_PER_DAY
    requires ev.Woken? ==> ev.token in st.devices && ev.due == DueIn(st.devices[ev.token].wakes, ev.now)
    requires ev.PassDone? ==> forall t :: t in st.devices && Reaches(e, st.devices[t]) ==>
               DueIn(st.devices[t].wakes, ev.now) == []
    ensures Sound(st.log + [ev])
  {
    hide Stored, Reachable, Memory, Delivered, DueIn, Sound, Reaches;
    var b := st.log + [ev];
    forall token
      ensures Agrees(e, st, token)
      ensures Stored(b, |st.log|, token) == Stored(st.log, |st.log|, token)
      ensures Reachable(b, |st.log|, token) == Reachable(st.log, |st.log|, token)
      ensures Memory(b, |st.log|, token) == Memory(st.log, |st.log|, token)
      ensures Delivered(b, |st.log|, token) == Delivered(st.log, |st.log|, token)
    {
      PastKept(st.log, b, |st.log|, token);
    }
    InvParts(e, st);
    SoundMore(st.log, ev);
  }

  lemma InvParts(e: Env, st: State)
    requires Inv(e, st)
    ensures Sound(st.log) && forall token :: Agrees(e, st, token)
  {}

  lemma UpsertKeeps(e: Env, st: State, token: Id, city: Id, platform: Id, wakes: seq<int>, routes: set<Id>)
    requires Inv(e, st)
    ensures Inv(e, Upsert(e, st, token, city, platform, wakes, routes))
  {
    hide Stored, Reachable, Memory, Delivered, Sound, Later, LastOf, Reaches;
    var next := Upsert(e, st, token, city, platform, wakes, routes);
    Append(e, st, next.log[|st.log|]);
    forall t ensures Agrees(e, next, t) {
      assert Agrees(e, st, t);
      OneMore(st.log, next.log[|st.log|], t);
    }
  }

  lemma DeleteKeeps(e: Env, st: State, token: Id)
    requires Inv(e, st)
    ensures Inv(e, Delete(st, token))
  {
    hide Stored, Reachable, Memory, Delivered, Sound, Later, LastOf, Reaches;
    if token in st.devices {
      Append(e, st, Gone(token));
      forall t ensures Agrees(e, Delete(st, token), t) {
        assert Agrees(e, st, t);
        OneMore(st.log, Gone(token), t);
      }
    }
  }

  lemma WakeOneKeeps(e: Env, st: State, token: Id, now: int)
    requires Inv(e, st)
    ensures Inv(e, WakeOne(e, st, token, now))
  {
    hide Stored, Reachable, Memory, Delivered, Sound, Later, LastOf, DueIn;
    if token in st.devices && Reaches(e, st.devices[token]) {
      var d := st.devices[token];
      var ev := Woken(token, now, DueIn(d.wakes, now));
      var next := st.(devices := st.devices[token := d.(wakes := Later(d.wakes, now))], log := st.log + [ev]);
      Append(e, st, ev);
      forall t ensures Agrees(e, next, t) {
        assert Agrees(e, st, t);
        OneMore(st.log, ev, t);
      }
      DeleteKeeps(e, next, token);
    }
  }

  lemma SendAlertKeeps(e: Env, st: State, alert: Id, token: Id)
    requires Inv(e, st)
    ensures Inv(e, SendAlert(e, st, alert, token))
  {
    hide Stored, Reachable, Memory, Delivered, Sound, Later, LastOf, Reaches;
    if token in st.devices && Reaches(e, st.devices[token])
       && alert !in st.devices[token].alertsSent && CountOf(st.counts, token) < MAX_ALERTS_PER_DAY {
      var d := st.devices[token];
      var reply := e.reply(|st.log|);
      var ev := Alerted(token, alert, reply.Arrived?);
      var counts := if reply.Arrived? then st.counts[token := CountOf(st.counts, token) + 1] else st.counts;
      var next := st.(devices := st.devices[token := d.(alertsSent := LastOf(d.alertsSent + [alert], KEEP))],
                      log := st.log + [ev], counts := counts);
      Append(e, st, ev);
      forall t ensures Agrees(e, next, t) {
        assert Agrees(e, st, t);
        OneMore(st.log, ev, t);
        SameReach(e, d, d.(alertsSent := LastOf(d.alertsSent + [alert], KEEP)));
      }
      DeleteKeeps(e, next, token);
    }
  }

  lemma SameReach(e: Env, a: Device, b: Device)
    requires a.city == b.city && a.platform == b.platform
    ensures Reaches(e, a) == Reaches(e, b)
  {}

  lemma {:induction false} WakeAllKeeps(e: Env, st: State, tokens: seq<Id>, n: nat, now: int)
    requires Inv(e, st) && n <= |tokens|
    ensures Inv(e, WakeAll(e, st, tokens, n, now))
  {
    hide Inv, WakeOne;
    if n > 0 {
      WakeAllKeeps(e, st, tokens, n - 1, now);
      WakeOneKeeps(e, WakeAll(e, st, tokens, n - 1, now), tokens[n - 1], now);
    }
  }

  /** A device still there after the pass has nothing due, or is the same as before and was not on the list. */
  lemma {:induction false} WakeAllServes(e: Env, st: State, tokens: seq<Id>, n: nat, now: int, t: Id)
    requires n <= |tokens|
    ensures var w := WakeAll(e, st, tokens, n, now);
            t in w.devices && Reaches(e, w.devices[t]) ==>
              t in st.devices && Reaches(e, st.devices[t])
              && if t in tokens[..n] then DueIn(w.devices[t].wakes, now) == [] else w.devices[t] == st.devices[t]
  {
    hide Later, DueIn, Reaches;
    if n > 0 {
      WakeAllServes(e, st, tokens, n - 1, now, t);
      assert tokens[..n] == tokens[..n - 1] + [tokens[n - 1]];
      var w := WakeAll(e, st, tokens, n - 1, now);
      if tokens[n - 1] in w.devices { NothingDue(w.devices[tokens[n - 1]].wakes, now); }
      if t in w.devices {
        NothingDue(w.devices[t].wakes, now);
        SameReach(e, w.devices[t], w.devices[t].(wakes := Later(w.devices[t].wakes, now)));
      }
    }
  }

  lemma {:induction false} NoneDue(wakes: seq<int>, now: int)
    requires forall t :: t in wakes ==> t > now
    ensures DueIn(wakes, now) == []
  {
    if wakes != [] {
      assert wakes[0] in wakes;
      forall t | t in wakes[1..] ensures t > now { assert t in wakes; }
      NoneDue(wakes[1..], now);
    }
  }

  lemma NothingDue(wakes: seq<int>, now: int)
    ensures DueIn(Later(wakes, now), now) == []
  {
    NoneDue(Later(wakes, now), now);
  }

  lemma {:induction false} DueListed(e: Env, devices: map<Id, Device>, order: seq<Id>, n: nat, now: int, t: Id)
    requires n <= |order| && t in order[..n] && t in devices && devices[t].city == e.city
    requires DueIn(devices[t].wakes, now) != []
    ensures t in DueTokens(e, devices, order, n, now)
  {
    hide DueIn;
    assert order[..n] == order[..n - 1] + [order[n - 1]];
    if t != order[n - 1] {
      DueListed(e, devices, order, n - 1, now, t);
    }
  }

  lemma WakePassKeeps(e: Env, st: State, now: int, order: seq<Id>)
    requires Inv(e, st) && Lists(order, st.devices)
    ensures Inv(e, Apply(e, st, WakePass(now, order)))
  {
    hide Stored, Reachable, Memory, Delivered, Sound, WakeOne, DueIn, DueTokens, Inv;
    var tokens := DueTokens(e, st.devices, order, |order|, now);
    var w := WakeAll(e, st, tokens, |tokens|, now);
    WakeAllKeeps(e, st, tokens, |tokens|, now);
    forall t | t in w.devices && Reaches(e, w.devices[t]) ensures DueIn(w.devices[t].wakes, now) == [] {
      WakeAllServes(e, st, tokens, |tokens|, now, t);
      assert tokens[..|tokens|] == tokens && order[..|order|] == order;
      if t !in tokens && DueIn(st.devices[t].wakes, now) != [] {
        DueListed(e, st.devices, order, |order|, now, t);
      }
    }
    Append(e, w, PassDone(now));
    QuietEvent(e, w, PassDone(now));
  }

  /** An event about no device in particular leaves what is said of every device. */
  lemma QuietEvent(e: Env, st: State, ev: Event)
    requires Inv(e, st) && ev.PassDone? && Sound(st.log + [ev])
    ensures Inv(e, st.(log := st.log + [ev]))
  {
    hide Stored, Reachable, Memory, Delivered, Sound, Later, LastOf, Reaches;
    forall t ensures Agrees(e, st.(log := st.log + [ev]), t) {
      assert Agrees(e, st, t);
      OneMore(st.log, ev, t);
    }
  }

  lemma ClearKeeps(e: Env, st: State, seen: set<Id>, ev: Event)
    requires Inv(e, st) && Clears(ev)
    ensures Inv(e, st.(seen := seen, counts := map[], log := st.log + [ev]))
  {
    hide Stored, Reachable, Memory, Delivered, Sound, Later, LastOf, Reaches;
    Append(e, st, ev);
    forall t ensures Agrees(e, st.(seen := seen, counts := map[], log := st.log + [ev]), t) {
      assert Agrees(e, st, t);
      OneMore(st.log, ev, t);
    }
  }

  lemma {:induction false} SendAllKeeps(e: Env, st: State, alert: Id, tokens: seq<Id>, n: nat)
    requires Inv(e, st) && n <= |tokens|
    ensures Inv(e, SendAll(e, st, alert, tokens, n))
  {
    hide Inv, SendAlert;
    if n > 0 {
      SendAllKeeps(e, st, alert, tokens, n - 1);
      SendAlertKeeps(e, SendAll(e, st, alert, tokens, n - 1), alert, tokens[n - 1]);
    }
  }

  lemma SeenKeeps(e: Env, st: State, seen: set<Id>)
    requires Inv(e, st)
    ensures Inv(e, st.(seen := seen))
  {
    hide Stored, Reachable, Memory, Delivered, Sound, Reaches;
    forall t ensures Agrees(e, st.(seen := seen), t) { assert Agrees(e, st, t); }
  }

  lemma {:induction false} PushAllKeeps(e: Env, st: State, alerts: seq<Alert>, order: seq<Id>, n: nat)
    requires Inv(e, st) && n <= |alerts|
    ensures Inv(e, PushAll(e, st, alerts, order, n))
  {
    hide Inv, SendAll, Following;
    if n > 0 {
      PushAllKeeps(e, st, alerts, order, n - 1);
      var before := PushAll(e, st, alerts, order, n - 1);
      var a := alerts[n - 1];
      SeenKeeps(e, before, before.seen + {a.id});
      var next := before.(seen := before.seen + {a.id});
      var tokens := Following(e, next.devices, a.routes, order, |order|);
      SendAllKeeps(e, next, a.id, tokens, |tokens|);
    }
  }

  lemma StepKeeps(e: Env, st: State, step: Step)
    requires Inv(e, st) && Allowed(st, step)
    ensures Inv(e, Apply(e, st, step))
  {
    hide Inv, PushAll, WakeAll, Upsert, Delete;
    match step
    case Register(token, city, platform, wakes, routes) => UpsertKeeps(e, st, token, city, platform, wakes, routes);
    case Unregister(token) => DeleteKeeps(e, st, token);
    case WakePass(now, order) => WakePassKeeps(e, st, now, order);
    case AlertPass(alerts, order) =>
      var unseen := ToPush(alerts, st.seen, |alerts|);
      PushAllKeeps(e, st, unseen, order, |unseen|);
    case NewDay => ClearKeeps(e, st, st.seen, DayBegan);
    case Restart => ClearKeeps(e, st, {}, Restarted);
  }

  /** Over every run each attempt was justified, and the store holds exactly what the log says. */
  lemma {:induction false} RunKeeps(e: Env, steps: seq<Step>, n: nat)
    requires n <= |steps| && AllAllowed(e, steps, n)
    ensures Inv(e, Run(e, steps, n))
  {
    hide Inv, Apply;
    if n > 0 {
      RunKeeps(e, steps, n - 1);
      StepKeeps(e, Run(e, steps, n - 1), steps[n - 1]);
    } else {
      NothingYet(e);
    }
  }

  lemma NothingYet(e: Env)
    ensures Inv(e, State(map[], {}, map[], []))
  {}

  /** In every run two attempts of one alert to one device are two hundred attempts apart, unless the device went. */
  lemma AlertsOnceOverRuns(e: Env, steps: seq<Step>, i: nat, j: nat, token: Id, alert: Id)
    requires AllAllowed(e, steps, |steps|)
    requires var log := Run(e, steps, |steps|).log;
             && i < j < |log|
             && log[i].Alerted? && log[i].token == token && log[i].alert == alert
             && log[j].Alerted? && log[j].token == token && log[j].alert == alert
             && forall k :: i < k < j ==> !(log[k].Gone? && log[k].token == token)
    ensures Attempts(Run(e, steps, |steps|).log, i + 1, j, token) >= KEEP
  {
    hide Run, AllAllowed, Sound;
    RunKeeps(e, steps, |steps|);
    InvParts(e, Run(e, steps, |steps|));
    AlertedOnce(Run(e, steps, |steps|).log, i, j, token, alert);
  }

  /** In every run no device is delivered more than six alerts between two clearings of the counts. */
  lemma SixADayOverRuns(e: Env, steps: seq<Step>, token: Id, n: nat)
    requires AllAllowed(e, steps, |steps|) && n <= |Run(e, steps, |steps|).log|
    ensures Delivered(Run(e, steps, |steps|).log, n, token) <= MAX_ALERTS_PER_DAY
  {
    hide Run, AllAllowed, Sound;
    RunKeeps(e, steps, |steps|);
    InvParts(e, Run(e, steps, |steps|));
    SixADay(Run(e, steps, |steps|).log, n, token);
  }

  /** In every run a day holds at most six deliveries to a device if the process was not restarted in it. */
  lemma DailyCapOverRuns(e: Env, steps: seq<Step>, token: Id, n: nat)
    requires AllAllowed(e, steps, |steps|) && n <= |Run(e, steps, |steps|).log|
    ensures var log := Run(e, steps, |steps|).log;
            DeliveredToday(log, n, token) <= MAX_ALERTS_PER_DAY * (RestartsToday(log, n) + 1)
  {
    hide Run, AllAllowed, Sound;
    RunKeeps(e, steps, |steps|);
    InvParts(e, Run(e, steps, |steps|));
    SixForEachRestart(Run(e, steps, |steps|).log, n, token);
  }

  /** The daily count lives in the process: after a restart a device that had its six is sent the next alert. */
  lemma RestartReopensTheDay(e: Env, st: State, alert: Id, token: Id)
    requires token in st.devices && Reaches(e, st.devices[token]) && alert !in st.devices[token].alertsSent
    ensures var log := SendAlert(e, Apply(e, st, Restart), alert, token).log;
            |log| > |st.log| + 1 && log[|st.log| + 1].Alerted? && log[|st.log| + 1].token == token
    ensures CountOf(st.counts, token) >= MAX_ALERTS_PER_DAY ==> SendAlert(e, st, alert, token) == st
  {
    hide LastOf;
    var next := Apply(e, st, Restart);
    assert next.devices == st.devices && CountOf(next.counts, token) == 0;
  }

  // ---- a day with seven alerts ----

  const ROUTE := Id("r")

  function Named(k: nat): Id {
    Id(seq(k + 1, i => 'a'))
  }

  lemma NamesDiffer(j: nat, k: nat)
    requires j != k
    ensures Named(j) != Named(k) && Named(j).text != ""
  {
    assert |Named(j).text| == j + 1 && |Named(k).text| == k + 1;
  }

  function Follow(e: Env, token: Id, platform: Id): Step {
    Register(token, e.city, platform, [], {ROUTE})
  }

  function Announce(token: Id, k: nat): Step {
    AlertPass([Alert(Named(k), {ROUTE})], [token])
  }

  /** The one device has been sent `k` alerts, `count` of them since the counts were cleared. */
  ghost predicate Sent(e: Env, st: State, token: Id, k: nat, count: nat, restarts: nat) {
    && st.devices.Keys == {token} && Reaches(e, st.devices[token]) && ROUTE in st.devices[token].routes
    && (forall j :: j >= k ==> Named(j) !in st.seen && Named(j) !in st.devices[token].alertsSent)
    && CountOf(st.counts, token) == count
    && DeliveredToday(st.log, |st.log|, token) == k && RestartsToday(st.log, |st.log|) == restarts
  }

  lemma {:induction false} TodayKept(a: Log, b: Log, n: nat, token: Id)
    requires a <= b && n <= |a|
    ensures DeliveredToday(a, n, token) == DeliveredToday(b, n, token) && RestartsToday(a, n) == RestartsToday(b, n)
  {
    if n > 0 {
      TodayKept(a, b, n - 1, token);
    }
  }

  /** What a pass with one new alert does to the one device, which follows its route. */
  lemma AnnounceIs(e: Env, st: State, token: Id, k: nat)
    requires st.devices.Keys == {token} && ROUTE in st.devices[token].routes && st.devices[token].city == e.city
    requires Named(k) !in st.seen
    ensures Apply(e, st, Announce(token, k)) == SendAlert(e, st.(seen := st.seen + {Named(k)}), Named(k), token)
    ensures Allowed(st, Announce(token, k))
  {
    hide SendAlert;
    NamesDiffer(k, k + 1);
    var a := Alert(Named(k), {ROUTE});
    assert ToPush([a], st.seen, 0) == [];
    assert ROUTE in a.routes && ToPush([a], st.seen, 1) == [a];
    var next := st.(seen := st.seen + {a.id});
    assert ROUTE in st.devices[token].routes * a.routes;
    assert Following(e, next.devices, a.routes, [token], 0) == [];
    assert Following(e, next.devices, a.routes, [token], 1) == [token];
    assert SendAll(e, next, a.id, [token], 0) == next;
    assert PushAll(e, st, [a], [token], 0) == st;
  }

  lemma Delivers(e: Env, st: State, token: Id, k: nat, count: nat, restarts: nat)
    requires Sent(e, st, token, k, count, restarts) && count < MAX_ALERTS_PER_DAY && forall i :: e.reply(i).Arrived?
    ensures Sent(e, Apply(e, st, Announce(token, k)), token, k + 1, count + 1, restarts)
    ensures Allowed(st, Announce(token, k))
  {
    hide Apply, Named, Reaches;
    ReachesCity(e, st.devices[token]);
    AnnounceIs(e, st, token, k);
    var ev := Alerted(token, Named(k), true);
    TodayKept(st.log, st.log + [ev], |st.log|, token);
    forall j: nat | j >= k + 1 ensures Named(j) != Named(k) { NamesDiffer(j, k); }
    var d := st.devices[token];
    var next := d.(alertsSent := LastOf(d.alertsSent + [Named(k)], KEEP));
    SameReach(e, d, next);
    forall x | x in next.alertsSent ensures x in d.alertsSent || x == Named(k) {}
  }

  lemma ReachesCity(e: Env, d: Device)
    requires Reaches(e, d)
    ensures d.city == e.city
  {}

  lemma Restarts(e: Env, st: State, token: Id, k: nat, count: nat, restarts: nat)
    requires Sent(e, st, token, k, count, restarts)
    ensures Sent(e, Apply(e, st, Restart), token, k, 0, restarts + 1)
  {
    hide Named, Reaches;
    TodayKept(st.log, st.log + [Restarted], |st.log|, token);
  }

  lemma Follows(e: Env, token: Id, platform: Id)
    requires platform in e.senders
    ensures Sent(e, Apply(e, State(map[], {}, map[], []), Follow(e, token, platform)), token, 0, 0, 0)
  {
    hide Named;
    var log := Apply(e, State(map[], {}, map[], []), Follow(e, token, platform)).log;
    assert log[0].Registered? && DeliveredToday(log, 0, token) == 0 && RestartsToday(log, 0) == 0;
  }

  /** Six alerts, a restart and one more alert: the device is delivered seven on one day. */
  function SevenAlerts(e: Env, token: Id, platform: Id): seq<Step> {
    [Follow(e, token, platform)] + seq(6, k requires 0 <= k => Announce(token, k)) + [Restart, Announce(token, 6)]
  }

  lemma {:induction false} SixDelivered(e: Env, token: Id, platform: Id, k: nat)
    requires platform in e.senders && k <= 6 && forall i :: e.reply(i).Arrived?
    ensures var steps := SevenAlerts(e, token, platform);
            AllAllowed(e, steps, k + 1) && Sent(e, Run(e, steps, k + 1), token, k, k, 0)
  {
    hide Sent, Apply, Follow, Announce;
    var steps := SevenAlerts(e, token, platform);
    if k == 0 {
      Follows(e, token, platform);
      assert Run(e, steps, 0) == State(map[], {}, map[], []);
      AllowsRegister(e, token, platform);
    } else {
      SixDelivered(e, token, platform, k - 1);
      assert steps[k] == Announce(token, k - 1);
      Delivers(e, Run(e, steps, k), token, k - 1, k - 1, 0);
    }
  }

  lemma AllowsRegister(e: Env, token: Id, platform: Id)
    ensures Allowed(State(map[], {}, map[], []), Follow(e, token, platform))
  {}

  /** So the seventh alert of a day arrives. */
  lemma SeventhInADay(e: Env, token: Id, platform: Id)
    requires platform in e.senders && forall i :: e.reply(i).Arrived?
    ensures var steps := SevenAlerts(e, token, platform);
            AllAllowed(e, steps, |steps|) && NewDay !in steps
            && DeliveredToday(Run(e, steps, |steps|).log, |Run(e, steps, |steps|).log|, token) == 7
  {
    hide Apply, Announce, DeliveredToday, RestartsToday, Named, Reaches;
    var steps := SevenAlerts(e, token, platform);
    SixDelivered(e, token, platform, 6);
    Restarts(e, Run(e, steps, 7), token, 6, 6, 0);
    Delivers(e, Run(e, steps, 8), token, 6, 0, 1);
    NoNewDay(e, token, platform);
  }

  lemma NoNewDay(e: Env, token: Id, platform: Id)
    ensures NewDay !in SevenAlerts(e, token, platform)
  {}

  // ---- wake-ups over runs ----

  /** The passes of the run do not go back in time. */
  predicate ClockForward(steps: seq<Step>, n: nat, last: int)
    requires n <= |steps|
  {
    n == 0 ||
    if steps[n - 1].WakePass? then steps[n - 1].now <= last && ClockForward(steps, n - 1, steps[n - 1].now)
    else ClockForward(steps, n - 1, last)
  }

  ghost predicate NotLaterThan(log: Log, last: int) {
    forall i :: 0 <= i < |log| && Timed(log[i]) ==> log[i].now <= last
  }

  /** A log whose events are in order, none later than `last`, and whose attempts all belong to finished passes. */
  ghost predicate Orderly(log: Log, last: int) {
    Forward(log) && NotLaterThan(log, last) && PassesDone(log, |log|)
  }

  /** What a step other than a wake pass adds: no wake-ups and no passes. */
  ghost predicate Untimed(log: Log, more: Log) {
    log <= more && forall k :: |log| <= k < |more| ==> !Timed(more[k])
  }

  lemma OrderlyMore(log: Log, more: Log, last: int)
    requires Orderly(log, last) && Untimed(log, more)
    ensures Orderly(more, last)
  {
    forall k | 0 <= k < |more| && more[k].Woken?
      ensures exists p :: k < p < |more| && more[p].PassDone? && more[p].now == more[k].now
    {
      assert Timed(more[k]);
      var p :| k < p < |log| && log[p].PassDone? && log[p].now == log[k].now;
      assert more[p] == log[p];
    }
    forall i, j | 0 <= i < j < |more| && Timed(more[i]) && Timed(more[j]) ensures more[i].now <= more[j].now {
      assert log[i] == more[i] && log[j] == more[j];
    }
    forall i | 0 <= i < |more| && Timed(more[i]) ensures more[i].now <= last {
      assert log[i] == more[i];
    }
  }

  /** What a wake pass adds: attempts at its own time, and the end of the pass. */
  ghost predicate OnePass(log: Log, more: Log, now: int) {
    && log <= more && |log| < |more| && more[|more| - 1] == PassDone(now)
    && forall k :: |log| <= k < |more| && Timed(more[k]) ==> more[k].now == now
  }

  lemma OrderlyPass(log: Log, more: Log, last: int, now: int)
    requires Orderly(log, last) && last <= now && OnePass(log, more, now)
    ensures Orderly(more, now)
  {
    forall k | 0 <= k < |more| && more[k].Woken?
      ensures exists p :: k < p < |more| && more[p].PassDone? && more[p].now == more[k].now
    {
      assert Timed(more[k]);
      if k < |log| {
        assert log[k].Woken?;
        var p :| k < p < |log| && log[p].PassDone? && log[p].now == log[k].now;
        assert more[p] == log[p];
      } else {
        assert more[|more| - 1].PassDone?;
      }
    }
    forall i | 0 <= i < |more| && Timed(more[i]) ensures more[i].now <= now {
      if i < |log| { assert log[i] == more[i]; }
    }
    forall i, j | 0 <= i < j < |more| && Timed(more[i]) && Timed(more[j]) ensures more[i].now <= more[j].now {
      if j < |log| { assert log[i] == more[i] && log[j] == more[j]; }
    }
  }

  lemma {:induction false} SendAllUntimed(e: Env, st: State, alert: Id, tokens: seq<Id>, n: nat)
    requires n <= |tokens|
    ensures Untimed(st.log, SendAll(e, st, alert, tokens, n).log)
  {
    hide LastOf, Reaches, CountOf;
    if n > 0 {
      SendAllUntimed(e, st, alert, tokens, n - 1);
    }
  }

  lemma {:induction false} PushAllUntimed(e: Env, st: State, alerts: seq<Alert>, order: seq<Id>, n: nat)
    requires n <= |alerts|
    ensures Untimed(st.log, PushAll(e, st, alerts, order, n).log)
  {
    hide SendAll, Following;
    if n > 0 {
      PushAllUntimed(e, st, alerts, order, n - 1);
      var before := PushAll(e, st, alerts, order, n - 1);
      var next := before.(seen := before.seen + {alerts[n - 1].id});
      var tokens := Following(e, next.devices, alerts[n - 1].routes, order, |order|);
      SendAllUntimed(e, next, alerts[n - 1].id, tokens, |tokens|);
    }
  }

  lemma {:induction false} WakeAllTimed(e: Env, st: State, tokens: seq<Id>, n: nat, now: int)
    requires n <= |tokens|
    ensures var w := WakeAll(e, st, tokens, n, now);
            st.log <= w.log && forall k :: |st.log| <= k < |w.log| && Timed(w.log[k]) ==> w.log[k].now == now
  {
    hide Later, DueIn, Reaches;
    if n > 0 {
      WakeAllTimed(e, st, tokens, n - 1, now);
    }
  }

  lemma {:induction false} RunOrderly(e: Env, steps: seq<Step>, n: nat, last: int)
    requires n <= |steps| && ClockForward(steps, n, last)
    ensures Orderly(Run(e, steps, n).log, last)
  {
    hide Orderly, PushAll, WakeAll, ToPush, DueTokens;
    if n == 0 {
      EmptyOrderly(last);
    } else {
      var st := Run(e, steps, n - 1);
      match steps[n - 1]
      case WakePass(now, order) =>
        RunOrderly(e, steps, n - 1, now);
        var tokens := DueTokens(e, st.devices, order, |order|, now);
        WakeAllTimed(e, st, tokens, |tokens|, now);
        OrderlyPass(st.log, Run(e, steps, n).log, now, now);
        OrderlyLater(Run(e, steps, n).log, now, last);
      case AlertPass(alerts, order) =>
        RunOrderly(e, steps, n - 1, last);
        var unseen := ToPush(alerts, st.seen, |alerts|);
        PushAllUntimed(e, st, unseen, order, |unseen|);
        OrderlyMore(st.log, Run(e, steps, n).log, last);
      case _ =>
        RunOrderly(e, steps, n - 1, last);
        OrderlyMore(st.log, Run(e, steps, n).log, last);
    }
  }

  lemma EmptyOrderly(last: int)
    ensures Orderly([], last)
  {}

  lemma OrderlyLater(log: Log, now: int, last: int)
    requires Orderly(log, now) && now <= last
    ensures Orderly(log, last)
  {}

  /**
   In every run, a wake-up registered by a reachable device that has neither registered again nor gone is attempted,
   once, exactly when a pass falls in its two minutes.
   */
  lemma WakesExactlyOnceOverRuns(e: Env, steps: seq<Step>, last: int, r: nat, token: Id, t: int)
    requires AllAllowed(e, steps, |steps|) && ClockForward(steps, |steps|, last)
    requires var log := Run(e, steps, |steps|).log; Waiting(log, r, |log|, token, t)
    ensures var log := Run(e, steps, |steps|).log;
            && ((exists k :: r < k < |log| && WokenFor(log[k], token, t)) <==> PassInWindow(log, r, |log|, t))
            && forall i, j :: r < i < j < |log| ==> !(WokenFor(log[i], token, t) && WokenFor(log[j], token, t))
  {
    hide Run, AllAllowed, Sound, ClockForward, Waiting, WokenFor, PassInWindow;
    RunKeeps(e, steps, |steps|);
    InvParts(e, Run(e, steps, |steps|));
    RunOrderly(e, steps, |steps|, last);
    WokenExactly(Run(e, steps, |steps|).log, r, |Run(e, steps, |steps|).log|, token, t);
  }

  /** So in a run with passes at most two minutes apart it is attempted in exactly one of them. */
  lemma RegularPassesWakeOverRuns(e: Env, steps: seq<Step>, last: int, r: nat, token: Id, t: int) returns (k: nat)
    requires AllAllowed(e, steps, |steps|) && ClockForward(steps, |steps|, last)
    requires var log := Run(e, steps, |steps|).log; Waiting(log, r, |log|, token, t) && Regular(log, r, |log|, t)
    ensures var log := Run(e, steps, |steps|).log;
            && r < k < |log| && WokenFor(log[k], token, t)
            && forall j :: r < j < |log| && WokenFor(log[j], token, t) ==> j == k
  {
    hide Run, AllAllowed, Sound, ClockForward, Waiting, WokenFor, Regular, PassesDone, NotLaterThan;
    RunKeeps(e, steps, |steps|);
    InvParts(e, Run(e, steps, |steps|));
    RunOrderly(e, steps, |steps|, last);
    k := RegularPassesWake(Run(e, steps, |steps|).log, r, |Run(e, steps, |steps|).log|, token, t);
  }

  // ---- the store as it is updated ----

  class MemoryPushDeviceStore {
    var devices: map<Id, Device>

    constructor ()
      ensures devices == map[]
    {
      devices := map[];
    }

    method UpsertDevice(token: Id, city: Id, platform: Id, wakes: seq<int>, routes: set<Id>)
      modifies this
      ensures var was := old(devices);
              var sent := if token in was then was[token].alertsSent else [];
              devices == was[token := Device(city, platform, wakes, routes, sent)]
    {
      var sent := if token in devices then devices[token].alertsSent else [];
      devices := devices[token := Device(city, platform, wakes, routes, sent)];
    }

    method DeleteDevice(token: Id) returns (found: bool)
      modifies this
      ensures devices == old(devices) - {token} && found == (token in old(devices))
    {
      found := token in devices;
      devices := devices - {token};
    }

    method DueWakes(e: Env, order: seq<Id>, now: int) returns (due: seq<Id>)
      ensures due == DueTokens(e, devices, order, |order|, now)
    {
      due := [];
      for n := 0 to |order|
        invariant due == DueTokens(e, devices, order, n, now)
      {
        if order[n] in devices && devices[order[n]].city == e.city && DueIn(devices[order[n]].wakes, now) != [] {
          due := due + [order[n]];
        }
      }
    }

    method ConsumeWake(token: Id, before: int)
      modifies this
      ensures var was := old(devices);
              devices == if token in was then was[token := was[token].(wakes := Later(was[token].wakes, before))]
                         else was
    {
      if token in devices {
        devices := devices[token := devices[token].(wakes := Later(devices[token].wakes, before))];
      }
    }

    method Followers(e: Env, routes: set<Id>, order: seq<Id>) returns (tokens: seq<Id>)
      ensures tokens == Following(e, devices, routes, order, |order|)
    {
      tokens := [];
      for n := 0 to |order|
        invariant tokens == Following(e, devices, routes, order, n)
      {
        if order[n] in devices && devices[order[n]].city == e.city && devices[order[n]].routes * routes != {} {
          tokens := tokens + [order[n]];
        }
      }
    }

    method RecordAlert(token: Id, alert: Id)
      modifies this
      ensures var was := old(devices);
              devices == if token in was
                         then was[token := was[token].(alertsSent := LastOf(was[token].alertsSent + [alert], KEEP))]
                         else was
    {
      if token in devices {
        devices := devices[token := devices[token].(alertsSent := LastOf(devices[token].alertsSent + [alert], KEEP))];
      }
    }
  }

  /** One city's push loop: its own memory, its store, and what its transports were asked, in order. */
  class PushLoop {
    const store: MemoryPushDeviceStore
    var seen: set<Id>
    var counts: map<Id, nat>
    var log: Log

    constructor (store: MemoryPushDeviceStore)
      ensures this.store == store && seen == {} && counts == map[] && log == []
    {
      this.store, seen, counts, log := store, {}, map[], [];
    }

    function View(): State
      reads this, store
    {
      State(store.devices, seen, counts, log)
    }

    method RegisterDevice(e: Env, token: Id, city: Id, platform: Id, wakes: seq<int>, routes: set<Id>)
      modifies this, store
      ensures View() == Upsert(e, old(View()), token, city, platform, wakes, routes)
    {
      store.UpsertDevice(token, city, platform, wakes, routes);
      log := log + [Registered(token, wakes, Reaches(e, store.devices[token]))];
    }

    method UnregisterDevice(token: Id) returns (found: bool)
      modifies this, store
      ensures View() == Delete(old(View()), token) && found == (token in old(store.devices))
    {
      found := store.DeleteDevice(token);
      if found {
        log := log + [Gone(token)];
      }
      assert !found ==> store.devices == old(store.devices);
    }

    /** One device of a wake pass; whether the wake-up was delivered. */
    method WakeDevice(e: Env, token: Id, now: int) returns (delivered: bool)
      modifies this, store
      ensures View() == WakeOne(e, old(View()), token, now)
    {
      hide Later, DueIn;
      delivered := false;
      if token !in store.devices || !Reaches(e, store.devices[token]) {
        return;
      }
      var reply := e.reply(|log|);
      log := log + [Woken(token, now, DueIn(store.devices[token].wakes, now))];
      store.ConsumeWake(token, now);
      if reply.Arrived? {
        delivered := true;
      } else if reply.Dead? {
        var gone := UnregisterDevice(token);
      }
    }

    method PushWakes(e: Env, now: int, order: seq<Id>) returns (n: nat)
      modifies this, store
      ensures View() == Apply(e, old(View()), WakePass(now, order))
    {
      hide WakeOne, DueTokens;
      ghost var before := View();
      var due := store.DueWakes(e, order, now);
      n := 0;
      for i := 0 to |due|
        invariant View() == WakeAll(e, before, due, i, now)
      {
        var delivered := WakeDevice(e, due[i], now);
        if delivered {
          n := n + 1;
        }
      }
      log := log + [PassDone(now)];
    }

    /** One alert to one device; whether it was delivered. */
    method AlertDevice(e: Env, alert: Id, token: Id) returns (delivered: bool)
      modifies this, store
      ensures View() == SendAlert(e, old(View()), alert, token)
    {
      hide LastOf;
      delivered := false;
      if token !in store.devices || !Reaches(e, store.devices[token]) {
        return;
      }
      if alert in store.devices[token].alertsSent || CountOf(counts, token) >= MAX_ALERTS_PER_DAY {
        return;
      }
      var reply := e.reply(|log|);
      log := log + [Alerted(token, alert, reply.Arrived?)];
      store.RecordAlert(token, alert);
      if reply.Arrived? {
        delivered := true;
        counts := counts[token := CountOf(counts, token) + 1];
      } else if reply.Dead? {
        var gone := UnregisterDevice(token);
      }
    }

    method UnseenAlerts(alerts: seq<Alert>) returns (unseen: seq<Alert>)
      ensures unseen == ToPush(alerts, seen, |alerts|)
    {
      unseen := [];
      for n := 0 to |alerts|
        invariant unseen == ToPush(alerts, seen, n)
      {
        if alerts[n].id.text != "" && alerts[n].routes != {} && alerts[n].id !in seen {
          unseen := unseen + [alerts[n]];
        }
      }
    }

    method PushAlerts(e: Env, alerts: seq<Alert>, order: seq<Id>) returns (n: nat)
      modifies this, store
      ensures View() == Apply(e, old(View()), AlertPass(alerts, order))
    {
      hide SendAlert, Following, ToPush;
      ghost var before := View();
      var unseen := UnseenAlerts(alerts);
      n := 0;
      for k := 0 to |unseen|
        invariant View() == PushAll(e, before, unseen, order, k)
      {
        var a := unseen[k];
        seen := seen + {a.id};
        ghost var start := View();
        var tokens := store.Followers(e, a.routes, order);
        for i := 0 to |tokens|
          invariant View() == SendAll(e, start, a.id, tokens, i)
        {
          var delivered := AlertDevice(e, a.id, tokens[i]);
          if delivered {
            n := n + 1;
          }
        }
      }
    }
  }
}
