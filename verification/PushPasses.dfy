/**
 What one pass does, device by device: exactly whom it sends what, what each answer does to the device, and that
 everyone else is left alone.
 */
module PushPasses {
  import opened Util
  import opened PushLog
  import opened Push

  predicate About(ev: Event, t: Id) {
    match ev
    case Registered(token, _, _) => token == t
    case Gone(token) => token == t
    case Woken(token, _, _) => token == t
    case Alerted(token, _, _) => token == t
    case _ => false
  }

  predicate NoRepeats(s: seq<Id>) {
    forall i, j :: 0 <= i < j < |s| ==> s[i] != s[j]
  }

  /** Nothing was done to the device between the two states, and nothing logged about it. */
  ghost predicate LeftAlone(st: State, r: State, t: Id) {
    && (t in r.devices <==> t in st.devices) && (t in st.devices ==> r.devices[t] == st.devices[t])
    && CountOf(r.counts, t) == CountOf(st.counts, t)
    && st.log <= r.log && forall k :: |st.log| <= k < |r.log| ==> !About(r.log[k], t)
  }

  /** Of the new events only attempt `j`, and after a dead answer the removal, are about the device. */
  ghost predicate OnlyAttempt(e: Env, st: State, r: State, t: Id, j: int) {
    && st.log <= r.log && |st.log| <= j < |r.log|
    && (e.reply(j).Dead? ==> j + 1 < |r.log| && r.log[j + 1] == Gone(t))
    && forall k :: |st.log| <= k < |r.log| && About(r.log[k], t) ==> k == j || (k == j + 1 && e.reply(j).Dead?)
  }

  // ---- alerts ----

  /**
   The device gets the alert: of the city, with a transport, following a route of it, neither told before nor full.
   */
  ghost predicate Owed(e: Env, st: State, a: Alert, t: Id) {
    && t in st.devices && st.devices[t].city == e.city && st.devices[t].platform in e.senders
    && (exists x :: x in a.routes && x in st.devices[t].routes)
    && a.id !in st.devices[t].alertsSent && CountOf(st.counts, t) < 6
  }

  /**
   Attempt `j` sent the alert: remembered whatever the answer, counted if it arrived, and a dead device is dropped.
   */
  ghost predicate Sent(e: Env, st: State, r: State, alert: Id, t: Id, j: int) {
    && t in st.devices && OnlyAttempt(e, st, r, t, j) && r.log[j] == Alerted(t, alert, e.reply(j).Arrived?)
    && (t in r.devices <==> !e.reply(j).Dead?)
    && (t in r.devices ==>
          r.devices[t] == st.devices[t].(alertsSent := LastOf(st.devices[t].alertsSent + [alert], 200)))
    && CountOf(r.counts, t) == CountOf(st.counts, t) + if e.reply(j).Arrived? then 1 else 0
  }

  ghost predicate IsSent(e: Env, st: State, r: State, alert: Id, t: Id) {
    exists j :: Sent(e, st, r, alert, t, j)
  }

  predicate Sendable(e: Env, st: State, alert: Id, t: Id) {
    && t in st.devices && Reaches(e, st.devices[t]) && alert !in st.devices[t].alertsSent
    && CountOf(st.counts, t) < MAX_ALERTS_PER_DAY
  }

  lemma SendOther(e: Env, st: State, alert: Id, u: Id, t: Id)
    requires u != t
    ensures LeftAlone(st, SendAlert(e, st, alert, u), t)
  {
    hide LastOf;
  }

  lemma SendThis(e: Env, st: State, alert: Id, t: Id)
    ensures var r := SendAlert(e, st, alert, t);
            if Sendable(e, st, alert, t) then IsSent(e, st, r, alert, t) else r == st
  {
    hide LastOf;
    if Sendable(e, st, alert, t) {
      assert Sent(e, st, SendAlert(e, st, alert, t), alert, t, |st.log|);
    }
  }

  lemma Alone(a: State, b: State, c: State, t: Id)
    requires LeftAlone(a, b, t) && LeftAlone(b, c, t)
    ensures LeftAlone(a, c, t)
  {
    forall k | |a.log| <= k < |c.log| ensures !About(c.log[k], t) {
      if k < |b.log| { assert c.log[k] == b.log[k]; }
    }
  }

  lemma SentThenAlone(e: Env, a: State, b: State, c: State, alert: Id, t: Id)
    requires IsSent(e, a, b, alert, t) && LeftAlone(b, c, t)
    ensures IsSent(e, a, c, alert, t)
  {
    var j :| Sent(e, a, b, alert, t, j);
    assert c.log[j] == b.log[j];
    forall k | |a.log| <= k < |c.log| && About(c.log[k], t) ensures k == j || (k == j + 1 && e.reply(j).Dead?) {
      if k < |b.log| { assert c.log[k] == b.log[k]; }
    }
    assert Sent(e, a, c, alert, t, j);
  }

  lemma AloneThenSent(e: Env, a: State, b: State, c: State, alert: Id, t: Id)
    requires LeftAlone(a, b, t) && IsSent(e, b, c, alert, t)
    ensures IsSent(e, a, c, alert, t)
  {
    var j :| Sent(e, b, c, alert, t, j);
    forall k | |a.log| <= k < |c.log| && About(c.log[k], t) ensures k == j || (k == j + 1 && e.reply(j).Dead?) {
      assert k >= |b.log|;
    }
    assert Sent(e, a, c, alert, t, j);
  }

  lemma {:induction false} SendAllExactly(e: Env, st: State, alert: Id, tokens: seq<Id>, n: nat, t: Id)
    requires NoRepeats(tokens) && n <= |tokens|
    ensures var r := SendAll(e, st, alert, tokens, n);
            && (t in tokens[..n] && Sendable(e, st, alert, t) ==> IsSent(e, st, r, alert, t))
            && (t !in tokens[..n] || !Sendable(e, st, alert, t) ==> LeftAlone(st, r, t))
            && r.seen == st.seen
  {
    hide SendAlert, IsSent, Sendable, LeftAlone;
    var r := SendAll(e, st, alert, tokens, n);
    if n == 0 {
      AloneAtFirst(st, t);
    } else {
      var u := tokens[n - 1];
      var mid := SendAll(e, st, alert, tokens, n - 1);
      assert tokens[..n] == tokens[..n - 1] + [u];
      SendAllExactly(e, st, alert, tokens, n - 1, t);
      SeenStays(e, mid, alert, u);
      if u != t {
        SendOther(e, mid, alert, u, t);
        if t in tokens[..n - 1] && Sendable(e, st, alert, t) {
          SentThenAlone(e, st, mid, r, alert, t);
        } else {
          Alone(st, mid, r, t);
        }
      } else {
        assert t !in tokens[..n - 1] by { NotYet(tokens, n - 1); }
        SendThis(e, mid, alert, t);
        SameSendable(e, st, mid, alert, t);
        if Sendable(e, st, alert, t) {
          AloneThenSent(e, st, mid, r, alert, t);
        }
      }
    }
  }

  lemma AloneAtFirst(st: State, t: Id)
    ensures LeftAlone(st, st, t)
  {}

  lemma NotYet(tokens: seq<Id>, n: nat)
    requires NoRepeats(tokens) && n < |tokens|
    ensures tokens[n] !in tokens[..n]
  {}

  lemma SeenStays(e: Env, st: State, alert: Id, t: Id)
    ensures SendAlert(e, st, alert, t).seen == st.seen
  {}

  lemma SameSendable(e: Env, a: State, b: State, alert: Id, t: Id)
    requires LeftAlone(a, b, t)
    ensures Sendable(e, a, alert, t) == Sendable(e, b, alert, t)
  {}

  /** The followers of an alert, each as often as the store lists it. */
  lemma {:induction false} FollowersAre(e: Env, devices: map<Id, Device>, routes: set<Id>, order: seq<Id>, n: nat)
    requires n <= |order| && NoRepeats(order)
    ensures var s := Following(e, devices, routes, order, n);
            && NoRepeats(s)
            && forall t :: t in s <==>
                 && t in order[..n] && t in devices && devices[t].city == e.city
                 && exists x :: x in routes && x in devices[t].routes
  {
    if n > 0 {
      FollowersAre(e, devices, routes, order, n - 1);
      var t := order[n - 1];
      assert order[..n] == order[..n - 1] + [t];
      NotYet(order, n - 1);
      if t in devices {
        forall x ensures x in devices[t].routes * routes <==> x in routes && x in devices[t].routes {}
        assert devices[t].routes * routes != {} <==> exists x :: x in devices[t].routes * routes;
      }
    }
  }

  /**
   A pass with one alert sends it to exactly the devices that are owed it, once each; everyone else is left alone. An
   alert without an id, without routes or seen before does nothing at all.
   */
  lemma AlertExactly(e: Env, st: State, a: Alert, order: seq<Id>, t: Id)
    requires NoRepeats(order) && Lists(order, st.devices)
    ensures var r := Apply(e, st, AlertPass([a], order));
            if a.id.text == "" || a.routes == {} || a.id in st.seen then r == st
            else
              && r.seen == st.seen + {a.id}
              && if Owed(e, st, a, t) then IsSent(e, st, r, a.id, t) else LeftAlone(st, r, t)
  {
    hide Following, SendAll, IsSent, LeftAlone;
    OneAlert(e, st, a, order);
    if a.id.text != "" && a.routes != {} && a.id !in st.seen {
      FollowersAre(e, st.devices, a.routes, order, |order|);
      assert order[..|order|] == order;
      var tokens := Following(e, st.devices, a.routes, order, |order|);
      var next := st.(seen := st.seen + {a.id});
      SendAllExactly(e, next, a.id, tokens, |tokens|, t);
      assert tokens[..|tokens|] == tokens;
      var r := SendAll(e, next, a.id, tokens, |tokens|);
      OwedIsSendable(e, st, a, t);
      AloneFrom(st, next, r, t);
      if Owed(e, st, a, t) {
        SentFrom(e, st, next, r, a.id, t);
      }
    }
  }

  lemma OwedIsSendable(e: Env, st: State, a: Alert, t: Id)
    ensures Owed(e, st, a, t) <==>
            && Sendable(e, st.(seen := st.seen + {a.id}), a.id, t)
            && exists x :: x in a.routes && x in st.devices[t].routes
  {}

  lemma AloneFrom(a: State, b: State, c: State, t: Id)
    requires b == a.(seen := b.seen)
    ensures LeftAlone(b, c, t) ==> LeftAlone(a, c, t)
  {}

  lemma SentFrom(e: Env, a: State, b: State, c: State, alert: Id, t: Id)
    requires b == a.(seen := b.seen) && IsSent(e, b, c, alert, t)
    ensures IsSent(e, a, c, alert, t)
  {
    var j :| Sent(e, b, c, alert, t, j);
    assert Sent(e, a, c, alert, t, j);
  }

  /**
   A pass takes its alerts one after the other, and what it had seen before it began decides which: an id that stands
   twice in the list is taken twice.
   */
  lemma AlertsInTurn(e: Env, st: State, alerts: seq<Alert>, a: Alert, order: seq<Id>)
    ensures var (r, mid) := (Apply(e, st, AlertPass(alerts + [a], order)), Apply(e, st, AlertPass(alerts, order)));
            && r == Apply(e, mid.(seen := st.seen), AlertPass([a], order)).(seen := r.seen)
            && r.seen == mid.seen + if a.id.text != "" && a.routes != {} && a.id !in st.seen then {a.id} else {}
    ensures Apply(e, st, AlertPass([], order)) == st
  {
    hide PushOne;
    ToPushPrefix(alerts, a, st.seen, |alerts|);
    var unseen := ToPush(alerts, st.seen, |alerts|);
    var mid := PushAll(e, st, unseen, order, |unseen|);
    OneAlert(e, mid.(seen := st.seen), a, order);
    if a.id.text != "" && a.routes != {} && a.id !in st.seen {
      assert ToPush(alerts + [a], st.seen, |alerts| + 1) == unseen + [a];
      PushPrefix(e, st, unseen, a, order, |unseen|);
      assert Apply(e, st, AlertPass(alerts + [a], order)) == PushOne(e, mid, a, order);
      SeenIsApart(e, mid, st.seen, a, order);
    } else {
      assert ToPush(alerts + [a], st.seen, |alerts| + 1) == unseen + [];
      assert unseen + [] == unseen;
    }
  }

  lemma OneAlert(e: Env, st: State, a: Alert, order: seq<Id>)
    ensures Apply(e, st, AlertPass([a], order)) ==
            if a.id.text != "" && a.routes != {} && a.id !in st.seen then PushOne(e, st, a, order) else st
  {
    hide PushOne;
    assert ToPush([a], st.seen, 0) == [];
    if a.id.text != "" && a.routes != {} && a.id !in st.seen {
      assert ToPush([a], st.seen, 1) == [a];
      assert PushAll(e, st, [a], order, 0) == st;
    } else {
      assert ToPush([a], st.seen, 1) == [];
    }
  }

  lemma {:induction false} ToPushPrefix(alerts: seq<Alert>, a: Alert, seen: set<Id>, n: nat)
    requires n <= |alerts|
    ensures ToPush(alerts + [a], seen, n) == ToPush(alerts, seen, n)
  {
    if n > 0 {
      ToPushPrefix(alerts, a, seen, n - 1);
      assert (alerts + [a])[n - 1] == alerts[n - 1];
    }
  }

  lemma {:induction false} PushPrefix(e: Env, st: State, s: seq<Alert>, a: Alert, order: seq<Id>, n: nat)
    requires n <= |s|
    ensures PushAll(e, st, s + [a], order, n) == PushAll(e, st, s, order, n)
  {
    hide PushOne;
    if n > 0 {
      PushPrefix(e, st, s, a, order, n - 1);
      assert (s + [a])[n - 1] == s[n - 1];
    }
  }

  lemma SeenIsApart(e: Env, st: State, seen: set<Id>, a: Alert, order: seq<Id>)
    ensures PushOne(e, st.(seen := seen), a, order) ==
            PushOne(e, st, a, order).(seen := PushOne(e, st.(seen := seen), a, order).seen)
    ensures PushOne(e, st, a, order).seen == st.seen + {a.id}
  {
    hide Following, SendAll;
    var tokens := Following(e, st.devices, a.routes, order, |order|);
    SendIgnoresSeen(e, st.(seen := st.seen + {a.id}), seen + {a.id}, a.id, tokens, |tokens|);
  }

  lemma {:induction false} SendIgnoresSeen(e: Env, st: State, seen: set<Id>, alert: Id, tokens: seq<Id>, n: nat)
    requires n <= |tokens|
    ensures SendAll(e, st.(seen := seen), alert, tokens, n) == SendAll(e, st, alert, tokens, n).(seen := seen)
    ensures SendAll(e, st, alert, tokens, n).seen == st.seen
  {
    hide SendAlert;
    if n > 0 {
      SendIgnoresSeen(e, st, seen, alert, tokens, n - 1);
      OneIgnoresSeen(e, SendAll(e, st, alert, tokens, n - 1), seen, alert, tokens[n - 1]);
    }
  }

  lemma OneIgnoresSeen(e: Env, st: State, seen: set<Id>, alert: Id, t: Id)
    ensures SendAlert(e, st.(seen := seen), alert, t) == SendAlert(e, st, alert, t).(seen := seen)
    ensures SendAlert(e, st, alert, t).seen == st.seen
  {
    hide LastOf, Reaches;
  }

  /**
   A device that registers here for a route of an alert gets it with the next pass, unless it remembers it or is full;
   one that registers for other routes, another city or a platform without transport is not told.
   */
  lemma RegisteredIsTold(e: Env, st: State, d: Device, token: Id, a: Alert, order: seq<Id>)
    requires a.id.text != "" && a.routes != {} && a.id !in st.seen && CountOf(st.counts, token) < 6
    requires token in st.devices ==> a.id !in st.devices[token].alertsSent
    requires NoRepeats(order) && Lists(order, st.devices) && token in order
    ensures var here := Apply(e, st, Register(token, d.city, d.platform, d.wakes, d.routes));
            var r := Apply(e, here, AlertPass([a], order));
            IsSent(e, here, r, a.id, token) <==>
            d.city == e.city && d.platform in e.senders && exists x :: x in a.routes && x in d.routes
    ensures var here := Apply(e, st, Register(token, d.city, d.platform, d.wakes, d.routes));
            && token in here.devices && here.devices[token].wakes == d.wakes
            && forall t :: t != token ==> LeftAlone(st, here, t)
  {
    var here := Apply(e, st, Register(token, d.city, d.platform, d.wakes, d.routes));
    AlertExactly(e, here, a, order, token);
    var r := Apply(e, here, AlertPass([a], order));
  }

  /**
   A new day lets every device have alerts again and changes nothing else; a restart does that too and forgets which
   alerts it has seen. Unregistering drops the one device.
   */
  lemma BetweenPasses(e: Env, st: State, token: Id)
    ensures var day, again := Apply(e, st, NewDay), Apply(e, st, Restart);
            && day.devices == again.devices == st.devices && day.seen == st.seen && again.seen == {}
            && day.log == st.log + [DayBegan] && again.log == st.log + [Restarted]
            && forall t :: CountOf(day.counts, t) == CountOf(again.counts, t) == 0
    ensures var r := Apply(e, st, Unregister(token));
            && token !in r.devices && (forall t :: t != token ==> LeftAlone(st, r, t))
            && r.log == if token in st.devices then st.log + [Gone(token)] else st.log
  {}

  /** A device at its cap is told of the next alert once a day has begun, and not before. */
  lemma NextDayIsTold(e: Env, st: State, a: Alert, order: seq<Id>, t: Id)
    requires a.id.text != "" && a.routes != {} && a.id !in st.seen && CountOf(st.counts, t) >= 6
    requires NoRepeats(order) && Lists(order, st.devices) && t in st.devices
    requires st.devices[t].city == e.city && st.devices[t].platform in e.senders && a.id !in st.devices[t].alertsSent
    requires exists x :: x in a.routes && x in st.devices[t].routes
    ensures LeftAlone(st, Apply(e, st, AlertPass([a], order)), t)
    ensures var day := Apply(e, st, NewDay); IsSent(e, day, Apply(e, day, AlertPass([a], order)), a.id, t)
  {
    hide IsSent, LeftAlone;
    AlertExactly(e, st, a, order, t);
    AlertExactly(e, Apply(e, st, NewDay), a, order, t);
  }

  // ---- wake-ups ----

  /** The device has an instant that is due: not to come and at most two minutes past. */
  ghost predicate IsDue(e: Env, st: State, t: Id, now: int) {
    && t in st.devices && st.devices[t].city == e.city && st.devices[t].platform in e.senders
    && exists w :: w in st.devices[t].wakes && now - 120 <= w <= now
  }

  /** Attempt `j` woke the device: every instant up to now is used up, and a dead device is dropped. */
  ghost predicate WokenUp(e: Env, st: State, r: State, t: Id, now: int, j: int) {
    && t in st.devices && OnlyAttempt(e, st, r, t, j)
    && r.log[j].Woken? && r.log[j].token == t && r.log[j].now == now
    && (forall w :: w in r.log[j].due <==> w in st.devices[t].wakes && now - 120 <= w <= now)
    && (t in r.devices <==> !e.reply(j).Dead?)
    && (t in r.devices ==>
          && r.devices[t] == st.devices[t].(wakes := r.devices[t].wakes)
          && forall w :: w in r.devices[t].wakes <==> w in st.devices[t].wakes && w > now)
    && CountOf(r.counts, t) == CountOf(st.counts, t)
  }

  lemma WakeOther(e: Env, st: State, u: Id, now: int, t: Id)
    requires u != t
    ensures LeftAlone(st, WakeOne(e, st, u, now), t)
  {
    hide Later, DueIn;
  }

  ghost predicate IsWoken(e: Env, st: State, r: State, t: Id, now: int) {
    exists j :: WokenUp(e, st, r, t, now, j)
  }

  lemma WakeThis(e: Env, st: State, t: Id, now: int)
    ensures var r := WakeOne(e, st, t, now);
            if t in st.devices && Reaches(e, st.devices[t]) then IsWoken(e, st, r, t, now) else r == st
  {
    if t in st.devices && Reaches(e, st.devices[t]) {
      assert WokenUp(e, st, WakeOne(e, st, t, now), t, now, |st.log|);
    }
  }

  lemma WokenThenAlone(e: Env, a: State, b: State, c: State, t: Id, now: int)
    requires IsWoken(e, a, b, t, now) && LeftAlone(b, c, t)
    ensures IsWoken(e, a, c, t, now)
  {
    var j :| WokenUp(e, a, b, t, now, j);
    assert c.log[j] == b.log[j];
    forall k | |a.log| <= k < |c.log| && About(c.log[k], t) ensures k == j || (k == j + 1 && e.reply(j).Dead?) {
      if k < |b.log| { assert c.log[k] == b.log[k]; }
    }
    assert WokenUp(e, a, c, t, now, j);
  }

  lemma AloneThenWoken(e: Env, a: State, b: State, c: State, t: Id, now: int)
    requires LeftAlone(a, b, t) && IsWoken(e, b, c, t, now)
    ensures IsWoken(e, a, c, t, now)
  {
    var j :| WokenUp(e, b, c, t, now, j);
    forall k | |a.log| <= k < |c.log| && About(c.log[k], t) ensures k == j || (k == j + 1 && e.reply(j).Dead?) {
      assert k >= |b.log|;
    }
    assert WokenUp(e, a, c, t, now, j);
  }

  lemma {:induction false} WakeAllExactly(e: Env, st: State, tokens: seq<Id>, n: nat, now: int, t: Id)
    requires NoRepeats(tokens) && n <= |tokens|
    ensures var r := WakeAll(e, st, tokens, n, now);
            && (t in tokens[..n] && t in st.devices && Reaches(e, st.devices[t]) ==>
                  IsWoken(e, st, r, t, now))
            && (t !in tokens[..n] || t !in st.devices || !Reaches(e, st.devices[t]) ==> LeftAlone(st, r, t))
            && r.seen == st.seen
  {
    hide WakeOne, IsWoken, Reaches, LeftAlone;
    var r := WakeAll(e, st, tokens, n, now);
    if n == 0 {
      AloneAtFirst(st, t);
    } else {
      var u := tokens[n - 1];
      var mid := WakeAll(e, st, tokens, n - 1, now);
      assert tokens[..n] == tokens[..n - 1] + [u];
      WakeAllExactly(e, st, tokens, n - 1, now, t);
      assert r.seen == mid.seen by { WakeKeepsSeen(e, mid, u, now); }
      if u != t {
        WakeOther(e, mid, u, now, t);
        if t in tokens[..n - 1] && t in st.devices && Reaches(e, st.devices[t]) {
          WokenThenAlone(e, st, mid, r, t, now);
        } else {
          Alone(st, mid, r, t);
        }
      } else {
        NotYet(tokens, n - 1);
        WakeThis(e, mid, t, now);
        StillThere(st, mid, t);
        if t in st.devices && Reaches(e, st.devices[t]) {
          AloneThenWoken(e, st, mid, r, t, now);
        }
      }
    }
  }

  lemma WakeKeepsSeen(e: Env, st: State, t: Id, now: int)
    ensures WakeOne(e, st, t, now).seen == st.seen
  {}

  lemma StillThere(a: State, b: State, t: Id)
    requires LeftAlone(a, b, t)
    ensures (t in b.devices <==> t in a.devices) && (t in a.devices ==> b.devices[t] == a.devices[t])
  {}

  lemma {:induction false} DueAre(e: Env, devices: map<Id, Device>, order: seq<Id>, n: nat, now: int)
    requires n <= |order| && NoRepeats(order)
    ensures var s := DueTokens(e, devices, order, n, now);
            && NoRepeats(s)
            && forall t :: t in s <==>
                 && t in order[..n] && t in devices && devices[t].city == e.city
                 && exists w :: w in devices[t].wakes && now - 120 <= w <= now
  {
    hide DueIn;
    if n > 0 {
      DueAre(e, devices, order, n - 1, now);
      var t := order[n - 1];
      assert order[..n] == order[..n - 1] + [t];
      NotYet(order, n - 1);
      if t in devices {
        SomeDue(devices[t].wakes, now);
      }
    }
  }

  lemma SomeDue(wakes: seq<int>, now: int)
    ensures DueIn(wakes, now) != [] <==> exists w :: w in wakes && now - 120 <= w <= now
  {
    var due := DueIn(wakes, now);
    if due != [] { assert due[0] in due; }
  }

  /** A wake pass wakes exactly the devices that have something due, once each, and records that it is done. */
  lemma WakeExactly(e: Env, st: State, now: int, order: seq<Id>, t: Id)
    requires NoRepeats(order) && Lists(order, st.devices)
    ensures var r := Apply(e, st, WakePass(now, order));
            && r.seen == st.seen && r.log != [] && r.log[|r.log| - 1] == PassDone(now)
            && if IsDue(e, st, t, now) then IsWoken(e, st, r, t, now) else LeftAlone(st, r, t)
  {
    hide DueTokens, WakeAll, IsWoken, LeftAlone;
    var tokens := DueTokens(e, st.devices, order, |order|, now);
    DueAre(e, st.devices, order, |order|, now);
    assert order[..|order|] == order && tokens[..|tokens|] == tokens;
    WakeAllExactly(e, st, tokens, |tokens|, now, t);
    var w := WakeAll(e, st, tokens, |tokens|, now);
    var r := Apply(e, st, WakePass(now, order));
    PassIsQuiet(w, now, t);
    if IsDue(e, st, t, now) {
      WokenThenAlone(e, st, w, r, t, now);
    } else {
      Alone(st, w, r, t);
    }
  }

  lemma PassIsQuiet(st: State, now: int, t: Id)
    ensures LeftAlone(st, st.(log := st.log + [PassDone(now)]), t)
  {}
}
