module CurbZone {
  /** Which curb policy decides in a zone (lowest `priority` wins), and how long that answer is announced to last. */
  import opened Util
  import opened CurbClock

  datatype Activity = PickUp | Ban | OtherActivity

  /** `only` and `never` are `user_classes` and `user_classes_except`; empty is absent. */
  datatype Rule = Rule(activity: Activity, only: set<Id>, never: set<Id>)

  /** `rank` is the place of the policy's id in the order of ids. */
  datatype Policy = Policy(rank: int, priority: int, spans: seq<Span>, rules: seq<Rule>)

  predicate Matches(r: Rule, wanted: Option<set<Id>>) {
    wanted.None? || ((r.only == {} || r.only * wanted.value != {}) && r.never * wanted.value == {})
  }

  function MatchingRules(rules: seq<Rule>, wanted: Option<set<Id>>, n: nat): seq<Rule>
    requires n <= |rules|
  {
    if n == 0 then []
    else MatchingRules(rules, wanted, n - 1) + if Matches(rules[n - 1], wanted) then [rules[n - 1]] else []
  }

  function RulesFor(p: Policy, wanted: Option<set<Id>>): seq<Rule> {
    MatchingRules(p.rules, wanted, |p.rules|)
  }

  predicate Applies(p: Policy, wanted: Option<set<Id>>) {
    wanted.None? || RulesFor(p, wanted) != []
  }

  predicate InForce(cal: Calendar, p: Policy, wanted: Option<set<Id>>, t: int) {
    Active(cal, p.spans, t) && Applies(p, wanted)
  }

  predicate Permits(rules: seq<Rule>) {
    && (exists i :: 0 <= i < |rules| && rules[i].activity == PickUp)
    && (forall i :: 0 <= i < |rules| ==> rules[i].activity != Ban)
  }

  predicate Precedes(a: Policy, b: Policy) {
    a.priority < b.priority || (a.priority == b.priority && a.rank <= b.rank)
  }

  predicate Outranks(a: Policy, b: Policy) {
    !Precedes(b, a)
  }

  /** Policies are looked up by id, so a repeated id is the same policy. */
  predicate ById(ps: seq<Policy>) {
    forall i, j :: 0 <= i < |ps| && 0 <= j < |ps| && ps[i].rank == ps[j].rank ==> ps[i] == ps[j]
  }

  predicate IsWinner(cal: Calendar, ps: seq<Policy>, wanted: Option<set<Id>>, t: int, w: Option<Policy>) {
    && (w.Some? ==> w.value in ps && InForce(cal, w.value, wanted, t))
    && forall i :: 0 <= i < |ps| && InForce(cal, ps[i], wanted, t) ==> w.Some? && Precedes(w.value, ps[i])
  }

  /** `r` is the earliest next change among `pool`. */
  ghost predicate IsEarliest(cal: Calendar, pool: seq<Policy>, when_: int, r: Option<int>) {
    && (forall i :: 0 <= i < |pool| ==> ChangesNotBefore(cal, pool[i].spans, when_, r))
    && (r.Some? ==> exists i :: 0 <= i < |pool| && IsNextChange(cal, pool[i].spans, when_, r))
  }

  ghost predicate ChangesNotBefore(cal: Calendar, spans: seq<Span>, when_: int, r: Option<int>) {
    exists c :: IsNextChange(cal, spans, when_, c) && NotBefore(c, r)
  }

  predicate NotBefore(c: Option<int>, r: Option<int>) {
    c.Some? ==> r.Some? && r.value <= c.value
  }

  function InForceOf(cal: Calendar, ps: seq<Policy>, wanted: Option<set<Id>>, t: int, n: nat): (s: seq<Policy>)
    requires n <= |ps|
    ensures forall p :: p in s <==> InForce(cal, p, wanted, t) && exists i :: 0 <= i < n && ps[i] == p
  {
    if n == 0 then []
    else
      var s := InForceOf(cal, ps, wanted, t, n - 1);
      if InForce(cal, ps[n - 1], wanted, t) then s + [ps[n - 1]] else s
  }

  method EarliestChange(cal: Calendar, pool: seq<Policy>, when_: int) returns (change: Option<int>)
    ensures IsEarliest(cal, pool, when_, change)
  {
    change := None;
    ghost var seen: seq<Option<int>> := [];
    for i := 0 to |pool|
      invariant |seen| == i
      invariant forall k :: 0 <= k < i ==>
                  IsNextChange(cal, pool[k].spans, when_, seen[k]) && NotBefore(seen[k], change)
      invariant change.Some? ==> exists k :: 0 <= k < i && IsNextChange(cal, pool[k].spans, when_, change)
    {
      var t := NextChange(cal, pool[i].spans, when_);
      if t.Some? && (change.None? || t.value < change.value) {
        change := t;
      }
      seen := seen + [t];
    }
    forall i | 0 <= i < |pool| ensures ChangesNotBefore(cal, pool[i].spans, when_, change) {
      assert IsNextChange(cal, pool[i].spans, when_, seen[i]) && NotBefore(seen[i], change);
    }
  }

  method FindInForce(cal: Calendar, ps: seq<Policy>, wanted: Option<set<Id>>, when_: int) returns (found: seq<Policy>)
    ensures found == InForceOf(cal, ps, wanted, when_, |ps|)
  {
    hide Active, RulesFor;
    found := [];
    for i := 0 to |ps|
      invariant found == InForceOf(cal, ps, wanted, when_, i)
    {
      if Active(cal, ps[i].spans, when_) && (wanted.None? || RulesFor(ps[i], wanted) != []) {
        found := found + [ps[i]];
      }
    }
  }

  /** `None` for `allowed` means that no policy is in force. */
  method EvaluateZone(cal: Calendar, ps: seq<Policy>, wanted: Option<set<Id>>, when_: int)
    returns (active: seq<Policy>, allowed: Option<bool>, change: Option<int>)
    ensures multiset(active) == multiset(InForceOf(cal, ps, wanted, when_, |ps|))
    ensures SortedBy(active, (a, b) => Precedes(a, b))
    ensures IsWinner(cal, ps, wanted, when_, if active == [] then None else Some(active[0]))
    ensures allowed == if active == [] then None else Some(Permits(RulesFor(active[0], wanted)))
    ensures IsEarliest(cal, if active == [] then ps else active, when_, change)
  {
    hide Active, RulesFor, Permits, SortBy;
    var found := FindInForce(cal, ps, wanted, when_);
    var le := (a, b) => Precedes(a, b);
    SortPermutes(found, le);
    SortSorts(found, le);
    active := SortBy(found, le);
    SameElements(active, found);
    if active == [] {
      allowed := None;
      assert forall i :: 0 <= i < |ps| ==> ps[i] !in found;
      change := EarliestChange(cal, ps, when_);
    } else {
      allowed := Some(Permits(RulesFor(active[0], wanted)));
      forall i | 0 <= i < |ps| && InForce(cal, ps[i], wanted, when_) ensures Precedes(active[0], ps[i]) {
        assert ps[i] in active;
        var k :| 0 <= k < |active| && active[k] == ps[i];
        assert k == 0 || le(active[0], active[k]);
      }
      assert active[0] in active;
      change := EarliestChange(cal, active, when_);
    }
  }

  // ---- who may stop ----

  /** The rule is for everyone or for one of the caller's classes, and excepts none of them. */
  ghost predicate WrittenFor(r: Rule, classes: set<Id>) {
    && (r.only == {} || exists c :: c in classes && c in r.only)
    && forall c :: c in classes ==> c !in r.never
  }

  lemma MatchesWritten(r: Rule, classes: set<Id>)
    ensures Matches(r, Some(classes)) <==> WrittenFor(r, classes)
  {
    forall c ensures c in r.only * classes <==> c in classes && c in r.only {}
    forall c ensures c in r.never * classes <==> c in classes && c in r.never {}
    assert r.only * classes != {} <==> exists c :: c in r.only * classes;
    assert r.never * classes != {} <==> exists c :: c in r.never * classes;
  }

  lemma {:induction false} MatchingExactly(rules: seq<Rule>, wanted: Option<set<Id>>, n: nat, r: Rule)
    requires n <= |rules|
    ensures r in MatchingRules(rules, wanted, n) <==>
            (wanted.None? || WrittenFor(r, wanted.value)) && exists i :: 0 <= i < n && rules[i] == r
  {
    hide WrittenFor;
    if n > 0 {
      MatchingExactly(rules, wanted, n - 1, r);
      if wanted.Some? {
        MatchesWritten(rules[n - 1], wanted.value);
      }
    }
  }

  /**
   A policy lets a caller stop exactly when one of its rules written for the caller allows it and none of them bans it;
   for a caller it has no rule for it is not in force at all. Without a class every rule speaks to the caller.
   */
  lemma StopExactly(cal: Calendar, p: Policy, wanted: Option<set<Id>>, t: int)
    ensures Permits(RulesFor(p, wanted)) <==>
            && (exists r :: r in p.rules && (wanted.None? || WrittenFor(r, wanted.value)) && r.activity == PickUp)
            && (forall r :: r in p.rules && (wanted.None? || WrittenFor(r, wanted.value)) ==> r.activity != Ban)
    ensures InForce(cal, p, wanted, t) <==>
            && (p.spans == [] || exists s :: s in p.spans && SpanActive(cal, s, t))
            && (wanted.None? || exists r :: r in p.rules && WrittenFor(r, wanted.value))
  {
    hide WrittenFor, MatchingRules;
    var rules := RulesFor(p, wanted);
    forall r ensures r in rules <==> r in p.rules && (wanted.None? || WrittenFor(r, wanted.value)) {
      MatchingExactly(p.rules, wanted, |p.rules|, r);
    }
    forall i | 0 <= i < |rules| ensures rules[i] in rules {}
    assert rules != [] ==> rules[0] in rules;
  }

  /** A bay for taxis is open to a taxi that may use car bays too, and not to a car; a car bay is open to both. */
  lemma TaxiBay(taxi: Id, car: Id)
    requires taxi != car
    ensures var bay := Policy(0, 0, [], [Rule(PickUp, {taxi}, {})]);
            Permits(RulesFor(bay, Some({taxi, car}))) && !Permits(RulesFor(bay, Some({car})))
    ensures var bay := Policy(0, 0, [], [Rule(PickUp, {car}, {})]);
            Permits(RulesFor(bay, Some({taxi, car}))) && Permits(RulesFor(bay, Some({car})))
    ensures var bay := Policy(0, 0, [], [Rule(PickUp, {}, {car})]);
            !Permits(RulesFor(bay, Some({taxi, car}))) && Permits(RulesFor(bay, Some({taxi})))
  {
    hide Permits, RulesFor;
    assert taxi in {taxi, car} && car in {taxi, car};
    OneRule(Rule(PickUp, {taxi}, {}), {taxi, car});
    OneRule(Rule(PickUp, {taxi}, {}), {car});
    OneRule(Rule(PickUp, {car}, {}), {taxi, car});
    OneRule(Rule(PickUp, {car}, {}), {car});
    OneRule(Rule(PickUp, {}, {car}), {taxi, car});
    OneRule(Rule(PickUp, {}, {car}), {taxi});
  }

  lemma OneRule(r: Rule, classes: set<Id>)
    ensures Permits(RulesFor(Policy(0, 0, [], [r]), Some(classes))) <==> r.activity == PickUp && WrittenFor(r, classes)
  {
    hide WrittenFor;
    StopExactly(n => Date(0, 1, 1, false), Policy(0, 0, [], [r]), Some(classes), 0);
    assert r in [r];
  }

  /** There is one earliest change, and of the policies in force one that decides. */
  lemma OneAnswer(cal: Calendar, ps: seq<Policy>, wanted: Option<set<Id>>, t: int, pool: seq<Policy>,
                  r: Option<int>, q: Option<int>, w: Option<Policy>, v: Option<Policy>)
    requires IsEarliest(cal, pool, t, r) && IsEarliest(cal, pool, t, q)
    requires ById(ps) && IsWinner(cal, ps, wanted, t, w) && IsWinner(cal, ps, wanted, t, v)
    ensures r == q && w == v
  {
    hide Active, RulesFor;
    NotLater(cal, pool, t, r, q);
    NotLater(cal, pool, t, q, r);
  }

  lemma NotLater(cal: Calendar, pool: seq<Policy>, t: int, r: Option<int>, q: Option<int>)
    requires IsEarliest(cal, pool, t, r) && IsEarliest(cal, pool, t, q)
    ensures NotBefore(q, r)
  {
    if q.Some? {
      var i :| 0 <= i < |pool| && IsNextChange(cal, pool[i].spans, t, q);
      assert ChangesNotBefore(cal, pool[i].spans, t, r);
      var c :| IsNextChange(cal, pool[i].spans, t, c) && NotBefore(c, r);
      NextChangeIsUnique(cal, pool[i].spans, t, c, q);
    }
  }

  // ---- how long the announced answer lasts ----

  predicate AllAtMidnight(ps: seq<Policy>) {
    forall i :: 0 <= i < |ps| ==> DatesOk(ps[i])
  }

  predicate DatesOk(p: Policy) {
    forall i :: 0 <= i < |p.spans| ==>
      && (p.spans[i].startDate.Some? ==> p.spans[i].startDate.value % DAY == 0)
      && (p.spans[i].endDate.Some? ==> p.spans[i].endDate.value % DAY == 0)
  }

  lemma DatesOkAtMidnight(p: Policy)
    requires DatesOk(p)
    ensures DatesAtMidnight(p.spans)
  {
    forall b | IsBound(p.spans, b) ensures b == Midnight(b) {
      var i :| 0 <= i < |p.spans| && (p.spans[i].startDate == Some(b) || p.spans[i].endDate == Some(b));
    }
  }

  lemma SteadyBefore(cal: Calendar, p: Policy, when_: int, c: Option<int>, u: int)
    requires DatesOk(p) && IsNextChange(cal, p.spans, when_, c) && when_ <= u < Until(when_, c)
    ensures Active(cal, p.spans, u) == Active(cal, p.spans, when_)
  {
    DatesOkAtMidnight(p);
    NextChangeIsExact(cal, p.spans, when_, c);
  }

  /** The policies in force when asked stay in force until the announced change. */
  lemma InForceStays(cal: Calendar, ps: seq<Policy>, wanted: Option<set<Id>>, when_: int, pool: seq<Policy>,
                     r: Option<int>, p: Policy, u: int)
    requires AllAtMidnight(ps) && p in ps && p in pool && InForce(cal, p, wanted, when_)
    requires IsEarliest(cal, pool, when_, r) && when_ <= u < Until(when_, r)
    ensures InForce(cal, p, wanted, u)
  {
    var i :| 0 <= i < |pool| && pool[i] == p;
    var c :| IsNextChange(cal, pool[i].spans, when_, c) && NotBefore(c, r);
    SteadyBefore(cal, p, when_, c, u);
  }

  /** A policy that outranks the winner and is dormant does not wake up before the announced change. */
  ghost predicate NoBetterWakesBefore(cal: Calendar, ps: seq<Policy>, wanted: Option<set<Id>>, when_: int, w: Policy,
                                      until: int) {
    forall i, c ::
      (0 <= i < |ps| && Applies(ps[i], wanted) && Outranks(ps[i], w) && IsNextChange(cal, ps[i].spans, when_, c)) ==>
        Until(when_, c) >= until
  }

  /**
   The announced change follows only the policies in force. The deciding policy keeps deciding up
   to it exactly when no dormant policy that outranks it has an earlier change of its own.
   */
  lemma AnnouncedChangeExact(cal: Calendar, ps: seq<Policy>, wanted: Option<set<Id>>, when_: int, w: Policy,
                             pool: seq<Policy>, r: Option<int>)
    requires AllAtMidnight(ps) && IsWinner(cal, ps, wanted, when_, Some(w)) && w in pool
    requires IsEarliest(cal, pool, when_, r)
    ensures (forall u :: when_ <= u < Until(when_, r) ==> IsWinner(cal, ps, wanted, u, Some(w))) <==>
            NoBetterWakesBefore(cal, ps, wanted, when_, w, Until(when_, r))
  {
    var until := Until(when_, r);
    if NoBetterWakesBefore(cal, ps, wanted, when_, w, until) {
      forall u | when_ <= u < until ensures IsWinner(cal, ps, wanted, u, Some(w)) {
        InForceStays(cal, ps, wanted, when_, pool, r, w, u);
        forall i | 0 <= i < |ps| && InForce(cal, ps[i], wanted, u) ensures Precedes(w, ps[i]) {
          if Outranks(ps[i], w) {
            var c := SomeNextChange(cal, ps[i].spans, when_);
            SteadyBefore(cal, ps[i], when_, c, u);
          }
        }
      }
    }
    if forall u :: when_ <= u < until ==> IsWinner(cal, ps, wanted, u, Some(w)) {
      forall i, c | 0 <= i < |ps| && Applies(ps[i], wanted) && Outranks(ps[i], w)
                    && IsNextChange(cal, ps[i].spans, when_, c)
        ensures Until(when_, c) >= until
      {
        if Until(when_, c) < until {
          assert c.Some? && c.value == Until(when_, c);
          assert IsWinner(cal, ps, wanted, when_, Some(w));
          assert IsWinner(cal, ps, wanted, c.value, Some(w));
          assert InForce(cal, ps[i], wanted, c.value);
          assert false;
        }
      }
    }
  }

  /** Where no policy is in force the announced change is the earliest of all, and none comes into force before it. */
  lemma NothingComesBefore(cal: Calendar, ps: seq<Policy>, wanted: Option<set<Id>>, when_: int, r: Option<int>, u: int)
    requires AllAtMidnight(ps) && IsWinner(cal, ps, wanted, when_, None) && IsEarliest(cal, ps, when_, r)
    requires when_ <= u < Until(when_, r)
    ensures IsWinner(cal, ps, wanted, u, None)
  {
    forall i | 0 <= i < |ps| ensures !InForce(cal, ps[i], wanted, u) {
      var c :| IsNextChange(cal, ps[i].spans, when_, c) && NotBefore(c, r);
      SteadyBefore(cal, ps[i], when_, c, u);
      assert !InForce(cal, ps[i], wanted, when_);
    }
  }

  /** The search always has an answer. */
  lemma SomeNextChange(cal: Calendar, spans: seq<Span>, when_: int) returns (c: Option<int>)
    ensures IsNextChange(cal, spans, when_, c)
  {
    c := None;
    if t :| Candidate(spans, when_, t) && Active(cal, spans, t) != Active(cal, spans, when_) {
      var e := EarliestFlip(cal, spans, when_, t);
      c := Some(e);
    }
  }

  lemma EarliestFlip(cal: Calendar, spans: seq<Span>, when_: int, t: int) returns (e: int)
    requires Candidate(spans, when_, t) && Active(cal, spans, t) != Active(cal, spans, when_)
    ensures IsNextChange(cal, spans, when_, Some(e))
    decreases t - when_
  {
    e := t;
    if s :| Candidate(spans, when_, s) && s < t && Active(cal, spans, s) != Active(cal, spans, when_) {
      e := EarliestFlip(cal, spans, when_, s);
    }
  }

  /**
   Paid parking from 07:00 to 20:00 under a stopping ban from 17:00 to 20:00 that outranks it: at
   10:00 the zone announces no change before 20:00, although the ban takes over at 17:00.
   */
  lemma PeakBanIsNotAnnounced(cal: Calendar, pickUp: Rule, ban: Rule)
    requires pickUp == Rule(PickUp, {}, {}) && ban == Rule(Ban, {}, {})
    ensures var paid := Policy(2, 2, [ANY_TIME.(timeStart := Some(7 * 60), timeEnd := Some(20 * 60))], [pickUp]);
            var peak := Policy(1, 1, [ANY_TIME.(timeStart := Some(17 * 60), timeEnd := Some(20 * 60))], [ban]);
            && IsWinner(cal, [paid, peak], None, 600 * MINUTE, Some(paid))
            && IsEarliest(cal, [paid], 600 * MINUTE, Some(1200 * MINUTE))
            && IsWinner(cal, [paid, peak], None, 1020 * MINUTE, Some(peak))
  {
    var paid := Policy(2, 2, [ANY_TIME.(timeStart := Some(7 * 60), timeEnd := Some(20 * 60))], [pickUp]);
    var peak := Policy(1, 1, [ANY_TIME.(timeStart := Some(17 * 60), timeEnd := Some(20 * 60))], [ban]);
    forall p: Policy, t | p == paid || p == peak ensures Active(cal, p.spans, t) <==> SpanActive(cal, p.spans[0], t) {}
    var spans := paid.spans;
    assert IsEdge(spans, 1200) by { assert spans[0].timeEnd == Some(1200); }
    assert 1200 * MINUTE == EdgeAt(600 * MINUTE, 0, 1200);
    assert Candidate(spans, 600 * MINUTE, 1200 * MINUTE);
    forall t | Candidate(spans, 600 * MINUTE, t) ensures t >= 1200 * MINUTE {
      var d, m :| 0 <= d < LOOK_AHEAD && IsEdge(spans, m) && t == EdgeAt(600 * MINUTE, d, m);
      assert m == 0 || m == 420 || m == 1200;
    }
    assert IsNextChange(cal, spans, 600 * MINUTE, Some(1200 * MINUTE));
    assert [paid][0] == paid;
    assert NotBefore(Some(1200 * MINUTE), Some(1200 * MINUTE));
  }

  /** The priced policy: like the deciding one, but a policy without matching rules never counts. */
  predicate IsPriced(cal: Calendar, ps: seq<Policy>, wanted: Option<set<Id>>, t: int, w: Option<Policy>) {
    && (w.Some? ==> w.value in ps && InForce(cal, w.value, wanted, t) && RulesFor(w.value, wanted) != [])
    && forall i :: 0 <= i < |ps| && InForce(cal, ps[i], wanted, t) && RulesFor(ps[i], wanted) != [] ==>
         w.Some? && Precedes(w.value, ps[i])
  }

  /** The price shown is the deciding policy's exactly when that policy has a rule for the caller. */
  lemma PriceFollowsDecision(cal: Calendar, ps: seq<Policy>, wanted: Option<set<Id>>, t: int, w: Policy,
                             priced: Option<Policy>)
    requires ById(ps) && IsWinner(cal, ps, wanted, t, Some(w)) && IsPriced(cal, ps, wanted, t, priced)
    ensures priced == Some(w) <==> RulesFor(w, wanted) != []
    ensures wanted.Some? ==> priced == Some(w)
  {}

  function PricedOf(cal: Calendar, ps: seq<Policy>, wanted: Option<set<Id>>, t: int, n: nat): (s: seq<Policy>)
    requires n <= |ps|
    ensures forall p :: p in s <==>
            Active(cal, p.spans, t) && RulesFor(p, wanted) != [] && exists i :: 0 <= i < n && ps[i] == p
  {
    if n == 0 then []
    else
      var s := PricedOf(cal, ps, wanted, t, n - 1);
      if Active(cal, ps[n - 1].spans, t) && RulesFor(ps[n - 1], wanted) != [] then s + [ps[n - 1]] else s
  }

  /** The policy whose rules price the zone, found by a loop of its own. */
  method WinningPrice(cal: Calendar, ps: seq<Policy>, wanted: Option<set<Id>>, when_: int)
    returns (priced: Option<Policy>)
    ensures IsPriced(cal, ps, wanted, when_, priced)
  {
    hide Active, RulesFor, SortBy;
    var active := [];
    for i := 0 to |ps|
      invariant active == PricedOf(cal, ps, wanted, when_, i)
    {
      if Active(cal, ps[i].spans, when_) && RulesFor(ps[i], wanted) != [] {
        active := active + [ps[i]];
      }
    }
    FirstIsPriced(cal, ps, wanted, when_, active);
    active := SortBy(active, (a, b) => Precedes(a, b));
    return if active == [] then None else Some(active[0]);
  }

  lemma FirstIsPriced(cal: Calendar, ps: seq<Policy>, wanted: Option<set<Id>>, t: int, found: seq<Policy>)
    requires found == PricedOf(cal, ps, wanted, t, |ps|)
    ensures var s := SortBy(found, (a, b) => Precedes(a, b));
            IsPriced(cal, ps, wanted, t, if s == [] then None else Some(s[0]))
  {
    hide Active, RulesFor, SortBy, Precedes;
    var le := (a, b) => Precedes(a, b);
    PrecedesOrders();
    SortPermutes(found, le);
    SortSorts(found, le);
    SameElements(SortBy(found, le), found);
    var s := SortBy(found, le);
    forall i | 0 <= i < |ps| && InForce(cal, ps[i], wanted, t) && RulesFor(ps[i], wanted) != []
      ensures s != [] && Precedes(s[0], ps[i])
    {
      assert ps[i] in found && ps[i] in s;
      var k :| 0 <= k < |s| && s[k] == ps[i];
      assert k == 0 || le(s[0], s[k]);
      PrecedesItself(ps[i]);
    }
    assert s != [] ==> s[0] in s && s[0] in found;
  }

  lemma PrecedesOrders()
    ensures TotalPreorder((a: Policy, b: Policy) => Precedes(a, b))
  {}

  lemma PrecedesItself(p: Policy)
    ensures Precedes(p, p)
  {}
}
