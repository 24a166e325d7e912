module ToolReplies {
  /**
   What a reply is made of: what the model says at each point, which of its calls are run and how each is answered, and
   when the reply ends.
   */
  import opened Util
  import opened ToolLoop

  // ---- one stream ----

  lemma {:induction false} StreamPrefix(a: seq<Event>, b: seq<Event>, n: nat)
    requires n <= |a| && a <= b
    ensures TextOf(a, n) == TextOf(b, n) && CallsOf(a, n) == CallsOf(b, n)
    ensures UsageOf(a, n) == UsageOf(b, n) && Refused(a, n) == Refused(b, n)
  {
    if n > 0 {
      StreamPrefix(a, b, n - 1);
    }
  }

  /**
   A silent stream says nothing; a text is added to what was said, a list of calls takes the place of the one before,
   and an end adds its usage and decides over refusal.
   */
  lemma OneMoreEvent(s: seq<Event>, ev: Event)
    ensures TextOf([], 0) == "" && CallsOf([], 0) == [] && UsageOf([], 0) == Usage(0, 0) && !Refused([], 0)
    ensures TextOf(s + [ev], |s| + 1) == TextOf(s, |s|) + if ev.Text? then ev.text else ""
    ensures CallsOf(s + [ev], |s| + 1) == if ev.Calls? then ev.calls else CallsOf(s, |s|)
    ensures Refused(s + [ev], |s| + 1) == if ev.Done? then ev.refusal else Refused(s, |s|)
    ensures var u := UsageOf(s, |s|);
            UsageOf(s + [ev], |s| + 1) ==
            if ev.Done? then Usage(u.input + ev.usage.input, u.output + ev.usage.output) else u
  {
    StreamPrefix(s, s + [ev], |s|);
    assert (s + [ev])[|s|] == ev;
    AtEnd(s + [ev], |s| + 1);
  }

  lemma AtEnd(t: seq<Event>, n: nat)
    requires 0 < n == |t|
    ensures TextOf(t, n) == TextOf(t, n - 1) + if t[n - 1].Text? then t[n - 1].text else ""
    ensures CallsOf(t, n) == if t[n - 1].Calls? then t[n - 1].calls else CallsOf(t, n - 1)
    ensures Refused(t, n) == if t[n - 1].Done? then t[n - 1].refusal else Refused(t, n - 1)
    ensures UsageOf(t, n) == if t[n - 1].Done? then UsageOf(t, n - 1).Plus(t[n - 1].usage) else UsageOf(t, n - 1)
  {}

  // ---- which calls are run ----

  /** The calls before the `n`-th that name a tool there is. */
  function KnownBefore(names: set<Id>, calls: seq<Call>, n: nat): set<int>
    requires n <= |calls|
  {
    set j | 0 <= j < n && calls[j].name in names
  }

  lemma {:induction false} RunCountIs(names: set<Id>, allowed: nat, calls: seq<Call>, n: nat)
    requires n <= |calls|
    ensures RunCount(names, allowed, calls, n) == Min(allowed, |KnownBefore(names, calls, n)|)
  {
    if n > 0 {
      RunCountIs(names, allowed, calls, n - 1);
      var before := KnownBefore(names, calls, n - 1);
      assert KnownBefore(names, calls, n) == before + if calls[n - 1].name in names then {n - 1} else {};
    }
  }

  /**
   A call is run exactly when its tool exists and fewer calls to existing tools come before it than the budget has.
   */
  lemma RunExactly(names: set<Id>, allowed: nat, calls: seq<Call>, i: nat)
    requires i < |calls|
    ensures IsRun(names, allowed, calls, i) <==>
            calls[i].name in names && |KnownBefore(names, calls, i)| < allowed
  {
    RunCountIs(names, allowed, calls, i);
  }

  /** The names of the calls to existing tools, in call order. */
  function KnownNames(names: set<Id>, calls: seq<Call>, n: nat): seq<Id>
    requires n <= |calls|
  {
    if n == 0 then []
    else KnownNames(names, calls, n - 1) + if calls[n - 1].name in names then [calls[n - 1].name] else []
  }

  lemma {:induction false} KnownSize(names: set<Id>, calls: seq<Call>, n: nat)
    requires n <= |calls|
    ensures |KnownNames(names, calls, n)| == |KnownBefore(names, calls, n)|
  {
    if n > 0 {
      KnownSize(names, calls, n - 1);
      var before := KnownBefore(names, calls, n - 1);
      assert KnownBefore(names, calls, n) == before + if calls[n - 1].name in names then {n - 1} else {};
    }
  }

  lemma {:induction false} NamesPrefix(calls: seq<Call>, a: seq<nat>, b: seq<nat>, n: nat)
    requires n <= |a| && a <= b && ValidTasks(calls, a) && ValidTasks(calls, b)
    ensures Names(calls, a, n) == Names(calls, b, n)
  {
    if n > 0 {
      NamesPrefix(calls, a, b, n - 1);
    }
  }

  function FirstOf(s: seq<Id>, k: nat): seq<Id> {
    if k <= |s| then s[..k] else s
  }

  lemma FirstMore(s: seq<Id>, x: Id, k: nat)
    ensures FirstOf(s + [x], k) == if |s| < k then FirstOf(s, k) + [x] else FirstOf(s, k)
  {}

  lemma NamesMore(calls: seq<Call>, tasks: seq<nat>, i: nat)
    requires ValidTasks(calls, tasks) && i < |calls|
    ensures ValidTasks(calls, tasks + [i])
    ensures Names(calls, tasks + [i], |tasks| + 1) == Names(calls, tasks, |tasks|) + [calls[i].name]
  {
    NamesPrefix(calls, tasks, tasks + [i], |tasks|);
  }

  /** The tools a round uses are the first of those it names, as many as the budget has. */
  lemma {:induction false} UsedAre(names: set<Id>, allowed: nat, calls: seq<Call>, n: nat)
    requires n <= |calls|
    ensures var tasks := RunList(names, allowed, calls, n);
            Names(calls, tasks, |tasks|) == FirstOf(KnownNames(names, calls, n), allowed)
  {
    hide IsRun, FirstOf, KnownBefore, Names, KnownNames, RunList;
    if n == 0 {
      NothingUsed(names, allowed, calls);
    } else {
      UsedAre(names, allowed, calls, n - 1);
      RunExactly(names, allowed, calls, n - 1);
      KnownSize(names, calls, n - 1);
      RunNext(names, allowed, calls, n - 1);
      var tasks := RunList(names, allowed, calls, n - 1);
      NamesMore(calls, tasks, n - 1);
      FirstMore(KnownNames(names, calls, n - 1), calls[n - 1].name, allowed);
    }
  }

  lemma RunNext(names: set<Id>, allowed: nat, calls: seq<Call>, n: nat)
    requires n < |calls|
    ensures RunList(names, allowed, calls, n + 1) ==
            if IsRun(names, allowed, calls, n) then RunList(names, allowed, calls, n) + [n]
            else RunList(names, allowed, calls, n)
    ensures KnownNames(names, calls, n + 1) ==
            if calls[n].name in names then KnownNames(names, calls, n) + [calls[n].name]
            else KnownNames(names, calls, n)
  {
    hide IsRun;
  }

  lemma NothingUsed(names: set<Id>, allowed: nat, calls: seq<Call>)
    ensures RunList(names, allowed, calls, 0) == [] && KnownNames(names, calls, 0) == []
    ensures Names(calls, [], 0) == FirstOf([], allowed)
  {}

  // ---- one round ----

  /**
   How a call of a round is answered: by its tool within the budget, otherwise with the notice that it was not run.
   */
  function AnswerTo(e: Env, round: nat, allowed: nat, calls: seq<Call>, i: nat): Answer
    requires i < |calls|
  {
    var c := calls[i];
    if c.name in e.names && |KnownBefore(e.names, calls, i)| < allowed then
      Answer(c.id, c.name, e.tool(round, i, c), false)
    else Answer(c.id, c.name, e.tooMany(c.name), true)
  }

  /**
   A round adds the model's turn, as the provider streams it for the conversation so far. Without calls that ends the
   reply. With calls it adds their answers, uses the tools that ran and ends the reply only on a refusal.
   */
  lemma RoundExactly(e: Env, c: Chat, round: nat)
    requires OrdersValid(e) && !c.over
    ensures var s, r := e.provider(true, c.turns), Round(e, c, round);
            var text, calls, allowed := TextOf(s, |s|), CallsOf(s, |s|), Max(e.cap - |c.used|, 0);
            && |r.turns| > |c.turns| && r.turns[..|c.turns| + 1] == c.turns + [Assistant(text, calls)]
            && r.answered == (c.answered || text != "") && r.over == (calls == [] || Refused(s, |s|))
            && r.refused == (if calls == [] then c.refused else Refused(s, |s|))
            && |r.turns| == |c.turns| + (if calls == [] then 1 else 2)
            && r.used == (if calls == [] then c.used
                          else c.used + FirstOf(KnownNames(e.names, calls, |calls|), allowed))
    ensures var s, r := e.provider(true, c.turns), Round(e, c, round);
            var calls, allowed := CallsOf(s, |s|), Max(e.cap - |c.used|, 0);
            calls != [] ==>
              && |r.turns| == |c.turns| + 2 && r.turns[|c.turns| + 1].Results?
              && |r.turns[|c.turns| + 1].results| == |calls|
              && (DistinctIds(calls) ==>
                    forall i :: 0 <= i < |calls| ==>
                      r.turns[|c.turns| + 1].results[i] == AnswerTo(e, round, allowed, calls, i))
  {
    hide TextOf, CallsOf, UsageOf, Refused, IsOrder, Names, RunList, Gathered, DistinctIds, KnownNames, AnswerTo;
    var s := e.provider(true, c.turns);
    var calls := CallsOf(s, |s|);
    var allowed := Allowed(e, Listen(e, c));
    if calls != [] {
      UsedAre(e.names, allowed, calls, |calls|);
      var order := e.order(round, RunCount(e.names, allowed, calls, |calls|));
      if DistinctIds(calls) {
        forall i | 0 <= i < |calls|
          ensures Gathered(e, round, allowed, calls, order)[i] == AnswerTo(e, round, allowed, calls, i)
        {
          AnsweredBy(e, round, allowed, calls, order, i);
        }
      }
    }
  }

  lemma AnsweredBy(e: Env, round: nat, allowed: nat, calls: seq<Call>, order: seq<nat>, i: nat)
    requires IsOrder(order, RunCount(e.names, allowed, calls, |calls|)) && i < |calls| && DistinctIds(calls)
    ensures Gathered(e, round, allowed, calls, order)[i] == AnswerTo(e, round, allowed, calls, i)
  {
    hide IsRun, Gathered, IsOrder, DistinctIds, KnownBefore;
    EachItsOwn(e, round, allowed, calls, order, i);
    RunExactly(e.names, allowed, calls, i);
  }

  // ---- the whole reply ----

  /** What the model said at turn `k` is what the provider streams for the turns before it. */
  predicate SaidAt(e: Env, turns: seq<Turn>, k: nat)
    requires k < |turns|
  {
    var s := e.provider(true, turns[..k]);
    turns[k].Assistant? ==> turns[k] == Assistant(TextOf(s, |s|), CallsOf(s, |s|))
  }

  /** Some turn of the model from `start` on has text. */
  ghost predicate Spoke(turns: seq<Turn>, start: nat) {
    exists k :: start <= k < |turns| && turns[k].Assistant? && turns[k].text != ""
  }

  ghost predicate Faithful(e: Env, turns: seq<Turn>, c: Chat, n: nat) {
    && turns <= c.turns
    && (forall k: nat :: |turns| <= k < |c.turns| ==> SaidAt(e, c.turns, k))
    && (c.answered <==> Spoke(c.turns, |turns|))
    && (!c.over ==> |c.turns| == |turns| + 2 * n && !c.refused)
    && (c.over ==> |turns| < |c.turns| <= |turns| + 2 * n)
    && (c.over ==> (c.refused <==> c.turns[|c.turns| - 1].Results?))
  }

  lemma SaidBefore(e: Env, a: seq<Turn>, b: seq<Turn>, k: nat)
    requires k < |a| && a <= b && SaidAt(e, a, k)
    ensures SaidAt(e, b, k)
  {
    hide TextOf, CallsOf;
    assert a[..k] == b[..k];
  }

  lemma RoundFaithful(e: Env, turns: seq<Turn>, c: Chat, round: nat)
    requires OrdersValid(e) && Faithful(e, turns, c, round)
    ensures Faithful(e, turns, Round(e, c, round), round + 1)
  {
    hide Round, TextOf, CallsOf, Refused, KnownNames, FirstOf, AnswerTo, DistinctIds, SaidAt, OrdersValid;
    var r := Round(e, c, round);
    if c.over {
      OverRests(e, c, round);
    } else {
      RoundExactly(e, c, round);
      var s := e.provider(true, c.turns);
      var m := |c.turns|;
      assert r.turns[m] == (r.turns[..m + 1])[m] == Assistant(TextOf(s, |s|), CallsOf(s, |s|));
      assert c.turns <= r.turns by { assert r.turns[..m + 1][..m] == c.turns; }
      forall k: nat | |turns| <= k < |r.turns| ensures SaidAt(e, r.turns, k) {
        if k < m {
          SaidBefore(e, c.turns, r.turns, k);
        } else {
          SaidNow(e, c.turns, r.turns, k);
        }
      }
      SpokeMore(c.turns, r.turns, |turns|);
    }
  }

  lemma OverRests(e: Env, c: Chat, round: nat)
    requires OrdersValid(e) && c.over
    ensures Round(e, c, round) == c
  {}

  lemma SaidNow(e: Env, a: seq<Turn>, b: seq<Turn>, k: nat)
    requires a <= b && |a| <= k < |b| && (k > |a| ==> b[k].Results?)
    requires var s := e.provider(true, a);
             b[|a|] == Assistant(TextOf(s, |s|), CallsOf(s, |s|))
    ensures SaidAt(e, b, k)
  {
    hide TextOf, CallsOf;
    assert b[..|a|] == a;
  }

  lemma SpokeMore(a: seq<Turn>, b: seq<Turn>, start: nat)
    requires a <= b && start <= |a| < |b| <= |a| + 2 && b[|a|].Assistant? && (|b| == |a| + 2 ==> b[|a| + 1].Results?)
    ensures Spoke(b, start) <==> Spoke(a, start) || b[|a|].text != ""
  {
    if Spoke(a, start) {
      var k :| start <= k < |a| && a[k].Assistant? && a[k].text != "";
      assert b[k] == a[k];
    }
    if Spoke(b, start) {
      var k :| start <= k < |b| && b[k].Assistant? && b[k].text != "";
      if k < |a| { assert a[k] == b[k]; }
    }
  }

  lemma {:induction false} RoundsFaithful(e: Env, turns: seq<Turn>, n: nat)
    requires OrdersValid(e)
    ensures Faithful(e, turns, Rounds(e, turns, n), n)
  {
    hide Round, OrdersValid, SaidAt;
    if n > 0 {
      RoundsFaithful(e, turns, n - 1);
      RoundFaithful(e, turns, Rounds(e, turns, n - 1), n - 1);
    }
  }

  /**
   Whatever the model said in a reply is what the provider streams for the turns before it, in at most five turns. A
   last stream without tools is asked for exactly when tools were used, no turn has text and the reply was not
   refused; it adds to the usage and to nothing else.
   */
  lemma ReplyExactly(e: Env, turns: seq<Turn>)
    requires OrdersValid(e)
    ensures var r, c := Reply(e, turns), Rounds(e, turns, 5);
            var s := e.provider(false, c.turns);
            && turns <= r.turns && |r.turns| <= |turns| + 10
            && (forall k: nat :: |turns| <= k < |r.turns| ==> SaidAt(e, r.turns, k))
            && r == c.(usage := if c.used != [] && !Spoke(c.turns, |turns|) && !c.refused
                                then Usage(c.usage.input + UsageOf(s, |s|).input,
                                           c.usage.output + UsageOf(s, |s|).output)
                                else c.usage)
            && (c.refused <==> c.over && c.turns != [] && c.turns[|c.turns| - 1].Results?)
  {
    hide Rounds, UsageOf, SaidAt, Spoke, OrdersValid;
    RoundsFaithful(e, turns, 5);
  }
}
