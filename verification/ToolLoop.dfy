module ToolLoop {
  /**
   One reply of the assistant: rounds of a model turn and, where that asks for tools, a turn with their results. The
   provider, the tools and the order in which concurrent tools finish are parameters.
   */
  import opened Util

  const MAX_ROUNDS: nat := 5

  datatype Call = Call(id: Id, name: Id, args: Id)

  datatype Answer = Answer(id: Id, name: Id, content: string, isError: bool)

  datatype Turn = User(text: string) | Assistant(text: string, calls: seq<Call>) | Results(results: seq<Answer>)

  datatype Usage = Usage(input: nat, output: nat) {
    function Plus(u: Usage): Usage { Usage(input + u.input, output + u.output) }
  }

  datatype Event = Text(text: string) | Calls(calls: seq<Call>) | Done(usage: Usage, refusal: bool)

  /**
   What the loop cannot see into: the stream a provider answers with (with or without tools on offer), what the
   `i`-th call of a round returns, and the order in which the `n` tools of a round finish.
   */
  datatype Env = Env(provider: (bool, seq<Turn>) -> seq<Event>, tool: (nat, nat, Call) -> string,
                     order: (nat, nat) -> seq<nat>, names: set<Id>, tooMany: Id -> string, cap: int)

  // ---- one stream ----

  function TextOf(s: seq<Event>, n: nat): string
    requires n <= |s|
  {
    if n == 0 then "" else TextOf(s, n - 1) + if s[n - 1].Text? then s[n - 1].text else ""
  }

  /** The last list of calls wins. */
  function CallsOf(s: seq<Event>, n: nat): seq<Call>
    requires n <= |s|
  {
    if n == 0 then [] else if s[n - 1].Calls? then s[n - 1].calls else CallsOf(s, n - 1)
  }

  function UsageOf(s: seq<Event>, n: nat): Usage
    requires n <= |s|
  {
    if n == 0 then Usage(0, 0) else if s[n - 1].Done? then UsageOf(s, n - 1).Plus(s[n - 1].usage) else UsageOf(s, n - 1)
  }

  predicate Refused(s: seq<Event>, n: nat)
    requires n <= |s|
  {
    n > 0 && if s[n - 1].Done? then s[n - 1].refusal else Refused(s, n - 1)
  }

  // ---- one round of calls ----

  /** How many of the first `n` calls are run. */
  function RunCount(names: set<Id>, allowed: nat, calls: seq<Call>, n: nat): (c: nat)
    requires n <= |calls|
    ensures c <= allowed && c <= n
  {
    if n == 0 then 0
    else
      var c := RunCount(names, allowed, calls, n - 1);
      if calls[n - 1].name in names && c < allowed then c + 1 else c
  }

  /** A call is run when its tool exists and the budget is not used up. */
  predicate IsRun(names: set<Id>, allowed: nat, calls: seq<Call>, i: nat)
    requires i < |calls|
  {
    calls[i].name in names && RunCount(names, allowed, calls, i) < allowed
  }

  /** The positions of the calls that are run. */
  function RunList(names: set<Id>, allowed: nat, calls: seq<Call>, n: nat): (r: seq<nat>)
    requires n <= |calls|
    ensures |r| == RunCount(names, allowed, calls, n)
    ensures forall t :: 0 <= t < |r| ==> r[t] < n && IsRun(names, allowed, calls, r[t])
    ensures forall i :: 0 <= i < n && IsRun(names, allowed, calls, i) ==> i in r
  {
    if n == 0 then []
    else RunList(names, allowed, calls, n - 1) + if IsRun(names, allowed, calls, n - 1) then [n - 1] else []
  }

  function Ran(e: Env, round: nat, calls: seq<Call>, i: nat): Answer
    requires i < |calls|
  {
    Answer(calls[i].id, calls[i].name, e.tool(round, i, calls[i]), false)
  }

  function NotRun(e: Env, c: Call): Answer {
    Answer(c.id, c.name, e.tooMany(c.name), true)
  }

  /** The results written while the calls are gone through: one for each call that is not run. */
  function Skipped(e: Env, allowed: nat, calls: seq<Call>, n: nat): map<Id, Answer>
    requires n <= |calls|
  {
    if n == 0 then map[]
    else
      var m := Skipped(e, allowed, calls, n - 1);
      if IsRun(e.names, allowed, calls, n - 1) then m else m[calls[n - 1].id := NotRun(e, calls[n - 1])]
  }

  /** The results once the first `k` tools of the completion order have finished. */
  function Completed(e: Env, round: nat, calls: seq<Call>, m: map<Id, Answer>, tasks: seq<nat>, order: seq<nat>,
                     k: nat): map<Id, Answer>
    requires k <= |order| && ValidTasks(calls, tasks) && IsOrder(order, |tasks|)
  {
    if k == 0 then m
    else
      var i := tasks[order[k - 1]];
      Completed(e, round, calls, m, tasks, order, k - 1)[calls[i].id := Ran(e, round, calls, i)]
  }

  predicate ValidTasks(calls: seq<Call>, tasks: seq<nat>) {
    forall t :: 0 <= t < |tasks| ==> tasks[t] < |calls|
  }

  /** Each of the `n` tools finishes once. */
  predicate IsOrder(order: seq<nat>, n: nat) {
    && |order| == n
    && (forall t :: 0 <= t < n ==> order[t] < n)
    && (forall t :: 0 <= t < n ==> t in order)
    && (forall s, t :: 0 <= s < t < n ==> order[s] != order[t])
  }

  function Book(e: Env, round: nat, allowed: nat, calls: seq<Call>, order: seq<nat>): map<Id, Answer>
    requires IsOrder(order, RunCount(e.names, allowed, calls, |calls|))
  {
    Completed(e, round, calls, Skipped(e, allowed, calls, |calls|), RunList(e.names, allowed, calls, |calls|), order,
              |order|)
  }

  /** The results turn: one result for each call, in call order. */
  function Gathered(e: Env, round: nat, allowed: nat, calls: seq<Call>, order: seq<nat>): (r: seq<Answer>)
    requires IsOrder(order, RunCount(e.names, allowed, calls, |calls|))
    ensures |r| == |calls|
  {
    seq(|calls|, i requires 0 <= i < |calls| =>
      var found := Get(Book(e, round, allowed, calls, order), calls[i].id);
      if found.Some? then found.value else NotRun(e, calls[i]))
  }

  // ---- the results turn does not depend on the order ----

  /** Call `j` is run, under the given id. */
  predicate RunUnder(e: Env, allowed: nat, calls: seq<Call>, j: nat, id: Id) {
    j < |calls| && IsRun(e.names, allowed, calls, j) && calls[j].id == id
  }

  lemma {:induction false} SkippedAt(e: Env, allowed: nat, calls: seq<Call>, n: nat, id: Id)
    requires n <= |calls|
    ensures var m := Skipped(e, allowed, calls, n);
            if id in m then
              exists j :: && 0 <= j < n && !IsRun(e.names, allowed, calls, j)
                          && calls[j].id == id && m[id] == NotRun(e, calls[j])
            else forall j :: 0 <= j < n && calls[j].id == id ==> IsRun(e.names, allowed, calls, j)
  {
    hide IsRun, NotRun;
    if n > 0 {
      SkippedAt(e, allowed, calls, n - 1, id);
    }
  }

  /** Tool number `s` to finish was run under `id`. */
  predicate FinishedUnder(calls: seq<Call>, tasks: seq<nat>, order: seq<nat>, s: nat, id: Id)
    requires ValidTasks(calls, tasks) && IsOrder(order, |tasks|)
  {
    s < |order| && calls[tasks[order[s]]].id == id
  }

  /** The entry under `id` is that of the last finished of the tools run under it. */
  lemma {:induction false} CompletedAt(e: Env, round: nat, calls: seq<Call>, m: map<Id, Answer>, tasks: seq<nat>,
                                       order: seq<nat>, k: nat, id: Id)
    returns (last: Option<nat>)
    requires k <= |order| && ValidTasks(calls, tasks) && IsOrder(order, |tasks|)
    ensures last.None? ==> forall s :: 0 <= s < k ==> !FinishedUnder(calls, tasks, order, s, id)
    ensures last.Some? ==> last.value < k && FinishedUnder(calls, tasks, order, last.value, id)
                           && forall s :: last.value < s < k ==> !FinishedUnder(calls, tasks, order, s, id)
    ensures Get(Completed(e, round, calls, m, tasks, order, k), id) ==
            if last.Some? then Some(Ran(e, round, calls, tasks[order[last.value]])) else Get(m, id)
  {
    hide Ran;
    if k == 0 {
      last := None;
    } else if calls[tasks[order[k - 1]]].id == id {
      last := Some(k - 1);
    } else {
      last := CompletedAt(e, round, calls, m, tasks, order, k - 1, id);
    }
  }

  lemma TaskOf(e: Env, allowed: nat, calls: seq<Call>, order: seq<nat>, j: nat) returns (s: nat)
    requires IsOrder(order, RunCount(e.names, allowed, calls, |calls|)) && j < |calls|
    requires IsRun(e.names, allowed, calls, j)
    ensures s < |order| && RunList(e.names, allowed, calls, |calls|)[order[s]] == j
  {
    hide IsRun;
    var tasks := RunList(e.names, allowed, calls, |calls|);
    assert j in tasks;
    var t :| 0 <= t < |tasks| && tasks[t] == j;
    assert t in order;
    s :| 0 <= s < |order| && order[s] == t;
  }

  /** What is booked under an id: the last finished of the calls run under it, else what was skipped. */
  lemma Booked(e: Env, round: nat, allowed: nat, calls: seq<Call>, order: seq<nat>, id: Id) returns (j: Option<nat>)
    requires IsOrder(order, RunCount(e.names, allowed, calls, |calls|))
    ensures j.None? ==> forall k :: 0 <= k < |calls| ==> !RunUnder(e, allowed, calls, k, id)
    ensures j.Some? ==> RunUnder(e, allowed, calls, j.value, id)
    ensures Get(Book(e, round, allowed, calls, order), id) ==
            if j.Some? then Some(Ran(e, round, calls, j.value)) else Get(Skipped(e, allowed, calls, |calls|), id)
  {
    hide IsRun, Ran, NotRun, Completed, Skipped, IsOrder;
    var tasks := RunList(e.names, allowed, calls, |calls|);
    OrderInRange(order, |tasks|);
    var last := CompletedAt(e, round, calls, Skipped(e, allowed, calls, |calls|), tasks, order, |order|, id);
    j := if last.Some? then Some(tasks[order[last.value]]) else None;
    forall k: nat | k < |calls| && RunUnder(e, allowed, calls, k, id) ensures last.Some? {
      var s := TaskOf(e, allowed, calls, order, k);
      assert FinishedUnder(calls, tasks, order, s, id);
    }
  }

  lemma OrderInRange(order: seq<nat>, n: nat)
    requires IsOrder(order, n)
    ensures |order| == n && forall t :: 0 <= t < n ==> order[t] < n
  {}

  /** Every result answers its call's id, with a call that was run if any was run under it. */
  lemma GatheredAt(e: Env, round: nat, allowed: nat, calls: seq<Call>, order: seq<nat>, i: nat) returns (j: Option<nat>)
    requires IsOrder(order, RunCount(e.names, allowed, calls, |calls|)) && i < |calls|
    ensures Gathered(e, round, allowed, calls, order)[i].id == calls[i].id
    ensures j.None? ==> forall k :: 0 <= k < |calls| ==> !RunUnder(e, allowed, calls, k, calls[i].id)
    ensures j.Some? ==> RunUnder(e, allowed, calls, j.value, calls[i].id)
    ensures var skipped := Skipped(e, allowed, calls, |calls|);
            j.None? ==> calls[i].id in skipped && Gathered(e, round, allowed, calls, order)[i] == skipped[calls[i].id]
    ensures j.Some? ==> Gathered(e, round, allowed, calls, order)[i] == Ran(e, round, calls, j.value)
  {
    hide IsRun, Book, IsOrder, Skipped;
    j := Booked(e, round, allowed, calls, order, calls[i].id);
    SkippedAt(e, allowed, calls, |calls|, calls[i].id);
    assert j.None? ==> !RunUnder(e, allowed, calls, i, calls[i].id);
  }

  /** Calls run under one id return the same. Distinct ids make this trivially so. */
  ghost predicate RunsAgree(e: Env, round: nat, allowed: nat, calls: seq<Call>) {
    forall i, j :: && 0 <= i < |calls| && RunUnder(e, allowed, calls, i, calls[i].id)
                   && RunUnder(e, allowed, calls, j, calls[i].id) ==>
      Ran(e, round, calls, i) == Ran(e, round, calls, j)
  }

  predicate DistinctIds(calls: seq<Call>) {
    forall i, j :: 0 <= i < j < |calls| ==> calls[i].id != calls[j].id
  }

  lemma DistinctAgree(e: Env, round: nat, allowed: nat, calls: seq<Call>)
    requires DistinctIds(calls)
    ensures RunsAgree(e, round, allowed, calls)
  {
    hide IsRun, Ran;
  }

  /** With distinct ids every call gets its own result, whatever order the tools finish in. */
  lemma EachItsOwn(e: Env, round: nat, allowed: nat, calls: seq<Call>, order: seq<nat>, i: nat)
    requires IsOrder(order, RunCount(e.names, allowed, calls, |calls|)) && i < |calls| && DistinctIds(calls)
    ensures Gathered(e, round, allowed, calls, order)[i] ==
            if IsRun(e.names, allowed, calls, i) then Ran(e, round, calls, i) else NotRun(e, calls[i])
  {
    hide IsRun, Gathered, Ran, NotRun, IsOrder, Skipped;
    var j := GatheredAt(e, round, allowed, calls, order, i);
    SkippedAt(e, allowed, calls, |calls|, calls[i].id);
    assert j.None? ==> !RunUnder(e, allowed, calls, i, calls[i].id);
  }

  lemma AgreeingRunsConfluent(e: Env, round: nat, allowed: nat, calls: seq<Call>, p: seq<nat>, q: seq<nat>)
    requires IsOrder(p, RunCount(e.names, allowed, calls, |calls|))
    requires IsOrder(q, RunCount(e.names, allowed, calls, |calls|))
    requires RunsAgree(e, round, allowed, calls)
    ensures Gathered(e, round, allowed, calls, p) == Gathered(e, round, allowed, calls, q)
  {
    hide IsRun, Gathered, Ran, NotRun, IsOrder, Skipped;
    var a, b := Gathered(e, round, allowed, calls, p), Gathered(e, round, allowed, calls, q);
    forall i | 0 <= i < |calls| ensures a[i] == b[i] {
      var j := GatheredAt(e, round, allowed, calls, p, i);
      var k := GatheredAt(e, round, allowed, calls, q, i);
      assert j.Some? <==> k.Some?;
      assert j.Some? ==> RunUnder(e, allowed, calls, k.value, calls[j.value].id);
    }
  }

  /** An order in which tool `t` is the last to finish. */
  function Last(n: nat, t: nat): (order: seq<nat>)
    requires t < n
    ensures |order| == n && order[n - 1] == t
  {
    seq(n, k requires 0 <= k < n => if k < t then k else if k == n - 1 then t else k + 1)
  }

  lemma LastIsOrder(n: nat, t: nat)
    requires t < n
    ensures IsOrder(Last(n, t), n)
  {
    var s := Last(n, t);
    forall x | 0 <= x < n ensures x in s {
      var at := if x < t then x else if x == t then n - 1 else x - 1;
      assert s[at] == x;
    }
  }

  lemma LastWins(e: Env, round: nat, allowed: nat, calls: seq<Call>, t: nat, i: nat)
    requires t < RunCount(e.names, allowed, calls, |calls|) && i < |calls|
    requires calls[RunList(e.names, allowed, calls, |calls|)[t]].id == calls[i].id
    ensures var tasks := RunList(e.names, allowed, calls, |calls|);
            var order := Last(|tasks|, t);
            IsOrder(order, |tasks|) && Gathered(e, round, allowed, calls, order)[i] == Ran(e, round, calls, tasks[t])
  {
    hide IsRun, Ran, NotRun, Last, Skipped, IsOrder;
    var tasks := RunList(e.names, allowed, calls, |calls|);
    var order := Last(|tasks|, t);
    LastIsOrder(|tasks|, t);
    OrderInRange(order, |tasks|);
    var last := CompletedAt(e, round, calls, Skipped(e, allowed, calls, |calls|), tasks, order, |order|, calls[i].id);
    assert FinishedUnder(calls, tasks, order, |order| - 1, calls[i].id);
  }

  /** The results turn is the same for every completion order exactly when calls run under one id return the same. */
  lemma ConfluentExactly(e: Env, round: nat, allowed: nat, calls: seq<Call>)
    ensures RunsAgree(e, round, allowed, calls) <==>
            forall p, q :: && IsOrder(p, RunCount(e.names, allowed, calls, |calls|))
                           && IsOrder(q, RunCount(e.names, allowed, calls, |calls|)) ==>
              Gathered(e, round, allowed, calls, p) == Gathered(e, round, allowed, calls, q)
  {
    hide IsRun, Ran, NotRun, Gathered, IsOrder, Last;
    if RunsAgree(e, round, allowed, calls) {
      forall p, q | && IsOrder(p, RunCount(e.names, allowed, calls, |calls|))
                    && IsOrder(q, RunCount(e.names, allowed, calls, |calls|))
        ensures Gathered(e, round, allowed, calls, p) == Gathered(e, round, allowed, calls, q)
      {
        AgreeingRunsConfluent(e, round, allowed, calls, p, q);
      }
    } else {
      var tasks := RunList(e.names, allowed, calls, |calls|);
      var i, j :| && 0 <= i < |calls| && RunUnder(e, allowed, calls, i, calls[i].id)
                  && RunUnder(e, allowed, calls, j, calls[i].id)
                  && Ran(e, round, calls, i) != Ran(e, round, calls, j);
      assert i in tasks && j in tasks;
      var s :| 0 <= s < |tasks| && tasks[s] == i;
      var t :| 0 <= t < |tasks| && tasks[t] == j;
      LastWins(e, round, allowed, calls, s, i);
      LastWins(e, round, allowed, calls, t, i);
    }
  }

  lemma BothRun(names: set<Id>, c: Call)
    requires c.name in names
    ensures RunCount(names, 2, [c, c], 2) == 2 && RunList(names, 2, [c, c], 2) == [0, 1]
  {
    assert RunCount(names, 2, [c, c], 0) == 0 && RunCount(names, 2, [c, c], 1) == 1;
    assert RunList(names, 2, [c, c], 0) == [] && RunList(names, 2, [c, c], 1) == [0];
  }

  /** Two calls under one id whose tools return different things: both get what the last to finish returns. */
  lemma SharedIdRaces(e: Env, round: nat, c: Call)
    requires c.name in e.names && e.tool(round, 0, c) != e.tool(round, 1, c)
    ensures IsOrder([0, 1], 2) && IsOrder([1, 0], 2) && RunCount(e.names, 2, [c, c], 2) == 2
    ensures Gathered(e, round, 2, [c, c], [0, 1])[0] == Ran(e, round, [c, c], 1)
    ensures Gathered(e, round, 2, [c, c], [1, 0])[0] == Ran(e, round, [c, c], 0)
    ensures Ran(e, round, [c, c], 0) != Ran(e, round, [c, c], 1)
  {
    hide Gathered, RunCount, RunList, IsRun, Last, IsOrder;
    BothRun(e.names, c);
    LastOfTwo();
    LastWins(e, round, 2, [c, c], 0, 0);
    LastWins(e, round, 2, [c, c], 1, 0);
  }

  lemma LastOfTwo()
    ensures Last(2, 0) == [1, 0] && Last(2, 1) == [0, 1]
    ensures IsOrder([0, 1], 2) && IsOrder([1, 0], 2)
  {
    LastIsOrder(2, 0);
    LastIsOrder(2, 1);
  }

  // ---- the whole reply ----

  datatype Chat = Chat(turns: seq<Turn>, used: seq<Id>, usage: Usage, answered: bool, refused: bool, over: bool)

  function Names(calls: seq<Call>, tasks: seq<nat>, n: nat): (r: seq<Id>)
    requires n <= |tasks| && ValidTasks(calls, tasks)
    ensures |r| == n
  {
    if n == 0 then [] else Names(calls, tasks, n - 1) + [calls[tasks[n - 1]].name]
  }

  ghost predicate OrdersValid(e: Env) {
    forall r, n :: IsOrder(e.order(r, n), n)
  }

  function Allowed(e: Env, c: Chat): nat {
    Max(e.cap - |c.used|, 0)
  }

  /** The calls of a round: the names run and the results turn. */
  ghost function RunCalls(e: Env, c: Chat, round: nat, calls: seq<Call>): Chat
    requires OrdersValid(e)
  {
    var allowed := Allowed(e, c);
    var tasks := RunList(e.names, allowed, calls, |calls|);
    c.(turns := c.turns + [Results(Gathered(e, round, allowed, calls, e.order(round, |tasks|)))],
       used := c.used + Names(calls, tasks, |tasks|))
  }

  /** The turn the model takes. */
  function Listen(e: Env, c: Chat): Chat {
    var s := e.provider(true, c.turns);
    var text := TextOf(s, |s|);
    c.(turns := c.turns + [Assistant(text, CallsOf(s, |s|))], usage := c.usage.Plus(UsageOf(s, |s|)),
       answered := c.answered || text != "")
  }

  ghost function Round(e: Env, c: Chat, round: nat): Chat
    requires OrdersValid(e)
  {
    if c.over then c
    else
      var s := e.provider(true, c.turns);
      var calls := CallsOf(s, |s|);
      var heard := Listen(e, c);
      if calls == [] then heard.(over := true)
      else RunCalls(e, heard, round, calls).(refused := Refused(s, |s|), over := Refused(s, |s|))
  }

  ghost function Rounds(e: Env, turns: seq<Turn>, n: nat): Chat
    requires OrdersValid(e)
  {
    if n == 0 then Chat(turns, [], Usage(0, 0), false, false, false) else Round(e, Rounds(e, turns, n - 1), n - 1)
  }

  /** One last stream without tools when tools were run and nothing was said. */
  predicate AsksAgain(c: Chat) {
    !c.answered && !c.refused && c.used != []
  }

  ghost function Reply(e: Env, turns: seq<Turn>): Chat
    requires OrdersValid(e)
  {
    var c := Rounds(e, turns, MAX_ROUNDS);
    if AsksAgain(c) then
      var s := e.provider(false, c.turns);
      c.(usage := c.usage.Plus(UsageOf(s, |s|)))
    else c
  }

  // ---- confluence over the whole reply ----

  /** The same provider, tools and budget; only the completion order may differ. */
  ghost predicate SameButOrder(a: Env, b: Env) {
    a.provider == b.provider && a.tool == b.tool && a.names == b.names && a.tooMany == b.tooMany && a.cap == b.cap
  }

  /** Provider adapters give every call of a stream its own id. */
  ghost predicate DistinctCallIds(e: Env) {
    forall offered, turns :: DistinctIds(CallsOf(e.provider(offered, turns), |e.provider(offered, turns)|))
  }

  /** Calls run under one id return the same in whatever round they come. */
  ghost predicate AlwaysAgree(e: Env) {
    forall offered, turns, round, allowed ::
      RunsAgree(e, round, allowed, CallsOf(e.provider(offered, turns), |e.provider(offered, turns)|))
  }

  /** So they do where every call has an id of its own. */
  lemma DistinctAlwaysAgree(e: Env)
    requires DistinctCallIds(e)
    ensures AlwaysAgree(e)
  {
    hide RunsAgree, DistinctIds, CallsOf;
    forall offered, turns, round, allowed
      ensures RunsAgree(e, round, allowed, CallsOf(e.provider(offered, turns), |e.provider(offered, turns)|))
    {
      DistinctAgree(e, round, allowed, CallsOf(e.provider(offered, turns), |e.provider(offered, turns)|));
    }
  }

  lemma {:induction false} SameCompleted(a: Env, b: Env, round: nat, calls: seq<Call>, m: map<Id, Answer>,
                                         tasks: seq<nat>, order: seq<nat>, k: nat)
    requires SameButOrder(a, b) && k <= |order| && ValidTasks(calls, tasks) && IsOrder(order, |tasks|)
    ensures Completed(a, round, calls, m, tasks, order, k) == Completed(b, round, calls, m, tasks, order, k)
  {
    if k > 0 {
      SameCompleted(a, b, round, calls, m, tasks, order, k - 1);
    }
  }

  lemma {:induction false} SameSkipped(a: Env, b: Env, allowed: nat, calls: seq<Call>, n: nat)
    requires SameButOrder(a, b) && n <= |calls|
    ensures Skipped(a, allowed, calls, n) == Skipped(b, allowed, calls, n)
  {
    hide IsRun;
    if n > 0 {
      SameSkipped(a, b, allowed, calls, n - 1);
    }
  }

  lemma GatheredSame(a: Env, b: Env, round: nat, allowed: nat, calls: seq<Call>, p: seq<nat>, q: seq<nat>)
    requires SameButOrder(a, b) && RunsAgree(a, round, allowed, calls)
    requires IsOrder(p, RunCount(a.names, allowed, calls, |calls|))
    requires IsOrder(q, RunCount(b.names, allowed, calls, |calls|))
    ensures Gathered(a, round, allowed, calls, p) == Gathered(b, round, allowed, calls, q)
  {
    hide IsRun, IsOrder, RunsAgree, Completed, Skipped;
    AgreeingRunsConfluent(a, round, allowed, calls, p, q);
    var tasks := RunList(a.names, allowed, calls, |calls|);
    SameSkipped(a, b, allowed, calls, |calls|);
    SameCompleted(a, b, round, calls, Skipped(a, allowed, calls, |calls|), tasks, q, |q|);
  }

  lemma RoundSame(a: Env, b: Env, c: Chat, round: nat)
    requires SameButOrder(a, b) && OrdersValid(a) && OrdersValid(b) && AlwaysAgree(a)
    ensures Round(a, c, round) == Round(b, c, round)
  {
    hide Gathered, RunList, RunCount, CallsOf, TextOf, UsageOf, Refused, RunsAgree, IsOrder, Names;
    var s := a.provider(true, c.turns);
    var calls, allowed := CallsOf(s, |s|), Allowed(a, Listen(a, c));
    var n := RunCount(a.names, allowed, calls, |calls|);
    assert RunsAgree(a, round, allowed, calls);
    GatheredSame(a, b, round, allowed, calls, a.order(round, n), b.order(round, n));
  }

  lemma {:induction false} RoundsSame(a: Env, b: Env, turns: seq<Turn>, n: nat)
    requires SameButOrder(a, b) && OrdersValid(a) && OrdersValid(b) && AlwaysAgree(a)
    ensures Rounds(a, turns, n) == Rounds(b, turns, n)
  {
    hide Round, SameButOrder, OrdersValid, AlwaysAgree;
    if n > 0 {
      RoundsSame(a, b, turns, n - 1);
      RoundSame(a, b, Rounds(a, turns, n - 1), n - 1);
    }
  }

  /**
   Whatever order tools finish in, the turns, the tools used and the usage of the reply are the same, as long as calls
   run under one id return the same.
   */
  lemma Confluent(a: Env, b: Env, turns: seq<Turn>)
    requires SameButOrder(a, b) && OrdersValid(a) && OrdersValid(b) && AlwaysAgree(a)
    ensures Reply(a, turns) == Reply(b, turns)
  {
    hide Rounds, OrdersValid, AlwaysAgree;
    RoundsSame(a, b, turns, MAX_ROUNDS);
  }

  // ---- what every reply keeps ----

  /** One result for each call, in call order. */
  predicate Answers(results: seq<Answer>, calls: seq<Call>) {
    |results| == |calls| && forall i :: 0 <= i < |calls| ==> results[i].id == calls[i].id
  }

  /** Turn `k` is a results turn exactly when the turn before it asked for tools, and then answers those calls. */
  predicate PairedAt(turns: seq<Turn>, k: nat)
    requires 0 < k < |turns|
  {
    turns[k].Results? == (turns[k - 1].Assistant? && turns[k - 1].calls != []) &&
    (turns[k].Results? ==> Answers(turns[k].results, turns[k - 1].calls))
  }

  /** The turns added after the first `start` ones come in such pairs, and no calls are left unanswered. */
  predicate WellPaired(turns: seq<Turn>, start: nat) {
    && start <= |turns|
    && (forall k :: start <= k < |turns| ==> !turns[k].User?)
    && (start < |turns| ==> turns[start].Assistant?)
    && (forall k :: start < k < |turns| ==> PairedAt(turns, k))
    && (|turns| > start && turns[|turns| - 1].Assistant? ==> turns[|turns| - 1].calls == [])
  }

  /** Nothing is waiting for an answer: the conversation is as it was given, or ends with results. */
  predicate Settled(turns: seq<Turn>, start: nat) {
    |turns| == start || (|turns| > 0 && turns[|turns| - 1].Results?)
  }

  lemma LastTurn(turns: seq<Turn>, start: nat, a: Turn)
    requires WellPaired(turns, start) && Settled(turns, start) && a.Assistant? && a.calls == []
    ensures WellPaired(turns + [a], start)
  {
    var next := turns + [a];
    forall k | start < k < |next| ensures PairedAt(next, k) {
      if k < |turns| { assert PairedAt(turns, k); }
    }
  }

  lemma AnsweredTurn(turns: seq<Turn>, start: nat, a: Turn, r: Turn)
    requires WellPaired(turns, start) && Settled(turns, start)
    requires a.Assistant? && a.calls != [] && r.Results? && Answers(r.results, a.calls)
    ensures WellPaired(turns + [a] + [r], start) && Settled(turns + [a] + [r], start)
  {
    hide Answers;
    var next := turns + [a] + [r];
    forall k | start < k < |next| ensures PairedAt(next, k) {
      if k < |turns| { assert PairedAt(turns, k); }
    }
  }

  lemma RoundPairs(e: Env, c: Chat, round: nat, start: nat)
    requires OrdersValid(e) && WellPaired(c.turns, start) && (!c.over ==> Settled(c.turns, start))
    ensures var r := Round(e, c, round);
            c.turns <= r.turns && WellPaired(r.turns, start) && (!r.over ==> Settled(r.turns, start))
  {
    hide RunList, RunCount, TextOf, CallsOf, UsageOf, Refused, Gathered, IsOrder, Names, WellPaired, Settled;
    if !c.over {
      var s := e.provider(true, c.turns);
      var calls := CallsOf(s, |s|);
      var asked := Assistant(TextOf(s, |s|), calls);
      if calls == [] {
        LastTurn(c.turns, start, asked);
      } else {
        var allowed := Allowed(e, Listen(e, c));
        var order := e.order(round, RunCount(e.names, allowed, calls, |calls|));
        forall i | 0 <= i < |calls| ensures Gathered(e, round, allowed, calls, order)[i].id == calls[i].id {
          var j := GatheredAt(e, round, allowed, calls, order, i);
        }
        GatheredSize(e, round, allowed, calls, order);
        AnsweredTurn(c.turns, start, asked, Results(Gathered(e, round, allowed, calls, order)));
      }
    }
  }

  lemma GatheredSize(e: Env, round: nat, allowed: nat, calls: seq<Call>, order: seq<nat>)
    requires IsOrder(order, RunCount(e.names, allowed, calls, |calls|))
    ensures |Gathered(e, round, allowed, calls, order)| == |calls|
  {}

  /**
   The conversation only grows, and every turn that asks for tools is followed by the results of exactly its calls.
   */
  lemma {:induction false} TurnsPaired(e: Env, turns: seq<Turn>, n: nat)
    requires OrdersValid(e)
    ensures var r := Rounds(e, turns, n);
            && turns <= r.turns && WellPaired(r.turns, |turns|)
            && (!r.over ==> Settled(r.turns, |turns|))
  {
    hide Round, WellPaired, OrdersValid;
    if n > 0 {
      TurnsPaired(e, turns, n - 1);
      RoundPairs(e, Rounds(e, turns, n - 1), n - 1, |turns|);
    } else {
      NothingPaired(turns);
    }
  }

  lemma NothingPaired(turns: seq<Turn>)
    ensures WellPaired(turns, |turns|)
  {}

  lemma {:induction false} NamesKnown(names: set<Id>, calls: seq<Call>, tasks: seq<nat>, n: nat)
    requires n <= |tasks| && ValidTasks(calls, tasks) && forall t :: 0 <= t < |tasks| ==> calls[tasks[t]].name in names
    ensures forall x :: x in Names(calls, tasks, n) ==> x in names
  {
    if n > 0 {
      NamesKnown(names, calls, tasks, n - 1);
    }
  }

  lemma RoundBudget(e: Env, c: Chat, round: nat)
    requires OrdersValid(e) && |c.used| <= Max(e.cap, 0) && forall x :: x in c.used ==> x in e.names
    ensures |Round(e, c, round).used| <= Max(e.cap, 0) && forall x :: x in Round(e, c, round).used ==> x in e.names
  {
    hide TextOf, CallsOf, UsageOf, Refused, Gathered, IsOrder, Names;
    var s := e.provider(true, c.turns);
    var calls := CallsOf(s, |s|);
    var tasks := RunList(e.names, Allowed(e, Listen(e, c)), calls, |calls|);
    NamesKnown(e.names, calls, tasks, |tasks|);
  }

  /** The tools run in all rounds together never exceed the cap, and only known tools are run. */
  lemma {:induction false} BudgetHolds(e: Env, turns: seq<Turn>, n: nat)
    requires OrdersValid(e)
    ensures |Rounds(e, turns, n).used| <= Max(e.cap, 0)
    ensures forall x :: x in Rounds(e, turns, n).used ==> x in e.names
  {
    hide Round, OrdersValid;
    if n > 0 {
      BudgetHolds(e, turns, n - 1);
      RoundBudget(e, Rounds(e, turns, n - 1), n - 1);
    }
  }

  /** What the provider was asked in the first `n` rounds. */
  ghost function Asked(e: Env, turns: seq<Turn>, n: nat): seq<(bool, seq<Turn>)>
    requires OrdersValid(e)
  {
    if n == 0 then []
    else Asked(e, turns, n - 1) + if Rounds(e, turns, n - 1).over then [] else [(true, Rounds(e, turns, n - 1).turns)]
  }

  ghost function AllAsked(e: Env, turns: seq<Turn>): seq<(bool, seq<Turn>)>
    requires OrdersValid(e)
  {
    var c := Rounds(e, turns, MAX_ROUNDS);
    Asked(e, turns, MAX_ROUNDS) + if AsksAgain(c) then [(false, c.turns)] else []
  }

  function TotalUsage(e: Env, asked: seq<(bool, seq<Turn>)>, n: nat): Usage
    requires n <= |asked|
  {
    if n == 0 then Usage(0, 0)
    else
      var s := e.provider(asked[n - 1].0, asked[n - 1].1);
      TotalUsage(e, asked, n - 1).Plus(UsageOf(s, |s|))
  }

  lemma {:induction false} TotalPrefix(e: Env, a: seq<(bool, seq<Turn>)>, b: seq<(bool, seq<Turn>)>, n: nat)
    requires n <= |a| && a <= b
    ensures TotalUsage(e, a, n) == TotalUsage(e, b, n)
  {
    if n > 0 {
      TotalPrefix(e, a, b, n - 1);
    }
  }

  lemma TotalAppend(e: Env, asked: seq<(bool, seq<Turn>)>, ask: (bool, seq<Turn>))
    ensures var s := e.provider(ask.0, ask.1);
            TotalUsage(e, asked + [ask], |asked| + 1) == TotalUsage(e, asked, |asked|).Plus(UsageOf(s, |s|))
  {
    hide UsageOf;
    TotalPrefix(e, asked, asked + [ask], |asked|);
  }

  lemma NothingAsked(e: Env)
    ensures TotalUsage(e, [], 0) == Usage(0, 0)
  {}

  lemma RoundUsage(e: Env, c: Chat, round: nat)
    requires OrdersValid(e)
    ensures var s := e.provider(true, c.turns);
            Round(e, c, round).usage == if c.over then c.usage else c.usage.Plus(UsageOf(s, |s|))
  {
    hide TextOf, CallsOf, UsageOf, Refused, Gathered, IsOrder, Names, RunList;
  }

  lemma {:induction false} RoundsUsage(e: Env, turns: seq<Turn>, n: nat)
    requires OrdersValid(e)
    ensures |Asked(e, turns, n)| <= n
    ensures Rounds(e, turns, n).usage == TotalUsage(e, Asked(e, turns, n), |Asked(e, turns, n)|)
  {
    hide Round, OrdersValid, TotalUsage, UsageOf;
    if n > 0 {
      var c, asked := Rounds(e, turns, n - 1), Asked(e, turns, n - 1);
      RoundsUsage(e, turns, n - 1);
      RoundUsage(e, c, n - 1);
      TotalAppend(e, asked, (true, c.turns));
      assert asked + [] == asked;
    } else {
      NothingAsked(e);
    }
  }

  /**
   The reported usage is the sum over everything the provider was asked: at most six streams, the last without tools.
   */
  lemma UsageIsSum(e: Env, turns: seq<Turn>)
    requires OrdersValid(e)
    ensures var asked := AllAsked(e, turns);
            |asked| <= MAX_ROUNDS + 1 && Reply(e, turns).usage == TotalUsage(e, asked, |asked|)
  {
    hide Rounds, Asked, OrdersValid;
    RoundsUsage(e, turns, MAX_ROUNDS);
    TotalPrefix(e, Asked(e, turns, MAX_ROUNDS), AllAsked(e, turns), |Asked(e, turns, MAX_ROUNDS)|);
  }

  // ---- the loop as it is written ----

  method Hear(s: seq<Event>) returns (text: string, calls: seq<Call>, usage: Usage, refusal: bool)
    ensures text == TextOf(s, |s|) && calls == CallsOf(s, |s|) && usage == UsageOf(s, |s|) && refusal == Refused(s, |s|)
  {
    text, calls, usage, refusal := "", [], Usage(0, 0), false;
    for n := 0 to |s|
      invariant text == TextOf(s, n) && calls == CallsOf(s, n) && usage == UsageOf(s, n) && refusal == Refused(s, n)
    {
      match s[n]
      case Text(t) => text := text + t;
      case Calls(cs) => calls := cs;
      case Done(u, r) => usage, refusal := usage.Plus(u), r;
    }
  }

  /** Starts the tools the budget allows; what is not run gets its result at once. */
  method StartTools(e: Env, allowed: nat, calls: seq<Call>) returns (results: map<Id, Answer>, tasks: seq<nat>)
    ensures results == Skipped(e, allowed, calls, |calls|) && tasks == RunList(e.names, allowed, calls, |calls|)
  {
    results, tasks := map[], [];
    for n := 0 to |calls|
      invariant results == Skipped(e, allowed, calls, n) && tasks == RunList(e.names, allowed, calls, n)
    {
      if calls[n].name !in e.names || |tasks| >= allowed {
        results := results[calls[n].id := NotRun(e, calls[n])];
        continue;
      }
      tasks := tasks + [n];
    }
  }

  /** Takes the tools in the order they finish. */
  method AwaitTools(e: Env, round: nat, calls: seq<Call>, skipped: map<Id, Answer>, tasks: seq<nat>, order: seq<nat>)
    returns (results: map<Id, Answer>)
    requires ValidTasks(calls, tasks) && IsOrder(order, |tasks|)
    ensures results == Completed(e, round, calls, skipped, tasks, order, |order|)
  {
    hide IsOrder;
    OrderInRange(order, |tasks|);
    results := skipped;
    for k := 0 to |order|
      invariant results == Completed(e, round, calls, skipped, tasks, order, k)
    {
      var i := tasks[order[k]];
      results := results[calls[i].id := Ran(e, round, calls, i)];
    }
  }

  method NamesOf(calls: seq<Call>, tasks: seq<nat>) returns (names: seq<Id>)
    requires ValidTasks(calls, tasks)
    ensures names == Names(calls, tasks, |tasks|)
  {
    names := [];
    for t := 0 to |tasks|
      invariant names == Names(calls, tasks, t)
    {
      names := names + [calls[tasks[t]].name];
    }
  }

  method RunRound(e: Env, round: nat, c: Chat) returns (r: Chat)
    requires OrdersValid(e) && !c.over
    ensures r == Round(e, c, round)
  {
    hide TextOf, CallsOf, UsageOf, Refused, IsOrder, Names, RunList, Skipped, Completed;
    var text, calls, usage, refusal := Hear(e.provider(true, c.turns));
    r := c.(turns := c.turns + [Assistant(text, calls)], usage := c.usage.Plus(usage),
            answered := c.answered || text != "");
    if calls == [] {
      r := r.(over := true);
    } else {
      var allowed := Max(e.cap - |c.used|, 0);
      var skipped, tasks := StartTools(e, allowed, calls);
      var order := e.order(round, |tasks|);
      var results := AwaitTools(e, round, calls, skipped, tasks, order);
      var names := NamesOf(calls, tasks);
      forall i | 0 <= i < |calls| ensures calls[i].id in results {
        var j := GatheredBooked(e, round, allowed, calls, order, i);
      }
      var gathered := seq(|calls|, i requires 0 <= i < |calls| => results[calls[i].id]);
      assert gathered == Gathered(e, round, allowed, calls, order);
      r := r.(turns := r.turns + [Results(gathered)], used := c.used + names, refused := refusal, over := refusal);
    }
  }

  lemma GatheredBooked(e: Env, round: nat, allowed: nat, calls: seq<Call>, order: seq<nat>, i: nat)
    returns (j: Option<nat>)
    requires IsOrder(order, RunCount(e.names, allowed, calls, |calls|)) && i < |calls|
    ensures calls[i].id in Book(e, round, allowed, calls, order)
  {
    hide IsRun, IsOrder, Skipped, Completed, Ran, NotRun;
    j := Booked(e, round, allowed, calls, order, calls[i].id);
    SkippedAt(e, allowed, calls, |calls|, calls[i].id);
    assert j.None? ==> !RunUnder(e, allowed, calls, i, calls[i].id);
  }

  method Converse(e: Env, turns: seq<Turn>) returns (c: Chat)
    requires OrdersValid(e)
    ensures c == Reply(e, turns)
  {
    hide Round, OrdersValid, UsageOf;
    c := Chat(turns, [], Usage(0, 0), false, false, false);
    var round := 0;
    while round < MAX_ROUNDS && !c.over
      invariant round <= MAX_ROUNDS && c == Rounds(e, turns, round)
    {
      c := RunRound(e, round, c);
      round := round + 1;
    }
    OverStays(e, turns, round, MAX_ROUNDS);
    if AsksAgain(c) {
      var _, _, usage, _ := Hear(e.provider(false, c.turns));
      c := c.(usage := c.usage.Plus(usage));
    }
  }

  lemma {:induction false} OverStays(e: Env, turns: seq<Turn>, k: nat, n: nat)
    requires OrdersValid(e) && k <= n && (k < n ==> Rounds(e, turns, k).over)
    ensures Rounds(e, turns, n) == Rounds(e, turns, k)
  {
    hide Listen, RunCalls, OrdersValid;
    if k < n {
      OverStays(e, turns, k, n - 1);
    }
  }
}
