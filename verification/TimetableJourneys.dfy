/**
 The journeys of a pattern file: which vehicle leaves which of its stops when, from the first to the last. The minutes
 at a key say how many leave when; the journeys also say that it is the same vehicle at the next stop.
 */
module TimetableJourneys {
  import opened Util
  import opened Timetable
  import opened TimetablePatterns

  /** One vehicle: what it runs as, and when it leaves each of its stops. */
  datatype Journey = Journey(route: Id, headsign: Id, service: Id, stops: seq<Id>, times: seq<int>)

  type Journeys = multiset<Journey>

  function JourneyOf(p: Pattern<Id>, r: Run<Id>): Journey {
    Journey(p.route, p.headsign, r.service, p.stops, r.times)
  }

  /** The journeys of a list of runs along the pattern. */
  function RunJourneys(p: Pattern<Id>, runs: seq<Run<Id>>): Journeys {
    if runs == [] then multiset{} else multiset{JourneyOf(p, runs[0])} + RunJourneys(p, runs[1..])
  }

  function AllJourneys(ps: seq<Pattern<Id>>, n: nat): Journeys
    requires n <= |ps|
  {
    if n == 0 then multiset{} else AllJourneys(ps, n - 1) + RunJourneys(ps[n - 1], ps[n - 1].runs)
  }

  lemma Regroup(a: Journeys, b: Journeys, c: Journeys)
    ensures a + (b + c) == (a + b) + c
  {}

  lemma Swap(a: Journeys, b: Journeys, c: Journeys)
    ensures a + (b + c) == b + (a + c)
  {}

  lemma FirstJourney(p: Pattern<Id>, runs: seq<Run<Id>>)
    ensures RunJourneys(p, runs) ==
            if runs == [] then multiset{} else multiset{JourneyOf(p, runs[0])} + RunJourneys(p, runs[1..])
  {
    hide JourneyOf;
  }

  lemma {:induction false} JourneysAppend(p: Pattern<Id>, a: seq<Run<Id>>, b: seq<Run<Id>>)
    ensures RunJourneys(p, a + b) == RunJourneys(p, a) + RunJourneys(p, b)
  {
    hide RunJourneys;
    FirstJourney(p, a);
    if a == [] {
      assert a + b == b;
    } else {
      JourneysAppend(p, a[1..], b);
      FirstJourney(p, a + b);
      assert (a + b)[1..] == a[1..] + b;
      Regroup(multiset{JourneyOf(p, a[0])}, RunJourneys(p, a[1..]), RunJourneys(p, b));
    }
  }

  lemma {:induction false} JourneysInsert(p: Pattern<Id>, x: Run<Id>, s: seq<Run<Id>>, le: (Run<Id>, Run<Id>) -> bool)
    ensures RunJourneys(p, InsertBy(x, s, le)) == multiset{JourneyOf(p, x)} + RunJourneys(p, s)
  {
    hide JourneyOf;
    if s != [] {
      if le(x, s[0]) {
        assert ([x] + s)[1..] == s;
      } else {
        JourneysInsert(p, x, s[1..], le);
        assert ([s[0]] + InsertBy(x, s[1..], le))[1..] == InsertBy(x, s[1..], le);
        Swap(multiset{JourneyOf(p, s[0])}, multiset{JourneyOf(p, x)}, RunJourneys(p, s[1..]));
      }
    }
  }

  lemma {:induction false} JourneysSort(p: Pattern<Id>, s: seq<Run<Id>>, le: (Run<Id>, Run<Id>) -> bool)
    ensures RunJourneys(p, SortBy(s, le)) == RunJourneys(p, s)
  {
    if s != [] {
      JourneysSort(p, s[1..], le);
      JourneysInsert(p, s[0], SortBy(s[1..], le), le);
    }
  }

  /** Only what a pattern runs as matters, not which runs it holds besides. */
  lemma {:induction false} JourneysUnder(p: Pattern<Id>, q: Pattern<Id>, runs: seq<Run<Id>>)
    requires p.route == q.route && p.headsign == q.headsign && p.stops == q.stops
    ensures RunJourneys(p, runs) == RunJourneys(q, runs)
  {
    if runs != [] {
      JourneysUnder(p, q, runs[1..]);
    }
  }

  lemma {:induction false} AllJourneysPrefix(a: seq<Pattern<Id>>, b: seq<Pattern<Id>>, n: nat)
    requires n <= |a| && n <= |b| && forall i :: 0 <= i < n ==> a[i] == b[i]
    ensures AllJourneys(a, n) == AllJourneys(b, n)
  {
    if n > 0 {
      AllJourneysPrefix(a, b, n - 1);
    }
  }

  lemma {:induction false} AddRunJourneys(ps: seq<Pattern<Id>>, i: nat, runs: seq<Run<Id>>, n: nat)
    requires i < n <= |ps|
    ensures var p := ps[i];
            AllJourneys(ps[i := p.(runs := p.runs + runs)], n) == AllJourneys(ps, n) + RunJourneys(p, runs)
  {
    hide RunJourneys;
    var p := ps[i];
    if i < n - 1 {
      AddRunJourneys(ps, i, runs, n - 1);
    } else {
      var more := p.(runs := p.runs + runs);
      AllJourneysPrefix(ps[i := more], ps, i);
      JourneysUnder(more, p, more.runs);
      JourneysAppend(p, p.runs, runs);
    }
  }

  lemma AddEmptyPattern(ps: seq<Pattern<Id>>, p: Pattern<Id>)
    requires p.runs == []
    ensures AllJourneys(ps + [p], |ps| + 1) == AllJourneys(ps, |ps|)
  {
    AllJourneysPrefix(ps + [p], ps, |ps|);
    assert RunJourneys(p, []) == multiset{};
  }

  lemma {:induction false} SortedJourneys(a: seq<Pattern<Id>>, b: seq<Pattern<Id>>, n: nat)
    requires n <= |a| == |b|
    requires forall i :: 0 <= i < n ==> b[i] == a[i].(runs := SortBy(a[i].runs, RunLe))
    ensures AllJourneys(b, n) == AllJourneys(a, n)
  {
    hide SortBy, RunJourneys;
    if n > 0 {
      SortedJourneys(a, b, n - 1);
      JourneysSort(a[n - 1], a[n - 1].runs, RunLe);
      JourneysUnder(a[n - 1], b[n - 1], b[n - 1].runs);
    }
  }
}
