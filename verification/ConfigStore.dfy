module ConfigStore {
  /**
   The stored override of a city, its history, and the runtime that serves the YAML merged with it, over whole runs of
   edits, resets and restarts.
   */
  import opened Util
  import opened ConfigMerge

  datatype Row = Row(data: Fields, revision: nat, author: Option<Id>)

  datatype Entry = Entry(revision: nat, author: Option<Id>, reset: bool, data: Fields)

  /** One city's stored row and history (newest first), and what its runtime holds. */
  datatype State = State(row: Option<Row>, log: seq<Entry>, override: Option<Fields>, effective: Fields, revision: nat)

  datatype Step = Put(sections: Fields, author: Option<Id>) | Reset(author: Option<Id>) | Restart

  // ---- one step ----

  function Current(override: Option<Fields>): Fields {
    if override.Some? then override.value else map[]
  }

  /** `apply_to_runtime`: an empty override counts as none. */
  function Serve(yaml: Fields, s: State, data: Option<Fields>, revision: nat): State {
    var override := if data.Some? && data.value != map[] then data else None;
    s.(override := override, effective := Merge(yaml, Obj(Current(override))), revision := revision)
  }

  function NextRevision(row: Option<Row>): nat {
    if row.Some? then row.value.revision + 1 else 1
  }

  /** An edit whose result does not validate changes nothing. */
  function Apply(yaml: Fields, valid: Fields -> bool, s: State, step: Step): State {
    match step
    case Put(sections, author) =>
      var data := Merge(Current(s.override), Obj(sections));
      if !valid(Merge(yaml, Obj(data))) then s
      else
        var rev := NextRevision(s.row);
        Serve(yaml, s.(row := Some(Row(data, rev, author)), log := [Entry(rev, author, false, data)] + s.log),
              Some(data), rev)
    case Reset(author) =>
      var rev := NextRevision(s.row);
      Serve(yaml, s.(row := None, log := [Entry(rev, author, true, map[])] + s.log), None, rev)
    case Restart =>
      if s.row.Some? then Serve(yaml, s, Some(s.row.value.data), s.row.value.revision) else Serve(yaml, s, None, 0)
  }

  function Fresh(yaml: Fields): State {
    State(None, [], None, yaml, 0)
  }

  function Run(yaml: Fields, valid: Fields -> bool, steps: seq<Step>, n: nat): State
    requires n <= |steps|
  {
    if n == 0 then Fresh(yaml) else Apply(yaml, valid, Run(yaml, valid, steps, n - 1), steps[n - 1])
  }

  // ---- what every run keeps ----

  lemma NothingMerged(yaml: Fields)
    ensures Merge(yaml, Obj(map[])) == yaml
  {
    forall k ensures Get(Merge(yaml, Obj(map[])), k) == Get(yaml, k) {
      MergeAt(yaml, Obj(map[]), k);
    }
    SameFields(Merge(yaml, Obj(map[])), yaml);
  }

  /** What is served is the YAML under the stored override, which is the newest entry of the history. */
  predicate Consistent(yaml: Fields, valid: Fields -> bool, s: State) {
    && s.effective == Merge(yaml, Obj(Current(s.override)))
    && (s.row.Some? ==> Current(s.override) == s.row.value.data && s.revision == s.row.value.revision)
    && (s.row.None? ==> s.override.None?)
    && s.override != Some(map[])
    && (s.log == [] ==> s.row.None? && s.revision == 0)
    && (s.log != [] ==> Current(s.override) == s.log[0].data && s.row.Some? == !s.log[0].reset)
    && (s.row.Some? ==> s.row.value.revision == s.log[0].revision)
    && (s.override.Some? ==> valid(s.effective))
  }

  lemma StepConsistent(yaml: Fields, valid: Fields -> bool, s: State, step: Step)
    requires Consistent(yaml, valid, s)
    ensures Consistent(yaml, valid, Apply(yaml, valid, s, step))
  {
    hide Merge;
  }

  lemma {:induction false} RunConsistent(yaml: Fields, valid: Fields -> bool, steps: seq<Step>, n: nat)
    requires n <= |steps|
    ensures Consistent(yaml, valid, Run(yaml, valid, steps, n))
  {
    hide Consistent, Apply;
    if n > 0 {
      RunConsistent(yaml, valid, steps, n - 1);
      StepConsistent(yaml, valid, Run(yaml, valid, steps, n - 1), steps[n - 1]);
    } else {
      FreshConsistent(yaml, valid);
    }
  }

  lemma FreshConsistent(yaml: Fields, valid: Fields -> bool)
    ensures Consistent(yaml, valid, Fresh(yaml))
  {
    hide Merge;
    NothingMerged(yaml);
  }

  /** A restart serves the same configuration; its revision is lost exactly when a reset is the last thing stored. */
  lemma RestartServesSame(yaml: Fields, valid: Fields -> bool, s: State)
    requires Consistent(yaml, valid, s)
    ensures var r := Apply(yaml, valid, s, Restart);
            && r.effective == s.effective && r.override == s.override && r.row == s.row && r.log == s.log
            && (r.revision == s.revision <==> s.row.Some? || s.revision == 0)
  {
    hide Merge;
  }

  /** A reset serves the YAML as it is. */
  lemma ResetServesYaml(yaml: Fields, valid: Fields -> bool, s: State, author: Option<Id>)
    ensures Apply(yaml, valid, s, Reset(author)).effective == yaml
  {
    hide Merge;
    NothingMerged(yaml);
  }

  /** A null for a section serves the YAML's section again, as far as the edit is accepted. */
  lemma NullSectionServesYaml(yaml: Fields, valid: Fields -> bool, s: State, sections: Fields, author: Option<Id>,
                              k: Id)
    requires k in sections && sections[k].Null? && Apply(yaml, valid, s, Put(sections, author)) != s
    ensures Get(Apply(yaml, valid, s, Put(sections, author)).effective, k) == Get(yaml, k)
  {
    hide Merge;
    NullRestores(yaml, Current(s.override), Obj(sections), k);
    var data := Merge(Current(s.override), Obj(sections));
    MergeAt(Current(s.override), Obj(sections), k);
    MergeAt(yaml, Obj(data), k);
  }

  /**
   An edit is taken exactly when what would then be served validates. What it says is served from then on; what it is
   silent about keeps its override, and is served as in the YAML where the override was silent too. The history gets
   one entry with the author and what is stored. A refused edit changes nothing.
   */
  lemma EditTakesEffect(yaml: Fields, valid: Fields -> bool, s: State, sections: Fields, author: Option<Id>,
                        path: seq<Id>)
    requires path != []
    ensures var r := Apply(yaml, valid, s, Put(sections, author));
            if !valid(Merge(yaml, Obj(Merge(Current(s.override), Obj(sections))))) then r == s
            else
              && (Value(At(sections, path)) ==> At(r.effective, path) == At(sections, path))
              && (Silent(sections, path) ==> At(Current(r.override), path) == At(Current(s.override), path))
              && (Silent(sections, path) && Value(At(Current(s.override), path)) ==>
                    At(r.effective, path) == At(Current(s.override), path))
              && (Silent(sections, path) && Silent(Current(s.override), path) ==>
                    At(r.effective, path) == At(yaml, path))
              && Recorded(s, r, author, false)
  {
    hide Merge;
    var r := Apply(yaml, valid, s, Put(sections, author));
    var data := Merge(Current(s.override), Obj(sections));
    MergedValue(Current(s.override), sections, path);
    MergedValue(yaml, data, path);
    if Silent(sections, path) && Silent(Current(s.override), path) {
      BothSilent(Current(s.override), sections, path);
    }
  }

  /** One entry was added, by this author, with what is now stored. */
  predicate Recorded(s: State, r: State, author: Option<Id>, reset: bool) {
    && |r.log| == |s.log| + 1 && r.log[1..] == s.log
    && r.log[0].author == author && r.log[0].reset == reset && r.log[0].data == Current(r.override)
    && r.log[0].revision == r.revision
  }

  /** A reset is recorded and takes the row away; an edit stores its row under the entry's revision and author. */
  lemma RowsFollow(yaml: Fields, valid: Fields -> bool, s: State, step: Step)
    requires Apply(yaml, valid, s, step) != s && !step.Restart?
    ensures var r := Apply(yaml, valid, s, step);
            && Recorded(s, r, step.author, step.Reset?)
            && r.row == if step.Reset? then None else Some(Row(r.log[0].data, r.log[0].revision, r.log[0].author))
  {
    hide Merge;
  }

  // ---- revisions ----

  predicate DistinctRevisions(log: seq<Entry>) {
    forall i, j :: 0 <= i < j < |log| ==> log[i].revision != log[j].revision
  }

  /** Every entry counts on from the one before it, or from the start after a reset. */
  predicate Counts(log: seq<Entry>) {
    && (forall i :: 0 <= i < |log| - 1 ==> log[i].revision == if log[i + 1].reset then 1 else log[i + 1].revision + 1)
    && (log != [] ==> log[|log| - 1].revision == 1)
  }

  predicate Counting(s: State) {
    && Counts(s.log)
    && NextRevision(s.row) == if s.log == [] || s.log[0].reset then 1 else s.log[0].revision + 1
  }

  lemma StepCounts(yaml: Fields, valid: Fields -> bool, s: State, step: Step)
    requires Counting(s)
    ensures Counting(Apply(yaml, valid, s, step))
  {
    hide Merge;
  }

  lemma {:induction false} RunCounts(yaml: Fields, valid: Fields -> bool, steps: seq<Step>, n: nat)
    requires n <= |steps|
    ensures Counting(Run(yaml, valid, steps, n))
  {
    hide Apply;
    if n > 0 {
      RunCounts(yaml, valid, steps, n - 1);
      StepCounts(yaml, valid, Run(yaml, valid, steps, n - 1), steps[n - 1]);
    }
  }

  lemma {:induction false} Descends(log: seq<Entry>, i: nat, j: nat)
    requires Counts(log) && i < j < |log| && forall k :: i < k < |log| ==> !log[k].reset
    ensures log[i].revision > log[j].revision
    decreases j - i
  {
    if i + 1 < j {
      Descends(log, i + 1, j);
    }
  }

  lemma DistinctExactly(log: seq<Entry>)
    requires Counts(log)
    ensures DistinctRevisions(log) <==> forall i :: 0 < i < |log| ==> !log[i].reset
  {
    if i :| 0 < i < |log| && log[i].reset {
      assert log[i - 1].revision == 1 && log[|log| - 1].revision == 1;
    } else {
      forall i, j | 0 <= i < j < |log| ensures log[i].revision != log[j].revision {
        Descends(log, i, j);
      }
    }
  }

  /**
   The revisions of the history are unique exactly when nothing was stored after a reset: a reset drops the row the
   count is kept in.
   */
  lemma RevisionsUnique(yaml: Fields, valid: Fields -> bool, steps: seq<Step>)
    ensures var log := Run(yaml, valid, steps, |steps|).log;
            DistinctRevisions(log) <==> forall i :: 0 < i < |log| ==> !log[i].reset
  {
    hide Run, DistinctRevisions;
    RunCounts(yaml, valid, steps, |steps|);
    DistinctExactly(Run(yaml, valid, steps, |steps|).log);
  }

  predicate AnyFields(f: Fields) {
    true
  }

  /** An edit, a reset and an edit: two entries of the history share a revision. */
  lemma RevisionRepeats()
    ensures var put := Put(map[Id("fares") := Scalar(Id("2"))], None);
            !DistinctRevisions(Run(map[], AnyFields, [put, Reset(None), put], 3).log)
  {
    hide Merge;
    var put := Put(map[Id("fares") := Scalar(Id("2"))], None);
    var steps := [put, Reset(None), put];
    var valid := AnyFields;
    var one := Apply(map[], valid, Fresh(map[]), put);
    var two := Apply(map[], valid, one, Reset(None));
    var three := Apply(map[], valid, two, put);
    assert Run(map[], valid, steps, 0) == Fresh(map[]);
    assert Run(map[], valid, steps, 1) == one;
    assert Run(map[], valid, steps, 2) == two;
    assert three.log[0].revision == 1 && three.log[2].revision == 1;
  }

  // ---- the store and the runtime ----

  class MemoryConfigStore {
    var rows: map<Id, Row>
    var log: map<Id, seq<Entry>>

    constructor ()
      ensures rows == map[] && log == map[]
    {
      rows, log := map[], map[];
    }

    function LogOf(city: Id): seq<Entry>
      reads this
    {
      if city in log then log[city] else []
    }

    method Save(city: Id, data: Fields, author: Option<Id>) returns (row: Row)
      modifies this
      ensures row == Row(data, old(NextRevision(Get(rows, city))), author)
      ensures rows == old(rows)[city := row]
      ensures log == old(log)[city := [Entry(row.revision, author, false, data)] + old(LogOf(city))]
    {
      var rev := (if city in rows then rows[city].revision else 0) + 1;
      row := Row(data, rev, author);
      rows := rows[city := row];
      log := log[city := [Entry(rev, author, false, data)] + LogOf(city)];
    }

    method Clear(city: Id, author: Option<Id>) returns (revision: nat)
      modifies this
      ensures revision == old(NextRevision(Get(rows, city)))
      ensures rows == old(rows) - {city}
      ensures log == old(log)[city := [Entry(revision, author, true, map[])] + old(LogOf(city))]
    {
      revision := (if city in rows then rows[city].revision else 0) + 1;
      rows := rows - {city};
      log := log[city := [Entry(revision, author, true, map[])] + LogOf(city)];
    }
  }

  class CityRuntime {
    const id: Id
    const yaml: Fields
    var override: Option<Fields>
    var effective: Fields
    var revision: nat

    constructor (id: Id, yaml: Fields)
      ensures this.id == id && this.yaml == yaml && override == None && effective == yaml && revision == 0
    {
      this.id, this.yaml, override, effective, revision := id, yaml, None, yaml, 0;
    }

    /** This city's part of the store together with its runtime. */
    function View(store: MemoryConfigStore): State
      reads this, store
    {
      State(Get(store.rows, id), store.LogOf(id), override, effective, revision)
    }

    method ApplyToRuntime(data: Option<Fields>, rev: nat)
      modifies this
      ensures override == (if data.Some? && data.value != map[] then data else None)
      ensures effective == Merge(yaml, Obj(Current(override))) && revision == rev
    {
      override := if data.Some? && data.value != map[] then data else None;
      effective := DeepMerge(yaml, Obj(Current(override)));
      revision := rev;
    }

    method PutConfig(store: MemoryConfigStore, valid: Fields -> bool, sections: Fields, author: Option<Id>)
      returns (ok: bool)
      modifies this, store
      ensures View(store) == Apply(yaml, valid, old(View(store)), Put(sections, author))
      ensures forall c :: c != id ==>
                Get(store.rows, c) == old(Get(store.rows, c)) && store.LogOf(c) == old(store.LogOf(c))
      ensures !ok ==> View(store) == old(View(store))
    {
      hide Merge;
      var data := DeepMerge(Current(override), Obj(sections));
      var merged := DeepMerge(yaml, Obj(data));
      ok := valid(merged);
      if ok {
        var row := store.Save(id, data, author);
        ApplyToRuntime(Some(row.data), row.revision);
      }
    }

    method DeleteConfig(store: MemoryConfigStore, valid: Fields -> bool, author: Option<Id>)
      modifies this, store
      ensures View(store) == Apply(yaml, valid, old(View(store)), Reset(author))
      ensures forall c :: c != id ==>
                Get(store.rows, c) == old(Get(store.rows, c)) && store.LogOf(c) == old(store.LogOf(c))
    {
      hide Merge;
      var rev := store.Clear(id, author);
      ApplyToRuntime(None, rev);
    }

    /** What a new process does with the stored row. */
    method LoadOverride(store: MemoryConfigStore, valid: Fields -> bool)
      modifies this
      ensures View(store) == Apply(yaml, valid, old(View(store)), Restart)
    {
      hide Merge;
      if id in store.rows {
        ApplyToRuntime(Some(store.rows[id].data), store.rows[id].revision);
      } else {
        ApplyToRuntime(None, 0);
      }
    }
  }
}
