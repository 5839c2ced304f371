/**
 * The tracker's entities, the values kept in the browser's local store, and
 * the pure rules of main.js: input validation, the duplicate-name check,
 * deletion by id, the period filter, the refresh from the remote store, the
 * export snapshot, and the save/load pair of the local mirror.
 */
module Records {
  import opened Wrappers
  import opened Text
  import opened Sequences

  /** A document id assigned by the remote store (never the empty string). */
  type Id = s: string | s != [] witness "id"

  /** A record as kept in memory: its fields, plus the remote id once one is known. */
  datatype Entity<T> = Entity(id: Option<Id>, data: T)

  datatype ExerciseData = ExerciseData(name: string, createdAt: string)

  /** `reps` is `None` where the source stores `null`. */
  datatype PrData = PrData(exercise: string, date: string, weight: real, reps: Option<int>, createdAt: string)

  datatype WeightData = WeightData(date: string, weight: real, createdAt: string)

  type Exercise = Entity<ExerciseData>
  type PrEntry = Entity<PrData>
  type WeightEntry = Entity<WeightData>

  /** The three ordered collections of the global `app` object. */
  datatype Tables = Tables(exercises: seq<Exercise>, prEntries: seq<PrEntry>, weightEntries: seq<WeightEntry>)

  /** Local-store keys; the first three are also the remote collection names. */
  const EXERCISES: string := "exercises"
  const PR_ENTRIES: string := "pr-entries"
  const WEIGHT_ENTRIES: string := "weight-entries"
  const FIREBASE_CONFIG: string := "firebase-config"
  const COLLECTION_KEYS: set<string> := {EXERCISES, PR_ENTRIES, WEIGHT_ENTRIES}

  /** A remote-store configuration, as `JSON.stringify` writes it. */
  type Config = string

  /**
   * A local-store value. Serialisation is abstract: a saved collection is kept
   * as the list itself. `Unparsable` stands for text `JSON.parse` rejects.
   */
  datatype Stored =
    | ExerciseList(exercises: seq<Exercise>)
    | PrList(prEntries: seq<PrEntry>)
    | WeightList(weightEntries: seq<WeightEntry>)
    | ConfigJson(config: Config)
    | Unparsable

  type LocalStore = map<string, Stored>

  /** Why an operation was refused before touching any store. */
  datatype Problem = NameRequired | DuplicateExercise | FieldsRequired | ConfigRequired | ConfigInvalid

  // ---------------------------------------------------------------- exercises

  /** Names compare after `toLowerCase` on both sides. */
  predicate SameName(a: string, b: string) {
    Lower(a) == Lower(b)
  }

  /** `app.exercises.some(ex => ex.name.toLowerCase() === name.toLowerCase())`: some exercise has the name up to case. */
  function NameTaken(exercises: seq<Exercise>, name: string): (r: bool)
    ensures r <==> exists i :: 0 <= i < |exercises| && SameName(exercises[i].data.name, name)
    decreases |exercises|
  {
    if exercises == [] then false
    else if SameName(exercises[0].data.name, name) then true
    else
      var rest := NameTaken(exercises[1..], name);
      assert rest <==> exists i :: 0 <= i < |exercises| && SameName(exercises[i].data.name, name) by {
        assert forall i :: 0 < i < |exercises| ==> exercises[i] == exercises[1..][i - 1];
        if rest {
          var i :| 0 <= i < |exercises| - 1 && SameName(exercises[1..][i].data.name, name);
          assert SameName(exercises[i + 1].data.name, name);
        }
      }
      rest
  }

  /** No two exercises share a name up to case. */
  predicate NamesUnique(exercises: seq<Exercise>) {
    forall i, j :: 0 <= i < j < |exercises| ==> !SameName(exercises[i].data.name, exercises[j].data.name)
  }

  /** The checks `addExercise` makes before creating an exercise. */
  function CheckExerciseName(exercises: seq<Exercise>, input: string): (r: Result<string, Problem>)
    ensures r == Err(NameRequired) <==> IsBlank(input)
    ensures r == Err(DuplicateExercise) <==> !IsBlank(input) && NameTaken(exercises, Trim(input))
    ensures r.Ok? <==> !IsBlank(input) && !NameTaken(exercises, Trim(input))
    ensures r.Ok? ==> r.value == Trim(input) && r.value != [] && !NameTaken(exercises, r.value)
  {
    TrimEmptyIffBlank(input);
    var name := Trim(input);
    if name == [] then Err(NameRequired)
    else if NameTaken(exercises, name) then Err(DuplicateExercise)
    else Ok(name)
  }

  /** Appending a name that is not yet taken keeps the names unique up to case. */
  lemma AppendKeepsNamesUnique(exercises: seq<Exercise>, name: string, id: Option<Id>, createdAt: string)
    requires NamesUnique(exercises) && !NameTaken(exercises, name)
    ensures NamesUnique(exercises + [Entity(id, ExerciseData(name, createdAt))])
  {
    var grown := exercises + [Entity(id, ExerciseData(name, createdAt))];
    forall i, j | 0 <= i < j < |grown|
      ensures !SameName(grown[i].data.name, grown[j].data.name)
    {
      if j == |exercises| {
        assert grown[i] == exercises[i];
        assert !SameName(exercises[i].data.name, name);
      } else {
        assert grown[i] == exercises[i] && grown[j] == exercises[j];
      }
    }
  }

  // ---------------------------------------------------------- PR and weight

  /** `parseInt(value) || null`: `None` in stands for `NaN`, and 0 becomes `null`. */
  function RepsField(parsed: Option<int>): (r: Option<int>)
    ensures r.Some? <==> parsed.Some? && parsed.value != 0
    ensures r.Some? ==> r == parsed
  {
    if parsed.Some? && parsed.value != 0 then parsed else None
  }

  /** A `parseFloat` result that JavaScript treats as true: not `NaN` (`None`) and not zero. */
  predicate Truthy(weight: Option<real>) {
    weight.Some? && weight.value != 0.0
  }

  /** The required-field check of `addPREntry` and the entry it then builds. */
  function CheckPrEntry(exercise: string, date: string, weight: Option<real>, reps: Option<int>, createdAt: string)
    : (r: Result<PrData, Problem>)
    ensures r.Err? <==> exercise == [] || date == [] || !Truthy(weight)
    ensures r.Err? ==> r.error == FieldsRequired
    ensures r.Ok? ==> r.value.exercise == exercise && r.value.date == date && Some(r.value.weight) == weight
    ensures r.Ok? ==> r.value.weight != 0.0 && r.value.reps != Some(0) && r.value.createdAt == createdAt
    ensures r.Ok? ==> (r.value.reps.Some? <==> reps.Some? && reps.value != 0)
    ensures r.Ok? && r.value.reps.Some? ==> r.value.reps == reps
  {
    if exercise == [] || date == [] || !Truthy(weight) then Err(FieldsRequired)
    else Ok(PrData(exercise, date, weight.value, RepsField(reps), createdAt))
  }

  /** The required-field check of `addWeightEntry` and the entry it then builds. */
  function CheckWeightEntry(date: string, weight: Option<real>, createdAt: string): (r: Result<WeightData, Problem>)
    ensures r.Err? <==> date == [] || !Truthy(weight)
    ensures r.Err? ==> r.error == FieldsRequired
    ensures r.Ok? ==> r.value.date == date && Some(r.value.weight) == weight && r.value.weight != 0.0
    ensures r.Ok? ==> r.value.createdAt == createdAt
  {
    if date == [] || !Truthy(weight) then Err(FieldsRequired)
    else Ok(WeightData(date, weight.value, createdAt))
  }

  /**
   * `entries.filter(entry => entry.id !== id)`: every entry carrying `id` goes,
   * every other entry (an id-less one included) stays, in the same order.
   */
  function WithoutId<T(==,!new)>(entries: seq<Entity<T>>, id: Id): (r: seq<Entity<T>>)
    ensures |r| <= |entries|
    ensures forall i :: 0 <= i < |r| ==> r[i].id != Some(id)
    ensures forall e :: e in r <==> e in entries && e.id != Some(id)
    ensures forall e :: multiset(r)[e] == if e.id != Some(id) then multiset(entries)[e] else 0
    ensures IsSubsequence(r, entries)
    ensures (forall i :: 0 <= i < |entries| ==> entries[i].id != Some(id)) ==> r == entries
  {
    var keep := (e: Entity<T>) => e.id != Some(id);
    var r := Filter(entries, keep);
    assert IsSubsequence(r, entries) by {
      FilterIsSubsequence(entries, keep);
    }
    assert forall e :: e in r <==> e in entries && e.id != Some(id) by {
      FilterMembers(entries, keep);
    }
    assert forall e :: multiset(r)[e] == if e.id != Some(id) then multiset(entries)[e] else 0 by {
      FilterCount(entries, keep);
    }
    assert (forall i :: 0 <= i < |entries| ==> keep(entries[i])) ==> r == entries by {
      if forall i :: 0 <= i < |entries| ==> keep(entries[i]) {
        FilterKeepsAll(entries, keep);
      }
    }
    r
  }

  /**
   * `filterByPeriod`: period "max" keeps everything; any other period keeps
   * the entries the cutoff test accepts (the date arithmetic is abstracted
   * into `onOrAfterCutoff`).
   */
  function FilterByPeriod<T(==,!new)>(entries: seq<T>, period: string, onOrAfterCutoff: T -> bool): (r: seq<T>)
    ensures period == "max" ==> r == entries
    ensures period != "max" ==> forall x :: x in r <==> x in entries && onOrAfterCutoff(x)
    ensures period != "max" ==> forall x :: multiset(r)[x] == if onOrAfterCutoff(x) then multiset(entries)[x] else 0
    ensures IsSubsequence(r, entries)
  {
    if period == "max" then
      SubsequenceReflexive(entries);
      entries
    else
      FilterIsSubsequence(entries, onOrAfterCutoff);
      FilterMembers(entries, onOrAfterCutoff);
      FilterCount(entries, onOrAfterCutoff);
      Filter(entries, onOrAfterCutoff)
  }

  lemma {:induction false} SubsequenceReflexive<T>(s: seq<T>)
    ensures IsSubsequence(s, s)
  {
    if s != [] {
      SubsequenceReflexive(s[1..]);
    }
  }

  // ---------------------------------------------------------- remote refresh

  /** A document as a query returns it: its id and its stored fields. */
  datatype Doc<T> = Doc(docId: Id, fields: T)

  /** The outcome of one remote query. */
  datatype Query<T> = Snapshot(docs: seq<Doc<T>>) | QueryFailed

  /** `docs.map(doc => ({ id: doc.id, ...doc.data() }))` */
  function FromDocs<T>(docs: seq<Doc<T>>): (r: seq<Entity<T>>)
    ensures |r| == |docs|
    ensures forall i :: 0 <= i < |r| ==> r[i].id == Some(docs[i].docId) && r[i].data == docs[i].fields
  {
    seq(|docs|, i requires 0 <= i < |docs| => Entity(Some(docs[i].docId), docs[i].fields))
  }

  datatype Refreshed = Refreshed(tables: Tables, synced: bool)

  /**
   * The in-memory effect of `loadDataFromFirebase`: the three queries run in
   * order, each success replaces its collection at once, and the first
   * failure ends the refresh without undoing the earlier replacements.
   */
  function Refresh(t: Tables, exercises: Query<ExerciseData>, prs: Query<PrData>, weights: Query<WeightData>)
    : (r: Refreshed)
    ensures r.synced <==> exercises.Snapshot? && prs.Snapshot? && weights.Snapshot?
    ensures r.tables.exercises == if exercises.Snapshot? then FromDocs(exercises.docs) else t.exercises
    ensures r.tables.prEntries == if exercises.Snapshot? && prs.Snapshot? then FromDocs(prs.docs) else t.prEntries
    ensures r.tables.weightEntries == if r.synced then FromDocs(weights.docs) else t.weightEntries
  {
    if exercises.QueryFailed? then Refreshed(t, false)
    else
      var t1 := t.(exercises := FromDocs(exercises.docs));
      if prs.QueryFailed? then Refreshed(t1, false)
      else
        var t2 := t1.(prEntries := FromDocs(prs.docs));
        if weights.QueryFailed? then Refreshed(t2, false)
        else Refreshed(t2.(weightEntries := FromDocs(weights.docs)), true)
  }

  /** After a complete refresh every entity in memory carries its remote id. */
  lemma RefreshedEntitiesHaveIds(t: Tables, exercises: Query<ExerciseData>, prs: Query<PrData>, weights: Query<WeightData>)
    requires Refresh(t, exercises, prs, weights).synced
    ensures var u := Refresh(t, exercises, prs, weights).tables;
      && (forall e :: e in u.exercises ==> e.id.Some?)
      && (forall e :: e in u.prEntries ==> e.id.Some?)
      && (forall e :: e in u.weightEntries ==> e.id.Some?)
  {
    var u := Refresh(t, exercises, prs, weights).tables;
    forall e | e in u.exercises ensures e.id.Some? {
      var i :| 0 <= i < |u.exercises| && u.exercises[i] == e;
    }
    forall e | e in u.prEntries ensures e.id.Some? {
      var i :| 0 <= i < |u.prEntries| && u.prEntries[i] == e;
    }
    forall e | e in u.weightEntries ensures e.id.Some? {
      var i :| 0 <= i < |u.weightEntries| && u.weightEntries[i] == e;
    }
  }

  // ------------------------------------------------------------ local mirror

  /** The local store holds exactly the three in-memory collections under their keys. */
  predicate Mirrors(store: LocalStore, t: Tables) {
    && EXERCISES in store && store[EXERCISES] == ExerciseList(t.exercises)
    && PR_ENTRIES in store && store[PR_ENTRIES] == PrList(t.prEntries)
    && WEIGHT_ENTRIES in store && store[WEIGHT_ENTRIES] == WeightList(t.weightEntries)
  }

  /** The store after `saveLocalData`: the three keys rewritten, every other key untouched. */
  function SaveAll(store: LocalStore, t: Tables): (r: LocalStore)
    ensures Mirrors(r, t)
    ensures r.Keys == store.Keys + COLLECTION_KEYS
    ensures forall k :: k in store && k !in COLLECTION_KEYS ==> r[k] == store[k]
  {
    store[EXERCISES := ExerciseList(t.exercises)]
         [PR_ENTRIES := PrList(t.prEntries)]
         [WEIGHT_ENTRIES := WeightList(t.weightEntries)]
  }

  /** Saving twice leaves what the second save wrote. */
  lemma SaveAllTwice(store: LocalStore, t: Tables, u: Tables)
    ensures SaveAll(SaveAll(store, t), u) == SaveAll(store, u)
  {
    var a, b := SaveAll(SaveAll(store, t), u), SaveAll(store, u);
    assert a.Keys == b.Keys;
    forall k | k in a ensures a[k] == b[k] {
    }
  }

  /** The exercises key is absent or holds a list of exercises. */
  predicate ExercisesReadable(store: LocalStore) {
    EXERCISES in store ==> store[EXERCISES].ExerciseList?
  }

  /** The PR key is absent or holds a list of PR entries. */
  predicate PrEntriesReadable(store: LocalStore) {
    PR_ENTRIES in store ==> store[PR_ENTRIES].PrList?
  }

  /** The weight key is absent or holds a list of weight entries. */
  predicate WeightEntriesReadable(store: LocalStore) {
    WEIGHT_ENTRIES in store ==> store[WEIGHT_ENTRIES].WeightList?
  }

  /** Every present collection key holds a value of its own kind. */
  predicate Readable(store: LocalStore) {
    ExercisesReadable(store) && PrEntriesReadable(store) && WeightEntriesReadable(store)
  }

  datatype Loaded = Loaded(tables: Tables, complete: bool)

  /**
   * The in-memory effect of `loadLocalData`: each present key replaces its
   * collection and an absent key leaves it alone. A value that does not
   * parse throws out of the function, so the keys after it are not read.
   */
  function LoadAll(store: LocalStore, t: Tables): (r: Loaded)
    ensures r.complete <==> Readable(store)
    ensures r.tables.exercises ==
      if EXERCISES in store && ExercisesReadable(store) then store[EXERCISES].exercises else t.exercises
    ensures r.tables.prEntries ==
      if ExercisesReadable(store) && PR_ENTRIES in store && PrEntriesReadable(store) then store[PR_ENTRIES].prEntries
      else t.prEntries
    ensures r.tables.weightEntries ==
      if ExercisesReadable(store) && PrEntriesReadable(store) && WEIGHT_ENTRIES in store && WeightEntriesReadable(store)
      then store[WEIGHT_ENTRIES].weightEntries
      else t.weightEntries
    ensures !ExercisesReadable(store) ==> r == Loaded(t, false)
  {
    if !ExercisesReadable(store) then Loaded(t, false)
    else
      var ex := if EXERCISES in store then store[EXERCISES].exercises else t.exercises;
      if !PrEntriesReadable(store) then Loaded(t.(exercises := ex), false)
      else
        var prs := if PR_ENTRIES in store then store[PR_ENTRIES].prEntries else t.prEntries;
        if !WeightEntriesReadable(store) then Loaded(Tables(ex, prs, t.weightEntries), false)
        else
          var ws := if WEIGHT_ENTRIES in store then store[WEIGHT_ENTRIES].weightEntries else t.weightEntries;
          Loaded(Tables(ex, prs, ws), true)
  }

  /** Loading a store that mirrors `t` gives back `t`, whatever memory held before. */
  lemma LoadMirrored(store: LocalStore, t: Tables, before: Tables)
    requires Mirrors(store, t)
    ensures LoadAll(store, before) == Loaded(t, true)
  {
  }

  /** Round trip: `saveLocalData` followed by `loadLocalData` reproduces the collections. */
  lemma LoadAfterSave(store: LocalStore, t: Tables, before: Tables)
    ensures LoadAll(SaveAll(store, t), before) == Loaded(t, true)
  {
    LoadMirrored(SaveAll(store, t), t, before);
  }

  /** The store after `clearAllData`: the collection keys removed, every other key kept. */
  function Cleared(store: LocalStore): (r: LocalStore)
    ensures r.Keys == store.Keys - COLLECTION_KEYS
    ensures forall k :: k in r ==> r[k] == store[k]
  {
    store - COLLECTION_KEYS
  }

  /** After clearing, loading the store keeps the (emptied) collections as they are. */
  lemma LoadAfterClear(store: LocalStore, t: Tables)
    ensures LoadAll(Cleared(store), t) == Loaded(t, true)
  {
  }

  // ------------------------------------------------------------------ export

  /** The object `exportData` serialises. */
  datatype ExportData = ExportData(
    exercises: seq<Exercise>, prEntries: seq<PrEntry>, weightEntries: seq<WeightEntry>, exportDate: string)

  /** The collections a snapshot holds, as they would be re-imported. */
  function Reimported(d: ExportData): Tables {
    Tables(d.exercises, d.prEntries, d.weightEntries)
  }
}
