/**
 * The global `app` object of main.js and the browser's local store, as one
 * class. Each handler of the page is a method: it checks its inputs, updates
 * the in-memory collections in place and rewrites the local mirror.
 *
 * What the page's inputs, dialogs and the remote store contribute is passed
 * in: form fields as parameters, `confirm()` as already answered "yes", the
 * id a remote `add` returns as an `Option<Id>`, and each query's outcome as a
 * `Query`. A `.then` continuation runs right after its remote call.
 */
module AppState {
  import opened Wrappers
  import opened Text
  import opened Records

  /** What the page reports after a handler: done, or refused with a reason. */
  datatype Outcome = Accepted | Refused(problem: Problem)

  /** How `loadDataFromFirebase` ended. */
  datatype SyncResult = NoDatabase | Synced | SyncFailed

  /** A delete request sent to the remote store (its outcome is only logged). */
  datatype RemoteDelete = RemoteDelete(collection: string, id: Option<Id>)

  /** One delete request per entity, in order: the `map` inside `clearAllData`. */
  function DeleteRequests<T>(collection: string, entities: seq<Entity<T>>): (r: seq<RemoteDelete>)
    ensures |r| == |entities|
    ensures forall i :: 0 <= i < |r| ==> r[i].collection == collection && r[i].id == entities[i].id
  {
    seq(|entities|, i requires 0 <= i < |entities| => RemoteDelete(collection, entities[i].id))
  }

  class App {
    /** Whether a remote database handle (`app.db`) is configured. */
    var db: bool
    var exercises: seq<Exercise>
    var prEntries: seq<PrEntry>
    var weightEntries: seq<WeightEntry>
    /** `localStorage` */
    var store: LocalStore

    /** The page as it starts: empty collections, no database, and whatever the local store holds. */
    constructor (persisted: LocalStore)
      ensures !db && exercises == [] && prEntries == [] && weightEntries == [] && store == persisted
    {
      db := false;
      exercises, prEntries, weightEntries := [], [], [];
      store := persisted;
    }

    /** The three in-memory collections as one value. */
    function Collections(): Tables
      reads this
    {
      Tables(exercises, prEntries, weightEntries)
    }

    /** The local store mirrors memory. */
    ghost predicate Mirrored()
      reads this
    {
      Mirrors(store, Collections())
    }

    /** `loadLocalData`: `complete` is false when a stored value failed to parse. */
    method LoadLocalData() returns (complete: bool)
      modifies this`exercises, this`prEntries, this`weightEntries
      ensures LoadAll(store, old(Collections())) == Loaded(Collections(), complete)
    {
      if EXERCISES in store {
        match store[EXERCISES]
        case ExerciseList(list) => exercises := list;
        case _ => return false;
      }
      if PR_ENTRIES in store {
        match store[PR_ENTRIES]
        case PrList(list) => prEntries := list;
        case _ => return false;
      }
      if WEIGHT_ENTRIES in store {
        match store[WEIGHT_ENTRIES]
        case WeightList(list) => weightEntries := list;
        case _ => return false;
      }
      return true;
    }

    /** `saveLocalData` */
    method SaveLocalData()
      modifies this`store
      ensures store == SaveAll(old(store), Collections())
      ensures Mirrored()
    {
      store := store[EXERCISES := ExerciseList(exercises)];
      store := store[PR_ENTRIES := PrList(prEntries)];
      store := store[WEIGHT_ENTRIES := WeightList(weightEntries)];
    }

    /**
     * `saveToFirebase(collection, data, docId)`. Without a database it saves
     * locally and returns nothing; with one it `set`s the document when a
     * `docId` is given and returns nothing, or `add`s it and returns the
     * id the remote store assigned (`added`, `None` when the add failed).
     */
    method SaveToFirebase(docId: Option<Id>, added: Option<Id>) returns (id: Option<Id>)
      modifies this`store
      ensures !db ==> store == SaveAll(old(store), Collections())
      ensures db ==> store == old(store)
      ensures id.Some? <==> db && docId.None? && added.Some?
      ensures id.Some? ==> id == added
    {
      if !db {
        SaveLocalData();
        return None;
      }
      if docId.Some? {
        return None;
      }
      return added;
    }

    /** `deleteFromFirebase`: without a database it saves locally; with one it sends the request. */
    method DeleteFromFirebase(collection: string, id: Option<Id>) returns (request: Option<RemoteDelete>)
      modifies this`store
      ensures !db ==> request == None && store == SaveAll(old(store), Collections())
      ensures db ==> request == Some(RemoteDelete(collection, id)) && store == old(store)
    {
      if !db {
        SaveLocalData();
        return None;
      }
      return Some(RemoteDelete(collection, id));
    }

    /**
     * The continuation of `addExercise` once the name is accepted: send the
     * exercise to the remote store, append it with the id that came back
     * (if any) and save locally.
     */
    method PushExercise(exercise: ExerciseData, added: Option<Id>)
      modifies this`exercises, this`store
      ensures exercises == old(exercises) + [Entity(if db then added else None, exercise)]
      ensures store == SaveAll(old(store), Collections())
    {
      ghost var before, saved := exercises, store;
      var id := SaveToFirebase(None, added);
      exercises := exercises + [Entity(id, exercise)];
      SaveLocalData();
      SaveAllTwice(saved, Tables(before, prEntries, weightEntries), Collections());
    }

    /** `addExercise`, with the text field's value as `input`. */
    method AddExercise(input: string, createdAt: string, added: Option<Id>) returns (outcome: Outcome)
      modifies this`exercises, this`store
      ensures var check := CheckExerciseName(old(exercises), input);
        && (check.Err? ==> outcome == Refused(check.error) && exercises == old(exercises) && store == old(store))
        && (check.Ok? ==>
              && outcome == Accepted
              && exercises == old(exercises) + [Entity(if db then added else None, ExerciseData(check.value, createdAt))]
              && store == SaveAll(old(store), Collections()))
      ensures NamesUnique(old(exercises)) ==> NamesUnique(exercises)
    {
      var check := CheckExerciseName(exercises, input);
      if check.Err? {
        return Refused(check.error);
      }
      if NamesUnique(exercises) {
        AppendKeepsNamesUnique(exercises, check.value, if db then added else None, createdAt);
      }
      PushExercise(ExerciseData(check.value, createdAt), added);
      return Accepted;
    }

    /** `addPREntry`, with the form's fields already read by `parseFloat` and `parseInt`. */
    method AddPrEntry(exercise: string, date: string, weight: Option<real>, reps: Option<int>,
                      createdAt: string, added: Option<Id>) returns (outcome: Outcome)
      modifies this`prEntries, this`store
      ensures var check := CheckPrEntry(exercise, date, weight, reps, createdAt);
        && (check.Err? ==> outcome == Refused(FieldsRequired) && prEntries == old(prEntries) && store == old(store))
        && (check.Ok? ==>
              && outcome == Accepted
              && prEntries == [Entity(if db then added else None, check.value)] + old(prEntries)
              && store == SaveAll(old(store), Collections()))
    {
      var check := CheckPrEntry(exercise, date, weight, reps, createdAt);
      if check.Err? {
        return Refused(check.error);
      }
      ghost var before, saved := prEntries, store;
      var id := SaveToFirebase(None, added);
      prEntries := [Entity(id, check.value)] + prEntries;
      SaveLocalData();
      SaveAllTwice(saved, Tables(exercises, before, weightEntries), Collections());
      return Accepted;
    }

    /** `deletePREntry`, after the confirmation dialog said yes. */
    method DeletePrEntry(id: Id) returns (request: Option<RemoteDelete>)
      modifies this`prEntries, this`store
      ensures prEntries == WithoutId(old(prEntries), id)
      ensures store == SaveAll(old(store), Collections())
      ensures request == if db then Some(RemoteDelete(PR_ENTRIES, Some(id))) else None
    {
      ghost var saved := store;
      request := DeleteFromFirebase(PR_ENTRIES, Some(id));
      ghost var between := Collections();
      prEntries := WithoutId(prEntries, id);
      SaveLocalData();
      if !db {
        SaveAllTwice(saved, between, Collections());
      }
    }

    /** `addWeightEntry`, with the weight already read by `parseFloat`. */
    method AddWeightEntry(date: string, weight: Option<real>, createdAt: string, added: Option<Id>)
      returns (outcome: Outcome)
      modifies this`weightEntries, this`store
      ensures var check := CheckWeightEntry(date, weight, createdAt);
        && (check.Err? ==> outcome == Refused(FieldsRequired) && weightEntries == old(weightEntries) && store == old(store))
        && (check.Ok? ==>
              && outcome == Accepted
              && weightEntries == [Entity(if db then added else None, check.value)] + old(weightEntries)
              && store == SaveAll(old(store), Collections()))
    {
      var check := CheckWeightEntry(date, weight, createdAt);
      if check.Err? {
        return Refused(check.error);
      }
      ghost var before, saved := weightEntries, store;
      var id := SaveToFirebase(None, added);
      weightEntries := [Entity(id, check.value)] + weightEntries;
      SaveLocalData();
      SaveAllTwice(saved, Tables(exercises, prEntries, before), Collections());
      return Accepted;
    }

    /** `deleteWeightEntry`, after the confirmation dialog said yes. */
    method DeleteWeightEntry(id: Id) returns (request: Option<RemoteDelete>)
      modifies this`weightEntries, this`store
      ensures weightEntries == WithoutId(old(weightEntries), id)
      ensures store == SaveAll(old(store), Collections())
      ensures request == if db then Some(RemoteDelete(WEIGHT_ENTRIES, Some(id))) else None
    {
      ghost var saved := store;
      request := DeleteFromFirebase(WEIGHT_ENTRIES, Some(id));
      ghost var between := Collections();
      weightEntries := WithoutId(weightEntries, id);
      SaveLocalData();
      if !db {
        SaveAllTwice(saved, between, Collections());
      }
    }

    /**
     * `clearAllData`, after both dialogs said yes. With a database it first
     * issues one remote delete per known entity; in every case it then
     * empties the collections and removes their keys from the local store.
     */
    method ClearAllData() returns (requests: seq<RemoteDelete>)
      modifies this`exercises, this`prEntries, this`weightEntries, this`store
      ensures exercises == [] && prEntries == [] && weightEntries == []
      ensures store == Cleared(old(store))
      ensures EXERCISES !in store && PR_ENTRIES !in store && WEIGHT_ENTRIES !in store
      ensures FIREBASE_CONFIG in old(store) ==> FIREBASE_CONFIG in store && store[FIREBASE_CONFIG] == old(store)[FIREBASE_CONFIG]
      ensures requests == if db then DeleteRequests(EXERCISES, old(exercises)) + DeleteRequests(PR_ENTRIES, old(prEntries))
                                       + DeleteRequests(WEIGHT_ENTRIES, old(weightEntries))
                          else []
    {
      requests := [];
      if db {
        requests := DeleteRequests(EXERCISES, exercises) + DeleteRequests(PR_ENTRIES, prEntries)
                    + DeleteRequests(WEIGHT_ENTRIES, weightEntries);
      }
      exercises := [];
      prEntries := [];
      weightEntries := [];
      store := store - {EXERCISES};
      store := store - {PR_ENTRIES};
      store := store - {WEIGHT_ENTRIES};
    }

    /**
     * `loadDataFromFirebase`. The queries run in order; the local store is
     * rewritten only after all three succeeded.
     */
    method LoadDataFromFirebase(exerciseDocs: Query<ExerciseData>, prDocs: Query<PrData>, weightDocs: Query<WeightData>)
      returns (result: SyncResult)
      modifies this`exercises, this`prEntries, this`weightEntries, this`store
      ensures !db ==> result == NoDatabase && Collections() == old(Collections()) && store == old(store)
      ensures db ==> Collections() == Refresh(old(Collections()), exerciseDocs, prDocs, weightDocs).tables
      ensures db ==> (result == Synced <==> Refresh(old(Collections()), exerciseDocs, prDocs, weightDocs).synced)
      ensures result == Synced ==> store == SaveAll(old(store), Collections()) && Mirrored()
      ensures result != Synced ==> store == old(store)
    {
      if !db {
        return NoDatabase;
      }
      match exerciseDocs
      case QueryFailed => return SyncFailed;
      case Snapshot(docs) => exercises := FromDocs(docs);
      match prDocs
      case QueryFailed => return SyncFailed;
      case Snapshot(docs) => prEntries := FromDocs(docs);
      match weightDocs
      case QueryFailed => return SyncFailed;
      case Snapshot(docs) => weightEntries := FromDocs(docs);
      SaveLocalData();
      return Synced;
    }

    /**
     * `saveFirebaseConfig`, with `parse` standing for `JSON.parse` (`None`
     * when it throws) and `connects` for whether `initializeFirebase`
     * succeeds; a successful connection loads the remote data at once.
     */
    method SaveFirebaseConfig(input: string, parse: string -> Option<Config>, connects: bool,
                              exerciseDocs: Query<ExerciseData>, prDocs: Query<PrData>, weightDocs: Query<WeightData>)
      returns (outcome: Outcome)
      modifies this
      ensures IsBlank(input) ==> outcome == Refused(ConfigRequired) && unchanged(this)
      ensures !IsBlank(input) && parse(Trim(input)).None? ==> outcome == Refused(ConfigInvalid) && unchanged(this)
      ensures outcome == Accepted <==> !IsBlank(input) && parse(Trim(input)).Some?
      ensures outcome == Accepted ==>
        var configured := old(store)[FIREBASE_CONFIG := ConfigJson(parse(Trim(input)).value)];
        var refreshed := Refresh(old(Collections()), exerciseDocs, prDocs, weightDocs);
        && db == (old(db) || connects)
        && (!connects ==> Collections() == old(Collections()) && store == configured)
        && (connects ==> Collections() == refreshed.tables)
        && (connects && refreshed.synced ==> store == SaveAll(configured, Collections()))
        && (connects && !refreshed.synced ==> store == configured)
    {
      TrimEmptyIffBlank(input);
      var text := Trim(input);
      if text == [] {
        return Refused(ConfigRequired);
      }
      var config := parse(text);
      if config.None? {
        return Refused(ConfigInvalid);
      }
      store := store[FIREBASE_CONFIG := ConfigJson(config.value)];
      if connects {
        db := true;
        var _ := LoadDataFromFirebase(exerciseDocs, prDocs, weightDocs);
      }
      return Accepted;
    }

    /** The snapshot object of `exportData`. */
    method ExportSnapshot(exportDate: string) returns (data: ExportData)
      ensures Reimported(data) == Collections() && data.exportDate == exportDate
    {
      data := ExportData(exercises, prEntries, weightEntries, exportDate);
    }
  }

  /**
   * Re-importing an export through the local store reproduces the
   * collections it was taken from, order included.
   */
  lemma ExportRoundTrip(data: ExportData, store: LocalStore, before: Tables)
    ensures LoadAll(SaveAll(store, Reimported(data)), before).tables.exercises == data.exercises
    ensures LoadAll(SaveAll(store, Reimported(data)), before).tables.prEntries == data.prEntries
    ensures LoadAll(SaveAll(store, Reimported(data)), before).tables.weightEntries == data.weightEntries
  {
    LoadAfterSave(store, Reimported(data), before);
  }

  /** Trimming leaves "Squat" as it is. */
  lemma TrimKeepsSquat()
    ensures Trim("Squat") == "Squat"
  {
    TrimUnpadded("Squat");
  }

  /** Trimming strips the space in front of " squat". */
  lemma TrimStripsSquat()
    ensures Trim(" squat") == "squat"
  {
    TrimUnpadded("squat");
    assert " squat" == [' '] + "squat";
    TrimSkipsLeading(' ', "squat");
  }

  /** "Squat" and "squat" are the same name up to case. */
  lemma SquatSameName()
    ensures SameName("Squat", "squat")
  {
    assert forall i :: 0 <= i < 5 ==> Lower("Squat")[i] == Lower("squat")[i];
  }

  /** "Squat" is accepted on an empty list; " squat" is then a duplicate of it. */
  lemma SquatIsDuplicateOfSquat(id: Option<Id>, createdAt: string)
    ensures CheckExerciseName([], "Squat") == Ok("Squat")
    ensures CheckExerciseName([Entity(id, ExerciseData("Squat", createdAt))], " squat") == Err(DuplicateExercise)
  {
    TrimKeepsSquat();
    TrimStripsSquat();
    SquatSameName();
    var listed := [Entity(id, ExerciseData("Squat", createdAt))];
    assert SameName(listed[0].data.name, Trim(" squat"));
  }

  /**
   * Adding "Squat" and then " squat" to a fresh page with no database: the
   * second name is refused as a duplicate and only one exercise exists.
   */
  method DuplicateNameScenario() returns (first: Outcome, second: Outcome, count: nat)
    ensures first == Accepted && second == Refused(DuplicateExercise) && count == 1
  {
    var app := new App(map[]);
    SquatIsDuplicateOfSquat(None, "t0");
    first := app.AddExercise("Squat", "t0", None);
    assert app.exercises == [Entity(None, ExerciseData("Squat", "t0"))];
    second := app.AddExercise(" squat", "t1", None);
    count := |app.exercises|;
  }
}
