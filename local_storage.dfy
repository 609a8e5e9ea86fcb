/**
 * The browser key-value store the dashboard persists its collections in.
 * Every key holds a JSON array of records; the model stores the decoded
 * array directly, so an absent key is a key missing from the map. Whether
 * the code runs in a browser (`typeof window !== 'undefined'`) is fixed when
 * the store is created.
 */
module LocalStorage {
  import opened Collections

  const GoalsKey: string := "calendar_app_goals"
  const TasksKey: string := "calendar_app_tasks"
  const HabitsKey: string := "calendar_app_habits"

  /** The only keys initialisation ever writes. */
  const SeedKeys: set<string> := {GoalsKey, TasksKey, HabitsKey}

  /** A stored record; each kind has the shape of its default data. */
  datatype Entry =
    | GoalEntry(id: string, title: string, description: string, deadline: string, completed: bool)
    | TaskEntry(id: string, title: string, description: string, dueDate: string, completed: bool, goalId: string)
    | HabitEntry(id: string, title: string, description: string, frequency: string, streak: int)

  type Storage = map<string, seq<Entry>>

  const DefaultGoals: seq<Entry> := [
    GoalEntry("1", "Complete Project", "Finish the calendar app implementation", "2024-04-01", false),
    GoalEntry("2", "Learn Next.js", "Master Next.js and React development", "2024-05-01", false)
  ]

  const DefaultTasks: seq<Entry> := [
    TaskEntry("1", "Set up GitHub Pages", "Configure static deployment", "2024-03-20", false, "1")
  ]

  const DefaultHabits: seq<Entry> := [
    HabitEntry("1", "Code Review", "Review code daily", "daily", 0)
  ]

  /** What `getItems` yields: the stored list, or [] outside a browser or for an absent key. */
  function Read(m: Storage, inBrowser: bool, key: string): seq<Entry> {
    if inBrowser && key in m then m[key] else []
  }

  /** What `setItems` does to the store: replace the list at `key`, or nothing outside a browser. */
  function Write(m: Storage, inBrowser: bool, key: string, items: seq<Entry>): Storage {
    if inBrowser then m[key := items] else m
  }

  /** What `setItems` stores is what `getItems` then reads back, and every other key reads as before. */
  lemma ReadAfterWrite(m: Storage, inBrowser: bool, key: string, items: seq<Entry>)
    ensures Read(Write(m, inBrowser, key, items), inBrowser, key) == if inBrowser then items else Read(m, inBrowser, key)
    ensures forall k :: k != key ==> Read(Write(m, inBrowser, key, items), inBrowser, k) == Read(m, inBrowser, k)
  {
  }

  function SeedIfAbsent(m: Storage, key: string, defaults: seq<Entry>): Storage {
    if key in m then m else m[key := defaults]
  }

  /** The store after `initializeStorage`. */
  function Initialized(m: Storage, inBrowser: bool): (r: Storage)
    ensures !inBrowser ==> r == m
    ensures forall k :: k in m ==> k in r && r[k] == m[k]
    ensures forall k :: k in r && k !in m ==> k in SeedKeys
    ensures inBrowser ==> SeedKeys <= r.Keys
    ensures inBrowser && GoalsKey !in m ==> r[GoalsKey] == DefaultGoals
    ensures inBrowser && TasksKey !in m ==> r[TasksKey] == DefaultTasks
    ensures inBrowser && HabitsKey !in m ==> r[HabitsKey] == DefaultHabits
  {
    if !inBrowser then m
    else SeedIfAbsent(SeedIfAbsent(SeedIfAbsent(m, GoalsKey, DefaultGoals), TasksKey, DefaultTasks), HabitsKey, DefaultHabits)
  }

  /** Initialising twice is initialising once: the second call finds every seed key present. */
  lemma InitializeIdempotent(m: Storage, inBrowser: bool)
    ensures Initialized(Initialized(m, inBrowser), inBrowser) == Initialized(m, inBrowser)
  {
    var once := Initialized(m, inBrowser);
    if inBrowser {
      assert GoalsKey in once && TasksKey in once && HabitsKey in once;
    }
  }

  /** Every kind of record is found by its `id` field. */
  function IdOf(e: Entry): string {
    e.id
  }

  /** The store after `addItem(key, item)`. */
  function Added(m: Storage, inBrowser: bool, key: string, item: Entry): (r: Storage)
    ensures r - {key} == m - {key}
    ensures inBrowser ==> key in r && r[key] == Read(m, inBrowser, key) + [item]
    ensures !inBrowser ==> r == m
  {
    Write(m, inBrowser, key, Read(m, inBrowser, key) + [item])
  }

  /** The store after `updateItem(key, item)`. */
  function Updated(m: Storage, inBrowser: bool, key: string, item: Entry): (r: Storage)
    ensures r - {key} == m - {key}
    ensures |Read(r, inBrowser, key)| == |Read(m, inBrowser, key)|
    ensures FirstIndex(Read(m, inBrowser, key), HasId(IdOf, item.id)) == -1 ==> r == m
    ensures var i := FirstIndex(Read(m, inBrowser, key), HasId(IdOf, item.id));
            0 <= i ==> Read(r, inBrowser, key)[i] == item
                       && forall j :: 0 <= j < |Read(m, inBrowser, key)| && j != i ==>
                            Read(r, inBrowser, key)[j] == Read(m, inBrowser, key)[j]
  {
    var items := Read(m, inBrowser, key);
    var index := FirstIndex(items, HasId(IdOf, item.id));
    if index == -1 then m else Write(m, inBrowser, key, items[index := item])
  }

  /** The store after `deleteItem(key, id)`. */
  function Deleted(m: Storage, inBrowser: bool, key: string, id: string): (r: Storage)
    ensures r - {key} == m - {key}
    ensures forall e :: e in Read(r, inBrowser, key) ==> e.id != id
    ensures forall e :: e in Read(m, inBrowser, key) && e.id != id ==> e in Read(r, inBrowser, key)
    ensures inBrowser ==> key in r
    ensures !inBrowser ==> r == m
  {
    Write(m, inBrowser, key, Filter(Read(m, inBrowser, key), LacksId(IdOf, id)))
  }

  /** Adding makes the list at `key` exactly one record longer, ending in the new record, when in a browser. */
  lemma AddGrowsByOne(m: Storage, key: string, item: Entry)
    ensures |Read(Added(m, true, key, item), true, key)| == |Read(m, true, key)| + 1
    ensures Read(Added(m, true, key, item), true, key)[|Read(m, true, key)|] == item
  {
  }

  /** Updating with the same record twice is updating once. */
  lemma UpdateIdempotent(m: Storage, inBrowser: bool, key: string, item: Entry)
    ensures Updated(Updated(m, inBrowser, key, item), inBrowser, key, item) == Updated(m, inBrowser, key, item)
  {
    var once := Updated(m, inBrowser, key, item);
    var i := FirstIndex(Read(m, inBrowser, key), HasId(IdOf, item.id));
    if 0 <= i {
      assert inBrowser && key in m;
      assert FirstIndex(Read(once, inBrowser, key), HasId(IdOf, item.id)) == i;
      assert Read(once, inBrowser, key)[i := item] == Read(once, inBrowser, key);
    }
  }

  /** Deleting an id no record has leaves the list read back unchanged. */
  lemma DeleteMissKeepsContent(m: Storage, inBrowser: bool, key: string, id: string)
    requires forall e :: e in Read(m, inBrowser, key) ==> e.id != id
    ensures Read(Deleted(m, inBrowser, key, id), inBrowser, key) == Read(m, inBrowser, key)
  {
    var items := Read(m, inBrowser, key);
    assert forall i :: 0 <= i < |items| ==> LacksId(IdOf, id)(items[i]) by {
      forall i | 0 <= i < |items| ensures LacksId(IdOf, id)(items[i]) {
        assert items[i] in items;
      }
    }
    FilterKeepsAll(items, LacksId(IdOf, id));
  }

  /** Deleting the same id twice is deleting it once. */
  lemma DeleteIdempotent(m: Storage, inBrowser: bool, key: string, id: string)
    ensures Deleted(Deleted(m, inBrowser, key, id), inBrowser, key, id) == Deleted(m, inBrowser, key, id)
  {
    if inBrowser {
      FilterIdempotent(Read(m, inBrowser, key), LacksId(IdOf, id));
    }
  }

  /**
   * `deleteItem` writes even when nothing matches, so in a browser deleting
   * from a seed key that was never written stores an empty list there, and
   * a later `initializeStorage` no longer seeds that key.
   */
  lemma DeleteBeforeInitializeBlocksSeeding(m: Storage, key: string, id: string)
    requires key in SeedKeys && key !in m
    ensures Read(Initialized(Deleted(m, true, key, id), true), true, key) == []
    ensures Read(Initialized(m, true), true, key) != []
  {
    var d := Deleted(m, true, key, id);
    assert Read(m, true, key) == [];
    assert d[key] == [];
  }

  /** The three per-collection wrappers of `storage`. */
  datatype Collection = Goals | Tasks | Habits

  function Key(c: Collection): (k: string)
    ensures k in SeedKeys
  {
    match c
    case Goals => GoalsKey
    case Tasks => TasksKey
    case Habits => HabitsKey
  }

  /** The record kind each wrapper's parameter type admits. */
  predicate Fits(c: Collection, e: Entry) {
    match c
    case Goals => e.GoalEntry?
    case Tasks => e.TaskEntry?
    case Habits => e.HabitEntry?
  }

  /** Every collection key holds records of its own kind only. */
  predicate WellTyped(m: Storage) {
    forall c: Collection, e :: Key(c) in m && e in m[Key(c)] ==> Fits(c, e)
  }

  /** The wrappers address three distinct keys, so an operation on one collection never touches another. */
  lemma KeysDistinct(c: Collection, d: Collection)
    ensures c != d ==> Key(c) != Key(d)
  {
  }

  /** Initialisation and the wrapper operations, given records of the right kind, keep every collection well-typed. */
  lemma WrappersKeepWellTyped(m: Storage, inBrowser: bool, c: Collection, item: Entry, id: string)
    requires WellTyped(m) && Fits(c, item)
    ensures WellTyped(Initialized(m, inBrowser))
    ensures WellTyped(Added(m, inBrowser, Key(c), item))
    ensures WellTyped(Updated(m, inBrowser, Key(c), item))
    ensures WellTyped(Deleted(m, inBrowser, Key(c), id))
  {
    var i := Initialized(m, inBrowser);
    forall d: Collection, e | Key(d) in i && e in i[Key(d)] ensures Fits(d, e) {
      if Key(d) !in m {
        match d
        case Goals => assert i[Key(d)] == DefaultGoals;
        case Tasks => assert i[Key(d)] == DefaultTasks;
        case Habits => assert i[Key(d)] == DefaultHabits;
      }
    }
    var u := Updated(m, inBrowser, Key(c), item);
    forall d: Collection, e | Key(d) in u && e in u[Key(d)] ensures Fits(d, e) {
      if d == c && u != m {
        var old_items := Read(m, inBrowser, Key(c));
        var k :| 0 <= k < |u[Key(d)]| && u[Key(d)][k] == e;
        if e != item {
          assert e == old_items[k];
        }
      } else if d != c {
        assert u[Key(d)] == m[Key(d)];
      }
    }
    var a := Added(m, inBrowser, Key(c), item);
    forall d: Collection, e | Key(d) in a && e in a[Key(d)] ensures Fits(d, e) {
      if d != c {
        assert a[Key(d)] == m[Key(d)];
      }
    }
    var x := Deleted(m, inBrowser, Key(c), id);
    forall d: Collection, e | Key(d) in x && e in x[Key(d)] ensures Fits(d, e) {
      if d != c {
        assert x[Key(d)] == m[Key(d)];
      }
    }
  }

  class Store {
    /** Whether the code runs in a browser; elsewhere every read is empty and every write is dropped. */
    const inBrowser: bool
    var data: Storage

    constructor (inBrowser: bool, initial: Storage)
      ensures this.inBrowser == inBrowser && data == initial
    {
      this.inBrowser := inBrowser;
      data := initial;
    }

    /** `initializeStorage`: seed each of the three keys that holds nothing yet. */
    method InitializeStorage()
      modifies this
      ensures data == Initialized(old(data), inBrowser)
    {
      if !inBrowser {
        return;
      }
      if GoalsKey !in data {
        data := data[GoalsKey := DefaultGoals];
      }
      if TasksKey !in data {
        data := data[TasksKey := DefaultTasks];
      }
      if HabitsKey !in data {
        data := data[HabitsKey := DefaultHabits];
      }
    }

    /** `getItems`: degrades to the empty list instead of failing. */
    method GetItems(key: string) returns (items: seq<Entry>)
      ensures !inBrowser || key !in data ==> items == []
      ensures inBrowser && key in data ==> items == data[key]
    {
      if !inBrowser {
        return [];
      }
      items := if key in data then data[key] else [];
    }

    /** `setItems`: overwrite the list at `key`; a no-op outside a browser. */
    method SetItems(key: string, items: seq<Entry>)
      modifies this
      ensures data == Write(old(data), inBrowser, key, items)
    {
      if !inBrowser {
        return;
      }
      data := data[key := items];
    }

    /** `addItem`: read, push, write back. */
    method AddItem(key: string, item: Entry)
      modifies this
      ensures data == Added(old(data), inBrowser, key, item)
    {
      var items := GetItems(key);
      items := items + [item];
      SetItems(key, items);
    }

    /** `updateItem`: replace the first record with the same id; no write at all when there is none. */
    method UpdateItem(key: string, item: Entry)
      modifies this
      ensures data == Updated(old(data), inBrowser, key, item)
    {
      var items := GetItems(key);
      var index := FirstIndex(items, HasId(IdOf, item.id));
      if index != -1 {
        items := items[index := item];
        SetItems(key, items);
      }
    }

    /** `deleteItem`: write back the list without the records carrying `id`. */
    method DeleteItem(key: string, id: string)
      modifies this
      ensures data == Deleted(old(data), inBrowser, key, id)
    {
      var items := GetItems(key);
      var filtered := Filter(items, LacksId(IdOf, id));
      SetItems(key, filtered);
    }

    /** `storage.<collection>.getAll`. */
    method GetAll(c: Collection) returns (items: seq<Entry>)
      ensures items == Read(data, inBrowser, Key(c))
      ensures WellTyped(data) ==> forall e :: e in items ==> Fits(c, e)
    {
      items := GetItems(Key(c));
    }

    /** `storage.<collection>.add`. */
    method Add(c: Collection, item: Entry)
      requires Fits(c, item)
      modifies this
      ensures data == Added(old(data), inBrowser, Key(c), item)
    {
      AddItem(Key(c), item);
    }

    /** `storage.<collection>.update`. */
    method Update(c: Collection, item: Entry)
      requires Fits(c, item)
      modifies this
      ensures data == Updated(old(data), inBrowser, Key(c), item)
    {
      UpdateItem(Key(c), item);
    }

    /** `storage.<collection>.delete`. */
    method Delete(c: Collection, id: string)
      modifies this
      ensures data == Deleted(old(data), inBrowser, Key(c), id)
    {
      DeleteItem(Key(c), id);
    }
  }
}
