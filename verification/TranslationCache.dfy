/**
 * The two-level translation cache (app/translation/cache.py, app/translation/sqlite_cache.py). The memory cache is a
 * sequence from the least to the most recently used entry. The persistent cache is a table per file, behind a store that
 * any statement may make unavailable. SHA-256 is a parameter.
 */
module TranslationCaches {
  import opened Wrappers
  import opened Text

  /** What a lookup returns of a `TranslationResult`. */
  datatype Entry = Entry(text: string, provider: string)

  datatype Key = Key(source: string, target: string, text: string)

  datatype RowKey = RowKey(hash: nat, source: string, target: string)

  datatype Row = Row(sourceText: Option<string>, translated: string, provider: string, createdAt: nat, lastUsedAt: nat)

  type Rows = map<RowKey, Row>
  type Files = map<string, Rows>

  /** Whether the statements of one call raise, and if so whether what they wrote reached the file all the same. */
  datatype Fault = NoFault | Raises(applied: bool)

  function Written(before: Rows, after: Rows, fault: Fault): Rows {
    if fault == Raises(false) then before else after
  }

  /** `normalize_text`, which `normalized_text_hash` repeats. */
  function NormalizeText(text: string): string {
    Strip(UnixLines(text))
  }

  function MakeKey(source: string, target: string, text: string): Key {
    Key(source, target, NormalizeText(text))
  }

  function RowKeyOf(hash: string -> nat, k: Key): RowKey {
    RowKey(hash(k.text), k.source, k.target)
  }

  // ---------------------------------------------------------------- the persistent store

  datatype Store = Store(path: string, available: bool, history: bool)

  function RowsAt(files: Files, path: string): Rows {
    if path in files then files[path] else map[]
  }

  function WithoutSourceText(rows: Rows): Rows {
    map k | k in rows :: rows[k].(sourceText := None)
  }

  /** A store and the files of the disk. */
  datatype Level2 = Level2(store: Store, files: Files)

  function RowsOf(l: Level2): Rows {
    RowsAt(l.files, l.store.path)
  }

  /** A usable store writes `rows` in place of its table; a statement that raises makes it unavailable. */
  function Executed(l: Level2, rows: Rows, fault: Fault): Level2 {
    if !l.store.available then l
    else Level2(l.store.(available := fault.NoFault?), l.files[l.store.path := Written(RowsOf(l), rows, fault)])
  }

  /** `_open`: a store that opens with history off erases the source texts it finds. */
  function Opened(files: Files, path: string, history: bool, openFails: bool, fault: Fault): Level2 {
    var l := Level2(Store(path, !openFails, history), files);
    if history then l else Executed(l, WithoutSourceText(RowsOf(l)), fault)
  }

  function Read(row: Row): Entry {
    Entry(row.translated, if row.provider == "" then "persistent_cache" else row.provider)
  }

  /** The row a lookup finds; a lookup that raises after reading it returns nothing. */
  function Looked(l: Level2, k: RowKey, fault: Fault): Option<Entry> {
    if l.store.available && k in RowsOf(l) && fault.NoFault? then Some(Read(RowsOf(l)[k])) else None
  }

  function Touched(rows: Rows, k: RowKey, now: nat): Rows {
    if k in rows then rows[k := rows[k].(lastUsedAt := now)] else rows
  }

  function Upserted(rows: Rows, k: RowKey, sourceText: string, e: Entry, history: bool, now: nat): Rows {
    if k in rows then
      rows[k := Row(if history then Some(sourceText) else rows[k].sourceText, e.text, e.provider, rows[k].createdAt, now)]
    else rows[k := Row(if history then Some(sourceText) else None, e.text, e.provider, now, now)]
  }

  function StoreTouched(l: Level2, k: RowKey, now: nat, fault: Fault): Level2 {
    Executed(l, Touched(RowsOf(l), k, now), fault)
  }

  function StoreSet(l: Level2, k: RowKey, sourceText: string, e: Entry, now: nat, fault: Fault): Level2 {
    Executed(l, Upserted(RowsOf(l), k, sourceText, e, l.store.history, now), fault)
  }

  function StoreHistory(l: Level2, history: bool, fault: Fault): Level2 {
    var l' := l.(store := l.store.(history := history));
    if history then l' else Executed(l', WithoutSourceText(RowsOf(l')), fault)
  }

  class Disk {
    var files: Files

    constructor (files: Files)
      ensures this.files == files
    {
      this.files := files;
    }
  }

  class SQLiteTranslationStore {
    const disk: Disk
    const path: string
    const hash: string -> nat
    var available: bool
    var historyEnabled: bool

    function State(): Level2
      reads this, disk
    {
      Level2(Store(path, available, historyEnabled), disk.files)
    }

    constructor (disk: Disk, path: string, hash: string -> nat, history: bool, openFails: bool, fault: Fault)
      modifies disk
      ensures this.disk == disk && this.hash == hash
      ensures State() == Opened(old(disk.files), path, history, openFails, fault)
    {
      this.disk, this.path, this.hash := disk, path, hash;
      available, historyEnabled := !openFails, history;
      new;
      if !history {
        RemovePersistedSourceText(fault);
      }
    }

    /** Runs a statement with its commit, or records its failure. */
    method Execute(rows: Rows, fault: Fault)
      requires available
      modifies this`available, disk
      ensures State() == Executed(old(State()), rows, fault)
    {
      disk.files := disk.files[path := Written(RowsAt(disk.files, path), rows, fault)];
      if !fault.NoFault? {
        available := false;
      }
    }

    method RemovePersistedSourceText(fault: Fault)
      modifies this`available, disk
      ensures State() == Executed(old(State()), WithoutSourceText(RowsOf(old(State()))), fault)
    {
      if available {
        Execute(WithoutSourceText(RowsAt(disk.files, path)), fault);
      }
    }

    method Get(source: string, target: string, text: string, now: nat, fault: Fault) returns (r: Option<Entry>)
      modifies this`available, disk
      ensures r == Looked(old(State()), RowKeyOf(hash, MakeKey(source, target, text)), fault)
      ensures State() == StoreTouched(old(State()), RowKeyOf(hash, MakeKey(source, target, text)), now, fault)
    {
      if !available {
        return None;
      }
      var k := RowKeyOf(hash, MakeKey(source, target, text));
      var rows := RowsAt(disk.files, path);
      r := if k in rows && fault.NoFault? then Some(Read(rows[k])) else None;
      Execute(Touched(rows, k, now), fault);
    }

    method Set(source: string, target: string, text: string, e: Entry, now: nat, fault: Fault)
      modifies this`available, disk
      ensures State() == StoreSet(old(State()), RowKeyOf(hash, MakeKey(source, target, text)), text, e, now, fault)
    {
      if available {
        var k := RowKeyOf(hash, MakeKey(source, target, text));
        Execute(Upserted(RowsAt(disk.files, path), k, text, e, historyEnabled, now), fault);
      }
    }

    method Touch(source: string, target: string, text: string, now: nat, fault: Fault)
      modifies this`available, disk
      ensures State() == StoreTouched(old(State()), RowKeyOf(hash, MakeKey(source, target, text)), now, fault)
    {
      if available {
        Execute(Touched(RowsAt(disk.files, path), RowKeyOf(hash, MakeKey(source, target, text)), now), fault);
      }
    }

    method Clear(fault: Fault)
      modifies this`available, disk
      ensures State() == Executed(old(State()), map[], fault)
    {
      if available {
        Execute(map[], fault);
      }
    }

    method SetHistoryEnabled(enabled: bool, fault: Fault)
      modifies this`available, this`historyEnabled, disk
      ensures State() == StoreHistory(old(State()), enabled, fault)
    {
      historyEnabled := enabled;
      if !enabled {
        RemovePersistedSourceText(fault);
      }
    }

    method Close()
      modifies this`available
      ensures State() == old(State()).(store := old(State()).store.(available := false))
    {
      available := false;
    }
  }

  // ---------------------------------------------------------------- the memory cache

  type Entries = seq<(Key, Entry)>

  function Position(entries: Entries, k: Key): (i: nat)
    ensures i <= |entries|
    ensures i < |entries| ==> entries[i].0 == k
    ensures forall j | 0 <= j < i :: entries[j].0 != k
  {
    if entries == [] || entries[0].0 == k then 0 else 1 + Position(entries[1..], k)
  }

  /** The entries without position `i`, and then `x` as the most recently used one. */
  function Moved(entries: Entries, i: nat, x: (Key, Entry)): Entries
    requires i < |entries|
  {
    entries[..i] + entries[i + 1..] + [x]
  }

  /** Assigning to the memory cache: a new key evicts the least recently used entry of a full cache. */
  function Put(entries: Entries, k: Key, e: Entry, maxSize: nat): Entries {
    var i := Position(entries, k);
    if i < |entries| then Moved(entries, i, (k, e))
    else if |entries| > 0 && |entries| >= maxSize then entries[1..] + [(k, e)]
    else entries + [(k, e)]
  }

  // ---------------------------------------------------------------- both levels

  datatype Cache = Cache(entries: Entries, maxSize: nat, enabled: bool, sqliteEnabled: bool, path: Option<string>,
                         history: bool, store: Option<Store>, files: Files)

  function Level2Of(c: Cache): Level2
    requires c.store.Some?
  {
    Level2(c.store.value, c.files)
  }

  function With(c: Cache, l: Level2): Cache {
    c.(store := Some(l.store), files := l.files)
  }

  function OpenedFor(c: Cache, openFails: bool, fault: Fault): Cache {
    if !c.sqliteEnabled || c.path.None? then c
    else With(c, Opened(c.files, c.path.value, c.history, openFails, fault))
  }

  function Got(hash: string -> nat, c: Cache, k: Key, fault: Fault): Option<Entry> {
    var i := Position(c.entries, k);
    if !c.enabled then None
    else if i < |c.entries| then Some(c.entries[i].1)
    else if c.store.None? then None
    else Looked(Level2Of(c), RowKeyOf(hash, k), fault)
  }

  function AfterGet(hash: string -> nat, c: Cache, k: Key, now: nat, fault: Fault): Cache {
    var i := Position(c.entries, k);
    var r := Got(hash, c, k, fault);
    if !c.enabled then c
    else
      var c' := if c.store.None? then c else With(c, StoreTouched(Level2Of(c), RowKeyOf(hash, k), now, fault));
      if i < |c.entries| then c'.(entries := Moved(c.entries, i, c.entries[i]))
      else if r.Some? then c'.(entries := Put(c.entries, k, r.value, c.maxSize))
      else c'
  }

  function AfterSet(hash: string -> nat, c: Cache, k: Key, sourceText: string, e: Entry, now: nat, fault: Fault): Cache {
    if !c.enabled then c
    else
      var c' := if c.store.None? then c else With(c, StoreSet(Level2Of(c), RowKeyOf(hash, k), sourceText, e, now, fault));
      c'.(entries := Put(c.entries, k, e, c.maxSize))
  }

  function AfterClear(c: Cache, fault: Fault): Cache {
    var c' := if c.store.None? then c else With(c, Executed(Level2Of(c), map[], fault));
    c'.(entries := [])
  }

  function Or<T>(o: Option<T>, default: T): T {
    if o.Some? then o.value else default
  }

  /** `configure_persistence`; an omitted argument keeps the setting. */
  function AfterConfigure(c: Cache, sqliteEnabled: Option<bool>, path: Option<string>, history: Option<bool>,
                          openFails: bool, fault: Fault): Cache {
    var nextEnabled, nextPath := Or(sqliteEnabled, c.sqliteEnabled), if path.Some? then path else c.path;
    var nextHistory := Or(history, c.history);
    if nextPath != c.path || nextEnabled != c.sqliteEnabled then
      OpenedFor(c.(store := None, sqliteEnabled := nextEnabled, path := nextPath, history := nextHistory), openFails, fault)
    else if nextHistory != c.history && c.store.Some? then
      With(c.(history := nextHistory), StoreHistory(Level2Of(c), nextHistory, fault))
    else c.(history := nextHistory)
  }

  class TranslationCache {
    const disk: Disk
    const hash: string -> nat
    const maxSize: nat
    const enabled: bool
    var entries: Entries
    var sqliteEnabled: bool
    var path: Option<string>
    var historyEnabled: bool
    var store: SQLiteTranslationStore?

    ghost predicate Valid()
      reads this, store
    {
      store != null ==> store.disk == disk && store.hash == hash
    }

    function State(): Cache
      reads this, store, disk
    {
      Cache(entries, maxSize, enabled, sqliteEnabled, path, historyEnabled,
            if store == null then None else Some(Store(store.path, store.available, store.historyEnabled)), disk.files)
    }

    constructor (disk: Disk, hash: string -> nat, maxSize: nat, enabled: bool, sqliteEnabled: bool, path: Option<string>,
                 history: bool, openFails: bool, fault: Fault)
      requires maxSize >= 1
      modifies disk
      ensures Valid() && this.disk == disk && this.hash == hash && (store != null ==> fresh(store))
      ensures State() == OpenedFor(Cache([], maxSize, enabled, sqliteEnabled, path, history, None, old(disk.files)),
                                   openFails, fault)
    {
      this.disk, this.hash, this.maxSize, this.enabled := disk, hash, maxSize, enabled;
      this.entries, this.sqliteEnabled, this.path, historyEnabled, store := [], sqliteEnabled, path, history, null;
      new;
      OpenSqliteStore(openFails, fault);
    }

    method OpenSqliteStore(openFails: bool, fault: Fault)
      requires store == null
      modifies this`store, disk
      ensures Valid() && (store != null ==> fresh(store))
      ensures State() == OpenedFor(old(State()), openFails, fault)
    {
      if sqliteEnabled && path.Some? {
        store := new SQLiteTranslationStore(disk, path.value, hash, historyEnabled, openFails, fault);
      }
    }

    method Get(source: string, target: string, text: string, now: nat, fault: Fault) returns (r: Option<Entry>)
      requires Valid()
      modifies this`entries, store, disk
      ensures Valid()
      ensures r == Got(hash, old(State()), MakeKey(source, target, text), fault)
      ensures State() == AfterGet(hash, old(State()), MakeKey(source, target, text), now, fault)
    {
      if !enabled {
        return None;
      }
      var k := MakeKey(source, target, text);
      var i := Position(entries, k);
      if i < |entries| {
        r := Some(entries[i].1);
        entries := Moved(entries, i, entries[i]);
        if store != null && store.available {
          store.Touch(source, target, text, now, fault);
        }
        return;
      }
      if store == null || !store.available {
        return None;
      }
      r := store.Get(source, target, text, now, fault);
      if r.Some? {
        entries := Put(entries, k, r.value, maxSize);
      }
    }

    method Set(source: string, target: string, text: string, e: Entry, now: nat, fault: Fault)
      requires Valid()
      modifies this`entries, store, disk
      ensures Valid()
      ensures State() == AfterSet(hash, old(State()), MakeKey(source, target, text), text, e, now, fault)
    {
      if !enabled {
        return;
      }
      if store != null && store.available {
        store.Set(source, target, text, e, now, fault);
      }
      entries := Put(entries, MakeKey(source, target, text), e, maxSize);
    }

    method Clear(fault: Fault)
      requires Valid()
      modifies this`entries, store, disk
      ensures Valid()
      ensures State() == AfterClear(old(State()), fault)
    {
      entries := [];
      if store != null {
        store.Clear(fault);
      }
    }

    method ConfigurePersistence(sqliteEnabled: Option<bool>, path: Option<string>, history: Option<bool>, openFails: bool,
                                fault: Fault)
      requires Valid()
      modifies this`sqliteEnabled, this`path, this`historyEnabled, this`store, store, disk
      ensures Valid() && (store != null ==> store == old(store) || fresh(store))
      ensures State() == AfterConfigure(old(State()), sqliteEnabled, path, history, openFails, fault)
    {
      var nextEnabled, nextPath := Or(sqliteEnabled, this.sqliteEnabled), if path.Some? then path else this.path;
      var nextHistory := Or(history, historyEnabled);
      if nextPath != this.path || nextEnabled != this.sqliteEnabled {
        Reopen(nextEnabled, nextPath, nextHistory, openFails, fault);
      } else if nextHistory != historyEnabled {
        SwitchHistory(nextHistory, fault);
      }
    }

    method Reopen(sqliteEnabled: bool, path: Option<string>, history: bool, openFails: bool, fault: Fault)
      requires Valid()
      modifies this`sqliteEnabled, this`path, this`historyEnabled, this`store, store, disk
      ensures Valid() && (store != null ==> fresh(store))
      ensures State() == OpenedFor(old(State()).(store := None, sqliteEnabled := sqliteEnabled, path := path,
                                                 history := history), openFails, fault)
    {
      if store != null {
        store.Close();
      }
      this.sqliteEnabled, this.path, historyEnabled, store := sqliteEnabled, path, history, null;
      OpenSqliteStore(openFails, fault);
    }

    method SwitchHistory(history: bool, fault: Fault)
      requires Valid()
      modifies this`historyEnabled, store, disk
      ensures Valid()
      ensures var c := old(State()).(history := history);
              State() == if c.store.Some? then With(c, StoreHistory(Level2Of(c), history, fault)) else c
    {
      historyEnabled := history;
      if store != null {
        store.SetHistoryEnabled(history, fault);
      }
    }

    method Close()
      requires Valid()
      modifies this`store, store
      ensures Valid() && State() == old(State()).(store := None)
    {
      if store != null {
        store.Close();
      }
      store := null;
    }
  }
}
