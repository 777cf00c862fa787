/** What the translation cache keeps over whole runs: freshness, durability of evicted entries, recency and privacy. */
module TranslationCacheRuns {
  import opened Wrappers
  import opened Text
  import opened TranslationCaches

  datatype Operation =
    | Get(source: string, target: string, text: string)
    | Set(source: string, target: string, text: string, entry: Entry)
    | Clear
    | Configure(sqliteEnabled: Option<bool>, path: Option<string>, history: Option<bool>, openFails: bool)
    | Close

  /** An operation with the time of the call and what its statements do. */
  datatype Step = Step(op: Operation, now: nat, fault: Fault)

  /** What the methods of the cache make of its state. */
  function Perform(hash: string -> nat, c: Cache, s: Step): Cache {
    match s.op
    case Get(source, target, text) => AfterGet(hash, c, MakeKey(source, target, text), s.now, s.fault)
    case Set(source, target, text, e) => AfterSet(hash, c, MakeKey(source, target, text), text, e, s.now, s.fault)
    case Clear => AfterClear(c, s.fault)
    case Configure(sqliteEnabled, path, history, openFails) =>
      AfterConfigure(c, sqliteEnabled, path, history, openFails, s.fault)
    case Close => c.(store := None)
  }

  function PerformAll(hash: string -> nat, c: Cache, steps: seq<Step>): Cache {
    if steps == [] then c
    else Perform(hash, PerformAll(hash, c, steps[..|steps| - 1]), steps[|steps| - 1])
  }

  /** A cache just constructed over the files of a disk. */
  function Start(maxSize: nat, enabled: bool, sqliteEnabled: bool, path: Option<string>, history: bool, files: Files,
                 openFails: bool, fault: Fault): Cache {
    OpenedFor(Cache([], maxSize, enabled, sqliteEnabled, path, history, None, files), openFails, fault)
  }

  ghost predicate Injective(hash: string -> nat) {
    forall a, b :: hash(a) == hash(b) ==> a == b
  }

  predicate Usable(c: Cache) {
    c.store.Some? && c.store.value.available
  }

  // ---------------------------------------------------------------- what counts as the same request

  /** The texts differ in their line endings and in the white space around them at most. */
  ghost predicate SameText(x: string, y: string) {
    exists core, a, b, c, d: string | AllSpace(a) && AllSpace(b) && AllSpace(c) && AllSpace(d) ::
      UnixLines(x) == a + core + b && UnixLines(y) == c + core + d
  }

  lemma {:induction false} SameTextExactly(x: string, y: string)
    ensures SameText(x, y) <==> Strip(UnixLines(x)) == Strip(UnixLines(y))
  {
    if SameText(x, y) {
      var core, a, b, c, d: string :| AllSpace(a) && AllSpace(b) && AllSpace(c) && AllSpace(d)
                                      && UnixLines(x) == a + core + b && UnixLines(y) == c + core + d;
      StripAround(a, core, b);
      StripAround(c, core, d);
    }
    if Strip(UnixLines(x)) == Strip(UnixLines(y)) {
      var a, b := AroundStrip(UnixLines(x));
      var c, d := AroundStrip(UnixLines(y));
      assert UnixLines(x) == a + Strip(UnixLines(x)) + b && UnixLines(y) == c + Strip(UnixLines(x)) + d;
    }
  }

  /** Two requests have one key exactly if they are for the same languages and the same text. */
  lemma {:induction false} OneKeyExactly(source: string, target: string, text: string, source': string, target': string,
                                         text': string)
    ensures MakeKey(source, target, text) == MakeKey(source', target', text')
            <==> source == source' && target == target' && SameText(text, text')
  {
    SameTextExactly(text, text');
  }

  // ---------------------------------------------------------------- freshness

  /** The store stays the one that was opened; it may be closed and its history mode may change. */
  predicate Steady(s: Step) {
    s.op.Configure? ==> s.op.sqliteEnabled.None? && s.op.path.None?
  }

  predicate AllSteady(steps: seq<Step>) {
    forall s | s in steps :: Steady(s)
  }

  /** The last entry set under the key since the last clear, or what the store held when it was opened. */
  function LastWrite(hash: string -> nat, start: Cache, steps: seq<Step>, k: Key): Option<Entry> {
    if steps == [] then
      if start.store.Some? && RowKeyOf(hash, k) in RowsOf(Level2Of(start))
      then Some(Read(RowsOf(Level2Of(start))[RowKeyOf(hash, k)])) else None
    else
      var op := steps[|steps| - 1].op;
      if op.Clear? then None
      else if op.Set? && start.enabled && MakeKey(op.source, op.target, op.text) == k then Some(op.entry)
      else LastWrite(hash, start, steps[..|steps| - 1], k)
  }

  /** What a lookup may return for a written entry: the entry, under a default name if its provider is empty. */
  predicate Serves(got: Entry, written: Entry) {
    got == written || (written.provider == "" && got == Entry(written.text, "persistent_cache"))
  }

  predicate ServesSome(got: Entry, written: Option<Entry>) {
    written.Some? && Serves(got, written.value)
  }

  /** Every entry in memory is the last write under its key. */
  predicate MemoryIsFresh(hash: string -> nat, c: Cache, start: Cache, steps: seq<Step>) {
    forall i | 0 <= i < |c.entries| :: ServesSome(c.entries[i].1, LastWrite(hash, start, steps, c.entries[i].0))
  }

  /** The table has exactly the keys that have a last write, each with that write. */
  ghost predicate RowsAreExact(hash: string -> nat, rows: Rows, start: Cache, steps: seq<Step>) {
    forall k: Key ::
      if RowKeyOf(hash, k) in rows then ServesSome(Read(rows[RowKeyOf(hash, k)]), LastWrite(hash, start, steps, k))
      else LastWrite(hash, start, steps, k).None?
  }

  ghost predicate Fresh(hash: string -> nat, c: Cache, start: Cache, steps: seq<Step>) {
    && c.enabled == start.enabled && MemoryIsFresh(hash, c, start, steps)
    && (Usable(c) ==> RowsAreExact(hash, RowsOf(Level2Of(c)), start, steps))
  }

  lemma {:induction false} PutMembers(entries: Entries, k: Key, e: Entry, maxSize: nat)
    ensures forall x | x in Put(entries, k, e, maxSize) :: x == (k, e) || x in entries
    ensures DistinctEntries(entries) ==> forall x | x in Put(entries, k, e, maxSize) && x.0 == k :: x == (k, e)
  {
  }

  predicate DistinctEntries(entries: Entries) {
    forall i, j | 0 <= i < j < |entries| :: entries[i].0 != entries[j].0
  }

  lemma {:induction false} PutStaysDistinct(entries: Entries, k: Key, e: Entry, maxSize: nat)
    requires DistinctEntries(entries) && |entries| <= maxSize && maxSize >= 1
    ensures DistinctEntries(Put(entries, k, e, maxSize)) && |Put(entries, k, e, maxSize)| <= maxSize
  {
  }

  /** The memory cache within its bound. */
  predicate Bounded(c: Cache) {
    DistinctEntries(c.entries) && |c.entries| <= c.maxSize && c.maxSize >= 1
  }

  /** A lookup and a write leave memory unchanged or assign one key. */
  lemma {:induction false} GetAssigns(hash: string -> nat, c: Cache, k: Key, now: nat, fault: Fault)
    ensures var c', r := AfterGet(hash, c, k, now, fault), Got(hash, c, k, fault);
            && c'.maxSize == c.maxSize && c'.enabled == c.enabled
            && c'.entries == if r.Some? then Put(c.entries, k, r.value, c.maxSize) else c.entries
  {
  }

  lemma {:induction false} StepStaysBounded(hash: string -> nat, c: Cache, s: Step)
    requires Bounded(c)
    ensures Bounded(Perform(hash, c, s)) && Perform(hash, c, s).maxSize == c.maxSize
  {
    match s.op
    case Get(source, target, text) =>
      var k := MakeKey(source, target, text);
      var r := Got(hash, c, k, s.fault);
      GetAssigns(hash, c, k, s.now, s.fault);
      if r.Some? {
        PutStaysDistinct(c.entries, k, r.value, c.maxSize);
      }
    case Set(source, target, text, e) => PutStaysDistinct(c.entries, MakeKey(source, target, text), e, c.maxSize);
    case _ =>
  }

  lemma {:induction false} RunStaysBounded(hash: string -> nat, c: Cache, steps: seq<Step>)
    requires Bounded(c)
    ensures Bounded(PerformAll(hash, c, steps)) && PerformAll(hash, c, steps).maxSize == c.maxSize
  {
    if steps != [] {
      RunStaysBounded(hash, c, steps[..|steps| - 1]);
      StepStaysBounded(hash, PerformAll(hash, c, steps[..|steps| - 1]), steps[|steps| - 1]);
    }
  }

  lemma {:induction false} LastWriteAfter(hash: string -> nat, start: Cache, steps: seq<Step>, s: Step, k: Key)
    ensures LastWrite(hash, start, steps + [s], k)
            == if s.op.Clear? then None
               else if s.op.Set? && start.enabled && MakeKey(s.op.source, s.op.target, s.op.text) == k then Some(s.op.entry)
               else LastWrite(hash, start, steps, k)
  {
    assert (steps + [s])[..|steps|] == steps;
  }

  lemma {:induction false} SameWrites(hash: string -> nat, start: Cache, steps: seq<Step>, s: Step)
    requires !s.op.Clear? && (s.op.Set? ==> !start.enabled)
    ensures forall k :: LastWrite(hash, start, steps + [s], k) == LastWrite(hash, start, steps, k)
  {
    forall k
      ensures LastWrite(hash, start, steps + [s], k) == LastWrite(hash, start, steps, k)
    {
      LastWriteAfter(hash, start, steps, s, k);
    }
  }

  /** Rows that differ in use time or source text only read the same. */
  predicate ReadTheSame(a: Rows, b: Rows) {
    a.Keys == b.Keys && forall k | k in a :: Read(a[k]) == Read(b[k])
  }

  lemma {:induction false} StillExact(hash: string -> nat, a: Rows, b: Rows, start: Cache, steps: seq<Step>, s: Step)
    requires RowsAreExact(hash, a, start, steps) && ReadTheSame(a, b)
    requires !s.op.Clear? && (s.op.Set? ==> !start.enabled)
    ensures RowsAreExact(hash, b, start, steps + [s])
  {
    SameWrites(hash, start, steps, s);
  }

  lemma {:induction false} GetStaysFresh(hash: string -> nat, c: Cache, start: Cache, steps: seq<Step>, s: Step)
    requires Fresh(hash, c, start, steps) && s.op.Get?
    ensures Fresh(hash, Perform(hash, c, s), start, steps + [s])
  {
    var k := MakeKey(s.op.source, s.op.target, s.op.text);
    SameWrites(hash, start, steps, s);
    GetKeepsMemoryFresh(hash, c, start, steps, k, s.now, s.fault);
    SameMemory(hash, Perform(hash, c, s), start, steps, s);
    if Usable(Perform(hash, c, s)) {
      GetReadsTheSame(hash, c, k, s.now, s.fault);
      StillExact(hash, RowsOf(Level2Of(c)), RowsOf(Level2Of(Perform(hash, c, s))), start, steps, s);
    }
  }

  lemma {:induction false} GetReadsTheSame(hash: string -> nat, c: Cache, k: Key, now: nat, fault: Fault)
    requires Usable(AfterGet(hash, c, k, now, fault))
    ensures Usable(c) && ReadTheSame(RowsOf(Level2Of(c)), RowsOf(Level2Of(AfterGet(hash, c, k, now, fault))))
  {
  }

  lemma {:induction false} SameMemory(hash: string -> nat, c: Cache, start: Cache, steps: seq<Step>, s: Step)
    requires MemoryIsFresh(hash, c, start, steps)
    requires forall k :: LastWrite(hash, start, steps + [s], k) == LastWrite(hash, start, steps, k)
    ensures MemoryIsFresh(hash, c, start, steps + [s])
  {
  }

  lemma {:induction false} GetKeepsMemoryFresh(hash: string -> nat, c: Cache, start: Cache, steps: seq<Step>, k: Key, now: nat,
                                               fault: Fault)
    requires Fresh(hash, c, start, steps)
    ensures var c' := AfterGet(hash, c, k, now, fault);
            c'.enabled == c.enabled && MemoryIsFresh(hash, c', start, steps)
  {
    var r := Got(hash, c, k, fault);
    GetAssigns(hash, c, k, now, fault);
    GotIsLastWrite(hash, c, start, steps, k, fault);
    if r.Some? {
      PutIsFresh(hash, c, k, r.value, start, steps, AfterGet(hash, c, k, now, fault));
    }
  }

  lemma {:induction false} PutIsFresh(hash: string -> nat, c: Cache, k: Key, e: Entry, start: Cache, steps: seq<Step>, c': Cache)
    requires MemoryIsFresh(hash, c, start, steps) && ServesSome(e, LastWrite(hash, start, steps, k))
    requires c'.entries == Put(c.entries, k, e, c.maxSize)
    ensures MemoryIsFresh(hash, c', start, steps)
  {
    PutMembers(c.entries, k, e, c.maxSize);
    forall i | 0 <= i < |c'.entries|
      ensures ServesSome(c'.entries[i].1, LastWrite(hash, start, steps, c'.entries[i].0))
    {
      assert c'.entries[i] in Put(c.entries, k, e, c.maxSize);
      if c'.entries[i] != (k, e) {
        var j :| 0 <= j < |c.entries| && c.entries[j] == c'.entries[i];
      }
    }
  }

  /** Whatever fails, a lookup returns nothing or the last write. */
  lemma {:induction false} GotIsLastWrite(hash: string -> nat, c: Cache, start: Cache, steps: seq<Step>, k: Key, fault: Fault)
    requires Fresh(hash, c, start, steps)
    ensures var r := Got(hash, c, k, fault);
            && (r.Some? ==> ServesSome(r.value, LastWrite(hash, start, steps, k)))
            && (Usable(c) && c.enabled && fault.NoFault? ==> (r.Some? <==> LastWrite(hash, start, steps, k).Some?))
  {
    var i := Position(c.entries, k);
    if i < |c.entries| {
      assert ServesSome(c.entries[i].1, LastWrite(hash, start, steps, c.entries[i].0));
    }
  }

  lemma {:induction false} SetStaysFresh(hash: string -> nat, c: Cache, start: Cache, steps: seq<Step>, s: Step)
    requires Fresh(hash, c, start, steps) && s.op.Set? && Injective(hash) && DistinctEntries(c.entries)
    ensures Fresh(hash, Perform(hash, c, s), start, steps + [s])
  {
    var k := MakeKey(s.op.source, s.op.target, s.op.text);
    var c' := Perform(hash, c, s);
    if !c.enabled {
      SameWrites(hash, start, steps, s);
    } else {
      if Usable(c') {
        assert Usable(c) && s.fault.NoFault?;
        assert RowsOf(Level2Of(c')) == Upserted(RowsOf(Level2Of(c)), RowKeyOf(hash, k), s.op.text, s.op.entry,
                                                c.store.value.history, s.now);
        UpsertIsExact(hash, RowsOf(Level2Of(c)), start, steps, s, c.store.value.history);
      }
      PutMembers(c.entries, k, s.op.entry, c.maxSize);
      forall i | 0 <= i < |c'.entries|
        ensures ServesSome(c'.entries[i].1, LastWrite(hash, start, steps + [s], c'.entries[i].0))
      {
        LastWriteAfter(hash, start, steps, s, c'.entries[i].0);
        assert c'.entries[i] in Put(c.entries, k, s.op.entry, c.maxSize);
        if c'.entries[i].0 != k {
          var j :| 0 <= j < |c.entries| && c.entries[j] == c'.entries[i];
        }
      }
    }
  }

  lemma {:induction false} UpsertIsExact(hash: string -> nat, rows: Rows, start: Cache, steps: seq<Step>, s: Step, history: bool)
    requires RowsAreExact(hash, rows, start, steps) && s.op.Set? && start.enabled && Injective(hash)
    ensures var k := MakeKey(s.op.source, s.op.target, s.op.text);
            RowsAreExact(hash, Upserted(rows, RowKeyOf(hash, k), s.op.text, s.op.entry, history, s.now), start, steps + [s])
  {
    var k := MakeKey(s.op.source, s.op.target, s.op.text);
    var rows' := Upserted(rows, RowKeyOf(hash, k), s.op.text, s.op.entry, history, s.now);
    forall x: Key
      ensures if RowKeyOf(hash, x) in rows'
              then ServesSome(Read(rows'[RowKeyOf(hash, x)]), LastWrite(hash, start, steps + [s], x))
              else LastWrite(hash, start, steps + [s], x).None?
    {
      LastWriteAfter(hash, start, steps, s, x);
      assert RowKeyOf(hash, x) == RowKeyOf(hash, k) ==> x == k;
    }
  }

  lemma {:induction false} OtherStepStaysFresh(hash: string -> nat, c: Cache, start: Cache, steps: seq<Step>, s: Step)
    requires Fresh(hash, c, start, steps) && Steady(s) && !s.op.Get? && !s.op.Set?
    ensures Fresh(hash, Perform(hash, c, s), start, steps + [s])
  {
    var c' := Perform(hash, c, s);
    if s.op.Clear? {
      forall k
        ensures LastWrite(hash, start, steps + [s], k) == None
      {
        LastWriteAfter(hash, start, steps, s, k);
      }
    } else {
      SameWrites(hash, start, steps, s);
      if Usable(c') {
        StillExact(hash, RowsOf(Level2Of(c)), RowsOf(Level2Of(c')), start, steps, s);
      }
    }
  }

  lemma {:induction false} RunStaysFresh(hash: string -> nat, start: Cache, steps: seq<Step>)
    requires Injective(hash) && AllSteady(steps) && start.entries == [] && start.maxSize >= 1
    ensures Fresh(hash, PerformAll(hash, start, steps), start, steps)
  {
    if steps != [] {
      var before, last := steps[..|steps| - 1], steps[|steps| - 1];
      var c := PerformAll(hash, start, before);
      assert last in steps && steps == before + [last];
      RunStaysFresh(hash, start, before);
      RunStaysBounded(hash, start, before);
      match last.op
      case Get(_, _, _) => GetStaysFresh(hash, c, start, before, last);
      case Set(_, _, _, _) => SetStaysFresh(hash, c, start, before, last);
      case _ => OtherStepStaysFresh(hash, c, start, before, last);
    }
  }

  /** The write is for the same languages and the same text. */
  ghost predicate Writes(op: Operation, source: string, target: string, text: string) {
    op.Set? && op.source == source && op.target == target && SameText(op.text, text)
  }

  /**
   * The last entry set for the languages and the text since the last clear, or what the store held for them when it was
   * opened: the row under the hash of the text, without its outer white space and with Unix line ends.
   */
  ghost function LastWriteFor(hash: string -> nat, start: Cache, steps: seq<Step>, source: string, target: string,
                              text: string): Option<Entry>
  {
    if steps == [] then
      var k := RowKey(hash(Strip(UnixLines(text))), source, target);
      if start.store.Some? && k in RowsOf(Level2Of(start)) then Some(Read(RowsOf(Level2Of(start))[k])) else None
    else
      var op := steps[|steps| - 1].op;
      if op.Clear? then None
      else if start.enabled && Writes(op, source, target, text) then Some(op.entry)
      else LastWriteFor(hash, start, steps[..|steps| - 1], source, target, text)
  }

  lemma {:induction false} LastWriteOfKey(hash: string -> nat, start: Cache, steps: seq<Step>, source: string,
                                          target: string, text: string)
    ensures LastWrite(hash, start, steps, MakeKey(source, target, text))
            == LastWriteFor(hash, start, steps, source, target, text)
  {
    if steps != [] {
      var op := steps[|steps| - 1].op;
      LastWriteOfKey(hash, start, steps[..|steps| - 1], source, target, text);
      if op.Set? {
        OneKeyExactly(op.source, op.target, op.text, source, target, text);
      }
    }
  }

  /**
   * Over one opening of the store, with failures of any statement: a lookup returns nothing or the last write for its
   * languages and its text. While the store is usable and the statements of the lookup succeed it returns exactly that.
   */
  lemma {:induction false} LookupsReturnTheLastWrite(hash: string -> nat, start: Cache, steps: seq<Step>, source: string,
                                                     target: string, text: string, fault: Fault)
    requires Injective(hash) && AllSteady(steps) && start.entries == [] && start.maxSize >= 1
    ensures var c, k := PerformAll(hash, start, steps), MakeKey(source, target, text);
            var r, last := Got(hash, c, k, fault), LastWriteFor(hash, start, steps, source, target, text);
            && (r.Some? ==> ServesSome(r.value, last))
            && (Usable(c) && c.enabled && fault.NoFault? ==> (r.Some? <==> last.Some?))
  {
    RunStaysFresh(hash, start, steps);
    LastWriteOfKey(hash, start, steps, source, target, text);
    GotIsLastWrite(hash, PerformAll(hash, start, steps), start, steps, MakeKey(source, target, text), fault);
  }

  /**
   * What a write leaves in a usable store: the row of its languages and text, with the translation, the times, and the
   * source text if history is on; every other row is as it was.
   */
  lemma {:induction false} WriteStoresItsRow(hash: string -> nat, c: Cache, source: string, target: string, text: string,
                                             e: Entry, now: nat)
    requires c.enabled && Usable(c)
    ensures var c' := Perform(hash, c, Step(Set(source, target, text, e), now, NoFault));
            var before, after := RowsOf(Level2Of(c)), RowsOf(Level2Of(c'));
            var k := RowKey(hash(Strip(UnixLines(text))), source, target);
            && Usable(c') && after.Keys == before.Keys + {k} && (forall x | x in before && x != k :: after[x] == before[x])
            && after[k].translated == e.text && after[k].provider == e.provider && after[k].lastUsedAt == now
            && after[k].createdAt == (if k in before then before[k].createdAt else now)
            && after[k].sourceText == if c.store.value.history then Some(text)
                                      else if k in before then before[k].sourceText else None
  {
  }

  /** A configuration keeps what it omits and sets what it names; memory stays. */
  lemma {:induction false} ConfigureSetsWhatItNames(hash: string -> nat, c: Cache, sqliteEnabled: Option<bool>,
                                                    path: Option<string>, history: Option<bool>, openFails: bool, now: nat,
                                                    fault: Fault)
    ensures var c' := Perform(hash, c, Step(Configure(sqliteEnabled, path, history, openFails), now, fault));
            && c'.entries == c.entries && c'.maxSize == c.maxSize && c'.enabled == c.enabled
            && c'.sqliteEnabled == (if sqliteEnabled.Some? then sqliteEnabled.value else c.sqliteEnabled)
            && c'.path == (if path.Some? then path else c.path)
            && c'.history == (if history.Some? then history.value else c.history)
            && ((c'.path, c'.sqliteEnabled) != (c.path, c.sqliteEnabled) ==>
                  (c'.store.Some? <==> c'.sqliteEnabled && c'.path.Some?))
            && (c'.store.Some? && c.store.None? ==> c'.store.value.path == c'.path.value)
            && (c'.store.Some? && (c'.path, c'.sqliteEnabled) != (c.path, c.sqliteEnabled) ==>
                  c'.store.value.path == c'.path.value && c'.store.value.history == c'.history)
  {
  }

  /** What a lookup finds in the store alone: the translation of the row, under its provider or the default name. */
  lemma {:induction false} StoredRowIsServed(hash: string -> nat, c: Cache, source: string, target: string, text: string)
    requires c.enabled && Usable(c) && forall i | 0 <= i < |c.entries| :: c.entries[i].0 != MakeKey(source, target, text)
    ensures var rows, k := RowsOf(Level2Of(c)), RowKey(hash(Strip(UnixLines(text))), source, target);
            Got(hash, c, MakeKey(source, target, text), NoFault)
            == if k !in rows then None
               else if rows[k].provider == "" then Some(Entry(rows[k].translated, "persistent_cache"))
               else Some(Entry(rows[k].translated, rows[k].provider))
  {
    var i := Position(c.entries, MakeKey(source, target, text));
  }

  /** While the store is usable, every key in memory has its row there, with the same last write: eviction loses nothing. */
  lemma {:induction false} MemoryIsStored(hash: string -> nat, start: Cache, steps: seq<Step>, i: nat)
    requires Injective(hash) && AllSteady(steps) && start.entries == [] && start.maxSize >= 1
    requires var c := PerformAll(hash, start, steps); Usable(c) && i < |c.entries|
    ensures var c := PerformAll(hash, start, steps);
            var rows, k := RowsOf(Level2Of(c)), RowKeyOf(hash, c.entries[i].0);
            var last := LastWrite(hash, start, steps, c.entries[i].0);
            && k in rows && ServesSome(Read(rows[k]), last) && ServesSome(c.entries[i].1, last)
            && (last.value.provider != "" ==> Read(rows[k]) == c.entries[i].1)
  {
    RunStaysFresh(hash, start, steps);
    var c := PerformAll(hash, start, steps);
    assert ServesSome(c.entries[i].1, LastWrite(hash, start, steps, c.entries[i].0));
    assert RowsAreExact(hash, RowsOf(Level2Of(c)), start, steps);
  }

  // ---------------------------------------------------------------- recency

  /** The keys that lookups and writes name. */
  function Named(steps: seq<Step>): set<Key> {
    if steps == [] then {}
    else
      var op := steps[|steps| - 1].op;
      Named(steps[..|steps| - 1])
      + if op.Get? || op.Set? then {MakeKey(op.source, op.target, op.text)} else {}
  }

  predicate NoClear(steps: seq<Step>) {
    forall s | s in steps :: !s.op.Clear?
  }

  function SetBy(e: Entry, s: Step, k: Key): Entry {
    if s.op.Set? && MakeKey(s.op.source, s.op.target, s.op.text) == k then s.op.entry else e
  }

  /** The last value that the steps set under the key, starting from `e`. */
  function LastSet(e: Entry, steps: seq<Step>, k: Key): Entry {
    if steps == [] then e else SetBy(LastSet(e, steps[..|steps| - 1], k), steps[|steps| - 1], k)
  }

  /** The entry is in memory, and every more recent one has a key of `others`. */
  predicate Held(entries: Entries, k: Key, e: Entry, others: set<Key>) {
    exists i | 0 <= i < |entries| :: entries[i] == (k, e) && forall j | i < j < |entries| :: entries[j].0 in others
  }

  lemma {:induction false} DistinctFit(entries: Entries, keys: set<Key>)
    requires DistinctEntries(entries) && forall i | 0 <= i < |entries| :: entries[i].0 in keys
    ensures |entries| <= |keys|
  {
    if entries != [] {
      DistinctFit(entries[1..], keys - {entries[0].0});
    }
  }

  lemma {:induction false} PutHolds(entries: Entries, k: Key, e: Entry, maxSize: nat, others: set<Key>)
    requires DistinctEntries(entries)
    ensures Held(Put(entries, k, e, maxSize), k, e, others)
  {
    var r := Put(entries, k, e, maxSize);
    assert r[|r| - 1] == (k, e);
  }

  lemma {:induction false} PutKeepsHeld(entries: Entries, k: Key, e: Entry, k': Key, e': Entry, maxSize: nat, others: set<Key>)
    requires DistinctEntries(entries) && |entries| <= maxSize && Held(entries, k, e, others)
    requires k' != k && k' in others && |others| < maxSize
    ensures Held(Put(entries, k', e', maxSize), k, e, others)
  {
    var i :| 0 <= i < |entries| && entries[i] == (k, e) && forall j | i < j < |entries| :: entries[j].0 in others;
    var p, r := Position(entries, k'), Put(entries, k', e', maxSize);
    if p < |entries| {
      if p < i {
        assert r[i - 1] == (k, e);
      } else {
        assert r[i] == (k, e);
      }
    } else if |entries| >= maxSize {
      if i == 0 {
        var newer := entries[1..] + [(k', e')];
        DistinctFit(newer, others);
        assert false;
      }
      assert r[i - 1] == (k, e);
    } else {
      assert r[i] == (k, e);
    }
  }

  lemma {:induction false} HeldIsFound(hash: string -> nat, c: Cache, k: Key, e: Entry, others: set<Key>, fault: Fault)
    requires DistinctEntries(c.entries) && Held(c.entries, k, e, others) && c.enabled
    ensures Got(hash, c, k, fault) == Some(e)
  {
    var i :| 0 <= i < |c.entries| && c.entries[i] == (k, e);
    var p := Position(c.entries, k);
  }

  lemma {:induction false} StepKeepsHeld(hash: string -> nat, c: Cache, k: Key, e: Entry, s: Step, others: set<Key>)
    requires Bounded(c) && c.enabled && Held(c.entries, k, e, others) && !s.op.Clear? && |others| < c.maxSize
    requires (s.op.Get? || s.op.Set?) && MakeKey(s.op.source, s.op.target, s.op.text) != k
             ==> MakeKey(s.op.source, s.op.target, s.op.text) in others
    ensures Held(Perform(hash, c, s).entries, k, SetBy(e, s, k), others)
    ensures Perform(hash, c, s).enabled
  {
    match s.op
    case Get(source, target, text) =>
      var k' := MakeKey(source, target, text);
      var r := Got(hash, c, k', s.fault);
      GetAssigns(hash, c, k', s.now, s.fault);
      HeldIsFound(hash, c, k, e, others, s.fault);
      if k' == k {
        PutHolds(c.entries, k, e, c.maxSize, others);
      } else if r.Some? {
        PutKeepsHeld(c.entries, k, e, k', r.value, c.maxSize, others);
      }
    case Set(source, target, text, e') =>
      var k' := MakeKey(source, target, text);
      if k' == k {
        PutHolds(c.entries, k, e', c.maxSize, others);
      } else {
        PutKeepsHeld(c.entries, k, e, k', e', c.maxSize, others);
      }
    case _ =>
      OtherStepKeepsEntries(hash, c, s);
  }

  lemma {:induction false} OtherStepKeepsEntries(hash: string -> nat, c: Cache, s: Step)
    requires !s.op.Get? && !s.op.Set? && !s.op.Clear?
    ensures Perform(hash, c, s).entries == c.entries && Perform(hash, c, s).enabled == c.enabled
  {
  }

  lemma {:induction false} NamedLast(steps: seq<Step>)
    requires steps != []
    ensures Named(steps[..|steps| - 1]) <= Named(steps)
    ensures var op := steps[|steps| - 1].op;
            op.Get? || op.Set? ==> MakeKey(op.source, op.target, op.text) in Named(steps)
  {
  }

  lemma {:induction false} RunKeepsHeld(hash: string -> nat, c: Cache, k: Key, e: Entry, steps: seq<Step>, others: set<Key>)
    requires Bounded(c) && c.enabled && Held(c.entries, k, e, others) && NoClear(steps) && |others| < c.maxSize
    requires Named(steps) - {k} <= others
    ensures var c' := PerformAll(hash, c, steps); c'.enabled && Held(c'.entries, k, LastSet(e, steps, k), others)
  {
    if steps != [] {
      var before, last := steps[..|steps| - 1], steps[|steps| - 1];
      assert last in steps && forall s | s in before :: s in steps;
      RunKeepsHeld(hash, c, k, e, before, others);
      RunStaysBounded(hash, c, before);
      NamedLast(steps);
      StepKeepsHeld(hash, PerformAll(hash, c, before), k, LastSet(e, before, k), last, others);
    }
  }

  lemma {:induction false} KeyIsServed(hash: string -> nat, start: Cache, earlier: seq<Step>, s: Step, later: seq<Step>,
                                       fault: Fault)
    requires start.entries == [] && start.maxSize >= 1 && start.enabled && s.op.Set? && NoClear(later)
    requires |Named(later) - {MakeKey(s.op.source, s.op.target, s.op.text)}| < start.maxSize
    ensures var k := MakeKey(s.op.source, s.op.target, s.op.text);
            var c := PerformAll(hash, Perform(hash, PerformAll(hash, start, earlier), s), later);
            Got(hash, c, k, fault) == Some(LastSet(s.op.entry, later, k))
  {
    var k := MakeKey(s.op.source, s.op.target, s.op.text);
    var c := PerformAll(hash, start, earlier);
    var c1 := Perform(hash, c, s);
    var others := Named(later) - {k};
    RunStaysBounded(hash, start, earlier);
    StaysEnabled(hash, start, earlier);
    StepStaysBounded(hash, c, s);
    PutHolds(c.entries, k, s.op.entry, c.maxSize, others);
    RunKeepsHeld(hash, c1, k, s.op.entry, later, others);
    RunStaysBounded(hash, c1, later);
    HeldIsFound(hash, PerformAll(hash, c1, later), k, LastSet(s.op.entry, later, k), others, fault);
  }

  /** A translation that is asked for: languages, and text without its outer white space and with Unix line ends. */
  datatype Asked = Asked(source: string, target: string, text: string)

  /** What lookups and writes ask for. */
  function AllAsked(steps: seq<Step>): set<Asked> {
    if steps == [] then {}
    else
      var op := steps[|steps| - 1].op;
      AllAsked(steps[..|steps| - 1])
      + if op.Get? || op.Set? then {Asked(op.source, op.target, Strip(UnixLines(op.text)))} else {}
  }

  lemma {:induction false} AskedAreNamed(steps: seq<Step>)
    ensures forall k :: k in Named(steps) <==> Asked(k.source, k.target, k.text) in AllAsked(steps)
  {
    if steps != [] {
      AskedAreNamed(steps[..|steps| - 1]);
    }
  }

  lemma {:induction false} NoMoreKeys(keys: set<Key>, asked: set<Asked>)
    requires forall k | k in keys :: Asked(k.source, k.target, k.text) in asked
    ensures |keys| <= |asked|
  {
    if k :| k in keys {
      NoMoreKeys(keys - {k}, asked - {Asked(k.source, k.target, k.text)});
    }
  }

  /** The last value that the steps set for the languages and the text, starting from `e`. */
  ghost function LastSetFor(e: Entry, steps: seq<Step>, source: string, target: string, text: string): Entry {
    if steps == [] then e
    else if Writes(steps[|steps| - 1].op, source, target, text) then steps[|steps| - 1].op.entry
    else LastSetFor(e, steps[..|steps| - 1], source, target, text)
  }

  lemma {:induction false} LastSetOfKey(e: Entry, steps: seq<Step>, source: string, target: string, text: string)
    ensures LastSet(e, steps, MakeKey(source, target, text)) == LastSetFor(e, steps, source, target, text)
  {
    if steps != [] {
      var op := steps[|steps| - 1].op;
      LastSetOfKey(e, steps[..|steps| - 1], source, target, text);
      if op.Set? {
        OneKeyExactly(op.source, op.target, op.text, source, target, text);
      }
    }
  }

  /**
   * A written entry stays in memory, whatever happens to the store, until as many other translations as the cache holds
   * have been asked for: until then every lookup for its languages and its text returns the value last set for them.
   */
  lemma {:induction false} RecentEntriesAreServed(hash: string -> nat, start: Cache, earlier: seq<Step>, s: Step,
                                                  later: seq<Step>, text: string, fault: Fault)
    requires start.entries == [] && start.maxSize >= 1 && start.enabled && s.op.Set? && NoClear(later)
    requires SameText(text, s.op.text)
    requires |AllAsked(later) - {Asked(s.op.source, s.op.target, Strip(UnixLines(s.op.text)))}| < start.maxSize
    ensures var c := PerformAll(hash, Perform(hash, PerformAll(hash, start, earlier), s), later);
            Got(hash, c, MakeKey(s.op.source, s.op.target, text), fault)
            == Some(LastSetFor(s.op.entry, later, s.op.source, s.op.target, s.op.text))
  {
    var k := MakeKey(s.op.source, s.op.target, s.op.text);
    OneKeyExactly(s.op.source, s.op.target, text, s.op.source, s.op.target, s.op.text);
    AskedAreNamed(later);
    NoMoreKeys(Named(later) - {k}, AllAsked(later) - {Asked(s.op.source, s.op.target, Strip(UnixLines(s.op.text)))});
    KeyIsServed(hash, start, earlier, s, later, fault);
    LastSetOfKey(s.op.entry, later, s.op.source, s.op.target, s.op.text);
  }

  lemma {:induction false} StaysEnabled(hash: string -> nat, c: Cache, steps: seq<Step>)
    ensures PerformAll(hash, c, steps).enabled == c.enabled
  {
    if steps != [] {
      StaysEnabled(hash, c, steps[..|steps| - 1]);
      StepStaysEnabled(hash, PerformAll(hash, c, steps[..|steps| - 1]), steps[|steps| - 1]);
    }
  }

  lemma {:induction false} StepStaysEnabled(hash: string -> nat, c: Cache, s: Step)
    ensures Perform(hash, c, s).enabled == c.enabled
  {
    match s.op
    case Get(source, target, text) => GetAssigns(hash, c, MakeKey(source, target, text), s.now, s.fault);
    case _ =>
  }

  // ---------------------------------------------------------------- privacy

  predicate NoSourceText(rows: Rows) {
    forall k | k in rows :: rows[k].sourceText == None
  }

  /** The store follows the history mode, and while that is off and the store usable, no row of its file has source text. */
  predicate Private(c: Cache) {
    c.store.Some? ==>
      && c.store.value.history == c.history
      && (c.store.value.available && !c.history ==> NoSourceText(RowsOf(Level2Of(c))))
  }

  lemma {:induction false} OpenedIsPrivate(c: Cache, openFails: bool, fault: Fault)
    requires c.store.None?
    ensures Private(OpenedFor(c, openFails, fault))
  {
  }

  lemma {:induction false} ExecutedIsPrivate(c: Cache, rows: Rows, fault: Fault, c': Cache)
    requires Private(c) && c.store.Some? && c' == With(c, Executed(Level2Of(c), rows, fault)).(entries := c'.entries)
    requires NoSourceText(RowsOf(Level2Of(c))) && !c.history ==> NoSourceText(rows)
    ensures Private(c')
  {
  }

  lemma {:induction false} GetStaysPrivate(hash: string -> nat, c: Cache, k: Key, now: nat, fault: Fault)
    requires Private(c)
    ensures Private(AfterGet(hash, c, k, now, fault))
  {
    if c.store.Some? && c.enabled {
      ExecutedIsPrivate(c, Touched(RowsOf(Level2Of(c)), RowKeyOf(hash, k), now), fault, AfterGet(hash, c, k, now, fault));
    }
  }

  lemma {:induction false} SetStaysPrivate(hash: string -> nat, c: Cache, k: Key, text: string, e: Entry, now: nat, fault: Fault)
    requires Private(c)
    ensures Private(AfterSet(hash, c, k, text, e, now, fault))
  {
    if c.store.Some? && c.enabled {
      ExecutedIsPrivate(c, Upserted(RowsOf(Level2Of(c)), RowKeyOf(hash, k), text, e, c.history, now), fault,
                        AfterSet(hash, c, k, text, e, now, fault));
    }
  }

  lemma {:induction false} ConfigureStaysPrivate(c: Cache, sqliteEnabled: Option<bool>, path: Option<string>,
                                                 history: Option<bool>, openFails: bool, fault: Fault)
    requires Private(c)
    ensures Private(AfterConfigure(c, sqliteEnabled, path, history, openFails, fault))
  {
    var nextPath, nextHistory := if path.Some? then path else c.path, Or(history, c.history);
    if nextPath != c.path || Or(sqliteEnabled, c.sqliteEnabled) != c.sqliteEnabled {
      OpenedIsPrivate(c.(store := None, sqliteEnabled := Or(sqliteEnabled, c.sqliteEnabled), path := nextPath,
                         history := nextHistory), openFails, fault);
    }
  }

  lemma {:induction false} StepStaysPrivate(hash: string -> nat, c: Cache, s: Step)
    requires Private(c)
    ensures Private(Perform(hash, c, s))
  {
    match s.op
    case Get(source, target, text) => GetStaysPrivate(hash, c, MakeKey(source, target, text), s.now, s.fault);
    case Set(source, target, text, e) => SetStaysPrivate(hash, c, MakeKey(source, target, text), text, e, s.now, s.fault);
    case Clear =>
      if c.store.Some? {
        ExecutedIsPrivate(c, map[], s.fault, AfterClear(c, s.fault));
      }
    case Configure(sqliteEnabled, path, history, openFails) =>
      ConfigureStaysPrivate(c, sqliteEnabled, path, history, openFails, s.fault);
    case Close =>
  }

  lemma {:induction false} RunStaysPrivate(hash: string -> nat, c: Cache, steps: seq<Step>)
    requires Private(c)
    ensures Private(PerformAll(hash, c, steps))
  {
    if steps != [] {
      RunStaysPrivate(hash, c, steps[..|steps| - 1]);
      StepStaysPrivate(hash, PerformAll(hash, c, steps[..|steps| - 1]), steps[|steps| - 1]);
    }
  }

  /** Over every run from any files, with opens, toggles and failures: no source text is stored while history is off. */
  lemma {:induction false} NoSourceTextWhileHistoryIsOff(hash: string -> nat, maxSize: nat, enabled: bool, sqliteEnabled: bool,
                                                         path: Option<string>, history: bool, files: Files,
                                                         openFails: bool, fault: Fault, steps: seq<Step>)
    ensures var c := PerformAll(hash, Start(maxSize, enabled, sqliteEnabled, path, history, files, openFails, fault), steps);
            Usable(c) && !c.history ==> NoSourceText(RowsOf(Level2Of(c)))
  {
    OpenedIsPrivate(Cache([], maxSize, enabled, sqliteEnabled, path, history, None, files), openFails, fault);
    RunStaysPrivate(hash, Start(maxSize, enabled, sqliteEnabled, path, history, files, openFails, fault), steps);
  }

  // ---------------------------------------------------------------- the limit of the promise

  /** A store is open only on the configured file, with the switch on. */
  predicate Configured(c: Cache) {
    c.store.Some? ==> c.sqliteEnabled && c.path == Some(c.store.value.path)
  }

  lemma {:induction false} RunStaysConfigured(hash: string -> nat, c: Cache, steps: seq<Step>)
    requires Configured(c)
    ensures Configured(PerformAll(hash, c, steps))
  {
    if steps != [] {
      RunStaysConfigured(hash, c, steps[..|steps| - 1]);
      StepStaysConfigured(hash, PerformAll(hash, c, steps[..|steps| - 1]), steps[|steps| - 1]);
    }
  }

  lemma {:induction false} StepStaysConfigured(hash: string -> nat, c: Cache, s: Step)
    requires Configured(c)
    ensures Configured(Perform(hash, c, s))
  {
  }

  /**
   * Whether switching history off reaches the file that was configured: the store stays and is usable with history on, or
   * it is just switched on for this file and opens; and the statement that erases takes effect.
   */
  predicate Erases(c: Cache, sqliteEnabled: Option<bool>, path: Option<string>, openFails: bool, fault: Fault) {
    var nextEnabled, nextPath := Or(sqliteEnabled, c.sqliteEnabled), if path.Some? then path else c.path;
    && fault != Raises(false)
    && if nextPath == c.path && nextEnabled == c.sqliteEnabled then c.history && Usable(c)
       else nextEnabled && nextPath == c.path && !openFails
  }

  lemma {:induction false} ErasedRows(rows: Rows)
    ensures NoSourceText(WithoutSourceText(rows))
  {
  }

  /** The file configured before the call: erased, or as it was. */
  lemma {:induction false} FileAfterHistoryOff(c: Cache, sqliteEnabled: Option<bool>, path: Option<string>, openFails: bool,
                                               fault: Fault)
    requires Configured(c) && c.path.Some?
    ensures var c' := AfterConfigure(c, sqliteEnabled, path, Some(false), openFails, fault);
            RowsAt(c'.files, c.path.value)
            == if Erases(c, sqliteEnabled, path, openFails, fault) then WithoutSourceText(RowsAt(c.files, c.path.value))
               else RowsAt(c.files, c.path.value)
  {
  }

  /**
   * Switching history off, whatever else the call changes, leaves no source text in the file configured before exactly if
   * the file had none or the switch reaches it. Moving to another file and disabling the store do not.
   */
  lemma {:induction false} OldFileIsCleanExactly(c: Cache, sqliteEnabled: Option<bool>, path: Option<string>, openFails: bool,
                                                 fault: Fault)
    requires Configured(c) && c.path.Some?
    ensures var c' := AfterConfigure(c, sqliteEnabled, path, Some(false), openFails, fault);
            NoSourceText(RowsAt(c'.files, c.path.value))
            <==> NoSourceText(RowsAt(c.files, c.path.value)) || Erases(c, sqliteEnabled, path, openFails, fault)
  {
    FileAfterHistoryOff(c, sqliteEnabled, path, openFails, fault);
    ErasedRows(RowsAt(c.files, c.path.value));
  }

  /** The same after any run of a cache from its construction. */
  lemma {:induction false} OldFileIsCleanExactlyAfterAnyRun(hash: string -> nat, start: Cache, steps: seq<Step>,
                                                            sqliteEnabled: Option<bool>, path: Option<string>,
                                                            openFails: bool, fault: Fault)
    requires exists maxSize, enabled, switchOn, file, history, files, failsAtStart, faultAtStart ::
               start == Start(maxSize, enabled, switchOn, file, history, files, failsAtStart, faultAtStart)
    requires PerformAll(hash, start, steps).path.Some?
    ensures var c := PerformAll(hash, start, steps);
            var c' := AfterConfigure(c, sqliteEnabled, path, Some(false), openFails, fault);
            NoSourceText(RowsAt(c'.files, c.path.value))
            <==> NoSourceText(RowsAt(c.files, c.path.value)) || Erases(c, sqliteEnabled, path, openFails, fault)
  {
    RunStaysConfigured(hash, start, steps);
    OldFileIsCleanExactly(PerformAll(hash, start, steps), sqliteEnabled, path, openFails, fault);
  }

  /** A cache with history on that has just stored one translation in the file. */
  function OneTranslation(hash: string -> nat, file: string, source: string, target: string, text: string, e: Entry): Cache {
    PerformAll(hash, Start(128, true, true, Some(file), true, map[], false, NoFault),
               [Step(Set(source, target, text, e), 0, NoFault)])
  }

  lemma {:induction false} TextIsStored(hash: string -> nat, file: string, source: string, target: string, text: string,
                                        e: Entry)
    ensures var c, k := OneTranslation(hash, file, source, target, text, e), RowKeyOf(hash, MakeKey(source, target, text));
            && Configured(c) && Usable(c) && c.history && c.path == Some(file) && c.sqliteEnabled
            && k in RowsAt(c.files, file) && RowsAt(c.files, file)[k].sourceText == Some(text)
  {
    var start := Start(128, true, true, Some(file), true, map[], false, NoFault);
    var step := Step(Set(source, target, text, e), 0, NoFault);
    assert [step][..0] == [] && PerformAll(hash, start, []) == start;
    assert PerformAll(hash, start, [step]) == Perform(hash, start, step);
  }

  /** The condition is needed: the text stays in the old file when the cache moves to another one, or is disabled. */
  lemma {:induction false} OldFileKeepsItsSourceText(hash: string -> nat, file: string, other: string, source: string,
                                                     target: string, text: string, e: Entry, openFails: bool, fault: Fault)
    requires other != file
    ensures var c, k := OneTranslation(hash, file, source, target, text, e), RowKeyOf(hash, MakeKey(source, target, text));
            var moved := AfterConfigure(c, None, Some(other), Some(false), openFails, fault);
            var disabled := AfterConfigure(c, Some(false), None, Some(false), openFails, fault);
            && k in RowsAt(moved.files, file) && RowsAt(moved.files, file)[k].sourceText == Some(text)
            && k in RowsAt(disabled.files, file) && RowsAt(disabled.files, file)[k].sourceText == Some(text)
  {
    var c := OneTranslation(hash, file, source, target, text, e);
    TextIsStored(hash, file, source, target, text, e);
    FileAfterHistoryOff(c, None, Some(other), openFails, fault);
    FileAfterHistoryOff(c, Some(false), None, openFails, fault);
  }
}
