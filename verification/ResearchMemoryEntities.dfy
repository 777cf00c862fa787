/** What a replacement makes of the entity rows: their names, descriptions, times and aliases, each from where it comes. */
module ResearchMemoryEntities {
  import opened Wrappers
  import opened Text
  import opened ResearchMemory
  import opened ResearchMemoryInvariant
  import opened ResearchMemoryReplace
  import opened ResearchMemoryRepeat
  import opened ResearchMemoryGraph

  // ---------------------------------------------------------------- one row

  /** The name of the last draft for the key, or the one before. */
  function NameAfter(ds: seq<EntityDraft>, key: EntityKey, workspace: string, before: string): string {
    if ds == [] then before
    else if DraftKey(ds[|ds| - 1], workspace) == key then Clean(ds[|ds| - 1].name, 500)
    else NameAfter(ds[..|ds| - 1], key, workspace, before)
  }

  /** The last description for the key that is not blank, or the one before. */
  function DescriptionAfter(ds: seq<EntityDraft>, key: EntityKey, workspace: string, before: string): string {
    if ds == [] then before
    else if DraftKey(ds[|ds| - 1], workspace) == key && Clean(ds[|ds| - 1].description, 2000) != ""
    then Clean(ds[|ds| - 1].description, 2000)
    else DescriptionAfter(ds[..|ds| - 1], key, workspace, before)
  }

  predicate AliasOf(b: string, d: EntityDraft) {
    exists a | a in d.aliases :: Clean(a, 500) == b
  }

  /** An alias of a draft for the key. */
  predicate DraftedAlias(b: string, key: EntityKey, ds: seq<EntityDraft>, workspace: string) {
    exists d | d in ds :: DraftKey(d, workspace) == key && AliasOf(b, d)
  }

  predicate AliasesTraced(before: Option<Entity>, e: Entity, ds: seq<EntityDraft>, workspace: string) {
    forall b | b in e.aliases ::
      (before.Some? && b in before.value.aliases) || DraftedAlias(b, KeyOf(e), ds, workspace)
  }

  /** The row after the drafts, in terms of the row before, if there was one. */
  predicate Traced(before: Option<Entity>, e: Entity, ds: seq<EntityDraft>, workspace: string, now: nat) {
    && e.createdAt == (if before.Some? then before.value.createdAt else now)
    && e.updatedAt == (if before.None? || IsDrafted(KeyOf(e), ds, workspace) then now else before.value.updatedAt)
    && e.name == NameAfter(ds, KeyOf(e), workspace, if before.Some? then before.value.name else "")
    && e.description == DescriptionAfter(ds, KeyOf(e), workspace, if before.Some? then before.value.description else "")
    && AliasesTraced(before, e, ds, workspace)
  }

  lemma {:induction false} LastNames(ds: seq<EntityDraft>, d: EntityDraft, key: EntityKey, workspace: string, before: string)
    ensures NameAfter(ds + [d], key, workspace, before)
            == if DraftKey(d, workspace) == key then Clean(d.name, 500) else NameAfter(ds, key, workspace, before)
  {
    assert (ds + [d])[..|ds|] == ds;
  }

  lemma {:induction false} LastDescriptions(ds: seq<EntityDraft>, d: EntityDraft, key: EntityKey, workspace: string,
                                            before: string)
    ensures DescriptionAfter(ds + [d], key, workspace, before)
            == if DraftKey(d, workspace) == key && Clean(d.description, 2000) != "" then Clean(d.description, 2000)
               else DescriptionAfter(ds, key, workspace, before)
  {
    assert (ds + [d])[..|ds|] == ds;
  }

  lemma {:induction false} MoreDraftedAliases(b: string, key: EntityKey, ds: seq<EntityDraft>, d: EntityDraft,
                                              workspace: string)
    ensures DraftedAlias(b, key, ds, workspace) ==> DraftedAlias(b, key, ds + [d], workspace)
    ensures DraftKey(d, workspace) == key && AliasOf(b, d) ==> DraftedAlias(b, key, ds + [d], workspace)
  {
    if x :| x in ds && DraftKey(x, workspace) == key && AliasOf(b, x) {
      assert x in ds + [d];
    }
    assert d in ds + [d];
  }

  lemma {:induction false} MergeMembers(merged: seq<string>, rest: seq<string>, name: string)
    ensures forall b | b in Merge(merged, rest, name) :: b in merged || b in rest
    decreases |rest|
  {
    if rest != [] {
      assert rest == [rest[0]] + rest[1..];
      MergeMembers(merged, rest[1..], name);
      MergeMembers(merged + [rest[0]], rest[1..], name);
    }
  }

  lemma {:induction false} DraftAliasesAreOfTheDraft(d: EntityDraft, workspace: string)
    ensures forall b | b in DraftAliases(d, workspace) :: AliasOf(b, d)
  {
    MergeMembers([], CleanAliases(d.aliases), DraftKey(d, workspace).normalized);
    forall b | b in CleanAliases(d.aliases)
      ensures AliasOf(b, d)
    {
      var i :| 0 <= i < |d.aliases| && CleanAliases(d.aliases)[i] == b;
      assert d.aliases[i] in d.aliases;
    }
  }

  lemma {:induction false} UpdatedRow(before: Option<Entity>, e: Entity, ds: seq<EntityDraft>, d: EntityDraft,
                                      workspace: string, now: nat)
    requires Traced(before, e, ds, workspace, now) && KeyOf(e) == DraftKey(d, workspace)
    ensures Traced(before, Updated(e, d, now), ds + [d], workspace, now)
  {
    var key, e' := KeyOf(e), Updated(e, d, now);
    UpdatedKeepsKey(e, d, now);
    LastNames(ds, d, key, workspace, if before.Some? then before.value.name else "");
    LastDescriptions(ds, d, key, workspace, if before.Some? then before.value.description else "");
    DraftedByMore(ds, d, workspace, key);
    UpdatedAliases(before, e, ds, d, workspace, now);
  }

  lemma {:induction false} UpdatedAliases(before: Option<Entity>, e: Entity, ds: seq<EntityDraft>, d: EntityDraft,
                                          workspace: string, now: nat)
    requires AliasesTraced(before, e, ds, workspace) && KeyOf(e) == DraftKey(d, workspace)
    ensures AliasesTraced(before, Updated(e, d, now), ds + [d], workspace)
  {
    MergeMembers([], e.aliases + DraftAliases(d, e.workspace), e.normalized);
    DraftAliasesAreOfTheDraft(d, workspace);
    UpdatedKeepsKey(e, d, now);
    forall b | b in Updated(e, d, now).aliases
      ensures (before.Some? && b in before.value.aliases) || DraftedAlias(b, KeyOf(e), ds + [d], workspace)
    {
      MoreDraftedAliases(b, KeyOf(e), ds, d, workspace);
    }
  }

  lemma {:induction false} UntouchedRow(before: Option<Entity>, e: Entity, ds: seq<EntityDraft>, d: EntityDraft,
                                        workspace: string, now: nat)
    requires Traced(before, e, ds, workspace, now) && KeyOf(e) != DraftKey(d, workspace)
    ensures Traced(before, e, ds + [d], workspace, now)
  {
    var key := KeyOf(e);
    LastNames(ds, d, key, workspace, if before.Some? then before.value.name else "");
    LastDescriptions(ds, d, key, workspace, if before.Some? then before.value.description else "");
    DraftedByMore(ds, d, workspace, key);
    forall b | b in e.aliases
      ensures (before.Some? && b in before.value.aliases) || DraftedAlias(b, key, ds + [d], workspace)
    {
      MoreDraftedAliases(b, key, ds, d, workspace);
    }
  }

  lemma {:induction false} NothingDrafted(ds: seq<EntityDraft>, key: EntityKey, workspace: string, before: string)
    requires !IsDrafted(key, ds, workspace)
    ensures NameAfter(ds, key, workspace, before) == before && DescriptionAfter(ds, key, workspace, before) == before
  {
    if ds != [] {
      var n := |ds| - 1;
      DraftedByMore(ds[..n], ds[n], workspace, key);
      assert ds == ds[..n] + [ds[n]];
      NothingDrafted(ds[..n], key, workspace, before);
    }
  }

  lemma {:induction false} NewRow(e: Entity, ds: seq<EntityDraft>, d: EntityDraft, workspace: string, now: nat)
    requires KeyOf(e) == DraftKey(d, workspace) && !IsDrafted(KeyOf(e), ds, workspace)
    requires e.name == Clean(d.name, 500) && e.description == Clean(d.description, 2000)
    requires e.aliases == DraftAliases(d, workspace) && e.createdAt == e.updatedAt == now
    ensures Traced(None, e, ds + [d], workspace, now)
  {
    var key := KeyOf(e);
    LastNames(ds, d, key, workspace, "");
    LastDescriptions(ds, d, key, workspace, "");
    NothingDrafted(ds, key, workspace, "");
    DraftAliasesAreOfTheDraft(d, workspace);
    forall b | b in e.aliases
      ensures DraftedAlias(b, key, ds + [d], workspace)
    {
      MoreDraftedAliases(b, key, ds, d, workspace);
    }
  }

  // ---------------------------------------------------------------- all rows

  function RowBefore(es: seq<Entity>, i: nat): Option<Entity> {
    if i < |es| then Some(es[i]) else None
  }

  predicate AllTraced(es: seq<Entity>, es': seq<Entity>, ds: seq<EntityDraft>, workspace: string, now: nat) {
    forall i | 0 <= i < |es'| :: Traced(RowBefore(es, i), es'[i], ds, workspace, now)
  }

  lemma {:induction false} NothingDraftedYet(es: seq<Entity>, workspace: string, now: nat)
    ensures AllTraced(es, es, [], workspace, now)
  {
    forall i | 0 <= i < |es|
      ensures Traced(RowBefore(es, i), es[i], [], workspace, now)
    {
      assert !IsDrafted(KeyOf(es[i]), [], workspace);
    }
  }

  lemma {:induction false} UpsertIsTraced(start: seq<Entity>, es: seq<Entity>, ds: seq<EntityDraft>, d: EntityDraft,
                                          workspace: string, now: nat, id: nat)
    requires AllTraced(start, es, ds, workspace, now) && |start| <= |es| && DistinctKeys(es)
    requires AllSettled(es, ds, workspace)
    ensures AllTraced(start, Upsert(es, d, workspace, now, id), ds + [d], workspace, now)
  {
    var key := DraftKey(d, workspace);
    var i, es' := IndexOf(es, key), Upsert(es, d, workspace, now, id);
    if i < |es| {
      UpsertAt(es, d, workspace, now, id);
    } else {
      UpsertNew(es, d, workspace, now, id);
      NoRowNoDraft(es, ds, workspace, key);
      NewRow(es'[i], ds, d, workspace, now);
    }
    forall k | 0 <= k < |es'|
      ensures Traced(RowBefore(start, k), es'[k], ds + [d], workspace, now)
    {
      if k < |es| {
        assert Traced(RowBefore(start, k), es[k], ds, workspace, now);
        if k == i {
          UpdatedRow(RowBefore(start, k), es[k], ds, d, workspace, now);
        } else {
          UntouchedRow(RowBefore(start, k), es[k], ds, d, workspace, now);
        }
      }
    }
  }

  lemma {:induction false} NoRowNoDraft(es: seq<Entity>, ds: seq<EntityDraft>, workspace: string, key: EntityKey)
    requires AllSettled(es, ds, workspace) && IndexOf(es, key) == |es|
    ensures !IsDrafted(key, ds, workspace)
  {
    assert forall x | x in ds :: IndexOf(es, DraftKey(x, workspace)) < |es|;
  }

  lemma {:induction false} EntitiesAreTraced(st: EntityState, ds: seq<EntityDraft>, workspace: string, now: nat)
    requires AliasesMerged(st.entities) && EntityStateWF(st, workspace)
    ensures AllTraced(st.entities, AddEntities(st, ds, workspace, now).entities, ds, workspace, now)
  {
    if ds == [] {
      NothingDraftedYet(st.entities, workspace, now);
    } else {
      var before, last := ds[..|ds| - 1], ds[|ds| - 1];
      var mid := AddEntities(st, before, workspace, now);
      EntitiesAreTraced(st, before, workspace, now);
      EntitiesSettle(st, before, workspace, now);
      AddEntitiesWF(st, before, workspace, now);
      AddedEntity(st, ds, workspace, now);
      LastDraft(ds);
      UpsertIsTraced(st.entities, mid.entities, before, last, workspace, now, mid.nextId);
    }
  }

  // ---------------------------------------------------------------- no alias is lost

  /** The list has the alias in some spelling. */
  predicate HasSpelling(aliases: seq<string>, normalized: string) {
    exists b | b in aliases :: Normalized(b) == normalized
  }

  /**
   * Every alias of the draft is in the row, in some spelling, unless it is blank or the name itself, or one of the lists is
   * full.
   */
  predicate HoldsAliases(e: Entity, d: EntityDraft) {
    |e.aliases| >= 20 || |d.aliases| >= 20
    || forall a | a in d.aliases ::
         var n := Normalized(Clean(a, 500)); Clean(a, 500) == "" || n == "" || n == e.normalized || HasSpelling(e.aliases, n)
  }

  lemma {:induction false} MergeSize(merged: seq<string>, rest: seq<string>, name: string)
    ensures |Merge(merged, rest, name)| <= |merged| + |rest|
    decreases |rest|
  {
    if rest != [] {
      MergeSize(merged, rest[1..], name);
      MergeSize(merged + [rest[0]], rest[1..], name);
    }
  }

  lemma {:induction false} SettledHoldsAliases(es: seq<Entity>, d: EntityDraft, workspace: string)
    requires Settled(es, d, workspace)
    ensures HoldsAliases(es[IndexOf(es, DraftKey(d, workspace))], d)
  {
    var e := es[IndexOf(es, DraftKey(d, workspace))];
    var drafted := DraftAliases(d, workspace);
    MergeSize([], CleanAliases(d.aliases), DraftKey(d, workspace).normalized);
    if |e.aliases| < 20 && |d.aliases| < 20 {
      MergeGrows([], CleanAliases(d.aliases), e.normalized);
      forall a | a in d.aliases
        ensures var n := Normalized(Clean(a, 500));
                Clean(a, 500) == "" || n == "" || n == e.normalized || HasSpelling(e.aliases, n)
      {
        var i :| 0 <= i < |d.aliases| && d.aliases[i] == a;
        assert CleanAliases(d.aliases)[i] in CleanAliases(d.aliases);
        SpellingIsKept(Clean(a, 500), drafted, e.aliases, e.normalized);
      }
    }
  }

  lemma {:induction false} SpellingIsKept(alias: string, drafted: seq<string>, aliases: seq<string>, name: string)
    requires Skips(alias, drafted, name) && forall b | b in drafted :: Skips(b, aliases, name)
    requires forall b | b in drafted :: b != ""
    ensures alias == "" || Normalized(alias) == "" || Normalized(alias) == name || HasSpelling(aliases, Normalized(alias))
  {
    if Normalized(alias) in NormSet(drafted) {
      var b :| b in drafted && Normalized(b) == Normalized(alias);
      assert Skips(b, aliases, name);
      if Normalized(b) in NormSet(aliases) {
        var x :| x in aliases && Normalized(x) == Normalized(b);
      }
    }
  }

  // ---------------------------------------------------------------- the whole replacement

  /**
   * After a replacement every row has the name and the description that the last drafts for its key give it, or those it
   * had; the times of its creation and of this write; no alias but its own and those of its drafts; and none of theirs is
   * lost while the lists have room.
   */
  lemma {:induction false} ReplacedEntitiesAreTraced(db: Db, workspace: string, note: string, source: string, d: Draft,
                                                     now: nat)
    requires WellFormed(db) && AliasesMerged(db.entities)
    ensures var w, db' := Clean(workspace, 128), Replace(db, workspace, note, source, d, now);
            && AllTraced(db.entities, db'.entities, d.entities, w, now)
            && forall x | x in d.entities ::
                 var i := IndexOf(db'.entities, DraftKey(x, w)); i < |db'.entities| && HoldsAliases(db'.entities[i], x)
  {
    var w, n := Clean(workspace, 128), Clean(note, 128);
    var (db1, id) := Begin(db, w, n, d, now);
    var c := Context(id, w, n, source, now);
    var rows := RowsFor(db.entities, d, c, db1.nextId);
    FirstRows(db, workspace, note, source, d, now);
    RowsForAre(db.entities, d, c, db1.nextId);
    TracedRows(db.entities, rows, d, c, db1.nextId);
  }

  lemma {:induction false} TracedRows(entities: seq<Entity>, rows: NoteRows, d: Draft, c: Context, id: nat)
    requires RowsAre(rows, entities, d, c, id) && AliasesMerged(entities) && EntitiesWF(entities, id)
    ensures AllTraced(entities, rows.entities.entities, d.entities, c.workspace, c.now)
    ensures forall x | x in d.entities ::
              var i := IndexOf(rows.entities.entities, DraftKey(x, c.workspace));
              i < |rows.entities.entities| && HoldsAliases(rows.entities.entities[i], x)
  {
    var st := EntityState(entities, map[], map[], rows.claims.nextId);
    NoteClaimsNextId(d.claims, c, id);
    LaterEntities(entities, id, rows.claims.nextId);
    EntitiesAreTraced(st, d.entities, c.workspace, c.now);
    EntitiesSettle(st, d.entities, c.workspace, c.now);
    forall x | x in d.entities
      ensures var i := IndexOf(rows.entities.entities, DraftKey(x, c.workspace));
              i < |rows.entities.entities| && HoldsAliases(rows.entities.entities[i], x)
    {
      assert Settled(rows.entities.entities, x, c.workspace);
      SettledHoldsAliases(rows.entities.entities, x, c.workspace);
    }
  }
}
