/** Repeating a replacement leaves the same memory up to fresh row ids and the time of the write. */
module ResearchMemoryRepeat {
  import opened Wrappers
  import opened Text
  import opened ResearchMemory
  import opened ResearchMemoryInvariant
  import opened ResearchMemoryReplace

  // ---------------------------------------------------------------- merged alias lists

  /** No alias repeats or skips, and there are at most twenty. */
  predicate IsMerged(aliases: seq<string>, name: string) {
    |aliases| <= MAX_ALIASES && forall i | 0 <= i < |aliases| :: !Skips(aliases[i], aliases[..i], name)
  }

  lemma {:induction false} SkipsMore(alias: string, merged: seq<string>, more: seq<string>, name: string)
    requires Skips(alias, merged, name) && merged <= more
    ensures Skips(alias, more, name)
  {
    assert forall a | a in merged :: a in more;
    if Normalized(alias) in NormSet(merged) {
      var a :| a in merged && Normalized(a) == Normalized(alias);
      assert a in more;
    }
  }

  /** A list that is full, or has every alias of `more` already, does not change when `more` is merged in. */
  predicate Absorbs(aliases: seq<string>, more: seq<string>, name: string) {
    |aliases| >= MAX_ALIASES || forall a | a in more :: Skips(a, aliases, name)
  }

  lemma {:induction false} MergeGrows(merged: seq<string>, rest: seq<string>, name: string)
    requires |merged| < MAX_ALIASES && IsMerged(merged, name)
    ensures merged <= Merge(merged, rest, name) && IsMerged(Merge(merged, rest, name), name)
    ensures Absorbs(Merge(merged, rest, name), rest, name)
    decreases |rest|
  {
    if rest != [] {
      assert rest == [rest[0]] + rest[1..];
      var r := Merge(merged, rest, name);
      if Skips(rest[0], merged, name) {
        MergeGrows(merged, rest[1..], name);
        SkipsMore(rest[0], merged, r, name);
      } else {
        var longer := merged + [rest[0]];
        assert longer[..|merged|] == merged && forall i | 0 <= i < |merged| :: longer[..i] == merged[..i];
        assert rest[0] in longer;
        if |longer| < MAX_ALIASES {
          MergeGrows(longer, rest[1..], name);
          SkipsMore(rest[0], longer, r, name);
        }
      }
    }
  }

  lemma {:induction false} MergeSkips(merged: seq<string>, rest: seq<string>, name: string)
    requires forall a | a in rest :: Skips(a, merged, name)
    ensures Merge(merged, rest, name) == merged
    decreases |rest|
  {
    if rest != [] {
      assert rest[0] in rest && forall a | a in rest[1..] :: a in rest;
      MergeSkips(merged, rest[1..], name);
    }
  }

  lemma {:induction false} MergeMergedFrom(aliases: seq<string>, k: nat, more: seq<string>, name: string)
    requires IsMerged(aliases, name) && k <= |aliases| && k < MAX_ALIASES
    ensures Merge(aliases[..k], aliases[k..] + more, name)
            == if |aliases| >= MAX_ALIASES then aliases else Merge(aliases, more, name)
    decreases |aliases| - k
  {
    if k == |aliases| {
      assert aliases[..k] == aliases && aliases[k..] + more == more;
    } else {
      SliceStep(aliases, k, more);
      MergeStep(aliases[..k], aliases[k..] + more, name);
      if k + 1 < MAX_ALIASES {
        MergeMergedFrom(aliases, k + 1, more, name);
      } else {
        assert aliases[..k + 1] == aliases;
      }
    }
  }

  lemma {:induction false} SliceStep<T>(s: seq<T>, k: nat, more: seq<T>)
    requires k < |s|
    ensures s[k..] + more != [] && (s[k..] + more)[0] == s[k] && (s[k..] + more)[1..] == s[k + 1..] + more
    ensures s[..k] + [s[k]] == s[..k + 1]
  {
  }

  lemma {:induction false} MergeStep(merged: seq<string>, rest: seq<string>, name: string)
    requires rest != [] && !Skips(rest[0], merged, name)
    ensures Merge(merged, rest, name)
            == if |merged| + 1 >= MAX_ALIASES then merged + [rest[0]] else Merge(merged + [rest[0]], rest[1..], name)
  {
  }

  /** Merging into a merged list starts from the whole list. */
  lemma {:induction false} MergeMerged(aliases: seq<string>, more: seq<string>, name: string)
    requires IsMerged(aliases, name)
    ensures Merge([], aliases + more, name) == if |aliases| >= MAX_ALIASES then aliases else Merge(aliases, more, name)
  {
    MergeMergedFrom(aliases, 0, more, name);
    assert aliases[..0] == [] && aliases[0..] == aliases;
  }

  lemma {:induction false} MergedIn(aliases: seq<string>, more: seq<string>, name: string)
    requires IsMerged(aliases, name)
    ensures var r := Merge([], aliases + more, name); aliases <= r && IsMerged(r, name) && Absorbs(r, more, name)
  {
    MergeMerged(aliases, more, name);
    if |aliases| < MAX_ALIASES {
      MergeGrows(aliases, more, name);
    }
  }

  lemma {:induction false} AbsorbedAliases(aliases: seq<string>, more: seq<string>, name: string)
    requires IsMerged(aliases, name) && Absorbs(aliases, more, name)
    ensures Merge([], aliases + more, name) == aliases
  {
    MergeMerged(aliases, more, name);
    if |aliases| < MAX_ALIASES {
      MergeSkips(aliases, more, name);
    }
  }

  lemma {:induction false} AbsorbsLonger(aliases: seq<string>, longer: seq<string>, more: seq<string>, name: string)
    requires aliases <= longer && Absorbs(aliases, more, name)
    ensures Absorbs(longer, more, name)
  {
    if |aliases| < MAX_ALIASES {
      forall a | a in more
        ensures Skips(a, longer, name)
      {
        SkipsMore(a, aliases, longer, name);
      }
    }
  }

  // ---------------------------------------------------------------- entities settle

  predicate AliasesMerged(es: seq<Entity>) {
    forall i | 0 <= i < |es| :: IsMerged(es[i].aliases, es[i].normalized)
  }

  /** Rows keep id and key, and their alias lists only grow. */
  predicate Grows(es: seq<Entity>, es': seq<Entity>) {
    KeepsEntities(es, es') && forall i | 0 <= i < |es| :: es[i].aliases <= es'[i].aliases
  }

  /** There is a row for the draft, and it has absorbed the draft's aliases. */
  predicate Settled(es: seq<Entity>, d: EntityDraft, workspace: string) {
    var i := IndexOf(es, DraftKey(d, workspace));
    i < |es| && Absorbs(es[i].aliases, DraftAliases(d, workspace), es[i].normalized)
  }

  lemma {:induction false} SameIndex(es: seq<Entity>, es': seq<Entity>, key: EntityKey)
    requires KeepsEntities(es, es') && IndexOf(es, key) < |es|
    ensures IndexOf(es', key) == IndexOf(es, key)
  {
    var i := IndexOf(es, key);
    assert KeyOf(es'[i]) == key;
  }

  lemma {:induction false} StaysSettled(es: seq<Entity>, es': seq<Entity>, d: EntityDraft, workspace: string)
    requires Grows(es, es') && Settled(es, d, workspace)
    ensures Settled(es', d, workspace)
  {
    var i := IndexOf(es, DraftKey(d, workspace));
    SameIndex(es, es', DraftKey(d, workspace));
    assert es'[i].normalized == KeyOf(es'[i]).normalized == es[i].normalized;
    AbsorbsLonger(es[i].aliases, es'[i].aliases, DraftAliases(d, workspace), es[i].normalized);
  }

  lemma {:induction false} UpdatedRow(e: Entity, d: EntityDraft, now: nat)
    requires IsMerged(e.aliases, e.normalized)
    ensures var e' := Updated(e, d, now);
            && e'.id == e.id && KeyOf(e') == KeyOf(e) && e'.createdAt == e.createdAt && e.aliases <= e'.aliases
            && IsMerged(e'.aliases, e.normalized) && Absorbs(e'.aliases, DraftAliases(d, e.workspace), e.normalized)
  {
    MergedIn(e.aliases, DraftAliases(d, e.workspace), e.normalized);
  }

  lemma {:induction false} NewAliases(d: EntityDraft, workspace: string)
    ensures var name := DraftKey(d, workspace).normalized;
            var aliases := DraftAliases(d, workspace);
            IsMerged(aliases, name) && Absorbs(aliases, aliases, name)
  {
    MergeGrows([], CleanAliases(d.aliases), DraftKey(d, workspace).normalized);
  }

  lemma {:induction false} UpsertAt(es: seq<Entity>, d: EntityDraft, workspace: string, now: nat, id: nat)
    requires IndexOf(es, DraftKey(d, workspace)) < |es|
    ensures var i := IndexOf(es, DraftKey(d, workspace));
            Upsert(es, d, workspace, now, id) == es[i := Updated(es[i], d, now)]
  {
  }

  lemma {:induction false} UpsertNew(es: seq<Entity>, d: EntityDraft, workspace: string, now: nat, id: nat)
    requires IndexOf(es, DraftKey(d, workspace)) == |es|
    ensures var key := DraftKey(d, workspace);
            Upsert(es, d, workspace, now, id)
            == es + [Entity(id, workspace, Clean(d.name, 500), key.normalized, key.kind, DraftAliases(d, workspace),
                            Clean(d.description, 2000), now, now)]
  {
  }

  lemma {:induction false} RowSettles(es: seq<Entity>, i: nat, row: Entity, d: EntityDraft, workspace: string)
    requires AliasesMerged(es) && i == IndexOf(es, DraftKey(d, workspace)) < |es|
    requires row.id == es[i].id && KeyOf(row) == KeyOf(es[i]) && es[i].aliases <= row.aliases
    requires IsMerged(row.aliases, row.normalized) && Absorbs(row.aliases, DraftAliases(d, workspace), row.normalized)
    ensures Grows(es, es[i := row]) && AliasesMerged(es[i := row]) && Settled(es[i := row], d, workspace)
  {
    SameIndex(es, es[i := row], DraftKey(d, workspace));
  }

  lemma {:induction false} NewRowSettles(es: seq<Entity>, row: Entity, d: EntityDraft, workspace: string)
    requires AliasesMerged(es) && IndexOf(es, DraftKey(d, workspace)) == |es| && KeyOf(row) == DraftKey(d, workspace)
    requires IsMerged(row.aliases, row.normalized) && Absorbs(row.aliases, DraftAliases(d, workspace), row.normalized)
    ensures Grows(es, es + [row]) && AliasesMerged(es + [row]) && Settled(es + [row], d, workspace)
  {
    NewIndex(es, es + [row], DraftKey(d, workspace));
  }

  lemma {:induction false} UpsertSettles(es: seq<Entity>, d: EntityDraft, workspace: string, now: nat, id: nat)
    requires AliasesMerged(es)
    ensures var es' := Upsert(es, d, workspace, now, id);
            Grows(es, es') && AliasesMerged(es') && Settled(es', d, workspace)
  {
    var key := DraftKey(d, workspace);
    var i := IndexOf(es, key);
    if i < |es| {
      UpsertAt(es, d, workspace, now, id);
      UpdatedRow(es[i], d, now);
      assert es[i].workspace == KeyOf(es[i]).workspace == workspace;
      RowSettles(es, i, Updated(es[i], d, now), d, workspace);
    } else {
      UpsertNew(es, d, workspace, now, id);
      NewAliases(d, workspace);
      NewRowSettles(es, Upsert(es, d, workspace, now, id)[|es|], d, workspace);
    }
  }

  lemma {:induction false} NewIndex(es: seq<Entity>, es': seq<Entity>, key: EntityKey)
    requires IndexOf(es, key) == |es| && |es'| == |es| + 1 && es <= es' && KeyOf(es'[|es|]) == key
    ensures IndexOf(es', key) == |es|
  {
  }

  predicate AllSettled(es: seq<Entity>, ds: seq<EntityDraft>, workspace: string) {
    forall d | d in ds :: Settled(es, d, workspace)
  }

  lemma {:induction false} OneMoreSettled(es: seq<Entity>, es': seq<Entity>, ds: seq<EntityDraft>, d: EntityDraft,
                                          workspace: string)
    requires Grows(es, es') && AllSettled(es, ds, workspace) && Settled(es', d, workspace)
    ensures AllSettled(es', ds + [d], workspace)
  {
    forall x | x in ds + [d]
      ensures Settled(es', x, workspace)
    {
      if x in ds {
        StaysSettled(es, es', x, workspace);
      }
    }
  }

  lemma {:induction false} AddedEntity(st: EntityState, ds: seq<EntityDraft>, workspace: string, now: nat)
    requires ds != []
    ensures var mid, last := AddEntities(st, ds[..|ds| - 1], workspace, now), ds[|ds| - 1];
            AddEntities(st, ds, workspace, now).entities == Upsert(mid.entities, last, workspace, now, mid.nextId)
  {
  }

  lemma {:induction false} EntitiesSettle(st: EntityState, ds: seq<EntityDraft>, workspace: string, now: nat)
    requires AliasesMerged(st.entities)
    ensures var es := AddEntities(st, ds, workspace, now).entities;
            Grows(st.entities, es) && AliasesMerged(es) && AllSettled(es, ds, workspace)
  {
    if ds != [] {
      var mid, last := AddEntities(st, ds[..|ds| - 1], workspace, now), ds[|ds| - 1];
      EntitiesSettle(st, ds[..|ds| - 1], workspace, now);
      AddedEntity(st, ds, workspace, now);
      LastDraft(ds);
      SettleStep(st.entities, mid.entities, ds[..|ds| - 1], last, workspace, now, mid.nextId);
    }
  }

  lemma {:induction false} SettleStep(start: seq<Entity>, es: seq<Entity>, ds: seq<EntityDraft>, d: EntityDraft,
                                      workspace: string, now: nat, id: nat)
    requires Grows(start, es) && AliasesMerged(es) && AllSettled(es, ds, workspace)
    ensures var es' := Upsert(es, d, workspace, now, id);
            Grows(start, es') && AliasesMerged(es') && AllSettled(es', ds + [d], workspace)
  {
    var es' := Upsert(es, d, workspace, now, id);
    UpsertSettles(es, d, workspace, now, id);
    OneMoreSettled(es, es', ds, d, workspace);
    GrowsOn(start, es, es');
  }

  lemma {:induction false} GrowsOn(a: seq<Entity>, b: seq<Entity>, c: seq<Entity>)
    requires Grows(a, b) && Grows(b, c)
    ensures Grows(a, c)
  {
  }

  // ---------------------------------------------------------------- a second pass over settled entities

  /** The name, or the description, that drafts with the key leave in a row that starts with `value`. */
  function LastName(ds: seq<EntityDraft>, key: EntityKey, value: string): string {
    if ds == [] then value
    else if DraftKey(ds[|ds| - 1], key.workspace) == key then Clean(ds[|ds| - 1].name, 500)
    else LastName(ds[..|ds| - 1], key, value)
  }

  function LastDescription(ds: seq<EntityDraft>, key: EntityKey, value: string): string {
    if ds == [] then value
    else if DraftKey(ds[|ds| - 1], key.workspace) == key && Clean(ds[|ds| - 1].description, 2000) != ""
    then Clean(ds[|ds| - 1].description, 2000)
    else LastDescription(ds[..|ds| - 1], key, value)
  }

  /** The row already has the name and description that the drafts would give it. */
  predicate Stable(e: Entity, ds: seq<EntityDraft>) {
    e.name == LastName(ds, KeyOf(e), e.name) && e.description == LastDescription(ds, KeyOf(e), e.description)
  }

  lemma {:induction false} NoDescription(ds: seq<EntityDraft>, key: EntityKey, value: string)
    requires forall d | d in ds :: DraftKey(d, key.workspace) != key
    ensures LastDescription(ds, key, value) == value
  {
    if ds != [] {
      assert ds[|ds| - 1] in ds && forall d | d in ds[..|ds| - 1] :: d in ds;
      NoDescription(ds[..|ds| - 1], key, value);
    }
  }

  lemma {:induction false} UntouchedStable(e: Entity, ds: seq<EntityDraft>, d: EntityDraft)
    requires Stable(e, ds) && DraftKey(d, e.workspace) != KeyOf(e)
    ensures Stable(e, ds + [d])
  {
    assert (ds + [d])[..|ds|] == ds;
  }

  lemma {:induction false} TouchedStable(e: Entity, e': Entity, ds: seq<EntityDraft>, d: EntityDraft, now: nat)
    requires Stable(e, ds) && DraftKey(d, e.workspace) == KeyOf(e) && e' == Updated(e, d, now)
    ensures Stable(e', ds + [d])
  {
    assert (ds + [d])[..|ds|] == ds;
    assert KeyOf(e') == KeyOf(e);
  }

  lemma {:induction false} NewStable(e: Entity, ds: seq<EntityDraft>, d: EntityDraft)
    requires KeyOf(e) == DraftKey(d, e.workspace) && forall x | x in ds :: DraftKey(x, e.workspace) != KeyOf(e)
    requires e.name == Clean(d.name, 500) && e.description == Clean(d.description, 2000)
    ensures Stable(e, ds + [d])
  {
    assert (ds + [d])[..|ds|] == ds;
    NoDescription(ds, KeyOf(e), e.description);
  }

  predicate DistinctKeys(es: seq<Entity>) {
    forall i, j | 0 <= i < j < |es| :: KeyOf(es[i]) != KeyOf(es[j])
  }

  lemma {:induction false} KeysStayDistinct(st: EntityState, ds: seq<EntityDraft>, workspace: string, now: nat)
    requires EntityStateWF(st, workspace)
    ensures DistinctKeys(AddEntities(st, ds, workspace, now).entities)
  {
    AddEntitiesWF(st, ds, workspace, now);
  }

  predicate OfWorkspaceStable(es: seq<Entity>, ds: seq<EntityDraft>, workspace: string) {
    forall i | 0 <= i < |es| && es[i].workspace == workspace :: Stable(es[i], ds)
  }

  lemma {:induction false} UpsertStable(es: seq<Entity>, ds: seq<EntityDraft>, d: EntityDraft, workspace: string, now: nat,
                                        id: nat)
    requires OfWorkspaceStable(es, ds, workspace) && AllSettled(es, ds, workspace)
    requires DistinctKeys(es)
    ensures OfWorkspaceStable(Upsert(es, d, workspace, now, id), ds + [d], workspace)
  {
    var key := DraftKey(d, workspace);
    var i, es' := IndexOf(es, key), Upsert(es, d, workspace, now, id);
    if i < |es| {
      UpsertAt(es, d, workspace, now, id);
    } else {
      UpsertNew(es, d, workspace, now, id);
    }
    forall k | 0 <= k < |es'| && es'[k].workspace == workspace
      ensures Stable(es'[k], ds + [d])
    {
      if k < |es| && k != i {
        assert KeyOf(es[k]) != key;
        UntouchedStable(es[k], ds, d);
      } else if k == i && i < |es| {
        assert KeyOf(es[i]) == key && es[i].workspace == workspace;
        TouchedStable(es[i], es'[i], ds, d, now);
      } else {
        forall x | x in ds
          ensures DraftKey(x, workspace) != key
        {
          assert Settled(es, x, workspace);
        }
        NewStable(es'[k], ds, d);
      }
    }
  }

  lemma {:induction false} SettledAndDistinct(st: EntityState, ds: seq<EntityDraft>, workspace: string, now: nat)
    requires AliasesMerged(st.entities) && EntityStateWF(st, workspace)
    ensures var es := AddEntities(st, ds, workspace, now).entities; AllSettled(es, ds, workspace) && DistinctKeys(es)
  {
    EntitiesSettle(st, ds, workspace, now);
    KeysStayDistinct(st, ds, workspace, now);
  }

  lemma {:induction false} EntitiesStable(st: EntityState, ds: seq<EntityDraft>, workspace: string, now: nat)
    requires AliasesMerged(st.entities) && EntityStateWF(st, workspace)
    ensures OfWorkspaceStable(AddEntities(st, ds, workspace, now).entities, ds, workspace)
  {
    if ds != [] {
      var before, last := ds[..|ds| - 1], ds[|ds| - 1];
      var mid := AddEntities(st, before, workspace, now);
      EntitiesStable(st, before, workspace, now);
      SettledAndDistinct(st, before, workspace, now);
      UpsertStable(mid.entities, before, last, workspace, now, mid.nextId);
      LastDraft(ds);
      AddedEntity(st, ds, workspace, now);
    }
  }

  lemma {:induction false} LastDraft(ds: seq<EntityDraft>)
    requires ds != []
    ensures ds == ds[..|ds| - 1] + [ds[|ds| - 1]]
  {
  }

  /** The same row but for the time of the last write; `ds` have been applied to it. */
  predicate Rewritten(e: Entity, e': Entity, ds: seq<EntityDraft>, workspace: string) {
    && e' == e.(name := e'.name, description := e'.description, updatedAt := e'.updatedAt)
    && if e.workspace == workspace
       then e'.name == LastName(ds, KeyOf(e), e.name) && e'.description == LastDescription(ds, KeyOf(e), e.description)
       else e' == e
  }

  predicate AllRewritten(es: seq<Entity>, es': seq<Entity>, ds: seq<EntityDraft>, workspace: string) {
    |es| == |es'| && forall i | 0 <= i < |es| :: Rewritten(es[i], es'[i], ds, workspace)
  }

  lemma {:induction false} RewrittenKeepsKeys(es: seq<Entity>, es': seq<Entity>, ds: seq<EntityDraft>, workspace: string)
    requires AllRewritten(es, es', ds, workspace)
    ensures KeepsEntities(es, es')
  {
    forall i | 0 <= i < |es|
      ensures es'[i].id == es[i].id && KeyOf(es'[i]) == KeyOf(es[i])
    {
      assert Rewritten(es[i], es'[i], ds, workspace);
    }
  }

  lemma {:induction false} RewrittenOnce(e: Entity, e': Entity, ds: seq<EntityDraft>, d: EntityDraft, workspace: string, now: nat)
    requires Rewritten(e, e', ds, workspace) && DraftKey(d, workspace) == KeyOf(e) && IsMerged(e.aliases, e.normalized)
    requires Absorbs(e.aliases, DraftAliases(d, workspace), e.normalized)
    ensures Rewritten(e, Updated(e', d, now), ds + [d], workspace)
  {
    assert (ds + [d])[..|ds|] == ds && e.workspace == workspace;
    AbsorbedAliases(e.aliases, DraftAliases(d, workspace), e.normalized);
  }

  lemma {:induction false} NotRewritten(e: Entity, e': Entity, ds: seq<EntityDraft>, d: EntityDraft, workspace: string)
    requires Rewritten(e, e', ds, workspace) && DraftKey(d, workspace) != KeyOf(e)
    ensures Rewritten(e, e', ds + [d], workspace)
  {
    assert (ds + [d])[..|ds|] == ds;
  }

  lemma {:induction false} UpsertRewrites(es: seq<Entity>, es': seq<Entity>, ds: seq<EntityDraft>, d: EntityDraft,
                                          workspace: string, now: nat, id: nat)
    requires AliasesMerged(es) && AllRewritten(es, es', ds, workspace) && Settled(es, d, workspace)
    requires DistinctKeys(es)
    ensures AllRewritten(es, Upsert(es', d, workspace, now, id), ds + [d], workspace)
  {
    var key := DraftKey(d, workspace);
    var i := IndexOf(es, key);
    RewrittenKeepsKeys(es, es', ds, workspace);
    SameIndex(es, es', key);
    UpsertAt(es', d, workspace, now, id);
    forall k | 0 <= k < |es|
      ensures Rewritten(es[k], Upsert(es', d, workspace, now, id)[k], ds + [d], workspace)
    {
      assert Rewritten(es[k], es'[k], ds, workspace);
      if k == i {
        RewrittenOnce(es[k], es'[k], ds, d, workspace, now);
      } else {
        NotRewritten(es[k], es'[k], ds, d, workspace);
      }
    }
  }

  lemma {:induction false} SecondPass(es: seq<Entity>, ds: seq<EntityDraft>, workspace: string, now: nat, id: nat, nextId: nat)
    requires AliasesMerged(es) && EntitiesWF(es, nextId) && AllSettled(es, ds, workspace)
    ensures var st := AddEntities(EntityState(es, map[], map[], id), ds, workspace, now);
            AllRewritten(es, st.entities, ds, workspace) && st.nextId == id
  {
    if ds != [] {
      var before, last := ds[..|ds| - 1], ds[|ds| - 1];
      assert ds == before + [last];
      var mid := AddEntities(EntityState(es, map[], map[], id), before, workspace, now);
      SecondPass(es, before, workspace, now, id, nextId);
      AddedEntity(EntityState(es, map[], map[], id), ds, workspace, now);
      UpsertRewrites(es, mid.entities, before, last, workspace, now, mid.nextId);
      RewrittenKeepsKeys(es, mid.entities, before, workspace);
      SameIndex(es, mid.entities, DraftKey(last, workspace));
      ReusedId(mid, last, workspace, now);
    }
  }

  lemma {:induction false} ReusedId(st: EntityState, d: EntityDraft, workspace: string, now: nat)
    requires IndexOf(st.entities, DraftKey(d, workspace)) < |st.entities|
    ensures AddEntity(st, d, workspace, now).nextId == st.nextId
  {
  }

  lemma {:induction false} RecordedId(st: EntityState, d: EntityDraft, workspace: string, now: nat, id: nat)
    requires var es' := Upsert(st.entities, d, workspace, now, st.nextId);
             var i := IndexOf(es', DraftKey(d, workspace));
             i < |es'| && es'[i].id == id
    ensures var st' := AddEntity(st, d, workspace, now);
            st'.names == st.names[DraftKey(d, workspace).normalized := id]
            && st'.aliases == WithAliases(st.aliases, d.aliases, id)
  {
    UpsertIndex(st.entities, d, workspace, now, st.nextId);
  }

  /** One draft recorded on both passes: the row in the final table `es` has the id that both record. */
  lemma {:induction false} SameName(p: EntityState, q: EntityState, es: seq<Entity>, d: EntityDraft, workspace: string,
                                    now: nat, later: nat)
    requires p.names == q.names && p.aliases == q.aliases
    requires KeepsEntities(Upsert(p.entities, d, workspace, now, p.nextId), es)
    requires KeepsEntities(es, q.entities) && |q.entities| == |es|
    ensures var a, b := AddEntity(p, d, workspace, now), AddEntity(q, d, workspace, later);
            a.names == b.names && a.aliases == b.aliases
    ensures var es' := Upsert(q.entities, d, workspace, later, q.nextId); KeepsEntities(es, es') && |es'| == |es|
  {
    var key := DraftKey(d, workspace);
    var p' := Upsert(p.entities, d, workspace, now, p.nextId);
    var q' := Upsert(q.entities, d, workspace, later, q.nextId);
    var i := IndexOf(p', key);
    UpsertIndex(p.entities, d, workspace, now, p.nextId);
    UpsertIndex(q.entities, d, workspace, later, q.nextId);
    SameIndex(p', es, key);
    SameIndex(es, q.entities, key);
    RecordedId(p, d, workspace, now, p'[i].id);
    RecordedId(q, d, workspace, later, p'[i].id);
    UpsertAt(q.entities, d, workspace, later, q.nextId);
    UpdatedKeepsKey(q.entities[i], d, later);
  }

  /** Both passes record the same ids under the same names and aliases. */
  lemma {:induction false} SameNames(first: EntityState, second: EntityState, es: seq<Entity>, ds: seq<EntityDraft>,
                                     workspace: string, now: nat, later: nat)
    requires first.names == second.names && first.aliases == second.aliases && second.entities == es
    requires AliasesMerged(first.entities) && KeepsEntities(AddEntities(first, ds, workspace, now).entities, es)
    ensures var a, b := AddEntities(first, ds, workspace, now), AddEntities(second, ds, workspace, later);
            a.names == b.names && a.aliases == b.aliases && KeepsEntities(es, b.entities) && |b.entities| == |es|
  {
    if ds != [] {
      var before, last := ds[..|ds| - 1], ds[|ds| - 1];
      var p, q := AddEntities(first, before, workspace, now), AddEntities(second, before, workspace, later);
      EntitiesSettle(first, before, workspace, now);
      UpsertSettles(p.entities, last, workspace, now, p.nextId);
      AddedEntity(first, ds, workspace, now);
      AddedEntity(second, ds, workspace, later);
      SameNames(first, second, es, before, workspace, now, later);
      SameName(p, q, es, last, workspace, now, later);
    }
  }

  /** The id that an upsert records is that of the row it leaves for the draft. */
  lemma {:induction false} UpsertIndex(es: seq<Entity>, d: EntityDraft, workspace: string, now: nat, id: nat)
    ensures var i, es' := IndexOf(es, DraftKey(d, workspace)), Upsert(es, d, workspace, now, id);
            && i < |es'| && IndexOf(es', DraftKey(d, workspace)) == i
            && es'[i].id == if i < |es| then es[i].id else id
  {
    var key := DraftKey(d, workspace);
    var i, es' := IndexOf(es, key), Upsert(es, d, workspace, now, id);
    if i < |es| {
      UpsertAt(es, d, workspace, now, id);
      UpdatedKeepsKey(es[i], d, now);
      SameIndex(es, es', key);
    } else {
      UpsertNew(es, d, workspace, now, id);
      NewIndex(es, es', key);
    }
  }

  // ---------------------------------------------------------------- the rows of a repeated replacement

  predicate ShiftedClaims(a: seq<Claim>, b: seq<Claim>, delta: nat, now: nat) {
    |a| == |b| && forall i | 0 <= i < |a| :: b[i] == a[i].(id := a[i].id + delta, createdAt := now)
  }

  predicate ShiftedEvidence(a: seq<Evidence>, b: seq<Evidence>, delta: nat, now: nat) {
    |a| == |b| && forall i | 0 <= i < |a| ::
      b[i] == a[i].(id := a[i].id + delta, claimId := a[i].claimId + delta, createdAt := now)
  }

  function Shifted(id: Option<nat>, delta: nat): Option<nat> {
    if id.None? then None else Some(id.value + delta)
  }

  predicate ShiftedIds(a: seq<Option<nat>>, b: seq<Option<nat>>, delta: nat) {
    |a| == |b| && forall i | 0 <= i < |a| :: b[i] == Shifted(a[i], delta)
  }

  predicate ShiftedState(a: ClaimState, b: ClaimState, delta: nat, now: nat) {
    && ShiftedClaims(a.claims, b.claims, delta, now) && ShiftedEvidence(a.evidence, b.evidence, delta, now)
    && ShiftedIds(a.ids, b.ids, delta) && b.nextId == a.nextId + delta
  }

  lemma {:induction false} FindShifted(a: seq<Claim>, b: seq<Claim>, delta: nat, c: Context, later: nat, kind: string,
                                       normalized: string)
    requires ShiftedClaims(a, b, delta, later)
    ensures FindClaim(b, c.(now := later), kind, normalized) == Shifted(FindClaim(a, c, kind, normalized), delta)
  {
    if a != [] {
      FindShifted(a[1..], b[1..], delta, c, later, kind, normalized);
    }
  }

  lemma {:induction false} StoreShifted(a: seq<Claim>, b: seq<Claim>, delta: nat, d: ClaimDraft, c: Context, later: nat, id: nat)
    requires ShiftedClaims(a, b, delta, later)
    ensures var x, y := StoreClaim(a, d, c, id), StoreClaim(b, d, c.(now := later), id + delta);
            ShiftedClaims(x.0, y.0, delta, later) && y.1 == x.1 + delta
  {
    var key := DraftClaimKey(d);
    FindShifted(a, b, delta, c, later, key.kind, key.normalized);
  }

  lemma {:induction false} EvidenceShifted(a: seq<Evidence>, b: seq<Evidence>, delta: nat, d: ClaimDraft, c: Context, later: nat,
                                           claimId: nat, id: nat)
    requires ShiftedEvidence(a, b, delta, later)
    ensures ShiftedEvidence(StoreEvidence(a, d, c, claimId, id),
                            StoreEvidence(b, d, c.(now := later), claimId + delta, id + delta), delta, later)
  {
  }

  lemma {:induction false} StoredShifted(a: ClaimState, b: ClaimState, delta: nat, d: ClaimDraft, c: Context, later: nat,
                                         x: (seq<Claim>, nat), y: (seq<Claim>, nat))
    requires ShiftedState(a, b, delta, later) && ShiftedClaims(x.0, y.0, delta, later) && y.1 == x.1 + delta
    ensures ShiftedState(AddStored(a, d, c, x), AddStored(b, d, c.(now := later), y), delta, later)
  {
    EvidenceShifted(a.evidence, b.evidence, delta, d, c, later, x.1, a.nextId + 1);
    ShiftedWithId(a.ids, b.ids, x.1, delta);
  }

  lemma {:induction false} NonBlankShifted(a: ClaimState, b: ClaimState, delta: nat, d: ClaimDraft, c: Context, later: nat)
    requires ShiftedState(a, b, delta, later)
    ensures ShiftedState(AddNonBlank(a, d, c), AddNonBlank(b, d, c.(now := later)), delta, later)
  {
    var x, y := StoreClaim(a.claims, d, c, a.nextId), StoreClaim(b.claims, d, c.(now := later), b.nextId);
    StoreShifted(a.claims, b.claims, delta, d, c, later, a.nextId);
    StoredShifted(a, b, delta, d, c, later, x, y);
  }

  lemma {:induction false} ShiftedWithId(a: seq<Option<nat>>, b: seq<Option<nat>>, id: nat, delta: nat)
    requires ShiftedIds(a, b, delta)
    ensures ShiftedIds(a + [Some(id)], b + [Some(id + delta)], delta)
  {
  }

  lemma {:induction false} ClaimsShifted(ds: seq<ClaimDraft>, c: Context, later: nat, id: nat, delta: nat)
    ensures ShiftedState(NoteClaims(ds, c, id), NoteClaims(ds, c.(now := later), id + delta), delta, later)
  {
    if ds != [] {
      ClaimsShifted(ds[..|ds| - 1], c, later, id, delta);
      var a, b := NoteClaims(ds[..|ds| - 1], c, id), NoteClaims(ds[..|ds| - 1], c.(now := later), id + delta);
      if Blank(ds[|ds| - 1]) {
        assert ShiftedState(AddClaim(a, ds[|ds| - 1], c), AddClaim(b, ds[|ds| - 1], c.(now := later)), delta, later);
      } else {
        NonBlankShifted(a, b, delta, ds[|ds| - 1], c, later);
      }
    }
  }

  predicate ShiftedRelations(a: seq<Relation>, b: seq<Relation>, delta: nat, claimsBy: nat, now: nat) {
    |a| == |b| && forall i | 0 <= i < |a| ::
      b[i] == a[i].(id := a[i].id + delta, claimId := Shifted(a[i].claimId, claimsBy), createdAt := now)
  }

  lemma {:induction false} HasShifted(a: seq<Relation>, b: seq<Relation>, delta: nat, claimsBy: nat, now: nat, r: Relation,
                                      r': Relation)
    requires ShiftedRelations(a, b, delta, claimsBy, now)
    requires r' == r.(id := r.id + delta, claimId := Shifted(r.claimId, claimsBy), createdAt := now)
    ensures HasRelation(b, r') <==> HasRelation(a, r)
  {
    forall i | 0 <= i < |a|
      ensures SameRelation(a[i], r) <==> SameRelation(b[i], r')
    {
      assert Shifted(a[i].claimId, claimsBy) == Shifted(r.claimId, claimsBy) <==> a[i].claimId == r.claimId;
    }
  }

  lemma {:induction false} RelationsShifted(ds: seq<RelationDraft>, n: Names, ids: seq<Option<nat>>, c: Context, later: nat,
                                            id: nat, delta: nat, claimsBy: nat)
    requires ShiftedIds(n.ids, ids, claimsBy)
    ensures var a, b := NoteRelations(ds, n, c, id), NoteRelations(ds, n.(ids := ids), c.(now := later), id + delta);
            ShiftedRelations(a.relations, b.relations, delta, claimsBy, later) && b.nextId == a.nextId + delta
  {
    if ds != [] {
      RelationsShifted(ds[..|ds| - 1], n, ids, c, later, id, delta, claimsBy);
      var a := NoteRelations(ds[..|ds| - 1], n, c, id);
      var b := NoteRelations(ds[..|ds| - 1], n.(ids := ids), c.(now := later), id + delta);
      RelationShifted(a, b, ds[|ds| - 1], n, ids, c, later, delta, claimsBy);
    }
  }

  lemma {:induction false} RelationShifted(a: RelationState, b: RelationState, d: RelationDraft, n: Names,
                                           ids: seq<Option<nat>>, c: Context, later: nat, delta: nat, claimsBy: nat)
    requires ShiftedIds(n.ids, ids, claimsBy)
    requires ShiftedRelations(a.relations, b.relations, delta, claimsBy, later) && b.nextId == a.nextId + delta
    ensures var a', b' := AddRelation(a, d, n, c), AddRelation(b, d, n.(ids := ids), c.(now := later));
            ShiftedRelations(a'.relations, b'.relations, delta, claimsBy, later) && b'.nextId == a'.nextId + delta
  {
    var r, r' := RelationOf(d, n, c, a.nextId), RelationOf(d, n.(ids := ids), c.(now := later), b.nextId);
    if r.Some? {
      HasShifted(a.relations, b.relations, delta, claimsBy, later, r.value, r'.value);
    }
  }

  // ---------------------------------------------------------------- the repeated replacement

  predicate SameEntities(a: seq<Entity>, b: seq<Entity>) {
    |a| == |b| && forall i | 0 <= i < |a| :: b[i] == a[i].(updatedAt := b[i].updatedAt)
  }

  predicate SameExtractions(a: seq<Extraction>, b: seq<Extraction>) {
    |a| == |b| && forall i | 0 <= i < |a| :: b[i] == a[i].(updatedAt := b[i].updatedAt)
  }

  lemma {:induction false} SecondPassChangesOnlyTimes(es: seq<Entity>, es': seq<Entity>, ds: seq<EntityDraft>, workspace: string)
    requires OfWorkspaceStable(es, ds, workspace) && AllRewritten(es, es', ds, workspace)
    ensures SameEntities(es, es')
  {
    forall i | 0 <= i < |es|
      ensures es'[i] == es[i].(updatedAt := es'[i].updatedAt)
    {
      assert Rewritten(es[i], es'[i], ds, workspace);
      if es[i].workspace == workspace {
        assert Stable(es[i], ds);
      }
    }
  }

  lemma {:induction false} EntitiesRepeat(es: seq<Entity>, ds: seq<EntityDraft>, workspace: string, now: nat, later: nat,
                                          id: nat, laterId: nat)
    requires AliasesMerged(es) && EntitiesWF(es, id)
    ensures var a := AddEntities(EntityState(es, map[], map[], id), ds, workspace, now);
            var b := AddEntities(EntityState(a.entities, map[], map[], laterId), ds, workspace, later);
            && SameEntities(a.entities, b.entities) && a.names == b.names && a.aliases == b.aliases && b.nextId == laterId
  {
    var first := EntityState(es, map[], map[], id);
    var a := AddEntities(first, ds, workspace, now);
    var second := EntityState(a.entities, map[], map[], laterId);
    EntitiesSettle(first, ds, workspace, now);
    EntitiesStable(first, ds, workspace, now);
    AddEntitiesWF(first, ds, workspace, now);
    SecondPass(a.entities, ds, workspace, later, laterId, a.nextId);
    SecondPassChangesOnlyTimes(a.entities, AddEntities(second, ds, workspace, later).entities, ds, workspace);
    SameNames(first, second, a.entities, ds, workspace, now, later);
  }

  predicate SameNoteRows(a: NoteRows, b: NoteRows, delta: nat, relationsBy: nat, later: nat) {
    && ShiftedState(a.claims, b.claims, delta, later)
    && SameEntities(a.entities.entities, b.entities.entities)
    && ShiftedRelations(a.relations.relations, b.relations.relations, relationsBy, delta, later)
  }

  /** The parts of the rows for a draft, each in terms of the ones before. */
  predicate RowsAre(rows: NoteRows, entities: seq<Entity>, d: Draft, c: Context, id: nat) {
    && rows.claims == NoteClaims(d.claims, c, id)
    && rows.entities == AddEntities(EntityState(entities, map[], map[], rows.claims.nextId), d.entities, c.workspace, c.now)
    && rows.relations == NoteRelations(d.relations, Names(rows.entities.names, rows.entities.aliases, rows.claims.ids), c,
                                       rows.entities.nextId)
  }

  lemma {:induction false} RowsForAre(entities: seq<Entity>, d: Draft, c: Context, id: nat)
    ensures RowsAre(RowsFor(entities, d, c, id), entities, d, c, id)
  {
  }

  lemma {:induction false} MoreIdsAreUsed(rows: NoteRows, entities: seq<Entity>, d: Draft, c: Context, id: nat)
    requires EntitiesWF(entities, id) && RowsAre(rows, entities, d, c, id)
    ensures id <= rows.claims.nextId <= rows.entities.nextId <= rows.relations.nextId
  {
    NoteClaimsNextId(d.claims, c, id);
    LaterEntities(entities, id, rows.claims.nextId);
    AddEntitiesWF(EntityState(entities, map[], map[], rows.claims.nextId), d.entities, c.workspace, c.now);
    NoteRelationsNextId(d.relations, Names(rows.entities.names, rows.entities.aliases, rows.claims.ids), c,
                        rows.entities.nextId);
  }

  lemma {:induction false} NoteClaimsNextId(ds: seq<ClaimDraft>, c: Context, id: nat)
    ensures id <= NoteClaims(ds, c, id).nextId
  {
    if ds != [] {
      NoteClaimsNextId(ds[..|ds| - 1], c, id);
    }
  }

  lemma {:induction false} NoteRelationsNextId(ds: seq<RelationDraft>, n: Names, c: Context, id: nat)
    ensures id <= NoteRelations(ds, n, c, id).nextId
  {
    if ds != [] {
      NoteRelationsNextId(ds[..|ds| - 1], n, c, id);
    }
  }

  lemma {:induction false} RelationsRepeat(ds: seq<RelationDraft>, claims: ClaimState, claims': ClaimState, es: EntityState,
                                           es': EntityState, c: Context, later: nat, delta: nat)
    requires ShiftedIds(claims.ids, claims'.ids, delta) && es.names == es'.names && es.aliases == es'.aliases
    requires es.nextId <= es'.nextId
    ensures ShiftedRelations(NoteRelations(ds, Names(es.names, es.aliases, claims.ids), c, es.nextId).relations,
                             NoteRelations(ds, Names(es'.names, es'.aliases, claims'.ids), c.(now := later),
                                           es'.nextId).relations, es'.nextId - es.nextId, delta, later)
  {
    RelationsShifted(ds, Names(es.names, es.aliases, claims.ids), claims'.ids, c, later, es.nextId,
                     es'.nextId - es.nextId, delta);
  }

  /** The two sets of rows that the same drafts give, the second time over the entities of the first. */
  lemma {:induction false} RowsRepeat(entities: seq<Entity>, d: Draft, c: Context, later: nat, id: nat, a: NoteRows,
                                      b: NoteRows, laterEntities: seq<Entity>, laterId: nat)
    returns (delta: nat, relationsBy: nat)
    requires AliasesMerged(entities) && EntitiesWF(entities, id)
    requires laterEntities == a.entities.entities && laterId == a.relations.nextId
    requires RowsAre(a, entities, d, c, id) && RowsAre(b, laterEntities, d, c.(now := later), laterId)
    ensures SameNoteRows(a, b, delta, relationsBy, later)
  {
    MoreIdsAreUsed(a, entities, d, c, id);
    ClaimsRepeat(d.claims, c, later, id, laterId);
    LaterEntities(entities, id, a.claims.nextId);
    EntityRowsRepeat(entities, d.entities, c, later, a, b);
    delta, relationsBy := laterId - id, b.entities.nextId - a.entities.nextId;
    RelationRowsRepeat(d.relations, a, b, c, later, delta);
  }

  lemma {:induction false} EntityRowsRepeat(entities: seq<Entity>, ds: seq<EntityDraft>, c: Context, later: nat, a: NoteRows,
                                            b: NoteRows)
    requires AliasesMerged(entities) && EntitiesWF(entities, a.claims.nextId)
    requires a.entities == AddEntities(EntityState(entities, map[], map[], a.claims.nextId), ds, c.workspace, c.now)
    requires b.entities
             == AddEntities(EntityState(a.entities.entities, map[], map[], b.claims.nextId), ds, c.workspace, later)
    ensures SameEntities(a.entities.entities, b.entities.entities) && b.entities.nextId == b.claims.nextId
    ensures a.entities.names == b.entities.names && a.entities.aliases == b.entities.aliases
  {
    EntitiesRepeat(entities, ds, c.workspace, c.now, later, a.claims.nextId, b.claims.nextId);
  }

  lemma {:induction false} RelationRowsRepeat(ds: seq<RelationDraft>, a: NoteRows, b: NoteRows, c: Context, later: nat, delta: nat)
    requires ShiftedIds(a.claims.ids, b.claims.ids, delta) && a.entities.nextId <= b.entities.nextId
    requires a.entities.names == b.entities.names && a.entities.aliases == b.entities.aliases
    requires a.relations == NoteRelations(ds, Names(a.entities.names, a.entities.aliases, a.claims.ids), c, a.entities.nextId)
    requires b.relations == NoteRelations(ds, Names(b.entities.names, b.entities.aliases, b.claims.ids), c.(now := later),
                                          b.entities.nextId)
    ensures ShiftedRelations(a.relations.relations, b.relations.relations, b.entities.nextId - a.entities.nextId, delta, later)
  {
    RelationsRepeat(ds, a.claims, b.claims, a.entities, b.entities, c, later, delta);
  }

  lemma {:induction false} ClaimsRepeat(ds: seq<ClaimDraft>, c: Context, later: nat, id: nat, laterId: nat)
    requires laterId >= id
    ensures var b := NoteClaims(ds, c.(now := later), laterId);
            ShiftedState(NoteClaims(ds, c, id), b, laterId - id, later) && laterId <= b.nextId
  {
    var delta := laterId - id;
    assert id + delta == laterId;
    ClaimsShifted(ds, c, later, id, delta);
    NoteClaimsNextId(ds, c.(now := later), laterId);
  }

  /** The extraction row of the note after `Begin`. */
  lemma {:induction false} OpenedRow(db: Db, w: string, n: string, d: Draft, now: nat)
    requires WellFormed(db)
    ensures var (db', id) := Begin(db, w, n, d, now);
            var i := ExtractionIndex(db.extractions, w, n);
            && i < |db'.extractions| && ExtractionIndex(db'.extractions, w, n) == i && db'.extractions[i].id == id
            && db'.extractions[i].version == Clean(d.version, 128) && db'.extractions[i].promptId == Clean(d.promptId, 256)
  {
    var (db', id) := Begin(db, w, n, d, now);
    var i := ExtractionIndex(db.extractions, w, n);
    assert db'.extractions[i].workspace == w && db'.extractions[i].note == n;
    assert forall k | 0 <= k < i :: db'.extractions[k] == db.extractions[k];
  }

  lemma {:induction false} BeginAgain(db: Db, again: Db, w: string, n: string, d: Draft, now: nat, later: nat)
    requires WellFormed(db) && again.extractions == Begin(db, w, n, d, now).0.extractions
    ensures var (db', id) := Begin(again, w, n, d, later);
            id == Begin(db, w, n, d, now).1 && db'.nextId == again.nextId && SameExtractions(again.extractions, db'.extractions)
  {
    OpenedRow(db, w, n, d, now);
  }

  /** The same store, but for the ids of the note's rows and the times of the second write. */
  ghost predicate SameButFresh(a: Db, b: Db, w: string, n: string, delta: nat, relationsBy: nat, later: nat) {
    && SameElsewhere(a, b, w, n) && SameExtractions(a.extractions, b.extractions) && SameEntities(a.entities, b.entities)
    && ShiftedClaims(Keep(a.claims, ThisClaim(w, n)), Keep(b.claims, ThisClaim(w, n)), delta, later)
    && ShiftedEvidence(Keep(a.evidence, ThisEvidence(w, n)), Keep(b.evidence, ThisEvidence(w, n)), delta, later)
    && ShiftedRelations(Keep(a.relations, ThisRelation(w, n)), Keep(b.relations, ThisRelation(w, n)), relationsBy, delta, later)
  }

  ghost predicate HoldsRows(db: Db, rows: NoteRows, w: string, n: string) {
    && Keep(db.claims, ThisClaim(w, n)) == rows.claims.claims
    && Keep(db.evidence, ThisEvidence(w, n)) == rows.claims.evidence
    && Keep(db.relations, ThisRelation(w, n)) == rows.relations.relations
    && db.entities == rows.entities.entities && db.nextId == rows.relations.nextId
  }

  lemma {:induction false} SameFromRows(once: Db, twice: Db, a: NoteRows, b: NoteRows, w: string, n: string, delta: nat,
                                        relationsBy: nat, later: nat)
    requires HoldsRows(once, a, w, n) && HoldsRows(twice, b, w, n) && SameNoteRows(a, b, delta, relationsBy, later)
    requires SameElsewhere(once, twice, w, n) && SameExtractions(once.extractions, twice.extractions)
    ensures SameButFresh(once, twice, w, n, delta, relationsBy, later)
  {
  }

  /** The tables of a replacement in terms of its rows, and what its filters give. */
  lemma {:induction false} ReplacedRows(db: Db, workspace: string, note: string, source: string, d: Draft, now: nat)
    requires WellFormed(db)
    ensures var w, n := Clean(workspace, 128), Clean(note, 128);
            var (db1, id) := Begin(db, w, n, d, now);
            var rows := RowsFor(db.entities, d, Context(id, w, n, source, now), db1.nextId);
            var db' := Replace(db, workspace, note, source, d, now);
            HoldsRows(db', rows, w, n) && db'.extractions == db1.extractions && db.nextId <= db1.nextId
  {
    var w, n := Clean(workspace, 128), Clean(note, 128);
    var (db1, id) := Begin(db, w, n, d, now);
    var c := Context(id, w, n, source, now);
    var rows := RowsFor(db.entities, d, c, db1.nextId);
    ReplacedTables(db, workspace, note, source, d, now);
    RowsOfTheNote(rows, db.entities, d, c, db1.nextId);
    RowsAreOfTheNote(rows, d, c);
    KeepSecondPart(db.claims, rows.claims.claims, OtherClaim(w, n), ThisClaim(w, n));
    KeepSecondPart(db.evidence, rows.claims.evidence, OtherEvidence(w, n), ThisEvidence(w, n));
    KeepSecondPart(db.relations, rows.relations.relations, OtherRelation(w, n), ThisRelation(w, n));
  }

  lemma {:induction false} LaterEntities(es: seq<Entity>, nextId: nat, more: nat)
    requires EntitiesWF(es, nextId) && nextId <= more
    ensures EntitiesWF(es, more)
  {
  }

  lemma {:induction false} OnlyTheNote(db: Db, workspace: string, note: string, source: string, d: Draft, now: nat)
    requires WellFormed(db)
    ensures SameElsewhere(db, Replace(db, workspace, note, source, d, now), Clean(workspace, 128), Clean(note, 128))
  {
    ReplaceIsExact(db, workspace, note, source, d, now);
  }

  /** Replacing a note twice with the same input leaves what the first replacement left, up to fresh ids and times. */
  lemma {:induction false} RepeatedReplaceOnlyRefreshes(db: Db, workspace: string, note: string, source: string, d: Draft,
                                                        now: nat, later: nat)
    requires WellFormed(db) && AliasesMerged(db.entities)
    ensures var once := Replace(db, workspace, note, source, d, now);
            var twice := Replace(once, workspace, note, source, d, later);
            exists delta, relationsBy ::
              SameButFresh(once, twice, Clean(workspace, 128), Clean(note, 128), delta, relationsBy, later)
  {
    var w, n := Clean(workspace, 128), Clean(note, 128);
    var once := Replace(db, workspace, note, source, d, now);
    var (db1, id) := Begin(db, w, n, d, now);
    var c := Context(id, w, n, source, now);
    FirstRows(db, workspace, note, source, d, now);
    SecondRows(db, once, workspace, note, source, d, now, later);
    var a := RowsFor(db.entities, d, c, db1.nextId);
    var b := RowsFor(once.entities, d, c.(now := later), once.nextId);
    RowsForAre(db.entities, d, c, db1.nextId);
    RowsForAre(once.entities, d, c.(now := later), once.nextId);
    RepeatedRows(db.entities, db1.nextId, once, Replace(once, workspace, note, source, d, later), d, c, later, a, b);
  }

  lemma {:induction false} FirstRows(db: Db, workspace: string, note: string, source: string, d: Draft, now: nat)
    requires WellFormed(db)
    ensures var w, n := Clean(workspace, 128), Clean(note, 128);
            var (db1, id) := Begin(db, w, n, d, now);
            var once := Replace(db, workspace, note, source, d, now);
            && WellFormed(once) && once.extractions == db1.extractions && EntitiesWF(db.entities, db1.nextId)
            && HoldsRows(once, RowsFor(db.entities, d, Context(id, w, n, source, now), db1.nextId), w, n)
  {
    var (db1, id) := Begin(db, Clean(workspace, 128), Clean(note, 128), d, now);
    ReplaceWF(db, workspace, note, source, d, now);
    ReplacedRows(db, workspace, note, source, d, now);
    LaterEntities(db.entities, db.nextId, db1.nextId);
  }

  lemma {:induction false} RepeatedRows(entities: seq<Entity>, id: nat, once: Db, twice: Db, d: Draft, c: Context, later: nat,
                                        a: NoteRows, b: NoteRows)
    requires AliasesMerged(entities) && EntitiesWF(entities, id)
    requires RowsAre(a, entities, d, c, id) && RowsAre(b, once.entities, d, c.(now := later), once.nextId)
    requires HoldsRows(once, a, c.workspace, c.note) && HoldsRows(twice, b, c.workspace, c.note)
    requires SameElsewhere(once, twice, c.workspace, c.note) && SameExtractions(once.extractions, twice.extractions)
    ensures exists delta, relationsBy :: SameButFresh(once, twice, c.workspace, c.note, delta, relationsBy, later)
  {
    var delta, relationsBy := RowsRepeat(entities, d, c, later, id, a, b, once.entities, once.nextId);
    SameFromRows(once, twice, a, b, c.workspace, c.note, delta, relationsBy, later);
  }

  /** The rows of the second replacement, which reuses the extraction of the first. */
  lemma {:induction false} SecondRows(db: Db, once: Db, workspace: string, note: string, source: string, d: Draft, now: nat,
                                      later: nat)
    requires var (db1, id) := Begin(db, Clean(workspace, 128), Clean(note, 128), d, now);
             WellFormed(db) && WellFormed(once) && once.extractions == db1.extractions
    ensures var w, n := Clean(workspace, 128), Clean(note, 128);
            var c := Context(Begin(db, w, n, d, now).1, w, n, source, later);
            var twice := Replace(once, workspace, note, source, d, later);
            HoldsRows(twice, RowsFor(once.entities, d, c, once.nextId), w, n)
            && SameElsewhere(once, twice, w, n) && SameExtractions(once.extractions, twice.extractions)
  {
    ReplacedRows(once, workspace, note, source, d, later);
    BeginAgain(db, once, Clean(workspace, 128), Clean(note, 128), d, now, later);
    OnlyTheNote(once, workspace, note, source, d, later);
  }

  lemma {:induction false} EveryHistoryHasMergedAliases(ops: seq<Operation>)
    ensures AliasesMerged(PerformAll(Db([], [], [], [], [], 0), ops).entities)
  {
    if ops != [] {
      var before := PerformAll(Db([], [], [], [], [], 0), ops[..|ops| - 1]);
      EveryHistoryHasMergedAliases(ops[..|ops| - 1]);
      EveryHistoryIsWellFormed(ops[..|ops| - 1]);
      match ops[|ops| - 1]
      case ReplaceNote(w, n, source, d, now, _) => ReplaceMergesAliases(before, w, n, source, d, now);
      case DeleteNote(w, n, _) =>
    }
  }

  lemma {:induction false} ReplaceMergesAliases(db: Db, workspace: string, note: string, source: string, d: Draft, now: nat)
    requires WellFormed(db) && AliasesMerged(db.entities)
    ensures AliasesMerged(Replace(db, workspace, note, source, d, now).entities)
  {
    var w, n := Clean(workspace, 128), Clean(note, 128);
    ReplacedRows(db, workspace, note, source, d, now);
    var claims := NoteClaims(d.claims, Context(Begin(db, w, n, d, now).1, w, n, source, now), Begin(db, w, n, d, now).0.nextId);
    EntitiesSettle(EntityState(db.entities, map[], map[], claims.nextId), d.entities, w, now);
  }

  /** After any history, failing calls included, repeating a replacement that succeeds only refreshes ids and times. */
  lemma {:induction false} RepeatAfterAnyHistory(ops: seq<Operation>, op: Operation, again: Operation)
    requires op.ReplaceNote? && again.ReplaceNote? && again == op.(now := again.now, statements := again.statements)
    requires Succeeds(PerformAll(Db([], [], [], [], [], 0), ops), op)
    requires Succeeds(PerformAll(Db([], [], [], [], [], 0), ops + [op]), again)
    ensures var once := PerformAll(Db([], [], [], [], [], 0), ops + [op]);
            var twice := PerformAll(Db([], [], [], [], [], 0), ops + [op] + [again]);
            exists delta, relationsBy ::
              SameButFresh(once, twice, Clean(op.workspace, 128), Clean(op.note, 128), delta, relationsBy, again.now)
  {
    var start := Db([], [], [], [], [], 0);
    LastPerformed(start, ops, op);
    LastPerformed(start, ops + [op], again);
    EveryHistoryIsWellFormed(ops);
    EveryHistoryHasMergedAliases(ops);
    RepeatedReplaceOnlyRefreshes(PerformAll(start, ops), op.workspace, op.note, op.source, op.draft, op.now, again.now);
  }

  lemma {:induction false} LastPerformed(start: Db, ops: seq<Operation>, op: Operation)
    requires op.ReplaceNote? && Succeeds(PerformAll(start, ops), op)
    ensures PerformAll(start, ops + [op])
            == Replace(PerformAll(start, ops), op.workspace, op.note, op.source, op.draft, op.now)
  {
    assert (ops + [op])[..|ops|] == ops;
  }
}
