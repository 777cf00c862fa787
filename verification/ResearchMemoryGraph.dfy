/** The entities and relations after one replacement: what is stored for the drafts, and what is left alone. */
module ResearchMemoryGraph {
  import opened Wrappers
  import opened Text
  import opened ResearchMemory
  import opened ResearchMemoryInvariant
  import opened ResearchMemoryReplace
  import opened ResearchMemoryRepeat

  // ---------------------------------------------------------------- entities

  predicate IsDrafted(key: EntityKey, ds: seq<EntityDraft>, workspace: string) {
    exists d | d in ds :: DraftKey(d, workspace) == key
  }

  /** Rows whose key no draft has are as they were, and every new row has the key of a draft. */
  predicate LeavesOthers(es: seq<Entity>, es': seq<Entity>, ds: seq<EntityDraft>, workspace: string) {
    && |es| <= |es'|
    && (forall i | 0 <= i < |es| && !IsDrafted(KeyOf(es[i]), ds, workspace) :: es'[i] == es[i])
    && (forall i | |es| <= i < |es'| :: IsDrafted(KeyOf(es'[i]), ds, workspace))
  }

  lemma {:induction false} DraftedByMore(ds: seq<EntityDraft>, d: EntityDraft, workspace: string, key: EntityKey)
    ensures IsDrafted(key, ds + [d], workspace) <==> IsDrafted(key, ds, workspace) || DraftKey(d, workspace) == key
  {
    if IsDrafted(key, ds, workspace) {
      var x :| x in ds && DraftKey(x, workspace) == key;
      assert x in ds + [d];
    }
    assert d in ds + [d];
  }

  lemma {:induction false} UpsertLeavesOthers(start: seq<Entity>, es: seq<Entity>, ds: seq<EntityDraft>, d: EntityDraft,
                                              workspace: string, now: nat, id: nat)
    requires LeavesOthers(start, es, ds, workspace) && KeepsEntities(start, es)
    ensures LeavesOthers(start, Upsert(es, d, workspace, now, id), ds + [d], workspace)
  {
    var key := DraftKey(d, workspace);
    var i, es' := IndexOf(es, key), Upsert(es, d, workspace, now, id);
    if i < |es| {
      UpsertAt(es, d, workspace, now, id);
      UpdatedKeepsKey(es[i], d, now);
    } else {
      UpsertNew(es, d, workspace, now, id);
      assert KeyOf(es'[i]) == key;
    }
    forall k | 0 <= k < |es'|
      ensures k < |start| && !IsDrafted(KeyOf(start[k]), ds + [d], workspace) ==> es'[k] == start[k]
      ensures k >= |start| ==> IsDrafted(KeyOf(es'[k]), ds + [d], workspace)
    {
      DraftedByMore(ds, d, workspace, KeyOf(es'[k]));
      if k < |start| {
        DraftedByMore(ds, d, workspace, KeyOf(start[k]));
      }
    }
  }

  lemma {:induction false} EntitiesLeaveOthers(st: EntityState, ds: seq<EntityDraft>, workspace: string, now: nat)
    requires AliasesMerged(st.entities)
    ensures LeavesOthers(st.entities, AddEntities(st, ds, workspace, now).entities, ds, workspace)
  {
    if ds != [] {
      var before, last := ds[..|ds| - 1], ds[|ds| - 1];
      var mid := AddEntities(st, before, workspace, now);
      EntitiesLeaveOthers(st, before, workspace, now);
      EntitiesSettle(st, before, workspace, now);
      UpsertLeavesOthers(st.entities, mid.entities, before, last, workspace, now, mid.nextId);
      AddedEntity(st, ds, workspace, now);
      LastDraft(ds);
    }
  }

  /**
   * The entity table after the drafts: rows without a draft stay as they were, those of other workspaces among them; every
   * draft has a row, which has taken over its aliases; and a row has the name and description of its last drafts.
   */
  predicate HoldsEntities(es: seq<Entity>, es': seq<Entity>, ds: seq<EntityDraft>, workspace: string) {
    && Grows(es, es') && LeavesOthers(es, es', ds, workspace) && AllSettled(es', ds, workspace)
    && OfWorkspaceStable(es', ds, workspace)
  }

  // ---------------------------------------------------------------- the names that relations refer to

  /** The id of the row for the last draft with the name. */
  function IdForName(ds: seq<EntityDraft>, es: seq<Entity>, workspace: string, name: string): Option<nat> {
    if ds == [] then None
    else
      var key := DraftKey(ds[|ds| - 1], workspace);
      if key.normalized == name && IndexOf(es, key) < |es| then Some(es[IndexOf(es, key)].id)
      else IdForName(ds[..|ds| - 1], es, workspace, name)
  }

  /** The draft names the alias: in any spelling that normalizes to it. */
  predicate HasAlias(d: EntityDraft, alias: string) {
    alias != "" && exists a | a in d.aliases :: Normalized(a) == alias
  }

  function IdForAlias(ds: seq<EntityDraft>, es: seq<Entity>, workspace: string, alias: string): Option<nat> {
    if ds == [] then None
    else
      var d := ds[|ds| - 1];
      var i := IndexOf(es, DraftKey(d, workspace));
      if HasAlias(d, alias) && i < |es| then Some(es[i].id) else IdForAlias(ds[..|ds| - 1], es, workspace, alias)
  }

  function Get(m: map<string, nat>, name: string): Option<nat> {
    if name in m then Some(m[name]) else None
  }

  lemma {:induction false} AliasesRecorded(m: map<string, nat>, aliases: seq<string>, id: nat, alias: string)
    ensures Get(WithAliases(m, aliases, id), alias)
            == if alias != "" && exists a | a in aliases :: Normalized(a) == alias then Some(id) else Get(m, alias)
  {
    if aliases != [] {
      var before, last := aliases[..|aliases| - 1], aliases[|aliases| - 1];
      AliasesRecorded(m, before, id, alias);
      assert aliases == before + [last];
      assert forall a | a in before :: a in aliases;
      assert last in aliases;
    }
  }

  /** The two maps say what the drafts name, in terms of the final entity table. */
  lemma {:induction false} NamesAreRecorded(st: EntityState, es: seq<Entity>, ds: seq<EntityDraft>, workspace: string, now: nat,
                                            name: string)
    requires AliasesMerged(st.entities) && st.names == map[] && st.aliases == map[]
    requires KeepsEntities(AddEntities(st, ds, workspace, now).entities, es)
    ensures var st' := AddEntities(st, ds, workspace, now);
            && Get(st'.names, name) == IdForName(ds, es, workspace, name)
            && Get(st'.aliases, name) == IdForAlias(ds, es, workspace, name)
  {
    if ds != [] {
      var before, last := ds[..|ds| - 1], ds[|ds| - 1];
      var mid := AddEntities(st, before, workspace, now);
      var es1 := Upsert(mid.entities, last, workspace, now, mid.nextId);
      EntitiesSettle(st, before, workspace, now);
      UpsertSettles(mid.entities, last, workspace, now, mid.nextId);
      AddedEntity(st, ds, workspace, now);
      NamesAreRecorded(st, es, before, workspace, now, name);
      OneNameRecorded(mid, es, last, workspace, now, name);
    }
  }

  lemma {:induction false} OneNameRecorded(st: EntityState, es: seq<Entity>, d: EntityDraft, workspace: string, now: nat,
                                           name: string)
    requires KeepsEntities(Upsert(st.entities, d, workspace, now, st.nextId), es)
    ensures var st', key := AddEntity(st, d, workspace, now), DraftKey(d, workspace);
            && IndexOf(es, key) < |es|
            && Get(st'.names, name) == (if key.normalized == name then Some(es[IndexOf(es, key)].id) else Get(st.names, name))
            && Get(st'.aliases, name) == (if HasAlias(d, name) then Some(es[IndexOf(es, key)].id) else Get(st.aliases, name))
  {
    var key := DraftKey(d, workspace);
    var es1 := Upsert(st.entities, d, workspace, now, st.nextId);
    UpsertIndex(st.entities, d, workspace, now, st.nextId);
    SameIndex(es1, es, key);
    var id := es1[IndexOf(es1, key)].id;
    RecordedId(st, d, workspace, now, id);
    AliasesRecorded(st.aliases, d.aliases, id, name);
  }

  // ---------------------------------------------------------------- relations

  /** What makes two relations of one extraction the same. */
  datatype RelationKey = RelationKey(source: nat, predicate_: string, target: nat, claimId: Option<nat>)

  function KeyOfRelation(r: Relation): RelationKey {
    RelationKey(r.source, r.predicate_, r.target, r.claimId)
  }

  /** The relation that a draft resolves to, if its end points are known and its predicate is not blank. */
  function ResolvedRelation(d: RelationDraft, n: Names): Option<RelationKey> {
    var source, target := NamedBy(d.subject, n), NamedBy(d.object_, n);
    if source.None? || target.None? || Clean(d.predicate_, 256) == "" then None
    else Some(RelationKey(source.value, Clean(d.predicate_, 256), target.value, ClaimNamed(d.claimIndex, n)))
  }

  /** What a name stands for: the entity with the name, or else the one with the alias. */
  function NamedBy(name: string, n: Names): Option<nat> {
    var entity, alias := Get(n.names, Normalized(name)), Get(n.aliases, Normalized(name));
    if entity.Some? then entity else alias
  }

  /** The claim recorded for the draft with the index, if there is one. */
  function ClaimNamed(index: Option<int>, n: Names): Option<nat> {
    match index
    case None => None
    case Some(k) => if k < 0 || k >= |n.ids| then None else n.ids[k]
  }

  predicate IsFirstRelation(ds: seq<RelationDraft>, k: nat, n: Names)
    requires k < |ds|
  {
    && ResolvedRelation(ds[k], n).Some?
    && forall j | 0 <= j < k :: ResolvedRelation(ds[j], n) != ResolvedRelation(ds[k], n)
  }

  /** The drafts that are first occurrences of a resolved relation, in order. */
  function FirstRelations(ds: seq<RelationDraft>, n: Names): seq<RelationDraft> {
    if ds == [] then []
    else FirstRelations(ds[..|ds| - 1], n) + if IsFirstRelation(ds, |ds| - 1, n) then [ds[|ds| - 1]] else []
  }

  predicate RowOfRelation(r: Relation, d: RelationDraft, n: Names, c: Context) {
    RelationOfNote(r, c) && Some(KeyOfRelation(r)) == ResolvedRelation(d, n) && r.confidence == Bounded(d.confidence)
  }

  predicate RowsOfRelations(rows: seq<Relation>, ds: seq<RelationDraft>, n: Names, c: Context) {
    |rows| == |ds| && forall i | 0 <= i < |ds| :: RowOfRelation(rows[i], ds[i], n, c)
  }

  predicate Resolves(ds: seq<RelationDraft>, n: Names, key: RelationKey) {
    exists d | d in ds :: ResolvedRelation(d, n) == Some(key)
  }

  lemma {:induction false} ResolvesByMore(ds: seq<RelationDraft>, d: RelationDraft, n: Names, key: RelationKey)
    ensures Resolves(ds + [d], n, key) <==> Resolves(ds, n, key) || ResolvedRelation(d, n) == Some(key)
  {
    if Resolves(ds, n, key) {
      var x :| x in ds && ResolvedRelation(x, n) == Some(key);
      assert x in ds + [d];
    }
    assert d in ds + [d];
  }

  lemma {:induction false} LastIsFirstRelation(ds: seq<RelationDraft>, n: Names)
    requires ds != [] && ResolvedRelation(ds[|ds| - 1], n).Some?
    ensures IsFirstRelation(ds, |ds| - 1, n) <==> !Resolves(ds[..|ds| - 1], n, ResolvedRelation(ds[|ds| - 1], n).value)
  {
    var k := |ds| - 1;
    var r := ResolvedRelation(ds[k], n);
    if d :| d in ds[..k] && ResolvedRelation(d, n) == r {
      var j :| 0 <= j < k && ds[..k][j] == d;
      assert ds[j] == d;
    }
    if j :| 0 <= j < k && ResolvedRelation(ds[j], n) == r {
      assert ds[..k][j] == ds[j] && ds[j] in ds[..k];
    }
  }

  lemma {:induction false} FirstRelationsCover(ds: seq<RelationDraft>, n: Names, key: RelationKey)
    ensures Resolves(FirstRelations(ds, n), n, key) <==> Resolves(ds, n, key)
  {
    if ds != [] {
      var before, last := ds[..|ds| - 1], ds[|ds| - 1];
      assert ds == before + [last];
      FirstRelationsCover(before, n, key);
      ResolvesByMore(before, last, n, key);
      ResolvesByMore(FirstRelations(before, n), last, n, key);
      if ResolvedRelation(last, n).Some? {
        LastIsFirstRelation(ds, n);
      }
      assert FirstRelations(before, n) + [] == FirstRelations(before, n);
    }
  }

  lemma {:induction false} RelationIsResolved(d: RelationDraft, n: Names, c: Context, id: nat)
    ensures var r := RelationOf(d, n, c, id);
            && (r.Some? <==> ResolvedRelation(d, n).Some?)
            && (r.Some? ==> RowOfRelation(r.value, d, n, c))
  {
  }

  lemma {:induction false} StoredRelations(rows: seq<Relation>, ds: seq<RelationDraft>, n: Names, c: Context, r: Relation)
    requires RowsOfRelations(rows, ds, n, c) && r.extractionId == c.extractionId
    ensures HasRelation(rows, r) <==> Resolves(ds, n, KeyOfRelation(r))
  {
    if HasRelation(rows, r) {
      var i :| 0 <= i < |rows| && SameRelation(rows[i], r);
      assert RowOfRelation(rows[i], ds[i], n, c) && ds[i] in ds;
    }
    if d :| d in ds && ResolvedRelation(d, n) == Some(KeyOfRelation(r)) {
      var i :| 0 <= i < |ds| && ds[i] == d;
      assert RowOfRelation(rows[i], d, n, c) && SameRelation(rows[i], r);
    }
  }

  lemma {:induction false} AddedRelation(st: RelationState, ds: seq<RelationDraft>, n: Names, c: Context)
    requires ds != [] && RowsOfRelations(st.relations, FirstRelations(ds[..|ds| - 1], n), n, c)
    ensures RowsOfRelations(AddRelation(st, ds[|ds| - 1], n, c).relations, FirstRelations(ds, n), n, c)
  {
    var before, last := ds[..|ds| - 1], ds[|ds| - 1];
    var r := RelationOf(last, n, c, st.nextId);
    RelationIsResolved(last, n, c, st.nextId);
    if r.Some? {
      FirstRelationsCover(before, n, KeyOfRelation(r.value));
      LastIsFirstRelation(ds, n);
      StoredRelations(st.relations, FirstRelations(before, n), n, c, r.value);
    }
  }

  lemma {:induction false} NoteRelationsAreFirsts(ds: seq<RelationDraft>, n: Names, c: Context, id: nat)
    ensures RowsOfRelations(NoteRelations(ds, n, c, id).relations, FirstRelations(ds, n), n, c)
  {
    if ds != [] {
      NoteRelationsAreFirsts(ds[..|ds| - 1], n, c, id);
      AddedRelation(NoteRelations(ds[..|ds| - 1], n, c, id), ds, n, c);
    }
  }

  // ---------------------------------------------------------------- the whole replacement

  /** The names, aliases and claim ids as the drafts record them, in terms of the tables after the replacement. */
  ghost predicate RecordsNames(n: Names, db: Db, d: Draft, c: Context) {
    && (forall name :: Get(n.names, name) == IdForName(d.entities, db.entities, c.workspace, name))
    && (forall name :: Get(n.aliases, name) == IdForAlias(d.entities, db.entities, c.workspace, name))
    && IdsOfDrafts(n.ids, d.claims, Keep(db.claims, ThisClaim(c.workspace, c.note)))
  }

  /** The note's relations are the first occurrences of the drafts that resolve under those names, in order. */
  ghost predicate HoldsRelations(db: Db, d: Draft, c: Context) {
    exists n: Names ::
      RecordsNames(n, db, d, c)
      && RowsOfRelations(Keep(db.relations, ThisRelation(c.workspace, c.note)), FirstRelations(d.relations, n), n, c)
  }

  lemma {:induction false} RowsRecordNames(rows: NoteRows, db: Db, db': Db, d: Draft, c: Context, id: nat)
    requires RowsAre(rows, db.entities, d, c, id) && HoldsRows(db', rows, c.workspace, c.note) && AliasesMerged(db.entities)
    ensures RecordsNames(Names(rows.entities.names, rows.entities.aliases, rows.claims.ids), db', d, c)
  {
    var st := EntityState(db.entities, map[], map[], rows.claims.nextId);
    var n := Names(rows.entities.names, rows.entities.aliases, rows.claims.ids);
    NoteClaimIds(d.claims, c, id);
    KeepsItself(db'.entities);
    forall name
      ensures Get(n.names, name) == IdForName(d.entities, db'.entities, c.workspace, name)
      ensures Get(n.aliases, name) == IdForAlias(d.entities, db'.entities, c.workspace, name)
    {
      NamesAreRecorded(st, db'.entities, d.entities, c.workspace, c.now, name);
    }
  }

  lemma {:induction false} KeepsItself(es: seq<Entity>)
    ensures KeepsEntities(es, es)
  {
  }

  lemma {:induction false} EntitiesAreHeld(db: Db, rows: NoteRows, d: Draft, c: Context, id: nat)
    requires RowsAre(rows, db.entities, d, c, id) && AliasesMerged(db.entities) && EntitiesWF(db.entities, id)
    ensures HoldsEntities(db.entities, rows.entities.entities, d.entities, c.workspace)
  {
    var st := EntityState(db.entities, map[], map[], rows.claims.nextId);
    NoteClaimsNextId(d.claims, c, id);
    LaterEntities(db.entities, id, rows.claims.nextId);
    EntitiesSettle(st, d.entities, c.workspace, c.now);
    EntitiesStable(st, d.entities, c.workspace, c.now);
    EntitiesLeaveOthers(st, d.entities, c.workspace, c.now);
  }

  /**
   * After a replacement the entity table holds the drafts and leaves every other row alone, and the note's relations are
   * the first occurrences of the drafts whose end points are named by the entity drafts.
   */
  lemma {:induction false} ReplacedGraphIsExact(db: Db, workspace: string, note: string, source: string, d: Draft, now: nat)
    requires WellFormed(db) && AliasesMerged(db.entities)
    ensures var w, n := Clean(workspace, 128), Clean(note, 128);
            var db' := Replace(db, workspace, note, source, d, now);
            var c := Context(Begin(db, w, n, d, now).1, w, n, source, now);
            HoldsEntities(db.entities, db'.entities, d.entities, w) && HoldsRelations(db', d, c)
  {
    var w, n := Clean(workspace, 128), Clean(note, 128);
    var (db1, id) := Begin(db, w, n, d, now);
    var c := Context(id, w, n, source, now);
    var rows := RowsFor(db.entities, d, c, db1.nextId);
    FirstRows(db, workspace, note, source, d, now);
    RowsForAre(db.entities, d, c, db1.nextId);
    GraphOfRows(db, Replace(db, workspace, note, source, d, now), rows, d, c, db1.nextId);
  }

  lemma {:induction false} GraphOfRows(db: Db, db': Db, rows: NoteRows, d: Draft, c: Context, id: nat)
    requires RowsAre(rows, db.entities, d, c, id) && HoldsRows(db', rows, c.workspace, c.note)
    requires AliasesMerged(db.entities) && EntitiesWF(db.entities, id)
    ensures HoldsEntities(db.entities, db'.entities, d.entities, c.workspace) && HoldsRelations(db', d, c)
  {
    var names := Names(rows.entities.names, rows.entities.aliases, rows.claims.ids);
    EntitiesAreHeld(db, rows, d, c, id);
    RowsRecordNames(rows, db, db', d, c, id);
    NoteRelationsAreFirsts(d.relations, names, c, rows.entities.nextId);
  }
}
