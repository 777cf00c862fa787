/**
 * The structured research memory (app/research/memory.py): five tables with unique keys and cascades. A table is the
 * sequence of its rows in insertion order, a fresh `uuid4` value the next number of a counter, an empty claim id None.
 */
module ResearchMemory {
  import opened Wrappers
  import opened Text

  datatype Extraction = Extraction(id: nat, workspace: string, note: string, version: string, promptId: string,
                                   createdAt: nat, updatedAt: nat)
  datatype Claim = Claim(id: nat, extractionId: nat, workspace: string, note: string, kind: string, text: string,
                         normalized: string, confidence: real, createdAt: nat)
  datatype Evidence = Evidence(id: nat, claimId: nat, workspace: string, note: string, excerpt: string,
                               start: int, end: int, createdAt: nat)
  datatype Entity = Entity(id: nat, workspace: string, name: string, normalized: string, kind: string,
                           aliases: seq<string>, description: string, createdAt: nat, updatedAt: nat)
  datatype Relation = Relation(id: nat, extractionId: nat, workspace: string, note: string, source: nat,
                               predicate_: string, target: nat, claimId: Option<nat>, confidence: real, createdAt: nat)

  datatype Db = Db(extractions: seq<Extraction>, claims: seq<Claim>, evidence: seq<Evidence>, entities: seq<Entity>,
                   relations: seq<Relation>, nextId: nat)

  datatype ClaimDraft = ClaimDraft(text: string, kind: string, confidence: real, excerpt: string)
  datatype EntityDraft = EntityDraft(name: string, kind: string, aliases: seq<string>, description: string)
  datatype RelationDraft = RelationDraft(subject: string, predicate_: string, object_: string, claimIndex: Option<int>,
                                         confidence: real)
  datatype Draft = Draft(claims: seq<ClaimDraft>, entities: seq<EntityDraft>, relations: seq<RelationDraft>,
                         version: string, promptId: string)

  // ---------------------------------------------------------------- text

  function WithoutNul(s: string): string {
    if s == "" then "" else (if s[0] == '\0' then "" else [s[0]]) + WithoutNul(s[1..])
  }

  /** `_clean`; a limit of 0 is no limit. */
  function Clean(s: string, limit: nat): string {
    var text := Strip(WithoutNul(s));
    if limit > 0 && |text| > limit then text[..limit] else text
  }

  function WordLength(s: string): (n: nat)
    ensures n <= |s|
    ensures s != "" && !IsSpace(s[0]) ==> n > 0
  {
    if s == "" || IsSpace(s[0]) then 0 else 1 + WordLength(s[1..])
  }

  function Words(s: string): seq<string>
    decreases |s|
  {
    if s == "" then []
    else if IsSpace(s[0]) then Words(s[1..])
    else [s[..WordLength(s)]] + Words(s[WordLength(s)..])
  }

  function Normalized(s: string): string {
    Join(" ", Words(Lower(Clean(s, 0))))
  }

  function KindOf(kind: string, default: string): string {
    var cleaned := Clean(if kind == "" then default else kind, 128);
    if cleaned == "" then default else cleaned
  }

  function Bounded(confidence: real): real {
    if confidence < 0.0 then 0.0 else if confidence > 1.0 then 1.0 else confidence
  }

  predicate OccursAt(text: string, needle: string, k: nat) {
    k + |needle| <= |text| && text[k..k + |needle|] == needle
  }

  /** `str.find`: the first position at or after `from` where `needle` occurs, or -1. */
  function Find(text: string, needle: string, from: nat): (r: int)
    requires from <= |text|
    ensures r == -1 || (from <= r && OccursAt(text, needle, r))
    ensures forall k | from <= k <= |text| && (r == -1 || k < r) :: !OccursAt(text, needle, k)
    decreases |text| - from
  {
    if from + |needle| > |text| then -1
    else if OccursAt(text, needle, from) then from
    else Find(text, needle, from + 1)
  }

  function FindExcerpt(source: string, excerpt: string): (int, int) {
    var candidate := Clean(excerpt, 4000);
    if source == "" || candidate == "" then (-1, -1)
    else
      var offset := Find(source, candidate, 0);
      if offset < 0 then (-1, -1) else (offset, offset + |candidate|)
  }

  // ---------------------------------------------------------------- claims and evidence

  /** The row values a replacement shares: extraction id, workspace, note and time. */
  datatype Context = Context(extractionId: nat, workspace: string, note: string, source: string, now: nat)

  function FindClaim(claims: seq<Claim>, c: Context, kind: string, normalized: string): Option<nat> {
    if claims == [] then None
    else
      var row := claims[0];
      if row.workspace == c.workspace && row.note == c.note && row.kind == kind && row.normalized == normalized
      then Some(row.id) else FindClaim(claims[1..], c, kind, normalized)
  }

  /** The rows a claim list has inserted, the claim id of each draft, and the next fresh id. */
  datatype ClaimState = ClaimState(claims: seq<Claim>, evidence: seq<Evidence>, ids: seq<Option<nat>>, nextId: nat)

  /** `INSERT OR IGNORE` on the unique key, then the id that the key is stored under. */
  function StoreClaim(claims: seq<Claim>, d: ClaimDraft, c: Context, id: nat): (seq<Claim>, nat) {
    var text := Clean(d.text, 5000);
    var kind := KindOf(d.kind, "other");
    var found := FindClaim(claims, c, kind, Normalized(text));
    if found.Some? then (claims, found.value)
    else (claims + [Claim(id, c.extractionId, c.workspace, c.note, kind, text, Normalized(text), Bounded(d.confidence),
                          c.now)], id)
  }

  /** The number of evidence rows that a stored claim draft adds. */
  function EvidenceRows(d: ClaimDraft): nat {
    if Clean(d.excerpt, 4000) == "" then 0 else 1
  }

  function StoreEvidence(evidence: seq<Evidence>, d: ClaimDraft, c: Context, claimId: nat, id: nat): seq<Evidence> {
    var excerpt := Clean(d.excerpt, 4000);
    if excerpt == "" then evidence
    else
      var span := FindExcerpt(c.source, excerpt);
      evidence + [Evidence(id, claimId, c.workspace, c.note, excerpt, span.0, span.1, c.now)]
  }

  predicate Blank(d: ClaimDraft) {
    Normalized(Clean(d.text, 5000)) == ""
  }

  function AddNonBlank(st: ClaimState, d: ClaimDraft, c: Context): ClaimState {
    AddStored(st, d, c, StoreClaim(st.claims, d, c, st.nextId))
  }

  /** The claim id is recorded and the draft's evidence added. */
  function AddStored(st: ClaimState, d: ClaimDraft, c: Context, stored: (seq<Claim>, nat)): ClaimState {
    ClaimState(stored.0, StoreEvidence(st.evidence, d, c, stored.1, st.nextId + 1), st.ids + [Some(stored.1)],
               st.nextId + 1 + EvidenceRows(d))
  }

  function AddClaim(st: ClaimState, d: ClaimDraft, c: Context): ClaimState {
    if Blank(d) then st.(ids := st.ids + [None]) else AddNonBlank(st, d, c)
  }

  function AddClaims(start: ClaimState, ds: seq<ClaimDraft>, c: Context): ClaimState {
    if ds == [] then start else AddClaim(AddClaims(start, ds[..|ds| - 1], c), ds[|ds| - 1], c)
  }

  // ---------------------------------------------------------------- entities

  const MAX_ALIASES := 20

  function NormSet(aliases: seq<string>): set<string> {
    set a | a in aliases :: Normalized(a)
  }

  predicate Skips(alias: string, merged: seq<string>, name: string) {
    alias == "" || Normalized(alias) == "" || Normalized(alias) in NormSet(merged) || Normalized(alias) == name
  }

  /** The alias loop: `rest` appended to `merged` without repeats, up to twenty aliases. */
  function Merge(merged: seq<string>, rest: seq<string>, name: string): seq<string>
    decreases |rest|
  {
    if rest == [] then merged
    else if Skips(rest[0], merged, name) then Merge(merged, rest[1..], name)
    else if |merged| + 1 >= MAX_ALIASES then merged + [rest[0]]
    else Merge(merged + [rest[0]], rest[1..], name)
  }

  function CleanAliases(aliases: seq<string>): seq<string> {
    seq(|aliases|, i requires 0 <= i < |aliases| => Clean(aliases[i], 500))
  }

  datatype EntityKey = EntityKey(workspace: string, normalized: string, kind: string)

  function KeyOf(e: Entity): EntityKey {
    EntityKey(e.workspace, e.normalized, e.kind)
  }

  function DraftKey(d: EntityDraft, workspace: string): EntityKey {
    EntityKey(workspace, Normalized(Clean(d.name, 500)), KindOf(d.kind, "concept"))
  }

  function DraftAliases(d: EntityDraft, workspace: string): seq<string> {
    Merge([], CleanAliases(d.aliases), DraftKey(d, workspace).normalized)
  }

  function IndexOf(entities: seq<Entity>, key: EntityKey): (i: nat)
    ensures i <= |entities|
    ensures i < |entities| ==> KeyOf(entities[i]) == key
    ensures forall k | 0 <= k < i :: KeyOf(entities[k]) != key
  {
    if entities == [] then 0
    else if KeyOf(entities[0]) == key then 0
    else 1 + IndexOf(entities[1..], key)
  }

  /** An existing row keeps its id, key and creation time. */
  function Updated(e: Entity, d: EntityDraft, now: nat): Entity {
    var description := Clean(d.description, 2000);
    e.(name := Clean(d.name, 500),
       aliases := Merge([], e.aliases + DraftAliases(d, e.workspace), e.normalized),
       description := if description != "" then description else e.description,
       updatedAt := now)
  }

  function Upsert(entities: seq<Entity>, d: EntityDraft, workspace: string, now: nat, id: nat): seq<Entity> {
    var key := DraftKey(d, workspace);
    var i := IndexOf(entities, key);
    if i < |entities| then entities[i := Updated(entities[i], d, now)]
    else entities + [Entity(id, workspace, Clean(d.name, 500), key.normalized, key.kind, DraftAliases(d, workspace),
                            Clean(d.description, 2000), now, now)]
  }

  /** The entity table, the ids by normalized name and by alias, and the next fresh id. */
  datatype EntityState = EntityState(entities: seq<Entity>, names: map<string, nat>, aliases: map<string, nat>, nextId: nat)

  function WithAliases(m: map<string, nat>, aliases: seq<string>, id: nat): map<string, nat> {
    if aliases == [] then m
    else
      var before := WithAliases(m, aliases[..|aliases| - 1], id);
      var folded := Normalized(aliases[|aliases| - 1]);
      if folded != "" then before[folded := id] else before
  }

  function AddEntity(st: EntityState, d: EntityDraft, workspace: string, now: nat): EntityState {
    var key := DraftKey(d, workspace);
    var i := IndexOf(st.entities, key);
    var id := if i < |st.entities| then st.entities[i].id else st.nextId;
    EntityState(Upsert(st.entities, d, workspace, now, st.nextId), st.names[key.normalized := id],
                WithAliases(st.aliases, d.aliases, id), if i < |st.entities| then st.nextId else st.nextId + 1)
  }

  function AddEntities(start: EntityState, ds: seq<EntityDraft>, workspace: string, now: nat): EntityState {
    if ds == [] then start else AddEntity(AddEntities(start, ds[..|ds| - 1], workspace, now), ds[|ds| - 1], workspace, now)
  }

  predicate Nameless(d: EntityDraft) {
    Normalized(Clean(d.name, 500)) == ""
  }

  predicate AllNamed(ds: seq<EntityDraft>) {
    ds == [] || (AllNamed(ds[..|ds| - 1]) && !Nameless(ds[|ds| - 1]))
  }

  lemma {:induction false} NamelessSpoils(ds: seq<EntityDraft>, k: nat)
    requires k < |ds| && Nameless(ds[k])
    ensures !AllNamed(ds)
  {
    if k < |ds| - 1 {
      NamelessSpoils(ds[..|ds| - 1], k);
    }
  }

  /** Draft `k` in the loop over the drafts. */
  lemma {:induction false} NextEntity(start: EntityState, ds: seq<EntityDraft>, k: nat, workspace: string, now: nat)
    requires k < |ds|
    ensures Nameless(ds[k]) ==> !AllNamed(ds)
    ensures AllNamed(ds[..k + 1]) <==> AllNamed(ds[..k]) && !Nameless(ds[k])
    ensures AddEntities(start, ds[..k + 1], workspace, now)
            == AddEntity(AddEntities(start, ds[..k], workspace, now), ds[k], workspace, now)
  {
    if Nameless(ds[k]) {
      NamelessSpoils(ds, k);
    }
    assert ds[..k + 1] == ds[..k] + [ds[k]];
    LastNamed(ds[..k], ds[k]);
    LastEntity(start, ds[..k], ds[k], workspace, now);
  }

  lemma {:induction false} LastNamed(ds: seq<EntityDraft>, d: EntityDraft)
    ensures AllNamed(ds + [d]) <==> AllNamed(ds) && !Nameless(d)
  {
    assert (ds + [d])[..|ds|] == ds;
  }

  lemma {:induction false} LastEntity(start: EntityState, ds: seq<EntityDraft>, d: EntityDraft, workspace: string, now: nat)
    ensures AddEntities(start, ds + [d], workspace, now) == AddEntity(AddEntities(start, ds, workspace, now), d, workspace, now)
  {
    assert (ds + [d])[..|ds|] == ds;
  }

  // ---------------------------------------------------------------- relations

  function Resolve(name: string, names: map<string, nat>, aliases: map<string, nat>): Option<nat> {
    var n := Normalized(name);
    if n in names then Some(names[n]) else if n in aliases then Some(aliases[n]) else None
  }

  function ClaimAt(ids: seq<Option<nat>>, index: Option<int>): Option<nat> {
    if index.Some? && 0 <= index.value < |ids| then ids[index.value] else None
  }

  predicate SameRelation(a: Relation, b: Relation) {
    && a.extractionId == b.extractionId && a.source == b.source && a.predicate_ == b.predicate_
    && a.target == b.target && a.claimId == b.claimId
  }

  /** The names a relation draft may refer to. */
  datatype Names = Names(names: map<string, nat>, aliases: map<string, nat>, ids: seq<Option<nat>>)

  datatype RelationState = RelationState(relations: seq<Relation>, nextId: nat)

  function RelationOf(d: RelationDraft, n: Names, c: Context, id: nat): Option<Relation> {
    var source, target := Resolve(d.subject, n.names, n.aliases), Resolve(d.object_, n.names, n.aliases);
    var predicate_ := Clean(d.predicate_, 256);
    if source.None? || target.None? || predicate_ == "" then None
    else Some(Relation(id, c.extractionId, c.workspace, c.note, source.value, predicate_, target.value,
                       ClaimAt(n.ids, d.claimIndex), Bounded(d.confidence), c.now))
  }

  predicate HasRelation(relations: seq<Relation>, r: Relation) {
    exists i | 0 <= i < |relations| :: SameRelation(relations[i], r)
  }

  function AddRelation(st: RelationState, d: RelationDraft, n: Names, c: Context): RelationState {
    var r := RelationOf(d, n, c, st.nextId);
    if r.None? then st
    else RelationState(if HasRelation(st.relations, r.value) then st.relations else st.relations + [r.value], st.nextId + 1)
  }

  function AddRelations(start: RelationState, ds: seq<RelationDraft>, n: Names, c: Context): RelationState {
    if ds == [] then start else AddRelation(AddRelations(start, ds[..|ds| - 1], n, c), ds[|ds| - 1], n, c)
  }

  // ---------------------------------------------------------------- the two operations on the tables

  function ExtractionIndex(rows: seq<Extraction>, workspace: string, note: string): (i: nat)
    ensures i <= |rows|
    ensures i < |rows| ==> rows[i].workspace == workspace && rows[i].note == note
    ensures forall k | 0 <= k < i :: !(rows[k].workspace == workspace && rows[k].note == note)
  {
    if rows == [] then 0
    else if rows[0].workspace == workspace && rows[0].note == note then 0
    else 1 + ExtractionIndex(rows[1..], workspace, note)
  }

  function ClaimsWithout(rows: seq<Claim>, extractionId: nat): seq<Claim> {
    if rows == [] then []
    else (if rows[0].extractionId != extractionId then [rows[0]] else []) + ClaimsWithout(rows[1..], extractionId)
  }

  function RelationsWithout(rows: seq<Relation>, extractionId: nat): seq<Relation> {
    if rows == [] then []
    else (if rows[0].extractionId != extractionId then [rows[0]] else []) + RelationsWithout(rows[1..], extractionId)
  }

  /** The evidence of the claims that are left: what the cascade keeps. */
  function EvidenceOf(rows: seq<Evidence>, claims: seq<Claim>): seq<Evidence> {
    if rows == [] then []
    else (if HasClaimId(claims, rows[0].claimId) then [rows[0]] else []) + EvidenceOf(rows[1..], claims)
  }

  predicate HasClaimId(claims: seq<Claim>, id: nat) {
    exists i | 0 <= i < |claims| :: claims[i].id == id
  }

  /** `DELETE` of the claims and relations of an extraction, with the cascade to the evidence. */
  function WithoutRows(db: Db, extractionId: nat): Db {
    var claims := ClaimsWithout(db.claims, extractionId);
    db.(claims := claims, evidence := EvidenceOf(db.evidence, claims),
        relations := RelationsWithout(db.relations, extractionId))
  }

  predicate Accepts(workspace: string, note: string, d: Draft) {
    && Clean(workspace, 128) != "" && Clean(note, 128) != ""
    && |d.claims| <= 24 && |d.entities| <= 40 && |d.relations| <= 60
  }

  predicate Completes(workspace: string, note: string, d: Draft) {
    Accepts(workspace, note, d) && AllNamed(d.entities)
  }

  /** The extraction row is created or refreshed and the old rows of the note are deleted. */
  function Begin(db: Db, workspace: string, note: string, d: Draft, now: nat): (Db, nat) {
    var i := ExtractionIndex(db.extractions, workspace, note);
    var version, promptId := Clean(d.version, 128), Clean(d.promptId, 256);
    if i < |db.extractions| then
      var row := db.extractions[i];
      (WithoutRows(db, row.id).(extractions := db.extractions[i := row.(version := version, promptId := promptId,
                                                                        updatedAt := now)]), row.id)
    else
      (db.(extractions := db.extractions + [Extraction(db.nextId, workspace, note, version, promptId, now, now)],
           nextId := db.nextId + 1), db.nextId)
  }

  function Insert(db: Db, c: Context, d: Draft): Db {
    var claims := AddClaims(ClaimState(db.claims, db.evidence, [], db.nextId), d.claims, c);
    var entities := AddEntities(EntityState(db.entities, map[], map[], claims.nextId), d.entities, c.workspace, c.now);
    var names := Names(entities.names, entities.aliases, claims.ids);
    var relations := AddRelations(RelationState(db.relations, entities.nextId), d.relations, names, c);
    Db(db.extractions, claims.claims, claims.evidence, entities.entities, relations.relations, relations.nextId)
  }

  function Replace(db: Db, workspace: string, note: string, source: string, d: Draft, now: nat): Db {
    var w, n := Clean(workspace, 128), Clean(note, 128);
    var (db1, id) := Begin(db, w, n, d, now);
    Insert(db1, Context(id, w, n, source, now), d)
  }

  function Delete(db: Db, workspace: string, note: string): Db {
    var w, n := Clean(workspace, 128), Clean(note, 128);
    var i := ExtractionIndex(db.extractions, w, n);
    if w == "" || n == "" || i == |db.extractions| then db
    else WithoutRows(db, db.extractions[i].id).(extractions := db.extractions[..i] + db.extractions[i + 1..])
  }

  // ---------------------------------------------------------------- the statements of a transaction

  /** Connecting and the schema, looking for the extraction, and then one insertion, or two deletions and an update. */
  function OpeningStatements(db: Db, workspace: string, note: string): nat {
    2 + if ExtractionIndex(db.extractions, workspace, note) < |db.extractions| then 3 else 1
  }

  /** A draft with text is inserted and looked up, and its evidence inserted. */
  function ClaimStatements(d: ClaimDraft): nat {
    if Blank(d) then 0 else 2 + EvidenceRows(d)
  }

  function AllClaimStatements(ds: seq<ClaimDraft>): nat {
    if ds == [] then 0 else AllClaimStatements(ds[..|ds| - 1]) + ClaimStatements(ds[|ds| - 1])
  }

  /** The number of drafts before the first one without a name; each of them takes two statements. */
  function NamedPrefix(ds: seq<EntityDraft>): (n: nat)
    ensures n <= |ds|
  {
    if ds == [] || Nameless(ds[0]) then 0 else 1 + NamedPrefix(ds[1..])
  }

  /** A relation that resolves is inserted. */
  function RelationStatements(ds: seq<RelationDraft>, n: Names, c: Context): nat {
    if ds == [] then 0
    else RelationStatements(ds[..|ds| - 1], n, c) + if RelationOf(ds[|ds| - 1], n, c, 0).Some? then 1 else 0
  }

  /** The statements up to the first entity draft without a name. */
  function StatementsToNameless(db: Db, workspace: string, note: string, d: Draft): nat {
    OpeningStatements(db, workspace, note) + AllClaimStatements(d.claims) + 2 * NamedPrefix(d.entities)
  }

  /** All statements of the insertions: claims, entities, relations. */
  function InsertStatements(db: Db, c: Context, d: Draft): nat {
    AllClaimStatements(d.claims) + 2 * |d.entities| + RelationStatements(d.relations, NamesOf(db, c, d), c)
  }

  /** The names that the drafts record. */
  function NamesOf(db: Db, c: Context, d: Draft): Names {
    var claims := AddClaims(ClaimState(db.claims, db.evidence, [], db.nextId), d.claims, c);
    var entities := AddEntities(EntityState(db.entities, map[], map[], claims.nextId), d.entities, c.workspace, c.now);
    Names(entities.names, entities.aliases, claims.ids)
  }

  /** All statements of a replacement, with the final look-up and the commit. */
  function ReplaceStatements(db: Db, workspace: string, note: string, source: string, d: Draft, now: nat): nat {
    var w, n := Clean(workspace, 128), Clean(note, 128);
    var (db1, id) := Begin(db, w, n, d, now);
    OpeningStatements(db, w, n) + InsertStatements(db1, Context(id, w, n, source, now), d) + 2
  }

  /** Connecting and the schema, the deletion with its cascade, and the commit. */
  const DELETE_STATEMENTS := 3

  // ---------------------------------------------------------------- the store

  /** `replace_note_memory` returns the extraction id, or raises. */
  datatype ReplaceResult = Replaced(extractionId: nat) | InvalidInput | StorageError

  /** How the insertions end. */
  datatype Outcome = Done | NamelessDraft | StatementFailed

  class ResearchMemoryStore {
    var extractions: seq<Extraction>
    var claims: seq<Claim>
    var evidence: seq<Evidence>
    var entities: seq<Entity>
    var relations: seq<Relation>
    var nextId: nat
    /** How many statements the database still runs before one fails. */
    var statements: nat

    function Tables(): Db
      reads this
    {
      Db(extractions, claims, evidence, entities, relations, nextId)
    }

    constructor (statements: nat)
      ensures Tables() == Db([], [], [], [], [], 0) && this.statements == statements
    {
      extractions, claims, evidence, entities, relations, nextId := [], [], [], [], [], 0;
      this.statements := statements;
    }

    /** Some statements in a row; if one of them fails, none after it runs. */
    method Execute(count: nat) returns (ok: bool)
      modifies this`statements
      ensures ok <==> old(statements) >= count
      ensures statements == if ok then old(statements) - count else 0
    {
      ok := statements >= count;
      statements := if ok then statements - count else 0;
    }

    /** A transaction that fails leaves the tables of its start. */
    method Rollback(db: Db)
      modifies this
      ensures Tables() == db && statements == old(statements)
    {
      extractions, claims, evidence := db.extractions, db.claims, db.evidence;
      entities, relations, nextId := db.entities, db.relations, db.nextId;
    }

    /**
     * The replacement succeeds exactly if its input is valid and the database runs all its statements. A draft without a
     * name that is reached, or a statement that fails, in the middle of the insertions as well, leaves the old tables.
     */
    method ReplaceNoteMemory(workspace: string, note: string, source: string, d: Draft, now: nat) returns (r: ReplaceResult)
      modifies this
      ensures r.InvalidInput? <==>
                !Accepts(workspace, note, d)
                || (!Completes(workspace, note, d)
                    && old(statements) >= StatementsToNameless(old(Tables()), Clean(workspace, 128), Clean(note, 128), d))
      ensures r.Replaced? <==>
                Completes(workspace, note, d)
                && old(statements) >= ReplaceStatements(old(Tables()), workspace, note, source, d, now)
      ensures Tables() == if r.Replaced? then Replace(old(Tables()), workspace, note, source, d, now) else old(Tables())
    {
      var w, n := Clean(workspace, 128), Clean(note, 128);
      if w == "" || n == "" || |d.claims| > 24 || |d.entities| > 40 || |d.relations| > 60 {
        return InvalidInput;
      }
      var before := Tables();
      var ok, id := OpenExtraction(w, n, d, now);
      if !ok {
        Rollback(before);
        return StorageError;
      }
      var outcome := InsertRows(Context(id, w, n, source, now), d);
      if outcome == Done {
        ok := Execute(2);
        if ok {
          return Replaced(id);
        }
      }
      Rollback(before);
      r := if outcome == NamelessDraft then InvalidInput else StorageError;
    }

    method InsertRows(c: Context, d: Draft) returns (outcome: Outcome)
      modifies this
      ensures outcome == Done <==> AllNamed(d.entities) && old(statements) >= InsertStatements(old(Tables()), c, d)
      ensures outcome == NamelessDraft <==>
                !AllNamed(d.entities) && old(statements) >= AllClaimStatements(d.claims) + 2 * NamedPrefix(d.entities)
      ensures outcome == Done ==>
                Tables() == Insert(old(Tables()), c, d)
                && statements == old(statements) - InsertStatements(old(Tables()), c, d)
    {
      ghost var db := Tables();
      var ok, ids := InsertClaims(d.claims, c);
      if !ok {
        return StatementFailed;
      }
      ghost var written := ClaimState(claims, evidence, ids, nextId);
      outcome := InsertGraph(d.entities, d.relations, ids, c);
      InsertedNames(db, c, d, written);
      if outcome == Done {
        Inserted(db, c, d, written);
      }
    }

    /** Entities, and then the relations between the ones named. */
    method InsertGraph(es: seq<EntityDraft>, rs: seq<RelationDraft>, ids: seq<Option<nat>>, c: Context)
      returns (outcome: Outcome)
      modifies this`entities, this`relations, this`nextId, this`statements
      ensures outcome == NamelessDraft <==> !AllNamed(es) && old(statements) >= 2 * NamedPrefix(es)
      ensures var settled := AddEntities(EntityState(old(entities), map[], map[], old(nextId)), es, c.workspace, c.now);
              var n := Names(settled.names, settled.aliases, ids);
              var count := 2 * |es| + RelationStatements(rs, n, c);
              && (outcome == Done <==> AllNamed(es) && old(statements) >= count)
              && (outcome == Done ==>
                    statements == old(statements) - count && entities == settled.entities
                    && RelationState(relations, nextId)
                       == AddRelations(RelationState(old(relations), settled.nextId), rs, n, c))
    {
      var names, aliases;
      outcome, names, aliases := UpsertEntities(es, c.workspace, c.now);
      if outcome == Done {
        var ok := InsertRelations(rs, Names(names, aliases, ids), c);
        outcome := if ok then Done else StatementFailed;
      }
    }

    method OpenExtraction(workspace: string, note: string, d: Draft, now: nat) returns (ok: bool, id: nat)
      modifies this
      ensures ok <==> old(statements) >= OpeningStatements(old(Tables()), workspace, note)
      ensures ok ==> (Tables(), id) == Begin(old(Tables()), workspace, note, d, now)
                     && statements == old(statements) - OpeningStatements(old(Tables()), workspace, note)
    {
      id := 0;
      ok := Execute(2);
      if !ok {
        return;
      }
      var i := ExtractionIndex(extractions, workspace, note);
      var version, promptId := Clean(d.version, 128), Clean(d.promptId, 256);
      if i == |extractions| {
        id := nextId;
        nextId := nextId + 1;
        extractions := extractions + [Extraction(id, workspace, note, version, promptId, now, now)];
        ok := Execute(1);
      } else {
        id := extractions[i].id;
        relations := RelationsWithout(relations, id);
        claims := ClaimsWithout(claims, id);
        evidence := EvidenceOf(evidence, claims);
        extractions := extractions[i := extractions[i].(version := version, promptId := promptId, updatedAt := now)];
        ok := Execute(3);
      }
    }

    method InsertClaims(drafts: seq<ClaimDraft>, c: Context) returns (ok: bool, ids: seq<Option<nat>>)
      modifies this`claims, this`evidence, this`nextId, this`statements
      ensures ok <==> old(statements) >= AllClaimStatements(drafts)
      ensures ok ==> ClaimState(claims, evidence, ids, nextId)
                     == AddClaims(ClaimState(old(claims), old(evidence), [], old(nextId)), drafts, c)
                     && statements == old(statements) - AllClaimStatements(drafts)
    {
      ok, ids := true, [];
      ghost var start := ClaimState(claims, evidence, [], nextId);
      for k := 0 to |drafts|
        invariant ok && old(statements) >= AllClaimStatements(drafts[..k])
        invariant statements == old(statements) - AllClaimStatements(drafts[..k])
        invariant ClaimState(claims, evidence, ids, nextId) == AddClaims(start, drafts[..k], c)
      {
        assert drafts[..k + 1][..k] == drafts[..k];
        ok, ids := InsertClaim(drafts[k], c, ids);
        if !ok {
          MoreClaimStatements(drafts, k + 1);
          return;
        }
      }
      assert drafts[..|drafts|] == drafts;
    }

    method InsertClaim(d: ClaimDraft, c: Context, before: seq<Option<nat>>) returns (ok: bool, ids: seq<Option<nat>>)
      modifies this`claims, this`evidence, this`nextId, this`statements
      ensures ok <==> old(statements) >= ClaimStatements(d)
      ensures ok ==> statements == old(statements) - ClaimStatements(d)
                     && ClaimState(claims, evidence, ids, nextId)
                        == AddClaim(ClaimState(old(claims), old(evidence), before, old(nextId)), d, c)
    {
      if Blank(d) {
        ok, ids := true, before + [None];
      } else {
        ok, ids := InsertNonBlank(d, c, before);
      }
    }

    method InsertNonBlank(d: ClaimDraft, c: Context, before: seq<Option<nat>>) returns (ok: bool, ids: seq<Option<nat>>)
      modifies this`claims, this`evidence, this`nextId, this`statements
      ensures ok <==> old(statements) >= 2 + EvidenceRows(d)
      ensures ok ==> statements == old(statements) - 2 - EvidenceRows(d)
                     && ClaimState(claims, evidence, ids, nextId)
                        == AddNonBlank(ClaimState(old(claims), old(evidence), before, old(nextId)), d, c)
    {
      ids := before;
      var id;
      ok, id := InsertOrIgnoreClaim(d, c);
      if ok {
        ids := before + [Some(id)];
        ok := InsertEvidence(d, c, id);
      }
    }

    method InsertOrIgnoreClaim(d: ClaimDraft, c: Context) returns (ok: bool, id: nat)
      modifies this`claims, this`nextId, this`statements
      ensures ok <==> old(statements) >= 2
      ensures ok ==> statements == old(statements) - 2
                     && (claims, id) == StoreClaim(old(claims), d, c, old(nextId)) && nextId == old(nextId) + 1
    {
      var text := Clean(d.text, 5000);
      var kind := KindOf(d.kind, "other");
      var found := FindClaim(claims, c, kind, Normalized(text));
      id := nextId;
      nextId := nextId + 1;
      if found.None? {
        claims := claims + [Claim(id, c.extractionId, c.workspace, c.note, kind, text, Normalized(text),
                                  Bounded(d.confidence), c.now)];
      } else {
        id := found.value;
      }
      ok := Execute(2);
    }

    method InsertEvidence(d: ClaimDraft, c: Context, claimId: nat) returns (ok: bool)
      modifies this`evidence, this`nextId, this`statements
      ensures ok <==> old(statements) >= EvidenceRows(d)
      ensures ok ==> statements == old(statements) - EvidenceRows(d)
      ensures evidence == StoreEvidence(old(evidence), d, c, claimId, old(nextId))
      ensures nextId == old(nextId) + EvidenceRows(d)
    {
      ok := true;
      var excerpt := Clean(d.excerpt, 4000);
      if excerpt != "" {
        var span := FindExcerpt(c.source, excerpt);
        evidence := evidence + [Evidence(nextId, claimId, c.workspace, c.note, excerpt, span.0, span.1, c.now)];
        nextId := nextId + 1;
        ok := Execute(1);
      }
    }

    method UpsertEntities(drafts: seq<EntityDraft>, workspace: string, now: nat)
      returns (outcome: Outcome, names: map<string, nat>, aliases: map<string, nat>)
      modifies this`entities, this`nextId, this`statements
      ensures outcome == Done <==> AllNamed(drafts) && old(statements) >= 2 * |drafts|
      ensures outcome == NamelessDraft <==> !AllNamed(drafts) && old(statements) >= 2 * NamedPrefix(drafts)
      ensures outcome == Done ==>
                statements == old(statements) - 2 * |drafts|
                && EntityState(entities, names, aliases, nextId)
                   == AddEntities(EntityState(old(entities), map[], map[], old(nextId)), drafts, workspace, now)
    {
      names, aliases := map[], map[];
      ghost var start := EntityState(entities, map[], map[], nextId);
      for k := 0 to |drafts|
        invariant AllNamed(drafts[..k]) && NamedPrefix(drafts) == k + NamedPrefix(drafts[k..])
        invariant old(statements) >= 2 * k && statements == old(statements) - 2 * k
        invariant EntityState(entities, names, aliases, nextId) == AddEntities(start, drafts[..k], workspace, now)
      {
        assert drafts[k..][1..] == drafts[k + 1..];
        NextEntity(start, drafts, k, workspace, now);
        if Nameless(drafts[k]) {
          return NamelessDraft, names, aliases;
        }
        var ok;
        ok, names, aliases := UpsertEntity(drafts[k], workspace, now, names, aliases);
        if !ok {
          return StatementFailed, names, aliases;
        }
      }
      assert drafts[..|drafts|] == drafts;
      outcome := Done;
    }

    method UpsertEntity(d: EntityDraft, workspace: string, now: nat, names: map<string, nat>, aliases: map<string, nat>)
      returns (ok: bool, names': map<string, nat>, aliases': map<string, nat>)
      modifies this`entities, this`nextId, this`statements
      ensures ok <==> old(statements) >= 2
      ensures ok ==> statements == old(statements) - 2
                     && EntityState(entities, names', aliases', nextId)
                        == AddEntity(EntityState(old(entities), names, aliases, old(nextId)), d, workspace, now)
    {
      var id := StoreEntity(d, workspace, now);
      names' := names[DraftKey(d, workspace).normalized := id];
      aliases' := RecordAliases(aliases, d.aliases, id);
      ok := Execute(2);
    }

    method StoreEntity(d: EntityDraft, workspace: string, now: nat) returns (id: nat)
      modifies this`entities, this`nextId
      ensures entities == Upsert(old(entities), d, workspace, now, old(nextId))
      ensures var i := IndexOf(old(entities), DraftKey(d, workspace));
              if i < |old(entities)| then id == old(entities)[i].id && nextId == old(nextId)
              else id == old(nextId) && nextId == old(nextId) + 1
    {
      var key := DraftKey(d, workspace);
      var drafted := MergeAliases([], CleanAliases(d.aliases), key.normalized);
      var i := IndexOf(entities, key);
      if i == |entities| {
        id := nextId;
        nextId := nextId + 1;
        entities := entities + [Entity(id, workspace, Clean(d.name, 500), key.normalized, key.kind, drafted,
                                       Clean(d.description, 2000), now, now)];
        return;
      }
      id := entities[i].id;
      var merged := MergeAliases([], entities[i].aliases + drafted, key.normalized);
      var description := Clean(d.description, 2000);
      if description == "" {
        description := entities[i].description;
      }
      entities := entities[i := entities[i].(name := Clean(d.name, 500), aliases := merged, description := description,
                                             updatedAt := now)];
    }

    method InsertRelations(drafts: seq<RelationDraft>, n: Names, c: Context) returns (ok: bool)
      modifies this`relations, this`nextId, this`statements
      ensures ok <==> old(statements) >= RelationStatements(drafts, n, c)
      ensures ok ==> statements == old(statements) - RelationStatements(drafts, n, c)
                     && RelationState(relations, nextId)
                        == AddRelations(RelationState(old(relations), old(nextId)), drafts, n, c)
    {
      ok := true;
      ghost var start := RelationState(relations, nextId);
      for k := 0 to |drafts|
        invariant ok && old(statements) >= RelationStatements(drafts[..k], n, c)
        invariant statements == old(statements) - RelationStatements(drafts[..k], n, c)
        invariant RelationState(relations, nextId) == AddRelations(start, drafts[..k], n, c)
      {
        assert drafts[..k + 1][..k] == drafts[..k];
        ok := InsertRelation(drafts[k], n, c);
        if !ok {
          MoreRelationStatements(drafts, k + 1, n, c);
          return;
        }
      }
      assert drafts[..|drafts|] == drafts;
    }

    method InsertRelation(d: RelationDraft, n: Names, c: Context) returns (ok: bool)
      modifies this`relations, this`nextId, this`statements
      ensures ok <==> old(statements) >= if RelationOf(d, n, c, 0).Some? then 1 else 0
      ensures ok ==> statements == old(statements) - (if RelationOf(d, n, c, 0).Some? then 1 else 0)
      ensures RelationState(relations, nextId) == AddRelation(RelationState(old(relations), old(nextId)), d, n, c)
    {
      ok := true;
      var r := RelationOf(d, n, c, nextId);
      if r.Some? {
        if !HasRelation(relations, r.value) {
          relations := relations + [r.value];
        }
        nextId := nextId + 1;
        ok := Execute(1);
      }
    }

    /** A deletion whose statement or commit fails leaves the old tables. */
    method DeleteNoteMemory(workspace: string, note: string) returns (deleted: bool)
      modifies this
      ensures deleted <==> old(statements) >= DELETE_STATEMENTS && Delete(old(Tables()), workspace, note) != old(Tables())
      ensures Tables() == if deleted then Delete(old(Tables()), workspace, note) else old(Tables())
    {
      var w, n := Clean(workspace, 128), Clean(note, 128);
      if w == "" || n == "" {
        return false;
      }
      var before := Tables();
      var i := ExtractionIndex(extractions, w, n);
      if i < |extractions| {
        var id := extractions[i].id;
        claims := ClaimsWithout(claims, id);
        evidence := EvidenceOf(evidence, claims);
        relations := RelationsWithout(relations, id);
        extractions := extractions[..i] + extractions[i + 1..];
      }
      var ok := Execute(DELETE_STATEMENTS);
      if !ok {
        Rollback(before);
        return false;
      }
      deleted := i < |before.extractions|;
    }
  }

  lemma {:induction false} InsertedNames(db: Db, c: Context, d: Draft, claims: ClaimState)
    requires claims == AddClaims(ClaimState(db.claims, db.evidence, [], db.nextId), d.claims, c)
    ensures var es := AddEntities(EntityState(db.entities, map[], map[], claims.nextId), d.entities, c.workspace, c.now);
            NamesOf(db, c, d) == Names(es.names, es.aliases, claims.ids)
  {
  }

  lemma {:induction false} Inserted(db: Db, c: Context, d: Draft, claims: ClaimState)
    requires claims == AddClaims(ClaimState(db.claims, db.evidence, [], db.nextId), d.claims, c)
    ensures var es := AddEntities(EntityState(db.entities, map[], map[], claims.nextId), d.entities, c.workspace, c.now);
            var rs := AddRelations(RelationState(db.relations, es.nextId), d.relations,
                                   Names(es.names, es.aliases, claims.ids), c);
            Insert(db, c, d)
            == Db(db.extractions, claims.claims, claims.evidence, es.entities, rs.relations, rs.nextId)
  {
  }

  lemma {:induction false} MoreClaimStatements(ds: seq<ClaimDraft>, k: nat)
    requires k <= |ds|
    ensures AllClaimStatements(ds[..k]) <= AllClaimStatements(ds)
    decreases |ds| - k
  {
    if k < |ds| {
      assert ds[..k + 1][..k] == ds[..k];
      MoreClaimStatements(ds, k + 1);
    } else {
      assert ds[..k] == ds;
    }
  }

  lemma {:induction false} MoreRelationStatements(ds: seq<RelationDraft>, k: nat, n: Names, c: Context)
    requires k <= |ds|
    ensures RelationStatements(ds[..k], n, c) <= RelationStatements(ds, n, c)
    decreases |ds| - k
  {
    if k < |ds| {
      assert ds[..k + 1][..k] == ds[..k];
      MoreRelationStatements(ds, k + 1, n, c);
    } else {
      assert ds[..k] == ds;
    }
  }

  method MergeAliases(merged: seq<string>, rest: seq<string>, name: string) returns (r: seq<string>)
    ensures r == Merge(merged, rest, name)
  {
    r := merged;
    for k := 0 to |rest|
      invariant Merge(merged, rest, name) == Merge(r, rest[k..], name)
    {
      assert rest[k..][1..] == rest[k + 1..];
      if Skips(rest[k], r, name) {
        continue;
      }
      r := r + [rest[k]];
      if |r| >= MAX_ALIASES {
        return;
      }
    }
  }

  method RecordAliases(m: map<string, nat>, aliases: seq<string>, id: nat) returns (r: map<string, nat>)
    ensures r == WithAliases(m, aliases, id)
  {
    r := m;
    for k := 0 to |aliases|
      invariant r == WithAliases(m, aliases[..k], id)
    {
      assert aliases[..k + 1][..k] == aliases[..k];
      var folded := Normalized(aliases[k]);
      if folded != "" {
        r := r[folded := id];
      }
    }
    assert aliases[..|aliases|] == aliases;
  }
}
