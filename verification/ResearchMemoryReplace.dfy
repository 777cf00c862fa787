/** What one replacement leaves in the tables: the rows of other notes as they were, and the rows of its own drafts. */
module ResearchMemoryReplace {
  import opened Wrappers
  import opened Text
  import opened ResearchMemory
  import opened ResearchMemoryInvariant

  // ---------------------------------------------------------------- the rows of the other notes

  function Keep<T>(rows: seq<T>, p: T -> bool): seq<T> {
    if rows == [] then [] else (if p(rows[0]) then [rows[0]] else []) + Keep(rows[1..], p)
  }

  function OtherClaim(w: string, n: string): Claim -> bool {
    (c: Claim) => !(c.workspace == w && c.note == n)
  }

  function OtherEvidence(w: string, n: string): Evidence -> bool {
    (e: Evidence) => !(e.workspace == w && e.note == n)
  }

  function OtherRelation(w: string, n: string): Relation -> bool {
    (r: Relation) => !(r.workspace == w && r.note == n)
  }

  function OtherExtraction(w: string, n: string): Extraction -> bool {
    (x: Extraction) => !(x.workspace == w && x.note == n)
  }

  function ThisClaim(w: string, n: string): Claim -> bool {
    (c: Claim) => c.workspace == w && c.note == n
  }

  function ThisEvidence(w: string, n: string): Evidence -> bool {
    (e: Evidence) => e.workspace == w && e.note == n
  }

  function ThisRelation(w: string, n: string): Relation -> bool {
    (r: Relation) => r.workspace == w && r.note == n
  }

  lemma {:induction false} KeepAll<T>(rows: seq<T>, p: T -> bool)
    requires forall r | r in rows :: p(r)
    ensures Keep(rows, p) == rows
  {
    if rows != [] {
      assert rows == [rows[0]] + rows[1..];
      KeepAll(rows[1..], p);
    }
  }

  lemma {:induction false} KeepMembers<T>(rows: seq<T>, p: T -> bool)
    ensures forall r | r in Keep(rows, p) :: r in rows && p(r)
    ensures forall r | r in rows && p(r) :: r in Keep(rows, p)
  {
    if rows != [] {
      assert rows == [rows[0]] + rows[1..];
      KeepMembers(rows[1..], p);
    }
  }

  lemma {:induction false} KeepNone<T>(rows: seq<T>, p: T -> bool)
    requires forall r | r in rows :: !p(r)
    ensures Keep(rows, p) == []
  {
    if rows != [] {
      assert rows[0] in rows;
      KeepNone(rows[1..], p);
    }
  }

  lemma {:induction false} KeepAppend<T>(a: seq<T>, b: seq<T>, p: T -> bool)
    ensures Keep(a + b, p) == Keep(a, p) + Keep(b, p)
  {
    if a == [] {
      assert a + b == b;
    } else {
      var first := if p(a[0]) then [a[0]] else [];
      assert (a + b)[0] == a[0] && (a + b)[1..] == a[1..] + b;
      KeepAppend(a[1..], b, p);
      assert first + (Keep(a[1..], p) + Keep(b, p)) == first + Keep(a[1..], p) + Keep(b, p);
    }
  }

  /** Rows of the kept kind before rows of the other kind: filtering gives the first part. */
  lemma {:induction false} KeepFirstPart<T>(a: seq<T>, b: seq<T>, p: T -> bool)
    requires forall r | r in b :: !p(r)
    ensures Keep(Keep(a, p) + b, p) == Keep(a, p)
  {
    KeepAppend(Keep(a, p), b, p);
    KeepMembers(a, p);
    forall r | r in Keep(a, p)
      ensures p(r)
    {
      assert r in a;
    }
    KeepAll(Keep(a, p), p);
    KeepNone(b, p);
  }

  /** Rows of the kept kind before rows of the other kind: filtering for the other kind gives the second part. */
  lemma {:induction false} KeepSecondPart<T>(a: seq<T>, b: seq<T>, p: T -> bool, q: T -> bool)
    requires forall r | r in b :: q(r)
    requires forall r :: q(r) ==> !p(r)
    ensures Keep(Keep(a, p) + b, q) == b
  {
    KeepAppend(Keep(a, p), b, q);
    KeepMembers(a, p);
    forall r | r in Keep(a, p)
      ensures !q(r)
    {
      assert p(r);
    }
    KeepNone(Keep(a, p), q);
    KeepAll(b, q);
    assert [] + b == b;
  }

  lemma {:induction false} KeptClaims(rows: seq<Claim>, id: nat, p: Claim -> bool)
    requires forall c | c in rows :: p(c) <==> c.extractionId != id
    ensures ClaimsWithout(rows, id) == Keep(rows, p)
  {
    if rows != [] {
      assert rows[0] in rows;
      KeptClaims(rows[1..], id, p);
    }
  }

  lemma {:induction false} KeptEvidence(rows: seq<Evidence>, claims: seq<Claim>, p: Evidence -> bool)
    requires forall e | e in rows :: p(e) <==> HasClaimId(claims, e.claimId)
    ensures EvidenceOf(rows, claims) == Keep(rows, p)
  {
    if rows != [] {
      assert rows[0] in rows;
      KeptEvidence(rows[1..], claims, p);
    }
  }

  lemma {:induction false} KeptRelations(rows: seq<Relation>, id: nat, p: Relation -> bool)
    requires forall r | r in rows :: p(r) <==> r.extractionId != id
    ensures RelationsWithout(rows, id) == Keep(rows, p)
  {
    if rows != [] {
      assert rows[0] in rows;
      KeptRelations(rows[1..], id, p);
    }
  }

  lemma {:induction false} SameExtraction(xs: seq<Extraction>, nextId: nat, i: nat, id: nat, w: string, n: string)
    requires ExtractionsWF(xs, nextId) && i < |xs| && HasExtraction(xs, id, w, n)
    ensures id == xs[i].id <==> (w == xs[i].workspace && n == xs[i].note)
  {
    var x :| x in xs && x.id == id && x.workspace == w && x.note == n;
    var k :| 0 <= k < |xs| && xs[k] == x;
  }

  /** Deleting the rows of an extraction deletes exactly the rows of its note. */
  lemma {:induction false} WithoutRowsKeepsOthers(db: Db, i: nat)
    requires WellFormed(db) && i < |db.extractions|
    ensures var x := db.extractions[i];
            var db' := WithoutRows(db, x.id);
            && db'.claims == Keep(db.claims, OtherClaim(x.workspace, x.note))
            && db'.relations == Keep(db.relations, OtherRelation(x.workspace, x.note))
            && db'.evidence == Keep(db.evidence, OtherEvidence(x.workspace, x.note))
  {
    var x := db.extractions[i];
    forall c | c in db.claims
      ensures OtherClaim(x.workspace, x.note)(c) <==> c.extractionId != x.id
    {
      SameExtraction(db.extractions, db.nextId, i, c.extractionId, c.workspace, c.note);
    }
    KeptClaims(db.claims, x.id, OtherClaim(x.workspace, x.note));
    forall r | r in db.relations
      ensures OtherRelation(x.workspace, x.note)(r) <==> r.extractionId != x.id
    {
      assert RelationWF(r, db.extractions, db.claims, db.entities, db.nextId);
      SameExtraction(db.extractions, db.nextId, i, r.extractionId, r.workspace, r.note);
    }
    KeptRelations(db.relations, x.id, OtherRelation(x.workspace, x.note));
    CascadeKeepsOthers(db, i);
  }

  lemma {:induction false} CascadeKeepsOthers(db: Db, i: nat)
    requires WellFormed(db) && i < |db.extractions|
    ensures var x := db.extractions[i];
            EvidenceOf(db.evidence, ClaimsWithout(db.claims, x.id)) == Keep(db.evidence, OtherEvidence(x.workspace, x.note))
  {
    var x := db.extractions[i];
    var claims := ClaimsWithout(db.claims, x.id);
    ClaimsWithoutMembers(db.claims, x.id);
    forall e | e in db.evidence
      ensures OtherEvidence(x.workspace, x.note)(e) <==> HasClaimId(claims, e.claimId)
    {
      assert HasClaim(db.claims, e.claimId, e.workspace, e.note);
      var c :| c in db.claims && c.id == e.claimId && c.workspace == e.workspace && c.note == e.note;
      SameExtraction(db.extractions, db.nextId, i, c.extractionId, c.workspace, c.note);
      ClaimWithId(db.claims, claims, c);
    }
    KeptEvidence(db.evidence, claims, OtherEvidence(x.workspace, x.note));
  }

  lemma {:induction false} ClaimWithId(all: seq<Claim>, some: seq<Claim>, c: Claim)
    requires DistinctClaims(all) && c in all && forall x | x in some :: x in all
    ensures HasClaimId(some, c.id) <==> c in some
  {
    if HasClaimId(some, c.id) {
      var i :| 0 <= i < |some| && some[i].id == c.id;
      assert some[i] in some;
    }
  }

  /** What the store holds of other notes when a replacement starts to insert. */
  ghost predicate HoldsOthers(db: Db, db': Db, w: string, n: string) {
    && db'.claims == Keep(db.claims, OtherClaim(w, n))
    && db'.relations == Keep(db.relations, OtherRelation(w, n))
    && db'.evidence == Keep(db.evidence, OtherEvidence(w, n))
    && db'.entities == db.entities
  }

  lemma {:induction false} BeginHoldsOthers(db: Db, w: string, n: string, d: Draft, now: nat)
    requires WellFormed(db)
    ensures HoldsOthers(db, Begin(db, w, n, d, now).0, w, n)
  {
    var i := ExtractionIndex(db.extractions, w, n);
    if i < |db.extractions| {
      WithoutRowsKeepsOthers(db, i);
    } else {
      NoRowsOfNote(db, w, n);
      KeepAll(db.claims, OtherClaim(w, n));
      KeepAll(db.relations, OtherRelation(w, n));
      KeepAll(db.evidence, OtherEvidence(w, n));
    }
  }

  lemma {:induction false} NoRowsOfNote(db: Db, w: string, n: string)
    requires WellFormed(db) && ExtractionIndex(db.extractions, w, n) == |db.extractions|
    ensures forall c | c in db.claims :: OtherClaim(w, n)(c)
    ensures forall r | r in db.relations :: OtherRelation(w, n)(r)
    ensures forall e | e in db.evidence :: OtherEvidence(w, n)(e)
  {
    forall c | c in db.claims
      ensures OtherClaim(w, n)(c)
    {
      var x :| x in db.extractions && x.id == c.extractionId && x.workspace == c.workspace && x.note == c.note;
    }
    forall r | r in db.relations
      ensures OtherRelation(w, n)(r)
    {
      assert RelationWF(r, db.extractions, db.claims, db.entities, db.nextId);
      var x :| x in db.extractions && x.id == r.extractionId && x.workspace == r.workspace && x.note == r.note;
    }
    forall e | e in db.evidence
      ensures OtherEvidence(w, n)(e)
    {
      assert HasClaim(db.claims, e.claimId, e.workspace, e.note);
      var c :| c in db.claims && c.id == e.claimId && c.workspace == e.workspace && c.note == e.note;
    }
  }

  // ---------------------------------------------------------------- the rows of the note itself

  /** The claim rows of the drafts alone, as inserted into empty tables. */
  function NoteClaims(ds: seq<ClaimDraft>, c: Context, id: nat): ClaimState {
    AddClaims(ClaimState([], [], [], id), ds, c)
  }

  function NoteRelations(ds: seq<RelationDraft>, n: Names, c: Context, id: nat): RelationState {
    AddRelations(RelationState([], id), ds, n, c)
  }

  function Behind(claims: seq<Claim>, evidence: seq<Evidence>, st: ClaimState): ClaimState {
    st.(claims := claims + st.claims, evidence := evidence + st.evidence)
  }

  lemma {:induction false} FindClaimBehind(kept: seq<Claim>, rows: seq<Claim>, c: Context, kind: string, normalized: string)
    requires forall x | x in kept :: !(x.workspace == c.workspace && x.note == c.note)
    ensures FindClaim(kept + rows, c, kind, normalized) == FindClaim(rows, c, kind, normalized)
  {
    if kept == [] {
      assert kept + rows == rows;
    } else {
      assert kept[0] in kept && (kept + rows)[1..] == kept[1..] + rows;
      FindClaimBehind(kept[1..], rows, c, kind, normalized);
    }
  }

  lemma {:induction false} StoreClaimBehind(kept: seq<Claim>, rows: seq<Claim>, d: ClaimDraft, c: Context, id: nat)
    requires forall x | x in kept :: !(x.workspace == c.workspace && x.note == c.note)
    ensures StoreClaim(kept + rows, d, c, id) == (var stored := StoreClaim(rows, d, c, id); (kept + stored.0, stored.1))
  {
    var key := DraftClaimKey(d);
    FindClaimBehind(kept, rows, c, key.kind, key.normalized);
    if FindClaim(rows, c, key.kind, key.normalized).None? {
      var row := StoreClaim(rows, d, c, id).0[|rows|];
      assert kept + (rows + [row]) == (kept + rows) + [row];
    }
  }

  lemma {:induction false} StoreEvidenceBehind(kept: seq<Evidence>, rows: seq<Evidence>, d: ClaimDraft, c: Context,
                                               claimId: nat, id: nat)
    ensures StoreEvidence(kept + rows, d, c, claimId, id) == kept + StoreEvidence(rows, d, c, claimId, id)
  {
  }

  lemma {:induction false} AddNonBlankBehind(kept: seq<Claim>, evidence: seq<Evidence>, st: ClaimState, d: ClaimDraft,
                                             c: Context)
    requires forall x | x in kept :: !(x.workspace == c.workspace && x.note == c.note)
    ensures AddNonBlank(Behind(kept, evidence, st), d, c) == Behind(kept, evidence, AddNonBlank(st, d, c))
  {
    StoreClaimBehind(kept, st.claims, d, c, st.nextId);
    AddStoredBehind(kept, evidence, st, d, c, StoreClaim(st.claims, d, c, st.nextId));
  }

  lemma {:induction false} AddStoredBehind(kept: seq<Claim>, evidence: seq<Evidence>, st: ClaimState, d: ClaimDraft, c: Context,
                                           stored: (seq<Claim>, nat))
    ensures AddStored(Behind(kept, evidence, st), d, c, (kept + stored.0, stored.1))
            == Behind(kept, evidence, AddStored(st, d, c, stored))
  {
    StoreEvidenceBehind(evidence, st.evidence, d, c, stored.1, st.nextId + 1);
  }

  lemma {:induction false} AddClaimBehind(kept: seq<Claim>, evidence: seq<Evidence>, st: ClaimState, d: ClaimDraft, c: Context)
    requires forall x | x in kept :: !(x.workspace == c.workspace && x.note == c.note)
    ensures AddClaim(Behind(kept, evidence, st), d, c) == Behind(kept, evidence, AddClaim(st, d, c))
  {
    if !Blank(d) {
      AddNonBlankBehind(kept, evidence, st, d, c);
    }
  }

  lemma {:induction false} AddClaimsBehind(kept: seq<Claim>, evidence: seq<Evidence>, ds: seq<ClaimDraft>, c: Context, id: nat)
    requires forall x | x in kept :: !(x.workspace == c.workspace && x.note == c.note)
    ensures AddClaims(ClaimState(kept, evidence, [], id), ds, c) == Behind(kept, evidence, NoteClaims(ds, c, id))
  {
    if ds == [] {
      assert kept + [] == kept && evidence + [] == evidence;
    } else {
      AddClaimsBehind(kept, evidence, ds[..|ds| - 1], c, id);
      AddClaimBehind(kept, evidence, NoteClaims(ds[..|ds| - 1], c, id), ds[|ds| - 1], c);
    }
  }

  lemma {:induction false} AddRelationBehind(kept: seq<Relation>, st: RelationState, d: RelationDraft, n: Names, c: Context)
    requires forall x | x in kept :: x.extractionId != c.extractionId
    ensures AddRelation(RelationState(kept + st.relations, st.nextId), d, n, c)
            == (var st' := AddRelation(st, d, n, c); RelationState(kept + st'.relations, st'.nextId))
  {
    var r := RelationOf(d, n, c, st.nextId);
    if r.Some? {
      HasRelationBehind(kept, st.relations, r.value);
      assert kept + (st.relations + [r.value]) == (kept + st.relations) + [r.value];
    }
  }

  lemma {:induction false} HasRelationBehind(kept: seq<Relation>, rows: seq<Relation>, r: Relation)
    requires forall x | x in kept :: x.extractionId != r.extractionId
    ensures HasRelation(kept + rows, r) <==> HasRelation(rows, r)
  {
    if HasRelation(kept + rows, r) {
      var i :| 0 <= i < |kept + rows| && SameRelation((kept + rows)[i], r);
      if i >= |kept| {
        assert SameRelation(rows[i - |kept|], r);
      }
    }
    if HasRelation(rows, r) {
      var i :| 0 <= i < |rows| && SameRelation(rows[i], r);
      assert (kept + rows)[|kept| + i] == rows[i];
    }
  }

  lemma {:induction false} AddRelationsBehind(kept: seq<Relation>, ds: seq<RelationDraft>, n: Names, c: Context, id: nat)
    requires forall x | x in kept :: x.extractionId != c.extractionId
    ensures AddRelations(RelationState(kept, id), ds, n, c)
            == (var st := NoteRelations(ds, n, c, id); RelationState(kept + st.relations, st.nextId))
  {
    if ds == [] {
      assert kept + [] == kept;
    } else {
      AddRelationsBehind(kept, ds[..|ds| - 1], n, c, id);
      AddRelationBehind(kept, NoteRelations(ds[..|ds| - 1], n, c, id), ds[|ds| - 1], n, c);
    }
  }

  /** The rows that a replacement adds, and the entity table it leaves. */
  datatype NoteRows = NoteRows(claims: ClaimState, entities: EntityState, relations: RelationState)

  function RowsFor(entities: seq<Entity>, d: Draft, c: Context, id: nat): NoteRows {
    var claims := NoteClaims(d.claims, c, id);
    var es := AddEntities(EntityState(entities, map[], map[], claims.nextId), d.entities, c.workspace, c.now);
    NoteRows(claims, es, NoteRelations(d.relations, Names(es.names, es.aliases, claims.ids), c, es.nextId))
  }

  lemma {:induction false} InsertedRows(db: Db, c: Context, d: Draft)
    requires forall x | x in db.claims :: !(x.workspace == c.workspace && x.note == c.note)
    requires forall x | x in db.relations :: x.extractionId != c.extractionId
    ensures var rows := RowsFor(db.entities, d, c, db.nextId);
            Insert(db, c, d) == Db(db.extractions, db.claims + rows.claims.claims, db.evidence + rows.claims.evidence,
                                   rows.entities.entities, db.relations + rows.relations.relations, rows.relations.nextId)
  {
    var rows := RowsFor(db.entities, d, c, db.nextId);
    AddClaimsBehind(db.claims, db.evidence, d.claims, c, db.nextId);
    AddRelationsBehind(db.relations, d.relations, Names(rows.entities.names, rows.entities.aliases, rows.claims.ids), c,
                       rows.entities.nextId);
  }

  /** A replacement leaves the rows of the other notes as they were, followed by the rows of its own drafts. */
  lemma {:induction false} ReplacedTables(db: Db, workspace: string, note: string, source: string, d: Draft, now: nat)
    requires WellFormed(db)
    ensures var w, n := Clean(workspace, 128), Clean(note, 128);
            var (db1, id) := Begin(db, w, n, d, now);
            var rows := RowsFor(db.entities, d, Context(id, w, n, source, now), db1.nextId);
            Replace(db, workspace, note, source, d, now)
            == Db(db1.extractions, Keep(db.claims, OtherClaim(w, n)) + rows.claims.claims,
                  Keep(db.evidence, OtherEvidence(w, n)) + rows.claims.evidence, rows.entities.entities,
                  Keep(db.relations, OtherRelation(w, n)) + rows.relations.relations, rows.relations.nextId)
  {
    var w, n := Clean(workspace, 128), Clean(note, 128);
    var (db1, id) := Begin(db, w, n, d, now);
    BeginHoldsOthers(db, w, n, d, now);
    BeginWF(db, w, n, d, now);
    KeepMembers(db.claims, OtherClaim(w, n));
    InsertedRows(db1, Context(id, w, n, source, now), d);
  }

  // ---------------------------------------------------------------- the claims are the first occurrences

  datatype ClaimKey = ClaimKey(kind: string, normalized: string)

  function DraftClaimKey(d: ClaimDraft): ClaimKey {
    ClaimKey(KindOf(d.kind, "other"), Normalized(Clean(d.text, 5000)))
  }

  /** Draft `k` has text, and no earlier draft with text has its type and normalized text. */
  predicate IsFirst(ds: seq<ClaimDraft>, k: nat)
    requires k < |ds|
  {
    !Blank(ds[k]) && forall j | 0 <= j < k :: Blank(ds[j]) || DraftClaimKey(ds[j]) != DraftClaimKey(ds[k])
  }

  /** The drafts that are first occurrences, in order. */
  function Firsts(ds: seq<ClaimDraft>): seq<ClaimDraft> {
    if ds == [] then []
    else Firsts(ds[..|ds| - 1]) + if IsFirst(ds, |ds| - 1) then [ds[|ds| - 1]] else []
  }

  predicate RowOfDraft(row: Claim, d: ClaimDraft, c: Context) {
    && row.extractionId == c.extractionId && row.workspace == c.workspace && row.note == c.note
    && row.kind == KindOf(d.kind, "other") && row.text == Clean(d.text, 5000) && row.normalized == Normalized(row.text)
    && row.confidence == Bounded(d.confidence) && row.createdAt == c.now
  }

  predicate RowsOfDrafts(rows: seq<Claim>, ds: seq<ClaimDraft>, c: Context) {
    |rows| == |ds| && forall i | 0 <= i < |ds| :: RowOfDraft(rows[i], ds[i], c)
  }

  predicate HasKey(ds: seq<ClaimDraft>, key: ClaimKey) {
    exists d | d in ds :: !Blank(d) && DraftClaimKey(d) == key
  }

  lemma {:induction false} LastIsFirst(ds: seq<ClaimDraft>)
    requires ds != []
    ensures IsFirst(ds, |ds| - 1)
            <==> !Blank(ds[|ds| - 1]) && !HasKey(ds[..|ds| - 1], DraftClaimKey(ds[|ds| - 1]))
  {
    var n := |ds| - 1;
    assert forall j | 0 <= j < n :: ds[..n][j] == ds[j];
    if d :| d in ds[..n] && !Blank(d) && DraftClaimKey(d) == DraftClaimKey(ds[n]) {
      var j :| 0 <= j < n && ds[..n][j] == d;
      assert !Blank(ds[j]);
    }
    if j :| 0 <= j < n && !Blank(ds[j]) && DraftClaimKey(ds[j]) == DraftClaimKey(ds[n]) {
      assert ds[j] in ds[..n];
    }
  }

  lemma {:induction false} HasKeySplit(ds: seq<ClaimDraft>, last: ClaimDraft, key: ClaimKey)
    ensures HasKey(ds + [last], key) <==> HasKey(ds, key) || (!Blank(last) && DraftClaimKey(last) == key)
  {
    if HasKey(ds, key) {
      var d :| d in ds && !Blank(d) && DraftClaimKey(d) == key;
      assert d in ds + [last];
    }
    assert last in ds + [last];
  }

  lemma {:induction false} FirstsCoverKeys(ds: seq<ClaimDraft>, key: ClaimKey)
    ensures HasKey(Firsts(ds), key) <==> HasKey(ds, key)
  {
    if ds != [] {
      var last, before := ds[|ds| - 1], ds[..|ds| - 1];
      assert ds == before + [last];
      FirstsCoverKeys(before, key);
      HasKeySplit(before, last, key);
      HasKeySplit(Firsts(before), last, key);
      LastIsFirst(ds);
      assert Firsts(before) + [] == Firsts(before);
    }
  }

  lemma {:induction false} FirstsAreNotBlank(ds: seq<ClaimDraft>)
    ensures forall d | d in Firsts(ds) :: !Blank(d)
  {
    if ds != [] {
      FirstsAreNotBlank(ds[..|ds| - 1]);
    }
  }

  /** The stored row of a draft is found by its key. */
  lemma {:induction false} FoundAmongRows(rows: seq<Claim>, firsts: seq<ClaimDraft>, c: Context, key: ClaimKey)
    requires RowsOfDrafts(rows, firsts, c) && forall d | d in firsts :: !Blank(d)
    ensures FindClaim(rows, c, key.kind, key.normalized).Some? <==> HasKey(firsts, key)
  {
    FoundClaim(rows, c, key.kind, key.normalized);
    if FindClaim(rows, c, key.kind, key.normalized).Some? {
      var x :| x in rows && x.kind == key.kind && x.normalized == key.normalized;
      var i :| 0 <= i < |rows| && rows[i] == x;
      assert RowOfDraft(rows[i], firsts[i], c) && firsts[i] in firsts;
    }
    if f :| f in firsts && DraftClaimKey(f) == key {
      var i :| 0 <= i < |firsts| && firsts[i] == f;
      assert RowOfDraft(rows[i], f, c) && rows[i] in rows;
    }
  }

  lemma {:induction false} StoredRow(rows: seq<Claim>, firsts: seq<ClaimDraft>, d: ClaimDraft, c: Context, id: nat)
    requires RowsOfDrafts(rows, firsts, c)
    ensures var key := DraftClaimKey(d);
            RowsOfDrafts(StoreClaim(rows, d, c, id).0,
                         firsts + if FindClaim(rows, c, key.kind, key.normalized).Some? then [] else [d], c)
  {
  }

  lemma {:induction false} StoredOnlyIfFirst(rows: seq<Claim>, ds: seq<ClaimDraft>, c: Context, id: nat)
    requires ds != [] && RowsOfDrafts(rows, Firsts(ds[..|ds| - 1]), c) && !Blank(ds[|ds| - 1])
    ensures RowsOfDrafts(StoreClaim(rows, ds[|ds| - 1], c, id).0, Firsts(ds), c)
  {
    var before, last := ds[..|ds| - 1], ds[|ds| - 1];
    FirstsCoverKeys(before, DraftClaimKey(last));
    FirstsAreNotBlank(before);
    FoundAmongRows(rows, Firsts(before), c, DraftClaimKey(last));
    LastIsFirst(ds);
    StoredRow(rows, Firsts(before), last, c, id);
  }

  lemma {:induction false} NoteClaimsAreFirsts(ds: seq<ClaimDraft>, c: Context, id: nat)
    ensures RowsOfDrafts(NoteClaims(ds, c, id).claims, Firsts(ds), c)
  {
    if ds != [] {
      var st := NoteClaims(ds[..|ds| - 1], c, id);
      NoteClaimsAreFirsts(ds[..|ds| - 1], c, id);
      if !Blank(ds[|ds| - 1]) {
        StoredOnlyIfFirst(st.claims, ds, c, st.nextId);
      }
    }
  }

  // ---------------------------------------------------------------- recorded ids, evidence and relations

  predicate NamesKey(rows: seq<Claim>, id: nat, key: ClaimKey) {
    exists x | x in rows :: x.id == id && x.kind == key.kind && x.normalized == key.normalized
  }

  /** A draft with text is recorded under the id of the claim that holds its key, a blank one under none. */
  predicate IdOfDraft(id: Option<nat>, d: ClaimDraft, rows: seq<Claim>) {
    if Blank(d) then id.None? else id.Some? && NamesKey(rows, id.value, DraftClaimKey(d))
  }

  predicate IdsOfDrafts(ids: seq<Option<nat>>, ds: seq<ClaimDraft>, rows: seq<Claim>) {
    |ids| == |ds| && forall i | 0 <= i < |ds| :: IdOfDraft(ids[i], ds[i], rows)
  }

  lemma {:induction false} StoredUnderKey(rows: seq<Claim>, d: ClaimDraft, c: Context, id: nat)
    ensures rows <= StoreClaim(rows, d, c, id).0
    ensures NamesKey(StoreClaim(rows, d, c, id).0, StoreClaim(rows, d, c, id).1, DraftClaimKey(d))
  {
    var key := DraftClaimKey(d);
    FoundClaim(rows, c, key.kind, key.normalized);
    var stored := StoreClaim(rows, d, c, id).0;
    if FindClaim(rows, c, key.kind, key.normalized).None? {
      assert stored[|rows|] in stored;
    }
  }

  lemma {:induction false} IdsSurvive(ids: seq<Option<nat>>, ds: seq<ClaimDraft>, rows: seq<Claim>, more: seq<Claim>)
    requires IdsOfDrafts(ids, ds, rows) && rows <= more
    ensures IdsOfDrafts(ids, ds, more)
  {
    forall i | 0 <= i < |ds|
      ensures IdOfDraft(ids[i], ds[i], more)
    {
      assert IdOfDraft(ids[i], ds[i], rows);
      assert forall x | x in rows :: x in more;
    }
  }

  lemma {:induction false} NextId(ids: seq<Option<nat>>, ds: seq<ClaimDraft>, id: Option<nat>, d: ClaimDraft, rows: seq<Claim>)
    requires IdsOfDrafts(ids, ds, rows) && IdOfDraft(id, d, rows)
    ensures IdsOfDrafts(ids + [id], ds + [d], rows)
  {
  }

  lemma {:induction false} NoteClaimIds(ds: seq<ClaimDraft>, c: Context, id: nat)
    ensures IdsOfDrafts(NoteClaims(ds, c, id).ids, ds, NoteClaims(ds, c, id).claims)
  {
    if ds != [] {
      var st, d := NoteClaims(ds[..|ds| - 1], c, id), ds[|ds| - 1];
      NoteClaimIds(ds[..|ds| - 1], c, id);
      assert ds == ds[..|ds| - 1] + [d];
      if Blank(d) {
        NextId(st.ids, ds[..|ds| - 1], None, d, st.claims);
      } else {
        var stored := StoreClaim(st.claims, d, c, st.nextId);
        StoredUnderKey(st.claims, d, c, st.nextId);
        IdsSurvive(st.ids, ds[..|ds| - 1], st.claims, stored.0);
        NextId(st.ids, ds[..|ds| - 1], Some(stored.1), d, stored.0);
      }
    }
  }

  predicate Cites(d: ClaimDraft) {
    !Blank(d) && Clean(d.excerpt, 4000) != ""
  }

  /** The drafts that have text and an excerpt, in order. */
  function Citing(ds: seq<ClaimDraft>): seq<ClaimDraft> {
    if ds == [] then [] else Citing(ds[..|ds| - 1]) + if Cites(ds[|ds| - 1]) then [ds[|ds| - 1]] else []
  }

  /** The evidence row of a draft names the claim that holds the draft's key and where the source has the excerpt. */
  predicate EvidenceOfDraft(e: Evidence, d: ClaimDraft, rows: seq<Claim>, c: Context) {
    && e.workspace == c.workspace && e.note == c.note && e.createdAt == c.now
    && e.excerpt == Clean(d.excerpt, 4000) && (e.start, e.end) == FindExcerpt(c.source, e.excerpt)
    && NamesKey(rows, e.claimId, DraftClaimKey(d))
  }

  predicate EvidenceOfDrafts(es: seq<Evidence>, ds: seq<ClaimDraft>, rows: seq<Claim>, c: Context) {
    |es| == |ds| && forall i | 0 <= i < |ds| :: EvidenceOfDraft(es[i], ds[i], rows, c)
  }

  lemma {:induction false} EvidenceSurvives(es: seq<Evidence>, ds: seq<ClaimDraft>, rows: seq<Claim>, more: seq<Claim>,
                                            c: Context)
    requires EvidenceOfDrafts(es, ds, rows, c) && rows <= more
    ensures EvidenceOfDrafts(es, ds, more, c)
  {
    forall i | 0 <= i < |ds|
      ensures EvidenceOfDraft(es[i], ds[i], more, c)
    {
      assert EvidenceOfDraft(es[i], ds[i], rows, c);
      assert forall x | x in rows :: x in more;
    }
  }

  lemma {:induction false} StoredEvidence(es: seq<Evidence>, ds: seq<ClaimDraft>, d: ClaimDraft, rows: seq<Claim>, c: Context,
                                          claimId: nat, id: nat)
    requires EvidenceOfDrafts(es, ds, rows, c) && NamesKey(rows, claimId, DraftClaimKey(d))
    ensures EvidenceOfDrafts(StoreEvidence(es, d, c, claimId, id), ds + if Clean(d.excerpt, 4000) != "" then [d] else [],
                             rows, c)
  {
  }

  lemma {:induction false} NoteEvidence(ds: seq<ClaimDraft>, c: Context, id: nat)
    ensures EvidenceOfDrafts(NoteClaims(ds, c, id).evidence, Citing(ds), NoteClaims(ds, c, id).claims, c)
  {
    if ds != [] {
      var st, d := NoteClaims(ds[..|ds| - 1], c, id), ds[|ds| - 1];
      NoteEvidence(ds[..|ds| - 1], c, id);
      if !Blank(d) {
        var stored := StoreClaim(st.claims, d, c, st.nextId);
        StoredUnderKey(st.claims, d, c, st.nextId);
        EvidenceSurvives(st.evidence, Citing(ds[..|ds| - 1]), st.claims, stored.0, c);
        StoredEvidence(st.evidence, Citing(ds[..|ds| - 1]), d, stored.0, c, stored.1, st.nextId + 1);
      }
    }
  }

  predicate RelationOfNote(r: Relation, c: Context) {
    r.extractionId == c.extractionId && r.workspace == c.workspace && r.note == c.note && r.createdAt == c.now
  }

  lemma {:induction false} NoteRelationRows(ds: seq<RelationDraft>, n: Names, c: Context, id: nat)
    ensures forall r | r in NoteRelations(ds, n, c, id).relations :: RelationOfNote(r, c)
  {
    if ds != [] {
      NoteRelationRows(ds[..|ds| - 1], n, c, id);
    }
  }

  lemma {:induction false} WithoutNulHasNone(s: string)
    ensures forall ch | ch in WithoutNul(s) :: ch != '\0'
  {
    if s != "" {
      WithoutNulHasNone(s[1..]);
    }
  }

  lemma {:induction false} WithoutNulKeeps(s: string)
    requires forall ch | ch in s :: ch != '\0'
    ensures WithoutNul(s) == s
  {
    if s != "" {
      assert s[0] in s && s == [s[0]] + s[1..];
      assert forall ch | ch in s[1..] :: ch in s;
      WithoutNulKeeps(s[1..]);
    }
  }

  /** Cleaning a stored excerpt again only removes white space that the length limit left at its end. */
  lemma {:induction false} CleanStoredExcerpt(draft: string, excerpt: string)
    requires excerpt == Clean(draft, 4000) && excerpt != ""
    ensures !IsSpace(excerpt[0]) && Clean(excerpt, 4000) == RStrip(excerpt) != ""
  {
    var text := Strip(WithoutNul(draft));
    WithoutNulHasNone(draft);
    assert forall ch | ch in text :: ch in WithoutNul(draft);
    assert text != "" && excerpt[0] == text[0];
    assert forall ch | ch in excerpt :: ch in text;
    WithoutNulKeeps(excerpt);
    assert LStrip(excerpt) == excerpt;
  }

  predicate Occurs(source: string, needle: string) {
    exists k | 0 <= k <= |source| :: OccursAt(source, needle, k)
  }

  /**
   * The recorded span of a stored excerpt is the first place in the source where the excerpt, without white space that
   * the length limit left at its end, occurs. The span's text is the excerpt itself exactly when there is no such space.
   */
  lemma {:induction false} SpanIsFirstOccurrence(source: string, draft: string, excerpt: string)
    requires excerpt == Clean(draft, 4000) && excerpt != ""
    ensures var (start, end) := FindExcerpt(source, excerpt);
            if Occurs(source, RStrip(excerpt)) then
              && 0 <= start < end <= |source| && source[start..end] == RStrip(excerpt)
              && (forall k | 0 <= k < start :: !OccursAt(source, RStrip(excerpt), k))
              && (source[start..end] == excerpt <==> !IsSpace(excerpt[|excerpt| - 1]))
            else (start, end) == (-1, -1)
  {
    CleanStoredExcerpt(draft, excerpt);
    var needle := RStrip(excerpt);
    if source != "" {
      var r := Find(source, needle, 0);
      if Occurs(source, needle) {
        var k :| 0 <= k <= |source| && OccursAt(source, needle, k);
        assert r != -1;
      }
    }
  }

  /** Letters, a blank and a letter: the length limit cuts the last one off when the letters are 3999. */
  function CutExcerpt(letters: nat): string {
    seq(letters, i => 'a') + [' ', 'a']
  }

  lemma {:induction false} CutExcerptIsClean(letters: nat)
    requires letters == 3999
    ensures var excerpt := Clean(CutExcerpt(letters), 4000);
            excerpt == CutExcerpt(letters)[..4000] && RStrip(excerpt) == CutExcerpt(letters)[..letters]
  {
    var text := CutExcerpt(letters);
    WithoutNulKeeps(text);
    assert text[0] == 'a' && text[4000] == 'a' && text[3999] == ' ' && text[3998] == 'a';
    StripOfStripped(text);
    var excerpt := text[..4000];
    assert excerpt[3999] == ' ' && excerpt[..3999][3998] == 'a';
    assert Trimmed(excerpt) == 3999;
  }

  /** The exception is real: an excerpt of 4000 characters is stored with a span of 3999. */
  lemma {:induction false} SpanCanBeShorter(letters: nat)
    requires letters == 3999
    ensures var excerpt := Clean(CutExcerpt(letters), 4000);
            |excerpt| == 4000 && FindExcerpt(CutExcerpt(letters), excerpt) == (0, 3999)
  {
    var text := CutExcerpt(letters);
    CutExcerptIsClean(letters);
    SpanIsFirstOccurrence(text, text, Clean(text, 4000));
    assert OccursAt(text, text[..letters], 0);
  }

  // ---------------------------------------------------------------- the whole replacement

  /** What the tables hold of one note when its drafts are `ds`. */
  predicate HoldsDrafts(db: Db, ds: seq<ClaimDraft>, c: Context) {
    var claims := Keep(db.claims, ThisClaim(c.workspace, c.note));
    && RowsOfDrafts(claims, Firsts(ds), c)
    && EvidenceOfDrafts(Keep(db.evidence, ThisEvidence(c.workspace, c.note)), Citing(ds), claims, c)
    && forall r | r in Keep(db.relations, ThisRelation(c.workspace, c.note)) :: RelationOfNote(r, c)
  }

  predicate SameElsewhere(db: Db, db': Db, w: string, n: string) {
    && Keep(db'.claims, OtherClaim(w, n)) == Keep(db.claims, OtherClaim(w, n))
    && Keep(db'.evidence, OtherEvidence(w, n)) == Keep(db.evidence, OtherEvidence(w, n))
    && Keep(db'.relations, OtherRelation(w, n)) == Keep(db.relations, OtherRelation(w, n))
    && Keep(db'.extractions, OtherExtraction(w, n)) == Keep(db.extractions, OtherExtraction(w, n))
  }

  lemma {:induction false} OtherExtractions(db: Db, w: string, n: string, d: Draft, now: nat)
    requires WellFormed(db)
    ensures Keep(Begin(db, w, n, d, now).0.extractions, OtherExtraction(w, n)) == Keep(db.extractions, OtherExtraction(w, n))
  {
    var i, xs := ExtractionIndex(db.extractions, w, n), db.extractions;
    var ys := Begin(db, w, n, d, now).0.extractions;
    if i < |xs| {
      assert xs == xs[..i] + [xs[i]] + xs[i + 1..] && ys == xs[..i] + [ys[i]] + xs[i + 1..];
      KeepAppend(xs[..i] + [xs[i]], xs[i + 1..], OtherExtraction(w, n));
      KeepAppend(xs[..i] + [ys[i]], xs[i + 1..], OtherExtraction(w, n));
      KeepAppend(xs[..i], [xs[i]], OtherExtraction(w, n));
      KeepAppend(xs[..i], [ys[i]], OtherExtraction(w, n));
    } else {
      KeepAppend(xs, [ys[|xs|]], OtherExtraction(w, n));
    }
  }

  lemma {:induction false} RowsOfTheNote(rows: NoteRows, entities: seq<Entity>, d: Draft, c: Context, id: nat)
    requires rows == RowsFor(entities, d, c, id)
    ensures RowsOfDrafts(rows.claims.claims, Firsts(d.claims), c)
    ensures EvidenceOfDrafts(rows.claims.evidence, Citing(d.claims), rows.claims.claims, c)
    ensures forall r | r in rows.relations.relations :: RelationOfNote(r, c)
  {
    NoteClaimsAreFirsts(d.claims, c, id);
    NoteEvidence(d.claims, c, id);
    NoteRelationRows(d.relations, Names(rows.entities.names, rows.entities.aliases, rows.claims.ids), c, rows.entities.nextId);
  }

  lemma {:induction false} RowsAreOfTheNote(rows: NoteRows, d: Draft, c: Context)
    requires RowsOfDrafts(rows.claims.claims, Firsts(d.claims), c)
    requires EvidenceOfDrafts(rows.claims.evidence, Citing(d.claims), rows.claims.claims, c)
    ensures forall x | x in rows.claims.claims :: ThisClaim(c.workspace, c.note)(x)
    ensures forall e | e in rows.claims.evidence :: ThisEvidence(c.workspace, c.note)(e)
  {
    var claims, evidence := rows.claims.claims, rows.claims.evidence;
    forall x | x in claims
      ensures ThisClaim(c.workspace, c.note)(x)
    {
      var i :| 0 <= i < |claims| && claims[i] == x;
      assert RowOfDraft(x, Firsts(d.claims)[i], c);
    }
    forall e | e in evidence
      ensures ThisEvidence(c.workspace, c.note)(e)
    {
      var i :| 0 <= i < |evidence| && evidence[i] == e;
      assert EvidenceOfDraft(e, Citing(d.claims)[i], claims, c);
    }
  }

  /** `db` with its tables of the note replaced by `rows`: filtering separates the two again. */
  lemma {:induction false} TablesSeparate(db: Db, db': Db, rows: NoteRows, d: Draft, c: Context)
    requires RowsOfDrafts(rows.claims.claims, Firsts(d.claims), c)
    requires EvidenceOfDrafts(rows.claims.evidence, Citing(d.claims), rows.claims.claims, c)
    requires forall r | r in rows.relations.relations :: RelationOfNote(r, c)
    requires db'.claims == Keep(db.claims, OtherClaim(c.workspace, c.note)) + rows.claims.claims
    requires db'.evidence == Keep(db.evidence, OtherEvidence(c.workspace, c.note)) + rows.claims.evidence
    requires db'.relations == Keep(db.relations, OtherRelation(c.workspace, c.note)) + rows.relations.relations
    requires Keep(db'.extractions, OtherExtraction(c.workspace, c.note))
             == Keep(db.extractions, OtherExtraction(c.workspace, c.note))
    ensures SameElsewhere(db, db', c.workspace, c.note) && HoldsDrafts(db', d.claims, c)
  {
    var w, n := c.workspace, c.note;
    RowsAreOfTheNote(rows, d, c);
    KeepFirstPart(db.claims, rows.claims.claims, OtherClaim(w, n));
    KeepSecondPart(db.claims, rows.claims.claims, OtherClaim(w, n), ThisClaim(w, n));
    KeepFirstPart(db.evidence, rows.claims.evidence, OtherEvidence(w, n));
    KeepSecondPart(db.evidence, rows.claims.evidence, OtherEvidence(w, n), ThisEvidence(w, n));
    KeepFirstPart(db.relations, rows.relations.relations, OtherRelation(w, n));
    KeepSecondPart(db.relations, rows.relations.relations, OtherRelation(w, n), ThisRelation(w, n));
  }

  /**
   * After a replacement the note's claims are the first occurrences of its drafts with text, its evidence is that of the
   * drafts with an excerpt, in order, its relations are new, and every row of another note is as it was.
   */
  lemma {:induction false} ReplaceIsExact(db: Db, workspace: string, note: string, source: string, d: Draft, now: nat)
    requires WellFormed(db)
    ensures var w, n := Clean(workspace, 128), Clean(note, 128);
            var db' := Replace(db, workspace, note, source, d, now);
            var c := Context(Begin(db, w, n, d, now).1, w, n, source, now);
            SameElsewhere(db, db', w, n) && HoldsDrafts(db', d.claims, c)
            && HasExtraction(db'.extractions, c.extractionId, w, n)
  {
    var w, n := Clean(workspace, 128), Clean(note, 128);
    var (db1, id) := Begin(db, w, n, d, now);
    var c := Context(id, w, n, source, now);
    var rows := RowsFor(db.entities, d, c, db1.nextId);
    ReplacedTables(db, workspace, note, source, d, now);
    OtherExtractions(db, w, n, d, now);
    BeginWF(db, w, n, d, now);
    RowsOfTheNote(rows, db.entities, d, c, db1.nextId);
    TablesSeparate(db, Replace(db, workspace, note, source, d, now), rows, d, c);
  }
}
