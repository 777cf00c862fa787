/** Every sequence of replacements and deletions keeps the research memory well formed. */
module ResearchMemoryInvariant {
  import opened Wrappers
  import opened Text
  import opened ResearchMemory

  // ---------------------------------------------------------------- the invariant

  predicate HasExtraction(xs: seq<Extraction>, id: nat, workspace: string, note: string) {
    exists x | x in xs :: x.id == id && x.workspace == workspace && x.note == note
  }

  predicate HasClaim(cs: seq<Claim>, id: nat, workspace: string, note: string) {
    exists c | c in cs :: c.id == id && c.workspace == workspace && c.note == note
  }

  predicate HasClaimIn(cs: seq<Claim>, id: nat, extractionId: nat) {
    exists c | c in cs :: c.id == id && c.extractionId == extractionId
  }

  predicate HasEntity(es: seq<Entity>, id: nat, workspace: string) {
    exists e | e in es :: e.id == id && e.workspace == workspace
  }

  /** One extraction for each (workspace, note), under one id. */
  predicate ExtractionsWF(xs: seq<Extraction>, nextId: nat) {
    && (forall x | x in xs :: x.id < nextId)
    && (forall i, j | 0 <= i < j < |xs| ::
          xs[i].id != xs[j].id && !(xs[i].workspace == xs[j].workspace && xs[i].note == xs[j].note))
  }

  predicate SameKey(a: Claim, b: Claim) {
    a.workspace == b.workspace && a.note == b.note && a.kind == b.kind && a.normalized == b.normalized
  }

  /** Claims have distinct ids and keys and belong to a live extraction of their workspace and note. */
  predicate ClaimsWF(cs: seq<Claim>, xs: seq<Extraction>, nextId: nat) {
    && (forall c | c in cs :: c.id < nextId && HasExtraction(xs, c.extractionId, c.workspace, c.note))
    && DistinctClaims(cs)
  }

  predicate DistinctClaims(cs: seq<Claim>) {
    forall i, j | 0 <= i < j < |cs| :: cs[i].id != cs[j].id && !SameKey(cs[i], cs[j])
  }

  /** Evidence belongs to a live claim of its workspace and note. */
  predicate EvidenceWF(es: seq<Evidence>, cs: seq<Claim>, nextId: nat) {
    && (forall e | e in es :: e.id < nextId && HasClaim(cs, e.claimId, e.workspace, e.note))
    && DistinctEvidence(es)
  }

  predicate DistinctEvidence(es: seq<Evidence>) {
    forall i, j | 0 <= i < j < |es| :: es[i].id != es[j].id
  }

  predicate EntitiesWF(es: seq<Entity>, nextId: nat) {
    && (forall e | e in es :: e.id < nextId)
    && (forall i, j | 0 <= i < j < |es| :: es[i].id != es[j].id && KeyOf(es[i]) != KeyOf(es[j]))
  }

  /** One relation row: live extraction of its note, live end points of its workspace, no claim or one of its extraction. */
  predicate RelationWF(r: Relation, xs: seq<Extraction>, cs: seq<Claim>, es: seq<Entity>, nextId: nat) {
    && r.id < nextId && HasExtraction(xs, r.extractionId, r.workspace, r.note)
    && HasEntity(es, r.source, r.workspace) && HasEntity(es, r.target, r.workspace)
    && (r.claimId.Some? ==> HasClaimIn(cs, r.claimId.value, r.extractionId))
  }

  predicate DistinctRelations(rs: seq<Relation>) {
    forall i, j | 0 <= i < j < |rs| :: rs[i].id != rs[j].id && !SameRelation(rs[i], rs[j])
  }

  predicate RelationsWF(rs: seq<Relation>, xs: seq<Extraction>, cs: seq<Claim>, es: seq<Entity>, nextId: nat) {
    (forall r | r in rs :: RelationWF(r, xs, cs, es, nextId)) && DistinctRelations(rs)
  }

  predicate WellFormed(db: Db) {
    && ExtractionsWF(db.extractions, db.nextId)
    && ClaimsWF(db.claims, db.extractions, db.nextId)
    && EvidenceWF(db.evidence, db.claims, db.nextId)
    && EntitiesWF(db.entities, db.nextId)
    && RelationsWF(db.relations, db.extractions, db.claims, db.entities, db.nextId)
  }

  // ---------------------------------------------------------------- deleting rows

  lemma {:induction false} ClaimsWithoutMembers(rows: seq<Claim>, id: nat)
    ensures forall c :: c in ClaimsWithout(rows, id) <==> c in rows && c.extractionId != id
  {
    if rows != [] {
      ClaimsWithoutMembers(rows[1..], id);
      assert rows == [rows[0]] + rows[1..];
    }
  }

  lemma {:induction false} ClaimsWithoutDistinct(rows: seq<Claim>, id: nat)
    requires DistinctClaims(rows)
    ensures DistinctClaims(ClaimsWithout(rows, id))
  {
    if rows != [] {
      ClaimsWithoutDistinct(rows[1..], id);
      ClaimsWithoutMembers(rows[1..], id);
      var rest := ClaimsWithout(rows[1..], id);
      forall j | 0 <= j < |rest|
        ensures rows[0].id != rest[j].id && !SameKey(rows[0], rest[j])
      {
        assert rest[j] in rows[1..];
      }
    }
  }

  lemma {:induction false} EvidenceOfMembers(rows: seq<Evidence>, claims: seq<Claim>)
    ensures forall e :: e in EvidenceOf(rows, claims) <==> e in rows && HasClaimId(claims, e.claimId)
  {
    if rows != [] {
      EvidenceOfMembers(rows[1..], claims);
      assert rows == [rows[0]] + rows[1..];
    }
  }

  lemma {:induction false} EvidenceOfDistinct(rows: seq<Evidence>, claims: seq<Claim>)
    requires DistinctEvidence(rows)
    ensures DistinctEvidence(EvidenceOf(rows, claims))
  {
    if rows != [] {
      EvidenceOfDistinct(rows[1..], claims);
      EvidenceOfMembers(rows[1..], claims);
      var rest := EvidenceOf(rows[1..], claims);
      forall j | 0 <= j < |rest|
        ensures rows[0].id != rest[j].id
      {
        assert rest[j] in rows[1..];
      }
    }
  }

  lemma {:induction false} RelationsWithoutMembers(rows: seq<Relation>, id: nat)
    ensures forall r :: r in RelationsWithout(rows, id) <==> r in rows && r.extractionId != id
  {
    if rows != [] {
      RelationsWithoutMembers(rows[1..], id);
      assert rows == [rows[0]] + rows[1..];
    }
  }

  lemma {:induction false} RelationsWithoutDistinct(rows: seq<Relation>, id: nat)
    requires DistinctRelations(rows)
    ensures DistinctRelations(RelationsWithout(rows, id))
  {
    if rows != [] {
      RelationsWithoutDistinct(rows[1..], id);
      RelationsWithoutMembers(rows[1..], id);
      var rest := RelationsWithout(rows[1..], id);
      forall j | 0 <= j < |rest|
        ensures rows[0].id != rest[j].id && !SameRelation(rows[0], rest[j])
      {
        assert rest[j] in rows[1..];
      }
    }
  }

  /** No row belongs to the extraction. */
  predicate NoRows(db: Db, id: nat) {
    (forall c | c in db.claims :: c.extractionId != id) && (forall r | r in db.relations :: r.extractionId != id)
  }

  lemma {:induction false} WithoutRowsWF(db: Db, id: nat)
    requires WellFormed(db)
    ensures WellFormed(WithoutRows(db, id)) && NoRows(WithoutRows(db, id), id)
  {
    var claims := ClaimsWithout(db.claims, id);
    ClaimsWithoutMembers(db.claims, id);
    ClaimsWithoutDistinct(db.claims, id);
    EvidenceOfMembers(db.evidence, claims);
    EvidenceOfDistinct(db.evidence, claims);
    RelationsWithoutMembers(db.relations, id);
    RelationsWithoutDistinct(db.relations, id);
    forall e | e in EvidenceOf(db.evidence, claims)
      ensures HasClaim(claims, e.claimId, e.workspace, e.note)
    {
      KeptEvidenceHasClaim(db, claims, e);
    }
    forall r | r in RelationsWithout(db.relations, id)
      ensures RelationWF(r, db.extractions, claims, db.entities, db.nextId)
    {
      assert RelationWF(r, db.extractions, db.claims, db.entities, db.nextId);
    }
  }

  lemma {:induction false} KeptEvidenceHasClaim(db: Db, claims: seq<Claim>, e: Evidence)
    requires WellFormed(db) && e in db.evidence && HasClaimId(claims, e.claimId)
    requires forall c | c in claims :: c in db.claims
    ensures HasClaim(claims, e.claimId, e.workspace, e.note)
  {
    var i :| 0 <= i < |claims| && claims[i].id == e.claimId;
    assert claims[i] in claims && HasClaim(db.claims, e.claimId, e.workspace, e.note);
    var c :| c in db.claims && c.id == e.claimId && c.workspace == e.workspace && c.note == e.note;
    assert c == claims[i];
  }

  // ---------------------------------------------------------------- opening an extraction

  /** The row of `xs` that is replaced keeps id, workspace and note. */
  lemma {:induction false} RefreshedExtraction(xs: seq<Extraction>, i: nat, row: Extraction, nextId: nat)
    requires i < |xs| && ExtractionsWF(xs, nextId)
    requires row.id == xs[i].id && row.workspace == xs[i].workspace && row.note == xs[i].note
    ensures ExtractionsWF(xs[i := row], nextId)
    ensures forall id, w, n :: HasExtraction(xs, id, w, n) ==> HasExtraction(xs[i := row], id, w, n)
  {
    var ys := xs[i := row];
    forall id, w, n | HasExtraction(xs, id, w, n)
      ensures HasExtraction(ys, id, w, n)
    {
      var x :| x in xs && x.id == id && x.workspace == w && x.note == n;
      var k :| 0 <= k < |xs| && xs[k] == x;
      assert ys[k] in ys && ys[k].id == id;
    }
    forall y | y in ys
      ensures y.id < nextId
    {
      var k :| 0 <= k < |ys| && ys[k] == y;
      assert xs[k] in xs && xs[k].id == y.id;
    }
  }

  lemma {:induction false} WFWithMoreExtractions(db: Db, xs: seq<Extraction>, nextId: nat)
    requires WellFormed(db) && ExtractionsWF(xs, nextId) && db.nextId <= nextId
    requires forall id, w, n :: HasExtraction(db.extractions, id, w, n) ==> HasExtraction(xs, id, w, n)
    ensures WellFormed(db.(extractions := xs, nextId := nextId))
  {
    forall r | r in db.relations
      ensures RelationWF(r, xs, db.claims, db.entities, nextId)
    {
      assert RelationWF(r, db.extractions, db.claims, db.entities, db.nextId);
    }
  }

  lemma {:induction false} BeginWF(db: Db, workspace: string, note: string, d: Draft, now: nat)
    requires WellFormed(db)
    ensures var (db', id) := Begin(db, workspace, note, d, now);
            WellFormed(db') && NoRows(db', id) && HasExtraction(db'.extractions, id, workspace, note)
            && db.nextId <= db'.nextId
  {
    var i := ExtractionIndex(db.extractions, workspace, note);
    var (db', id) := Begin(db, workspace, note, d, now);
    if i < |db.extractions| {
      WithoutRowsWF(db, id);
      RefreshedExtraction(db.extractions, i, db'.extractions[i], db.nextId);
      WFWithMoreExtractions(WithoutRows(db, id), db'.extractions, db.nextId);
      assert db'.extractions[i] in db'.extractions;
    } else {
      NewExtraction(db, workspace, note, d, now);
    }
  }

  lemma {:induction false} NewExtraction(db: Db, workspace: string, note: string, d: Draft, now: nat)
    requires WellFormed(db) && ExtractionIndex(db.extractions, workspace, note) == |db.extractions|
    ensures var (db', id) := Begin(db, workspace, note, d, now);
            WellFormed(db') && NoRows(db', id) && HasExtraction(db'.extractions, id, workspace, note)
  {
    var (db', id) := Begin(db, workspace, note, d, now);
    var row := db'.extractions[|db.extractions|];
    assert row in db'.extractions;
    forall k | 0 <= k < |db.extractions|
      ensures db.extractions[k].id < db.nextId
    {
      assert db.extractions[k] in db.extractions;
    }
    WFWithMoreExtractions(db, db'.extractions, db'.nextId);
    forall c | c in db.claims
      ensures c.extractionId != id
    {
      var x :| x in db.extractions && x.id == c.extractionId;
    }
    forall r | r in db.relations
      ensures r.extractionId != id
    {
      assert RelationWF(r, db.extractions, db.claims, db.entities, db.nextId);
      var x :| x in db.extractions && x.id == r.extractionId;
    }
  }

  // ---------------------------------------------------------------- inserting claims

  lemma {:induction false} OneExtraction(xs: seq<Extraction>, nextId: nat, a: nat, b: nat, w: string, n: string)
    requires ExtractionsWF(xs, nextId) && HasExtraction(xs, a, w, n) && HasExtraction(xs, b, w, n)
    ensures a == b
  {
  }

  lemma {:induction false} FoundClaim(cs: seq<Claim>, c: Context, kind: string, normalized: string)
    ensures var r := FindClaim(cs, c, kind, normalized);
            && (r.Some? ==> exists x | x in cs ::
                  x.id == r.value && x.workspace == c.workspace && x.note == c.note && x.kind == kind
                  && x.normalized == normalized)
            && (r.None? ==> forall x | x in cs ::
                  !(x.workspace == c.workspace && x.note == c.note && x.kind == kind && x.normalized == normalized))
  {
    if cs != [] {
      FoundClaim(cs[1..], c, kind, normalized);
      assert cs == [cs[0]] + cs[1..];
    }
  }

  /** The claim and evidence tables, with every recorded id naming a claim of the extraction. */
  predicate ClaimStateWF(st: ClaimState, xs: seq<Extraction>, extractionId: nat) {
    && ClaimsWF(st.claims, xs, st.nextId) && EvidenceWF(st.evidence, st.claims, st.nextId)
    && forall id | id in st.ids && id.Some? :: HasClaimIn(st.claims, id.value, extractionId)
  }

  predicate Live(c: Context, xs: seq<Extraction>, nextId: nat) {
    ExtractionsWF(xs, nextId) && HasExtraction(xs, c.extractionId, c.workspace, c.note)
  }

  lemma {:induction false} StoredClaimWF(cs: seq<Claim>, d: ClaimDraft, c: Context, xs: seq<Extraction>, nextId: nat)
    requires ClaimsWF(cs, xs, nextId) && Live(c, xs, nextId)
    ensures var (cs', id) := StoreClaim(cs, d, c, nextId);
            && ClaimsWF(cs', xs, nextId + 1) && cs <= cs'
            && HasClaim(cs', id, c.workspace, c.note) && HasClaimIn(cs', id, c.extractionId)
  {
    var normalized, kind := Normalized(Clean(d.text, 5000)), KindOf(d.kind, "other");
    FoundClaim(cs, c, kind, normalized);
    var (cs', id) := StoreClaim(cs, d, c, nextId);
    if FindClaim(cs, c, kind, normalized).Some? {
      var x :| x in cs && x.id == id && x.workspace == c.workspace && x.note == c.note;
      OneExtraction(xs, nextId, x.extractionId, c.extractionId, c.workspace, c.note);
    } else {
      var row := cs'[|cs|];
      assert cs' == cs + [row] && row in cs';
      forall i | 0 <= i < |cs|
        ensures cs[i].id != row.id && !SameKey(cs[i], row)
      {
        assert cs[i] in cs;
      }
    }
  }

  lemma {:induction false} MoreClaims(cs: seq<Claim>, cs': seq<Claim>)
    requires cs <= cs'
    ensures forall id, w, n :: HasClaim(cs, id, w, n) ==> HasClaim(cs', id, w, n)
    ensures forall id, x :: HasClaimIn(cs, id, x) ==> HasClaimIn(cs', id, x)
  {
    forall c | c in cs
      ensures c in cs'
    {
    }
  }

  lemma {:induction false} StoredEvidenceWF(es: seq<Evidence>, d: ClaimDraft, c: Context, cs: seq<Claim>, claimId: nat,
                                            nextId: nat)
    requires EvidenceWF(es, cs, nextId) && HasClaim(cs, claimId, c.workspace, c.note)
    ensures EvidenceWF(StoreEvidence(es, d, c, claimId, nextId), cs, nextId + EvidenceRows(d))
  {
    var es' := StoreEvidence(es, d, c, claimId, nextId);
    forall i | 0 <= i < |es|
      ensures es[i].id != nextId
    {
      assert es[i] in es;
    }
    if es' != es {
      assert es' == es + [es'[|es|]];
    }
  }

  lemma {:induction false} MoreEvidenceWF(es: seq<Evidence>, cs: seq<Claim>, cs': seq<Claim>, nextId: nat)
    requires EvidenceWF(es, cs, nextId) && cs <= cs'
    ensures EvidenceWF(es, cs', nextId + 1)
  {
    MoreClaims(cs, cs');
  }

  lemma {:induction false} MoreIds(ids: seq<Option<nat>>, id: nat, cs: seq<Claim>, cs': seq<Claim>, extractionId: nat)
    requires cs <= cs' && HasClaimIn(cs', id, extractionId)
    requires forall x | x in ids && x.Some? :: HasClaimIn(cs, x.value, extractionId)
    ensures forall x | x in ids + [Some(id)] && x.Some? :: HasClaimIn(cs', x.value, extractionId)
  {
    MoreClaims(cs, cs');
  }

  lemma {:induction false} AddStoredWF(st: ClaimState, d: ClaimDraft, c: Context, xs: seq<Extraction>, stored: (seq<Claim>, nat))
    requires ClaimStateWF(st, xs, c.extractionId) && st.claims <= stored.0 && ClaimsWF(stored.0, xs, st.nextId + 1)
    requires HasClaim(stored.0, stored.1, c.workspace, c.note) && HasClaimIn(stored.0, stored.1, c.extractionId)
    ensures var st' := AddStored(st, d, c, stored);
            ClaimStateWF(st', xs, c.extractionId) && st.claims <= st'.claims && st.nextId <= st'.nextId
  {
    MoreIds(st.ids, stored.1, st.claims, stored.0, c.extractionId);
    MoreEvidenceWF(st.evidence, st.claims, stored.0, st.nextId);
    StoredEvidenceWF(st.evidence, d, c, stored.0, stored.1, st.nextId + 1);
    LaterClaims(stored.0, xs, st.nextId + 1, st.nextId + 1 + EvidenceRows(d));
  }

  lemma {:induction false} AddNonBlankWF(st: ClaimState, d: ClaimDraft, c: Context, xs: seq<Extraction>)
    requires ClaimStateWF(st, xs, c.extractionId) && Live(c, xs, st.nextId)
    ensures var st' := AddNonBlank(st, d, c);
            ClaimStateWF(st', xs, c.extractionId) && st.claims <= st'.claims && st.nextId <= st'.nextId
  {
    StoredClaimWF(st.claims, d, c, xs, st.nextId);
    AddStoredWF(st, d, c, xs, StoreClaim(st.claims, d, c, st.nextId));
  }

  lemma {:induction false} AddClaimWF(st: ClaimState, d: ClaimDraft, c: Context, xs: seq<Extraction>)
    requires ClaimStateWF(st, xs, c.extractionId) && Live(c, xs, st.nextId)
    ensures var st' := AddClaim(st, d, c);
            ClaimStateWF(st', xs, c.extractionId) && st.claims <= st'.claims && st.nextId <= st'.nextId
  {
    if !Blank(d) {
      AddNonBlankWF(st, d, c, xs);
    }
  }

  lemma {:induction false} LaterClaims(cs: seq<Claim>, xs: seq<Extraction>, nextId: nat, later: nat)
    requires ClaimsWF(cs, xs, nextId) && nextId <= later
    ensures ClaimsWF(cs, xs, later)
  {
  }

  lemma {:induction false} AddClaimsWF(st: ClaimState, ds: seq<ClaimDraft>, c: Context, xs: seq<Extraction>)
    requires ClaimStateWF(st, xs, c.extractionId) && Live(c, xs, st.nextId)
    ensures var st' := AddClaims(st, ds, c);
            ClaimStateWF(st', xs, c.extractionId) && st.claims <= st'.claims && st.nextId <= st'.nextId
  {
    if ds != [] {
      AddClaimsWF(st, ds[..|ds| - 1], c, xs);
      AddClaimWF(AddClaims(st, ds[..|ds| - 1], c), ds[|ds| - 1], c, xs);
    }
  }

  // ---------------------------------------------------------------- upserting entities

  predicate NamesEntities(m: map<string, nat>, es: seq<Entity>, workspace: string) {
    forall n | n in m :: HasEntity(es, m[n], workspace)
  }

  /** Ids recorded for names and aliases are ids of entities of the workspace. */
  predicate EntityStateWF(st: EntityState, workspace: string) {
    && EntitiesWF(st.entities, st.nextId)
    && NamesEntities(st.names, st.entities, workspace) && NamesEntities(st.aliases, st.entities, workspace)
  }

  predicate KeepsEntities(es: seq<Entity>, es': seq<Entity>) {
    |es| <= |es'| && forall i | 0 <= i < |es| :: es'[i].id == es[i].id && KeyOf(es'[i]) == KeyOf(es[i])
  }

  lemma {:induction false} KeptEntities(es: seq<Entity>, es': seq<Entity>)
    requires KeepsEntities(es, es')
    ensures forall id, w :: HasEntity(es, id, w) ==> HasEntity(es', id, w)
  {
    forall id, w | HasEntity(es, id, w)
      ensures HasEntity(es', id, w)
    {
      var e :| e in es && e.id == id && e.workspace == w;
      var i :| 0 <= i < |es| && es[i] == e;
      assert es'[i] in es' && KeyOf(es'[i]) == KeyOf(es[i]);
    }
  }

  lemma {:induction false} ReplacedEntity(es: seq<Entity>, i: nat, row: Entity, nextId: nat)
    requires EntitiesWF(es, nextId) && i < |es| && row.id == es[i].id && KeyOf(row) == KeyOf(es[i])
    ensures KeepsEntities(es, es[i := row]) && EntitiesWF(es[i := row], nextId)
  {
    var es' := es[i := row];
    forall k | 0 <= k < |es'|
      ensures es'[k].id < nextId && es'[k].id == es[k].id && KeyOf(es'[k]) == KeyOf(es[k])
    {
      assert es[k] in es;
    }
  }

  lemma {:induction false} AppendedEntity(es: seq<Entity>, row: Entity, nextId: nat)
    requires EntitiesWF(es, nextId) && row.id == nextId && forall k | 0 <= k < |es| :: KeyOf(es[k]) != KeyOf(row)
    ensures KeepsEntities(es, es + [row]) && EntitiesWF(es + [row], nextId + 1)
  {
    forall k | 0 <= k < |es|
      ensures es[k].id < nextId
    {
      assert es[k] in es;
    }
  }

  /** The row that an upsert leaves at its place has the key of the draft and the id of the old row, or a fresh one. */
  lemma {:induction false} UpsertWF(es: seq<Entity>, d: EntityDraft, workspace: string, now: nat, nextId: nat)
    requires EntitiesWF(es, nextId)
    ensures var es', i := Upsert(es, d, workspace, now, nextId), IndexOf(es, DraftKey(d, workspace));
            && KeepsEntities(es, es')
            && EntitiesWF(es', if i < |es| then nextId else nextId + 1)
            && i < |es'| && KeyOf(es'[i]) == DraftKey(d, workspace)
            && es'[i].id == (if i < |es| then es[i].id else nextId)
  {
    var key := DraftKey(d, workspace);
    var es', i := Upsert(es, d, workspace, now, nextId), IndexOf(es, key);
    if i < |es| {
      UpdatedKeepsKey(es[i], d, now);
      ReplacedEntity(es, i, Updated(es[i], d, now), nextId);
    } else {
      assert KeyOf(es'[i]) == key;
      AppendedEntity(es, es'[i], nextId);
    }
  }

  lemma {:induction false} UpdatedKeepsKey(e: Entity, d: EntityDraft, now: nat)
    ensures Updated(e, d, now).id == e.id && KeyOf(Updated(e, d, now)) == KeyOf(e)
  {
  }

  lemma {:induction false} WithAliasesValues(m: map<string, nat>, aliases: seq<string>, id: nat)
    ensures forall n | n in WithAliases(m, aliases, id) ::
              WithAliases(m, aliases, id)[n] == id || (n in m && WithAliases(m, aliases, id)[n] == m[n])
  {
    if aliases != [] {
      WithAliasesValues(m, aliases[..|aliases| - 1], id);
    }
  }

  lemma {:induction false} RecordedAliases(es: seq<Entity>, m: map<string, nat>, aliases: seq<string>, id: nat,
                                           workspace: string)
    requires HasEntity(es, id, workspace) && NamesEntities(m, es, workspace)
    ensures NamesEntities(WithAliases(m, aliases, id), es, workspace)
  {
    WithAliasesValues(m, aliases, id);
  }

  lemma {:induction false} RecordedNames(st: EntityState, es: seq<Entity>, nextId: nat, key: string, d: EntityDraft, id: nat,
                                         workspace: string)
    requires EntityStateWF(st, workspace) && KeepsEntities(st.entities, es) && EntitiesWF(es, nextId)
    requires HasEntity(es, id, workspace)
    ensures EntityStateWF(EntityState(es, st.names[key := id], WithAliases(st.aliases, d.aliases, id), nextId), workspace)
  {
    KeptEntities(st.entities, es);
    RecordedAliases(es, st.aliases, d.aliases, id, workspace);
  }

  lemma {:induction false} AddEntityWF(st: EntityState, d: EntityDraft, workspace: string, now: nat)
    requires EntityStateWF(st, workspace)
    ensures var st' := AddEntity(st, d, workspace, now);
            EntityStateWF(st', workspace) && KeepsEntities(st.entities, st'.entities) && st.nextId <= st'.nextId
  {
    var es := Upsert(st.entities, d, workspace, now, st.nextId);
    var key := DraftKey(d, workspace);
    var i := IndexOf(st.entities, key);
    UpsertWF(st.entities, d, workspace, now, st.nextId);
    assert es[i] in es && KeyOf(es[i]).workspace == workspace;
    RecordedNames(st, es, if i < |st.entities| then st.nextId else st.nextId + 1, key.normalized, d, es[i].id, workspace);
  }

  lemma {:induction false} AddEntitiesWF(st: EntityState, ds: seq<EntityDraft>, workspace: string, now: nat)
    requires EntityStateWF(st, workspace)
    ensures var st' := AddEntities(st, ds, workspace, now);
            EntityStateWF(st', workspace) && KeepsEntities(st.entities, st'.entities) && st.nextId <= st'.nextId
  {
    if ds != [] {
      AddEntitiesWF(st, ds[..|ds| - 1], workspace, now);
      AddEntityWF(AddEntities(st, ds[..|ds| - 1], workspace, now), ds[|ds| - 1], workspace, now);
    }
  }

  // ---------------------------------------------------------------- inserting relations

  predicate NamesWF(n: Names, c: Context, cs: seq<Claim>, es: seq<Entity>) {
    && NamesEntities(n.names, es, c.workspace) && NamesEntities(n.aliases, es, c.workspace)
    && (forall id | id in n.ids && id.Some? :: HasClaimIn(cs, id.value, c.extractionId))
  }

  lemma {:induction false} AddRelationWF(st: RelationState, d: RelationDraft, n: Names, c: Context, xs: seq<Extraction>,
                                         cs: seq<Claim>, es: seq<Entity>)
    requires RelationsWF(st.relations, xs, cs, es, st.nextId) && NamesWF(n, c, cs, es)
    requires HasExtraction(xs, c.extractionId, c.workspace, c.note)
    ensures var st' := AddRelation(st, d, n, c);
            RelationsWF(st'.relations, xs, cs, es, st'.nextId) && st.nextId <= st'.nextId
  {
    var r := RelationOf(d, n, c, st.nextId);
    if r.Some? {
      assert RelationWF(r.value, xs, cs, es, st.nextId + 1);
      MoreRelationsWF(st.relations, r.value, xs, cs, es, st.nextId);
    }
  }

  lemma {:induction false} MoreRelationsWF(rs: seq<Relation>, r: Relation, xs: seq<Extraction>, cs: seq<Claim>,
                                           es: seq<Entity>, nextId: nat)
    requires RelationsWF(rs, xs, cs, es, nextId) && RelationWF(r, xs, cs, es, nextId + 1) && r.id == nextId
    ensures RelationsWF(rs, xs, cs, es, nextId + 1)
    ensures !HasRelation(rs, r) ==> RelationsWF(rs + [r], xs, cs, es, nextId + 1)
  {
    forall i | 0 <= i < |rs|
      ensures rs[i].id != r.id
    {
      assert rs[i] in rs;
    }
    forall x | x in rs
      ensures RelationWF(x, xs, cs, es, nextId + 1)
    {
      assert RelationWF(x, xs, cs, es, nextId);
    }
  }

  lemma {:induction false} AddRelationsWF(st: RelationState, ds: seq<RelationDraft>, n: Names, c: Context,
                                          xs: seq<Extraction>, cs: seq<Claim>, es: seq<Entity>)
    requires RelationsWF(st.relations, xs, cs, es, st.nextId) && NamesWF(n, c, cs, es)
    requires HasExtraction(xs, c.extractionId, c.workspace, c.note)
    ensures var st' := AddRelations(st, ds, n, c);
            RelationsWF(st'.relations, xs, cs, es, st'.nextId) && st.nextId <= st'.nextId
  {
    if ds != [] {
      AddRelationsWF(st, ds[..|ds| - 1], n, c, xs, cs, es);
      AddRelationWF(AddRelations(st, ds[..|ds| - 1], n, c), ds[|ds| - 1], n, c, xs, cs, es);
    }
  }

  // ---------------------------------------------------------------- whole operations and whole histories

  lemma {:induction false} RelationsKeep(db: Db, cs: seq<Claim>, es: seq<Entity>, nextId: nat)
    requires WellFormed(db) && db.claims <= cs && KeepsEntities(db.entities, es) && db.nextId <= nextId
    ensures RelationsWF(db.relations, db.extractions, cs, es, nextId)
  {
    MoreClaims(db.claims, cs);
    KeptEntities(db.entities, es);
    forall r | r in db.relations
      ensures RelationWF(r, db.extractions, cs, es, nextId)
    {
      assert RelationWF(r, db.extractions, db.claims, db.entities, db.nextId);
    }
  }

  lemma {:induction false} InsertWF(db: Db, c: Context, d: Draft)
    requires WellFormed(db) && HasExtraction(db.extractions, c.extractionId, c.workspace, c.note)
    ensures WellFormed(Insert(db, c, d))
  {
    var claims := AddClaims(ClaimState(db.claims, db.evidence, [], db.nextId), d.claims, c);
    AddClaimsWF(ClaimState(db.claims, db.evidence, [], db.nextId), d.claims, c, db.extractions);
    var entities := AddEntities(EntityState(db.entities, map[], map[], claims.nextId), d.entities, c.workspace, c.now);
    AddEntitiesWF(EntityState(db.entities, map[], map[], claims.nextId), d.entities, c.workspace, c.now);
    var names := Names(entities.names, entities.aliases, claims.ids);
    RelationsKeep(db, claims.claims, entities.entities, entities.nextId);
    AddRelationsWF(RelationState(db.relations, entities.nextId), d.relations, names, c, db.extractions, claims.claims,
                   entities.entities);
  }

  lemma {:induction false} ReplaceWF(db: Db, workspace: string, note: string, source: string, d: Draft, now: nat)
    requires WellFormed(db)
    ensures WellFormed(Replace(db, workspace, note, source, d, now))
  {
    var w, n := Clean(workspace, 128), Clean(note, 128);
    var (db1, id) := Begin(db, w, n, d, now);
    BeginWF(db, w, n, d, now);
    InsertWF(db1, Context(id, w, n, source, now), d);
  }

  lemma {:induction false} DeleteWF(db: Db, workspace: string, note: string)
    requires WellFormed(db)
    ensures WellFormed(Delete(db, workspace, note))
  {
    var w, n := Clean(workspace, 128), Clean(note, 128);
    var i := ExtractionIndex(db.extractions, w, n);
    if w != "" && n != "" && i < |db.extractions| {
      WithoutRowsWF(db, db.extractions[i].id);
      WithoutExtractionWF(WithoutRows(db, db.extractions[i].id), i);
    }
  }

  lemma {:induction false} WithoutExtractionWF(db: Db, i: nat)
    requires WellFormed(db) && i < |db.extractions| && NoRows(db, db.extractions[i].id)
    ensures WellFormed(db.(extractions := db.extractions[..i] + db.extractions[i + 1..]))
  {
    var xs, ys := db.extractions, db.extractions[..i] + db.extractions[i + 1..];
    forall id, w, n | HasExtraction(xs, id, w, n) && id != xs[i].id
      ensures HasExtraction(ys, id, w, n)
    {
      var x :| x in xs && x.id == id && x.workspace == w && x.note == n;
      assert xs == xs[..i] + [xs[i]] + xs[i + 1..];
    }
    forall r | r in db.relations
      ensures RelationWF(r, ys, db.claims, db.entities, db.nextId)
    {
      assert RelationWF(r, xs, db.claims, db.entities, db.nextId);
    }
  }

  /** One call on the store, with the number of statements the database runs before one fails. */
  datatype Operation =
    | ReplaceNote(workspace: string, note: string, source: string, draft: Draft, now: nat, statements: nat)
    | DeleteNote(workspace: string, note: string, statements: nat)

  predicate Succeeds(db: Db, op: Operation) {
    match op
    case ReplaceNote(w, n, source, d, now, statements) =>
      Completes(w, n, d) && statements >= ReplaceStatements(db, w, n, source, d, now)
    case DeleteNote(w, n, statements) => statements >= DELETE_STATEMENTS
  }

  /** What the store's methods make of the tables. A call that fails changes nothing. */
  function Perform(db: Db, op: Operation): Db {
    if !Succeeds(db, op) then db
    else
      match op
      case ReplaceNote(w, n, source, d, now, _) => Replace(db, w, n, source, d, now)
      case DeleteNote(w, n, _) => Delete(db, w, n)
  }

  function PerformAll(db: Db, ops: seq<Operation>): Db {
    if ops == [] then db else Perform(PerformAll(db, ops[..|ops| - 1]), ops[|ops| - 1])
  }

  /** Every sequence of replacements and deletions, failing or not, keeps the store well formed. */
  lemma {:induction false} EveryHistoryIsWellFormed(ops: seq<Operation>)
    ensures WellFormed(PerformAll(Db([], [], [], [], [], 0), ops))
  {
    if ops != [] {
      var before := PerformAll(Db([], [], [], [], [], 0), ops[..|ops| - 1]);
      EveryHistoryIsWellFormed(ops[..|ops| - 1]);
      match ops[|ops| - 1]
      case ReplaceNote(w, n, source, d, now, _) => ReplaceWF(before, w, n, source, d, now);
      case DeleteNote(w, n, _) => DeleteWF(before, w, n);
    }
  }
}
