/** The document analyst: scoped retrieval and the verifying gate (backend/agent_graph/document_analyst_graph.py). */
module DocumentAnalyst {
  import opened Text
  import opened Evidence

  const FIELDS: seq<Field> := [ResearchQuestions, Contributions, Methods, Datasets, Experiments, Limitations]
  const CHECKED_FIELDS: seq<Field> :=
    [ResearchQuestions, Contributions, Methods, Datasets, Experiments, Limitations, OpenQuestions]

  /** What an analysis provider drafts. */
  datatype AnalysisDraft = AnalysisDraft(fields: Table, fieldEvidence: Table, coverageComplete: bool)

  datatype Claim = Claim(field: Field, index: nat, statement: string, evidenceIds: seq<string>)

  datatype Analysis = Analysis(
    artifactId: string,
    scopeRef: string,
    documentId: string,
    fields: Table,
    fieldEvidence: Table,
    claims: seq<Claim>,
    evidenceRefs: seq<EvidenceRef>,
    coverageComplete: bool,
    issues: seq<Issue>,
    status: Status)

  // ---------------------------------------------------------------- retrieval

  /** `packets[evidence_id] = packet` on an insertion-ordered dictionary. */
  function Put(packets: seq<Packet>, p: Packet): seq<Packet> {
    if packets == [] then [p]
    else if packets[0].ref.evidenceId == p.ref.evidenceId then [p] + packets[1..]
    else [packets[0]] + Put(packets[1..], p)
  }

  /** The packets kept from the hits of one query. */
  function Keep(packets: seq<Packet>, hits: seq<Packet>, documentIds: seq<string>): seq<Packet> {
    if hits == [] then packets
    else
      var n := |hits| - 1;
      var before := Keep(packets, hits[..n], documentIds);
      if hits[n].ref.sourceId in documentIds then Put(before, hits[n]) else before
  }

  /** The packets kept after the first queries, each answered by one list of hits. */
  function Retrieve(answers: seq<seq<Packet>>, documentIds: seq<string>): seq<Packet> {
    if answers == [] then []
    else Keep(Retrieve(answers[..|answers| - 1], documentIds), answers[|answers| - 1], documentIds)
  }

  method RetrieveEvidence(answers: seq<seq<Packet>>, documentIds: seq<string>) returns (packets: seq<Packet>)
    ensures packets == Retrieve(answers, documentIds)
  {
    packets := [];
    for q := 0 to |answers|
      invariant packets == Retrieve(answers[..q], documentIds)
    {
      assert answers[..q + 1][..q] == answers[..q];
      var hits := answers[q];
      for i := 0 to |hits|
        invariant packets == Keep(Retrieve(answers[..q], documentIds), hits[..i], documentIds)
      {
        assert hits[..i + 1][..i] == hits[..i];
        if hits[i].ref.sourceId in documentIds {
          packets := Put(packets, hits[i]);
        }
      }
      assert hits[..|hits|] == hits;
    }
    assert answers[..|answers|] == answers;
  }

  /** `p` is a hit for a requested document. */
  predicate RetrievedFor(p: Packet, answers: seq<seq<Packet>>, documentIds: seq<string>) {
    p.ref.sourceId in documentIds && exists q | 0 <= q < |answers| :: p in answers[q]
  }

  function PacketIds(packets: seq<Packet>): set<string> {
    set p | p in packets :: p.ref.evidenceId
  }

  predicate DistinctIds(packets: seq<Packet>) {
    packets == [] || (packets[0].ref.evidenceId !in PacketIds(packets[1..]) && DistinctIds(packets[1..]))
  }

  lemma {:induction false} PutMembers(packets: seq<Packet>, p: Packet)
    ensures forall x :: x in Put(packets, p) ==> x == p || x in packets
    ensures p in Put(packets, p)
  {
    if packets != [] {
      PutMembers(packets[1..], p);
    }
  }

  lemma {:induction false} PutKeepsIdsDistinct(packets: seq<Packet>, p: Packet)
    requires DistinctIds(packets)
    ensures DistinctIds(Put(packets, p))
  {
    if packets != [] {
      if packets[0].ref.evidenceId == p.ref.evidenceId {
        assert ([p] + packets[1..])[1..] == packets[1..];
      } else {
        PutKeepsIdsDistinct(packets[1..], p);
        PutMembers(packets[1..], p);
        assert Put(packets, p)[1..] == Put(packets[1..], p);
      }
    }
  }

  lemma {:induction false} KeepIsScoped(packets: seq<Packet>, hits: seq<Packet>, documentIds: seq<string>)
    requires DistinctIds(packets)
    ensures DistinctIds(Keep(packets, hits, documentIds))
    ensures forall p | p in Keep(packets, hits, documentIds) ::
              p in packets || (p in hits && p.ref.sourceId in documentIds)
  {
    if hits != [] {
      var n := |hits| - 1;
      KeepIsScoped(packets, hits[..n], documentIds);
      PutMembers(Keep(packets, hits[..n], documentIds), hits[n]);
      PutKeepsIdsDistinct(Keep(packets, hits[..n], documentIds), hits[n]);
    }
  }

  /** Retrieval keeps one packet per evidence id, and only packets hit for a requested document. */
  lemma {:induction false} RetrievalIsScoped(answers: seq<seq<Packet>>, documentIds: seq<string>)
    ensures DistinctIds(Retrieve(answers, documentIds))
    ensures forall p | p in Retrieve(answers, documentIds) :: RetrievedFor(p, answers, documentIds)
  {
    if answers != [] {
      var n := |answers| - 1;
      RetrievalIsScoped(answers[..n], documentIds);
      KeepIsScoped(Retrieve(answers[..n], documentIds), answers[n], documentIds);
      forall p | p in Retrieve(answers, documentIds)
        ensures RetrievedFor(p, answers, documentIds)
      {
        if p in answers[n] && p.ref.sourceId in documentIds {
        } else {
          assert RetrievedFor(p, answers[..n], documentIds);
          var q :| 0 <= q < n && p in answers[..n][q];
          assert p in answers[q];
        }
      }
    }
  }

  /** All hits in the order in which they come. */
  function AllHits(answers: seq<seq<Packet>>): seq<Packet> {
    if answers == [] then [] else AllHits(answers[..|answers| - 1]) + answers[|answers| - 1]
  }

  lemma {:induction false} KeepTwice(packets: seq<Packet>, a: seq<Packet>, b: seq<Packet>, documentIds: seq<string>)
    ensures Keep(packets, a + b, documentIds) == Keep(Keep(packets, a, documentIds), b, documentIds)
  {
    if b == [] {
      assert a + b == a;
    } else {
      assert (a + b)[..|a + b| - 1] == a + b[..|b| - 1];
      KeepTwice(packets, a, b[..|b| - 1], documentIds);
    }
  }

  lemma {:induction false} RetrieveKeepsAllHits(answers: seq<seq<Packet>>, documentIds: seq<string>)
    ensures Retrieve(answers, documentIds) == Keep([], AllHits(answers), documentIds)
  {
    if answers != [] {
      var n := |answers| - 1;
      RetrieveKeepsAllHits(answers[..n], documentIds);
      KeepTwice([], AllHits(answers[..n]), answers[n], documentIds);
    }
  }

  /** The hit at `k` is for a requested document, and no later such hit has its id. */
  predicate IsLastHit(hits: seq<Packet>, k: nat, documentIds: seq<string>) {
    && k < |hits| && hits[k].ref.sourceId in documentIds
    && forall j | k < j < |hits| :: !(hits[j].ref.sourceId in documentIds && hits[j].ref.evidenceId == hits[k].ref.evidenceId)
  }

  lemma {:induction false} PutReplaces(packets: seq<Packet>, p: Packet)
    requires DistinctIds(packets)
    ensures forall x :: x in Put(packets, p) <==> x == p || (x in packets && x.ref.evidenceId != p.ref.evidenceId)
  {
    if packets != [] {
      PutReplaces(packets[1..], p);
      assert packets == [packets[0]] + packets[1..];
    }
  }

  lemma {:induction false} LastHitsOfMore(hits: seq<Packet>, p: Packet, k: nat, documentIds: seq<string>)
    requires k < |hits|
    ensures IsLastHit(hits + [p], k, documentIds)
            <==> IsLastHit(hits, k, documentIds)
                 && !(p.ref.sourceId in documentIds && p.ref.evidenceId == hits[k].ref.evidenceId)
  {
    var more := hits + [p];
    assert more[k] == hits[k] && more[|hits|] == p;
    if IsLastHit(more, k, documentIds) {
      forall j | k < j < |hits|
        ensures !(hits[j].ref.sourceId in documentIds && hits[j].ref.evidenceId == hits[k].ref.evidenceId)
      {
        assert more[j] == hits[j];
      }
    }
  }

  /** The packet is the last hit with its id. */
  predicate IsLast(p: Packet, hits: seq<Packet>, documentIds: seq<string>) {
    exists k | 0 <= k < |hits| :: IsLastHit(hits, k, documentIds) && hits[k] == p
  }

  lemma {:induction false} LastOfMore(hits: seq<Packet>, last: Packet, p: Packet, documentIds: seq<string>)
    ensures IsLast(p, hits + [last], documentIds)
            <==> if last.ref.sourceId in documentIds
                 then p == last || (IsLast(p, hits, documentIds) && p.ref.evidenceId != last.ref.evidenceId)
                 else IsLast(p, hits, documentIds)
  {
    var more := hits + [last];
    assert more[|hits|] == last;
    if last.ref.sourceId in documentIds {
      assert IsLastHit(more, |hits|, documentIds);
    }
    if k :| 0 <= k < |more| && IsLastHit(more, k, documentIds) && more[k] == p && k < |hits| {
      LastHitsOfMore(hits, last, k, documentIds);
      assert hits[k] == p;
    }
    if k :| 0 <= k < |hits| && IsLastHit(hits, k, documentIds) && hits[k] == p {
      LastHitsOfMore(hits, last, k, documentIds);
      assert more[k] == p;
    }
  }

  lemma {:induction false} KeptAreLast(hits: seq<Packet>, documentIds: seq<string>, p: Packet)
    ensures p in Keep([], hits, documentIds) <==> IsLast(p, hits, documentIds)
  {
    if hits != [] {
      var n := |hits| - 1;
      KeptAreLast(hits[..n], documentIds, p);
      KeepIsScoped([], hits[..n], documentIds);
      PutReplaces(Keep([], hits[..n], documentIds), hits[n]);
      LastOfMore(hits[..n], hits[n], p, documentIds);
      assert hits == hits[..n] + [hits[n]];
    }
  }

  /**
   * Retrieval keeps exactly the last hit of each evidence id among the hits for requested documents; so every such hit
   * has its id in the result.
   */
  lemma {:induction false} RetrievalIsComplete(answers: seq<seq<Packet>>, documentIds: seq<string>)
    ensures var hits := AllHits(answers);
            && (forall p :: p in Retrieve(answers, documentIds) <==> IsLast(p, hits, documentIds))
            && (forall h | h in hits && h.ref.sourceId in documentIds :: h.ref.evidenceId in PacketIds(Retrieve(answers, documentIds)))
  {
    var hits := AllHits(answers);
    RetrieveKeepsAllHits(answers, documentIds);
    forall p
      ensures p in Retrieve(answers, documentIds) <==> IsLast(p, hits, documentIds)
    {
      KeptAreLast(hits, documentIds, p);
    }
    forall h | h in hits && h.ref.sourceId in documentIds
      ensures h.ref.evidenceId in PacketIds(Retrieve(answers, documentIds))
    {
      var k :| 0 <= k < |hits| && hits[k] == h;
      var last := LastHit(hits, k, documentIds);
      assert hits[last] in Retrieve(answers, documentIds);
    }
  }

  lemma {:induction false} LastHit(hits: seq<Packet>, k: nat, documentIds: seq<string>) returns (last: nat)
    requires k < |hits| && hits[k].ref.sourceId in documentIds
    ensures k <= last && IsLastHit(hits, last, documentIds) && hits[last].ref.evidenceId == hits[k].ref.evidenceId
    decreases |hits| - k
  {
    if j :| k < j < |hits| && hits[j].ref.sourceId in documentIds && hits[j].ref.evidenceId == hits[k].ref.evidenceId {
      last := LastHit(hits, j, documentIds);
    } else {
      last := k;
    }
  }

  // ---------------------------------------------------------------- the gate

  function KnownEvidence(draft: Table, available: set<string>): Table {
    map field | field in draft :: Known(draft[field], available)
  }

  datatype FieldState = FieldState(normalized: Table, issues: seq<Issue>, claims: seq<Claim>)

  function ClaimsOf(field: Field, values: seq<string>, evidenceIds: seq<string>): seq<Claim> {
    seq(|values|, i requires 0 <= i < |values| => Claim(field, i + 1, values[i], evidenceIds))
  }

  function CheckField(st: FieldState, field: Field, draft: AnalysisDraft, evidence: Table): FieldState {
    var values := CleanValues(Lookup(draft.fields, field));
    var ids := Lookup(evidence, field);
    FieldState(
      st.normalized[field := values],
      st.issues + (if values != [] && ids == [] then [Issue(UnsupportedField, true)] else []),
      st.claims + ClaimsOf(field, values, ids))
  }

  function CheckFields(fields: seq<Field>, draft: AnalysisDraft, evidence: Table): FieldState {
    if fields == [] then FieldState(map[], [], [])
    else CheckField(CheckFields(fields[..|fields| - 1], draft, evidence), fields[|fields| - 1], draft, evidence)
  }

  function MissingFields(fields: seq<Field>, normalized: Table): seq<Issue> {
    if fields == [] then []
    else MissingFields(fields[..|fields| - 1], normalized)
         + if Lookup(normalized, fields[|fields| - 1]) == [] then [Issue(UnknownField, false)] else []
  }

  function Visited(packets: seq<Packet>): set<string> {
    set p | p in packets :: p.ref.sourceId
  }

  function Attested(packets: seq<Packet>): set<string> {
    set p | p in packets && p.attestsCoverage :: p.ref.sourceId
  }

  function Members(ids: seq<string>): set<string> {
    set id | id in ids
  }

  function Refs(packets: seq<Packet>): seq<EvidenceRef> {
    seq(|packets|, i requires 0 <= i < |packets| => packets[i].ref)
  }

  /** The verified analysis of the requested documents. */
  function Analyse(artifactId: string, scopeRef: string, documentIds: seq<string>, packets: seq<Packet>,
                   draft: AnalysisDraft): Analysis
  {
    var evidence := KnownEvidence(draft.fieldEvidence, PacketIds(packets));
    var checked := CheckFields(CHECKED_FIELDS, draft, evidence);
    var unavailable := Members(documentIds) - Visited(packets);
    var missing := MissingFields(FIELDS, checked.normalized);
    var complete := draft.coverageComplete && Members(documentIds) <= Attested(packets) && unavailable == {};
    var issues := checked.issues
                  + (if unavailable != {} then [Issue(SourceUnavailable, true)] else [])
                  + missing
                  + (if draft.coverageComplete && !complete then [Issue(CoverageNotAttested, false)] else []);
    var passed := complete && missing == [] && !HasError(issues);
    Analysis(artifactId, scopeRef, if documentIds != [] then documentIds[0] else "unknown",
             checked.normalized, evidence, checked.claims, Refs(packets), complete, issues,
             if passed then Passed else Partial)
  }

  method CheckAllFields(fields: seq<Field>, draft: AnalysisDraft, evidence: Table)
    returns (normalized: Table, issues: seq<Issue>, claims: seq<Claim>)
    ensures FieldState(normalized, issues, claims) == CheckFields(fields, draft, evidence)
  {
    issues, claims, normalized := [], [], map[];
    for i := 0 to |fields|
      invariant FieldState(normalized, issues, claims) == CheckFields(fields[..i], draft, evidence)
    {
      assert fields[..i + 1][..i] == fields[..i];
      var values := CleanValues(Lookup(draft.fields, fields[i]));
      var ids := Lookup(evidence, fields[i]);
      normalized := normalized[fields[i] := values];
      issues := issues + (if values != [] && ids == [] then [Issue(UnsupportedField, true)] else []);
      claims := claims + ClaimsOf(fields[i], values, ids);
    }
    assert fields[..|fields|] == fields;
  }

  method MissingFieldIssues(normalized: Table) returns (missing: seq<Issue>)
    ensures missing == MissingFields(FIELDS, normalized)
  {
    missing := [];
    for i := 0 to |FIELDS|
      invariant missing == MissingFields(FIELDS[..i], normalized)
    {
      assert FIELDS[..i + 1][..i] == FIELDS[..i];
      if Lookup(normalized, FIELDS[i]) == [] {
        missing := missing + [Issue(UnknownField, false)];
      }
    }
    assert FIELDS[..|FIELDS|] == FIELDS;
  }

  method VerifyArtifact(artifactId: string, scopeRef: string, documentIds: seq<string>, packets: seq<Packet>,
                        draft: AnalysisDraft) returns (a: Analysis)
    ensures a == Analyse(artifactId, scopeRef, documentIds, packets, draft)
  {
    var evidence := KnownEvidence(draft.fieldEvidence, PacketIds(packets));
    var normalized, issues, claims := CheckAllFields(CHECKED_FIELDS, draft, evidence);
    var unavailable := Members(documentIds) - Visited(packets);
    issues := issues + (if unavailable != {} then [Issue(SourceUnavailable, true)] else []);
    var missing := MissingFieldIssues(normalized);
    var complete := draft.coverageComplete && Members(documentIds) <= Attested(packets) && unavailable == {};
    issues := issues + missing + (if draft.coverageComplete && !complete then [Issue(CoverageNotAttested, false)] else []);
    var passed := complete && missing == [] && !HasError(issues);
    a := Analysis(artifactId, scopeRef, if documentIds != [] then documentIds[0] else "unknown",
                  normalized, evidence, claims, Refs(packets), complete, issues, if passed then Passed else Partial);
  }

  // ---------------------------------------------------------------- what the gate guarantees

  /** A field with values that all cite evidence of the artifact. */
  predicate Supported(a: Analysis, field: Field) {
    && Lookup(a.fields, field) != []
    && (forall v | v in Lookup(a.fields, field) :: v != "" && !IsSpace(v[0]) && !IsSpace(v[|v| - 1]))
    && Lookup(a.fieldEvidence, field) != []
  }

  /** Every evidence id that the artifact mentions is one of its own references. */
  predicate Grounded(a: Analysis) {
    && (forall field | field in a.fieldEvidence :: forall id | id in a.fieldEvidence[field] :: id in RefIds(a.evidenceRefs))
    && (forall c | c in a.claims :: forall id | id in c.evidenceIds :: id in RefIds(a.evidenceRefs))
  }

  lemma {:induction false} RefIdsOfPackets(packets: seq<Packet>)
    ensures RefIds(Refs(packets)) == PacketIds(packets)
  {
    forall p | p in packets
      ensures p.ref.evidenceId in RefIds(Refs(packets))
    {
      var i :| 0 <= i < |packets| && packets[i] == p;
      assert Refs(packets)[i] == p.ref;
    }
  }

  lemma {:induction false} CheckFieldsAt(fields: seq<Field>, draft: AnalysisDraft, evidence: Table, k: nat)
    requires k < |fields| && forall i, j | 0 <= i < j < |fields| :: fields[i] != fields[j]
    ensures var st := CheckFields(fields, draft, evidence);
            && fields[k] in st.normalized
            && st.normalized[fields[k]] == CleanValues(Lookup(draft.fields, fields[k]))
            && (!HasError(st.issues) && st.normalized[fields[k]] != [] ==> Lookup(evidence, fields[k]) != [])
  {
    var n := |fields| - 1;
    var before := CheckFields(fields[..n], draft, evidence);
    var ids := Lookup(evidence, fields[n]);
    var values := CleanValues(Lookup(draft.fields, fields[n]));
    var added := if values != [] && ids == [] then [Issue(UnsupportedField, true)] else [];
    HasErrorAppend(before.issues, added);
    if k == n {
      if added != [] {
        assert added[0].isError;
      }
    } else {
      CheckFieldsAt(fields[..n], draft, evidence, k);
    }
  }

  lemma {:induction false} MissingFieldsAt(fields: seq<Field>, normalized: Table, k: nat)
    requires k < |fields| && MissingFields(fields, normalized) == []
    ensures Lookup(normalized, fields[k]) != []
  {
    if k < |fields| - 1 {
      MissingFieldsAt(fields[..|fields| - 1], normalized, k);
    }
  }

  /** A passed analysis has complete attested coverage and a supported value in each of the six required fields. */
  lemma {:induction false} PassedAnalysisIsSupported(artifactId: string, scopeRef: string, documentIds: seq<string>, packets: seq<Packet>,
                                  draft: AnalysisDraft, k: nat)
    requires k < |FIELDS|
    ensures var a := Analyse(artifactId, scopeRef, documentIds, packets, draft);
            a.status == Passed ==> a.coverageComplete && Supported(a, FIELDS[k])
  {
    var a := Analyse(artifactId, scopeRef, documentIds, packets, draft);
    if a.status == Passed {
      var evidence := KnownEvidence(draft.fieldEvidence, PacketIds(packets));
      var checked := CheckFields(CHECKED_FIELDS, draft, evidence);
      var missing := MissingFields(FIELDS, checked.normalized);
      assert a.issues == checked.issues + a.issues[|checked.issues|..];
      HasErrorAppend(checked.issues, a.issues[|checked.issues|..]);
      CheckFieldsAt(CHECKED_FIELDS, draft, evidence, k);
      MissingFieldsAt(FIELDS, checked.normalized, k);
    }
  }

  lemma {:induction false} ClaimsCiteFieldEvidence(fields: seq<Field>, draft: AnalysisDraft, evidence: Table)
    ensures forall c | c in CheckFields(fields, draft, evidence).claims :: c.evidenceIds == Lookup(evidence, c.field)
  {
    if fields != [] {
      ClaimsCiteFieldEvidence(fields[..|fields| - 1], draft, evidence);
    }
  }

  /** Whatever the provider drafts, the analysis only cites packets retrieved for a requested document. */
  lemma {:induction false} AnalysisIsGrounded(artifactId: string, scopeRef: string, documentIds: seq<string>, answers: seq<seq<Packet>>,
                           draft: AnalysisDraft)
    ensures var a := Analyse(artifactId, scopeRef, documentIds, Retrieve(answers, documentIds), draft);
            && Grounded(a)
            && forall r | r in a.evidenceRefs :: exists p: Packet :: p.ref == r && RetrievedFor(p, answers, documentIds)
  {
    var packets := Retrieve(answers, documentIds);
    var evidence := KnownEvidence(draft.fieldEvidence, PacketIds(packets));
    RetrievalIsScoped(answers, documentIds);
    RefIdsOfPackets(packets);
    ClaimsCiteFieldEvidence(CHECKED_FIELDS, draft, evidence);
    forall r | r in Refs(packets)
      ensures exists p: Packet :: p.ref == r && RetrievedFor(p, answers, documentIds)
    {
      var i :| 0 <= i < |packets| && Refs(packets)[i] == r;
      assert RetrievedFor(packets[i], answers, documentIds);
    }
  }

  // ---------------------------------------------------------------- when an analysis is PASSED

  /** The draft has a value for the field that is not blank. */
  predicate HasValue(draft: AnalysisDraft, field: Field) {
    field in draft.fields && exists v | v in draft.fields[field] :: Strip(v) != ""
  }

  predicate IsRequired(field: Field) {
    field.ResearchQuestions? || field.Contributions? || field.Methods? || field.Datasets? || field.Experiments?
    || field.Limitations?
  }

  /** The draft cites a retrieved packet for the field. */
  predicate CitesPacket(draft: AnalysisDraft, field: Field, packets: seq<Packet>) {
    field in draft.fieldEvidence && exists p | p in packets :: p.ref.evidenceId in draft.fieldEvidence[field]
  }

  predicate CoverageAttested(documentIds: seq<string>, packets: seq<Packet>) {
    forall id | id in documentIds :: exists p | p in packets :: p.ref.sourceId == id && p.attestsCoverage
  }

  /** What a PASSED analysis takes: attested coverage, six supported fields, and no open question without evidence. */
  ghost predicate Deserves(documentIds: seq<string>, packets: seq<Packet>, draft: AnalysisDraft) {
    && draft.coverageComplete && CoverageAttested(documentIds, packets)
    && (forall field | IsRequired(field) :: HasValue(draft, field) && CitesPacket(draft, field, packets))
    && (HasValue(draft, OpenQuestions) ==> CitesPacket(draft, OpenQuestions, packets))
  }

  lemma {:induction false} ValuesOfField(draft: AnalysisDraft, field: Field)
    ensures CleanValues(Lookup(draft.fields, field)) != [] <==> HasValue(draft, field)
  {
    var values := Lookup(draft.fields, field);
    if CleanValues(values) != [] {
      CleanValuesAre(values, CleanValues(values)[0]);
    }
    if v :| v in values && Strip(v) != "" {
      CleanValuesAre(values, Strip(v));
    }
  }

  lemma {:induction false} EvidenceOfField(draft: AnalysisDraft, field: Field, packets: seq<Packet>)
    ensures Lookup(KnownEvidence(draft.fieldEvidence, PacketIds(packets)), field) != [] <==> CitesPacket(draft, field, packets)
  {
    var ids := Lookup(KnownEvidence(draft.fieldEvidence, PacketIds(packets)), field);
    if ids != [] {
      assert ids[0] in ids;
    }
    if CitesPacket(draft, field, packets) {
      var p :| p in packets && p.ref.evidenceId in draft.fieldEvidence[field];
      assert p.ref.evidenceId in ids;
    }
  }

  lemma {:induction false} CheckedErrors(fields: seq<Field>, draft: AnalysisDraft, packets: seq<Packet>)
    ensures HasError(CheckFields(fields, draft, KnownEvidence(draft.fieldEvidence, PacketIds(packets))).issues)
            <==> exists f | f in fields :: HasValue(draft, f) && !CitesPacket(draft, f, packets)
  {
    if fields != [] {
      var n := |fields| - 1;
      var evidence := KnownEvidence(draft.fieldEvidence, PacketIds(packets));
      assert fields == fields[..n] + [fields[n]];
      CheckedErrors(fields[..n], draft, packets);
      ValuesOfField(draft, fields[n]);
      EvidenceOfField(draft, fields[n], packets);
      var added := if CleanValues(Lookup(draft.fields, fields[n])) != [] && Lookup(evidence, fields[n]) == []
                   then [Issue(UnsupportedField, true)] else [];
      assert HasError(added) <==> added != [] by {
        assert added != [] ==> added[0].isError;
      }
      HasErrorAppend(CheckFields(fields[..n], draft, evidence).issues, added);
    }
  }

  predicate Present(normalized: Table, field: Field) {
    Lookup(normalized, field) != []
  }

  predicate AllPresent(fields: seq<Field>, normalized: Table) {
    fields == [] || (AllPresent(fields[..|fields| - 1], normalized) && Present(normalized, fields[|fields| - 1]))
  }

  lemma {:induction false} NothingMissing(fields: seq<Field>, normalized: Table)
    ensures MissingFields(fields, normalized) == [] <==> AllPresent(fields, normalized)
    ensures !HasError(MissingFields(fields, normalized))
  {
    if fields != [] {
      var n := |fields| - 1;
      NothingMissing(fields[..n], normalized);
      HasErrorAppend(MissingFields(fields[..n], normalized), [Issue(UnknownField, false)]);
    }
  }

  lemma {:induction false} AllPresentAt(fields: seq<Field>, normalized: Table)
    ensures AllPresent(fields, normalized) <==> forall k | 0 <= k < |fields| :: Present(normalized, fields[k])
  {
    if fields != [] {
      AllPresentAt(fields[..|fields| - 1], normalized);
    }
  }

  /** The seven fields hold the drafted values, stripped and without blank ones. */
  lemma {:induction false} FieldsOfTheDraft(draft: AnalysisDraft, evidence: Table, k: nat)
    requires k < |CHECKED_FIELDS|
    ensures Lookup(CheckFields(CHECKED_FIELDS, draft, evidence).normalized, CHECKED_FIELDS[k])
            == CleanValues(Lookup(draft.fields, CHECKED_FIELDS[k]))
  {
    CheckFieldsAt(CHECKED_FIELDS, draft, evidence, k);
  }

  lemma {:induction false} RequiredFieldsPresent(draft: AnalysisDraft, evidence: Table)
    ensures MissingFields(FIELDS, CheckFields(CHECKED_FIELDS, draft, evidence).normalized) == []
            <==> forall f | IsRequired(f) :: HasValue(draft, f)
  {
    var normalized := CheckFields(CHECKED_FIELDS, draft, evidence).normalized;
    NothingMissing(FIELDS, normalized);
    AllPresentAt(FIELDS, normalized);
    forall k | 0 <= k < |FIELDS|
      ensures Present(normalized, FIELDS[k]) <==> HasValue(draft, FIELDS[k])
    {
      FieldIsPresent(draft, evidence, k);
    }
    SixAreRequired(f => HasValue(draft, f));
  }

  lemma {:induction false} FieldIsPresent(draft: AnalysisDraft, evidence: Table, k: nat)
    requires k < |FIELDS|
    ensures Present(CheckFields(CHECKED_FIELDS, draft, evidence).normalized, FIELDS[k]) <==> HasValue(draft, FIELDS[k])
  {
    assert CHECKED_FIELDS[k] == FIELDS[k];
    FieldsOfTheDraft(draft, evidence, k);
    ValuesOfField(draft, FIELDS[k]);
  }

  lemma {:induction false} SixAreRequired(holds: Field -> bool)
    ensures (forall k | 0 <= k < |FIELDS| :: holds(FIELDS[k])) <==> forall f | IsRequired(f) :: holds(f)
  {
    assert FIELDS[0] == ResearchQuestions && FIELDS[1] == Contributions && FIELDS[2] == Methods && FIELDS[3] == Datasets
        && FIELDS[4] == Experiments && FIELDS[5] == Limitations;
  }

  lemma {:induction false} CoverageIsAttested(documentIds: seq<string>, packets: seq<Packet>)
    ensures Members(documentIds) <= Attested(packets) <==> CoverageAttested(documentIds, packets)
    ensures Attested(packets) <= Visited(packets)
  {
    if Members(documentIds) <= Attested(packets) {
      forall id | id in documentIds
        ensures exists p | p in packets :: p.ref.sourceId == id && p.attestsCoverage
      {
        assert id in Members(documentIds) && id in Attested(packets);
      }
    }
  }

  /** For every draft and retrieval: an analysis is PASSED exactly if it deserves it, and PARTIAL otherwise. */
  lemma {:induction false} AnalysisPassesExactly(artifactId: string, scopeRef: string, documentIds: seq<string>,
                                                 packets: seq<Packet>, draft: AnalysisDraft)
    ensures var a := Analyse(artifactId, scopeRef, documentIds, packets, draft);
            && a.status == (if Deserves(documentIds, packets, draft) then Passed else Partial)
            && (a.coverageComplete <==> draft.coverageComplete && CoverageAttested(documentIds, packets))
  {
    var evidence := KnownEvidence(draft.fieldEvidence, PacketIds(packets));
    var checked := CheckFields(CHECKED_FIELDS, draft, evidence);
    var missing := MissingFields(FIELDS, checked.normalized);
    CoverageIsAttested(documentIds, packets);
    CheckedErrors(CHECKED_FIELDS, draft, packets);
    RequiredFieldsPresent(draft, evidence);
    NothingMissing(FIELDS, checked.normalized);
    PassesByParts(artifactId, scopeRef, documentIds, packets, draft);
    CheckedAreSeven();
  }

  lemma {:induction false} CheckedAreSeven()
    ensures forall f :: f in CHECKED_FIELDS <==> IsRequired(f) || f == OpenQuestions
  {
    assert CHECKED_FIELDS
        == [ResearchQuestions, Contributions, Methods, Datasets, Experiments, Limitations, OpenQuestions];
  }

  lemma {:induction false} PassesByParts(artifactId: string, scopeRef: string, documentIds: seq<string>, packets: seq<Packet>,
                                         draft: AnalysisDraft)
    requires Attested(packets) <= Visited(packets)
    ensures var a := Analyse(artifactId, scopeRef, documentIds, packets, draft);
            var checked := CheckFields(CHECKED_FIELDS, draft, KnownEvidence(draft.fieldEvidence, PacketIds(packets)));
            && (a.coverageComplete <==> draft.coverageComplete && Members(documentIds) <= Attested(packets))
            && a.status == if a.coverageComplete && MissingFields(FIELDS, checked.normalized) == [] && !HasError(checked.issues)
                           then Passed else Partial
  {
    var a := Analyse(artifactId, scopeRef, documentIds, packets, draft);
    var checked := CheckFields(CHECKED_FIELDS, draft, KnownEvidence(draft.fieldEvidence, PacketIds(packets)));
    if a.coverageComplete && MissingFields(FIELDS, checked.normalized) == [] {
      assert a.issues == checked.issues;
    }
  }

  /** The claims are the values of the seven fields, numbered, each with the evidence of its field. */
  lemma {:induction false} ClaimsAreTheValues(artifactId: string, scopeRef: string, documentIds: seq<string>,
                                              packets: seq<Packet>, draft: AnalysisDraft, c: Claim)
    ensures var a := Analyse(artifactId, scopeRef, documentIds, packets, draft);
            c in a.claims <==>
              && c.field in CHECKED_FIELDS
              && 1 <= c.index <= |Lookup(a.fields, c.field)| && c.statement == Lookup(a.fields, c.field)[c.index - 1]
              && c.evidenceIds == Lookup(a.fieldEvidence, c.field)
  {
    var evidence := KnownEvidence(draft.fieldEvidence, PacketIds(packets));
    ClaimsOfFields(CHECKED_FIELDS, draft, evidence, c);
    if k :| 0 <= k < |CHECKED_FIELDS| && CHECKED_FIELDS[k] == c.field {
      FieldsOfTheDraft(draft, evidence, k);
    }
  }

  lemma {:induction false} ClaimsOfFields(fields: seq<Field>, draft: AnalysisDraft, evidence: Table, c: Claim)
    ensures var values := CleanValues(Lookup(draft.fields, c.field));
            c in CheckFields(fields, draft, evidence).claims <==>
              && c.field in fields && 1 <= c.index <= |values| && c.statement == values[c.index - 1]
              && c.evidenceIds == Lookup(evidence, c.field)
  {
    if fields != [] {
      var n := |fields| - 1;
      assert fields == fields[..n] + [fields[n]];
      ClaimsOfFields(fields[..n], draft, evidence, c);
      ClaimsOfOne(fields[n], CleanValues(Lookup(draft.fields, fields[n])), Lookup(evidence, fields[n]), c);
    }
  }

  lemma {:induction false} ClaimsOfOne(field: Field, values: seq<string>, ids: seq<string>, c: Claim)
    ensures c in ClaimsOf(field, values, ids) <==>
              c.field == field && 1 <= c.index <= |values| && c.statement == values[c.index - 1] && c.evidenceIds == ids
  {
    if c.field == field && 1 <= c.index <= |values| && c.statement == values[c.index - 1] && c.evidenceIds == ids {
      assert ClaimsOf(field, values, ids)[c.index - 1] == c;
    }
  }

  /** The fields and their evidence are those of the draft: stripped values that are not blank, and known evidence. */
  lemma {:induction false} AnalysisKeepsTheDraft(artifactId: string, scopeRef: string, documentIds: seq<string>,
                                                 packets: seq<Packet>, draft: AnalysisDraft, field: Field)
    requires field in CHECKED_FIELDS
    ensures var a := Analyse(artifactId, scopeRef, documentIds, packets, draft);
            && (forall x :: x in Lookup(a.fields, field) <==> x != "" && Strips(Lookup(draft.fields, field), x))
            && (forall id :: id in Lookup(a.fieldEvidence, field)
                  <==> id in Lookup(draft.fieldEvidence, field) && exists p | p in packets :: p.ref.evidenceId == id)
            && a.documentId == (if documentIds != [] then documentIds[0] else "unknown")
  {
    var evidence := KnownEvidence(draft.fieldEvidence, PacketIds(packets));
    var k :| 0 <= k < |CHECKED_FIELDS| && CHECKED_FIELDS[k] == field;
    FieldsOfTheDraft(draft, evidence, k);
    KeptValues(Lookup(draft.fields, field));
  }

  lemma {:induction false} KeptValues(values: seq<string>)
    ensures forall x :: x in CleanValues(values) <==> x != "" && Strips(values, x)
  {
    forall x
      ensures x in CleanValues(values) <==> x != "" && Strips(values, x)
    {
      CleanValuesAre(values, x);
    }
  }
}
