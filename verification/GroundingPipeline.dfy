/** The three specialists composed: what passes one gate passes the next, and every citation goes back to a retrieval. */
module GroundingPipeline {
  import opened Text
  import opened Evidence
  import opened DocumentAnalyst
  import opened ResearchSynthesizer
  import opened AcademicWriter

  /** One document task: what was asked for, what retrieval answered, what the analysis provider drafted. */
  datatype Request = Request(artifactId: string, documentIds: seq<string>, answers: seq<seq<Packet>>,
                             draft: AnalysisDraft)

  function AnalysisOf(q: Request, scopeRef: string): Analysis {
    Analyse(q.artifactId, scopeRef, q.documentIds, Retrieve(q.answers, q.documentIds), q.draft)
  }

  function AnalysesOf(qs: seq<Request>, scopeRef: string): seq<Analysis> {
    seq(|qs|, i requires 0 <= i < |qs| => AnalysisOf(qs[i], scopeRef))
  }

  /** `id` is the id of a packet that retrieval returned for a document requested by one of the tasks. */
  predicate Traceable(id: string, qs: seq<Request>) {
    exists k | 0 <= k < |qs| :: TraceableTo(id, qs[k])
  }

  predicate TraceableTo(id: string, q: Request) {
    exists p | p in Retrieve(q.answers, q.documentIds) :: p.ref.evidenceId == id && RetrievedFor(p, q.answers, q.documentIds)
  }

  lemma {:induction false} PassedSupports(q: Request, scopeRef: string, k: nat)
    requires AnalysisOf(q, scopeRef).status == Passed && k < |DIMENSIONS|
    ensures var a := AnalysisOf(q, scopeRef); a.coverageComplete && Supported(a, DIMENSIONS[k])
  {
    PassedAnalysisIsSupported(q.artifactId, scopeRef, q.documentIds, Retrieve(q.answers, q.documentIds), q.draft, k + 2);
    DimensionIsField(k);
  }

  lemma {:induction false} DimensionIsField(k: nat)
    requires k < |DIMENSIONS|
    ensures k + 2 < |FIELDS| && FIELDS[k + 2] == DIMENSIONS[k]
  {
  }

  lemma {:induction false} PassedIsReady(q: Request, scopeRef: string)
    requires AnalysisOf(q, scopeRef).status == Passed
    ensures Ready(AnalysisOf(q, scopeRef))
  {
    AnalysisIsGrounded(q.artifactId, scopeRef, q.documentIds, q.answers, q.draft);
    forall k | 0 <= k < |DIMENSIONS|
      ensures AnalysisOf(q, scopeRef).coverageComplete && Supported(AnalysisOf(q, scopeRef), DIMENSIONS[k])
    {
      PassedSupports(q, scopeRef, k);
    }
    assert Supported(AnalysisOf(q, scopeRef), DIMENSIONS[0]);
  }

  lemma {:induction false} ReferencesAreTraceable(q: Request, scopeRef: string, id: string)
    requires id in RefIds(AnalysisOf(q, scopeRef).evidenceRefs)
    ensures TraceableTo(id, q)
  {
    var packets := Retrieve(q.answers, q.documentIds);
    RefIdsOfPackets(packets);
    RetrievalIsScoped(q.answers, q.documentIds);
    var p :| p in packets && p.ref.evidenceId == id;
  }

  lemma {:induction false} AllReferencesAreTraceable(qs: seq<Request>, scopeRef: string, id: string)
    requires id in RefIds(AllRefs(AnalysesOf(qs, scopeRef)))
    ensures Traceable(id, qs)
  {
    if qs != [] {
      var n := |qs| - 1;
      FrontAnalyses(qs, scopeRef);
      LastReferences(AnalysesOf(qs[..n], scopeRef), AnalysisOf(qs[n], scopeRef), id);
      if id in RefIds(AnalysisOf(qs[n], scopeRef).evidenceRefs) {
        ReferencesAreTraceable(qs[n], scopeRef, id);
      } else {
        AllReferencesAreTraceable(qs[..n], scopeRef, id);
        var k :| 0 <= k < n && TraceableTo(id, qs[..n][k]);
        assert TraceableTo(id, qs[k]);
      }
    }
  }

  lemma {:induction false} FrontAnalyses(qs: seq<Request>, scopeRef: string)
    requires qs != []
    ensures AnalysesOf(qs, scopeRef) == AnalysesOf(qs[..|qs| - 1], scopeRef) + [AnalysisOf(qs[|qs| - 1], scopeRef)]
  {
    var n, all, front := |qs| - 1, AnalysesOf(qs, scopeRef), AnalysesOf(qs[..|qs| - 1], scopeRef);
    assert all[n] == AnalysisOf(qs[n], scopeRef);
    SameFront(all, front);
  }

  lemma {:induction false} SameFront<T>(all: seq<T>, front: seq<T>)
    requires |all| == |front| + 1 && forall i | 0 <= i < |front| :: all[i] == front[i]
    ensures all == front + [all[|front|]]
  {
  }

  lemma {:induction false} LastReferences(docs: seq<Analysis>, d: Analysis, id: string)
    ensures id in RefIds(AllRefs(docs + [d])) ==> id in RefIds(AllRefs(docs)) || id in RefIds(d.evidenceRefs)
  {
    assert (docs + [d])[..|docs|] == docs;
  }

  /** The comparison that the synthesizer stores for the named analyses with its deterministic producer. */
  function Compare(refs: seq<ArtifactRef>, store: Store, allowed: set<string>, memory: seq<MemoryItem>, task: Task)
    : Outcome<Comparison>
  {
    var inputs := Load(refs, store, allowed);
    Verify(inputs, Synthesize(inputs.documents, memory), MemoryIds(memory), task)
  }

  /** The section that the writer stores for the named inputs and the user's material with its deterministic producer. */
  function Write(refs: seq<ArtifactRef>, store: Store, items: seq<UserItem>, task: WritingTask): Outcome<Section> {
    var inputs := LoadAll(refs, store, task.scopeRef);
    VerifySection(inputs, items, [], Generate(inputs.artifacts, items, task), task)
  }

  lemma {:induction false} AllReady(qs: seq<Request>, scopeRef: string)
    requires forall i | 0 <= i < |qs| :: AnalysisOf(qs[i], scopeRef).status == Passed
    ensures forall d | d in AnalysesOf(qs, scopeRef) :: Ready(d)
  {
    forall i | 0 <= i < |qs|
      ensures Ready(AnalysesOf(qs, scopeRef)[i])
    {
      PassedIsReady(qs[i], scopeRef);
    }
  }

  /** `refs` name passed analyses of two or more distinct, allowed documents. */
  predicate PassedInputs(qs: seq<Request>, refs: seq<ArtifactRef>, store: Store, allowed: set<string>, scopeRef: string) {
    && |qs| >= 2
    && (forall i | 0 <= i < |qs| :: AnalysisOf(qs[i], scopeRef).status == Passed)
    && DistinctDocuments(AnalysesOf(qs, scopeRef))
    && Names(refs, AnalysesOf(qs, scopeRef), store, allowed)
  }

  /**
   * Two or more passed analyses of distinct, allowed documents, with the reviews a formal objective asks for: the
   * deterministic comparison is stored exactly when its inputs respect the size limits, then it is PASSED and every id
   * its cells cite belongs to a packet retrieved for a requested document; four cells for each document, in the order of
   * the ids, report what its analysis says. Its result is delivered exactly for task ids of up to 254 characters.
   */
  lemma {:induction false} ComparisonComposes(qs: seq<Request>, refs: seq<ArtifactRef>, store: Store,
                                              allowed: set<string>, memory: seq<MemoryItem>, task: Task)
    requires ReviewsAccepted(task) && PassedInputs(qs, refs, store, allowed, task.scopeRef)
    ensures var r := Compare(refs, store, allowed, memory, task);
            && (r.Stored? <==> InputsFit(SortDocuments(AnalysesOf(qs, task.scopeRef)), memory))
            && (r.Stored? ==>
                && (ResultFits(r.value, task) <==> |task.taskId| <= 254)
                && r.value.status == Passed && r.value.scopeRef == task.scopeRef && Citable(r.value)
                && IsTableOf(r.value.cells, SortDocuments(AnalysesOf(qs, task.scopeRef)))
                && (forall cell, id | cell in r.value.cells && id in cell.evidenceIds :: Traceable(id, qs))
                && (forall id | id in RefIds(r.value.evidenceRefs) :: Traceable(id, qs)))
  {
    var docs := SortDocuments(AnalysesOf(qs, task.scopeRef));
    ValidReferencesLoad(refs, AnalysesOf(qs, task.scopeRef), store, allowed);
    AllReady(qs, task.scopeRef);
    SortKeepsDocuments(AnalysesOf(qs, task.scopeRef));
    SortedAreDistinct(AnalysesOf(qs, task.scopeRef));
    ReadyDocumentsCompose(docs, memory, task);
    forall id | id in RefIds(AllRefs(docs))
      ensures Traceable(id, qs)
    {
      SortedReferences(AnalysesOf(qs, task.scopeRef), id);
      AllReferencesAreTraceable(qs, task.scopeRef, id);
    }
  }

  lemma {:induction false} ReadyDocumentsCompose(docs: seq<Analysis>, memory: seq<MemoryItem>, task: Task)
    requires |docs| >= 2 && DistinctDocuments(docs) && (forall d | d in docs :: Ready(d)) && ReviewsAccepted(task)
    ensures var r := Verify(Inputs(docs, []), Synthesize(docs, memory), MemoryIds(memory), task);
            && (r.Stored? <==> InputsFit(docs, memory))
            && (r.Stored? ==>
                && (ResultFits(r.value, task) <==> |task.taskId| <= 254)
                && r.value.status == Passed && r.value.scopeRef == task.scopeRef && Citable(r.value)
                && r.value.evidenceRefs == AllRefs(docs) && IsTableOf(r.value.cells, docs)
                && (forall cell, id | cell in r.value.cells && id in cell.evidenceIds :: id in RefIds(AllRefs(docs))))
  {
    DeterministicComparisonPasses(docs, memory, task);
    GateHolds(Inputs(docs, []), Synthesize(docs, memory), MemoryIds(memory), task);
    var r := Verify(Inputs(docs, []), Synthesize(docs, memory), MemoryIds(memory), task);
    if r.Stored? {
      StoredComparisonIsCitable(docs, memory, r.value);
    }
  }

  lemma {:induction false} StoredComparisonIsCitable(docs: seq<Analysis>, memory: seq<MemoryItem>, c: Comparison)
    requires InputsFit(docs, memory) && c.cells == AllCells(docs) && c.evidenceRefs == AllRefs(docs) && docs != []
    requires forall cell | cell in c.cells ::
               Strip(cell.value) != "" && cell.evidenceIds != [] && Cites(cell.evidenceIds, RefIds(c.evidenceRefs))
    ensures Citable(c)
  {
    assert |AllCells(docs)| >= |CellsFor(docs[|docs| - 1], DIMENSIONS)| >= 1;
  }

  /** One comparison task with its inputs and the comparison that was stored for it. */
  datatype Comparing = Comparing(qs: seq<Request>, refs: seq<ArtifactRef>, store: Store, allowed: set<string>,
                                 memory: seq<MemoryItem>, task: Task, result: Comparison)

  /** The comparison is the deterministic one of passed analyses of two or more distinct documents, and was stored. */
  predicate Composed(t: Comparing) {
    && ReviewsAccepted(t.task) && PassedInputs(t.qs, t.refs, t.store, t.allowed, t.task.scopeRef)
    && Compare(t.refs, t.store, t.allowed, t.memory, t.task) == Stored(t.result)
  }

  function Results(ts: seq<Comparing>): seq<Comparison> {
    seq(|ts|, i requires 0 <= i < |ts| => ts[i].result)
  }

  /** `refs` name exactly the stored comparisons `cs`, all of the scope. */
  predicate NamesComparisons(refs: seq<ArtifactRef>, cs: seq<Comparison>, store: Store, scopeRef: string) {
    && |refs| == |cs|
    && forall i | 0 <= i < |refs| ::
         && (refs[i].artifactId, refs[i].version) in store
         && store[(refs[i].artifactId, refs[i].version)] == Entry(ComparisonArtifact(cs[i]), refs[i].contentHash)
         && cs[i].scopeRef == scopeRef
  }

  predicate TraceableToOne(id: string, ts: seq<Comparing>) {
    exists t | t in ts :: Traceable(id, t.qs)
  }

  /**
   * The section written deterministically from such comparisons, with any user material, neither a formal review nor an
   * experiment section, is stored exactly for task ids of up to 233 characters and up to 256 comparisons, if the evidence
   * of the comparisons and of the user fits its limit; then it is PASSED, each paragraph states what one of the analyses
   * says in one dimension, under the evidence the analysis has for it, and every id it cites belongs to a packet retrieved
   * for a requested document.
   */
  lemma {:induction false} SectionComposes(ts: seq<Comparing>, refs: seq<ArtifactRef>, store: Store, items: seq<UserItem>,
                                           writing: WritingTask)
    requires ts != [] && (forall t | t in ts :: Composed(t)) && !writing.experiment && HexDigest(writing.digest)
    requires NamesComparisons(refs, Results(ts), store, writing.scopeRef)
    ensures var r := Write(refs, store, items, writing);
            && (r.Stored? <==> |writing.taskId| <= 233 && |EvidenceOf(Results(ts)) + UserIds(items)| <= MAX_EVIDENCE_REFS
                               && |ts| <= MAX_LINEAGE)
            && (r.Stored? ==>
                && r.value.status == Passed && r.value.issues == [] && r.value.missingInputs == []
                && StatesCells(r.value.paragraphs, CellsOf(Results(ts)))
                && (forall p | p in r.value.paragraphs :: StatesAnalysis(p, ts))
                && forall p, id | p in r.value.paragraphs && id in p.evidenceIds :: TraceableToOne(id, ts))
  {
    var cs := Results(ts);
    ResultsAreCitable(ts);
    ComparisonsLoad(refs, cs, store, writing.scopeRef);
    DeterministicSectionPasses(cs, items, writing);
    forall id | id in EvidenceOf(cs)
      ensures TraceableToOne(id, ts)
    {
      EvidenceIsTraceable(ts, id);
    }
    SectionStates(Write(refs, store, items, writing), ts);
  }

  lemma {:induction false} SectionStates(r: Outcome<Section>, ts: seq<Comparing>)
    requires forall t | t in ts :: Composed(t)
    ensures r.Stored? && StatesCells(r.value.paragraphs, CellsOf(Results(ts))) ==>
              forall p | p in r.value.paragraphs :: StatesAnalysis(p, ts)
  {
    CellsStateAnalyses(ts);
    if r.Stored? && StatesCells(r.value.paragraphs, CellsOf(Results(ts))) {
      ParagraphsStateAnalyses(r.value.paragraphs, CellsOf(Results(ts)), ts);
    }
  }

  /** The paragraph states what the analysis says in the dimension, under the evidence it has for it. */
  predicate StatesDimension(p: Paragraph, a: Analysis, dimension: Field) {
    && dimension in a.fields && dimension in a.fieldEvidence
    && p.category == Fact && p.markdown == Strip(Join("\n", a.fields[dimension]))
    && p.evidenceIds == a.fieldEvidence[dimension]
  }

  /** It states a dimension of the analysis of one of the requests. */
  predicate StatesRequest(p: Paragraph, docs: seq<Analysis>) {
    exists d, dimension | d in docs && dimension in {Methods, Datasets, Experiments, Limitations} ::
      StatesDimension(p, d, dimension)
  }

  predicate StatesAnalysis(p: Paragraph, ts: seq<Comparing>) {
    exists t | t in ts :: StatesRequest(p, AnalysesOf(t.qs, t.task.scopeRef))
  }

  /** A cell of the comparisons, as a paragraph that states it. */
  function AsParagraph(cell: Cell, id: string): Paragraph {
    Paragraph(id, Strip(cell.value), Fact, cell.evidenceIds)
  }

  lemma {:induction false} ReportedCellStates(cells: seq<Cell>, docs: seq<Analysis>, k: nat, id: string)
    requires IsTableOf(cells, SortDocuments(docs)) && k < |cells|
    ensures StatesRequest(AsParagraph(cells[k], id), docs)
  {
    SortKeepsDocuments(docs);
    var d, dimension := CellReportsSome(cells, SortDocuments(docs), k);
    assert StatesDimension(AsParagraph(cells[k], id), d, dimension);
  }

  lemma {:induction false} ComposedTable(t: Comparing)
    requires Composed(t)
    ensures IsTableOf(t.result.cells, SortDocuments(AnalysesOf(t.qs, t.task.scopeRef)))
  {
    ComparisonComposes(t.qs, t.refs, t.store, t.allowed, t.memory, t.task);
  }

  lemma {:induction false} CellsStateAnalyses(ts: seq<Comparing>)
    requires forall t | t in ts :: Composed(t)
    ensures forall cell, id | cell in CellsOf(Results(ts)) :: StatesAnalysis(AsParagraph(cell, id), ts)
  {
    forall cell, id | cell in CellsOf(Results(ts))
      ensures StatesAnalysis(AsParagraph(cell, id), ts)
    {
      var j := CellOfSome(Results(ts), cell);
      var k :| 0 <= k < |ts[j].result.cells| && ts[j].result.cells[k] == cell;
      assert ts[j] in ts;
      ComposedTable(ts[j]);
      ReportedCellStates(ts[j].result.cells, AnalysesOf(ts[j].qs, ts[j].task.scopeRef), k, id);
    }
  }

  lemma {:induction false} CellOfSome(cs: seq<Comparison>, cell: Cell) returns (j: nat)
    requires cell in CellsOf(cs)
    ensures j < |cs| && cell in cs[j].cells
  {
    j := |cs| - 1;
    if cell !in cs[j].cells {
      j := CellOfSome(cs[..j], cell);
    }
  }

  lemma {:induction false} ParagraphsStateAnalyses(ps: seq<Paragraph>, cells: seq<Cell>, ts: seq<Comparing>)
    requires StatesCells(ps, cells)
    requires forall cell, id | cell in cells :: StatesAnalysis(AsParagraph(cell, id), ts)
    ensures forall p | p in ps :: StatesAnalysis(p, ts)
  {
    forall p | p in ps
      ensures StatesAnalysis(p, ts)
    {
      var i :| 0 <= i < |ps| && ps[i] == p;
      assert StatesCell(ps[i], cells[i]) && cells[i] in cells;
      assert p == AsParagraph(cells[i], p.id);
    }
  }

  lemma {:induction false} ResultsAreCitable(ts: seq<Comparing>)
    requires ts != [] && forall t | t in ts :: Composed(t)
    ensures AllCitable(Results(ts))
  {
    forall i | 0 <= i < |ts|
      ensures Citable(Results(ts)[i])
    {
      var t := ts[i];
      assert t in ts;
      ComparisonComposes(t.qs, t.refs, t.store, t.allowed, t.memory, t.task);
    }
  }

  lemma {:induction false} EvidenceIsTraceable(ts: seq<Comparing>, id: string)
    requires (forall t | t in ts :: Composed(t)) && id in EvidenceOf(Results(ts))
    ensures TraceableToOne(id, ts)
  {
    var cs := Results(ts);
    var c :| c in cs && id in RefIds(c.evidenceRefs);
    var i :| 0 <= i < |cs| && cs[i] == c;
    var t := ts[i];
    assert t in ts;
    ComparisonComposes(t.qs, t.refs, t.store, t.allowed, t.memory, t.task);
  }

  lemma {:induction false} ComparisonsLoad(refs: seq<ArtifactRef>, cs: seq<Comparison>, store: Store, scopeRef: string)
    requires NamesComparisons(refs, cs, store, scopeRef)
    ensures LoadAll(refs, store, scopeRef) == WriterInputs(Artifacts(cs), [])
  {
    if refs != [] {
      var n := |refs| - 1;
      ComparisonsLoad(refs[..n], cs[..n], store, scopeRef);
      assert Artifacts(cs) == Artifacts(cs[..n]) + [ComparisonArtifact(cs[n])];
    } else {
      assert Artifacts(cs) == [];
    }
  }
}
