/** The research synthesizer: deterministic comparison and verifying gate (backend/agent_graph/research_synthesizer_graph.py). */
module ResearchSynthesizer {
  import opened Text
  import opened Evidence
  import opened DocumentAnalyst

  const DIMENSIONS: seq<Field> := [Methods, Datasets, Experiments, Limitations]

  /** The dimensions in the order of their names, in which the gaps are filled. */
  const GAP_ORDER: seq<Field> := [Datasets, Experiments, Limitations, Methods]

  // Size limits of backend/models/agent_artifacts.py and backend/models/agent_tasks.py.
  const MAX_CELL_TEXT := 20000
  const MAX_CELL_EVIDENCE := 64
  const MAX_LABEL := 512
  const MAX_CELLS := 1024
  const MAX_EVIDENCE_REFS := 512
  const MAX_LINEAGE := 256
  const MAX_LIST := 128
  const MAX_ID := 256
  const MAX_ISSUES := 512
  const MAX_HYPOTHESIS := 20000
  const MAX_MESSAGE := 4000
  const MAX_REQUIREMENTS := 256

  /** The length of the message on partial inputs without the ids of the documents. */
  const PARTIAL_INPUT_TEXT := 77

  datatype Cell = Cell(dimension: Field, sourceLabel: string, value: string, conditions: string,
                       evidenceIds: seq<string>, unknown: bool)
  datatype Hypothesis = Hypothesis(statement: string, basisIds: seq<string>)

  /** What a synthesis provider drafts; of the four lists of texts only their lengths matter to the gate. */
  datatype ComparisonDraft = ComparisonDraft(cells: seq<Cell>, hypotheses: seq<Hypothesis>, lists: Lists)
  datatype Lists = Lists(consensus: nat, conflicts: nat, limitations: nat, directions: nat)

  datatype Comparison = Comparison(scopeRef: string, cells: seq<Cell>, hypotheses: seq<Hypothesis>,
                                   evidenceRefs: seq<EvidenceRef>, complete: bool, issues: seq<Issue>, status: Status)

  /** The parts of task and scope that the gate reads. */
  datatype RawTask = Task(taskId: string, scopeRef: string, formalReview: bool, acceptedReviews: int)

  predicate IsId(id: string) {
    1 <= |id| <= MAX_ID
  }

  /** A task as `TaskSpec` and `ScopeContext` accept it. */
  type Task = t: RawTask | IsId(t.taskId) && IsId(t.scopeRef) witness Task("t", "s", false, 0)

  // ---------------------------------------------------------------- loading the inputs

  datatype ArtifactRef = ArtifactRef(artifactId: string, version: nat, contentHash: string)
  datatype Artifact =
    | AnalysisArtifact(analysis: Analysis)
    | ComparisonArtifact(comparison: Comparison)
    | OtherArtifact(scope: string, refs: seq<EvidenceRef>)
  datatype Entry = Entry(artifact: Artifact, contentHash: string)
  type Store = map<(string, nat), Entry>

  datatype Inputs = Inputs(documents: seq<Analysis>, issues: seq<Issue>)

  function LoadOne(st: Inputs, ref: ArtifactRef, store: Store, allowed: set<string>): Inputs {
    var key := (ref.artifactId, ref.version);
    if key !in store then st.(issues := st.issues + [Issue(MissingInputArtifact, true)])
    else if store[key].contentHash != ref.contentHash then
      st.(issues := st.issues + [Issue(InputArtifactHashMismatch, true)])
    else if !store[key].artifact.AnalysisArtifact? then
      st.(issues := st.issues + [Issue(WrongInputArtifactType, true)])
    else if store[key].artifact.analysis.documentId !in allowed then
      st.(issues := st.issues + [Issue(InputArtifactOutsideScope, true)])
    else st.(documents := st.documents + [store[key].artifact.analysis])
  }

  function Gather(refs: seq<ArtifactRef>, store: Store, allowed: set<string>): Inputs {
    if refs == [] then Inputs([], [])
    else LoadOne(Gather(refs[..|refs| - 1], store, allowed), refs[|refs| - 1], store, allowed)
  }

  /** The loaded documents by document and artifact id, and the issues. */
  function Load(refs: seq<ArtifactRef>, store: Store, allowed: set<string>): Inputs {
    var gathered := Gather(refs, store, allowed);
    gathered.(documents := SortDocuments(gathered.documents))
  }

  /** `a` comes before `b` by its ids. */
  predicate Precedes(a: Analysis, b: Analysis) {
    StringLess(a.documentId, b.documentId) || (a.documentId == b.documentId && StringLess(a.artifactId, b.artifactId))
  }

  /** Where a stable sort puts `d`: behind the last one that it does not precede. */
  function Position(sorted: seq<Analysis>, d: Analysis): (k: nat)
    ensures k <= |sorted|
    ensures k > 0 ==> !Precedes(d, sorted[k - 1])
    ensures forall i | k <= i < |sorted| :: Precedes(d, sorted[i])
  {
    if sorted == [] then 0
    else if Precedes(d, sorted[|sorted| - 1]) then Position(sorted[..|sorted| - 1], d)
    else |sorted|
  }

  function InsertDocument(sorted: seq<Analysis>, d: Analysis): seq<Analysis> {
    sorted[..Position(sorted, d)] + [d] + sorted[Position(sorted, d)..]
  }

  function SortDocuments(docs: seq<Analysis>): seq<Analysis> {
    if docs == [] then [] else InsertDocument(SortDocuments(docs[..|docs| - 1]), docs[|docs| - 1])
  }

  method LoadDocumentArtifacts(refs: seq<ArtifactRef>, store: Store, allowed: set<string>)
    returns (documents: seq<Analysis>, issues: seq<Issue>)
    ensures Inputs(documents, issues) == Load(refs, store, allowed)
  {
    documents, issues := [], [];
    for i := 0 to |refs|
      invariant Inputs(documents, issues) == Gather(refs[..i], store, allowed)
    {
      assert refs[..i + 1][..i] == refs[..i];
      var key := (refs[i].artifactId, refs[i].version);
      if key !in store {
        issues := issues + [Issue(MissingInputArtifact, true)];
      } else if store[key].contentHash != refs[i].contentHash {
        issues := issues + [Issue(InputArtifactHashMismatch, true)];
      } else if !store[key].artifact.AnalysisArtifact? {
        issues := issues + [Issue(WrongInputArtifactType, true)];
      } else if store[key].artifact.analysis.documentId !in allowed {
        issues := issues + [Issue(InputArtifactOutsideScope, true)];
      } else {
        documents := documents + [store[key].artifact.analysis];
      }
    }
    assert refs[..|refs|] == refs;
    documents := SortDocuments(documents);
  }

  /** The document is a stored, unaltered analysis that `refs` name, of an allowed document. */
  predicate InScope(d: Analysis, refs: seq<ArtifactRef>, store: Store, allowed: set<string>) {
    d.documentId in allowed && exists ref | ref in refs ::
      (ref.artifactId, ref.version) in store
      && store[(ref.artifactId, ref.version)] == Entry(AnalysisArtifact(d), ref.contentHash)
  }

  /** Every loaded document is a stored, unaltered analysis of an allowed document, and they come by their ids. */
  lemma {:induction false} LoadedDocumentsAreInScope(refs: seq<ArtifactRef>, store: Store, allowed: set<string>)
    ensures forall d | d in Load(refs, store, allowed).documents :: InScope(d, refs, store, allowed)
    ensures InOrder(Load(refs, store, allowed).documents)
    ensures var inputs := Load(refs, store, allowed);
            && |inputs.documents| + |inputs.issues| == |refs|
            && (HasError(inputs.issues) <==> exists ref | ref in refs :: !IsValidReference(ref, store, allowed))
  {
    GatheredAreInScope(refs, store, allowed);
    GatheredOrIssue(refs, store, allowed);
    SortedDocuments(Gather(refs, store, allowed).documents);
    SortKeepsDocuments(Gather(refs, store, allowed).documents);
  }

  /** The reference names a stored, unaltered analysis of an allowed document. */
  predicate IsValidReference(ref: ArtifactRef, store: Store, allowed: set<string>) {
    && (ref.artifactId, ref.version) in store && store[(ref.artifactId, ref.version)].contentHash == ref.contentHash
    && store[(ref.artifactId, ref.version)].artifact.AnalysisArtifact?
    && store[(ref.artifactId, ref.version)].artifact.analysis.documentId in allowed
  }

  /** Each reference loads a document or is an error. */
  lemma {:induction false} GatheredOrIssue(refs: seq<ArtifactRef>, store: Store, allowed: set<string>)
    ensures var inputs := Gather(refs, store, allowed);
            && |inputs.documents| + |inputs.issues| == |refs|
            && (HasError(inputs.issues) <==> exists ref | ref in refs :: !IsValidReference(ref, store, allowed))
  {
    if refs != [] {
      var n := |refs| - 1;
      GatheredOrIssue(refs[..n], store, allowed);
      LoadedOrIssue(Gather(refs[..n], store, allowed), refs[n], store, allowed);
      assert refs == refs[..n] + [refs[n]];
    }
  }

  lemma {:induction false} LoadedOrIssue(st: Inputs, ref: ArtifactRef, store: Store, allowed: set<string>)
    ensures var st' := LoadOne(st, ref, store, allowed);
            && |st'.documents| + |st'.issues| == |st.documents| + |st.issues| + 1
            && (HasError(st'.issues) <==> HasError(st.issues) || !IsValidReference(ref, store, allowed))
  {
    ErrorAdded(st.issues, MissingInputArtifact);
    ErrorAdded(st.issues, InputArtifactHashMismatch);
    ErrorAdded(st.issues, WrongInputArtifactType);
    ErrorAdded(st.issues, InputArtifactOutsideScope);
  }

  lemma {:induction false} GatheredAreInScope(refs: seq<ArtifactRef>, store: Store, allowed: set<string>)
    ensures forall d | d in Gather(refs, store, allowed).documents :: InScope(d, refs, store, allowed)
  {
    if refs != [] {
      GatheredAreInScope(refs[..|refs| - 1], store, allowed);
      assert refs == refs[..|refs| - 1] + [refs[|refs| - 1]];
    }
  }

  /** No document comes behind one that it precedes. */
  predicate InOrder(docs: seq<Analysis>) {
    forall i, j | 0 <= i < j < |docs| :: !Precedes(docs[j], docs[i])
  }

  lemma {:induction false} OrderIsTransitive(a: Analysis, b: Analysis, c: Analysis)
    requires !Precedes(b, a) && !Precedes(c, b)
    ensures !Precedes(c, a)
  {
    AtMostIsTransitive(a.documentId, b.documentId, c.documentId);
    AtMostIsTransitive(a.artifactId, b.artifactId, c.artifactId);
  }

  lemma {:induction false} AtMostIsTransitive(a: string, b: string, c: string)
    ensures !StringLess(b, a) && !StringLess(c, b) ==> !StringLess(c, a) && (c == a ==> a == b)
    ensures a == b || StringLess(a, b) || StringLess(b, a)
    ensures b == c || StringLess(b, c) || StringLess(c, b)
  {
    StringOrder(a, b, c);
    StringOrder(b, c, a);
    StringOrder(c, a, b);
  }

  lemma {:induction false} PrecedingIsStrict(a: Analysis, b: Analysis)
    requires Precedes(a, b)
    ensures !Precedes(b, a)
  {
    StringOrder(a.documentId, b.documentId, a.documentId);
    StringOrder(a.artifactId, b.artifactId, a.artifactId);
  }

  lemma {:induction false} InsertedInOrder(sorted: seq<Analysis>, d: Analysis)
    requires InOrder(sorted)
    ensures InOrder(InsertDocument(sorted, d))
  {
    var k := Position(sorted, d);
    forall i | 0 <= i < k
      ensures !Precedes(d, sorted[i])
    {
      if i < k - 1 {
        OrderIsTransitive(sorted[i], sorted[k - 1], d);
      }
    }
    forall i | k <= i < |sorted|
      ensures !Precedes(sorted[i], d)
    {
      PrecedingIsStrict(d, sorted[i]);
    }
  }

  lemma {:induction false} SortedDocuments(docs: seq<Analysis>)
    ensures InOrder(SortDocuments(docs))
  {
    if docs != [] {
      SortedDocuments(docs[..|docs| - 1]);
      InsertedInOrder(SortDocuments(docs[..|docs| - 1]), docs[|docs| - 1]);
    }
  }

  lemma {:induction false} InsertKeepsDocuments(sorted: seq<Analysis>, d: Analysis)
    ensures multiset(InsertDocument(sorted, d)) == multiset(sorted) + multiset{d}
    ensures forall x :: x in InsertDocument(sorted, d) <==> x == d || x in sorted
  {
    var k := Position(sorted, d);
    assert sorted == sorted[..k] + sorted[k..];
  }

  /** Sorting keeps every document as often as it is there. */
  lemma {:induction false} SortKeepsDocuments(docs: seq<Analysis>)
    ensures multiset(SortDocuments(docs)) == multiset(docs) && |SortDocuments(docs)| == |docs|
    ensures forall d :: d in SortDocuments(docs) <==> d in docs
  {
    if docs != [] {
      var n := |docs| - 1;
      assert docs == docs[..n] + [docs[n]];
      SortKeepsDocuments(docs[..n]);
      InsertKeepsDocuments(SortDocuments(docs[..n]), docs[n]);
    }
  }

  /** `refs` name exactly the stored analyses `documents`, all allowed. */
  predicate Names(refs: seq<ArtifactRef>, documents: seq<Analysis>, store: Store, allowed: set<string>) {
    && |refs| == |documents|
    && forall i | 0 <= i < |refs| ::
         && (refs[i].artifactId, refs[i].version) in store
         && store[(refs[i].artifactId, refs[i].version)] == Entry(AnalysisArtifact(documents[i]), refs[i].contentHash)
         && documents[i].documentId in allowed
  }

  lemma {:induction false} ValidReferencesLoad(refs: seq<ArtifactRef>, documents: seq<Analysis>, store: Store,
                                               allowed: set<string>)
    requires Names(refs, documents, store, allowed)
    ensures Load(refs, store, allowed) == Inputs(SortDocuments(documents), [])
  {
    ValidReferencesGather(refs, documents, store, allowed);
  }

  lemma {:induction false} ValidReferencesGather(refs: seq<ArtifactRef>, documents: seq<Analysis>, store: Store,
                                                 allowed: set<string>)
    requires Names(refs, documents, store, allowed)
    ensures Gather(refs, store, allowed) == Inputs(documents, [])
  {
    if refs != [] {
      var n := |refs| - 1;
      ValidReferencesGather(refs[..n], documents[..n], store, allowed);
      assert documents == documents[..n] + [documents[n]];
    }
  }

  // ---------------------------------------------------------------- the gate

  /** A dimension outside the inputs is named in an issue, whose field is limited. */
  predicate DimensionFits(dimension: Field) {
    dimension.OtherField? ==> IsId(dimension.name)
  }

  predicate CellFits(c: Cell) {
    && DimensionFits(c.dimension) && 1 <= |c.sourceLabel| <= MAX_LABEL && |c.value| <= MAX_CELL_TEXT && |c.conditions| <= MAX_CELL_TEXT
    && |c.evidenceIds| <= MAX_CELL_EVIDENCE
  }

  type CellKey = (Field, string)

  function Key(c: Cell): CellKey {
    (c.dimension, c.sourceLabel)
  }

  datatype CellState = CellState(cells: seq<Cell>, issues: seq<Issue>, seen: set<CellKey>)

  predicate Cites(ids: seq<string>, available: set<string>) {
    forall id | id in ids :: id in available
  }

  function CellIssues(c: Cell, available: set<string>): seq<Issue> {
    (if !Cites(c.evidenceIds, available) then [Issue(UnknownComparisonEvidence, true)] else [])
    + (if !c.unknown && (c.value == "" || Known(c.evidenceIds, available) == [])
       then [Issue(UnsupportedComparisonCell, true)] else [])
  }

  function GateCell(st: CellState, c: Cell, labels: set<string>, available: set<string>): CellState {
    if c.dimension !in DIMENSIONS || c.sourceLabel !in labels then
      st.(issues := st.issues + [Issue(ComparisonCellOutsideInputs, true)])
    else if Key(c) in st.seen then
      st.(issues := st.issues + [Issue(DuplicateComparisonCell, true)])
    else
      CellState(st.cells + [c.(evidenceIds := Known(c.evidenceIds, available))],
                st.issues + CellIssues(c, available),
                st.seen + {Key(c)})
  }

  function GateCells(raw: seq<Cell>, labels: set<string>, available: set<string>): CellState {
    if raw == [] then CellState([], [], {})
    else GateCell(GateCells(raw[..|raw| - 1], labels, available), raw[|raw| - 1], labels, available)
  }

  method GateAllCells(raw: seq<Cell>, labels: set<string>, available: set<string>)
    returns (cells: seq<Cell>, issues: seq<Issue>, seen: set<CellKey>)
    ensures CellState(cells, issues, seen) == GateCells(raw, labels, available)
  {
    cells, issues, seen := [], [], {};
    for i := 0 to |raw|
      invariant CellState(cells, issues, seen) == GateCells(raw[..i], labels, available)
    {
      assert raw[..i + 1][..i] == raw[..i];
      var c := raw[i];
      if c.dimension !in DIMENSIONS || c.sourceLabel !in labels {
        issues := issues + [Issue(ComparisonCellOutsideInputs, true)];
      } else if Key(c) in seen {
        issues := issues + [Issue(DuplicateComparisonCell, true)];
      } else {
        seen := seen + {Key(c)};
        issues := issues + CellIssues(c, available);
        cells := cells + [c.(evidenceIds := Known(c.evidenceIds, available))];
      }
    }
    assert raw[..|raw|] == raw;
  }

  function Labels(docs: seq<Analysis>): set<string> {
    set d | d in docs :: d.documentId
  }

  /** An unknown cell for each document of `docs` without one in `dimension`. */
  function GapsIn(dimension: Field, docs: seq<Analysis>, seen: set<CellKey>): seq<Cell> {
    if docs == [] then []
    else
      var n := |docs| - 1;
      var id := docs[n].documentId;
      GapsIn(dimension, docs[..n], seen)
      + if (dimension, id) in seen || id in Labels(docs[..n]) then [] else [Cell(dimension, id, "", "", [], true)]
  }

  function Gaps(dimensions: seq<Field>, docs: seq<Analysis>, seen: set<CellKey>): seq<Cell> {
    if dimensions == [] then []
    else Gaps(dimensions[..|dimensions| - 1], docs, seen) + GapsIn(dimensions[|dimensions| - 1], docs, seen)
  }

  function HypothesisIssues(hs: seq<Hypothesis>, memoryIds: set<string>): seq<Issue> {
    if hs == [] then []
    else HypothesisIssues(hs[..|hs| - 1], memoryIds)
         + if !Cites(hs[|hs| - 1].basisIds, memoryIds) || hs[|hs| - 1].basisIds == []
           then [Issue(UnsupportedResearchHypothesis, true)] else []
  }

  function KnownBasis(hs: seq<Hypothesis>, memoryIds: set<string>): seq<Hypothesis> {
    seq(|hs|, i requires 0 <= i < |hs| => hs[i].(basisIds := Known(hs[i].basisIds, memoryIds)))
  }

  predicate PartialInput(d: Analysis) {
    d.status != Passed || !d.coverageComplete
  }

  function InputIssues(docs: seq<Analysis>, cells: seq<Cell>, task: Task): seq<Issue> {
    (if |docs| < 2 then [Issue(InsufficientDocumentArtifacts, true)] else [])
    + (if exists d | d in docs :: d.status == Failed then [Issue(FailedInputArtifact, true)] else [])
    + (if exists d | d in docs :: PartialInput(d) then [Issue(PartialInputCoverage, false)] else [])
    + (if exists c | c in cells :: c.unknown then [Issue(ComparisonGaps, false)] else [])
    + (if task.formalReview && task.acceptedReviews <= 0 then [Issue(ReviewGateNotSatisfied, true)] else [])
  }

  function AllRefs(docs: seq<Analysis>): seq<EvidenceRef> {
    if docs == [] then [] else AllRefs(docs[..|docs| - 1]) + docs[|docs| - 1].evidenceRefs
  }

  function StatusOf(docs: seq<Analysis>, cells: seq<Cell>, issues: seq<Issue>): Status {
    if HasError(issues) && cells == [] then Failed
    else if HasError(issues) || (exists c | c in cells :: c.unknown) || (exists d | d in docs :: PartialInput(d)) then Partial
    else Passed
  }

  function PartialIds(docs: seq<Analysis>): seq<string> {
    if docs == [] then []
    else PartialIds(docs[..|docs| - 1]) + if PartialInput(docs[|docs| - 1]) then [docs[|docs| - 1].documentId] else []
  }

  /** The message on partial inputs, which names them all, has room. */
  predicate MessageFits(docs: seq<Analysis>) {
    (exists d | d in docs :: PartialInput(d)) ==> PARTIAL_INPUT_TEXT + |Join(", ", PartialIds(docs))| <= MAX_MESSAGE
  }

  predicate HypothesisFits(h: Hypothesis) {
    1 <= |h.statement| <= MAX_HYPOTHESIS && |h.basisIds| <= MAX_LIST
  }

  /** The limits of what the provider drafts. */
  predicate DraftFits(draft: ComparisonDraft) {
    && (forall c | c in draft.cells :: CellFits(c))
    && (forall h | h in draft.hypotheses :: HypothesisFits(h)) && |draft.hypotheses| <= MAX_LIST
    && draft.lists.consensus <= MAX_LIST && draft.lists.conflicts <= MAX_LIST
    && draft.lists.limitations <= MAX_LIST && draft.lists.directions <= MAX_LIST
  }

  /** The limits of what the gate makes of the draft and the inputs. */
  predicate ComparisonFits(docs: seq<Analysis>, cells: seq<Cell>, issues: seq<Issue>) {
    && |cells| <= MAX_CELLS && |AllRefs(docs)| <= MAX_EVIDENCE_REFS && |docs| <= MAX_LINEAGE
    && |issues| <= MAX_ISSUES && MessageFits(docs)
  }

  /** The limits of the task result that is built once the comparison is stored. */
  predicate ResultFits(c: Comparison, task: Task) {
    |task.taskId| + |":1"| <= MAX_ID && |c.issues| <= MAX_REQUIREMENTS
  }

  /** `_verify_comparison` on the loaded documents, up to the stored comparison. */
  function Verify(inputs: Inputs, draft: ComparisonDraft, memoryIds: set<string>, task: Task): Outcome<Comparison> {
    var docs := inputs.documents;
    if !DraftFits(draft) then Rejected
    else
      var gated := GateCells(draft.cells, Labels(docs), RefIds(AllRefs(docs)));
      var cells := gated.cells + Gaps(GAP_ORDER, docs, gated.seen);
      var issues := inputs.issues + HypothesisIssues(draft.hypotheses, memoryIds) + gated.issues
                    + InputIssues(docs, cells, task);
      if !ComparisonFits(docs, cells, issues) then Rejected
      else Stored(Comparison(task.scopeRef, cells, KnownBasis(draft.hypotheses, memoryIds), AllRefs(docs),
                             docs != [] && forall d | d in docs :: d.coverageComplete, issues,
                             StatusOf(docs, cells, issues)))
  }

  method VerifyComparison(inputs: Inputs, draft: ComparisonDraft, memoryIds: set<string>, task: Task)
    returns (r: Outcome<Comparison>)
    ensures r == Verify(inputs, draft, memoryIds, task)
  {
    var docs := inputs.documents;
    if !DraftFits(draft) {
      return Rejected;
    }
    var issues := inputs.issues;
    var hypotheses := HypothesisLoop(draft.hypotheses, memoryIds);
    issues := issues + hypotheses;
    var cells, cellIssues, seen := GateAllCells(draft.cells, Labels(docs), RefIds(AllRefs(docs)));
    issues := issues + cellIssues;
    cells := cells + Gaps(GAP_ORDER, docs, seen);
    issues := issues + InputIssues(docs, cells, task);
    if !ComparisonFits(docs, cells, issues) {
      return Rejected;
    }
    r := Stored(Comparison(task.scopeRef, cells, KnownBasis(draft.hypotheses, memoryIds), AllRefs(docs),
                           docs != [] && forall d | d in docs :: d.coverageComplete, issues,
                           StatusOf(docs, cells, issues)));
  }

  method HypothesisLoop(hs: seq<Hypothesis>, memoryIds: set<string>) returns (issues: seq<Issue>)
    ensures issues == HypothesisIssues(hs, memoryIds)
  {
    issues := [];
    for i := 0 to |hs|
      invariant issues == HypothesisIssues(hs[..i], memoryIds)
    {
      assert hs[..i + 1][..i] == hs[..i];
      if !Cites(hs[i].basisIds, memoryIds) || hs[i].basisIds == [] {
        issues := issues + [Issue(UnsupportedResearchHypothesis, true)];
      }
    }
    assert hs[..|hs|] == hs;
  }

  // ---------------------------------------------------------------- what the gate guarantees for every draft

  predicate DistinctKeys(cells: seq<Cell>) {
    forall i, j | 0 <= i < j < |cells| :: Key(cells[i]) != Key(cells[j])
  }

  predicate Within(cells: seq<Cell>, labels: set<string>) {
    forall c | c in cells :: c.dimension in DIMENSIONS && c.sourceLabel in labels
  }

  function Keys(cells: seq<Cell>): set<CellKey> {
    set c | c in cells :: Key(c)
  }

  lemma {:induction false} GatedCells(raw: seq<Cell>, labels: set<string>, available: set<string>)
    ensures var st := GateCells(raw, labels, available);
            && DistinctKeys(st.cells) && Within(st.cells, labels) && st.seen == Keys(st.cells)
            && (forall c | c in st.cells :: Cites(c.evidenceIds, available))
            && (!HasError(st.issues) ==> forall c | c in st.cells :: c.unknown || (c.value != "" && c.evidenceIds != []))
  {
    if raw != [] {
      var n := |raw| - 1;
      GatedCells(raw[..n], labels, available);
      GatedCell(GateCells(raw[..n], labels, available), raw[n], labels, available);
    }
  }

  predicate CellInv(st: CellState, labels: set<string>, available: set<string>) {
    && DistinctKeys(st.cells) && Within(st.cells, labels) && st.seen == Keys(st.cells)
    && (forall c | c in st.cells :: Cites(c.evidenceIds, available))
    && (!HasError(st.issues) ==> forall c | c in st.cells :: c.unknown || (c.value != "" && c.evidenceIds != []))
  }

  lemma {:induction false} GatedCell(st: CellState, c: Cell, labels: set<string>, available: set<string>)
    requires CellInv(st, labels, available)
    ensures CellInv(GateCell(st, c, labels, available), labels, available)
  {
    var st' := GateCell(st, c, labels, available);
    var kept := c.(evidenceIds := Known(c.evidenceIds, available));
    if st'.cells == st.cells {
      HasErrorAppend(st.issues, st'.issues[|st.issues|..]);
      assert st'.issues == st.issues + st'.issues[|st.issues|..];
    } else {
      assert st'.cells == st.cells + [kept] && Key(kept) == Key(c);
      assert Keys(st'.cells) == Keys(st.cells) + {Key(c)};
      HasErrorAppend(st.issues, CellIssues(c, available));
      if !kept.unknown && (kept.value == "" || kept.evidenceIds == []) {
        assert CellIssues(c, available)[|CellIssues(c, available)| - 1].isError;
      }
    }
  }

  lemma {:induction false} GapsInFill(dimension: Field, docs: seq<Analysis>, seen: set<CellKey>)
    ensures var gaps := GapsIn(dimension, docs, seen);
            && DistinctKeys(gaps)
            && (forall c | c in gaps ::
                  c.unknown && c.evidenceIds == [] && c.dimension == dimension && Key(c) !in seen
                  && c.sourceLabel in Labels(docs))
            && (forall id | id in Labels(docs) :: (dimension, id) in seen || (dimension, id) in Keys(gaps))
  {
    if docs != [] {
      var n := |docs| - 1;
      GapsInFill(dimension, docs[..n], seen);
      assert docs == docs[..n] + [docs[n]];
      var before, gaps := GapsIn(dimension, docs[..n], seen), GapsIn(dimension, docs, seen);
      assert gaps == before || gaps == before + [Cell(dimension, docs[n].documentId, "", "", [], true)];
      assert gaps != before ==> Key(gaps[|before|]) == (dimension, docs[n].documentId);
    }
  }

  lemma {:induction false} KeysAppend(a: seq<Cell>, b: seq<Cell>)
    ensures Keys(a + b) == Keys(a) + Keys(b)
    ensures DistinctKeys(a) && DistinctKeys(b) && Keys(a) !! Keys(b) ==> DistinctKeys(a + b)
  {
    forall i, j | 0 <= i < |a| && 0 <= j < |b|
      ensures Key(a[i]) in Keys(a) && Key(b[j]) in Keys(b)
    {
      assert a[i] in a && b[j] in b;
    }
  }

  lemma {:induction false} GapsFill(dimensions: seq<Field>, docs: seq<Analysis>, seen: set<CellKey>)
    requires forall i, j | 0 <= i < j < |dimensions| :: dimensions[i] != dimensions[j]
    ensures var gaps := Gaps(dimensions, docs, seen);
            && DistinctKeys(gaps)
            && (forall c | c in gaps ::
                  c.unknown && c.evidenceIds == [] && c.dimension in dimensions && Key(c) !in seen
                  && c.sourceLabel in Labels(docs))
            && (forall dimension, id | dimension in dimensions && id in Labels(docs) ::
                  (dimension, id) in seen || (dimension, id) in Keys(gaps))
  {
    if dimensions != [] {
      var n := |dimensions| - 1;
      GapsFill(dimensions[..n], docs, seen);
      GapsInFill(dimensions[n], docs, seen);
      assert dimensions == dimensions[..n] + [dimensions[n]];
      KeysAppend(Gaps(dimensions[..n], docs, seen), GapsIn(dimensions[n], docs, seen));
    }
  }

  lemma {:induction false} GapsAreInDimensions()
    ensures forall dimension :: dimension in GAP_ORDER <==> dimension in DIMENSIONS
  {
  }

  /** Each pair of a dimension and an input document has exactly one cell, and there is no other cell. */
  predicate ExactTable(cells: seq<Cell>, docs: seq<Analysis>) {
    && DistinctKeys(cells) && Within(cells, Labels(docs))
    && forall dimension, id | dimension in DIMENSIONS && id in Labels(docs) :: (dimension, id) in Keys(cells)
  }

  lemma {:induction false} TableIsExact(docs: seq<Analysis>, raw: seq<Cell>)
    ensures var gated := GateCells(raw, Labels(docs), RefIds(AllRefs(docs)));
            var cells := gated.cells + Gaps(GAP_ORDER, docs, gated.seen);
            && ExactTable(cells, docs)
            && (forall c | c in cells :: Cites(c.evidenceIds, RefIds(AllRefs(docs))))
            && (!HasError(gated.issues) ==> forall c | c in cells :: c.unknown || (c.value != "" && c.evidenceIds != []))
  {
    var gated := GateCells(raw, Labels(docs), RefIds(AllRefs(docs)));
    GatedCells(raw, Labels(docs), RefIds(AllRefs(docs)));
    GapsAreInDimensions();
    GapsFill(GAP_ORDER, docs, gated.seen);
    KeysAppend(gated.cells, Gaps(GAP_ORDER, docs, gated.seen));
  }

  lemma {:induction false} TableIsEmptyWithoutDocuments(cells: seq<Cell>, docs: seq<Analysis>)
    requires ExactTable(cells, docs)
    ensures cells == [] <==> docs == []
  {
    if docs != [] {
      assert docs[0].documentId in Labels(docs) && DIMENSIONS[0] in DIMENSIONS;
      assert (DIMENSIONS[0], docs[0].documentId) in Keys(cells);
    } else {
      HasMember(cells);
    }
  }

  lemma {:induction false} HasMember<T>(s: seq<T>)
    ensures s == [] || exists x :: x in s
  {
    if s != [] {
      assert s[0] in s;
    }
  }

  lemma {:induction false} IssuesOfTheInputs(docs: seq<Analysis>, cells: seq<Cell>, task: Task)
    ensures HasError(InputIssues(docs, cells, task)) <==>
              || |docs| < 2
              || (exists d | d in docs :: d.status == Failed)
              || (task.formalReview && task.acceptedReviews <= 0)
  {
    var issues := InputIssues(docs, cells, task);
    if |docs| < 2 {
      assert issues[0].isError;
    } else if exists d | d in docs :: d.status == Failed {
      assert issues[0].isError;
    } else if task.formalReview && task.acceptedReviews <= 0 {
      assert issues[|issues| - 1].isError;
    }
  }

  /**
   * Whatever the provider drafts: a stored comparison has exactly one cell for each dimension and input document, its
   * cells cite only evidence of the inputs; it is FAILED exactly when there are no documents; when it is PASSED there
   * are two or more inputs, all passed and complete, and every cell has a value and evidence.
   */
  lemma {:induction false} GateHolds(inputs: Inputs, draft: ComparisonDraft, memoryIds: set<string>, task: Task)
    ensures var r := Verify(inputs, draft, memoryIds, task);
            var docs := inputs.documents;
            r.Stored? ==>
              var c := r.value;
              && ExactTable(c.cells, docs)
              && (forall cell | cell in c.cells :: Cites(cell.evidenceIds, RefIds(c.evidenceRefs)))
              && c.evidenceRefs == AllRefs(docs)
              && (c.complete <==> docs != [] && forall d | d in docs :: d.coverageComplete)
              && (c.status == Failed <==> docs == [])
              && (c.status == Passed ==>
                  && |docs| >= 2 && c.complete
                  && (forall d | d in docs :: d.status == Passed && d.coverageComplete)
                  && (forall cell | cell in c.cells :: !cell.unknown && cell.value != "" && cell.evidenceIds != [])
                  && !HasError(inputs.issues)
                  && (task.formalReview ==> task.acceptedReviews > 0))
  {
    var r := Verify(inputs, draft, memoryIds, task);
    if r.Stored? {
      var docs := inputs.documents;
      var gated := GateCells(draft.cells, Labels(docs), RefIds(AllRefs(docs)));
      TableIsExact(docs, draft.cells);
      TableIsEmptyWithoutDocuments(r.value.cells, docs);
      IssuesOfTheInputs(docs, r.value.cells, task);
      var early := inputs.issues + HypothesisIssues(draft.hypotheses, memoryIds);
      HasErrorAppend(inputs.issues, HypothesisIssues(draft.hypotheses, memoryIds));
      HasErrorAppend(early, gated.issues);
      HasErrorAppend(early + gated.issues, InputIssues(docs, r.value.cells, task));
    }
  }

  // ---------------------------------------------------------------- the deterministic producer

  function CellFor(d: Analysis, dimension: Field): Cell {
    var values := Lookup(d.fields, dimension);
    Cell(dimension, d.documentId, Join("\n", values),
         if dimension == Experiments then Join("; ", Lookup(d.fields, Datasets)) else "",
         Lookup(d.fieldEvidence, dimension), values == [])
  }

  function CellsFor(d: Analysis, dimensions: seq<Field>): seq<Cell> {
    seq(|dimensions|, i requires 0 <= i < |dimensions| => CellFor(d, dimensions[i]))
  }

  function AllCells(docs: seq<Analysis>): seq<Cell> {
    if docs == [] then [] else AllCells(docs[..|docs| - 1]) + CellsFor(docs[|docs| - 1], DIMENSIONS)
  }

  function LimitationsOf(docs: seq<Analysis>): set<string> {
    set d, v | d in docs && v in Lookup(d.fields, Limitations) :: v
  }

  /** A hypothesis for each authorised memory item of a hypothesis kind, with that item as its basis. */
  datatype MemoryItem = MemoryItem(itemId: string, text: string, isHypothesis: bool)

  function HypothesesFrom(memory: seq<MemoryItem>): seq<Hypothesis> {
    if memory == [] then []
    else HypothesesFrom(memory[..|memory| - 1])
         + if memory[|memory| - 1].isHypothesis
           then [Hypothesis(memory[|memory| - 1].text, [memory[|memory| - 1].itemId])] else []
  }

  function MemoryIds(memory: seq<MemoryItem>): set<string> {
    set m | m in memory :: m.itemId
  }

  /** The values that the documents have in `dimension`. */
  function ValuesIn(docs: seq<Analysis>, dimension: Field): seq<string> {
    if docs == [] then []
    else
      var value := CellFor(docs[|docs| - 1], dimension).value;
      ValuesIn(docs[..|docs| - 1], dimension) + if value != "" then [value] else []
  }

  function DistinctValues(values: seq<string>): set<string> {
    set v | v in values :: v
  }

  predicate Agree(docs: seq<Analysis>, dimension: Field) {
    var values := ValuesIn(docs, dimension);
    |values| == |docs| && |DistinctValues(values)| == 1
  }

  predicate Differ(docs: seq<Analysis>, dimension: Field) {
    |DistinctValues(ValuesIn(docs, dimension))| > 1
  }

  function Agreements(docs: seq<Analysis>, dimensions: seq<Field>): (n: nat)
    ensures n <= |dimensions|
  {
    if dimensions == [] then 0 else Agreements(docs, dimensions[1..]) + if Agree(docs, dimensions[0]) then 1 else 0
  }

  function Differences(docs: seq<Analysis>, dimensions: seq<Field>): (n: nat)
    ensures n <= |dimensions|
  {
    if dimensions == [] then 0 else Differences(docs, dimensions[1..]) + if Differ(docs, dimensions[0]) then 1 else 0
  }

  function Synthesize(docs: seq<Analysis>, memory: seq<MemoryItem>): ComparisonDraft {
    ComparisonDraft(AllCells(docs), HypothesesFrom(memory),
                    Lists(Agreements(docs, DIMENSIONS), Differences(docs, DIMENSIONS), |LimitationsOf(docs)|, 0))
  }

  lemma {:induction false} OneMoreCell(d: Analysis, k: nat)
    requires k < |DIMENSIONS|
    ensures CellsFor(d, DIMENSIONS[..k + 1]) == CellsFor(d, DIMENSIONS[..k]) + [CellFor(d, DIMENSIONS[k])]
  {
  }

  method SynthesizeCells(docs: seq<Analysis>) returns (cells: seq<Cell>)
    ensures cells == AllCells(docs)
  {
    cells := [];
    for i := 0 to |docs|
      invariant cells == AllCells(docs[..i])
    {
      assert docs[..i + 1][..i] == docs[..i];
      for k := 0 to |DIMENSIONS|
        invariant cells == AllCells(docs[..i]) + CellsFor(docs[i], DIMENSIONS[..k])
      {
        OneMoreCell(docs[i], k);
        cells := cells + [CellFor(docs[i], DIMENSIONS[k])];
      }
      assert DIMENSIONS[..|DIMENSIONS|] == DIMENSIONS;
    }
    assert docs[..|docs|] == docs;
  }

  // ---------------------------------------------------------------- what the cells report

  /** The cell says what the analysis says of the dimension: its values, under its evidence and with its conditions. */
  predicate Reports(c: Cell, d: Analysis, dimension: Field) {
    && c.dimension == dimension && c.sourceLabel == d.documentId && !c.unknown
    && dimension in d.fields && c.value == Join("\n", d.fields[dimension])
    && dimension in d.fieldEvidence && c.evidenceIds == d.fieldEvidence[dimension]
    && c.conditions
       == if dimension.Experiments? && Datasets in d.fields then Join("; ", d.fields[Datasets]) else ""
  }

  /** The four cells of the document: methods, datasets, experiments and limitations. */
  predicate ReportsAll(cells: seq<Cell>, i: nat, d: Analysis) {
    && 4 * i + 4 <= |cells|
    && Reports(cells[4 * i], d, Methods) && Reports(cells[4 * i + 1], d, Datasets)
    && Reports(cells[4 * i + 2], d, Experiments) && Reports(cells[4 * i + 3], d, Limitations)
  }

  /** Four cells for each document, in the order of the documents. */
  predicate IsTableOf(cells: seq<Cell>, docs: seq<Analysis>) {
    |cells| == 4 * |docs| && forall i | 0 <= i < |docs| :: ReportsAll(cells, i, docs[i])
  }

  lemma {:induction false} DocumentIsReported(d: Analysis)
    requires Ready(d)
    ensures ReportsAll(CellsFor(d, DIMENSIONS), 0, d)
  {
    assert Supported(d, DIMENSIONS[0]) && Supported(d, DIMENSIONS[1]) && Supported(d, DIMENSIONS[2])
        && Supported(d, DIMENSIONS[3]);
  }

  lemma {:induction false} ReportedBehind(before: seq<Cell>, cells: seq<Cell>, i: nat, d: Analysis)
    requires ReportsAll(cells, 0, d) && |before| == 4 * i && |cells| == 4
    ensures ReportsAll(before + cells, i, d)
  {
  }

  lemma {:induction false} StillReported(before: seq<Cell>, cells: seq<Cell>, i: nat, d: Analysis)
    requires ReportsAll(before, i, d)
    ensures ReportsAll(before + cells, i, d)
  {
  }

  lemma {:induction false} TableBehind(before: seq<Cell>, cells: seq<Cell>, docs: seq<Analysis>, d: Analysis)
    requires IsTableOf(before, docs) && ReportsAll(cells, 0, d) && |cells| == 4
    ensures IsTableOf(before + cells, docs + [d])
  {
    ReportedBehind(before, cells, |docs|, d);
    forall i | 0 <= i < |docs|
      ensures ReportsAll(before + cells, i, docs[i])
    {
      StillReported(before, cells, i, docs[i]);
    }
  }

  lemma {:induction false} AllCellsReport(docs: seq<Analysis>)
    requires forall d | d in docs :: Ready(d)
    ensures IsTableOf(AllCells(docs), docs)
  {
    forall i | 0 <= i < |docs|
      ensures IsReported(docs[i])
    {
      DocumentIsReported(docs[i]);
    }
    TableOfReported(docs);
  }

  predicate IsReported(d: Analysis) {
    ReportsAll(CellsFor(d, DIMENSIONS), 0, d)
  }

  lemma {:induction false} TableOfReported(docs: seq<Analysis>)
    requires forall i | 0 <= i < |docs| :: IsReported(docs[i])
    ensures IsTableOf(AllCells(docs), docs)
  {
    if docs != [] {
      var n := |docs| - 1;
      TableOfReported(docs[..n]);
      TableBehind(AllCells(docs[..n]), CellsFor(docs[n], DIMENSIONS), docs[..n], docs[n]);
      assert docs == docs[..n] + [docs[n]];
    }
  }

  /** Every cell of the table reports a dimension of one of the documents. */
  lemma {:induction false} CellReportsSome(cells: seq<Cell>, docs: seq<Analysis>, k: nat) returns (d: Analysis, dimension: Field)
    requires IsTableOf(cells, docs) && k < |cells|
    ensures d in docs && dimension in {Methods, Datasets, Experiments, Limitations} && Reports(cells[k], d, dimension)
  {
    d := docs[k / 4];
    dimension := [Methods, Datasets, Experiments, Limitations][k % 4];
    assert ReportsAll(cells, k / 4, docs[k / 4]);
    assert k == 4 * (k / 4) + k % 4;
  }

  // ---------------------------------------------------------------- what passes the analyst passes here

  predicate DistinctDocuments(docs: seq<Analysis>) {
    forall i, j | 0 <= i < j < |docs| :: docs[i].documentId != docs[j].documentId
  }

  /** What the analyst's gate guarantees of a passed analysis, as far as the comparison reads it. */
  predicate Ready(d: Analysis) {
    && d.status == Passed && d.coverageComplete && Grounded(d)
    && forall k | 0 <= k < |DIMENSIONS| :: Supported(d, DIMENSIONS[k])
  }

  /** A draft cell that the gate takes over unchanged. */
  predicate Clean(c: Cell, labels: set<string>, available: set<string>) {
    && c.dimension in DIMENSIONS && c.sourceLabel in labels && Cites(c.evidenceIds, available)
    && !c.unknown && c.value != "" && c.evidenceIds != []
  }

  lemma {:induction false} CleanCellsPass(raw: seq<Cell>, labels: set<string>, available: set<string>)
    requires DistinctKeys(raw) && forall c | c in raw :: Clean(c, labels, available)
    ensures GateCells(raw, labels, available) == CellState(raw, [], Keys(raw))
  {
    if raw != [] {
      var n := |raw| - 1;
      assert raw == raw[..n] + [raw[n]];
      CleanCellsPass(raw[..n], labels, available);
      KeysAppend(raw[..n], [raw[n]]);
      assert Keys([raw[n]]) == {Key(raw[n])};
      assert Key(raw[n]) !in Keys(raw[..n]);
    }
  }

  lemma {:induction false} ReadyCellIsClean(d: Analysis, k: nat, labels: set<string>, available: set<string>)
    requires Ready(d) && k < |DIMENSIONS| && d.documentId in labels && RefIds(d.evidenceRefs) <= available
    ensures Clean(CellFor(d, DIMENSIONS[k]), labels, available)
    ensures Strip(CellFor(d, DIMENSIONS[k]).value) != ""
  {
    assert Supported(d, DIMENSIONS[k]);
    JoinOfValuesIsNotBlank("\n", Lookup(d.fields, DIMENSIONS[k]));
  }

  lemma {:induction false} ReadyDocumentIsClean(d: Analysis, labels: set<string>, available: set<string>)
    requires Ready(d) && d.documentId in labels && RefIds(d.evidenceRefs) <= available
    ensures forall c | c in CellsFor(d, DIMENSIONS) :: Clean(c, labels, available) && Strip(c.value) != ""
  {
    forall k | 0 <= k < |DIMENSIONS|
      ensures Clean(CellFor(d, DIMENSIONS[k]), labels, available) && Strip(CellFor(d, DIMENSIONS[k]).value) != ""
    {
      ReadyCellIsClean(d, k, labels, available);
    }
  }

  lemma {:induction false} ReadyCells(docs: seq<Analysis>, labels: set<string>, available: set<string>)
    requires (forall d | d in docs :: Ready(d)) && Labels(docs) <= labels && RefIds(AllRefs(docs)) <= available
    ensures forall c | c in AllCells(docs) :: Clean(c, labels, available) && Strip(c.value) != ""
  {
    if docs != [] {
      var n := |docs| - 1;
      assert docs == docs[..n] + [docs[n]];
      assert RefIds(AllRefs(docs)) == RefIds(AllRefs(docs[..n])) + RefIds(docs[n].evidenceRefs);
      assert docs[n].documentId in Labels(docs);
      ReadyCells(docs[..n], labels, available);
      ReadyDocumentIsClean(docs[n], labels, available);
    }
  }

  lemma {:induction false} KeysOfAllCells(docs: seq<Analysis>)
    requires DistinctDocuments(docs)
    ensures DistinctKeys(AllCells(docs))
    ensures forall key :: key in Keys(AllCells(docs)) <==> key.0 in DIMENSIONS && key.1 in Labels(docs)
  {
    if docs != [] {
      var n := |docs| - 1;
      assert docs == docs[..n] + [docs[n]];
      KeysOfAllCells(docs[..n]);
      KeysAppend(AllCells(docs[..n]), CellsFor(docs[n], DIMENSIONS));
      KeysOfDocument(docs[n]);
      assert docs[n].documentId !in Labels(docs[..n]);
      assert Labels(docs) == Labels(docs[..n]) + {docs[n].documentId};
    }
  }

  lemma {:induction false} KeysOfDocument(d: Analysis)
    ensures DistinctKeys(CellsFor(d, DIMENSIONS))
    ensures forall key :: key in Keys(CellsFor(d, DIMENSIONS)) <==> key.0 in DIMENSIONS && key.1 == d.documentId
  {
    var cells := CellsFor(d, DIMENSIONS);
    forall k | 0 <= k < |DIMENSIONS|
      ensures Key(cells[k]) == (DIMENSIONS[k], d.documentId) && Key(cells[k]) in Keys(cells)
    {
      assert cells[k] in cells;
    }
  }

  lemma {:induction false} MemoryHypothesesPass(memory: seq<MemoryItem>, ids: set<string>)
    requires MemoryIds(memory) <= ids
    ensures HypothesisIssues(HypothesesFrom(memory), ids) == []
  {
    if memory != [] {
      var n := |memory| - 1;
      assert memory == memory[..n] + [memory[n]];
      MemoryHypothesesPass(memory[..n], ids);
      var before := HypothesesFrom(memory[..n]);
      assert before + [] == before;
      if memory[n].isHypothesis {
        var added := Hypothesis(memory[n].text, [memory[n].itemId]);
        assert memory[n] in memory && Cites(added.basisIds, ids);
        assert (before + [added])[..|before|] == before;
      }
    }
  }

  lemma {:induction false} NoGapsWhenSeen(dimensions: seq<Field>, docs: seq<Analysis>, seen: set<CellKey>)
    requires forall i, j | 0 <= i < j < |dimensions| :: dimensions[i] != dimensions[j]
    requires forall dimension, id | dimension in dimensions && id in Labels(docs) :: (dimension, id) in seen
    ensures Gaps(dimensions, docs, seen) == []
  {
    GapsFill(dimensions, docs, seen);
    assert forall c | c in Gaps(dimensions, docs, seen) :: Key(c) == (c.dimension, c.sourceLabel);
    HasMember(Gaps(dimensions, docs, seen));
  }

  /** The reviews that a formal objective asks for have been accepted. */
  predicate ReviewsAccepted(task: Task) {
    task.formalReview ==> task.acceptedReviews > 0
  }

  /** The size limits, read off the inputs of a deterministic comparison: their number, evidence, values and limitations. */
  predicate InputsFit(docs: seq<Analysis>, memory: seq<MemoryItem>) {
    && (forall c | c in AllCells(docs) :: CellFits(c)) && |LimitationsOf(docs)| <= MAX_LIST
    && (forall h | h in HypothesesFrom(memory) :: HypothesisFits(h)) && |HypothesesFrom(memory)| <= MAX_LIST
    && |AllCells(docs)| <= MAX_CELLS && |AllRefs(docs)| <= MAX_EVIDENCE_REFS && |docs| <= MAX_LINEAGE
  }

  lemma {:induction false} InputsFitExactly(docs: seq<Analysis>, memory: seq<MemoryItem>)
    requires forall d | d in docs :: Ready(d)
    ensures InputsFit(docs, memory) <==> DraftFits(Synthesize(docs, memory)) && ComparisonFits(docs, AllCells(docs), [])
  {
    assert forall d | d in docs :: !PartialInput(d);
  }

  /**
   * For two or more distinct documents whose analyses passed, and an objective that asks for no formal review or has its
   * reviews, the deterministic comparison is stored exactly when the inputs respect the size limits of the artifact
   * models, and then it is PASSED without any issue, and its cells report what the analyses say. Its result is delivered
   * exactly for task ids of up to 254 characters.
   */
  lemma {:induction false} DeterministicComparisonPasses(docs: seq<Analysis>, memory: seq<MemoryItem>, task: Task)
    requires |docs| >= 2 && DistinctDocuments(docs) && (forall d | d in docs :: Ready(d)) && ReviewsAccepted(task)
    ensures var r := Verify(Inputs(docs, []), Synthesize(docs, memory), MemoryIds(memory), task);
            && (r.Stored? <==> InputsFit(docs, memory))
            && (r.Stored? ==>
                && (ResultFits(r.value, task) <==> |task.taskId| <= 254)
                && r.value.status == Passed && r.value.issues == [] && r.value.cells == AllCells(docs)
                && IsTableOf(r.value.cells, docs)
                && r.value.complete && forall c | c in r.value.cells :: Strip(c.value) != "")
  {
    AllCellsReport(docs);
    ReadyCells(docs, Labels(docs), RefIds(AllRefs(docs)));
    ReadyCellsPass(docs);
    MemoryHypothesesPass(memory, MemoryIds(memory));
    InputsFitExactly(docs, memory);
    SynthesizedPasses(docs, memory, Synthesize(docs, memory), AllCells(docs), MemoryIds(memory), task);
  }

  lemma {:induction false} SynthesizedPasses(docs: seq<Analysis>, memory: seq<MemoryItem>, draft: ComparisonDraft,
                                             cells: seq<Cell>, ids: set<string>, task: Task)
    requires |docs| >= 2 && (forall d | d in docs :: Ready(d)) && ReviewsAccepted(task)
    requires draft.cells == cells && HypothesisIssues(draft.hypotheses, ids) == []
    requires GateCells(cells, Labels(docs), RefIds(AllRefs(docs))) == CellState(cells, [], Keys(cells))
    requires Gaps(GAP_ORDER, docs, Keys(cells)) == [] && forall c | c in cells :: !c.unknown
    requires InputsFit(docs, memory) <==> DraftFits(draft) && ComparisonFits(docs, cells, [])
    ensures var r := Verify(Inputs(docs, []), draft, ids, task);
            && (r.Stored? <==> InputsFit(docs, memory))
            && (r.Stored? ==>
                && (ResultFits(r.value, task) <==> |task.taskId| <= 254)
                && r.value.status == Passed && r.value.issues == [] && r.value.cells == cells && r.value.complete)
  {
    PassesUnchanged(docs, draft, ids, task);
  }

  lemma {:induction false} ReadyCellsPass(docs: seq<Analysis>)
    requires DistinctDocuments(docs) && forall d | d in docs :: Ready(d)
    ensures GateCells(AllCells(docs), Labels(docs), RefIds(AllRefs(docs))) == CellState(AllCells(docs), [], Keys(AllCells(docs)))
    ensures Gaps(GAP_ORDER, docs, Keys(AllCells(docs))) == []
    ensures forall c | c in AllCells(docs) :: !c.unknown
  {
    ReadyCells(docs, Labels(docs), RefIds(AllRefs(docs)));
    KeysOfAllCells(docs);
    CleanDraftPasses(docs, AllCells(docs));
  }

  /** A draft of clean cells, one for each pair, goes through the gate unchanged and leaves no gap. */
  lemma {:induction false} CleanDraftPasses(docs: seq<Analysis>, cells: seq<Cell>)
    requires DistinctKeys(cells)
    requires forall c | c in cells :: Clean(c, Labels(docs), RefIds(AllRefs(docs)))
    requires forall dimension, id | dimension in DIMENSIONS && id in Labels(docs) :: (dimension, id) in Keys(cells)
    ensures GateCells(cells, Labels(docs), RefIds(AllRefs(docs))) == CellState(cells, [], Keys(cells))
    ensures Gaps(GAP_ORDER, docs, Keys(cells)) == []
    ensures forall c | c in cells :: !c.unknown
  {
    CleanCellsPass(cells, Labels(docs), RefIds(AllRefs(docs)));
    GapsAreInDimensions();
    NoGapsWhenSeen(GAP_ORDER, docs, Keys(cells));
  }

  lemma {:induction false} PassesUnchanged(docs: seq<Analysis>, draft: ComparisonDraft, memoryIds: set<string>, task: Task)
    requires |docs| >= 2 && ReviewsAccepted(task) && (forall d | d in docs :: d.status == Passed && d.coverageComplete)
    requires GateCells(draft.cells, Labels(docs), RefIds(AllRefs(docs))) == CellState(draft.cells, [], Keys(draft.cells))
    requires Gaps(GAP_ORDER, docs, Keys(draft.cells)) == [] && HypothesisIssues(draft.hypotheses, memoryIds) == []
    requires forall c | c in draft.cells :: !c.unknown
    ensures var r := Verify(Inputs(docs, []), draft, memoryIds, task);
            && (r.Stored? <==> DraftFits(draft) && ComparisonFits(docs, draft.cells, []))
            && (r.Stored? ==> (ResultFits(r.value, task) <==> |task.taskId| <= 254)
                              && r.value.status == Passed && r.value.issues == [] && r.value.cells == draft.cells
                              && r.value.complete && r.value.evidenceRefs == AllRefs(docs) && r.value.scopeRef == task.scopeRef)
  {
    assert draft.cells + [] == draft.cells;
    assert InputIssues(docs, draft.cells, task) == [];
  }

  lemma {:induction false} RefsOfMember(docs: seq<Analysis>, k: nat)
    requires k < |docs|
    ensures RefIds(docs[k].evidenceRefs) <= RefIds(AllRefs(docs))
  {
    var n := |docs| - 1;
    if k < n {
      RefsOfMember(docs[..n], k);
    }
  }

  /** All of `docs` analyse one and the same document. */
  predicate OneDocument(docs: seq<Analysis>) {
    docs != [] && forall d | d in docs :: Ready(d) && d.documentId == docs[0].documentId
  }

  lemma {:induction false} SharedDocumentCells(docs: seq<Analysis>)
    requires OneDocument(docs)
    ensures var cells := CellsFor(docs[0], DIMENSIONS);
            && DistinctKeys(cells)
            && (forall c | c in cells :: Clean(c, Labels(docs), RefIds(AllRefs(docs))))
            && (forall dimension, id | dimension in DIMENSIONS && id in Labels(docs) :: (dimension, id) in Keys(cells))
  {
    RefsOfMember(docs, 0);
    assert docs[0] in docs;
    ReadyDocumentIsClean(docs[0], Labels(docs), RefIds(AllRefs(docs)));
    KeysOfDocument(docs[0]);
  }

  /**
   * The gate counts artifacts, not documents: two or more passed analyses of one document and a cell for each
   * dimension are a PASSED comparison, when they fit.
   */
  lemma {:induction false} AnalysesOfOneDocumentPass(docs: seq<Analysis>, task: Task)
    requires |docs| >= 2 && OneDocument(docs) && ReviewsAccepted(task)
    ensures var draft := ComparisonDraft(CellsFor(docs[0], DIMENSIONS), [], Lists(0, 0, 0, 0));
            var r := Verify(Inputs(docs, []), draft, {}, task);
            && Labels(docs) == {docs[0].documentId}
            && (r.Stored? <==> DraftFits(draft) && ComparisonFits(docs, draft.cells, []))
            && (r.Stored? ==> r.value.status == Passed && (ResultFits(r.value, task) <==> |task.taskId| <= 254))
  {
    assert docs[0] in docs;
    SharedDocumentCells(docs);
    CleanCellsArePassed(docs, CellsFor(docs[0], DIMENSIONS), task);
  }

  lemma {:induction false} CleanCellsArePassed(docs: seq<Analysis>, cells: seq<Cell>, task: Task)
    requires |docs| >= 2 && (forall d | d in docs :: Ready(d)) && ReviewsAccepted(task) && DistinctKeys(cells)
    requires forall c | c in cells :: Clean(c, Labels(docs), RefIds(AllRefs(docs)))
    requires forall dimension, id | dimension in DIMENSIONS && id in Labels(docs) :: (dimension, id) in Keys(cells)
    ensures var draft := ComparisonDraft(cells, [], Lists(0, 0, 0, 0));
            var r := Verify(Inputs(docs, []), draft, {}, task);
            && (r.Stored? <==> DraftFits(draft) && ComparisonFits(docs, cells, []))
            && (r.Stored? ==> r.value.status == Passed && (ResultFits(r.value, task) <==> |task.taskId| <= 254))
  {
    CleanDraftPasses(docs, cells);
    PassesUnchanged(docs, ComparisonDraft(cells, [], Lists(0, 0, 0, 0)), {}, task);
  }

  // ---------------------------------------------------------------- the order of the inputs

  lemma {:induction false} LabelsByMembers(a: seq<Analysis>, b: seq<Analysis>)
    requires forall d :: d in a <==> d in b
    ensures Labels(a) == Labels(b)
  {
  }

  lemma {:induction false} InsertedIsDistinct(sorted: seq<Analysis>, d: Analysis)
    requires DistinctDocuments(sorted) && d.documentId !in Labels(sorted)
    ensures DistinctDocuments(InsertDocument(sorted, d))
  {
    forall i | 0 <= i < |sorted|
      ensures sorted[i].documentId != d.documentId
    {
      assert sorted[i] in sorted;
    }
  }

  lemma {:induction false} SortedAreDistinct(docs: seq<Analysis>)
    requires DistinctDocuments(docs)
    ensures DistinctDocuments(SortDocuments(docs))
  {
    if docs != [] {
      var n := |docs| - 1;
      SortedAreDistinct(docs[..n]);
      SortKeepsDocuments(docs[..n]);
      LabelsByMembers(SortDocuments(docs[..n]), docs[..n]);
      InsertedIsDistinct(SortDocuments(docs[..n]), docs[n]);
    }
  }

  lemma {:induction false} ReferencesByMembers(docs: seq<Analysis>, id: string)
    ensures id in RefIds(AllRefs(docs)) <==> exists d | d in docs :: id in RefIds(d.evidenceRefs)
  {
    if docs != [] {
      var n := |docs| - 1;
      assert docs == docs[..n] + [docs[n]];
      assert RefIds(AllRefs(docs)) == RefIds(AllRefs(docs[..n])) + RefIds(docs[n].evidenceRefs);
      ReferencesByMembers(docs[..n], id);
    }
  }

  lemma {:induction false} SortedReferences(docs: seq<Analysis>, id: string)
    ensures id in RefIds(AllRefs(SortDocuments(docs))) <==> id in RefIds(AllRefs(docs))
  {
    SortKeepsDocuments(docs);
    ReferencesByMembers(docs, id);
    ReferencesByMembers(SortDocuments(docs), id);
  }

  // ---------------------------------------------------------------- how many documents a PASSED comparison covers

  /** The documents that the cells of a comparison speak of. */
  function Covered(cells: seq<Cell>): set<string> {
    set c | c in cells :: c.sourceLabel
  }

  lemma {:induction false} TableCoversItsDocuments(cells: seq<Cell>, docs: seq<Analysis>)
    requires ExactTable(cells, docs)
    ensures Covered(cells) == Labels(docs)
  {
    forall id | id in Labels(docs)
      ensures id in Covered(cells)
    {
      assert DIMENSIONS[0] in DIMENSIONS && (DIMENSIONS[0], id) in Keys(cells);
      var c :| c in cells && Key(c) == (DIMENSIONS[0], id);
      assert c.sourceLabel == id;
    }
  }

  /**
   * Whatever the provider drafts: the comparison covers exactly the documents of its inputs, so that a PASSED one covers
   * two or more documents exactly if its inputs, of which there are at least two, are of two or more documents.
   */
  lemma {:induction false} PassedCoversTwoDocumentsExactly(inputs: Inputs, draft: ComparisonDraft, memoryIds: set<string>,
                                                           task: Task)
    ensures var r := Verify(inputs, draft, memoryIds, task);
            r.Stored? ==>
              && Covered(r.value.cells) == Labels(inputs.documents)
              && (r.value.status == Passed ==> (|Covered(r.value.cells)| >= 2 <==> |Labels(inputs.documents)| >= 2))
  {
    var r := Verify(inputs, draft, memoryIds, task);
    if r.Stored? {
      TableIsExact(inputs.documents, draft.cells);
      TableCoversItsDocuments(r.value.cells, inputs.documents);
    }
  }

  lemma {:induction false} NoErrorKeepsAll(raw: seq<Cell>, labels: set<string>, available: set<string>)
    requires !HasError(GateCells(raw, labels, available).issues)
    ensures DistinctKeys(raw) && GateCells(raw, labels, available).seen == Keys(raw)
  {
    if raw != [] {
      var n := |raw| - 1;
      LastGated(raw, labels, available);
      GateOneMore(GateCells(raw[..n], labels, available), raw[n], labels, available);
      NoErrorKeepsAll(raw[..n], labels, available);
      KeysOneMore(raw[..n], raw[n]);
      assert raw == raw[..n] + [raw[n]];
    }
  }

  /** A cell that raises no error is new, and leaves the earlier issues. */
  lemma {:induction false} GateOneMore(st: CellState, c: Cell, labels: set<string>, available: set<string>)
    requires !HasError(GateCell(st, c, labels, available).issues)
    ensures !HasError(st.issues) && Key(c) !in st.seen && GateCell(st, c, labels, available).seen == st.seen + {Key(c)}
  {
    var st' := GateCell(st, c, labels, available);
    assert st'.issues == st.issues + st'.issues[|st.issues|..];
    HasErrorAppend(st.issues, st'.issues[|st.issues|..]);
    ErrorAdded(st.issues, ComparisonCellOutsideInputs);
    ErrorAdded(st.issues, DuplicateComparisonCell);
  }

  lemma {:induction false} ErrorAdded(issues: seq<Issue>, code: IssueCode)
    ensures HasError(issues + [Issue(code, true)])
  {
    assert (issues + [Issue(code, true)])[|issues|].isError;
  }

  lemma {:induction false} KeysOneMore(cells: seq<Cell>, c: Cell)
    ensures Keys(cells + [c]) == Keys(cells) + {Key(c)}
    ensures DistinctKeys(cells) && Key(c) !in Keys(cells) ==> DistinctKeys(cells + [c])
  {
    KeysAppend(cells, [c]);
    assert Keys([c]) == {Key(c)};
  }

  lemma {:induction false} LastGated(raw: seq<Cell>, labels: set<string>, available: set<string>)
    requires raw != []
    ensures GateCells(raw, labels, available)
            == GateCell(GateCells(raw[..|raw| - 1], labels, available), raw[|raw| - 1], labels, available)
  {
  }

  lemma {:induction false} DistinctCellsDistinctDocuments(docs: seq<Analysis>)
    requires DistinctKeys(AllCells(docs))
    ensures DistinctDocuments(docs)
    ensures forall id | id in Labels(docs) :: (DIMENSIONS[0], id) in Keys(AllCells(docs))
  {
    if docs != [] {
      var n := |docs| - 1;
      var before, last := AllCells(docs[..n]), CellsFor(docs[n], DIMENSIONS);
      assert docs == docs[..n] + [docs[n]];
      assert forall i, j | 0 <= i < j < |before| :: AllCells(docs)[i] == before[i] && AllCells(docs)[j] == before[j];
      DistinctCellsDistinctDocuments(docs[..n]);
      KeysAppend(before, last);
      assert last[0] in last && Key(last[0]) == (DIMENSIONS[0], docs[n].documentId);
      if docs[n].documentId in Labels(docs[..n]) {
        SharedKey(before, last, Key(last[0]));
      }
      assert forall i | 0 <= i < n :: docs[i] in docs[..n] && docs[i].documentId in Labels(docs[..n]);
    }
  }

  lemma {:induction false} SharedKey(a: seq<Cell>, b: seq<Cell>, key: CellKey)
    requires key in Keys(a) && key in Keys(b)
    ensures !DistinctKeys(a + b)
  {
    var c :| c in a && Key(c) == key;
    var d :| d in b && Key(d) == key;
    var i :| 0 <= i < |a| && a[i] == c;
    var j :| 0 <= j < |b| && b[j] == d;
    assert (a + b)[i] == c && (a + b)[|a| + j] == d;
  }

  /**
   * The deterministic comparison of passed analyses is PASSED exactly if there are two or more, all of different
   * documents, and a formal objective has its reviews: the gate rejects the repeated cells of a repeated document.
   */
  lemma {:induction false} DeterministicComparisonPassesExactly(docs: seq<Analysis>, memory: seq<MemoryItem>, task: Task)
    requires forall d | d in docs :: Ready(d)
    ensures var r := Verify(Inputs(docs, []), Synthesize(docs, memory), MemoryIds(memory), task);
            r.Stored? ==> (r.value.status == Passed <==> |docs| >= 2 && DistinctDocuments(docs) && ReviewsAccepted(task))
  {
    var draft := Synthesize(docs, memory);
    var r := Verify(Inputs(docs, []), draft, MemoryIds(memory), task);
    if r.Stored? && r.value.status == Passed {
      GateHolds(Inputs(docs, []), draft, MemoryIds(memory), task);
      PassedHasNoCellError(docs, draft, MemoryIds(memory), task);
      NoErrorKeepsAll(AllCells(docs), Labels(docs), RefIds(AllRefs(docs)));
      DistinctCellsDistinctDocuments(docs);
    } else if r.Stored? && |docs| >= 2 && DistinctDocuments(docs) && ReviewsAccepted(task) {
      DeterministicComparisonPasses(docs, memory, task);
    }
  }

  lemma {:induction false} PassedHasNoCellError(docs: seq<Analysis>, draft: ComparisonDraft, memoryIds: set<string>, task: Task)
    requires var r := Verify(Inputs(docs, []), draft, memoryIds, task); r.Stored? && r.value.status == Passed
    ensures !HasError(GateCells(draft.cells, Labels(docs), RefIds(AllRefs(docs))).issues)
  {
    var gated := GateCells(draft.cells, Labels(docs), RefIds(AllRefs(docs)));
    var cells := gated.cells + Gaps(GAP_ORDER, docs, gated.seen);
    var early := [] + HypothesisIssues(draft.hypotheses, memoryIds);
    HasErrorAppend(early, gated.issues);
    HasErrorAppend(early + gated.issues, InputIssues(docs, cells, task));
  }

  // Two analyses of one document that have all it takes.

  const ALL_FIELDS: Table := map[Methods := ["x"], Datasets := ["x"], Experiments := ["x"], Limitations := ["x"]]
  const ALL_EVIDENCE: Table := map[Methods := ["e"], Datasets := ["e"], Experiments := ["e"], Limitations := ["e"]]

  function SmallAnalysis(artifactId: string): Analysis {
    Analysis(artifactId, "s", "d", ALL_FIELDS, ALL_EVIDENCE, [], [EvidenceRef("e", "d", "")], true, [], Passed)
  }

  lemma {:induction false} SmallAnalysisIsReady(artifactId: string)
    ensures Ready(SmallAnalysis(artifactId))
  {
    var d := SmallAnalysis(artifactId);
    assert !IsSpace('x') && !IsSpace("x"[0]) && |"x"| == 1;
    assert d.evidenceRefs[0] in d.evidenceRefs && "e" in RefIds(d.evidenceRefs);
    forall k | 0 <= k < |DIMENSIONS|
      ensures Supported(d, DIMENSIONS[k])
    {
      assert Lookup(d.fields, DIMENSIONS[k]) == ["x"] && Lookup(d.fieldEvidence, DIMENSIONS[k]) == ["e"];
    }
  }

  lemma {:induction false} SmallCellsFit(artifactId: string)
    ensures forall c | c in CellsFor(SmallAnalysis(artifactId), DIMENSIONS) :: CellFits(c)
  {
    var d := SmallAnalysis(artifactId);
    assert Join("\n", ["x"]) == "x" && Join("; ", ["x"]) == "x";
    forall k | 0 <= k < |DIMENSIONS|
      ensures CellFits(CellFor(d, DIMENSIONS[k]))
    {
      assert Lookup(d.fields, DIMENSIONS[k]) == ["x"] && Lookup(d.fieldEvidence, DIMENSIONS[k]) == ["e"];
    }
  }

  lemma {:induction false} SmallComparisonFits(a: string, b: string, draft: ComparisonDraft)
    requires |draft.cells| == 4
    ensures ComparisonFits([SmallAnalysis(a), SmallAnalysis(b)], draft.cells, [])
  {
    var docs := [SmallAnalysis(a), SmallAnalysis(b)];
    assert docs[..1] == [SmallAnalysis(a)] && [SmallAnalysis(a)][..0] == [];
    assert AllRefs([SmallAnalysis(a)]) == AllRefs([]) + SmallAnalysis(a).evidenceRefs;
    assert AllRefs(docs) == AllRefs(docs[..1]) + SmallAnalysis(b).evidenceRefs;
  }

  /** The guard is needed: two analyses of one document make a PASSED comparison that covers that document only. */
  lemma {:induction false} OneDocumentCanPass(a: string, b: string, task: Task)
    requires ReviewsAccepted(task)
    ensures var docs := [SmallAnalysis(a), SmallAnalysis(b)];
            var draft := ComparisonDraft(CellsFor(docs[0], DIMENSIONS), [], Lists(0, 0, 0, 0));
            var r := Verify(Inputs(docs, []), draft, {}, task);
            && r.Stored? && r.value.status == Passed && Covered(r.value.cells) == {"d"}
            && (ResultFits(r.value, task) <==> |task.taskId| <= 254)
  {
    var docs := [SmallAnalysis(a), SmallAnalysis(b)];
    var draft := ComparisonDraft(CellsFor(docs[0], DIMENSIONS), [], Lists(0, 0, 0, 0));
    SmallAnalysisIsReady(a);
    SmallAnalysisIsReady(b);
    SmallCellsFit(a);
    SmallComparisonFits(a, b, draft);
    AnalysesOfOneDocumentPass(docs, task);
    PassedCoversTwoDocumentsExactly(Inputs(docs, []), draft, {}, task);
  }

  /** A PASSED comparison that is stored although its result cannot be built: the task id has 255 characters. */
  lemma {:induction false} StoredWithoutResult(a: string, b: string)
    ensures var docs, task := [SmallAnalysis(a), SmallAnalysis(b)], Task(seq(255, i => 't'), "s", false, 0);
            var draft := ComparisonDraft(CellsFor(docs[0], DIMENSIONS), [], Lists(0, 0, 0, 0));
            var r := Verify(Inputs(docs, []), draft, {}, task);
            r.Stored? && r.value.status == Passed && !ResultFits(r.value, task)
  {
    OneDocumentCanPass(a, b, Task(seq(255, i => 't'), "s", false, 0));
  }
}
