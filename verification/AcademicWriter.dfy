/** The manuscript branch of the academic writer (backend/agent_graph/academic_writer_graph.py). */
module AcademicWriter {
  import opened Text
  import opened Evidence
  import opened DocumentAnalyst
  import opened ResearchSynthesizer

  const MAX_STATEMENT := 50000
  const MAX_CLAIM_EVIDENCE := 128
  const MAX_CLAIMS := 512
  const MAX_MARKDOWN := 200000
  const MAX_STATEMENTS := 8

  /** `OtherCategory` is any category text the gate does not know. */
  datatype Category = Fact | Interpretation | Suggestion | UserSupplied | OtherCategory

  /** The entries of `missing_inputs`; a provider may also name its own. */
  datatype MissingInput = ExperimentResults | ResearchArtifacts | OtherInput(name: string)

  datatype Paragraph = Paragraph(id: string, markdown: string, category: Category, evidenceIds: seq<string>)
  datatype WriterDraft = WriterDraft(paragraphs: seq<Paragraph>, missingInputs: seq<MissingInput>)
  datatype UserItem = UserItem(evidenceId: string, text: string)

  datatype Section = Section(scopeRef: string, paragraphs: seq<Paragraph>, missingInputs: seq<MissingInput>,
                             evidenceIds: set<string>, issues: seq<Issue>, status: Status)

  /** The parts of the writing task that the gate reads; `digest` is the shortened content hash of a stable id. */
  datatype RawWritingTask = WritingTask(taskId: string, scopeRef: string, experiment: bool, digest: string -> string)

  /** A writing task as `TaskSpec` and `ScopeContext` accept it. */
  type WritingTask = t: RawWritingTask | IsId(t.taskId) && IsId(t.scopeRef) witness WritingTask("t", "s", false, v => v)

  function ScopeOf(a: Artifact): string {
    match a
    case AnalysisArtifact(x) => x.scopeRef
    case ComparisonArtifact(x) => x.scopeRef
    case OtherArtifact(scope, _) => scope
  }

  function RefsOf(a: Artifact): seq<EvidenceRef> {
    match a
    case AnalysisArtifact(x) => x.evidenceRefs
    case ComparisonArtifact(x) => x.evidenceRefs
    case OtherArtifact(_, refs) => refs
  }

  // ---------------------------------------------------------------- loading the inputs

  datatype WriterInputs = WriterInputs(artifacts: seq<Artifact>, issues: seq<Issue>)

  function LoadInput(st: WriterInputs, ref: ArtifactRef, store: Store, scopeRef: string): WriterInputs {
    var key := (ref.artifactId, ref.version);
    if key !in store || store[key].contentHash != ref.contentHash then
      st.(issues := st.issues + [Issue(InvalidWritingInputRef, true)])
    else if ScopeOf(store[key].artifact) != scopeRef then
      st.(issues := st.issues + [Issue(WritingInputScopeMismatch, true)])
    else st.(artifacts := st.artifacts + [store[key].artifact])
  }

  function LoadAll(refs: seq<ArtifactRef>, store: Store, scopeRef: string): WriterInputs {
    if refs == [] then WriterInputs([], [])
    else LoadInput(LoadAll(refs[..|refs| - 1], store, scopeRef), refs[|refs| - 1], store, scopeRef)
  }

  method LoadInputs(refs: seq<ArtifactRef>, store: Store, scopeRef: string)
    returns (artifacts: seq<Artifact>, issues: seq<Issue>)
    ensures WriterInputs(artifacts, issues) == LoadAll(refs, store, scopeRef)
  {
    artifacts, issues := [], [];
    for i := 0 to |refs|
      invariant WriterInputs(artifacts, issues) == LoadAll(refs[..i], store, scopeRef)
    {
      assert refs[..i + 1][..i] == refs[..i];
      var key := (refs[i].artifactId, refs[i].version);
      if key !in store || store[key].contentHash != refs[i].contentHash {
        issues := issues + [Issue(InvalidWritingInputRef, true)];
      } else if ScopeOf(store[key].artifact) != scopeRef {
        issues := issues + [Issue(WritingInputScopeMismatch, true)];
      } else {
        artifacts := artifacts + [store[key].artifact];
      }
    }
    assert refs[..|refs|] == refs;
  }

  /** The reference names a stored, unaltered artifact of the scope. */
  predicate IsValidInput(ref: ArtifactRef, store: Store, scopeRef: string) {
    && (ref.artifactId, ref.version) in store && store[(ref.artifactId, ref.version)].contentHash == ref.contentHash
    && ScopeOf(store[(ref.artifactId, ref.version)].artifact) == scopeRef
  }

  function ValidInputs(refs: seq<ArtifactRef>, store: Store, scopeRef: string): seq<ArtifactRef> {
    if refs == [] then []
    else
      ValidInputs(refs[..|refs| - 1], store, scopeRef)
      + if IsValidInput(refs[|refs| - 1], store, scopeRef) then [refs[|refs| - 1]] else []
  }

  /** The loaded artifacts are those that the valid references name, in order, and each other reference is an error. */
  lemma {:induction false} ValidInputsAreLoaded(refs: seq<ArtifactRef>, store: Store, scopeRef: string)
    ensures var valid, inputs := ValidInputs(refs, store, scopeRef), LoadAll(refs, store, scopeRef);
            && |inputs.artifacts| == |valid| && |valid| + |inputs.issues| == |refs|
            && (forall i | 0 <= i < |valid| ::
                  IsValidInput(valid[i], store, scopeRef)
                  && inputs.artifacts[i] == store[(valid[i].artifactId, valid[i].version)].artifact)
            && (HasError(inputs.issues) <==> exists ref | ref in refs :: !IsValidInput(ref, store, scopeRef))
  {
    if refs != [] {
      var n := |refs| - 1;
      ValidInputsAreLoaded(refs[..n], store, scopeRef);
      assert refs == refs[..n] + [refs[n]];
      var before := LoadAll(refs[..n], store, scopeRef);
      HasErrorAppend(before.issues, LoadAll(refs, store, scopeRef).issues[|before.issues|..]);
      assert LoadAll(refs, store, scopeRef).issues == before.issues + LoadAll(refs, store, scopeRef).issues[|before.issues|..];
      OneError(InvalidWritingInputRef);
      OneError(WritingInputScopeMismatch);
    }
  }

  lemma {:induction false} OneError(code: IssueCode)
    ensures HasError([Issue(code, true)])
  {
    assert [Issue(code, true)][0].isError;
  }

  // ---------------------------------------------------------------- the deterministic producer

  function StableId(prefix: string, value: string, index: nat, digest: string -> string): string {
    prefix + "-" + Decimal(index) + "-" + digest(value)
  }

  datatype Statement = Statement(text: string, evidenceIds: seq<string>)

  function CellStatements(cells: seq<Cell>): seq<Statement> {
    if cells == [] then []
    else
      var c := cells[|cells| - 1];
      CellStatements(cells[..|cells| - 1])
      + if Strip(c.value) != "" then [Statement(Strip(c.value), c.evidenceIds)] else []
  }

  function ListIds(refs: seq<EvidenceRef>): seq<string> {
    seq(|refs|, i requires 0 <= i < |refs| => refs[i].evidenceId)
  }

  function ValueStatements(values: seq<string>, ids: seq<string>): seq<Statement> {
    seq(|values|, i requires 0 <= i < |values| => Statement(values[i], ids))
  }

  function StatementsOf(a: Artifact): seq<Statement> {
    match a
    case ComparisonArtifact(c) => CellStatements(c.cells)
    case AnalysisArtifact(x) =>
      var ids := ListIds(x.evidenceRefs);
      ValueStatements(Lookup(x.fields, Contributions), ids) + ValueStatements(Lookup(x.fields, Methods), ids)
      + ValueStatements(Lookup(x.fields, Limitations), ids)
    case OtherArtifact(_, _) => []
  }

  function Statements(artifacts: seq<Artifact>): seq<Statement> {
    if artifacts == [] then []
    else Statements(artifacts[..|artifacts| - 1]) + StatementsOf(artifacts[|artifacts| - 1])
  }

  function ParagraphsFrom(statements: seq<Statement>, digest: string -> string): seq<Paragraph> {
    seq(|statements|, i requires 0 <= i < |statements| =>
      Paragraph(StableId("paragraph", statements[i].text, i + 1, digest), statements[i].text, Fact,
                statements[i].evidenceIds))
  }

  function ResultsFrom(items: seq<UserItem>, digest: string -> string): seq<Paragraph> {
    seq(|items|, i requires 0 <= i < |items| =>
      Paragraph(StableId("result", items[i].text, i + 1, digest), items[i].text, UserSupplied, [items[i].evidenceId]))
  }

  function Take<T>(s: seq<T>, n: nat): seq<T> {
    if |s| <= n then s else s[..n]
  }

  function Generate(artifacts: seq<Artifact>, items: seq<UserItem>, task: WritingTask): WriterDraft {
    var paragraphs := if task.experiment then ResultsFrom(items, task.digest)
                      else ParagraphsFrom(Take(Statements(artifacts), MAX_STATEMENTS), task.digest);
    WriterDraft(paragraphs, if paragraphs != [] then []
                            else if task.experiment then [ExperimentResults]
                            else [ResearchArtifacts])
  }

  // ---------------------------------------------------------------- the gate

  function NonEmpty(ids: seq<string>): (r: seq<string>)
    ensures forall x :: x in r <==> x in ids && x != ""
  {
    if ids == [] then []
    else
      var n := |ids| - 1;
      assert ids == ids[..n] + [ids[n]];
      NonEmpty(ids[..n]) + if ids[n] != "" then [ids[n]] else []
  }

  lemma {:induction false} NonEmptyKeepsAll(ids: seq<string>)
    requires "" !in ids
    ensures NonEmpty(ids) == ids
  {
    if ids != [] {
      var n := |ids| - 1;
      assert ids[n] in ids && "" !in ids[..n];
      NonEmptyKeepsAll(ids[..n]);
      assert ids == ids[..n] + [ids[n]];
    }
  }

  datatype Sources = Sources(available: set<string>, user: set<string>, experiment: bool)

  /** `fits` tells that every issue could be built: its field is the id of the paragraph, and is limited. */
  datatype ParagraphState = ParagraphState(paragraphs: seq<Paragraph>, issues: seq<Issue>, seen: set<string>, fits: bool)

  function KeptId(raw: Paragraph, index: nat, digest: string -> string): string {
    if Strip(raw.id) != "" then Strip(raw.id) else StableId("paragraph", raw.markdown, index, digest)
  }

  /** The paragraph as the gate keeps it. */
  function Kept(raw: Paragraph, index: nat, sources: Sources, digest: string -> string): Paragraph {
    Paragraph(KeptId(raw, index, digest), Strip(raw.markdown),
              if raw.category == OtherCategory then Suggestion else raw.category,
              Known(NonEmpty(raw.evidenceIds), sources.available))
  }

  /** The paragraph only rests on what the user supplied. */
  predicate UserBacked(p: Paragraph, sources: Sources) {
    p.evidenceIds != [] && Cites(p.evidenceIds, sources.user)
  }

  function ParagraphIssues(raw: Paragraph, p: Paragraph, sources: Sources): seq<Issue> {
    (if !Cites(NonEmpty(raw.evidenceIds), sources.available) then [Issue(UnknownParagraphEvidence, true)] else [])
    + (if p.category == Fact && p.evidenceIds == [] then [Issue(UnsupportedFactualParagraph, true)] else [])
    + (if p.category == UserSupplied && !UserBacked(p, sources)
       then [Issue(UserSuppliedCategoryWithoutUserSource, true)] else [])
    + (if sources.experiment && p.category in {Fact, UserSupplied} && !UserBacked(p, sources)
       then [Issue(ExperimentResultNotUserSupplied, true)] else [])
  }

  function GateParagraph(st: ParagraphState, raw: Paragraph, index: nat, sources: Sources, digest: string -> string)
    : ParagraphState
  {
    var p := Kept(raw, index, sources, digest);
    if p.id in st.seen then
      st.(issues := st.issues + [Issue(DuplicateParagraphId, true)], fits := st.fits && |p.id| <= MAX_ID)
    else
      ParagraphState(if p.markdown != "" then st.paragraphs + [p] else st.paragraphs,
                     st.issues + ParagraphIssues(raw, p, sources),
                     st.seen + {p.id},
                     st.fits && (ParagraphIssues(raw, p, sources) == [] || |p.id| <= MAX_ID))
  }

  function GateParagraphs(raw: seq<Paragraph>, sources: Sources, digest: string -> string): ParagraphState {
    if raw == [] then ParagraphState([], [], {}, true)
    else GateParagraph(GateParagraphs(raw[..|raw| - 1], sources, digest), raw[|raw| - 1], |raw|, sources, digest)
  }

  method GateAllParagraphs(raw: seq<Paragraph>, sources: Sources, digest: string -> string)
    returns (paragraphs: seq<Paragraph>, issues: seq<Issue>, seen: set<string>, fits: bool)
    ensures ParagraphState(paragraphs, issues, seen, fits) == GateParagraphs(raw, sources, digest)
  {
    paragraphs, issues, seen, fits := [], [], {}, true;
    for i := 0 to |raw|
      invariant ParagraphState(paragraphs, issues, seen, fits) == GateParagraphs(raw[..i], sources, digest)
    {
      assert raw[..i + 1][..i] == raw[..i];
      var p := Kept(raw[i], i + 1, sources, digest);
      if p.id in seen {
        issues := issues + [Issue(DuplicateParagraphId, true)];
        fits := fits && |p.id| <= MAX_ID;
      } else {
        seen := seen + {p.id};
        var raised := ParagraphIssues(raw[i], p, sources);
        issues := issues + raised;
        fits := fits && (raised == [] || |p.id| <= MAX_ID);
        if p.markdown != "" {
          paragraphs := paragraphs + [p];
        }
      }
    }
    assert raw[..|raw|] == raw;
  }

  function InputIds(artifacts: seq<Artifact>): set<string> {
    set a, id | a in artifacts && id in RefIds(RefsOf(a)) :: id
  }

  function UserIds(items: seq<UserItem>): set<string> {
    set i | i in items :: i.evidenceId
  }

  function Placeholder(task: WritingTask): Paragraph {
    var text := if task.experiment then "[Missing user-supplied experiment results]"
                else "[Missing verified research material]";
    Paragraph(StableId("placeholder", text, 1, task.digest), text, Suggestion, [])
  }

  function Texts(paragraphs: seq<Paragraph>): seq<string> {
    seq(|paragraphs|, i requires 0 <= i < |paragraphs| => paragraphs[i].markdown)
  }

  /** The claim of a paragraph respects the limits of a claim record. */
  predicate ClaimFits(p: Paragraph, taskId: string) {
    && |taskId| + 1 + |p.id| <= MAX_ID && 1 <= |p.markdown| <= MAX_STATEMENT && |p.evidenceIds| <= MAX_CLAIM_EVIDENCE
  }

  function Distinct(missing: seq<MissingInput>): set<MissingInput> {
    set m | m in missing :: m
  }

  /** The limits of the section; every one of the `inputs` artifacts is in its lineage and its coverage. */
  predicate SectionFits(paragraphs: seq<Paragraph>, missing: seq<MissingInput>, issues: seq<Issue>, evidence: set<string>,
                        inputs: nat, taskId: string)
  {
    && (forall p | p in paragraphs :: ClaimFits(p, taskId))
    && |paragraphs| <= MAX_CLAIMS && |Join("\n\n", Texts(paragraphs))| <= MAX_MARKDOWN && |evidence| <= MAX_EVIDENCE_REFS
    && inputs <= MAX_LINEAGE && |Distinct(missing)| <= MAX_LIST && |issues| <= MAX_ISSUES
  }

  /** `_verify` for a manuscript section. */
  function VerifySection(inputs: WriterInputs, items: seq<UserItem>, reviewed: seq<EvidenceRef>, draft: WriterDraft,
                         task: WritingTask): Outcome<Section>
  {
    var sources := Sources(InputIds(inputs.artifacts) + RefIds(reviewed) + UserIds(items), UserIds(items), task.experiment);
    var gated := GateParagraphs(draft.paragraphs, sources, task.digest);
    Conclude(gated, |inputs.artifacts|, inputs.issues, draft.missingInputs, sources.available, task)
  }

  function MissingSource(task: WritingTask): MissingInput {
    if task.experiment then ExperimentResults else ResearchArtifacts
  }

  /** The placeholder, the status and the size limits. */
  function Conclude(gated: ParagraphState, inputs: nat, inputIssues: seq<Issue>, declared: seq<MissingInput>,
                    available: set<string>, task: WritingTask): Outcome<Section>
  {
    var paragraphs := if gated.paragraphs == [] then [Placeholder(task)] else gated.paragraphs;
    var missing := if gated.paragraphs == [] then declared + [MissingSource(task)] else declared;
    var issues := inputIssues + gated.issues;
    if !gated.fits || !SectionFits(paragraphs, missing, issues, available, inputs, task.taskId) then Rejected
    else Stored(Section(task.scopeRef, paragraphs, missing, available, issues,
                        if missing != [] || HasError(issues) then Partial else Passed))
  }

  method VerifyManuscript(inputs: WriterInputs, items: seq<UserItem>, reviewed: seq<EvidenceRef>, draft: WriterDraft,
                          task: WritingTask) returns (r: Outcome<Section>)
    ensures r == VerifySection(inputs, items, reviewed, draft, task)
  {
    var user := UserIds(items);
    var available := InputIds(inputs.artifacts) + RefIds(reviewed) + user;
    var sources := Sources(available, user, task.experiment);
    var paragraphs, issues, seen, fits := GateAllParagraphs(draft.paragraphs, sources, task.digest);
    var missing := draft.missingInputs;
    if paragraphs == [] {
      paragraphs := [Placeholder(task)];
      missing := missing + [MissingSource(task)];
    }
    issues := inputs.issues + issues;
    if !fits || !SectionFits(paragraphs, missing, issues, available, |inputs.artifacts|, task.taskId) {
      return Rejected;
    }
    r := Stored(Section(task.scopeRef, paragraphs, missing, available, issues,
                        if missing != [] || HasError(issues) then Partial else Passed));
  }

  // ---------------------------------------------------------------- what the gate guarantees for every draft

  predicate DistinctIdentifiers(paragraphs: seq<Paragraph>) {
    forall i, j | 0 <= i < j < |paragraphs| :: paragraphs[i].id != paragraphs[j].id
  }

  /** A kept paragraph that raised no issue. */
  predicate Backed(p: Paragraph, sources: Sources) {
    && (p.category == Fact ==> p.evidenceIds != [])
    && (p.category == UserSupplied ==> UserBacked(p, sources))
    && (sources.experiment && p.category in {Fact, UserSupplied} ==> UserBacked(p, sources))
  }

  predicate SectionInv(st: ParagraphState, sources: Sources) {
    && DistinctIdentifiers(st.paragraphs)
    && (forall p | p in st.paragraphs :: p.id in st.seen && p.markdown != "" && Cites(p.evidenceIds, sources.available))
    && (!HasError(st.issues) ==> forall p | p in st.paragraphs :: Backed(p, sources))
  }

  lemma {:induction false} IssueFreeIsBacked(raw: Paragraph, p: Paragraph, sources: Sources)
    ensures !HasError(ParagraphIssues(raw, p, sources)) ==> Backed(p, sources)
  {
    var issues := ParagraphIssues(raw, p, sources);
    if issues != [] {
      assert issues[0].isError;
    }
  }

  lemma {:induction false} GatedParagraph(st: ParagraphState, raw: Paragraph, index: nat, sources: Sources,
                                          digest: string -> string)
    requires SectionInv(st, sources)
    ensures SectionInv(GateParagraph(st, raw, index, sources, digest), sources)
  {
    var p := Kept(raw, index, sources, digest);
    HasErrorAppend(st.issues, ParagraphIssues(raw, p, sources));
    HasErrorAppend(st.issues, [Issue(DuplicateParagraphId, true)]);
    IssueFreeIsBacked(raw, p, sources);
  }

  lemma {:induction false} GatedParagraphs(raw: seq<Paragraph>, sources: Sources, digest: string -> string)
    ensures SectionInv(GateParagraphs(raw, sources, digest), sources)
  {
    if raw != [] {
      var n := |raw| - 1;
      GatedParagraphs(raw[..n], sources, digest);
      GatedParagraph(GateParagraphs(raw[..n], sources, digest), raw[n], |raw|, sources, digest);
    }
  }

  /**
   * Whatever the provider drafts: a stored section has distinct paragraphs that cite only evidence of the inputs, of
   * the review or of the user; when it is PASSED nothing is missing, no input was refused, each factual paragraph
   * cites evidence, and user-supplied paragraphs and experiment results rest on user-supplied evidence alone.
   */
  lemma {:induction false} SectionGateHolds(inputs: WriterInputs, items: seq<UserItem>, reviewed: seq<EvidenceRef>,
                                            draft: WriterDraft, task: WritingTask)
    ensures var r := VerifySection(inputs, items, reviewed, draft, task);
            var sources := Sources(InputIds(inputs.artifacts) + RefIds(reviewed) + UserIds(items), UserIds(items),
                                   task.experiment);
            r.Stored? ==>
              && r.value.paragraphs != [] && DistinctIdentifiers(r.value.paragraphs)
              && (forall p | p in r.value.paragraphs :: Cites(p.evidenceIds, sources.available))
              && r.value.status != Failed
              && (r.value.status == Passed ==>
                  && draft.missingInputs == [] && !HasError(inputs.issues)
                  && forall p | p in r.value.paragraphs :: Backed(p, sources))
  {
    var sources := Sources(InputIds(inputs.artifacts) + RefIds(reviewed) + UserIds(items), UserIds(items), task.experiment);
    GatedParagraphs(draft.paragraphs, sources, task.digest);
    HasErrorAppend(inputs.issues, GateParagraphs(draft.paragraphs, sources, task.digest).issues);
  }

  // ---------------------------------------------------------------- what passes the comparison passes here

  /** The shortened hash of `_stable_id`: ten hexadecimal digits. */
  ghost predicate HexDigest(digest: string -> string) {
    forall v :: |digest(v)| == 10 && IsHex(digest(v)[9])
  }

  predicate IsHex(c: char) {
    '0' <= c <= '9' || 'a' <= c <= 'f'
  }

  lemma {:induction false} PrintableIsNotSpace(c: char)
    requires '!' <= c <= '~'
    ensures !IsSpace(c)
  {
  }

  lemma {:induction false} ParagraphIdShape(text: string, index: nat, digest: string -> string)
    requires HexDigest(digest) && index < 10
    ensures var id := StableId("paragraph", text, index, digest);
            |id| == 22 && id[10] as int == '0' as int + index && Strip(id) == id
  {
    var id := StableId("paragraph", text, index, digest);
    assert id[0] == 'p' && id[21] == digest(text)[9];
    PrintableIsNotSpace(id[0]);
    PrintableIsNotSpace(id[21]);
    StripOfStripped(id);
  }

  lemma {:induction false} LastCellStatement(cells: seq<Cell>)
    requires cells != [] && Strip(cells[|cells| - 1].value) != ""
    ensures var cell := cells[|cells| - 1];
            CellStatements(cells)
            == CellStatements(cells[..|cells| - 1]) + [Statement(Strip(cell.value), cell.evidenceIds)]
  {
  }

  predicate AllValued(cells: seq<Cell>) {
    cells == [] || (Strip(cells[|cells| - 1].value) != "" && AllValued(cells[..|cells| - 1]))
  }

  lemma {:induction false} ValuedCells(cells: seq<Cell>)
    requires forall c | c in cells :: Strip(c.value) != ""
    ensures AllValued(cells)
  {
    if cells != [] {
      assert cells[|cells| - 1] in cells && forall c | c in cells[..|cells| - 1] :: c in cells;
      ValuedCells(cells[..|cells| - 1]);
    }
  }

  lemma {:induction false} CellStatementsAt(cells: seq<Cell>, i: nat)
    requires AllValued(cells)
    ensures |CellStatements(cells)| == |cells|
    ensures i < |cells| ==> CellStatements(cells)[i] == Statement(Strip(cells[i].value), cells[i].evidenceIds)
  {
    if cells != [] {
      LastCellStatement(cells);
      CellStatementsAt(cells[..|cells| - 1], i);
    }
  }

  /** A drafted factual paragraph that the gate takes over unchanged. */
  predicate CleanParagraph(p: Paragraph, available: set<string>) {
    && p.id != "" && Strip(p.id) == p.id && p.markdown != "" && Strip(p.markdown) == p.markdown && p.category == Fact
    && p.evidenceIds != [] && "" !in p.evidenceIds && Cites(p.evidenceIds, available)
  }

  lemma {:induction false} CleanParagraphIsKept(p: Paragraph, index: nat, sources: Sources, digest: string -> string)
    requires CleanParagraph(p, sources.available)
    ensures Kept(p, index, sources, digest) == p
  {
    NonEmptyKeepsAll(p.evidenceIds);
    assert KeptId(p, index, digest) == p.id;
    assert Known(p.evidenceIds, sources.available) == p.evidenceIds;
  }

  lemma {:induction false} CleanParagraphHasNoIssues(p: Paragraph, sources: Sources)
    requires CleanParagraph(p, sources.available) && !sources.experiment
    ensures ParagraphIssues(p, p, sources) == []
  {
    NonEmptyKeepsAll(p.evidenceIds);
  }

  /** The gate takes over the paragraphs and raises no issue. */
  function Unchanged(paragraphs: seq<Paragraph>): ParagraphState {
    ParagraphState(paragraphs, [], set p | p in paragraphs :: p.id, true)
  }

  lemma {:induction false} CleanParagraphsPass(raw: seq<Paragraph>, sources: Sources, digest: string -> string)
    requires DistinctIdentifiers(raw) && !sources.experiment
    requires forall p | p in raw :: CleanParagraph(p, sources.available)
    ensures GateParagraphs(raw, sources, digest) == Unchanged(raw)
  {
    if raw != [] {
      var n := |raw| - 1;
      assert raw == raw[..n] + [raw[n]];
      CleanParagraphsPass(raw[..n], sources, digest);
      CleanParagraphIsKept(raw[n], |raw|, sources, digest);
      CleanParagraphHasNoIssues(raw[n], sources);
    }
  }

  /** A cell with a value and evidence among `ids`, within the cell limits. */
  predicate CitableCell(cell: Cell, ids: set<string>) {
    CellFits(cell) && Strip(cell.value) != "" && cell.evidenceIds != [] && Cites(cell.evidenceIds, ids)
  }

  /** A comparison whose cells all carry a value and evidence of the comparison. */
  predicate Citable(c: Comparison) {
    c.cells != [] && forall cell | cell in c.cells :: CitableCell(cell, RefIds(c.evidenceRefs))
  }

  predicate AllCitable(cs: seq<Comparison>) {
    cs != [] && forall c | c in cs :: Citable(c)
  }

  function Artifacts(cs: seq<Comparison>): seq<Artifact> {
    seq(|cs|, i requires 0 <= i < |cs| => ComparisonArtifact(cs[i]))
  }

  function CellsOf(cs: seq<Comparison>): seq<Cell> {
    if cs == [] then [] else CellsOf(cs[..|cs| - 1]) + cs[|cs| - 1].cells
  }

  /** The evidence ids of all the comparisons. */
  function EvidenceOf(cs: seq<Comparison>): set<string> {
    set c, id | c in cs && id in RefIds(c.evidenceRefs) :: id
  }

  /** What the deterministic producer drafts: a paragraph for each of the first eight cells. */
  function DraftFrom(cs: seq<Comparison>, digest: string -> string): seq<Paragraph> {
    ParagraphsFrom(Take(CellStatements(CellsOf(cs)), MAX_STATEMENTS), digest)
  }

  lemma {:induction false} MoreCellStatements(a: seq<Cell>, b: seq<Cell>)
    ensures CellStatements(a + b) == CellStatements(a) + CellStatements(b)
  {
    if b == [] {
      assert a + b == a;
    } else {
      assert (a + b)[..|a + b| - 1] == a + b[..|b| - 1];
      MoreCellStatements(a, b[..|b| - 1]);
    }
  }

  lemma {:induction false} StatementsOfComparisons(cs: seq<Comparison>)
    ensures Statements(Artifacts(cs)) == CellStatements(CellsOf(cs))
  {
    if cs != [] {
      var before := cs[..|cs| - 1];
      StatementsOfComparisons(before);
      assert Artifacts(cs)[..|cs| - 1] == Artifacts(before);
      MoreCellStatements(CellsOf(before), cs[|cs| - 1].cells);
    }
  }

  lemma {:induction false} CellsAreCitable(cs: seq<Comparison>, ids: set<string>)
    requires forall c | c in cs :: Citable(c) && RefIds(c.evidenceRefs) <= ids
    ensures forall cell | cell in CellsOf(cs) :: CitableCell(cell, ids)
    ensures cs != [] ==> CellsOf(cs) != []
  {
    if cs != [] {
      var before, last := cs[..|cs| - 1], cs[|cs| - 1];
      assert last in cs && forall c | c in before :: c in cs;
      CellsAreCitable(before, ids);
    }
  }

  lemma {:induction false} EvidenceIsNamed(cs: seq<Comparison>)
    ensures "" !in EvidenceOf(cs)
    ensures forall c | c in cs :: RefIds(c.evidenceRefs) <= EvidenceOf(cs)
  {
    forall c, r | c in cs && r in c.evidenceRefs
      ensures r.evidenceId != ""
    {
    }
  }

  lemma {:induction false} StripTwice(s: string)
    ensures Strip(Strip(s)) == Strip(s)
  {
    StripOfStripped(Strip(s));
  }

  /** The statement of a cell. */
  lemma {:induction false} StatementAt(cells: seq<Cell>, ids: set<string>, i: nat)
    requires (forall cell | cell in cells :: CitableCell(cell, ids)) && i < |Take(CellStatements(cells), MAX_STATEMENTS)|
    ensures i < MAX_STATEMENTS && i < |cells|
    ensures Take(CellStatements(cells), MAX_STATEMENTS)[i] == Statement(Strip(cells[i].value), cells[i].evidenceIds)
  {
    ValuedCells(cells);
    CellStatementsAt(cells, i);
  }

  /** The paragraph of a stripped statement with evidence. */
  lemma {:induction false} ParagraphIsClean(text: string, ids: seq<string>, index: nat, digest: string -> string,
                                            available: set<string>)
    requires HexDigest(digest) && 0 < index < 10 && text != "" && Strip(text) == text
    requires ids != [] && "" !in ids && Cites(ids, available)
    ensures var p := Paragraph(StableId("paragraph", text, index, digest), text, Fact, ids);
            CleanParagraph(p, available) && |p.id| == 22 && p.id[10] as int == '0' as int + index
  {
    ParagraphIdShape(text, index, digest);
  }

  /** Paragraph `i` of the draft: clean, numbered, within the limits, with the evidence of its cell. */
  predicate IsDraftOf(p: Paragraph, cell: Cell, i: nat, ids: set<string>) {
    && CleanParagraph(p, ids) && |p.id| == 22 && p.id[10] as int == '0' as int + i + 1
    && |p.markdown| <= MAX_CELL_TEXT && |p.evidenceIds| <= MAX_CELL_EVIDENCE
    && p.markdown == Strip(cell.value) && p.evidenceIds == cell.evidenceIds
  }

  lemma {:induction false} DraftAt(cs: seq<Comparison>, digest: string -> string, i: nat)
    requires AllCitable(cs) && HexDigest(digest) && i < |DraftFrom(cs, digest)|
    ensures i < MAX_STATEMENTS && i < |CellsOf(cs)|
    ensures IsDraftOf(DraftFrom(cs, digest)[i], CellsOf(cs)[i], i, EvidenceOf(cs))
  {
    EvidenceIsNamed(cs);
    CellsAreCitable(cs, EvidenceOf(cs));
    StatementAt(CellsOf(cs), EvidenceOf(cs), i);
    var cell := CellsOf(cs)[i];
    assert cell in CellsOf(cs) && CitableCell(cell, EvidenceOf(cs));
    StripTwice(cell.value);
    assert "" !in cell.evidenceIds;
    ParagraphIsClean(Strip(cell.value), cell.evidenceIds, i + 1, digest, EvidenceOf(cs));
  }

  /** The paragraph states the value of the cell as a fact, under the evidence of the cell. */
  predicate StatesCell(p: Paragraph, cell: Cell) {
    p.category == Fact && p.markdown == Strip(cell.value) && p.evidenceIds == cell.evidenceIds
  }

  /** The first eight cells of the comparisons, in order, each stated by one paragraph. */
  predicate StatesCells(ps: seq<Paragraph>, cells: seq<Cell>) {
    && |ps| == (if |cells| <= 8 then |cells| else 8)
    && forall i | 0 <= i < |ps| :: StatesCell(ps[i], cells[i])
  }

  lemma {:induction false} DraftStatesCells(cs: seq<Comparison>, digest: string -> string)
    requires AllCitable(cs) && HexDigest(digest)
    ensures StatesCells(DraftFrom(cs, digest), CellsOf(cs))
  {
    DraftLength(cs, digest);
    forall i | 0 <= i < |DraftFrom(cs, digest)|
      ensures i < |CellsOf(cs)| && StatesCell(DraftFrom(cs, digest)[i], CellsOf(cs)[i])
    {
      DraftAt(cs, digest, i);
    }
  }

  predicate CleanDraft(draft: seq<Paragraph>, ids: set<string>) {
    && 1 <= |draft| <= MAX_STATEMENTS && DistinctIdentifiers(draft)
    && forall p | p in draft :: CleanParagraph(p, ids) && |p.id| == 22 && |p.markdown| <= MAX_CELL_TEXT
                                && |p.evidenceIds| <= MAX_CELL_EVIDENCE
  }

  lemma {:induction false} DraftLength(cs: seq<Comparison>, digest: string -> string)
    requires AllCitable(cs)
    ensures |DraftFrom(cs, digest)| == if |CellsOf(cs)| <= MAX_STATEMENTS then |CellsOf(cs)| else MAX_STATEMENTS
    ensures |DraftFrom(cs, digest)| >= 1
  {
    EvidenceIsNamed(cs);
    CellsAreCitable(cs, EvidenceOf(cs));
    ValuedCells(CellsOf(cs));
    CellStatementsAt(CellsOf(cs), 0);
  }

  lemma {:induction false} NumberedAreDistinct(draft: seq<Paragraph>)
    requires forall i | 0 <= i < |draft| :: |draft[i].id| == 22 && draft[i].id[10] as int == '0' as int + i + 1
    ensures DistinctIdentifiers(draft)
  {
  }

  lemma {:induction false} DraftIsClean(cs: seq<Comparison>, digest: string -> string)
    requires AllCitable(cs) && HexDigest(digest)
    ensures CleanDraft(DraftFrom(cs, digest), EvidenceOf(cs))
  {
    var draft := DraftFrom(cs, digest);
    DraftLength(cs, digest);
    forall i | 0 <= i < |draft|
      ensures i < |CellsOf(cs)| && IsDraftOf(draft[i], CellsOf(cs)[i], i, EvidenceOf(cs))
    {
      DraftAt(cs, digest, i);
    }
    NumberedAreDistinct(draft);
  }

  /**
   * A section that is neither a formal review nor an experiment section, drafted deterministically from citable
   * comparisons next to any user material, is stored exactly when its claim ids fit, that is for task ids of up to 233
   * characters, the evidence of the comparisons and of the user fits its limit, and so does the number of comparisons.
   * Then it is PASSED, nothing is missing, and its paragraphs are the first cells, each with the evidence of its cell.
   */
  lemma {:induction false} DeterministicSectionPasses(cs: seq<Comparison>, items: seq<UserItem>, task: WritingTask)
    requires AllCitable(cs) && HexDigest(task.digest) && !task.experiment
    ensures var inputs := WriterInputs(Artifacts(cs), []);
            var r := VerifySection(inputs, items, [], Generate(inputs.artifacts, items, task), task);
            && (r.Stored? <==> |task.taskId| <= 233 && |EvidenceOf(cs) + UserIds(items)| <= MAX_EVIDENCE_REFS
                               && |cs| <= MAX_LINEAGE)
            && (r.Stored? ==>
                && r.value.status == Passed && r.value.issues == [] && r.value.missingInputs == []
                && r.value.paragraphs == DraftFrom(cs, task.digest) && StatesCells(r.value.paragraphs, CellsOf(cs))
                && forall p | p in r.value.paragraphs :: p.evidenceIds != [] && Cites(p.evidenceIds, EvidenceOf(cs)))
  {
    var draft, available := DraftFrom(cs, task.digest), EvidenceOf(cs) + UserIds(items);
    DraftIsClean(cs, task.digest);
    DraftStatesCells(cs, task.digest);
    CleanDraftFits(draft, available, |cs|, task.taskId);
    DraftGoesThrough(cs, items, task);
    ConcludesPassed(Unchanged(draft), |cs|, available, task);
  }

  lemma {:induction false} DraftGoesThrough(cs: seq<Comparison>, items: seq<UserItem>, task: WritingTask)
    requires AllCitable(cs) && HexDigest(task.digest) && !task.experiment
    ensures var inputs, draft := WriterInputs(Artifacts(cs), []), DraftFrom(cs, task.digest);
            VerifySection(inputs, items, [], Generate(inputs.artifacts, items, task), task)
            == Conclude(Unchanged(draft), |cs|, [], [], EvidenceOf(cs) + UserIds(items), task)
  {
    var draft, available := DraftFrom(cs, task.digest), EvidenceOf(cs) + UserIds(items);
    DraftIsClean(cs, task.digest);
    CleanWithMore(draft, EvidenceOf(cs), available);
    CleanParagraphsPass(draft, Sources(available, UserIds(items), false), task.digest);
    InputsAreTheComparisons(cs);
    GeneratedFrom(cs, items, task);
    OnlyTheseSources(EvidenceOf(cs), items);
  }

  lemma {:induction false} CleanWithMore(draft: seq<Paragraph>, ids: set<string>, more: set<string>)
    requires CleanDraft(draft, ids) && ids <= more
    ensures forall p | p in draft :: CleanParagraph(p, more)
  {
  }

  lemma {:induction false} GeneratedFrom(cs: seq<Comparison>, items: seq<UserItem>, task: WritingTask)
    requires !task.experiment && DraftFrom(cs, task.digest) != []
    ensures Generate(Artifacts(cs), items, task) == WriterDraft(DraftFrom(cs, task.digest), [])
  {
    StatementsOfComparisons(cs);
  }

  lemma {:induction false} OnlyTheseSources(ids: set<string>, items: seq<UserItem>)
    ensures ids + RefIds([]) + UserIds(items) == ids + UserIds(items)
  {
  }

  lemma {:induction false} ConcludesPassed(gated: ParagraphState, inputs: nat, available: set<string>, task: WritingTask)
    requires gated.paragraphs != [] && gated.issues == [] && gated.fits
    ensures var r := Conclude(gated, inputs, [], [], available, task);
            && (r.Stored? <==> SectionFits(gated.paragraphs, [], [], available, inputs, task.taskId))
            && (r.Stored? ==> r.value.status == Passed && r.value.issues == [] && r.value.missingInputs == []
                              && r.value.paragraphs == gated.paragraphs)
  {
  }

  lemma {:induction false} InputsAreTheComparisons(cs: seq<Comparison>)
    ensures InputIds(Artifacts(cs)) == EvidenceOf(cs)
  {
    var artifacts := Artifacts(cs);
    forall id | id in EvidenceOf(cs)
      ensures id in InputIds(artifacts)
    {
      var c :| c in cs && id in RefIds(c.evidenceRefs);
      var i :| 0 <= i < |cs| && cs[i] == c;
      assert artifacts[i] in artifacts && id in RefIds(RefsOf(artifacts[i]));
    }
    forall id | id in InputIds(artifacts)
      ensures id in EvidenceOf(cs)
    {
      var a :| a in artifacts && id in RefIds(RefsOf(a));
      var i :| 0 <= i < |artifacts| && artifacts[i] == a;
      assert cs[i] in cs;
    }
  }

  lemma {:induction false} ParagraphsLength(texts: seq<string>)
    requires forall t | t in texts :: |t| <= MAX_CELL_TEXT
    ensures |Join("\n\n", texts)| <= |texts| * (MAX_CELL_TEXT + 2)
  {
    if |texts| == 1 {
      assert texts[0] in texts;
    } else if texts != [] {
      assert texts[0] in texts && forall t | t in texts[1..] :: t in texts;
      ParagraphsLength(texts[1..]);
    }
  }

  lemma {:induction false} CleanDraftFits(draft: seq<Paragraph>, evidence: set<string>, inputs: nat, taskId: string)
    requires 1 <= |draft| <= MAX_STATEMENTS
    requires forall p | p in draft ::
               |p.id| == 22 && 1 <= |p.markdown| <= MAX_CELL_TEXT && |p.evidenceIds| <= MAX_CELL_EVIDENCE
    ensures SectionFits(draft, [], [], evidence, inputs, taskId)
            <==> |taskId| <= 233 && |evidence| <= MAX_EVIDENCE_REFS && inputs <= MAX_LINEAGE
  {
    assert draft[0] in draft;
    forall t | t in Texts(draft)
      ensures |t| <= MAX_CELL_TEXT
    {
      var i :| 0 <= i < |draft| && Texts(draft)[i] == t;
      assert draft[i] in draft;
    }
    ParagraphsLength(Texts(draft));
    assert |draft| * (MAX_CELL_TEXT + 2) <= 8 * (MAX_CELL_TEXT + 2);
  }
}
