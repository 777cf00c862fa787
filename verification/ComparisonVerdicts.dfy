/** What the comparison gate decides for every draft: when a comparison is PASSED, and which cells and hypotheses it stores. */
module ComparisonVerdicts {
  import opened Text
  import opened Evidence
  import opened DocumentAnalyst
  import opened ResearchSynthesizer

  // ---------------------------------------------------------------- the hypotheses

  /** A memory item of a hypothesis kind, as a hypothesis that rests on it. */
  predicate IsHypothesisOf(h: Hypothesis, memory: seq<MemoryItem>) {
    exists m | m in memory :: m.isHypothesis && h.statement == m.text && h.basisIds == [m.itemId]
  }

  lemma {:induction false} HypothesesAre(memory: seq<MemoryItem>, h: Hypothesis)
    ensures h in HypothesesFrom(memory) <==> IsHypothesisOf(h, memory)
  {
    if memory != [] {
      var n := |memory| - 1;
      HypothesesAre(memory[..n], h);
      assert memory == memory[..n] + [memory[n]];
    }
  }

  lemma {:induction false} SupportedStay(hs: seq<Hypothesis>, ids: set<string>)
    requires forall h | h in hs :: Cites(h.basisIds, ids)
    ensures KnownBasis(hs, ids) == hs
  {
    forall i | 0 <= i < |hs|
      ensures KnownBasis(hs, ids)[i] == hs[i]
    {
      assert hs[i] in hs;
    }
  }

  /** The hypotheses of a stored deterministic comparison are those of the memory, each resting on its item. */
  lemma {:induction false} DeterministicHypotheses(docs: seq<Analysis>, memory: seq<MemoryItem>, task: Task)
    ensures var r := Verify(Inputs(docs, []), Synthesize(docs, memory), MemoryIds(memory), task);
            r.Stored? ==> forall h :: h in r.value.hypotheses <==> IsHypothesisOf(h, memory)
  {
    forall h
      ensures h in HypothesesFrom(memory) <==> IsHypothesisOf(h, memory)
    {
      HypothesesAre(memory, h);
    }
    SupportedStay(HypothesesFrom(memory), MemoryIds(memory));
  }

  // ---------------------------------------------------------------- when a comparison is PASSED

  predicate HypothesesSupported(hs: seq<Hypothesis>, memoryIds: set<string>) {
    forall h | h in hs :: h.basisIds != [] && Cites(h.basisIds, memoryIds)
  }

  lemma {:induction false} NoHypothesisIssues(hs: seq<Hypothesis>, memoryIds: set<string>)
    ensures HypothesesSupported(hs, memoryIds) <==> !HasError(HypothesisIssues(hs, memoryIds))
  {
    if hs != [] {
      var n := |hs| - 1;
      var added := if !Cites(hs[n].basisIds, memoryIds) || hs[n].basisIds == []
                   then [Issue(UnsupportedResearchHypothesis, true)] else [];
      assert hs == hs[..n] + [hs[n]];
      NoHypothesisIssues(hs[..n], memoryIds);
      HasErrorAppend(HypothesisIssues(hs[..n], memoryIds), added);
      if added != [] {
        assert added[0].isError;
      }
    }
  }

  /** Without an error the gate takes over every cell as it is drafted, and each of them is supported. */
  lemma {:induction false} NoErrorTakesAll(raw: seq<Cell>, labels: set<string>, available: set<string>)
    requires !HasError(GateCells(raw, labels, available).issues)
    ensures GateCells(raw, labels, available).cells == raw
    ensures forall c | c in raw :: c.dimension in DIMENSIONS && c.sourceLabel in labels && Cites(c.evidenceIds, available)
  {
    if raw != [] {
      var n := |raw| - 1;
      LastGated(raw, labels, available);
      GateOneMore(GateCells(raw[..n], labels, available), raw[n], labels, available);
      NoErrorTakesAll(raw[..n], labels, available);
      TakenOver(GateCells(raw[..n], labels, available), raw[n], labels, available);
      assert raw == raw[..n] + [raw[n]];
    }
  }

  lemma {:induction false} TakenOver(st: CellState, c: Cell, labels: set<string>, available: set<string>)
    requires !HasError(GateCell(st, c, labels, available).issues)
    ensures GateCell(st, c, labels, available).cells == st.cells + [c]
    ensures c.dimension in DIMENSIONS && c.sourceLabel in labels && Cites(c.evidenceIds, available)
  {
    ErrorAdded(st.issues, ComparisonCellOutsideInputs);
    ErrorAdded(st.issues, DuplicateComparisonCell);
    HasErrorAppend(st.issues, CellIssues(c, available));
    UnknownEvidenceIsAnError(c, available);
  }

  lemma {:induction false} UnknownEvidenceIsAnError(c: Cell, available: set<string>)
    ensures !Cites(c.evidenceIds, available) ==> HasError(CellIssues(c, available))
  {
    var issues := CellIssues(c, available);
    if !Cites(c.evidenceIds, available) {
      assert issues[0].isError;
    }
  }

  /** What a PASSED comparison takes of the inputs and the draft. */
  predicate DeservesPass(inputs: Inputs, draft: ComparisonDraft, memoryIds: set<string>, task: Task) {
    var docs := inputs.documents;
    && !HasError(inputs.issues) && HypothesesSupported(draft.hypotheses, memoryIds) && ReviewsAccepted(task)
    && |docs| >= 2 && (forall d | d in docs :: d.status == Passed && d.coverageComplete)
    && CoversCleanly(draft.cells, docs)
  }

  /** For every draft: a stored comparison is PASSED exactly if the inputs and the draft deserve it. */
  lemma {:induction false} ComparisonPassesExactly(inputs: Inputs, draft: ComparisonDraft, memoryIds: set<string>, task: Task)
    ensures var r := Verify(inputs, draft, memoryIds, task);
            r.Stored? ==> (r.value.status == Passed <==> DeservesPass(inputs, draft, memoryIds, task))
  {
    var r := Verify(inputs, draft, memoryIds, task);
    if r.Stored? && r.value.status == Passed {
      GateHolds(inputs, draft, memoryIds, task);
      PassedHasNoErrors(inputs, draft, memoryIds, task);
      NoHypothesisIssues(draft.hypotheses, memoryIds);
      PassedDraftIsClean(inputs, draft, memoryIds, task);
    } else if r.Stored? && DeservesPass(inputs, draft, memoryIds, task) {
      CleanDraftPasses(inputs.documents, draft.cells);
      NoHypothesisIssues(draft.hypotheses, memoryIds);
      CleanHasNoErrors(inputs, draft, memoryIds, task);
    }
  }

  lemma {:induction false} PassedHasNoErrors(inputs: Inputs, draft: ComparisonDraft, memoryIds: set<string>, task: Task)
    requires var r := Verify(inputs, draft, memoryIds, task); r.Stored? && r.value.status == Passed
    ensures !HasError(GateCells(draft.cells, Labels(inputs.documents), RefIds(AllRefs(inputs.documents))).issues)
    ensures !HasError(HypothesisIssues(draft.hypotheses, memoryIds))
  {
    var docs := inputs.documents;
    var gated := GateCells(draft.cells, Labels(docs), RefIds(AllRefs(docs)));
    var cells := gated.cells + Gaps(GAP_ORDER, docs, gated.seen);
    var hypotheses := HypothesisIssues(draft.hypotheses, memoryIds);
    HasErrorAppend(inputs.issues, hypotheses);
    HasErrorAppend(inputs.issues + hypotheses, gated.issues);
    HasErrorAppend(inputs.issues + hypotheses + gated.issues, InputIssues(docs, cells, task));
  }

  lemma {:induction false} PassedDraftIsClean(inputs: Inputs, draft: ComparisonDraft, memoryIds: set<string>, task: Task)
    requires var r := Verify(inputs, draft, memoryIds, task); r.Stored? && r.value.status == Passed
    requires !HasError(GateCells(draft.cells, Labels(inputs.documents), RefIds(AllRefs(inputs.documents))).issues)
    ensures CoversCleanly(draft.cells, inputs.documents)
  {
    GateHolds(inputs, draft, memoryIds, task);
    CleanOfTable(draft.cells, inputs.documents, Verify(inputs, draft, memoryIds, task).value.cells);
  }

  /** One clean cell for each pair. */
  predicate CoversCleanly(cells: seq<Cell>, docs: seq<Analysis>) {
    && DistinctKeys(cells) && (forall c | c in cells :: Clean(c, Labels(docs), RefIds(AllRefs(docs))))
    && forall dimension, id | dimension in DIMENSIONS && id in Labels(docs) :: (dimension, id) in Keys(cells)
  }

  lemma {:induction false} CleanOfTable(raw: seq<Cell>, docs: seq<Analysis>, cells: seq<Cell>)
    requires var gated := GateCells(raw, Labels(docs), RefIds(AllRefs(docs)));
             !HasError(gated.issues) && cells == gated.cells + Gaps(GAP_ORDER, docs, gated.seen)
    requires forall c | c in cells :: !c.unknown && c.value != "" && c.evidenceIds != []
    ensures CoversCleanly(raw, docs)
  {
    NoErrorKeepsAll(raw, Labels(docs), RefIds(AllRefs(docs)));
    NoErrorTakesAll(raw, Labels(docs), RefIds(AllRefs(docs)));
    GapsAreInDimensions();
    GapsFill(GAP_ORDER, docs, Keys(raw));
    KnownCellsHaveNoGaps(raw, Gaps(GAP_ORDER, docs, Keys(raw)), cells);
  }

  lemma {:induction false} KnownCellsHaveNoGaps(raw: seq<Cell>, gaps: seq<Cell>, cells: seq<Cell>)
    requires cells == raw + gaps && (forall c | c in gaps :: c.unknown) && (forall c | c in cells :: !c.unknown)
    ensures gaps == [] && cells == raw
  {
    HasMember(gaps);
    assert forall c | c in gaps :: c in cells;
  }

  lemma {:induction false} CleanHasNoErrors(inputs: Inputs, draft: ComparisonDraft, memoryIds: set<string>, task: Task)
    requires DeservesPass(inputs, draft, memoryIds, task) && !HasError(HypothesisIssues(draft.hypotheses, memoryIds))
    requires var docs := inputs.documents;
             && GateCells(draft.cells, Labels(docs), RefIds(AllRefs(docs))) == CellState(draft.cells, [], Keys(draft.cells))
             && Gaps(GAP_ORDER, docs, Keys(draft.cells)) == [] && forall c | c in draft.cells :: !c.unknown
    ensures var r := Verify(inputs, draft, memoryIds, task); r.Stored? ==> r.value.status == Passed
  {
    var hypotheses := HypothesisIssues(draft.hypotheses, memoryIds);
    assert draft.cells + [] == draft.cells;
    assert InputIssues(inputs.documents, draft.cells, task) == [];
    HasErrorAppend(inputs.issues, hypotheses);
    assert inputs.issues + hypotheses + [] + [] == inputs.issues + hypotheses;
  }

  // ---------------------------------------------------------------- which cells are stored

  /** The cell as the gate keeps it: everything as drafted, but only evidence of the inputs. */
  ghost predicate KeepsCell(c: Cell, raw: Cell, available: set<string>) {
    && Key(c) == Key(raw) && c.value == raw.value && c.conditions == raw.conditions && c.unknown == raw.unknown
    && forall id :: id in c.evidenceIds <==> id in raw.evidenceIds && id in available
  }

  /** The first drafted cell of its pair, for a dimension and a document of the inputs. */
  predicate IsFirstCell(raw: seq<Cell>, k: nat, labels: set<string>) {
    && k < |raw| && raw[k].dimension in DIMENSIONS && raw[k].sourceLabel in labels
    && forall j | 0 <= j < k :: Key(raw[j]) != Key(raw[k])
  }

  ghost predicate HasKept(cells: seq<Cell>, raw: Cell, available: set<string>) {
    exists c | c in cells :: KeepsCell(c, raw, available)
  }

  lemma {:induction false} KeptAmongMore(cells: seq<Cell>, more: seq<Cell>, raw: Cell, available: set<string>)
    requires HasKept(cells, raw, available)
    ensures HasKept(cells + more, raw, available)
  {
    var c :| c in cells && KeepsCell(c, raw, available);
    assert c in cells + more;
  }

  lemma {:induction false} KeptNow(cells: seq<Cell>, raw: Cell, available: set<string>)
    ensures HasKept(cells + [raw.(evidenceIds := Known(raw.evidenceIds, available))], raw, available)
  {
    var kept := raw.(evidenceIds := Known(raw.evidenceIds, available));
    assert KeepsCell(kept, raw, available) && kept in cells + [kept];
  }

  lemma {:induction false} GatedNext(st: CellState, c: Cell, labels: set<string>, available: set<string>)
    ensures var st' := GateCell(st, c, labels, available);
            st'.cells == st.cells
            || st'.cells == st.cells + [c.(evidenceIds := Known(c.evidenceIds, available))]
    ensures c.dimension in DIMENSIONS && c.sourceLabel in labels && Key(c) !in st.seen ==>
              GateCell(st, c, labels, available).cells == st.cells + [c.(evidenceIds := Known(c.evidenceIds, available))]
  {
  }

  lemma {:induction false} FirstCellIsKept(raw: seq<Cell>, k: nat, labels: set<string>, available: set<string>)
    requires IsFirstCell(raw, k, labels)
    ensures HasKept(GateCells(raw, labels, available).cells, raw[k], available)
  {
    var n := |raw| - 1;
    var st := GateCells(raw[..n], labels, available);
    LastGated(raw, labels, available);
    GatedNext(st, raw[n], labels, available);
    if k < n {
      FirstInFront(raw, k, labels);
      FirstCellIsKept(raw[..n], k, labels, available);
      KeptAmongMore(st.cells, [raw[n].(evidenceIds := Known(raw[n].evidenceIds, available))], raw[k], available);
    } else {
      FirstIsNew(raw, labels, available);
      KeptNow(st.cells, raw[k], available);
    }
  }

  lemma {:induction false} FirstInFront(raw: seq<Cell>, k: nat, labels: set<string>)
    requires IsFirstCell(raw, k, labels) && k < |raw| - 1
    ensures IsFirstCell(raw[..|raw| - 1], k, labels) && raw[..|raw| - 1][k] == raw[k]
  {
  }

  lemma {:induction false} FirstIsNew(raw: seq<Cell>, labels: set<string>, available: set<string>)
    requires raw != [] && IsFirstCell(raw, |raw| - 1, labels)
    ensures Key(raw[|raw| - 1]) !in GateCells(raw[..|raw| - 1], labels, available).seen
  {
    var n := |raw| - 1;
    SeenWereDrafted(raw[..n], labels, available);
    assert forall j | 0 <= j < n :: raw[..n][j] == raw[j];
  }

  lemma {:induction false} SeenWereDrafted(raw: seq<Cell>, labels: set<string>, available: set<string>)
    ensures forall key | key in GateCells(raw, labels, available).seen :: exists j | 0 <= j < |raw| :: Key(raw[j]) == key
  {
    if raw != [] {
      var n := |raw| - 1;
      SeenWereDrafted(raw[..n], labels, available);
      LastGated(raw, labels, available);
      forall key | key in GateCells(raw, labels, available).seen
        ensures exists j | 0 <= j < |raw| :: Key(raw[j]) == key
      {
        if key in GateCells(raw[..n], labels, available).seen {
          var j :| 0 <= j < n && Key(raw[..n][j]) == key;
          assert Key(raw[j]) == key;
        }
      }
    }
  }

  /** For every draft: the first cell drafted for a pair is stored as it is, with the evidence that the inputs have. */
  lemma {:induction false} StoredCellsAreDrafted(inputs: Inputs, draft: ComparisonDraft, memoryIds: set<string>, task: Task,
                                                 k: nat)
    requires IsFirstCell(draft.cells, k, Labels(inputs.documents))
    ensures var r := Verify(inputs, draft, memoryIds, task);
            r.Stored? ==> HasKept(r.value.cells, draft.cells[k], RefIds(AllRefs(inputs.documents)))
  {
    var docs := inputs.documents;
    var gated := GateCells(draft.cells, Labels(docs), RefIds(AllRefs(docs)));
    FirstCellIsKept(draft.cells, k, Labels(docs), RefIds(AllRefs(docs)));
    KeptAmongMore(gated.cells, Gaps(GAP_ORDER, docs, gated.seen), draft.cells[k], RefIds(AllRefs(docs)));
  }

  // ---------------------------------------------------------------- what the deterministic producer counts

  function ValueOf(d: Analysis, dimension: Field): string {
    Join("\n", Lookup(d.fields, dimension))
  }

  /** One of the documents has the value. */
  predicate Says(docs: seq<Analysis>, dimension: Field, v: string) {
    exists d | d in docs :: ValueOf(d, dimension) == v
  }

  lemma {:induction false} SaysMore(docs: seq<Analysis>, d: Analysis, dimension: Field, v: string)
    ensures Says(docs + [d], dimension, v) <==> Says(docs, dimension, v) || ValueOf(d, dimension) == v
  {
    if x :| x in docs && ValueOf(x, dimension) == v {
      assert x in docs + [d];
    }
    assert d in docs + [d];
  }

  lemma {:induction false} ValuesAre(docs: seq<Analysis>, dimension: Field, v: string)
    ensures v in ValuesIn(docs, dimension) <==> v != "" && Says(docs, dimension, v)
  {
    if docs != [] {
      var n := |docs| - 1;
      ValuesAre(docs[..n], dimension, v);
      SaysMore(docs[..n], docs[n], dimension, v);
      assert docs == docs[..n] + [docs[n]];
    }
  }

  lemma {:induction false} AllHaveValues(docs: seq<Analysis>, dimension: Field)
    ensures |ValuesIn(docs, dimension)| <= |docs|
    ensures |ValuesIn(docs, dimension)| == |docs| <==> !Says(docs, dimension, "")
  {
    if docs != [] {
      var n := |docs| - 1;
      AllHaveValues(docs[..n], dimension);
      SaysMore(docs[..n], docs[n], dimension, "");
      assert docs == docs[..n] + [docs[n]];
    }
  }

  lemma {:induction false} ValueSet(docs: seq<Analysis>, dimension: Field)
    ensures forall v :: v in DistinctValues(ValuesIn(docs, dimension)) <==> v != "" && Says(docs, dimension, v)
  {
    forall v
      ensures v in DistinctValues(ValuesIn(docs, dimension)) <==> v != "" && Says(docs, dimension, v)
    {
      ValuesAre(docs, dimension, v);
    }
  }

  lemma {:induction false} SetSizes(s: set<string>)
    ensures |s| == 1 <==> exists a :: s == {a}
    ensures |s| > 1 <==> exists a, b | a in s && b in s :: a != b
  {
    if a :| a in s {
      assert s == {a} + (s - {a});
      if b :| b in s - {a} {
        assert |s - {a}| > 0;
      }
    }
  }

  /** Every document has the value and no other. */
  ghost predicate AllSay(docs: seq<Analysis>, dimension: Field, v: string) {
    forall u :: Says(docs, dimension, u) <==> u == v
  }

  /** A consensus is counted exactly if all documents have one value, which is not empty. */
  lemma {:induction false} AgreeExactly(docs: seq<Analysis>, dimension: Field)
    ensures Agree(docs, dimension) <==>
              docs != [] && exists v :: v != "" && AllSay(docs, dimension, v)
  {
    var values := DistinctValues(ValuesIn(docs, dimension));
    AllHaveValues(docs, dimension);
    ValueSet(docs, dimension);
    SetSizes(values);
    if v :| v != "" && AllSay(docs, dimension, v) {
      assert values == {v};
    }
    if Agree(docs, dimension) {
      var v :| values == {v};
      assert v in values;
      assert AllSay(docs, dimension, v);
    }
  }

  /** A conflict is counted exactly if two documents have different values that are not empty. */
  lemma {:induction false} DifferExactly(docs: seq<Analysis>, dimension: Field)
    ensures Differ(docs, dimension) <==>
              exists u, v | Says(docs, dimension, u) && Says(docs, dimension, v) :: u != "" && v != "" && u != v
  {
    ValueSet(docs, dimension);
    SetSizes(DistinctValues(ValuesIn(docs, dimension)));
  }
}
