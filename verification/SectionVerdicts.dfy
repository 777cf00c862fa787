/** What the manuscript gate decides for every draft: when a section is PASSED, and which paragraphs it stores. */
module SectionVerdicts {
  import opened Text
  import opened Evidence
  import opened DocumentAnalyst
  import opened ResearchSynthesizer
  import opened AcademicWriter

  // ---------------------------------------------------------------- one paragraph

  predicate Names(ids: seq<string>) {
    exists id | id in ids :: id != ""
  }

  /** The evidence that is named is among `known`. */
  predicate NamesOnly(ids: seq<string>, known: set<string>) {
    forall id | id in ids && id != "" :: id in known
  }

  /** Facts rest on evidence, user material and the facts of an experiment on the user's evidence alone. */
  predicate Acceptable(raw: Paragraph, sources: Sources) {
    && NamesOnly(raw.evidenceIds, sources.available)
    && (raw.category == Fact ==> Names(raw.evidenceIds))
    && (raw.category == UserSupplied || (sources.experiment && raw.category == Fact) ==>
          Names(raw.evidenceIds) && NamesOnly(raw.evidenceIds, sources.user))
  }

  lemma {:induction false} NamedEvidence(ids: seq<string>, known: set<string>)
    ensures NonEmpty(ids) != [] <==> Names(ids)
    ensures Cites(NonEmpty(ids), known) <==> NamesOnly(ids, known)
  {
    if NonEmpty(ids) != [] {
      assert NonEmpty(ids)[0] in NonEmpty(ids);
    }
  }

  lemma {:induction false} AcceptableIsFree(raw: Paragraph, index: nat, sources: Sources, digest: string -> string)
    ensures var issues := ParagraphIssues(raw, Kept(raw, index, sources, digest), sources);
            && (issues == [] <==> Acceptable(raw, sources)) && (HasError(issues) <==> issues != [])
  {
    var p := Kept(raw, index, sources, digest);
    NamedEvidence(raw.evidenceIds, sources.available);
    NamedEvidence(raw.evidenceIds, sources.user);
    FirstIsAnError(raw, p, sources);
    if Cites(NonEmpty(raw.evidenceIds), sources.available) {
      assert p.evidenceIds == NonEmpty(raw.evidenceIds);
    }
  }

  lemma {:induction false} FirstIsAnError(raw: Paragraph, p: Paragraph, sources: Sources)
    ensures HasError(ParagraphIssues(raw, p, sources)) <==> ParagraphIssues(raw, p, sources) != []
  {
    var issues := ParagraphIssues(raw, p, sources);
    if issues != [] {
      assert issues[0].isError;
    }
  }

  // ---------------------------------------------------------------- all paragraphs

  predicate AllAcceptable(raw: seq<Paragraph>, sources: Sources) {
    forall k | 0 <= k < |raw| :: Acceptable(raw[k], sources)
  }

  function IdsOf(raw: seq<Paragraph>, digest: string -> string): set<string> {
    if raw == [] then {} else IdsOf(raw[..|raw| - 1], digest) + {KeptId(raw[|raw| - 1], |raw|, digest)}
  }

  /** No paragraph has the id of an earlier one. */
  predicate DistinctKeptIds(raw: seq<Paragraph>, digest: string -> string) {
    raw == []
    || (DistinctKeptIds(raw[..|raw| - 1], digest) && KeptId(raw[|raw| - 1], |raw|, digest) !in IdsOf(raw[..|raw| - 1], digest))
  }

  predicate HasText(raw: Paragraph) {
    Strip(raw.markdown) != ""
  }

  predicate SaysSomething(raw: seq<Paragraph>) {
    exists k | 0 <= k < |raw| :: HasText(raw[k])
  }

  lemma {:induction false} LastParagraph(raw: seq<Paragraph>, sources: Sources, digest: string -> string)
    requires raw != []
    ensures GateParagraphs(raw, sources, digest)
            == GateParagraph(GateParagraphs(raw[..|raw| - 1], sources, digest), raw[|raw| - 1], |raw|, sources, digest)
  {
  }

  lemma {:induction false} GatedNext(st: ParagraphState, raw: Paragraph, index: nat, sources: Sources, digest: string -> string)
    ensures var st' := GateParagraph(st, raw, index, sources, digest);
            var id := KeptId(raw, index, digest);
            && st'.seen == st.seen + {id}
            && (!HasError(st'.issues) <==> !HasError(st.issues) && id !in st.seen && Acceptable(raw, sources))
            && (id !in st.seen ==>
                  st'.paragraphs == st.paragraphs + if HasText(raw) then [Kept(raw, index, sources, digest)] else [])
            && (id in st.seen ==> st'.paragraphs == st.paragraphs)
  {
    AcceptableIsFree(raw, index, sources, digest);
    HasErrorAppend(st.issues, [Issue(DuplicateParagraphId, true)]);
    HasErrorAppend(st.issues, ParagraphIssues(raw, Kept(raw, index, sources, digest), sources));
    assert [Issue(DuplicateParagraphId, true)][0].isError;
  }

  lemma {:induction false} SeenIds(raw: seq<Paragraph>, sources: Sources, digest: string -> string)
    ensures GateParagraphs(raw, sources, digest).seen == IdsOf(raw, digest)
  {
    if raw != [] {
      var n := |raw| - 1;
      SeenIds(raw[..n], sources, digest);
      LastParagraph(raw, sources, digest);
      GatedNext(GateParagraphs(raw[..n], sources, digest), raw[n], |raw|, sources, digest);
    }
  }

  lemma {:induction false} FreeOfErrors(raw: seq<Paragraph>, sources: Sources, digest: string -> string)
    ensures !HasError(GateParagraphs(raw, sources, digest).issues)
            <==> AllAcceptable(raw, sources) && DistinctKeptIds(raw, digest)
  {
    if raw != [] {
      var n := |raw| - 1;
      FreeOfErrors(raw[..n], sources, digest);
      SeenIds(raw[..n], sources, digest);
      LastParagraph(raw, sources, digest);
      GatedNext(GateParagraphs(raw[..n], sources, digest), raw[n], |raw|, sources, digest);
      AcceptableFront(raw, sources);
    }
  }

  lemma {:induction false} AcceptableFront(raw: seq<Paragraph>, sources: Sources)
    requires raw != []
    ensures AllAcceptable(raw, sources) <==> AllAcceptable(raw[..|raw| - 1], sources) && Acceptable(raw[|raw| - 1], sources)
  {
    var front := raw[..|raw| - 1];
    assert forall k | 0 <= k < |front| :: front[k] == raw[k];
  }

  lemma {:induction false} SomeParagraph(raw: seq<Paragraph>, sources: Sources, digest: string -> string)
    requires DistinctKeptIds(raw, digest)
    ensures GateParagraphs(raw, sources, digest).paragraphs != [] <==> SaysSomething(raw)
  {
    if raw != [] {
      var n := |raw| - 1;
      SomeParagraph(raw[..n], sources, digest);
      SeenIds(raw[..n], sources, digest);
      LastParagraph(raw, sources, digest);
      GatedNext(GateParagraphs(raw[..n], sources, digest), raw[n], |raw|, sources, digest);
      SaysSomethingFront(raw);
    }
  }

  lemma {:induction false} SaysSomethingFront(raw: seq<Paragraph>)
    requires raw != []
    ensures SaysSomething(raw) <==> SaysSomething(raw[..|raw| - 1]) || HasText(raw[|raw| - 1])
  {
    var front := raw[..|raw| - 1];
    if SaysSomething(front) {
      var k :| 0 <= k < |front| && HasText(front[k]);
      assert raw[k] == front[k];
    }
    if k :| 0 <= k < |raw| && HasText(raw[k]) && k < |front| {
      assert front[k] == raw[k];
    }
  }

  // ---------------------------------------------------------------- the verdict

  /** What a PASSED section takes of the inputs and the draft. */
  predicate DeservesPass(inputs: WriterInputs, sources: Sources, draft: WriterDraft, digest: string -> string) {
    && draft.missingInputs == [] && !HasError(inputs.issues) && SaysSomething(draft.paragraphs)
    && AllAcceptable(draft.paragraphs, sources) && DistinctKeptIds(draft.paragraphs, digest)
  }

  /** For every draft: a stored section is PASSED exactly if the inputs and the draft deserve it, and PARTIAL otherwise. */
  lemma {:induction false} SectionPassesExactly(inputs: WriterInputs, items: seq<UserItem>, reviewed: seq<EvidenceRef>,
                                                draft: WriterDraft, task: WritingTask)
    ensures var r := VerifySection(inputs, items, reviewed, draft, task);
            var sources := Sources(InputIds(inputs.artifacts) + RefIds(reviewed) + UserIds(items), UserIds(items),
                                   task.experiment);
            r.Stored? ==> r.value.status == if DeservesPass(inputs, sources, draft, task.digest) then Passed else Partial
  {
    var sources := Sources(InputIds(inputs.artifacts) + RefIds(reviewed) + UserIds(items), UserIds(items), task.experiment);
    var gated := GateParagraphs(draft.paragraphs, sources, task.digest);
    FreeOfErrors(draft.paragraphs, sources, task.digest);
    HasErrorAppend(inputs.issues, gated.issues);
    if DistinctKeptIds(draft.paragraphs, task.digest) {
      SomeParagraph(draft.paragraphs, sources, task.digest);
    }
  }

  // ---------------------------------------------------------------- which paragraphs are stored

  /** The paragraph as drafted: stripped, of a known category, and with the evidence that is there. */
  ghost predicate KeepsParagraph(p: Paragraph, raw: Paragraph, available: set<string>) {
    && p.markdown == Strip(raw.markdown) && (Strip(raw.id) != "" ==> p.id == Strip(raw.id))
    && p.category == (if raw.category == OtherCategory then Suggestion else raw.category)
    && forall id :: id in p.evidenceIds <==> id in raw.evidenceIds && id != "" && id in available
  }

  ghost predicate HasKept(ps: seq<Paragraph>, raw: Paragraph, available: set<string>) {
    exists p | p in ps :: KeepsParagraph(p, raw, available)
  }

  lemma {:induction false} KeptAmongMore(ps: seq<Paragraph>, more: seq<Paragraph>, raw: Paragraph, available: set<string>)
    requires HasKept(ps, raw, available)
    ensures HasKept(ps + more, raw, available)
  {
    var p :| p in ps && KeepsParagraph(p, raw, available);
    assert p in ps + more;
  }

  lemma {:induction false} KeptNow(ps: seq<Paragraph>, raw: Paragraph, index: nat, sources: Sources, digest: string -> string)
    ensures HasKept(ps + [Kept(raw, index, sources, digest)], raw, sources.available)
  {
    var p := Kept(raw, index, sources, digest);
    assert KeepsParagraph(p, raw, sources.available) && p in ps + [p];
  }

  lemma {:induction false} NextIsKept(st: ParagraphState, raw: Paragraph, index: nat, sources: Sources, digest: string -> string)
    requires KeptId(raw, index, digest) !in st.seen && HasText(raw)
    ensures HasKept(GateParagraph(st, raw, index, sources, digest).paragraphs, raw, sources.available)
  {
    GatedNext(st, raw, index, sources, digest);
    KeptNow(st.paragraphs, raw, index, sources, digest);
  }

  lemma {:induction false} NextKeepsEarlier(st: ParagraphState, raw: Paragraph, index: nat, sources: Sources,
                                            digest: string -> string, earlier: Paragraph)
    requires HasKept(st.paragraphs, earlier, sources.available)
    ensures HasKept(GateParagraph(st, raw, index, sources, digest).paragraphs, earlier, sources.available)
  {
    GatedNext(st, raw, index, sources, digest);
    KeptAmongMore(st.paragraphs, [Kept(raw, index, sources, digest)], earlier, sources.available);
    assert st.paragraphs + [] == st.paragraphs;
  }

  lemma {:induction false} LastIsKept(raw: seq<Paragraph>, sources: Sources, digest: string -> string)
    requires raw != [] && DistinctKeptIds(raw, digest) && HasText(raw[|raw| - 1])
    ensures HasKept(GateParagraphs(raw, sources, digest).paragraphs, raw[|raw| - 1], sources.available)
  {
    var n := |raw| - 1;
    LastParagraph(raw, sources, digest);
    SeenIds(raw[..n], sources, digest);
    NextIsKept(GateParagraphs(raw[..n], sources, digest), raw[n], |raw|, sources, digest);
  }

  lemma {:induction false} EarlierIsKept(raw: seq<Paragraph>, sources: Sources, digest: string -> string, earlier: Paragraph)
    requires raw != []
    requires HasKept(GateParagraphs(raw[..|raw| - 1], sources, digest).paragraphs, earlier, sources.available)
    ensures HasKept(GateParagraphs(raw, sources, digest).paragraphs, earlier, sources.available)
  {
    var n := |raw| - 1;
    LastParagraph(raw, sources, digest);
    NextKeepsEarlier(GateParagraphs(raw[..n], sources, digest), raw[n], |raw|, sources, digest, earlier);
  }

  lemma {:induction false} ParagraphIsKept(raw: seq<Paragraph>, k: nat, sources: Sources, digest: string -> string)
    requires DistinctKeptIds(raw, digest) && k < |raw| && HasText(raw[k])
    ensures HasKept(GateParagraphs(raw, sources, digest).paragraphs, raw[k], sources.available)
  {
    if k < |raw| - 1 {
      ParagraphIsKept(raw[..|raw| - 1], k, sources, digest);
      EarlierIsKept(raw, sources, digest, raw[k]);
    } else {
      LastIsKept(raw, sources, digest);
    }
  }

  /** For every draft with distinct ids: each paragraph with text is stored as drafted, with the evidence that is there. */
  lemma {:induction false} StoredParagraphsAreDrafted(inputs: WriterInputs, items: seq<UserItem>, reviewed: seq<EvidenceRef>,
                                                      draft: WriterDraft, task: WritingTask, k: nat)
    requires DistinctKeptIds(draft.paragraphs, task.digest)
    requires k < |draft.paragraphs| && HasText(draft.paragraphs[k])
    ensures var r := VerifySection(inputs, items, reviewed, draft, task);
            r.Stored? ==> HasKept(r.value.paragraphs, draft.paragraphs[k],
                                  InputIds(inputs.artifacts) + RefIds(reviewed) + UserIds(items))
  {
    var sources := Sources(InputIds(inputs.artifacts) + RefIds(reviewed) + UserIds(items), UserIds(items), task.experiment);
    ParagraphIsKept(draft.paragraphs, k, sources, task.digest);
  }

  // ---------------------------------------------------------------- drafts without text

  /** A section without any text is a placeholder, PARTIAL, and names what is missing last. */
  lemma {:induction false} EmptySectionIsAPlaceholder(inputs: WriterInputs, items: seq<UserItem>, reviewed: seq<EvidenceRef>,
                                                      draft: WriterDraft, task: WritingTask)
    requires !SaysSomething(draft.paragraphs) && DistinctKeptIds(draft.paragraphs, task.digest)
    ensures var r := VerifySection(inputs, items, reviewed, draft, task);
            r.Stored? ==>
              && r.value.status == Partial && |r.value.paragraphs| == 1
              && r.value.paragraphs[0].category == Suggestion && r.value.paragraphs[0].evidenceIds == []
              && r.value.missingInputs
                 == draft.missingInputs + [if task.experiment then ExperimentResults else ResearchArtifacts]
  {
    var sources := Sources(InputIds(inputs.artifacts) + RefIds(reviewed) + UserIds(items), UserIds(items), task.experiment);
    SomeParagraph(draft.paragraphs, sources, task.digest);
  }

  // ---------------------------------------------------------------- what the deterministic producer drafts

  /** The paragraph is the user's item, under its evidence. */
  predicate StatesItem(p: Paragraph, item: UserItem) {
    p.category == UserSupplied && p.markdown == item.text && p.evidenceIds == [item.evidenceId]
  }

  /** For an experiment section: one paragraph for each item of the user, in order, and nothing else. */
  lemma {:induction false} ExperimentDraftIsTheUsers(artifacts: seq<Artifact>, items: seq<UserItem>, task: WritingTask)
    requires task.experiment
    ensures var draft := Generate(artifacts, items, task);
            && |draft.paragraphs| == |items|
            && (forall i | 0 <= i < |items| :: StatesItem(draft.paragraphs[i], items[i]))
            && draft.missingInputs == if items == [] then [ExperimentResults] else []
  {
  }

  lemma {:induction false} DecimalDiffers(m: nat, n: nat)
    requires m != n
    ensures Decimal(m) != Decimal(n)
    decreases m
  {
    var a, b := Decimal(m), Decimal(n);
    assert a[|a| - 1] == Digit(m % 10) && b[|b| - 1] == Digit(n % 10);
    if m % 10 == n % 10 {
      assert a[..|a| - 1] == if m < 10 then "" else Decimal(m / 10);
      assert b[..|b| - 1] == if n < 10 then "" else Decimal(n / 10);
      if m >= 10 && n >= 10 {
        DecimalDiffers(m / 10, n / 10);
      }
    }
  }

  /** Ids of different numbers differ, because the digests have one length. */
  lemma {:induction false} StableIdsDiffer(prefix: string, a: string, b: string, m: nat, n: nat, digest: string -> string)
    requires m != n && |digest(a)| == |digest(b)|
    ensures StableId(prefix, a, m, digest) != StableId(prefix, b, n, digest)
  {
    var x, y := StableId(prefix, a, m, digest), StableId(prefix, b, n, digest);
    var k := |prefix| + 1;
    DecimalDiffers(m, n);
    assert x[k..k + |Decimal(m)|] == Decimal(m) && y[k..k + |Decimal(n)|] == Decimal(n);
    assert |x| == k + |Decimal(m)| + 1 + |digest(a)| && |y| == k + |Decimal(n)| + 1 + |digest(b)|;
  }

  /** Items as they are normalized: with text, which is stripped, and with evidence ids. */
  predicate AreItems(items: seq<UserItem>) {
    forall i | 0 <= i < |items| ::
      items[i].text != "" && Strip(items[i].text) == items[i].text && items[i].evidenceId != ""
  }

  lemma {:induction false} ResultIdIsStripped(text: string, index: nat, digest: string -> string)
    requires HexDigest(digest)
    ensures var id := StableId("result", text, index, digest); id != "" && Strip(id) == id
  {
    var id := StableId("result", text, index, digest);
    assert id[0] == 'r' && id[|id| - 1] == digest(text)[9];
    PrintableIsNotSpace(id[0]);
    PrintableIsNotSpace(id[|id| - 1]);
    StripOfStripped(id);
  }

  /** The id is that of one of the items. */
  predicate IsResultId(id: string, items: seq<UserItem>, digest: string -> string) {
    exists i | 0 <= i < |items| :: id == StableId("result", items[i].text, i + 1, digest)
  }

  lemma {:induction false} MoreResultIds(items: seq<UserItem>, id: string, digest: string -> string)
    requires items != []
    ensures IsResultId(id, items, digest) <==>
              IsResultId(id, items[..|items| - 1], digest) || id == StableId("result", items[|items| - 1].text, |items|, digest)
  {
    var n := |items| - 1;
    if i :| 0 <= i < n && id == StableId("result", items[..n][i].text, i + 1, digest) {
      assert items[..n][i] == items[i];
    }
    if i :| 0 <= i < |items| && id == StableId("result", items[i].text, i + 1, digest) && i < n {
      assert items[..n][i] == items[i];
    }
  }

  lemma {:induction false} NextResultIdIsNew(items: seq<UserItem>, digest: string -> string)
    requires HexDigest(digest) && items != []
    ensures !IsResultId(StableId("result", items[|items| - 1].text, |items|, digest), items[..|items| - 1], digest)
  {
    var n := |items| - 1;
    var id := StableId("result", items[n].text, n + 1, digest);
    forall i | 0 <= i < n
      ensures StableId("result", items[..n][i].text, i + 1, digest) != id
    {
      StableIdsDiffer("result", items[i].text, items[n].text, i + 1, n + 1, digest);
    }
  }

  lemma {:induction false} ResultIdsAreDistinct(items: seq<UserItem>, digest: string -> string)
    requires HexDigest(digest)
    ensures DistinctKeptIds(ResultsFrom(items, digest), digest)
    ensures forall id :: id in IdsOf(ResultsFrom(items, digest), digest) <==> IsResultId(id, items, digest)
  {
    if items != [] {
      var n := |items| - 1;
      var raw := ResultsFrom(items, digest);
      ResultIdsAreDistinct(items[..n], digest);
      assert raw[..n] == ResultsFrom(items[..n], digest);
      ResultIdIsStripped(items[n].text, n + 1, digest);
      assert KeptId(raw[n], |raw|, digest) == StableId("result", items[n].text, n + 1, digest);
      NextResultIdIsNew(items, digest);
      forall id
        ensures id in IdsOf(raw, digest) <==> IsResultId(id, items, digest)
      {
        MoreResultIds(items, id, digest);
      }
    }
  }

  /** Any user material makes a PASSED experiment section, in which each item is a paragraph of its own. */
  lemma {:induction false} ExperimentSectionPasses(inputs: WriterInputs, items: seq<UserItem>, task: WritingTask)
    requires task.experiment && items != [] && AreItems(items) && HexDigest(task.digest) && !HasError(inputs.issues)
    ensures var r := VerifySection(inputs, items, [], Generate(inputs.artifacts, items, task), task);
            r.Stored? ==>
              && r.value.status == Passed && r.value.missingInputs == []
              && forall i | 0 <= i < |items| ::
                   HasKept(r.value.paragraphs, ResultsFrom(items, task.digest)[i],
                           InputIds(inputs.artifacts) + RefIds([]) + UserIds(items))
  {
    var draft := Generate(inputs.artifacts, items, task);
    var sources := Sources(InputIds(inputs.artifacts) + RefIds([]) + UserIds(items), UserIds(items), true);
    ExperimentDraftIsTheUsers(inputs.artifacts, items, task);
    ResultIdsAreDistinct(items, task.digest);
    ItemsAreAcceptable(items, sources, task.digest);
    SectionPassesExactly(inputs, items, [], draft, task);
    assert draft.paragraphs == ResultsFrom(items, task.digest);
    forall i | 0 <= i < |items|
      ensures HasText(draft.paragraphs[i])
    {
    }
    assert SaysSomething(draft.paragraphs) by {
      assert HasText(draft.paragraphs[0]);
    }
    forall i | 0 <= i < |items|
      ensures var r := VerifySection(inputs, items, [], draft, task);
              r.Stored? ==> HasKept(r.value.paragraphs, draft.paragraphs[i], sources.available)
    {
      StoredParagraphsAreDrafted(inputs, items, [], draft, task, i);
    }
    StoredMissing(inputs, items, draft, task);
  }

  lemma {:induction false} StoredMissing(inputs: WriterInputs, items: seq<UserItem>, draft: WriterDraft, task: WritingTask)
    requires SaysSomething(draft.paragraphs) && DistinctKeptIds(draft.paragraphs, task.digest)
    ensures var r := VerifySection(inputs, items, [], draft, task);
            r.Stored? ==> r.value.missingInputs == draft.missingInputs
  {
    var sources := Sources(InputIds(inputs.artifacts) + RefIds([]) + UserIds(items), UserIds(items), task.experiment);
    SomeParagraph(draft.paragraphs, sources, task.digest);
  }

  lemma {:induction false} ItemsAreAcceptable(items: seq<UserItem>, sources: Sources, digest: string -> string)
    requires AreItems(items) && UserIds(items) <= sources.available && UserIds(items) == sources.user
    ensures AllAcceptable(ResultsFrom(items, digest), sources)
  {
    var raw := ResultsFrom(items, digest);
    forall k | 0 <= k < |raw|
      ensures Acceptable(raw[k], sources)
    {
      assert items[k] in items && raw[k].evidenceIds == [items[k].evidenceId];
      assert items[k].evidenceId in raw[k].evidenceIds;
    }
  }

  /** The statements of an analysis: its contributions, methods and limitations, each under all its evidence. */
  lemma {:induction false} AnalysisStatements(a: Analysis)
    ensures var texts := Lookup(a.fields, Contributions) + Lookup(a.fields, Methods) + Lookup(a.fields, Limitations);
            var statements := StatementsOf(AnalysisArtifact(a));
            && |statements| == |texts|
            && forall i | 0 <= i < |texts| ::
                 statements[i].text == texts[i] && statements[i].evidenceIds == ListIds(a.evidenceRefs)
  {
  }
}
