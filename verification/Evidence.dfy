/** Values and folds shared by the three specialists of the evidence pipeline (backend/models/agent_artifacts.py). */
module Evidence {
  import opened Text

  datatype RawEvidenceRef = EvidenceRef(evidenceId: string, sourceId: string, sourceType: string)

  /** An evidence reference as the artifact models accept it: its id is not empty. */
  type EvidenceRef = r: RawEvidenceRef | r.evidenceId != "" witness EvidenceRef("e", "", "")

  /** One retrieval hit; `attestsCoverage` is its `document_coverage_complete` metadata flag. */
  datatype Packet = Packet(ref: EvidenceRef, text: string, attestsCoverage: bool)

  datatype Status = Passed | Partial | Failed
  datatype IssueCode =
    | UnsupportedField | SourceUnavailable | UnknownField | CoverageNotAttested
    | MissingInputArtifact | InputArtifactHashMismatch | WrongInputArtifactType | InputArtifactOutsideScope
    | UnsupportedResearchHypothesis | ComparisonCellOutsideInputs | DuplicateComparisonCell
    | UnknownComparisonEvidence | UnsupportedComparisonCell | InsufficientDocumentArtifacts | FailedInputArtifact
    | PartialInputCoverage | ComparisonGaps | ReviewGateNotSatisfied
    | InvalidWritingInputRef | WritingInputScopeMismatch | DuplicateParagraphId | UnknownParagraphEvidence
    | UnsupportedFactualParagraph | UserSuppliedCategoryWithoutUserSource | ExperimentResultNotUserSupplied
  datatype Issue = Issue(code: IssueCode, isError: bool)

  /** The result of building an artifact: its size limits may reject it. */
  datatype Outcome<+T> = Stored(value: T) | Rejected

  /** The fields of an analysis; a provider may also name a field of its own. */
  datatype Field = ResearchQuestions | Contributions | Methods | Datasets | Experiments | Limitations | OpenQuestions
                 | OtherField(name: string)

  type Table = map<Field, seq<string>>

  function Lookup(t: Table, key: Field): seq<string> {
    if key in t then t[key] else []
  }

  function RefIds(refs: seq<EvidenceRef>): set<string> {
    set r | r in refs :: r.evidenceId
  }

  predicate HasError(issues: seq<Issue>) {
    exists i | 0 <= i < |issues| :: issues[i].isError
  }

  lemma {:induction false} HasErrorAppend(a: seq<Issue>, b: seq<Issue>)
    ensures HasError(a + b) <==> HasError(a) || HasError(b)
  {
    if HasError(a) {
      var i :| 0 <= i < |a| && a[i].isError;
      assert (a + b)[i].isError;
    }
    if HasError(b) {
      var i :| 0 <= i < |b| && b[i].isError;
      assert (a + b)[|a| + i].isError;
    }
  }

  /** The members of `ids` that lie in `known`, in order. */
  function Known(ids: seq<string>, known: set<string>): (r: seq<string>)
    ensures forall x :: x in r <==> x in ids && x in known
    ensures |r| <= |ids|
    ensures (forall x | x in ids :: x in known) ==> r == ids
  {
    if ids == [] then []
    else
      var n := |ids| - 1;
      assert ids == ids[..n] + [ids[n]];
      Known(ids[..n], known) + if ids[n] in known then [ids[n]] else []
  }

  function Stripped(values: seq<string>): seq<string> {
    seq(|values|, i requires 0 <= i < |values| => Strip(values[i]))
  }

  function NonBlank(values: seq<string>): (r: seq<string>)
    ensures forall x :: x in r <==> x in values && x != ""
  {
    if values == [] then []
    else
      var n := |values| - 1;
      assert values == values[..n] + [values[n]];
      NonBlank(values[..n]) + if values[n] != "" then [values[n]] else []
  }

  /** The non-blank values, stripped. */
  function CleanValues(values: seq<string>): (r: seq<string>)
    ensures forall x | x in r :: x != "" && !IsSpace(x[0]) && !IsSpace(x[|x| - 1])
  {
    StrippedEnds(values);
    NonBlank(Stripped(values))
  }

  lemma {:induction false} StrippedEnds(values: seq<string>)
    ensures forall x | x in Stripped(values) && x != "" :: !IsSpace(x[0]) && !IsSpace(x[|x| - 1])
  {
    forall i | 0 <= i < |values|
      ensures Strip(values[i]) != "" ==> !IsSpace(Strip(values[i])[0]) && !IsSpace(Strip(values[i])[|Strip(values[i])| - 1])
    {
      StripEnds(values[i]);
    }
  }

  /** Some value is `x` without the white space around it. */
  predicate Strips(values: seq<string>, x: string) {
    exists v | v in values :: Strip(v) == x
  }

  lemma {:induction false} CleanValuesAre(values: seq<string>, x: string)
    ensures x in CleanValues(values) <==> x != "" && Strips(values, x)
  {
    StrippedAre(values, x);
  }

  lemma {:induction false} StrippedAre(values: seq<string>, x: string)
    ensures x in Stripped(values) <==> Strips(values, x)
  {
    if v :| v in values && Strip(v) == x {
      var i :| 0 <= i < |values| && values[i] == v;
      assert Stripped(values)[i] == x;
    }
  }

  /** A join of stripped values is not blank. */
  lemma {:induction false} JoinOfValuesIsNotBlank(separator: string, parts: seq<string>)
    requires parts != [] && parts[0] != "" && !IsSpace(parts[0][0])
    ensures Strip(Join(separator, parts)) != ""
  {
    assert Join(separator, parts)[0] == parts[0][0];
  }

  lemma {:induction false} RefIdsCount(refs: seq<EvidenceRef>)
    ensures |RefIds(refs)| <= |refs|
  {
    if refs != [] {
      var n := |refs| - 1;
      RefIdsCount(refs[..n]);
      assert refs == refs[..n] + [refs[n]];
      assert RefIds(refs) == RefIds(refs[..n]) + {refs[n].evidenceId};
    }
  }
}
