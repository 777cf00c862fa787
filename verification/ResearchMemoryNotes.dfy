/** Notes as a whole: what a deletion leaves of the store, and the extraction row that a replacement leaves. */
module ResearchMemoryNotes {
  import opened Wrappers
  import opened Text
  import opened ResearchMemory
  import opened ResearchMemoryInvariant
  import opened ResearchMemoryReplace

  function ThisExtraction(w: string, n: string): Extraction -> bool {
    (x: Extraction) => x.workspace == w && x.note == n
  }

  predicate HasNote(xs: seq<Extraction>, w: string, n: string) {
    exists x | x in xs :: x.workspace == w && x.note == n
  }

  lemma {:induction false} NoteIndex(xs: seq<Extraction>, w: string, n: string)
    ensures ExtractionIndex(xs, w, n) < |xs| <==> HasNote(xs, w, n)
  {
    if ExtractionIndex(xs, w, n) < |xs| {
      assert xs[ExtractionIndex(xs, w, n)] in xs;
    }
  }

  // ---------------------------------------------------------------- the one row of a note

  /** Before and behind the row at `i` there is no row of its note. */
  lemma {:induction false} AroundTheRow(xs: seq<Extraction>, i: nat, nextId: nat)
    requires i < |xs| && ExtractionsWF(xs, nextId)
    ensures var w, n := xs[i].workspace, xs[i].note;
            && Keep(xs[..i], OtherExtraction(w, n)) == xs[..i] && Keep(xs[i + 1..], OtherExtraction(w, n)) == xs[i + 1..]
            && Keep(xs[..i], ThisExtraction(w, n)) == [] && Keep(xs[i + 1..], ThisExtraction(w, n)) == []
  {
    var w, n := xs[i].workspace, xs[i].note;
    KeepAll(xs[..i], OtherExtraction(w, n));
    KeepAll(xs[i + 1..], OtherExtraction(w, n));
    KeepNone(xs[..i], ThisExtraction(w, n));
    KeepNone(xs[i + 1..], ThisExtraction(w, n));
  }

  lemma {:induction false} KeepAround<T>(a: seq<T>, x: T, b: seq<T>, p: T -> bool)
    ensures Keep(a + [x] + b, p) == Keep(a, p) + (if p(x) then [x] else []) + Keep(b, p)
  {
    KeepAppend(a + [x], b, p);
    KeepAppend(a, [x], p);
    if p(x) {
      KeepAll([x], p);
    } else {
      KeepNone([x], p);
    }
  }

  /** The rows with `row` in the place of the note's own. */
  lemma {:induction false} OneRowOfTheNote(xs: seq<Extraction>, i: nat, nextId: nat, row: Extraction)
    requires i < |xs| && ExtractionsWF(xs, nextId) && row.workspace == xs[i].workspace && row.note == xs[i].note
    ensures Keep(xs[i := row], ThisExtraction(row.workspace, row.note)) == [row]
    ensures Keep(xs, OtherExtraction(row.workspace, row.note)) == xs[..i] + xs[i + 1..]
  {
    AroundTheRow(xs, i, nextId);
    var a, b := xs[..i], xs[i + 1..];
    RowBetween(a, xs[i], row, b, ThisExtraction(row.workspace, row.note), OtherExtraction(row.workspace, row.note));
    AroundIndex(xs, i, row);
  }

  lemma {:induction false} AroundIndex<T>(xs: seq<T>, i: nat, row: T)
    requires i < |xs|
    ensures xs[i := row] == xs[..i] + [row] + xs[i + 1..] && xs == xs[..i] + [xs[i]] + xs[i + 1..]
  {
  }

  lemma {:induction false} RowBetween<T>(a: seq<T>, x: T, row: T, b: seq<T>, this_: T -> bool, other: T -> bool)
    requires Keep(a, other) == a && Keep(b, other) == b && Keep(a, this_) == [] && Keep(b, this_) == []
    requires this_(row) && !other(x)
    ensures Keep(a + [row] + b, this_) == [row] && Keep(a + [x] + b, other) == a + b
  {
    KeepAround(a, row, b, this_);
    KeepAround(a, x, b, other);
  }

  // ---------------------------------------------------------------- deletion

  /** The store without the note: every row of another note is there, in order, and no other; the entities are untouched. */
  predicate WithoutNote(db: Db, db': Db, w: string, n: string) {
    && db'.extractions == Keep(db.extractions, OtherExtraction(w, n))
    && db'.claims == Keep(db.claims, OtherClaim(w, n))
    && db'.evidence == Keep(db.evidence, OtherEvidence(w, n))
    && db'.relations == Keep(db.relations, OtherRelation(w, n))
    && db'.entities == db.entities && db'.nextId == db.nextId
  }

  /**
   * A deletion leaves exactly the rows of the other notes and all entities; blank names delete nothing. It changes the
   * store, which is what it reports, exactly if the note has an extraction.
   */
  lemma {:induction false} DeleteIsExact(db: Db, workspace: string, note: string)
    requires WellFormed(db)
    ensures var w, n := Clean(workspace, 128), Clean(note, 128);
            var db' := Delete(db, workspace, note);
            && (if w == "" || n == "" then db' == db else WithoutNote(db, db', w, n))
            && (db' != db <==> w != "" && n != "" && HasNote(db.extractions, w, n))
  {
    var w, n := Clean(workspace, 128), Clean(note, 128);
    if w != "" && n != "" {
      DeletedNote(db, w, n);
      assert |Delete(db, workspace, note).extractions|
          == |db.extractions| - if ExtractionIndex(db.extractions, w, n) < |db.extractions| then 1 else 0;
      NoteIndex(db.extractions, w, n);
    }
  }

  lemma {:induction false} DeletedNote(db: Db, w: string, n: string)
    requires WellFormed(db)
    ensures var i := ExtractionIndex(db.extractions, w, n);
            WithoutNote(db,
                        if i == |db.extractions| then db
                        else WithoutRows(db, db.extractions[i].id).(extractions := db.extractions[..i] + db.extractions[i + 1..]),
                        w, n)
  {
    var i := ExtractionIndex(db.extractions, w, n);
    if i < |db.extractions| {
      WithoutRowsKeepsOthers(db, i);
      OneRowOfTheNote(db.extractions, i, db.nextId, db.extractions[i]);
    } else {
      NoRowsOfNote(db, w, n);
      KeepAll(db.claims, OtherClaim(w, n));
      KeepAll(db.relations, OtherRelation(w, n));
      KeepAll(db.evidence, OtherEvidence(w, n));
      KeepAll(db.extractions, OtherExtraction(w, n));
    }
  }

  /** No row of the note is left, and every row of another note still is. */
  lemma {:induction false} DeletedRowsAreGone(db: Db, workspace: string, note: string)
    requires WellFormed(db) && Clean(workspace, 128) != "" && Clean(note, 128) != ""
    ensures var w, n := Clean(workspace, 128), Clean(note, 128);
            var db' := Delete(db, workspace, note);
            && (forall x :: x in db'.extractions <==> x in db.extractions && !(x.workspace == w && x.note == n))
            && (forall c :: c in db'.claims <==> c in db.claims && !(c.workspace == w && c.note == n))
            && (forall e :: e in db'.evidence <==> e in db.evidence && !(e.workspace == w && e.note == n))
            && (forall r :: r in db'.relations <==> r in db.relations && !(r.workspace == w && r.note == n))
  {
    var w, n := Clean(workspace, 128), Clean(note, 128);
    DeleteIsExact(db, workspace, note);
    KeepMembers(db.extractions, OtherExtraction(w, n));
    KeepMembers(db.claims, OtherClaim(w, n));
    KeepMembers(db.evidence, OtherEvidence(w, n));
    KeepMembers(db.relations, OtherRelation(w, n));
  }

  // ---------------------------------------------------------------- the extraction of a replacement

  /**
   * After a replacement the note has one extraction row, with the version and the prompt of the draft and the time of the
   * call; it keeps id and creation time of the row that was there, or is new.
   */
  lemma {:induction false} ReplacedExtraction(db: Db, workspace: string, note: string, source: string, d: Draft, now: nat)
    requires WellFormed(db)
    ensures var w, n := Clean(workspace, 128), Clean(note, 128);
            var before := Keep(db.extractions, ThisExtraction(w, n));
            |before| <= 1 &&
            Keep(Replace(db, workspace, note, source, d, now).extractions, ThisExtraction(w, n))
            == [Extraction(if before == [] then db.nextId else before[0].id, w, n, Clean(d.version, 128),
                           Clean(d.promptId, 256), if before == [] then now else before[0].createdAt, now)]
  {
    var w, n := Clean(workspace, 128), Clean(note, 128);
    var xs := db.extractions;
    var i := ExtractionIndex(xs, w, n);
    var row := Begin(db, w, n, d, now).0.extractions[i];
    if i < |xs| {
      OneRowOfTheNote(xs, i, db.nextId, xs[i]);
      assert xs[i := xs[i]] == xs;
      OneRowOfTheNote(xs, i, db.nextId, row);
    } else {
      KeepNone(xs, ThisExtraction(w, n));
      KeepAppend(xs, [row], ThisExtraction(w, n));
      KeepAll([row], ThisExtraction(w, n));
    }
  }
}
