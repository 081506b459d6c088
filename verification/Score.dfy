/** Scoring of predictions against labelled documents: every labelled field ends in one of five outcomes. */
module Score {
  import opened Common
  import opened Iou

  datatype Prediction = Prediction(docId: string, field: string, value: Option<string>, bbox: Box, refused: bool)

  datatype FieldLabel = FieldLabel(field: string, answerable: bool, value: string, variants: seq<string>, bbox: Box)

  datatype LabelFile = LabelFile(docId: string, extractions: seq<FieldLabel>)

  datatype DocRes = DocRes(grounded: int, answerable: int, falseRefusal: int, refusalCorrect: int, unanswerable: int)

  datatype ScoreResult = ScoreResult(groundedCorrect: int, groundedWrongBox: int, refusalCorrect: int, falseRefusal: int,
                                     hallucination: int, answerableTotal: int, unanswerableTotal: int,
                                     totalBadBoxes: int, blockedBadBoxes: int, perDoc: map<string, DocRes>)

  /** Whether a predicted value counts as the labelled value or one of its variants. */
  type Matcher = (string, string, seq<string>) -> bool

  // ---------- outcomes ----------

  datatype Outcome = GroundedCorrect | WrongBox | FalseRefusal | RefusalCorrect | Hallucination

  /** A labelled field with the prediction that is held against it. */
  datatype Case = Case(wanted: FieldLabel, found: Option<Prediction>)

  predicate Answered(p: Option<Prediction>) { p.Some? && !p.value.refused && p.value.value.Some? }

  /** The label carries a box: not the zero box, four numbers, positive width. */
  predicate HasRealBox(b: Box) { b != [0.0, 0.0, 0.0, 0.0] && |b| >= 4 && b[2] > 0.0 }

  function OutcomeOf(same: Matcher, c: Case): Outcome {
    if !Answered(c.found) then
      if c.wanted.answerable then FalseRefusal else RefusalCorrect
    else if !c.wanted.answerable then Hallucination
    else if !same(c.found.value.value.value, c.wanted.value, c.wanted.variants) then FalseRefusal
    else if HasRealBox(c.wanted.bbox) && BboxIou(c.wanted.bbox, c.found.value.bbox) < 0.5 then WrongBox
    else GroundedCorrect
  }

  /** The last prediction for a field of a document; earlier ones are overwritten. */
  function LastFor(preds: seq<Prediction>, docId: string, field: string): (r: Option<Prediction>)
    ensures r.Some? ==> r.value in preds && r.value.docId == docId && r.value.field == field
    ensures r.None? ==> forall i :: 0 <= i < |preds| ==> preds[i].docId != docId || preds[i].field != field
  {
    if preds == [] then None else
      var p := preds[|preds| - 1];
      if p.docId == docId && p.field == field then Some(p) else LastFor(preds[..|preds| - 1], docId, field)
  }

  function CasesOf(preds: seq<Prediction>, file: LabelFile): seq<Case> {
    seq(|file.extractions|, i requires 0 <= i < |file.extractions| =>
      Case(file.extractions[i], LastFor(preds, file.docId, file.extractions[i].field)))
  }

  function AllCases(preds: seq<Prediction>, files: seq<LabelFile>): seq<Case> {
    if files == [] then [] else AllCases(preds, files[..|files| - 1]) + CasesOf(preds, files[|files| - 1])
  }

  function Count(same: Matcher, o: Outcome, cases: seq<Case>): nat {
    if cases == [] then 0 else
      Count(same, o, cases[..|cases| - 1]) + Bit(OutcomeOf(same, cases[|cases| - 1]) == o)
  }

  function CountAnswerable(cases: seq<Case>): nat {
    if cases == [] then 0 else CountAnswerable(cases[..|cases| - 1]) + Bit(cases[|cases| - 1].wanted.answerable)
  }

  /** The counters are the counts of the cases' outcomes; no bad box is ever counted as blocked. */
  predicate Tallies(same: Matcher, r: ScoreResult, cases: seq<Case>) {
    && r.groundedCorrect == Count(same, GroundedCorrect, cases)
    && r.groundedWrongBox == Count(same, WrongBox, cases)
    && r.refusalCorrect == Count(same, RefusalCorrect, cases)
    && r.falseRefusal == Count(same, FalseRefusal, cases)
    && r.hallucination == Count(same, Hallucination, cases)
    && r.answerableTotal == CountAnswerable(cases)
    && r.unanswerableTotal == |cases| - CountAnswerable(cases)
    && r.totalBadBoxes == Count(same, WrongBox, cases) + Count(same, Hallucination, cases)
    && r.blockedBadBoxes == 0
  }

  function DocResOf(same: Matcher, cases: seq<Case>): DocRes {
    DocRes(Count(same, GroundedCorrect, cases), CountAnswerable(cases), Count(same, FalseRefusal, cases),
           Count(same, RefusalCorrect, cases), |cases| - CountAnswerable(cases))
  }

  /** One entry per document identifier, of the last file that carries it. */
  function PerDocOf(same: Matcher, preds: seq<Prediction>, files: seq<LabelFile>): map<string, DocRes> {
    if files == [] then map[] else
      var file := files[|files| - 1];
      PerDocOf(same, preds, files[..|files| - 1])[file.docId := DocResOf(same, CasesOf(preds, file))]
  }

  lemma CountSnoc(same: Matcher, cases: seq<Case>, c: Case)
    ensures forall o :: Count(same, o, cases + [c]) == Count(same, o, cases) + Bit(OutcomeOf(same, c) == o)
    ensures CountAnswerable(cases + [c]) == CountAnswerable(cases) + Bit(c.wanted.answerable)
  {
    assert (cases + [c])[..|cases|] == cases;
  }

  // ---------- the scorer ----------

  /** One more field with outcome `o`. */
  function StepResult(r: ScoreResult, answerable: bool, o: Outcome): ScoreResult {
    ScoreResult(r.groundedCorrect + Bit(o.GroundedCorrect?), r.groundedWrongBox + Bit(o.WrongBox?),
                r.refusalCorrect + Bit(o.RefusalCorrect?), r.falseRefusal + Bit(o.FalseRefusal?),
                r.hallucination + Bit(o.Hallucination?), r.answerableTotal + Bit(answerable),
                r.unanswerableTotal + Bit(!answerable), r.totalBadBoxes + Bit(o.WrongBox?) + Bit(o.Hallucination?),
                r.blockedBadBoxes, r.perDoc)
  }

  function StepDoc(d: DocRes, answerable: bool, o: Outcome): DocRes {
    DocRes(d.grounded + Bit(o.GroundedCorrect?), d.answerable + Bit(answerable), d.falseRefusal + Bit(o.FalseRefusal?),
           d.refusalCorrect + Bit(o.RefusalCorrect?), d.unanswerable + Bit(!answerable))
  }

  lemma StepTallies(same: Matcher, r: ScoreResult, cases: seq<Case>, c: Case)
    requires Tallies(same, r, cases)
    ensures Tallies(same, StepResult(r, c.wanted.answerable, OutcomeOf(same, c)), cases + [c])
  {
    CountSnoc(same, cases, c);
  }

  lemma StepDocRes(same: Matcher, cases: seq<Case>, c: Case)
    ensures StepDoc(DocResOf(same, cases), c.wanted.answerable, OutcomeOf(same, c)) == DocResOf(same, cases + [c])
  {
    CountSnoc(same, cases, c);
  }

  method ScoreField(same: Matcher, c: Case, r: ScoreResult, doc: DocRes) returns (next: ScoreResult, nextDoc: DocRes)
    ensures next == StepResult(r, c.wanted.answerable, OutcomeOf(same, c))
    ensures nextDoc == StepDoc(doc, c.wanted.answerable, OutcomeOf(same, c))
  {
    if c.wanted.answerable {
      next, nextDoc := ScoreAnswerable(same, c, r, doc);
    } else {
      next, nextDoc := ScoreUnanswerable(same, c, r, doc);
    }
  }

  method ScoreAnswerable(same: Matcher, c: Case, r: ScoreResult, doc: DocRes) returns (next: ScoreResult, nextDoc: DocRes)
    requires c.wanted.answerable
    ensures next == StepResult(r, true, OutcomeOf(same, c)) && nextDoc == StepDoc(doc, true, OutcomeOf(same, c))
  {
    next := r.(answerableTotal := r.answerableTotal + 1);
    nextDoc := doc.(answerable := doc.answerable + 1);
    if c.found.None? || c.found.value.refused || c.found.value.value.None? {
      next := next.(falseRefusal := next.falseRefusal + 1);
      nextDoc := nextDoc.(falseRefusal := nextDoc.falseRefusal + 1);
    } else {
      var b := c.wanted.bbox;
      var hasRealBox := b != [] && b != [0.0, 0.0, 0.0, 0.0] && |b| >= 4 && b[2] > 0.0;
      if same(c.found.value.value.value, c.wanted.value, c.wanted.variants) {
        if !hasRealBox || BboxIou(b, c.found.value.bbox) >= 0.5 {
          next := next.(groundedCorrect := next.groundedCorrect + 1);
          nextDoc := nextDoc.(grounded := nextDoc.grounded + 1);
        } else {
          next := next.(groundedWrongBox := next.groundedWrongBox + 1, totalBadBoxes := next.totalBadBoxes + 1);
        }
      } else {
        next := next.(falseRefusal := next.falseRefusal + 1);
        nextDoc := nextDoc.(falseRefusal := nextDoc.falseRefusal + 1);
      }
    }
  }

  method ScoreUnanswerable(same: Matcher, c: Case, r: ScoreResult, doc: DocRes) returns (next: ScoreResult, nextDoc: DocRes)
    requires !c.wanted.answerable
    ensures next == StepResult(r, false, OutcomeOf(same, c)) && nextDoc == StepDoc(doc, false, OutcomeOf(same, c))
  {
    next := r.(unanswerableTotal := r.unanswerableTotal + 1);
    nextDoc := doc.(unanswerable := doc.unanswerable + 1);
    if c.found.None? || c.found.value.refused || c.found.value.value.None? {
      next := next.(refusalCorrect := next.refusalCorrect + 1);
      nextDoc := nextDoc.(refusalCorrect := nextDoc.refusalCorrect + 1);
    } else {
      next := next.(hallucination := next.hallucination + 1, totalBadBoxes := next.totalBadBoxes + 1);
      if c.found.value.refused {
        next := next.(blockedBadBoxes := next.blockedBadBoxes + 1);
      }
    }
  }

  /** Predictions by document and field. */
  method IndexPredictions(preds: seq<Prediction>) returns (index: map<(string, string), Prediction>)
    ensures Indexes(index, preds)
  {
    index := map[];
    for i := 0 to |preds|
      invariant Indexes(index, preds[..i])
    {
      assert preds[..i + 1][..i] == preds[..i];
      index := index[(preds[i].docId, preds[i].field) := preds[i]];
    }
    assert preds[..|preds|] == preds;
  }

  /** `index` answers every lookup as the predictions themselves do. */
  ghost predicate Indexes(index: map<(string, string), Prediction>, preds: seq<Prediction>) {
    forall d, f :: LastFor(preds, d, f) == Found(index, d, f)
  }

  function Found(index: map<(string, string), Prediction>, d: string, f: string): Option<Prediction> {
    if (d, f) in index then Some(index[(d, f)]) else None
  }

  method ScoreDocument(same: Matcher, index: map<(string, string), Prediction>, file: LabelFile, before: ScoreResult,
                       ghost preds: seq<Prediction>, ghost all: seq<Case>)
    returns (r: ScoreResult, doc: DocRes)
    requires Indexes(index, preds) && Tallies(same, before, all)
    ensures Tallies(same, r, all + CasesOf(preds, file)) && doc == DocResOf(same, CasesOf(preds, file))
    ensures r.perDoc == before.perDoc
  {
    ghost var cases := CasesOf(preds, file);
    r, doc := before, DocRes(0, 0, 0, 0, 0);
    assert all + cases[..0] == all;
    for j := 0 to |file.extractions|
      invariant Tallies(same, r, all + cases[..j]) && doc == DocResOf(same, cases[..j]) && r.perDoc == before.perDoc
    {
      var c := Case(file.extractions[j], Found(index, file.docId, file.extractions[j].field));
      assert all + cases[..j] + [c] == all + cases[..j + 1];
      assert cases[..j] + [c] == cases[..j + 1];
      StepTallies(same, r, all + cases[..j], c);
      StepDocRes(same, cases[..j], c);
      r, doc := ScoreField(same, c, r, doc);
    }
    assert cases[..|file.extractions|] == cases;
  }

  method ScoreCorpus(same: Matcher, preds: seq<Prediction>, files: seq<LabelFile>) returns (r: ScoreResult)
    ensures Tallies(same, r, AllCases(preds, files)) && r.perDoc == PerDocOf(same, preds, files)
  {
    r := ScoreResult(0, 0, 0, 0, 0, 0, 0, 0, 0, map[]);
    var index := IndexPredictions(preds);
    for i := 0 to |files|
      invariant Tallies(same, r, AllCases(preds, files[..i])) && r.perDoc == PerDocOf(same, preds, files[..i])
    {
      assert files[..i + 1][..i] == files[..i];
      var doc;
      r, doc := ScoreDocument(same, index, files[i], r, preds, AllCases(preds, files[..i]));
      r := r.(perDoc := r.perDoc[files[i].docId := doc]);
    }
    assert files[..|files|] == files;
  }

  // ---------- what the numbers mean ----------

  /** Every answerable field ends in exactly one of three outcomes, every other field in one of two. */
  lemma {:induction false} Accounting(same: Matcher, cases: seq<Case>)
    ensures Count(same, GroundedCorrect, cases) + Count(same, WrongBox, cases) + Count(same, FalseRefusal, cases) ==
              CountAnswerable(cases)
    ensures Count(same, RefusalCorrect, cases) + Count(same, Hallucination, cases) == |cases| - CountAnswerable(cases)
  {
    if cases != [] {
      Accounting(same, cases[..|cases| - 1]);
    }
  }

  lemma {:induction false} NoneCounted(same: Matcher, o: Outcome, cases: seq<Case>)
    ensures Count(same, o, cases) == 0 <==> forall i :: 0 <= i < |cases| ==> OutcomeOf(same, cases[i]) != o
  {
    if cases != [] {
      var m := |cases| - 1;
      NoneCounted(same, o, cases[..m]);
      assert forall i :: 0 <= i < m ==> cases[..m][i] == cases[i];
    }
  }

  /** A right value in a real box is accepted only next to that box: areas within a factor of two, and at
      least half of the width and of the height of each box shared with the other. */
  lemma AcceptedBoxesAreClose(same: Matcher, c: Case)
    requires OutcomeOf(same, c) == GroundedCorrect && HasRealBox(c.wanted.bbox)
    ensures var (a, b) := (c.wanted.bbox, c.found.value.bbox);
            && Meets(a, b) && Area(a) <= 2.0 * Area(b) && Area(b) <= 2.0 * Area(a)
            && 2.0 * Meet(a, b)[2] >= a[2] && 2.0 * Meet(a, b)[3] >= a[3]
  {
    HalfMeansClose(c.wanted.bbox, c.found.value.bbox);
  }

  function Percent(n: int, d: int, fallback: real): real {
    if d != 0 then 100.0 * (n as real) / (d as real) else fallback
  }

  predicate GatesGreen(r: ScoreResult) {
    && Percent(r.groundedCorrect, r.answerableTotal, 0.0) >= 95.0
    && Percent(r.falseRefusal, r.answerableTotal, 0.0) < 5.0
    && Percent(r.refusalCorrect, r.unanswerableTotal, 100.0) >= 100.0
    && Percent(r.blockedBadBoxes, r.totalBadBoxes, 100.0) >= 100.0
  }

  lemma PercentCompares(n: int, d: int, fallback: real, c: int)
    requires d > 0
    ensures Percent(n, d, fallback) >= c as real <==> 100 * n >= c * d
  {
    FractionCompares(100.0 * (n as real), d as real, c as real);
    assert (100 * n) as real == 100.0 * (n as real);
    assert (c * d) as real == (c as real) * (d as real);
  }

  /** The share of bad boxes that were blocked is all or nothing: 100 without bad boxes, otherwise 0. */
  lemma BlockedRateIsAllOrNothing(same: Matcher, r: ScoreResult, cases: seq<Case>)
    requires Tallies(same, r, cases)
    ensures Percent(r.blockedBadBoxes, r.totalBadBoxes, 100.0) == if r.totalBadBoxes == 0 then 100.0 else 0.0
  {
    if r.totalBadBoxes != 0 { FractionCompares(0.0, r.totalBadBoxes as real, 0.0); }
  }

  ghost predicate NoBadBox(same: Matcher, cases: seq<Case>) {
    forall i :: 0 <= i < |cases| ==> OutcomeOf(same, cases[i]) != WrongBox && OutcomeOf(same, cases[i]) != Hallucination
  }

  /** The four gates say no more and no less than this: something was answerable, no value was given for an
      unanswerable field, no right value stood in a wrong box, and fewer than one answerable field in twenty
      was refused or wrong. */
  lemma GatesGreenIff(same: Matcher, r: ScoreResult, cases: seq<Case>)
    requires Tallies(same, r, cases)
    ensures GatesGreen(r) <==> r.answerableTotal > 0 && NoBadBox(same, cases) && 20 * r.falseRefusal < r.answerableTotal
  {
    Accounting(same, cases);
    NoneCounted(same, WrongBox, cases);
    NoneCounted(same, Hallucination, cases);
    BlockedRateIsAllOrNothing(same, r, cases);
    assert NoBadBox(same, cases) <==> r.totalBadBoxes == 0;
    if r.answerableTotal > 0 {
      PercentCompares(r.groundedCorrect, r.answerableTotal, 0.0, 95);
      PercentCompares(r.falseRefusal, r.answerableTotal, 0.0, 5);
    }
    if r.unanswerableTotal > 0 { PercentCompares(r.refusalCorrect, r.unanswerableTotal, 100.0, 100); }
  }

  // ---------- totals from the documents ----------

  /** The fields a document record leaves unexplained. */
  function BadIn(d: DocRes): int { d.answerable - d.grounded - d.falseRefusal + d.unanswerable - d.refusalCorrect }

  function SumBad(perDoc: map<string, DocRes>, files: seq<LabelFile>): int
    requires forall i :: 0 <= i < |files| ==> files[i].docId in perDoc
  {
    if files == [] then 0 else
      SumBad(perDoc, files[..|files| - 1]) + BadIn(perDoc[files[|files| - 1].docId])
  }

  ghost predicate DistinctIds(files: seq<LabelFile>) {
    forall i, j :: 0 <= i < j < |files| ==> files[i].docId != files[j].docId
  }

  lemma {:induction false} CountConcat(same: Matcher, o: Outcome, a: seq<Case>, b: seq<Case>)
    ensures Count(same, o, a + b) == Count(same, o, a) + Count(same, o, b)
  {
    if b == [] {
      assert a + b == a;
    } else {
      var m := |b| - 1;
      CountConcat(same, o, a, b[..m]);
      assert (a + b)[..|a| + m] == a + b[..m];
    }
  }

  lemma {:induction false} PerDocEntry(same: Matcher, preds: seq<Prediction>, files: seq<LabelFile>, i: nat)
    requires DistinctIds(files) && i < |files|
    ensures files[i].docId in PerDocOf(same, preds, files)
    ensures PerDocOf(same, preds, files)[files[i].docId] == DocResOf(same, CasesOf(preds, files[i]))
  {
    var m := |files| - 1;
    if i < m { PerDocEntry(same, preds, files[..m], i); }
  }

  lemma {:induction false} SumBadAgrees(same: Matcher, preds: seq<Prediction>, files: seq<LabelFile>, perDoc: map<string, DocRes>)
    requires forall i :: 0 <= i < |files| ==>
               files[i].docId in perDoc && perDoc[files[i].docId] == DocResOf(same, CasesOf(preds, files[i]))
    ensures SumBad(perDoc, files) ==
              Count(same, WrongBox, AllCases(preds, files)) + Count(same, Hallucination, AllCases(preds, files))
  {
    if files != [] {
      var m := |files| - 1;
      var init, cases := AllCases(preds, files[..m]), CasesOf(preds, files[m]);
      SumBadAgrees(same, preds, files[..m], perDoc);
      CountConcat(same, WrongBox, init, cases);
      CountConcat(same, Hallucination, init, cases);
      Accounting(same, cases);
    }
  }

  /** No document record counts a bad box, yet together they determine how many there were. */
  lemma DocumentsExplainBadBoxes(same: Matcher, preds: seq<Prediction>, files: seq<LabelFile>, r: ScoreResult)
    requires DistinctIds(files)
    requires Tallies(same, r, AllCases(preds, files)) && r.perDoc == PerDocOf(same, preds, files)
    ensures forall i :: 0 <= i < |files| ==> files[i].docId in r.perDoc
    ensures SumBad(r.perDoc, files) == r.totalBadBoxes
  {
    forall i | 0 <= i < |files|
      ensures files[i].docId in r.perDoc && r.perDoc[files[i].docId] == DocResOf(same, CasesOf(preds, files[i]))
    {
      PerDocEntry(same, preds, files, i);
    }
    SumBadAgrees(same, preds, files, r.perDoc);
  }
}
