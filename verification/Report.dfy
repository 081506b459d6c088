/** The benchmark report: three levels of counters over per-field details, and what it means for a
    report to cover an indexed corpus. */
module Report {
  import opened Common

  /** The nine invoice fields; a report may name others. */
  datatype Field = VendorName | InvoiceNumber | InvoiceDate | DueDate | TotalAmount | Currency | LineItems
                 | TaxAmount | PaymentTerms | Unknown(name: string)

  const INVOICE_FIELDS: seq<Field> :=
    [VendorName, InvoiceNumber, InvoiceDate, DueDate, TotalAmount, Currency, LineItems, TaxAmount, PaymentTerms]

  function FieldSet(): set<Field> { set f | f in INVOICE_FIELDS }

  /** The field is one of the nine (see `NineFields`). */
  predicate Listed(f: Field) { !f.Unknown? }

  datatype FieldStatus = Grounded | FalseRefusal | UngroundedRender | CorrectRefusal | IncorrectAnswer | Other(text: string)

  datatype Detail = Detail(field: Field, status: FieldStatus, grounded: bool, rendered: bool)

  datatype Counts = Counts(answerable: int, unanswerable: int, grounded: int, correctRefusals: int,
                           falseRefusals: int, ungrounded: int)

  const ZERO := Counts(0, 0, 0, 0, 0, 0)

  function Plus(a: Counts, b: Counts): Counts {
    Counts(a.answerable + b.answerable, a.unanswerable + b.unanswerable, a.grounded + b.grounded,
           a.correctRefusals + b.correctRefusals, a.falseRefusals + b.falseRefusals, a.ungrounded + b.ungrounded)
  }

  datatype Key = Key(pack: string, id: string, file: string)

  datatype DocRow = DocRow(key: Key, counts: Counts, details: seq<Detail>)

  datatype PackRow = PackRow(documents: int, counts: Counts)

  datatype Rate = Rate(numerator: int, denominator: int, measured: real)

  datatype BenchReport = BenchReport(corpusHash: string, docs: seq<DocRow>, packs: map<string, PackRow>,
                                     groundedRate: Rate, refusalRate: Rate, falseRefusalRate: Rate, renders: int)

  datatype ManifestDoc = ManifestDoc(key: Key, answerable: set<Field>)

  datatype Manifest = Manifest(packs: seq<string>, docs: seq<ManifestDoc>, corpusHash: string)

  // ---------- recounting ----------

  /** What one field detail adds to every level of counters. */
  function Contribution(answerable: bool, d: Detail): Counts {
    Counts(Bit(answerable), Bit(!answerable), Bit(d.status.Grounded?), Bit(d.status.CorrectRefusal?),
           Bit(d.status.FalseRefusal?), Bit(d.rendered && !d.grounded))
  }

  function Recount(answerable: set<Field>, details: seq<Detail>): Counts {
    if details == [] then ZERO else
      var m := |details| - 1;
      Plus(Recount(answerable, details[..m]), Contribution(details[m].field in answerable, details[m]))
  }

  function SumRows(rows: seq<DocRow>): Counts {
    if rows == [] then ZERO else Plus(SumRows(rows[..|rows| - 1]), rows[|rows| - 1].counts)
  }

  function SumPack(pack: string, rows: seq<DocRow>): Counts {
    if rows == [] then ZERO else
      var rest, row := SumPack(pack, rows[..|rows| - 1]), rows[|rows| - 1];
      if row.key.pack == pack then Plus(rest, row.counts) else rest
  }

  function DocsOf(pack: string, docs: seq<ManifestDoc>): nat {
    if docs == [] then 0 else DocsOf(pack, docs[..|docs| - 1]) + Bit(docs[|docs| - 1].key.pack == pack)
  }

  // ---------- coverage ----------

  /** The status fits the field's answerability and the rendering evidence. */
  predicate DetailOk(answerable: set<Field>, d: Detail) {
    && Listed(d.field)
    && match d.status
       case Grounded => d.field in answerable && d.grounded && d.rendered
       case FalseRefusal => d.field in answerable && !d.grounded && !d.rendered
       case UngroundedRender => d.field in answerable && !d.grounded && d.rendered
       case CorrectRefusal => d.field !in answerable && !d.grounded && !d.rendered
       case IncorrectAnswer => d.field !in answerable && d.rendered
       case Other(_) => false
  }

  ghost predicate DetailsOk(answerable: set<Field>, details: seq<Detail>) {
    NoRepeats(details) && forall i :: 0 <= i < |details| ==> DetailOk(answerable, details[i])
  }

  ghost predicate NoRepeats(details: seq<Detail>) {
    forall i, j :: 0 <= i < j < |details| ==> details[i].field != details[j].field
  }

  ghost predicate DocOk(answerable: set<Field>, row: DocRow) {
    |row.details| == 9 && DetailsOk(answerable, row.details) && row.counts == Recount(answerable, row.details)
  }

  /** The first index entry of a document. */
  function Lookup(docs: seq<ManifestDoc>, key: Key): (r: Option<set<Field>>)
    ensures r.None? <==> forall d | d in docs :: d.key != key
    ensures r.Some? ==> ManifestDoc(key, r.value) in docs
  {
    if docs == [] then None
    else if docs[0].key == key then Some(docs[0].answerable)
    else Lookup(docs[1..], key)
  }

  ghost predicate RowOk(m: Manifest, row: DocRow) {
    Lookup(m.docs, row.key).Some? && DocOk(Lookup(m.docs, row.key).value, row)
  }

  ghost predicate DistinctRows(rows: seq<DocRow>) {
    forall i, j :: 0 <= i < j < |rows| ==> rows[i].key != rows[j].key
  }

  ghost predicate PackOk(m: Manifest, r: BenchReport, pack: string) {
    pack in r.packs && r.packs[pack] == PackRow(DocsOf(pack, m.docs), SumPack(pack, r.docs))
  }

  ghost predicate GatesOk(r: BenchReport, t: Counts) {
    && r.groundedRate.numerator == t.grounded && r.groundedRate.denominator == t.answerable
    && r.refusalRate.numerator == t.correctRefusals && r.refusalRate.denominator == t.unanswerable
    && r.falseRefusalRate.numerator == t.falseRefusals && r.falseRefusalRate.denominator == t.answerable
    && r.renders == t.ungrounded
  }

  function PackNames(m: Manifest): set<string> { set p | p in m.packs }
  function ManifestKeys(m: Manifest): set<Key> { set d | d in m.docs :: d.key }
  function RowKeys(rows: seq<DocRow>): set<Key> { set row | row in rows :: row.key }

  /** The report counts every indexed document and every one of its fields exactly once, and all its
      totals are recounts of the field details. */
  ghost predicate Covers(m: Manifest, r: BenchReport) {
    && r.corpusHash == m.corpusHash && r.packs.Keys == PackNames(m)
    && DistinctRows(r.docs) && RowKeys(r.docs) == ManifestKeys(m)
    && (forall i :: 0 <= i < |r.docs| ==> RowOk(m, r.docs[i]))
    && (forall p :: p in PackNames(m) ==> PackOk(m, r, p))
    && GatesOk(r, SumRows(r.docs))
  }

  ghost predicate AllListed(fields: set<Field>) {
    forall f :: f in fields ==> Listed(f)
  }

  ghost predicate Distinct(names: seq<string>) {
    forall i, j :: 0 <= i < j < |names| ==> names[i] != names[j]
  }

  /** What loading the profile manifest has checked before anything is run. */
  ghost predicate ValidManifest(m: Manifest) {
    && Distinct(m.packs)
    && (forall i, j :: 0 <= i < j < |m.docs| ==> m.docs[i].key != m.docs[j].key)
    && (forall i :: 0 <= i < |m.docs| ==> m.docs[i].key.pack in m.packs && AllListed(m.docs[i].answerable))
  }

  // ---------- gates ----------

  datatype Metrics = Metrics(grounded: Rate, refusal: Rate, falseRefusal: Rate, renders: int)

  /** `Insufficient` is the error for a rate without a denominator, `Malformed` any other. */
  datatype MetricsResult = Measured(metrics: Metrics) | Insufficient | Malformed

  predicate RateOk(percent: (int, int) -> real, r: Rate) {
    && 0.0 <= r.measured <= 100.0 && 0 <= r.numerator <= r.denominator
    && (r.denominator > 0 ==> r.measured == percent(r.numerator, r.denominator))
  }

  /** `percent` is the rounding of numerator / denominator * 100 that producer and checker share. */
  function GateMetrics(percent: (int, int) -> real, r: BenchReport): MetricsResult {
    if !RateOk(percent, r.groundedRate) || !RateOk(percent, r.refusalRate) || !RateOk(percent, r.falseRefusalRate)
       || r.renders < 0 then Malformed
    else if r.groundedRate.denominator == 0 || r.refusalRate.denominator == 0 || r.falseRefusalRate.denominator == 0 then
      Insufficient
    else if r.groundedRate.denominator != r.falseRefusalRate.denominator then Malformed
    else Measured(Metrics(r.groundedRate, r.refusalRate, r.falseRefusalRate, r.renders))
  }

  predicate GroundedGate(m: Metrics) { m.grounded.numerator * 100 >= m.grounded.denominator * 95 }
  predicate RefusalGate(m: Metrics) { m.refusal.numerator == m.refusal.denominator }
  predicate FalseRefusalGate(m: Metrics) { m.falseRefusal.numerator * 100 < m.falseRefusal.denominator * 5 }
  predicate RenderGate(m: Metrics) { m.renders == 0 }

  predicate GatesPass(m: Metrics) {
    GroundedGate(m) && RefusalGate(m) && FalseRefusalGate(m) && RenderGate(m)
  }

  // ---------- what an accepted, passing report proves ----------

  function FieldsOf(details: seq<Detail>): set<Field> { set d | d in details :: d.field }

  lemma {:induction false} DistinctFields(details: seq<Detail>)
    requires NoRepeats(details)
    ensures |FieldsOf(details)| == |details|
  {
    if details != [] {
      var m := |details| - 1;
      DistinctFields(details[..m]);
      assert details == details[..m] + [details[m]];
      assert FieldsOf(details) == FieldsOf(details[..m]) + {details[m].field};
    }
  }

  lemma {:induction false} SubsetOfSameSize(a: set<Field>, b: set<Field>)
    requires a <= b && |a| == |b|
    ensures a == b
  {
    if a != {} {
      var x :| x in a;
      SubsetOfSameSize(a - {x}, b - {x});
    } else {
      assert |b| == 0;
    }
  }

  lemma NineFields()
    ensures |FieldSet()| == 9 && forall f :: f in FieldSet() <==> Listed(f)
  {
    var d := seq(9, i requires 0 <= i < 9 => Detail(INVOICE_FIELDS[i], Grounded, true, true));
    forall f ensures f in FieldSet() <==> f in FieldsOf(d) {
      if f in FieldSet() {
        var i :| 0 <= i < 9 && INVOICE_FIELDS[i] == f;
        assert d[i] in d;
      }
    }
    assert FieldSet() == FieldsOf(d);
    DistinctFields(d);
    forall f ensures f in FieldSet() <==> Listed(f) {
      match f {
        case VendorName => assert INVOICE_FIELDS[0] == f;
        case InvoiceNumber => assert INVOICE_FIELDS[1] == f;
        case InvoiceDate => assert INVOICE_FIELDS[2] == f;
        case DueDate => assert INVOICE_FIELDS[3] == f;
        case TotalAmount => assert INVOICE_FIELDS[4] == f;
        case Currency => assert INVOICE_FIELDS[5] == f;
        case LineItems => assert INVOICE_FIELDS[6] == f;
        case TaxAmount => assert INVOICE_FIELDS[7] == f;
        case PaymentTerms => assert INVOICE_FIELDS[8] == f;
        case Unknown(_) =>
      }
    }
  }

  /** Nine distinct invoice fields are the nine invoice fields. */
  lemma EveryFieldOnce(answerable: set<Field>, details: seq<Detail>, f: Field)
    requires |details| == 9 && DetailsOk(answerable, details) && Listed(f)
    ensures exists i :: 0 <= i < 9 && details[i].field == f && forall j :: 0 <= j < 9 && details[j].field == f ==> j == i
  {
    DistinctFields(details);
    NineFields();
    SubsetOfSameSize(FieldsOf(details), FieldSet());
    assert f in FieldsOf(details);
    var d :| d in details && d.field == f;
    var i :| 0 <= i < 9 && details[i] == d;
    assert forall j :: 0 <= j < 9 && details[j].field == f ==> j == i;
  }

  /** On details that pass, the six counters are tied together. */
  lemma {:induction false} RecountBounds(answerable: set<Field>, details: seq<Detail>)
    requires forall i :: 0 <= i < |details| ==> DetailOk(answerable, details[i])
    ensures Balanced(Recount(answerable, details))
    ensures var c := Recount(answerable, details); c.answerable + c.unanswerable == |details|
    ensures Recount(answerable, details).ungrounded == 0 ==> forall i :: 0 <= i < |details| ==> Safe(details[i])
    ensures Recount(answerable, details).correctRefusals == Recount(answerable, details).unanswerable ==>
              forall i :: 0 <= i < |details| && details[i].field !in answerable ==> details[i].status == CorrectRefusal
  {
    if details != [] {
      var m := |details| - 1;
      RecountBounds(answerable, details[..m]);
      assert DetailOk(answerable, details[m]);
      assert details == details[..m] + [details[m]];
    }
  }

  /** Refusals and answers stay within their populations, and an answerable field that is neither grounded
      nor refused was rendered without grounding. */
  predicate Balanced(c: Counts) {
    && 0 <= c.grounded && 0 <= c.correctRefusals <= c.unanswerable && 0 <= c.falseRefusals && 0 <= c.ungrounded
    && c.grounded + c.falseRefusals <= c.answerable <= c.grounded + c.falseRefusals + c.ungrounded
  }

  /** Nothing is shown that is not grounded. */
  predicate Safe(d: Detail) { d.rendered ==> d.grounded }

  predicate NineBalanced(c: Counts) {
    Balanced(c) && c.answerable + c.unanswerable == 9
  }

  lemma RowsBalanced(m: Manifest, r: BenchReport)
    requires Covers(m, r)
    ensures forall i :: 0 <= i < |r.docs| ==> NineBalanced(r.docs[i].counts)
  {
    forall i | 0 <= i < |r.docs| ensures NineBalanced(r.docs[i].counts) {
      assert RowOk(m, r.docs[i]);
      RecountBounds(Lookup(m.docs, r.docs[i].key).value, r.docs[i].details);
    }
  }

  lemma PlusBalanced(a: Counts, b: Counts)
    requires Balanced(a) && Balanced(b)
    ensures Balanced(Plus(a, b))
    ensures Plus(a, b).ungrounded == 0 ==> a.ungrounded == 0 && b.ungrounded == 0
    ensures Plus(a, b).correctRefusals == Plus(a, b).unanswerable ==>
              a.correctRefusals == a.unanswerable && b.correctRefusals == b.unanswerable
  {}

  lemma {:induction false} SumBalanced(rows: seq<DocRow>)
    requires forall i :: 0 <= i < |rows| ==> NineBalanced(rows[i].counts)
    ensures Balanced(SumRows(rows)) && SumRows(rows).answerable + SumRows(rows).unanswerable == 9 * |rows|
  {
    if rows != [] {
      var n := |rows| - 1;
      SumBalanced(rows[..n]);
      PlusBalanced(SumRows(rows[..n]), rows[n].counts);
    }
  }

  /** Totals without ungrounded renders, or without missed refusals, have none in any document. */
  lemma {:induction false} NoneAnywhere(rows: seq<DocRow>, i: nat)
    requires i < |rows| && forall k :: 0 <= k < |rows| ==> NineBalanced(rows[k].counts)
    ensures SumRows(rows).ungrounded == 0 ==> rows[i].counts.ungrounded == 0
    ensures SumRows(rows).correctRefusals == SumRows(rows).unanswerable ==>
              rows[i].counts.correctRefusals == rows[i].counts.unanswerable
  {
    var n := |rows| - 1;
    SumBalanced(rows[..n]);
    PlusBalanced(SumRows(rows[..n]), rows[n].counts);
    if i < n { NoneAnywhere(rows[..n], i); }
  }

  /** Every unanswerable field was refused, and nothing was rendered without grounding. */
  ghost predicate Clean(answerable: set<Field>, details: seq<Detail>) {
    forall j :: 0 <= j < |details| ==>
      Safe(details[j]) && (details[j].field !in answerable ==> details[j].status == CorrectRefusal)
  }

  /** A covering report whose gates pass proves, field by field: every unanswerable field of every document
      was refused, nothing was rendered anywhere without grounding, and strictly more than 95 per cent of
      the answerable fields were grounded and rendered. */
  lemma ReportIsSound(percent: (int, int) -> real, m: Manifest, r: BenchReport)
    requires Covers(m, r) && GateMetrics(percent, r).Measured? && GatesPass(GateMetrics(percent, r).metrics)
    ensures forall i :: 0 <= i < |r.docs| ==> Clean(Lookup(m.docs, r.docs[i].key).value, r.docs[i].details)
    ensures SumRows(r.docs).grounded * 100 > SumRows(r.docs).answerable * 95
    ensures SumRows(r.docs).correctRefusals == SumRows(r.docs).unanswerable && SumRows(r.docs).ungrounded == 0
  {
    RowsBalanced(m, r);
    SumBalanced(r.docs);
    forall i | 0 <= i < |r.docs| ensures Clean(Lookup(m.docs, r.docs[i].key).value, r.docs[i].details) {
      assert RowOk(m, r.docs[i]);
      NoneAnywhere(r.docs, i);
      RecountBounds(Lookup(m.docs, r.docs[i].key).value, r.docs[i].details);
    }
  }

  /** The grounded-answer gate adds nothing on a covering report: the render gate and the false-refusal
      gate imply it. */
  lemma GroundedGateIsImplied(percent: (int, int) -> real, m: Manifest, r: BenchReport)
    requires Covers(m, r) && GateMetrics(percent, r).Measured?
    requires RenderGate(GateMetrics(percent, r).metrics) && FalseRefusalGate(GateMetrics(percent, r).metrics)
    ensures GroundedGate(GateMetrics(percent, r).metrics)
  {
    RowsBalanced(m, r);
    SumBalanced(r.docs);
  }

  /** Every indexed document has exactly one row, and every invoice field exactly one detail in it. */
  lemma CountedExactlyOnce(m: Manifest, r: BenchReport, n: nat, f: Field) returns (i: nat, j: nat)
    requires Covers(m, r) && n < |m.docs| && Listed(f)
    ensures i < |r.docs| && r.docs[i].key == m.docs[n].key && j < |r.docs[i].details| && r.docs[i].details[j].field == f
    ensures forall k :: 0 <= k < |r.docs| && r.docs[k].key == m.docs[n].key ==> k == i
    ensures forall k :: 0 <= k < |r.docs[i].details| && r.docs[i].details[k].field == f ==> k == j
  {
    assert m.docs[n].key in RowKeys(r.docs);
    var row :| row in r.docs && row.key == m.docs[n].key;
    i :| 0 <= i < |r.docs| && r.docs[i] == row;
    assert RowOk(m, r.docs[i]);
    EveryFieldOnce(Lookup(m.docs, r.docs[i].key).value, r.docs[i].details, f);
    j :| 0 <= j < 9 && r.docs[i].details[j].field == f;
  }

  // ---------- packs partition the documents ----------

  function SumPacks(packs: seq<string>, rows: seq<DocRow>): Counts {
    if packs == [] then ZERO else Plus(SumPacks(packs[..|packs| - 1], rows), SumPack(packs[|packs| - 1], rows))
  }

  lemma {:induction false} SumPacksSnoc(packs: seq<string>, rows: seq<DocRow>, row: DocRow)
    requires Distinct(packs)
    ensures SumPacks(packs, rows + [row]) ==
              if row.key.pack in packs then Plus(SumPacks(packs, rows), row.counts) else SumPacks(packs, rows)
  {
    if packs != [] {
      var n := |packs| - 1;
      SumPacksSnoc(packs[..n], rows, row);
      assert (rows + [row])[..|rows|] == rows;
      assert packs == packs[..n] + [packs[n]];
    }
  }

  /** Summing pack by pack is summing document by document. */
  lemma {:induction false} PacksPartitionRows(packs: seq<string>, rows: seq<DocRow>)
    requires Distinct(packs)
    requires forall i :: 0 <= i < |rows| ==> rows[i].key.pack in packs
    ensures SumPacks(packs, rows) == SumRows(rows)
  {
    if rows == [] {
      NoRowsNoSums(packs);
    } else {
      var n := |rows| - 1;
      var init, row := rows[..n], rows[n];
      PacksPartitionRows(packs, init);
      SumPacksSnoc(packs, init, row);
      assert init + [row] == rows;
    }
  }

  lemma {:induction false} NoRowsNoSums(packs: seq<string>)
    ensures SumPacks(packs, []) == ZERO
  {
    if packs != [] { NoRowsNoSums(packs[..|packs| - 1]); }
  }
}
