/** The benchmark that produces the report: nested loops over packs, fixtures and fields that step
    document, pack and global counters together. */
module Harness {
  import opened Common
  import opened Report

  /** A ground-truth value as far as answerability looks at it. */
  datatype Truth = Null | Text(blank: bool) | Collection(size: nat) | Scalar

  /** An anchor: whether its chunk is in the store, and whether the verifier confirms the value in it. */
  datatype Anchor = Anchor(inStore: bool, confirmed: bool)

  /** An extraction: whether the quality gate blocks it when first and when next asked, whether its own
      grounding method is "block", and its anchors. */
  datatype Extraction = Extraction(blocks: bool, blocksAgain: bool, ungroundable: bool, anchors: seq<Anchor>)

  datatype Fixture = Fixture(id: string, file: string, present: bool, truth: map<Field, Truth>,
                             extractions: map<Field, Extraction>)

  datatype PackConfig = PackConfig(name: string, indexed: bool, fields: seq<Field>, fixtures: seq<Fixture>)

  // ---------- what one field comes to ----------

  function TruthOf(fx: Fixture, f: Field): Truth {
    if f in fx.truth then fx.truth[f] else Null
  }

  predicate IsFieldAnswerable(v: Truth) {
    if v.Null? then false
    else if v.Text? && v.blank then false
    else if v.Collection? && v.size == 0 then false
    else true
  }

  predicate AnchorHolds(a: Anchor) { a.inStore && a.confirmed }

  predicate Grounds(e: Extraction) {
    !e.ungroundable && e.anchors != [] && forall i | 0 <= i < |e.anchors| :: AnchorHolds(e.anchors[i])
  }

  function FieldDetail(fx: Fixture, f: Field): Detail {
    if IsFieldAnswerable(TruthOf(fx, f)) then
      if f !in fx.extractions || fx.extractions[f].blocks then Detail(f, FalseRefusal, false, false)
      else if Grounds(fx.extractions[f]) then Detail(f, Grounded, true, true)
      else Detail(f, UngroundedRender, false, true)
    else if f !in fx.extractions || fx.extractions[f].blocks then Detail(f, CorrectRefusal, false, false)
    else Detail(f, IncorrectAnswer, Grounds(fx.extractions[f]), !fx.extractions[f].blocksAgain)
  }

  // ---------- what the loops build ----------

  function AnswerableSet(fx: Fixture): set<Field> {
    set f | f in fx.truth && IsFieldAnswerable(fx.truth[f])
  }

  function DetailsOf(fields: seq<Field>, fx: Fixture): seq<Detail> {
    seq(|fields|, i requires 0 <= i < |fields| => FieldDetail(fx, fields[i]))
  }

  datatype Job = Job(pack: string, fields: seq<Field>, fx: Fixture)

  function KeyOf(j: Job): Key { Key(j.pack, j.fx.id, j.fx.file) }

  function RowOf(j: Job): DocRow {
    var details := DetailsOf(j.fields, j.fx);
    DocRow(KeyOf(j), Recount(AnswerableSet(j.fx), details), details)
  }

  /** A fixture whose file is missing is passed over. */
  function RowsOf(jobs: seq<Job>): seq<DocRow> {
    if jobs == [] then [] else
      var rest, j := RowsOf(jobs[..|jobs| - 1]), jobs[|jobs| - 1];
      if j.fx.present then rest + [RowOf(j)] else rest
  }

  predicate Skipped(c: PackConfig) { !c.indexed || c.fixtures == [] }

  function JobsOf(c: PackConfig): seq<Job> {
    if Skipped(c) then [] else seq(|c.fixtures|, i requires 0 <= i < |c.fixtures| => Job(c.name, c.fields, c.fixtures[i]))
  }

  function Jobs(configs: seq<PackConfig>): seq<Job> {
    if configs == [] then [] else Jobs(configs[..|configs| - 1]) + JobsOf(configs[|configs| - 1])
  }

  function PackRows(configs: seq<PackConfig>): map<string, PackRow> {
    if configs == [] then map[] else
      var rest, c := PackRows(configs[..|configs| - 1]), configs[|configs| - 1];
      if Skipped(c) then rest else rest[c.name := PackRow(|c.fixtures|, SumRows(RowsOf(JobsOf(c))))]
  }

  function RateOf(percent: (int, int) -> real, n: int, d: int, fallback: real): Rate {
    Rate(n, d, if d != 0 then percent(n, d) else fallback)
  }

  function ReportOf(percent: (int, int) -> real, corpusHash: string, configs: seq<PackConfig>): BenchReport {
    var rows := RowsOf(Jobs(configs));
    var t := SumRows(rows);
    BenchReport(corpusHash, rows, PackRows(configs),
                RateOf(percent, t.grounded, t.answerable, 100.0),
                RateOf(percent, t.correctRefusals, t.unanswerable, 100.0),
                RateOf(percent, t.falseRefusals, t.answerable, 0.0),
                t.ungrounded)
  }

  lemma PlusLaws(a: Counts, b: Counts, c: Counts)
    ensures Plus(Plus(a, b), c) == Plus(a, Plus(b, c)) && Plus(a, ZERO) == a == Plus(ZERO, a)
  {}

  lemma RecountOneMore(answerable: set<Field>, fields: seq<Field>, fx: Fixture, i: nat)
    requires i < |fields|
    ensures DetailsOf(fields[..i + 1], fx) == DetailsOf(fields[..i], fx) + [FieldDetail(fx, fields[i])]
    ensures Recount(answerable, DetailsOf(fields[..i + 1], fx)) ==
              Plus(Recount(answerable, DetailsOf(fields[..i], fx)),
                   Contribution(fields[i] in answerable, FieldDetail(fx, fields[i])))
  {
    var d := DetailsOf(fields[..i], fx) + [FieldDetail(fx, fields[i])];
    assert DetailsOf(fields[..i + 1], fx) == d;
    assert d[..i] == DetailsOf(fields[..i], fx);
  }

  class Bench {
    var doc: Counts
    var pack: Counts
    var total: Counts
    var details: seq<Detail>
    var rows: seq<DocRow>
    var packs: map<string, PackRow>

    constructor ()
      ensures total == ZERO && rows == [] && packs == map[]
    {
      doc, pack, total, details, rows, packs := ZERO, ZERO, ZERO, [], [], map[];
    }

    /** Grounded by the evidence of its anchors, checked one by one until one fails. */
    method IsExtractionGrounded(e: Extraction, blocks: bool) returns (grounded: bool, rendered: bool)
      ensures grounded == Grounds(e) && rendered == !blocks
    {
      rendered := !blocks;
      grounded := false;
      if !e.ungroundable && e.anchors != [] {
        var all := true;
        for i := 0 to |e.anchors|
          invariant all && forall j | 0 <= j < i :: AnchorHolds(e.anchors[j])
        {
          if !e.anchors[i].inStore || !e.anchors[i].confirmed {
            all := false;
            break;
          }
        }
        grounded := all;
      }
    }

    /** One field: its detail, and the same increments on all three levels. */
    method ScoreField(fx: Fixture, f: Field)
      modifies this
      ensures details == old(details) + [FieldDetail(fx, f)] && rows == old(rows) && packs == old(packs)
      ensures var c := Contribution(f in AnswerableSet(fx), FieldDetail(fx, f));
              doc == Plus(old(doc), c) && pack == Plus(old(pack), c) && total == Plus(old(total), c)
    {
      if IsFieldAnswerable(TruthOf(fx, f)) {
        pack := pack.(answerable := pack.answerable + 1);
        doc := doc.(answerable := doc.answerable + 1);
        total := total.(answerable := total.answerable + 1);
        ScoreAnswerable(fx, f);
      } else {
        pack := pack.(unanswerable := pack.unanswerable + 1);
        doc := doc.(unanswerable := doc.unanswerable + 1);
        total := total.(unanswerable := total.unanswerable + 1);
        ScoreUnanswerable(fx, f);
      }
    }

    method ScoreAnswerable(fx: Fixture, f: Field)
      requires IsFieldAnswerable(TruthOf(fx, f))
      modifies this
      ensures details == old(details) + [FieldDetail(fx, f)] && rows == old(rows) && packs == old(packs)
      ensures var c := Contribution(true, FieldDetail(fx, f)).(answerable := 0);
              doc == Plus(old(doc), c) && pack == Plus(old(pack), c) && total == Plus(old(total), c)
    {
      if f !in fx.extractions {
        pack := pack.(falseRefusals := pack.falseRefusals + 1);
        doc := doc.(falseRefusals := doc.falseRefusals + 1);
        total := total.(falseRefusals := total.falseRefusals + 1);
        details := details + [Detail(f, FalseRefusal, false, false)];
      } else {
        var ext := fx.extractions[f];
        var grounded, rendered := IsExtractionGrounded(ext, ext.blocks);
        if grounded && rendered {
          pack := pack.(grounded := pack.grounded + 1);
          doc := doc.(grounded := doc.grounded + 1);
          total := total.(grounded := total.grounded + 1);
          details := details + [Detail(f, Grounded, true, true)];
        } else if rendered && !grounded {
          pack := pack.(ungrounded := pack.ungrounded + 1);
          doc := doc.(ungrounded := doc.ungrounded + 1);
          total := total.(ungrounded := total.ungrounded + 1);
          details := details + [Detail(f, UngroundedRender, false, true)];
        } else {
          pack := pack.(falseRefusals := pack.falseRefusals + 1);
          doc := doc.(falseRefusals := doc.falseRefusals + 1);
          total := total.(falseRefusals := total.falseRefusals + 1);
          details := details + [Detail(f, FalseRefusal, false, false)];
        }
      }
    }

    method ScoreUnanswerable(fx: Fixture, f: Field)
      requires !IsFieldAnswerable(TruthOf(fx, f))
      modifies this
      ensures details == old(details) + [FieldDetail(fx, f)] && rows == old(rows) && packs == old(packs)
      ensures var c := Contribution(false, FieldDetail(fx, f)).(unanswerable := 0);
              doc == Plus(old(doc), c) && pack == Plus(old(pack), c) && total == Plus(old(total), c)
    {
      if f !in fx.extractions || fx.extractions[f].blocks {
        pack := pack.(correctRefusals := pack.correctRefusals + 1);
        doc := doc.(correctRefusals := doc.correctRefusals + 1);
        total := total.(correctRefusals := total.correctRefusals + 1);
        details := details + [Detail(f, CorrectRefusal, false, false)];
      } else {
        var ext := fx.extractions[f];
        var grounded, rendered := IsExtractionGrounded(ext, ext.blocksAgain);
        if rendered && !grounded {
          pack := pack.(ungrounded := pack.ungrounded + 1);
          doc := doc.(ungrounded := doc.ungrounded + 1);
          total := total.(ungrounded := total.ungrounded + 1);
        }
        details := details + [Detail(f, IncorrectAnswer, grounded, rendered)];
      }
    }

    method RunDocument(j: Job)
      modifies this
      ensures rows == old(rows) + [RowOf(j)] && packs == old(packs)
      ensures pack == Plus(old(pack), RowOf(j).counts) && total == Plus(old(total), RowOf(j).counts)
    {
      ghost var ans := AnswerableSet(j.fx);
      doc, details := ZERO, [];
      for i := 0 to |j.fields|
        invariant details == DetailsOf(j.fields[..i], j.fx) && rows == old(rows) && packs == old(packs)
        invariant doc == Recount(ans, details)
        invariant pack == Plus(old(pack), doc) && total == Plus(old(total), doc)
      {
        RecountOneMore(ans, j.fields, j.fx, i);
        ghost var c := Contribution(j.fields[i] in ans, FieldDetail(j.fx, j.fields[i]));
        PlusLaws(old(pack), doc, c);
        PlusLaws(old(total), doc, c);
        ScoreField(j.fx, j.fields[i]);
      }
      assert j.fields[..|j.fields|] == j.fields;
      rows := rows + [DocRow(KeyOf(j), doc, details)];
    }

    method RunPack(c: PackConfig)
      modifies this
      ensures rows == old(rows) + RowsOf(JobsOf(c))
      ensures total == Plus(old(total), SumRows(RowsOf(JobsOf(c))))
      ensures packs == if Skipped(c) then old(packs)
                       else old(packs)[c.name := PackRow(|c.fixtures|, SumRows(RowsOf(JobsOf(c))))]
    {
      if !c.indexed || c.fixtures == [] {
        PlusLaws(total, ZERO, ZERO);
        return;
      }
      ghost var jobs := JobsOf(c);
      pack := ZERO;
      for i := 0 to |c.fixtures|
        invariant rows == old(rows) + RowsOf(jobs[..i]) && packs == old(packs)
        invariant pack == SumRows(RowsOf(jobs[..i])) && total == Plus(old(total), pack)
      {
        assert jobs[..i + 1][..i] == jobs[..i];
        if c.fixtures[i].present {
          ghost var before := RowsOf(jobs[..i]);
          assert (before + [RowOf(jobs[i])])[..|before|] == before;
          PlusLaws(old(total), pack, RowOf(jobs[i]).counts);
          RunDocument(Job(c.name, c.fields, c.fixtures[i]));
        }
      }
      assert jobs[..|c.fixtures|] == jobs;
      packs := packs[c.name := PackRow(|c.fixtures|, pack)];
    }

    method RunBenchmark(percent: (int, int) -> real, corpusHash: string, configs: seq<PackConfig>) returns (r: BenchReport)
      requires total == ZERO && rows == [] && packs == map[]
      modifies this
      ensures r == ReportOf(percent, corpusHash, configs)
    {
      for i := 0 to |configs|
        invariant rows == RowsOf(Jobs(configs[..i])) && packs == PackRows(configs[..i])
        invariant total == SumRows(rows)
      {
        assert configs[..i + 1][..i] == configs[..i];
        RowsConcat(Jobs(configs[..i]), JobsOf(configs[i]));
        SumConcat(rows, RowsOf(JobsOf(configs[i])));
        RunPack(configs[i]);
      }
      assert configs[..|configs|] == configs;
      r := BenchReport(corpusHash, rows, packs,
                       Rate(total.grounded, total.answerable,
                            if total.answerable != 0 then percent(total.grounded, total.answerable) else 100.0),
                       Rate(total.correctRefusals, total.unanswerable,
                            if total.unanswerable != 0 then percent(total.correctRefusals, total.unanswerable) else 100.0),
                       Rate(total.falseRefusals, total.answerable,
                            if total.answerable != 0 then percent(total.falseRefusals, total.answerable) else 0.0),
                       total.ungrounded);
    }
  }

  lemma {:induction false} RowsConcat(a: seq<Job>, b: seq<Job>)
    ensures RowsOf(a + b) == RowsOf(a) + RowsOf(b)
  {
    if b == [] {
      assert a + b == a;
    } else {
      var m := |b| - 1;
      RowsConcat(a, b[..m]);
      assert (a + b)[..|a| + m] == a + b[..m];
    }
  }

  lemma {:induction false} SumConcat(a: seq<DocRow>, b: seq<DocRow>)
    ensures SumRows(a + b) == Plus(SumRows(a), SumRows(b))
  {
    if b == [] {
      assert a + b == a;
    } else {
      var m := |b| - 1;
      SumConcat(a, b[..m]);
      assert (a + b)[..|a| + m] == a + b[..m];
    }
  }
}
