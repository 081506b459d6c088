/** The independent validator of the benchmark report, and the release gates. */
module ReleaseCheck {
  import opened Common
  import opened Report

  datatype Coverage = Coverage(documents: nat, answerable: int, unanswerable: int)

  predicate InRange(c: Counts, n: nat) {
    && 0 <= c.answerable <= n && 0 <= c.unanswerable <= n && 0 <= c.grounded <= n
    && 0 <= c.correctRefusals <= n && 0 <= c.falseRefusals <= n && 0 <= c.ungrounded <= n
  }

  lemma {:induction false} RecountRange(answerable: set<Field>, details: seq<Detail>)
    ensures InRange(Recount(answerable, details), |details|)
  {
    if details != [] { RecountRange(answerable, details[..|details| - 1]); }
  }

  lemma RecountSnoc(answerable: set<Field>, details: seq<Detail>, d: Detail)
    ensures Recount(answerable, details + [d]) == Plus(Recount(answerable, details), Contribution(d.field in answerable, d))
    ensures FieldsOf(details + [d]) == FieldsOf(details) + {d.field}
  {
    assert (details + [d])[..|details|] == details;
  }

  lemma NoRepeatsSnoc(details: seq<Detail>, d: Detail)
    ensures NoRepeats(details + [d]) <==> NoRepeats(details) && d.field !in FieldsOf(details)
  {
    var all := details + [d];
    if NoRepeats(all) {
      forall i, j | 0 <= i < j < |details| ensures details[i].field != details[j].field {
        assert all[i] == details[i] && all[j] == details[j];
      }
      forall e | e in details ensures e.field != d.field {
        var i :| 0 <= i < |details| && details[i] == e;
        assert all[i].field != all[|details|].field;
      }
    }
    if NoRepeats(details) && d.field !in FieldsOf(details) {
      forall i, j | 0 <= i < j < |all| ensures all[i].field != all[j].field {
        if j == |details| { assert details[i] in details; }
      }
    }
  }

  lemma MeetGrows(a: set<Field>, s: set<Field>, f: Field)
    requires f !in s
    ensures |a * (s + {f})| == |a * s| + Bit(f in a)
  {
    if f in a {
      assert a * (s + {f}) == a * s + {f};
    } else {
      assert a * (s + {f}) == a * s;
    }
  }

  lemma {:induction false} AnswerableCounted(answerable: set<Field>, details: seq<Detail>)
    requires NoRepeats(details)
    ensures Recount(answerable, details).answerable == |answerable * FieldsOf(details)|
    ensures Recount(answerable, details).answerable + Recount(answerable, details).unanswerable == |details|
  {
    if details == [] {
      assert answerable * FieldsOf(details) == {};
    } else {
      var init, d := details[..|details| - 1], details[|details| - 1];
      assert details == init + [d];
      NoRepeatsSnoc(init, d);
      AnswerableCounted(answerable, init);
      RecountSnoc(answerable, init, d);
      MeetGrows(answerable, FieldsOf(init), d.field);
    }
  }

  /** The two populations of a document that passes are those of its index entry. */
  lemma PopulationsMatch(answerable: set<Field>, details: seq<Detail>)
    requires |details| == 9 && DetailsOk(answerable, details) && AllListed(answerable)
    ensures Recount(answerable, details).answerable == |answerable|
    ensures Recount(answerable, details).unanswerable == 9 - |answerable|
  {
    AnswerableCounted(answerable, details);
    DistinctFields(details);
    NineFields();
    SubsetOfSameSize(FieldsOf(details), FieldSet());
    assert answerable * FieldsOf(details) == answerable;
  }

  /** Status, answerability and evidence flags of one detail. */
  method CheckDetail(answerable: set<Field>, d: Detail) returns (ok: bool)
    requires Listed(d.field)
    ensures ok <==> DetailOk(answerable, d)
  {
    var allowed := if d.field in answerable then {Grounded, FalseRefusal, UngroundedRender}
                   else {CorrectRefusal, IncorrectAnswer};
    if d.status !in allowed {
      return false;
    }
    if (d.status == Grounded && (!d.grounded || !d.rendered))
       || (d.status in {FalseRefusal, CorrectRefusal} && (d.grounded || d.rendered))
       || (d.status == UngroundedRender && (d.grounded || !d.rendered))
       || (d.status == IncorrectAnswer && !d.rendered) {
      return false;
    }
    ok := true;
  }

  /** `c` up to the two populations, which come from the index and not from the details. */
  function Populated(c: Counts, answerable: set<Field>): Counts {
    c.(answerable := |answerable|, unanswerable := 9 - |answerable|)
  }

  lemma PrefixDetails(answerable: set<Field>, details: seq<Detail>, i: nat)
    requires i <= |details| && DetailsOk(answerable, details)
    ensures DetailsOk(answerable, details[..i])
  {}

  lemma DetailsOkSnoc(answerable: set<Field>, details: seq<Detail>, i: nat)
    requires i < |details| && DetailsOk(answerable, details[..i])
    ensures DetailsOk(answerable, details[..i + 1]) <==>
              details[i].field !in FieldsOf(details[..i]) && DetailOk(answerable, details[i])
    ensures DetailsOk(answerable, details) ==> DetailsOk(answerable, details[..i + 1])
  {
    var init, d := details[..i], details[i];
    assert details[..i + 1] == init + [d];
    NoRepeatsSnoc(init, d);
    if DetailsOk(answerable, details[..i + 1]) { assert DetailOk(answerable, details[..i + 1][i]); }
    if DetailsOk(answerable, details) { PrefixDetails(answerable, details, i + 1); }
  }

  lemma CountsSnoc(answerable: set<Field>, details: seq<Detail>, i: nat)
    requires i < |details|
    ensures FieldsOf(details[..i + 1]) == FieldsOf(details[..i]) + {details[i].field}
    ensures Populated(Recount(answerable, details[..i + 1]), answerable) ==
              Plus(Populated(Recount(answerable, details[..i]), answerable),
                   Contribution(true, details[i]).(answerable := 0, unanswerable := 0))
  {
    assert details[..i + 1] == details[..i] + [details[i]];
    RecountSnoc(answerable, details[..i], details[i]);
  }

  /** The counter increments of one detail; the populations are not its business. */
  method CountDetail(c: Counts, d: Detail) returns (next: Counts)
    ensures next == Plus(c, Contribution(true, d).(answerable := 0, unanswerable := 0))
  {
    next := c;
    match d.status {
      case Grounded => next := next.(grounded := next.grounded + 1);
      case FalseRefusal => next := next.(falseRefusals := next.falseRefusals + 1);
      case CorrectRefusal => next := next.(correctRefusals := next.correctRefusals + 1);
      case _ =>
    }
    if d.rendered && !d.grounded {
      next := next.(ungrounded := next.ungrounded + 1);
    }
  }

  /** The detail loop: every field new and known, every status justified; returns the recount. */
  method DeriveCounts(answerable: set<Field>, details: seq<Detail>) returns (r: Result<Counts>)
    ensures r.Ok? <==> DetailsOk(answerable, details)
    ensures r.Ok? ==> r.value == Populated(Recount(answerable, details), answerable)
  {
    var fields, derived := {}, Counts(|answerable|, 9 - |answerable|, 0, 0, 0, 0);
    for i := 0 to |details|
      invariant fields == FieldsOf(details[..i]) && DetailsOk(answerable, details[..i])
      invariant derived == Populated(Recount(answerable, details[..i]), answerable)
    {
      var d := details[i];
      DetailsOkSnoc(answerable, details, i);
      CountsSnoc(answerable, details, i);
      if !Listed(d.field) || d.field in fields {
        return Rejected;
      }
      fields := fields + {d.field};
      var fits := CheckDetail(answerable, d);
      if !fits {
        return Rejected;
      }
      derived := CountDetail(derived, d);
    }
    assert details[..|details|] == details;
    r := Ok(derived);
  }

  /** One document: its counts, its nine details, and that the former recount the latter. */
  method CheckDocument(answerable: set<Field>, row: DocRow) returns (ok: bool)
    requires AllListed(answerable)
    ensures ok <==> DocOk(answerable, row)
  {
    RecountRange(answerable, row.details);
    if |row.details| == 9 && DetailsOk(answerable, row.details) {
      PopulationsMatch(answerable, row.details);
    }
    if !InRange(row.counts, 9) {
      return false;
    }
    if row.counts.answerable != |answerable| || row.counts.unanswerable != 9 - |answerable| {
      return false;
    }
    if |row.details| != 9 {
      return false;
    }
    var derived := DeriveCounts(answerable, row.details);
    ok := derived.Ok? && row.counts == derived.value;
  }

  lemma SumPackSnoc(pack: string, rows: seq<DocRow>, i: nat)
    requires i < |rows|
    ensures SumPack(pack, rows[..i + 1]) ==
              if rows[i].key.pack == pack then Plus(SumPack(pack, rows[..i]), rows[i].counts) else SumPack(pack, rows[..i])
  {
    assert rows[..i + 1][..i] == rows[..i];
  }

  lemma LookupFirst(docs: seq<ManifestDoc>, n: nat)
    requires n < |docs| && forall i, j :: 0 <= i < j < |docs| ==> docs[i].key != docs[j].key
    ensures Lookup(docs, docs[n].key) == Some(docs[n].answerable)
  {
    var r := Lookup(docs, docs[n].key);
    assert docs[n] in docs;
    var i :| 0 <= i < |docs| && docs[i] == ManifestDoc(docs[n].key, r.value);
  }

  ghost predicate RowsChecked(m: Manifest, rows: seq<DocRow>) {
    DistinctRows(rows) && forall i :: 0 <= i < |rows| ==> RowOk(m, rows[i])
  }

  lemma DistinctSnoc(init: seq<DocRow>, row: DocRow)
    ensures DistinctRows(init + [row]) <==> DistinctRows(init) && row.key !in RowKeys(init)
    ensures RowKeys(init + [row]) == RowKeys(init) + {row.key}
  {
    var next := init + [row];
    if DistinctRows(next) {
      forall i, j | 0 <= i < j < |init| ensures init[i].key != init[j].key {
        assert next[i] == init[i] && next[j] == init[j];
      }
      forall other | other in init ensures other.key != row.key {
        var j :| 0 <= j < |init| && init[j] == other;
        assert next[j].key != next[|init|].key;
      }
    }
    if DistinctRows(init) && row.key !in RowKeys(init) {
      forall j, k | 0 <= j < k < |next| ensures next[j].key != next[k].key {
        if k == |init| { assert init[j] in init; }
      }
    }
  }

  lemma RowsSnoc(m: Manifest, rows: seq<DocRow>, i: nat)
    requires i < |rows| && RowsChecked(m, rows[..i])
    ensures RowsChecked(m, rows[..i + 1]) <==> rows[i].key !in RowKeys(rows[..i]) && RowOk(m, rows[i])
    ensures RowsChecked(m, rows) ==> RowsChecked(m, rows[..i + 1])
    ensures RowKeys(rows[..i + 1]) == RowKeys(rows[..i]) + {rows[i].key}
  {
    var next := rows[..i + 1];
    assert next == rows[..i] + [rows[i]];
    DistinctSnoc(rows[..i], rows[i]);
    forall j | 0 <= j < i ensures RowOk(m, next[j]) { assert RowOk(m, rows[..i][j]); }
    if RowsChecked(m, next) { assert RowOk(m, next[i]); }
    if RowsChecked(m, rows) { assert RowOk(m, rows[i]); }
  }

  lemma SumsStep(packs: set<string>, rows: seq<DocRow>, i: nat, sums: map<string, Counts>)
    requires i < |rows| && sums.Keys == packs && rows[i].key.pack in packs
    requires forall p :: p in packs ==> sums[p] == SumPack(p, rows[..i])
    ensures var p := rows[i].key.pack;
            forall q :: q in packs ==> sums[p := Plus(sums[p], rows[i].counts)][q] == SumPack(q, rows[..i + 1])
  {
    forall q | q in packs { SumPackSnoc(q, rows, i); }
  }

  /** The document pass: identities, per-document checks and the sums per pack. */
  method CheckDocuments(m: Manifest, packs: set<string>, rows: seq<DocRow>) returns (r: Result<map<string, Counts>>)
    requires ValidManifest(m) && packs == PackNames(m)
    ensures r.Ok? <==> RowsChecked(m, rows) && RowKeys(rows) == ManifestKeys(m)
    ensures r.Ok? ==> r.value.Keys == packs && forall p :: p in packs ==> r.value[p] == SumPack(p, rows)
  {
    var sums: map<string, Counts> := map p | p in packs :: ZERO;
    var seen: set<Key> := {};
    for i := 0 to |rows|
      invariant seen == RowKeys(rows[..i]) && RowsChecked(m, rows[..i])
      invariant sums.Keys == packs && forall p :: p in packs ==> sums[p] == SumPack(p, rows[..i])
    {
      var row := rows[i];
      RowsSnoc(m, rows, i);
      var truth := Lookup(m.docs, row.key);
      if truth.None? || row.key in seen {
        return Rejected;
      }
      seen := seen + {row.key};
      InIndex(m, row.key);
      var ok := CheckDocument(truth.value, row);
      if !ok {
        return Rejected;
      }
      SumsStep(packs, rows, i, sums);
      sums := sums[row.key.pack := Plus(sums[row.key.pack], row.counts)];
    }
    assert rows[..|rows|] == rows;
    if seen != set d | d in m.docs :: d.key {
      return Rejected;
    }
    r := Ok(sums);
  }

  lemma InIndex(m: Manifest, key: Key)
    requires ValidManifest(m) && Lookup(m.docs, key).Some?
    ensures AllListed(Lookup(m.docs, key).value) && key.pack in PackNames(m)
  {
    var i :| 0 <= i < |m.docs| && m.docs[i] == ManifestDoc(key, Lookup(m.docs, key).value);
  }

  method CountDocs(pack: string, docs: seq<ManifestDoc>) returns (n: nat)
    ensures n == DocsOf(pack, docs)
  {
    n := 0;
    for i := 0 to |docs|
      invariant n == DocsOf(pack, docs[..i])
    {
      assert docs[..i + 1][..i] == docs[..i];
      if docs[i].key.pack == pack {
        n := n + 1;
      }
    }
    assert docs[..|docs|] == docs;
  }

  /** The pack pass: each pack's row against the sums, and the totals over all packs. */
  method CheckPacks(m: Manifest, r: BenchReport, sums: map<string, Counts>) returns (ok: bool, totals: Counts)
    requires Distinct(m.packs) && r.packs.Keys == PackNames(m) == sums.Keys
    requires forall p :: p in sums ==> sums[p] == SumPack(p, r.docs)
    ensures ok <==> forall p :: p in PackNames(m) ==> PackOk(m, r, p)
    ensures ok ==> totals == SumPacks(m.packs, r.docs)
  {
    totals := ZERO;
    for i := 0 to |m.packs|
      invariant totals == SumPacks(m.packs[..i], r.docs)
      invariant forall j :: 0 <= j < i ==> PackOk(m, r, m.packs[j])
    {
      var p := m.packs[i];
      assert p in PackNames(m);
      assert m.packs[..i + 1][..i] == m.packs[..i];
      var n := CountDocs(p, m.docs);
      if r.packs[p].documents != n || r.packs[p].counts != sums[p] {
        assert !PackOk(m, r, p);
        return false, totals;
      }
      totals := Plus(totals, sums[p]);
    }
    assert m.packs[..|m.packs|] == m.packs;
    ok := true;
  }

  /** Accepts exactly the reports that cover the manifest. */
  method ValidateReportCoverage(m: Manifest, r: BenchReport) returns (res: Result<Coverage>)
    requires ValidManifest(m)
    ensures res.Ok? <==> Covers(m, r)
    ensures res.Ok? ==> res.value == Coverage(|r.docs|, SumRows(r.docs).answerable, SumRows(r.docs).unanswerable)
  {
    if r.corpusHash != m.corpusHash {
      return Rejected;
    }
    var names := set p | p in m.packs;
    if r.packs.Keys != names {
      return Rejected;
    }
    var sums := CheckDocuments(m, names, r.docs);
    if sums.Rejected? {
      return Rejected;
    }
    var ok, totals := CheckPacks(m, r, sums.value);
    if !ok {
      return Rejected;
    }
    RowsInPacks(m, r.docs);
    PacksPartitionRows(m.packs, r.docs);
    if r.groundedRate.numerator != totals.grounded || r.groundedRate.denominator != totals.answerable
       || r.refusalRate.numerator != totals.correctRefusals || r.refusalRate.denominator != totals.unanswerable
       || r.falseRefusalRate.numerator != totals.falseRefusals || r.falseRefusalRate.denominator != totals.answerable {
      return Rejected;
    }
    if r.renders != totals.ungrounded {
      return Rejected;
    }
    res := Ok(Coverage(|r.docs|, totals.answerable, totals.unanswerable));
  }

  lemma RowsInPacks(m: Manifest, rows: seq<DocRow>)
    requires ValidManifest(m) && RowsChecked(m, rows)
    ensures forall i :: 0 <= i < |rows| ==> rows[i].key.pack in m.packs
  {
    forall i | 0 <= i < |rows| ensures rows[i].key.pack in m.packs {
      assert RowOk(m, rows[i]);
      InIndex(m, rows[i].key);
    }
  }
}
