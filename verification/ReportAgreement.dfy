/** Producer and validator, written apart, agree: exactly when. */
module ReportAgreement {
  import opened Common
  import opened Report
  import opened Harness
  import RC = ReleaseCheck

  /** The validator's own notion of answerability. */
  predicate Answerable(v: Truth) {
    !v.Null? && !(v.Text? && v.blank) && !(v.Collection? && v.size == 0)
  }

  function IndexedAnswerable(fx: Fixture): set<Field> {
    set f | f in fx.truth && Listed(f) && Answerable(fx.truth[f])
  }

  function EntryOf(j: Job): ManifestDoc { ManifestDoc(KeyOf(j), IndexedAnswerable(j.fx)) }

  function Names(configs: seq<PackConfig>): seq<string> {
    seq(|configs|, i requires 0 <= i < |configs| => configs[i].name)
  }

  function Entries(jobs: seq<Job>): seq<ManifestDoc> {
    seq(|jobs|, i requires 0 <= i < |jobs| => EntryOf(jobs[i]))
  }

  function ManifestOf(corpusHash: string, configs: seq<PackConfig>): Manifest {
    Manifest(Names(configs), Entries(Jobs(configs)), corpusHash)
  }

  predicate ListsInvoiceFields(fields: seq<Field>) {
    && |fields| == 9
    && (forall i, j | 0 <= i < j < 9 :: fields[i] != fields[j])
    && (forall i | 0 <= i < 9 :: Listed(fields[i]))
  }

  ghost predicate JobValid(j: Job) {
    ListsInvoiceFields(j.fields) && FullTruth(j.fx)
  }

  /** Ground truth for all and only the invoice fields. */
  ghost predicate FullTruth(fx: Fixture) {
    forall f :: f in fx.truth <==> Listed(f)
  }

  ghost predicate DistinctKeys(jobs: seq<Job>) {
    forall i, j :: 0 <= i < j < |jobs| ==> KeyOf(jobs[i]) != KeyOf(jobs[j])
  }

  /** What loading the profile has checked: distinct pack names, every pack indexed and non-empty,
      distinct documents, and ground truth for all and only the invoice fields. */
  ghost predicate ValidProfile(configs: seq<PackConfig>) {
    && Distinct(Names(configs))
    && (forall i :: 0 <= i < |configs| ==> !Skipped(configs[i]))
    && DistinctKeys(Jobs(configs))
    && (forall i :: 0 <= i < |Jobs(configs)| ==> JobValid(Jobs(configs)[i]))
  }

  /** Asked twice about an extraction for an unanswerable field, the quality gate does not change to "block". */
  ghost predicate GateRepeats(fx: Fixture) {
    forall f :: Listed(f) && !IsFieldAnswerable(TruthOf(fx, f)) && f in fx.extractions ==>
      !fx.extractions[f].blocks ==> !fx.extractions[f].blocksAgain
  }

  lemma AnswerabilityAgrees(fx: Fixture)
    requires FullTruth(fx)
    ensures IndexedAnswerable(fx) == AnswerableSet(fx) && AllListed(AnswerableSet(fx))
    ensures forall f :: f in AnswerableSet(fx) <==> Listed(f) && IsFieldAnswerable(TruthOf(fx, f))
  {}

  lemma FieldOk(fx: Fixture, f: Field)
    requires FullTruth(fx) && Listed(f)
    ensures DetailOk(AnswerableSet(fx), FieldDetail(fx, f)) <==>
              (!IsFieldAnswerable(TruthOf(fx, f)) && f in fx.extractions && !fx.extractions[f].blocks ==>
                !fx.extractions[f].blocksAgain)
  {
    AnswerabilityAgrees(fx);
  }

  lemma {:induction false} ListedOnce(fields: seq<Field>, f: Field) returns (i: nat)
    requires ListsInvoiceFields(fields) && Listed(f)
    ensures i < 9 && fields[i] == f
  {
    var d := seq(9, i requires 0 <= i < 9 => Detail(fields[i], Grounded, true, true));
    DistinctFields(d);
    NineFields();
    SubsetOfSameSize(FieldsOf(d), FieldSet());
    assert f in FieldsOf(d);
    var e :| e in d && e.field == f;
    i :| 0 <= i < 9 && d[i] == e;
  }

  lemma OkDetailsRepeat(j: Job, f: Field)
    requires JobValid(j) && DetailsOk(AnswerableSet(j.fx), DetailsOf(j.fields, j.fx)) && Listed(f)
    ensures DetailOk(AnswerableSet(j.fx), FieldDetail(j.fx, f))
  {
    var i := ListedOnce(j.fields, f);
    assert DetailsOf(j.fields, j.fx)[i] == FieldDetail(j.fx, f);
  }

  lemma FieldsDoNotRepeat(j: Job)
    requires JobValid(j)
    ensures NoRepeats(DetailsOf(j.fields, j.fx))
  {}

  lemma DetailsOkIff(j: Job)
    requires JobValid(j)
    ensures DetailsOk(AnswerableSet(j.fx), DetailsOf(j.fields, j.fx)) <==> GateRepeats(j.fx)
  {
    var ans, details := AnswerableSet(j.fx), DetailsOf(j.fields, j.fx);
    FieldsDoNotRepeat(j);
    if DetailsOk(ans, details) {
      forall f | Listed(f) && !IsFieldAnswerable(TruthOf(j.fx, f)) && f in j.fx.extractions
        ensures !j.fx.extractions[f].blocks ==> !j.fx.extractions[f].blocksAgain
      {
        OkDetailsRepeat(j, f);
        FieldOk(j.fx, f);
      }
    }
    if GateRepeats(j.fx) {
      forall i | 0 <= i < |details| ensures DetailOk(ans, details[i]) { FieldOk(j.fx, j.fields[i]); }
    }
  }

  lemma RowOkIff(m: Manifest, jobs: seq<Job>, n: nat)
    requires n < |jobs| && m.docs == Entries(jobs) && DistinctKeys(jobs) && JobValid(jobs[n])
    ensures RowOk(m, RowOf(jobs[n])) <==> GateRepeats(jobs[n].fx)
  {
    RC.LookupFirst(m.docs, n);
    AnswerabilityAgrees(jobs[n].fx);
    DetailsOkIff(jobs[n]);
  }

  // ---------- rows and presence ----------

  ghost predicate AllPresent(jobs: seq<Job>) {
    forall i :: 0 <= i < |jobs| ==> jobs[i].fx.present
  }

  lemma {:induction false} PresentRows(jobs: seq<Job>)
    requires AllPresent(jobs)
    ensures |RowsOf(jobs)| == |jobs| && forall i :: 0 <= i < |jobs| ==> RowsOf(jobs)[i] == RowOf(jobs[i])
  {
    if jobs != [] { PresentRows(jobs[..|jobs| - 1]); }
  }

  lemma {:induction false} RowsComeFromPresentJobs(jobs: seq<Job>, row: DocRow)
    requires row in RowsOf(jobs)
    ensures exists i :: 0 <= i < |jobs| && jobs[i].fx.present && row == RowOf(jobs[i])
  {
    var m := |jobs| - 1;
    if row in RowsOf(jobs[..m]) {
      RowsComeFromPresentJobs(jobs[..m], row);
      var i :| 0 <= i < m && jobs[..m][i].fx.present && row == RowOf(jobs[..m][i]);
      assert jobs[i] == jobs[..m][i];
    }
  }

  lemma AbsentLeavesGap(jobs: seq<Job>, n: nat)
    requires n < |jobs| && DistinctKeys(jobs) && !jobs[n].fx.present
    ensures KeyOf(jobs[n]) !in RowKeys(RowsOf(jobs))
  {
    if KeyOf(jobs[n]) in RowKeys(RowsOf(jobs)) {
      var row :| row in RowsOf(jobs) && row.key == KeyOf(jobs[n]);
      RowsComeFromPresentJobs(jobs, row);
    }
  }

  lemma PresentKeys(jobs: seq<Job>, m: Manifest)
    requires AllPresent(jobs) && DistinctKeys(jobs) && m.docs == Entries(jobs)
    ensures DistinctRows(RowsOf(jobs)) && RowKeys(RowsOf(jobs)) == ManifestKeys(m)
  {
    var rows := RowsOf(jobs);
    PresentRows(jobs);
    forall k ensures k in RowKeys(rows) <==> k in ManifestKeys(m) {
      if k in RowKeys(rows) {
        var i :| 0 <= i < |rows| && rows[i].key == k;
        assert m.docs[i] in m.docs;
      }
      if k in ManifestKeys(m) {
        var i :| 0 <= i < |m.docs| && m.docs[i].key == k;
        assert rows[i] in rows;
      }
    }
  }

  // ---------- packs ----------

  lemma {:induction false} SumPackConcat(p: string, a: seq<DocRow>, b: seq<DocRow>)
    ensures SumPack(p, a + b) == Plus(SumPack(p, a), SumPack(p, b))
  {
    if b == [] {
      assert a + b == a;
    } else {
      var m := |b| - 1;
      SumPackConcat(p, a, b[..m]);
      assert (a + b)[..|a| + m] == a + b[..m];
    }
  }

  lemma {:induction false} SumPackUniform(p: string, q: string, jobs: seq<Job>)
    requires forall i :: 0 <= i < |jobs| ==> jobs[i].pack == q
    ensures SumPack(p, RowsOf(jobs)) == if p == q then SumRows(RowsOf(jobs)) else ZERO
  {
    if jobs != [] {
      var m := |jobs| - 1;
      SumPackUniform(p, q, jobs[..m]);
      var rest := RowsOf(jobs[..m]);
      assert (rest + [RowOf(jobs[m])])[..|rest|] == rest;
    }
  }

  lemma {:induction false} DocsOfConcat(p: string, a: seq<ManifestDoc>, b: seq<ManifestDoc>)
    ensures DocsOf(p, a + b) == DocsOf(p, a) + DocsOf(p, b)
  {
    if b == [] {
      assert a + b == a;
    } else {
      var m := |b| - 1;
      DocsOfConcat(p, a, b[..m]);
      assert (a + b)[..|a| + m] == a + b[..m];
    }
  }

  lemma {:induction false} DocsOfUniform(p: string, q: string, docs: seq<ManifestDoc>)
    requires forall i :: 0 <= i < |docs| ==> docs[i].key.pack == q
    ensures DocsOf(p, docs) == if p == q then |docs| else 0
  {
    if docs != [] { DocsOfUniform(p, q, docs[..|docs| - 1]); }
  }

  lemma RowsOfOnePack(p: string, a: seq<DocRow>, b: seq<DocRow>)
    ensures SumPack(p, b) == ZERO ==> SumPack(p, a + b) == SumPack(p, a)
    ensures SumPack(p, a) == ZERO ==> SumPack(p, a + b) == SumPack(p, b)
  {
    SumPackConcat(p, a, b);
    PlusLaws(SumPack(p, a), ZERO, ZERO);
    PlusLaws(SumPack(p, b), ZERO, ZERO);
  }

  lemma MoreRows(p: string, q: string, a: seq<Job>, b: seq<Job>)
    requires forall i :: 0 <= i < |b| ==> b[i].pack == q
    ensures p != q ==> SumPack(p, RowsOf(a + b)) == SumPack(p, RowsOf(a))
    ensures p == q && SumPack(p, RowsOf(a)) == ZERO ==> SumPack(p, RowsOf(a + b)) == SumRows(RowsOf(b))
  {
    RowsConcat(a, b);
    SumPackUniform(p, q, b);
    RowsOfOnePack(p, RowsOf(a), RowsOf(b));
  }

  lemma MoreDocs(p: string, q: string, a: seq<Job>, b: seq<Job>)
    requires forall i :: 0 <= i < |b| ==> b[i].pack == q
    ensures p != q ==> DocsOf(p, Entries(a + b)) == DocsOf(p, Entries(a))
    ensures p == q ==> DocsOf(p, Entries(a + b)) == DocsOf(p, Entries(a)) + |b|
  {
    var docs := Entries(b);
    assert Entries(a + b) == Entries(a) + docs;
    DocsOfConcat(p, Entries(a), docs);
    DocsOfUniform(p, q, docs);
  }

  /** What the validator expects in the row of pack `p`. */
  function Expected(p: string, jobs: seq<Job>): PackRow {
    PackRow(DocsOf(p, Entries(jobs)), SumPack(p, RowsOf(jobs)))
  }

  /** Jobs of one pack make up the row of its name, and change no other row. */
  lemma ExpectedStep(p: string, q: string, a: seq<Job>, b: seq<Job>)
    requires forall i :: 0 <= i < |b| ==> b[i].pack == q
    ensures p != q ==> Expected(p, a + b) == Expected(p, a)
    ensures p == q && Expected(p, a) == PackRow(0, ZERO) ==> Expected(p, a + b) == PackRow(|b|, SumRows(RowsOf(b)))
  {
    MoreRows(p, q, a, b);
    MoreDocs(p, q, a, b);
  }

  lemma JobsAreOfPack(c: PackConfig)
    requires !Skipped(c)
    ensures |JobsOf(c)| == |c.fixtures| && forall i :: 0 <= i < |JobsOf(c)| ==> JobsOf(c)[i].pack == c.name
  {}

  /** Whatever is present and whatever the gate does, each pack's row is the expected one. */
  lemma {:induction false} PackRowsAreRight(p: string, configs: seq<PackConfig>)
    requires Distinct(Names(configs)) && forall i :: 0 <= i < |configs| ==> !Skipped(configs[i])
    ensures p in PackRows(configs) <==> p in Names(configs)
    ensures Expected(p, Jobs(configs)) == if p in Names(configs) then PackRows(configs)[p] else PackRow(0, ZERO)
  {
    if configs != [] {
      var init, c := configs[..|configs| - 1], configs[|configs| - 1];
      NamesPrefix(configs);
      PackRowsAreRight(p, init);
      JobsAreOfPack(c);
      ExpectedStep(p, c.name, Jobs(init), JobsOf(c));
    }
  }

  lemma NamesPrefix(configs: seq<PackConfig>)
    requires configs != [] && Distinct(Names(configs))
    ensures Distinct(Names(configs[..|configs| - 1]))
    ensures configs[|configs| - 1].name !in Names(configs[..|configs| - 1])
    ensures Names(configs) == Names(configs[..|configs| - 1]) + [configs[|configs| - 1].name]
  {
    var init := configs[..|configs| - 1];
    forall i, j | 0 <= i < j < |init| ensures Names(init)[i] != Names(init)[j] {
      assert Names(configs)[i] != Names(configs)[j];
    }
    forall i | 0 <= i < |init| ensures Names(init)[i] != configs[|configs| - 1].name {
      assert Names(configs)[i] != Names(configs)[|configs| - 1];
    }
  }

  lemma {:induction false} JobPacksAreNamed(configs: seq<PackConfig>, i: nat)
    requires i < |Jobs(configs)|
    ensures Jobs(configs)[i].pack in Names(configs)
  {
    var m := |configs| - 1;
    var init, c := configs[..m], configs[m];
    assert Names(configs) == Names(init) + [c.name];
    if i < |Jobs(init)| { JobPacksAreNamed(init, i); }
  }

  lemma PacksAgree(corpusHash: string, percent: (int, int) -> real, configs: seq<PackConfig>)
    requires ValidProfile(configs)
    ensures var m, r := ManifestOf(corpusHash, configs), ReportOf(percent, corpusHash, configs);
            && r.packs.Keys == PackNames(m)
            && forall p :: p in PackNames(m) ==> PackOk(m, r, p)
  {
    var m, r := ManifestOf(corpusHash, configs), ReportOf(percent, corpusHash, configs);
    forall p ensures (p in r.packs <==> p in PackNames(m)) && (p in PackNames(m) ==> PackOk(m, r, p)) {
      PackRowsAreRight(p, configs);
    }
  }

  // ---------- the agreement ----------

  ghost predicate Reproducible(configs: seq<PackConfig>) {
    AllPresent(Jobs(configs)) && AllRepeat(Jobs(configs))
  }

  lemma PresentRowsOkIff(m: Manifest, jobs: seq<Job>)
    requires m.docs == Entries(jobs) && DistinctKeys(jobs) && AllPresent(jobs)
    requires forall i :: 0 <= i < |jobs| ==> JobValid(jobs[i])
    ensures |RowsOf(jobs)| == |jobs|
    ensures forall i :: 0 <= i < |jobs| ==> (RowOk(m, RowsOf(jobs)[i]) <==> GateRepeats(jobs[i].fx))
  {
    PresentRows(jobs);
    forall i | 0 <= i < |jobs| ensures RowOk(m, RowsOf(jobs)[i]) <==> GateRepeats(jobs[i].fx) { RowOkIff(m, jobs, i); }
  }

  lemma MissingFileIsRejected(m: Manifest, jobs: seq<Job>)
    requires m.docs == Entries(jobs) && DistinctKeys(jobs) && !AllPresent(jobs)
    ensures RowKeys(RowsOf(jobs)) != ManifestKeys(m)
  {
    var n :| 0 <= n < |jobs| && !jobs[n].fx.present;
    AbsentLeavesGap(jobs, n);
    assert m.docs[n] in m.docs;
    assert m.docs[n].key in ManifestKeys(m);
  }

  ghost predicate AllRepeat(jobs: seq<Job>) {
    forall i :: 0 <= i < |jobs| ==> GateRepeats(jobs[i].fx)
  }

  lemma PresentRowsOk(m: Manifest, jobs: seq<Job>)
    requires m.docs == Entries(jobs) && DistinctKeys(jobs) && AllPresent(jobs)
    requires forall i :: 0 <= i < |jobs| ==> JobValid(jobs[i])
    ensures (forall i :: 0 <= i < |RowsOf(jobs)| ==> RowOk(m, RowsOf(jobs)[i])) <==> AllRepeat(jobs)
  {
    PresentRowsOkIff(m, jobs);
    var rows := RowsOf(jobs);
    if forall i :: 0 <= i < |rows| ==> RowOk(m, rows[i]) {
      forall i | 0 <= i < |jobs| ensures GateRepeats(jobs[i].fx) { assert RowOk(m, rows[i]); }
    }
    if AllRepeat(jobs) {
      forall i | 0 <= i < |rows| ensures RowOk(m, rows[i]) { assert GateRepeats(jobs[i].fx); }
    }
  }

  lemma OnlyRowsMatter(m: Manifest, r: BenchReport)
    requires r.corpusHash == m.corpusHash && r.packs.Keys == PackNames(m)
    requires DistinctRows(r.docs) && RowKeys(r.docs) == ManifestKeys(m) && GatesOk(r, SumRows(r.docs))
    requires forall p :: p in PackNames(m) ==> PackOk(m, r, p)
    ensures Covers(m, r) <==> forall i :: 0 <= i < |r.docs| ==> RowOk(m, r.docs[i])
  {}

  /** With every file there, all the validator can object to is a detail. */
  lemma PresentCovers(corpusHash: string, percent: (int, int) -> real, configs: seq<PackConfig>)
    requires ValidProfile(configs) && AllPresent(Jobs(configs))
    ensures Covers(ManifestOf(corpusHash, configs), ReportOf(percent, corpusHash, configs)) <==> AllRepeat(Jobs(configs))
  {
    var m, r, jobs := ManifestOf(corpusHash, configs), ReportOf(percent, corpusHash, configs), Jobs(configs);
    PacksAgree(corpusHash, percent, configs);
    PresentKeys(jobs, m);
    PresentRowsOk(m, jobs);
    OnlyRowsMatter(m, r);
  }

  /** For every profile that loads and every outcome of every field, the report the nested loops build is
      accepted exactly if every indexed file was there when the benchmark ran and the quality gate gave
      unanswerable fields the same answer both times it was asked. */
  lemma AcceptedIffReproducible(corpusHash: string, percent: (int, int) -> real, configs: seq<PackConfig>)
    requires ValidProfile(configs)
    ensures Covers(ManifestOf(corpusHash, configs), ReportOf(percent, corpusHash, configs)) <==> Reproducible(configs)
  {
    if AllPresent(Jobs(configs)) {
      PresentCovers(corpusHash, percent, configs);
    } else {
      MissingFileIsRejected(ManifestOf(corpusHash, configs), Jobs(configs));
    }
  }

  lemma ManifestIsValid(corpusHash: string, configs: seq<PackConfig>)
    requires ValidProfile(configs)
    ensures ValidManifest(ManifestOf(corpusHash, configs))
  {
    var m, jobs := ManifestOf(corpusHash, configs), Jobs(configs);
    forall i | 0 <= i < |m.docs| ensures m.docs[i].key.pack in m.packs && AllListed(m.docs[i].answerable) {
      JobPacksAreNamed(configs, i);
      AnswerabilityAgrees(jobs[i].fx);
    }
  }

  lemma RateIsOk(percent: (int, int) -> real, n: int, d: int, fallback: real)
    requires forall n, d :: 0 <= n <= d && d > 0 ==> 0.0 <= percent(n, d) <= 100.0
    requires 0 <= n <= d && 0.0 <= fallback <= 100.0
    ensures RateOk(percent, RateOf(percent, n, d, fallback))
  {}

  /** The metrics of an accepted benchmark report are never malformed: it is measured, unless one of the
      two populations is empty, and then the error says so. */
  lemma ProducerIsMeasurable(corpusHash: string, percent: (int, int) -> real, configs: seq<PackConfig>)
    requires ValidProfile(configs) && Reproducible(configs)
    requires forall n, d :: 0 <= n <= d && d > 0 ==> 0.0 <= percent(n, d) <= 100.0
    ensures var r := ReportOf(percent, corpusHash, configs);
            var t := SumRows(r.docs);
            GateMetrics(percent, r) == if t.answerable == 0 || t.unanswerable == 0 then Insufficient
                                       else Measured(Metrics(r.groundedRate, r.refusalRate, r.falseRefusalRate, r.renders))
  {
    var t := SumRows(RowsOf(Jobs(configs)));
    assert Balanced(t) by {
      AcceptedIffReproducible(corpusHash, percent, configs);
      RowsBalanced(ManifestOf(corpusHash, configs), ReportOf(percent, corpusHash, configs));
      SumBalanced(RowsOf(Jobs(configs)));
    }
    RateIsOk(percent, t.grounded, t.answerable, 100.0);
    RateIsOk(percent, t.correctRefusals, t.unanswerable, 100.0);
    RateIsOk(percent, t.falseRefusals, t.answerable, 0.0);
  }

  predicate Cleared(r: MetricsResult) {
    r.Measured? && GatesPass(r.metrics)
  }

  const CHECK_NAMES: set<string> :=
    {"cloud_tier_policy_rejection", "synthetic_safety_audits", "ungrounded_sample_rejected"}

  /** Exactly the three regression checks were made, and all of them passed. */
  predicate ChecksPass(checks: map<string, bool>) {
    checks.Keys == CHECK_NAMES && forall n | n in checks :: checks[n]
  }

  /** Benchmark, validation, regression checks and gates end to end. */
  method CheckRelease(corpusHash: string, percent: (int, int) -> real, configs: seq<PackConfig>, checks: map<string, bool>)
    returns (passed: bool)
    requires ValidProfile(configs)
    ensures passed <==> Reproducible(configs) && ChecksPass(checks)
                        && Cleared(GateMetrics(percent, ReportOf(percent, corpusHash, configs)))
  {
    var bench := new Bench();
    var r := bench.RunBenchmark(percent, corpusHash, configs);
    ManifestIsValid(corpusHash, configs);
    AcceptedIffReproducible(corpusHash, percent, configs);
    var coverage := RC.ValidateReportCoverage(ManifestOf(corpusHash, configs), r);
    if coverage.Rejected? {
      return false;
    }
    var metrics := GateMetrics(percent, r);
    if checks.Keys != CHECK_NAMES {
      return false;
    }
    passed := Cleared(metrics) && forall n | n in checks.Keys :: checks[n];
  }
}
