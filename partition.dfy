/** `filter_vcf`: stream the records of a VCF file through the line filter,
    write the kept ones to the output writer and, when a second file name is
    given, the rejected ones to a second writer, and return the counts.

    `Partition` describes the whole run as a function of the records; the
    method `FilterVcf` is the loop, proved to leave its writers holding what
    `Partition` says. */
module Partition {
  import opened Results
  import opened LineFilter

  /** A `vcf.Writer` on a file opened for writing: the records written so far. */
  class Writer {
    const path: string
    var records: seq<Record>

    /** `open(path, "w")` truncates the file, so a new writer holds nothing. */
    constructor (path: string)
      ensures this.path == path && records == []
    {
      this.path := path;
      records := [];
    }

    /** `write_record`: append one record. */
    method WriteRecord(r: Record)
      modifies this
      ensures records == old(records) + [r]
    {
      records := records + [r];
    }
  }

  /** The dictionary `{"N": ..., "filtered": ..., "unfiltered": ...}`. */
  datatype Counts = Counts(n: nat, filtered: int, unfiltered: nat)

  /** What a run over some records produces: the kept records, the rejected
      ones, both in input order, and the error that stopped the run, if any. */
  datatype Outcome = Outcome(passed: seq<Record>, rejected: seq<Record>, error: Option<FilterError>)

  /** The verdict of the line filter under `spec`, as a function of the record. */
  function Judge(spec: FilterSpec): Record -> Result<bool> {
    rec => LinePasses(rec, spec)
  }

  /** The run over `recs`, record by record, each judged by `judge`; an error
      stops it, and the records before it stay written. */
  function Partition(recs: seq<Record>, judge: Record -> Result<bool>): Outcome {
    if recs == [] then Outcome([], [], None)
    else
      var o := Partition(recs[..|recs| - 1], judge);
      var last := recs[|recs| - 1];
      if o.error.Some? then o
      else
        match judge(last)
        case Err(e) => Outcome(o.passed, o.rejected, Some(e))
        case Ok(true) => Outcome(o.passed + [last], o.rejected, None)
        case Ok(false) => Outcome(o.passed, o.rejected + [last], None)
  }

  // ---------------------------------------------------------------------------
  // Properties of a run
  // ---------------------------------------------------------------------------

  /** Every record of an error-free run is written to exactly one side, so
      `filtered = N - unfiltered` is the number of rejected records. */
  lemma {:induction false} PartitionSizes(recs: seq<Record>, judge: Record -> Result<bool>)
    ensures var o := Partition(recs, judge);
      |o.passed| + |o.rejected| <= |recs|
      && (o.error.None? ==> |o.passed| + |o.rejected| == |recs|)
    decreases |recs|
  {
    if recs != [] {
      PartitionSizes(recs[..|recs| - 1], judge);
    }
  }

  /** `filtered`, computed as `N - unfiltered`, is the number of records
      written to the second writer. */
  lemma FilteredIsRejected(recs: seq<Record>, judge: Record -> Result<bool>)
    requires Partition(recs, judge).error.None?
    ensures |recs| - |Partition(recs, judge).passed| == |Partition(recs, judge).rejected|
  {
    PartitionSizes(recs, judge);
  }

  /** Once an error has stopped the run on a prefix, nothing after it changes
      the outcome. */
  lemma {:induction false} PartitionErrorSticks(recs: seq<Record>, k: nat, judge: Record -> Result<bool>)
    requires k <= |recs| && Partition(recs[..k], judge).error.Some?
    ensures Partition(recs, judge) == Partition(recs[..k], judge)
    decreases |recs| - k
  {
    if k == |recs| {
      assert recs[..k] == recs;
    } else {
      var prefix := recs[..|recs| - 1];
      assert prefix[..k] == recs[..k];
      PartitionErrorSticks(prefix, k, judge);
    }
  }

  /** The records the filter keeps, as a plain filter over the stream. */
  function Kept(recs: seq<Record>, judge: Record -> Result<bool>): seq<Record> {
    if recs == [] then []
    else (if judge(recs[0]) == Ok(true) then [recs[0]] else []) + Kept(recs[1..], judge)
  }

  /** The records the filter rejects. */
  function Dropped(recs: seq<Record>, judge: Record -> Result<bool>): seq<Record> {
    if recs == [] then []
    else (if judge(recs[0]) == Ok(false) then [recs[0]] else []) + Dropped(recs[1..], judge)
  }

  lemma {:induction false} KeptAppend(a: seq<Record>, b: seq<Record>, judge: Record -> Result<bool>)
    ensures Kept(a + b, judge) == Kept(a, judge) + Kept(b, judge)
    decreases |a|
  {
    if a == [] {
      assert a + b == b;
    } else {
      var c, h := a + b, if judge(a[0]) == Ok(true) then [a[0]] else [];
      assert c[0] == a[0] && c[1..] == a[1..] + b;
      KeptAppend(a[1..], b, judge);
      assert Kept(c, judge) == h + (Kept(a[1..], judge) + Kept(b, judge));
      assert Kept(a, judge) == h + Kept(a[1..], judge);
    }
  }

  lemma {:induction false} DroppedAppend(a: seq<Record>, b: seq<Record>, judge: Record -> Result<bool>)
    ensures Dropped(a + b, judge) == Dropped(a, judge) + Dropped(b, judge)
    decreases |a|
  {
    if a == [] {
      assert a + b == b;
    } else {
      var c, h := a + b, if judge(a[0]) == Ok(false) then [a[0]] else [];
      assert c[0] == a[0] && c[1..] == a[1..] + b;
      DroppedAppend(a[1..], b, judge);
      assert Dropped(c, judge) == h + (Dropped(a[1..], judge) + Dropped(b, judge));
      assert Dropped(a, judge) == h + Dropped(a[1..], judge);
    }
  }

  /** A stream every record of which the filter can judge is split into the
      kept and the rejected records, in order; otherwise the run stops with
      an error. */
  lemma {:induction false} PartitionIsFilter(recs: seq<Record>, judge: Record -> Result<bool>)
    ensures var o := Partition(recs, judge);
      (o.error.None? <==> forall k :: 0 <= k < |recs| ==> judge(recs[k]).Ok?)
      && (o.error.None? ==> o.passed == Kept(recs, judge) && o.rejected == Dropped(recs, judge))
    decreases |recs|
  {
    if recs != [] {
      var prefix, last := recs[..|recs| - 1], recs[|recs| - 1];
      PartitionIsFilter(prefix, judge);
      KeptAppend(prefix, [last], judge);
      DroppedAppend(prefix, [last], judge);
      assert [last][1..] == [];
      assert prefix + [last] == recs;
      assert forall k :: 0 <= k < |prefix| ==> prefix[k] == recs[k];
    }
  }

  /** A run stopped by an error was stopped by the first record the filter
      could not judge, and had written the records before it. */
  lemma {:induction false} PartitionError(recs: seq<Record>, judge: Record -> Result<bool>)
    requires Partition(recs, judge).error.Some?
    ensures exists k :: (0 <= k < |recs|
      && judge(recs[k]) == Err(Partition(recs, judge).error.value)
      && (forall m :: 0 <= m < k ==> judge(recs[m]).Ok?)
      && Partition(recs, judge).passed == Kept(recs[..k], judge)
      && Partition(recs, judge).rejected == Dropped(recs[..k], judge))
    decreases |recs|
  {
    var prefix, last := recs[..|recs| - 1], recs[|recs| - 1];
    if Partition(prefix, judge).error.Some? {
      PartitionError(prefix, judge);
      var k :| 0 <= k < |prefix|
        && judge(prefix[k]) == Err(Partition(prefix, judge).error.value)
        && (forall m :: 0 <= m < k ==> judge(prefix[m]).Ok?)
        && Partition(prefix, judge).passed == Kept(prefix[..k], judge)
        && Partition(prefix, judge).rejected == Dropped(prefix[..k], judge);
      assert prefix[..k] == recs[..k];
      assert forall m :: 0 <= m <= k ==> prefix[m] == recs[m];
    } else {
      PartitionIsFilter(prefix, judge);
      var k := |recs| - 1;
      assert recs[..k] == prefix;
      assert forall m :: 0 <= m < k ==> prefix[m] == recs[m];
    }
  }

  /** Each kept record passes the filter and each rejected one fails it. */
  lemma {:induction false} PartitionSound(recs: seq<Record>, judge: Record -> Result<bool>)
    ensures forall k :: 0 <= k < |Partition(recs, judge).passed| ==> judge(Partition(recs, judge).passed[k]) == Ok(true)
    ensures forall k :: 0 <= k < |Partition(recs, judge).rejected| ==> judge(Partition(recs, judge).rejected[k]) == Ok(false)
    decreases |recs|
  {
    if recs != [] {
      var prefix, last := recs[..|recs| - 1], recs[|recs| - 1];
      PartitionSound(prefix, judge);
      var o := Partition(prefix, judge);
      if o.error.None? && judge(last) == Ok(true) {
        var passed := o.passed + [last];
        assert Partition(recs, judge) == Outcome(passed, o.rejected, None);
        forall k | 0 <= k < |passed| ensures judge(passed[k]) == Ok(true) {
          if k < |o.passed| { assert passed[k] == o.passed[k]; } else { assert passed[k] == last; }
        }
      } else if o.error.None? && judge(last) == Ok(false) {
        var rejected := o.rejected + [last];
        assert Partition(recs, judge) == Outcome(o.passed, rejected, None);
        forall k | 0 <= k < |rejected| ensures judge(rejected[k]) == Ok(false) {
          if k < |o.rejected| { assert rejected[k] == o.rejected[k]; } else { assert rejected[k] == last; }
        }
      }
    }
  }

  /** An error-free run loses and invents no record. */
  lemma {:induction false} PartitionPermutes(recs: seq<Record>, judge: Record -> Result<bool>)
    requires Partition(recs, judge).error.None?
    ensures multiset(Partition(recs, judge).passed) + multiset(Partition(recs, judge).rejected) == multiset(recs)
    decreases |recs|
  {
    if recs != [] {
      var prefix := recs[..|recs| - 1];
      PartitionPermutes(prefix, judge);
      assert prefix + [recs[|recs| - 1]] == recs;
    }
  }

  /** Filtering the kept records again keeps them all, in the same order. */
  lemma PartitionIdempotent(recs: seq<Record>, judge: Record -> Result<bool>)
    ensures var kept := Partition(recs, judge).passed;
      Partition(kept, judge) == Outcome(kept, [], None)
  {
    var kept := Partition(recs, judge).passed;
    PartitionSound(recs, judge);
    AllPass(kept, judge);
  }

  /** A stream of records that all pass is written out whole, in order. */
  lemma {:induction false} AllPass(recs: seq<Record>, judge: Record -> Result<bool>)
    requires forall k :: 0 <= k < |recs| ==> judge(recs[k]) == Ok(true)
    ensures Partition(recs, judge) == Outcome(recs, [], None)
    decreases |recs|
  {
    if recs != [] {
      var prefix := recs[..|recs| - 1];
      assert forall k :: 0 <= k < |prefix| ==> prefix[k] == recs[k];
      AllPass(prefix, judge);
      assert prefix + [recs[|recs| - 1]] == recs;
    }
  }

  /** The file name test `if output_filtered:`: `None` and `""` are false. */
  predicate Given(name: Option<string>) {
    name.Some? && name.value != []
  }

  /** No record below the QUAL bound is ever kept. */
  lemma KeptAboveQual(recs: seq<Record>, spec: FilterSpec)
    ensures var kept := Partition(recs, Judge(spec)).passed;
      forall k :: 0 <= k < |kept| ==> kept[k].qual >= spec.qual
  {
    var kept := Partition(recs, Judge(spec)).passed;
    PartitionSound(recs, Judge(spec));
    forall k | 0 <= k < |kept| ensures kept[k].qual >= spec.qual {
      assert Judge(spec)(kept[k]) == LinePasses(kept[k], spec);
      QualityGate(kept[k], spec);
    }
  }

  /** One more record extends the run on a prefix. */
  lemma PartitionStep(recs: seq<Record>, i: nat, judge: Record -> Result<bool>)
    requires i < |recs| && Partition(recs[..i], judge).error.None?
    ensures var o := Partition(recs[..i], judge);
      Partition(recs[..i + 1], judge)
        == match judge(recs[i])
           case Err(e) => Outcome(o.passed, o.rejected, Some(e))
           case Ok(true) => Outcome(o.passed + [recs[i]], o.rejected, None)
           case Ok(false) => Outcome(o.passed, o.rejected + [recs[i]], None)
  {
    assert recs[..i + 1][..i] == recs[..i];
  }

  /** `filter_vcf(output, filter_dict, output_filtered)` over the records
      `recs` of the file; `None` for `filterDict` stands for the default filter. */
  method FilterVcf(recs: seq<Record>, output: string, filterDict: Option<FilterSpec>, outputFiltered: Option<string>)
    returns (r: Result<Counts>, out: Writer, outFiltered: Writer?)
    ensures fresh(out) && out.path == output
    ensures Given(outputFiltered) <==> outFiltered != null
    ensures outFiltered != null ==> fresh(outFiltered) && outFiltered.path == outputFiltered.value
    ensures var o := Partition(recs, Judge(filterDict.GetOr(DefaultSpec())));
      && out.records == o.passed
      && (outFiltered != null ==> outFiltered.records == o.rejected)
      && r == if o.error.Some? then Err(o.error.value)
              else Ok(Counts(|recs|, |recs| - |o.passed|, |o.passed|))
  {
    var spec := filterDict.GetOr(DefaultSpec());
    JudgeJudgesAs(spec, recs);
    r, out, outFiltered := FilterWith(recs, output, spec, outputFiltered, Judge(spec));
  }

  /** `judge` gives every record of `recs` the verdict of the line filter
      under `spec`. */
  predicate JudgesAs(judge: Record -> Result<bool>, spec: FilterSpec, recs: seq<Record>)
    decreases |recs|
  {
    recs == [] || (judge(recs[0]) == LinePasses(recs[0], spec) && JudgesAs(judge, spec, recs[1..]))
  }

  lemma {:induction false} JudgeJudgesAs(spec: FilterSpec, recs: seq<Record>)
    ensures JudgesAs(Judge(spec), spec, recs)
    decreases |recs|
  {
    if recs != [] {
      JudgeJudgesAs(spec, recs[1..]);
    }
  }

  lemma {:induction false} JudgesAsAt(judge: Record -> Result<bool>, spec: FilterSpec, recs: seq<Record>, i: nat)
    requires JudgesAs(judge, spec, recs) && i < |recs|
    ensures judge(recs[i]) == LinePasses(recs[i], spec)
    decreases i
  {
    if i > 0 {
      JudgesAsAt(judge, spec, recs[1..], i - 1);
    }
  }

  /** The body of `filter_vcf` once the filter is fixed: every record goes
      through `FilterLine`, and is written to `out` when it passes or to
      `outFiltered`, if given, when it does not. The run is stated with
      `judge`, which agrees with the line filter on `recs`. */
  method FilterWith(recs: seq<Record>, output: string, spec: FilterSpec, outputFiltered: Option<string>,
                    ghost judge: Record -> Result<bool>)
    returns (r: Result<Counts>, out: Writer, outFiltered: Writer?)
    requires JudgesAs(judge, spec, recs)
    ensures fresh(out) && out.path == output
    ensures Given(outputFiltered) <==> outFiltered != null
    ensures outFiltered != null ==> fresh(outFiltered) && outFiltered.path == outputFiltered.value
    ensures var o := Partition(recs, judge);
      && out.records == o.passed
      && (outFiltered != null ==> outFiltered.records == o.rejected)
      && r == if o.error.Some? then Err(o.error.value)
              else Ok(Counts(|recs|, |recs| - |o.passed|, |o.passed|))
  {
    var unfiltered := 0;
    var n := |recs|;
    out := new Writer(output);
    outFiltered := null;
    if Given(outputFiltered) {
      outFiltered := new Writer(outputFiltered.value);
    }
    var i := 0;
    while i < n
      invariant 0 <= i <= n
      invariant out != outFiltered && fresh(out) && out.path == output
      invariant Given(outputFiltered) <==> outFiltered != null
      invariant outFiltered != null ==> fresh(outFiltered) && outFiltered.path == outputFiltered.value
      invariant Partition(recs[..i], judge).error.None?
      invariant out.records == Partition(recs[..i], judge).passed
      invariant outFiltered != null ==> outFiltered.records == Partition(recs[..i], judge).rejected
      invariant unfiltered == |out.records|
    {
      var verdict := FilterLine(recs[i], Some(spec));
      JudgesAsAt(judge, spec, recs, i);
      PartitionStep(recs, i, judge);
      match verdict {
        case Err(e) =>
          PartitionErrorSticks(recs, i + 1, judge);
          return Err(e), out, outFiltered;
        case Ok(passes) =>
          if passes {
            out.WriteRecord(recs[i]);
            unfiltered := unfiltered + 1;
          } else if outFiltered != null {
            outFiltered.WriteRecord(recs[i]);
          }
      }
      i := i + 1;
    }
    assert recs[..n] == recs;
    var filtered := n - unfiltered;
    return Ok(Counts(n, filtered, unfiltered)), out, outFiltered;
  }
}
