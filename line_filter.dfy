/** `_filter_line`: the check of one variant record against a filter
    specification. The quality gate comes first; then the INFO filters are
    tried in the order of the specification, and the first one that decides
    (a plain or indexed filter that fires, or any `sum(` filter) settles the
    record. A record no filter rejects passes.

    `ApplyFilter` is one turn of the loop, `InfoPasses` the whole loop as a
    recursive function, and `FilterLine` the loop itself, proved to compute
    `LinePasses`. */
module LineFilter {
  import opened Results
  import opened Text
  import opened Thresholds
  import opened FieldKeys

  /** An INFO value as the VCF reader returns it: a number or a list of numbers. */
  datatype InfoValue = Scalar(x: real) | List(xs: seq<real>)

  type Info = map<string, InfoValue>

  /** A variant record: its QUAL column and its INFO field. */
  datatype Record = Record(qual: real, info: Info)

  /** `filter_dict`: the QUAL bound and the INFO filters, in iteration order,
      as (key, threshold) pairs. */
  datatype FilterSpec = FilterSpec(qual: real, info: seq<(string, string)>)

  /** The filter set by the constructor of the class. */
  function DefaultSpec(): FilterSpec {
    FilterSpec(50.0, [
      ("MQ", "<30"),
      ("AF1", ">0.05&<0.95"),
      ("DP", "<4"),
      ("sum(DP4[2],DP4[3])", "<2"),
      ("PV4[0]", "<0.001"),
      ("PV4[2]", "<0.001"),
      ("PV4[3]", "<0.001")
    ])
  }

  /** What one INFO filter does to the loop: go on to the next filter, or
      return at once with the verdict `passes`. */
  datatype Step = Continue | Stop(passes: bool)

  /** Python's `xs[index]`, negative indices counting from the end. */
  function Element(xs: seq<real>, index: int): Option<real> {
    if 0 <= index < |xs| then Some(xs[index])
    else if -|xs| <= index < 0 then Some(xs[|xs| + index])
    else None
  }

  /** A negative index reads the same element as the non-negative index it
      stands for. */
  lemma NegativeMirrorsPositive(xs: seq<real>, i: nat)
    requires i < |xs|
    ensures Element(xs, i - |xs|) == Element(xs, i) == Some(xs[i])
  {
  }

  /** The elements `[xs[i] for i in indices]`, or `None` on an IndexError. */
  function Elements(xs: seq<real>, indices: seq<int>): (r: Option<seq<real>>)
    ensures r.Some? <==> forall k :: 0 <= k < |indices| ==> Element(xs, indices[k]).Some?
    ensures r.Some? ==> |r.value| == |indices|
    ensures r.Some? ==> forall k :: 0 <= k < |indices| ==> Some(r.value[k]) == Element(xs, indices[k])
  {
    if indices == [] then Some([])
    else
      var first := Element(xs, indices[0]);
      var rest := Elements(xs, indices[1..]);
      assert forall k :: 0 <= k < |indices| - 1 ==> indices[1..][k] == indices[k + 1];
      if first.Some? && rest.Some? then Some([first.value] + rest.value) else None
  }

  /** Python's `sum` of a list, added from the left starting at 0. */
  function Sum(xs: seq<real>): real {
    if xs == [] then 0.0 else Sum(xs[..|xs| - 1]) + xs[|xs| - 1]
  }

  /** The value of the rewritten `sum([...])` expression for the field value `value`. */
  function AggregateValue(value: InfoValue, indices: Option<seq<int>>, name: string): Result<real> {
    if indices.None? || value.Scalar? then Err(SumNotEvaluable(name))
    else
      match Elements(value.xs, indices.value)
      case None => Err(ListIndex(name))
      case Some(elements) => Ok(Sum(elements))
  }

  /** One turn of the loop over `filter_dict["INFO"]`, for the filter
      `key: threshold`. Errors in the key itself come before any lookup. */
  function ApplyFilter(info: Info, key: string, threshold: string): Result<Step> {
    match ParseKey(key)
    case Err(e) => Err(e)
    case Ok(Aggregate(name, indices)) => SumStep(info, name, indices, threshold)
    case Ok(Direct(name, index)) => DirectStep(info, name, index, threshold)
  }

  /** The `sum(` branch: `INFO[name]` is read outside the `try`, so a missing
      field is fatal; the branch returns whether the sum fires or not. */
  function SumStep(info: Info, name: string, indices: Option<seq<int>>, threshold: string): Result<Step> {
    if name !in info then Err(MissingSumKey(name))
    else
      match AggregateValue(info[name], indices, name)
      case Err(e) => Err(e)
      case Ok(total) => Decide(Fires(total, threshold), true)
  }

  /** A plain or indexed filter: a missing field is skipped, a scalar is
      compared whatever the index, a list element is compared after the
      bound check. */
  function DirectStep(info: Info, name: string, index: int, threshold: string): Result<Step> {
    if name !in info then Ok(Continue)
    else
      match info[name]
      case Scalar(x) => Decide(Fires(x, threshold), false)
      case List(xs) =>
        if index > |xs| - 1 then Err(IndexTooLarge(name, |xs|))
        else
          match Element(xs, index)
          case None => Err(ListIndex(name))
          case Some(x) => Decide(Fires(x, threshold), false)
  }

  /** What a filter that fired or not does: a firing filter rejects the
      record; a quiet one lets the loop go on, except in the `sum(` branch
      (`final`), which returns `True` at once. */
  function Decide(fires: Result<bool>, final: bool): Result<Step> {
    match fires
    case Err(e) => Err(e)
    case Ok(b) => Ok(if b then Stop(false) else if final then Stop(true) else Continue)
  }

  /** The loop over the INFO filters, given what each filter does: the first
      step that does not go on gives the verdict, and the steps after it are
      never reached. */
  function Run(steps: seq<Result<Step>>): Result<bool> {
    if steps == [] then Ok(true)
    else
      match steps[0]
      case Err(e) => Err(e)
      case Ok(Stop(passes)) => Ok(passes)
      case Ok(Continue) => Run(steps[1..])
  }

  /** What each filter would do to the record. Only the steps up to the first
      deciding one are taken by `Run`, so computing the others changes nothing:
      `ApplyFilter` is total and has no effect. */
  function Steps(info: Info, filters: seq<(string, string)>): (steps: seq<Result<Step>>)
    ensures |steps| == |filters|
  {
    if filters == [] then []
    else [ApplyFilter(info, filters[0].0, filters[0].1)] + Steps(info, filters[1..])
  }

  /** Step `k` is what filter `k` does. */
  lemma {:induction false} StepAt(info: Info, filters: seq<(string, string)>, k: nat)
    requires k < |filters|
    ensures Steps(info, filters)[k] == ApplyFilter(info, filters[k].0, filters[k].1)
    decreases k
  {
    if k > 0 {
      StepAt(info, filters[1..], k - 1);
    }
  }

  /** The verdict of the INFO filters. */
  function InfoPasses(info: Info, filters: seq<(string, string)>): Result<bool> {
    Run(Steps(info, filters))
  }

  /** The verdict on a record: `True` keeps it, `False` rejects it. */
  function LinePasses(rec: Record, spec: FilterSpec): Result<bool> {
    if rec.qual < spec.qual then Ok(false) else InfoPasses(rec.info, spec.info)
  }

  /** `_filter_line(vcf_line, filter_dict)`; `None` stands for the default filter. */
  method FilterLine(rec: Record, filterDict: Option<FilterSpec>) returns (r: Result<bool>)
    ensures r == LinePasses(rec, filterDict.GetOr(DefaultSpec()))
  {
    var spec := filterDict.GetOr(DefaultSpec());
    if rec.qual < spec.qual {
      return Ok(false);
    }
    var i := 0;
    while i < |spec.info|
      invariant 0 <= i <= |spec.info|
      invariant InfoPasses(rec.info, spec.info) == Run(Steps(rec.info, spec.info)[i..])
    {
      var (key, threshold) := spec.info[i];
      var step := ApplyFilter(rec.info, key, threshold);
      StepAt(rec.info, spec.info, i);
      match step {
        case Err(e) =>
          return Err(e);
        case Ok(Stop(passes)) =>
          return Ok(passes);
        case Ok(Continue) =>
      }
      assert Steps(rec.info, spec.info)[i..][1..] == Steps(rec.info, spec.info)[i + 1..];
      i := i + 1;
    }
    return Ok(true);
  }

  // ---------------------------------------------------------------------------
  // The quality gate
  // ---------------------------------------------------------------------------

  /** A record whose QUAL is below the bound is rejected before any INFO
      filter is looked at, so not even a filter that would raise matters;
      otherwise the INFO filters alone decide. */
  lemma QualityGate(rec: Record, spec: FilterSpec)
    ensures rec.qual < spec.qual ==> LinePasses(rec, spec) == Ok(false)
    ensures rec.qual >= spec.qual ==> LinePasses(rec, spec) == InfoPasses(rec.info, spec.info)
    ensures LinePasses(rec, spec) == Ok(true) ==> rec.qual >= spec.qual
  {
  }

  // ---------------------------------------------------------------------------
  // The order of the INFO filters
  // ---------------------------------------------------------------------------

  /** No step in `steps[..k]` decides anything. */
  predicate Quiet(steps: seq<Result<Step>>, k: nat)
    requires k <= |steps|
  {
    forall m :: 0 <= m < k ==> steps[m] == Ok(Continue)
  }

  /** The verdict a deciding step gives. */
  function Verdict(step: Result<Step>): Result<bool>
    requires step != Ok(Continue)
  {
    match step
    case Err(e) => Err(e)
    case Ok(Stop(passes)) => Ok(passes)
  }

  /** The first step that does not go on decides; the steps after it are
      never taken. */
  lemma {:induction false} FirstDecisive(pre: seq<Result<Step>>, s: Result<Step>, post: seq<Result<Step>>)
    requires Quiet(pre, |pre|)
    requires s != Ok(Continue)
    ensures Run(pre + [s] + post) == Verdict(s)
    decreases |pre|
  {
    if pre == [] {
      assert pre + [s] + post == [s] + post;
    } else {
      assert (pre + [s] + post)[1..] == pre[1..] + [s] + post;
      assert forall m :: 0 <= m < |pre| - 1 ==> pre[1..][m] == pre[m + 1];
      FirstDecisive(pre[1..], s, post);
    }
  }

  /** When no step decides, the record passes. */
  lemma {:induction false} AllQuietPasses(steps: seq<Result<Step>>)
    requires Quiet(steps, |steps|)
    ensures Run(steps) == Ok(true)
    decreases |steps|
  {
    if steps != [] {
      assert forall m :: 0 <= m < |steps| - 1 ==> steps[1..][m] == steps[m + 1];
      AllQuietPasses(steps[1..]);
    }
  }

  /** A step that goes on can be dropped without changing the verdict. */
  lemma {:induction false} QuietStepIsInert(pre: seq<Result<Step>>, post: seq<Result<Step>>)
    ensures Run(pre + [Ok(Continue)] + post) == Run(pre + post)
    decreases |pre|
  {
    if pre == [] {
      assert pre + [Ok(Continue)] + post == [Ok(Continue)] + post;
      assert ([Ok(Continue)] + post)[1..] == post;
      assert pre + post == post;
    } else {
      assert (pre + [Ok(Continue)] + post)[1..] == pre[1..] + [Ok(Continue)] + post;
      assert (pre + post)[1..] == pre[1..] + post;
      QuietStepIsInert(pre[1..], post);
    }
  }

  /** A step that decides shadows every step after it. */
  lemma {:induction false} DecisiveShadowsLater(pre: seq<Result<Step>>, s: Result<Step>, post: seq<Result<Step>>)
    requires s != Ok(Continue)
    ensures Run(pre + [s] + post) == Run(pre + [s])
    decreases |pre|
  {
    if pre == [] {
      assert pre + [s] + post == [s] + post;
      assert pre + [s] == [s];
    } else {
      assert (pre + [s] + post)[1..] == pre[1..] + [s] + post;
      assert (pre + [s])[1..] == pre[1..] + [s];
      DecisiveShadowsLater(pre[1..], s, post);
    }
  }

  /** A rejected record was rejected by a step that fired, all the steps
      before it having gone on. */
  lemma {:induction false} RejectedByFirstFiring(steps: seq<Result<Step>>)
    requires Run(steps) == Ok(false)
    ensures exists k :: 0 <= k < |steps| && Quiet(steps, k) && steps[k] == Ok(Stop(false))
    decreases |steps|
  {
    if steps[0] != Ok(Continue) {
      assert Quiet(steps, 0);
    } else {
      var rest := steps[1..];
      RejectedByFirstFiring(rest);
      var k :| 0 <= k < |rest| && Quiet(rest, k) && rest[k] == Ok(Stop(false));
      assert forall m :: 0 <= m < k ==> rest[m] == steps[m + 1];
      assert Quiet(steps, k + 1);
    }
  }

  /** The steps of a concatenation of filters. */
  lemma {:induction false} StepsAppend(info: Info, a: seq<(string, string)>, b: seq<(string, string)>)
    ensures Steps(info, a + b) == Steps(info, a) + Steps(info, b)
    decreases |a|
  {
    if a == [] {
      assert a + b == b;
    } else {
      assert (a + b)[0] == a[0];
      assert (a + b)[1..] == a[1..] + b;
      StepsAppend(info, a[1..], b);
    }
  }

  /** Dropping a filter that lets the loop go on does not change the verdict. */
  lemma QuietFilterIsInert(info: Info, pre: seq<(string, string)>, f: (string, string), post: seq<(string, string)>)
    requires ApplyFilter(info, f.0, f.1) == Ok(Continue)
    ensures InfoPasses(info, pre + [f] + post) == InfoPasses(info, pre + post)
  {
    StepsAppend(info, pre + [f], post);
    StepsAppend(info, pre, [f]);
    StepsAppend(info, pre, post);
    assert Steps(info, [f]) == [Ok(Continue)];
    QuietStepIsInert(Steps(info, pre), Steps(info, post));
  }

  /** A filter that decides shadows every filter after it. */
  lemma FilterShadowsLater(info: Info, pre: seq<(string, string)>, f: (string, string), post: seq<(string, string)>)
    requires ApplyFilter(info, f.0, f.1) != Ok(Continue)
    ensures InfoPasses(info, pre + [f] + post) == InfoPasses(info, pre + [f])
  {
    StepsAppend(info, pre + [f], post);
    StepsAppend(info, pre, [f]);
    var s := ApplyFilter(info, f.0, f.1);
    assert Steps(info, [f]) == [s];
    DecisiveShadowsLater(Steps(info, pre), s, Steps(info, post));
  }

  // ---------------------------------------------------------------------------
  // Plain and indexed filters
  // ---------------------------------------------------------------------------

  /** A plain or indexed filter on a key the record does not have is skipped
      (the KeyError is caught), so it can be dropped from the filter. */
  lemma MissingKeySkipped(info: Info, pre: seq<(string, string)>, key: string, threshold: string, post: seq<(string, string)>)
    requires ParseKey(key).Ok? && ParseKey(key).value.Direct?
    requires ParseKey(key).value.name !in info
    ensures ApplyFilter(info, key, threshold) == Ok(Continue)
    ensures InfoPasses(info, pre + [(key, threshold)] + post) == InfoPasses(info, pre + post)
  {
    QuietFilterIsInert(info, pre, (key, threshold), post);
  }

  /** On a scalar INFO value the index of `KEY[i]` is ignored: the filter
      acts as the plain filter `KEY`. */
  lemma ScalarIgnoresIndex(info: Info, base: string, n: nat, threshold: string)
    requires '[' !in base && !StartsWith(base, "sum(") && Strip(base) == base
    requires base in info && info[base].Scalar?
    ensures ApplyFilter(info, Item(base, n), threshold) == ApplyFilter(info, base, threshold)
    ensures ApplyFilter(info, base, threshold) == Decide(Fires(info[base].x, threshold), false)
  {
    IndexedKey(base, n);
    PlainKey(base);
  }

  /** `KEY[i]` on a list compares element `i`; an index past the end is a
      fatal error naming the list's length. */
  lemma ListIndexed(info: Info, base: string, n: nat, threshold: string)
    requires '[' !in base && !StartsWith(base, "sum(")
    requires Strip(base) in info && info[Strip(base)].List?
    ensures var xs := info[Strip(base)].xs;
      ApplyFilter(info, Item(base, n), threshold)
        == if n < |xs| then Decide(Fires(xs[n], threshold), false)
           else Err(IndexTooLarge(Strip(base), |xs|))
  {
    IndexedKey(base, n);
    var xs := info[Strip(base)].xs;
    assert ApplyFilter(info, Item(base, n), threshold) == DirectStep(info, Strip(base), n, threshold);
    if n < |xs| {
      assert Element(xs, n) == Some(xs[n]);
    }
  }

  /** A negative index counts from the end of the list, as in Python, and
      one before the start raises an IndexError. */
  lemma NegativeIndex(info: Info, key: string, threshold: string)
    requires ParseKey(key).Ok? && ParseKey(key).value.Direct?
    requires ParseKey(key).value.index < 0
    requires ParseKey(key).value.name in info && info[ParseKey(key).value.name].List?
    ensures var name, index := ParseKey(key).value.name, ParseKey(key).value.index;
      var xs := info[name].xs;
      ApplyFilter(info, key, threshold)
        == if -|xs| <= index then Decide(Fires(Element(xs, index).value, threshold), false)
           else Err(ListIndex(name))
  {
  }

  // ---------------------------------------------------------------------------
  // `sum(` filters
  // ---------------------------------------------------------------------------

  /** A `sum(` filter always decides: it returns at once, pass or fail, or raises. */
  lemma SumNeverContinues(info: Info, key: string, threshold: string)
    requires StartsWith(key, "sum(")
    ensures ApplyFilter(info, key, threshold) != Ok(Continue)
    ensures SumName(key) !in info ==> ApplyFilter(info, key, threshold) == Err(MissingSumKey(SumName(key)))
  {
  }

  /** A `sum(` filter whose key has been read as the field `name` and the
      list `indices`. */
  lemma AggregateStep(info: Info, key: string, threshold: string, name: string, indices: Option<seq<int>>)
    requires ParseKey(key) == Ok(Aggregate(name, indices))
    ensures ApplyFilter(info, key, threshold) == SumStep(info, name, indices, threshold)
  {
  }

  /** Two list elements `[xs[i], xs[j]]` sum to `xs[i] + xs[j]`. */
  lemma AggregateOfTwo(xs: seq<real>, i: nat, j: nat, name: string)
    requires i < |xs| && j < |xs|
    ensures AggregateValue(List(xs), Some([i, j]), name) == Ok(xs[i] + xs[j])
  {
    assert Elements(xs, [i, j]) == Some([xs[i], xs[j]]) by {
      assert [i, j][1..] == [j];
      assert [j][1..] == [];
      assert [xs[j]] + [] == [xs[j]];
      assert [xs[i]] + [xs[j]] == [xs[i], xs[j]];
    }
    assert Sum([xs[i], xs[j]]) == xs[i] + xs[j] by {
      assert [xs[i], xs[j]][..1] == [xs[i]];
      assert [xs[i]][..0] == [];
      assert Sum([xs[i]]) == xs[i];
    }
  }

  /** `sum(KEY[i],KEY[j])` compares `KEY[i] + KEY[j]` with the threshold:
      the record is rejected if that fires and kept otherwise. */
  lemma SumOfTwo(info: Info, name: string, xs: seq<real>, i: nat, j: nat, threshold: string)
    requires EvalName(name)
    requires name in info && info[name] == List(xs) && i < |xs| && j < |xs|
    ensures ApplyFilter(info, "sum(" + (Item(name, i) + "," + Item(name, j)) + ")", threshold)
         == Decide(Fires(xs[i] + xs[j], threshold), true)
  {
    var key := "sum(" + (Item(name, i) + "," + Item(name, j)) + ")";
    SumKey(name, i, j);
    AggregateStep(info, key, threshold, name, Some([i, j]));
    SumStepOfTwo(info, name, xs, i, j, threshold);
  }

  /** `sum(KEY[i],KEY[j])` on a field named like a keyword, `sum` or a local
      of `_filter_line` raises, whatever the field holds. */
  lemma ReservedSumFails(info: Info, name: string, i: nat, j: nat, threshold: string)
    requires IsIdentifier(name) && !EvalName(name) && name in info
    ensures ApplyFilter(info, "sum(" + (Item(name, i) + "," + Item(name, j)) + ")", threshold)
         == Err(SumNotEvaluable(name))
  {
    var key := "sum(" + (Item(name, i) + "," + Item(name, j)) + ")";
    ReservedSumKey(name, i, j);
    AggregateStep(info, key, threshold, name, None);
  }

  lemma SumStepOfTwo(info: Info, name: string, xs: seq<real>, i: nat, j: nat, threshold: string)
    requires name in info && info[name] == List(xs) && i < |xs| && j < |xs|
    ensures SumStep(info, name, Some([i, j]), threshold) == Decide(Fires(xs[i] + xs[j], threshold), true)
  {
    AggregateOfTwo(xs, i, j, name);
    SumStepOf(info, name, Some([i, j]), threshold, xs[i] + xs[j]);
  }

  lemma SumStepOf(info: Info, name: string, indices: Option<seq<int>>, threshold: string, total: real)
    requires name in info && AggregateValue(info[name], indices, name) == Ok(total)
    ensures SumStep(info, name, indices, threshold) == Decide(Fires(total, threshold), true)
  {
  }

  // ---------------------------------------------------------------------------
  // The default filter
  // ---------------------------------------------------------------------------

  /** With the default filter the `sum(DP4[2],DP4[3])` filter always decides,
      so the three `PV4` filters after it are never evaluated. */
  lemma DefaultIgnoresPv4(info: Info)
    ensures InfoPasses(info, DefaultSpec().info) == InfoPasses(info, DefaultSpec().info[..4])
  {
    var filters := DefaultSpec().info;
    assert StartsWith(filters[3].0, "sum(");
    assert filters[..3] + [filters[3]] + filters[4..] == filters;
    assert filters[..3] + [filters[3]] == filters[..4];
    SumShadowsLater(info, filters[..3], filters[3], filters[4..]);
  }

  /** A `sum(` filter shadows every filter after it. */
  lemma SumShadowsLater(info: Info, pre: seq<(string, string)>, f: (string, string), post: seq<(string, string)>)
    requires StartsWith(f.0, "sum(")
    ensures InfoPasses(info, pre + [f] + post) == InfoPasses(info, pre + [f])
  {
    SumNeverContinues(info, f.0, f.1);
    FilterShadowsLater(info, pre, f, post);
  }

  /** A run of one step is that step's verdict. */
  lemma RunOne(step: Result<Step>)
    ensures Run([step]) == if step == Ok(Continue) then Ok(true) else Verdict(step)
  {
    assert [step][1..] == [];
  }

  /** The steps of a single INFO filter. */
  lemma StepsOne(info: Info, f: (string, string))
    ensures Steps(info, [f]) == [ApplyFilter(info, f.0, f.1)]
  {
    assert [f][1..] == [];
  }

  /** A filter with QUAL bound `q` and the single INFO filter `NAME: "<n"`
      passes a record whose only INFO field is a scalar `NAME` exactly when
      its QUAL is at least `q` and its `NAME` value at least `n`. */
  lemma OneScalarFilter(q: real, name: string, n: nat, qual: real, v: real)
    requires '[' !in name && !StartsWith(name, "sum(") && Strip(name) == name
    ensures LinePasses(Record(qual, map[name := Scalar(v)]), FilterSpec(q, [(name, "<" + DecimalString(n))]))
         == Ok(qual >= q && v >= n as real)
  {
    var info := map[name := Scalar(v)];
    var t := "<" + DecimalString(n);
    ScalarIgnoresIndex(info, name, 0, t);
    IntegerLeafFires(v, n);
    StepsOne(info, (name, t));
    RunOne(ApplyFilter(info, name, t));
  }
}
