# Variant filtering of `VCF_mpileup_4dot1`

This project models the core of sequana's VCF filter for files written by
samtools mpileup (VCF 4.1): the class `VCF_mpileup_4dot1` in
`sequana/vcf_filter.py`. It states and proves properties of that model. The
model has four layers, one Dafny module each, on top of two support modules.

- **Thresholds** (`thresholds.dfy`) models `_filter_info_field`. A threshold
  string such as `"<30"`, `">0.05&<0.95"` or `"<30|>60"` says when a numeric
  INFO value *fires*, meaning the record holding it is rejected. `Fires`
  reads the string the way the method does: `&` is looked for first, then
  `|`, then the prefixes `<=`, `<`, `>=` and `>`. Anything else never fires.
  A second reading goes through a tree: `Compile` parses the string and
  `Eval` evaluates the result. `FiresIsCompiledEval` proves the two readings
  agree on every string and value.
- **FieldKeys** (`field_keys.dfy`) models the handling of the key at the top
  of the loop in `_filter_line`. A key can be:
  - a plain field, `DP`;
  - an indexed field, `PV4[0]`;
  - a `sum(...)` aggregate, which the source rewrites into a Python
    expression and hands to `eval`.
- **LineFilter** (`line_filter.dfy`) models `_filter_line`:
  - the QUAL gate;
  - the loop over the INFO filters in dictionary order;
  - the default filter set up by the constructor.

  `ApplyFilter` is one turn of the loop. It gives one `Step`: go on, or stop
  with a verdict. `Run` takes a sequence of steps and gives the verdict of
  the first one that stops. `FilterLine` is the loop itself, with its
  invariant, and it is proved to compute `LinePasses`.
- **Partition** (`partition.dfy`) models `filter_vcf`. The function
  `Partition` describes a whole run over a stream of records. The method
  `FilterVcf` picks the filter (the default one when none is given) and
  hands over to `FilterWith`, the loop. It writes each record to one of two
  `Writer` objects and returns the counts `N`, `filtered` and `unfiltered`.
  It is proved to leave the writers holding what `Partition` says. The loop
  is stated with any verdict function that agrees with the line filter on
  the records (`JudgesAs`); `FilterVcf` passes the line filter itself.
- **Text** (`text.dfy`) holds the Python string operations the source uses:
  `strip`, `split`, `replace`, `startswith`, and `int()` and `float()` on
  decimal text.
- **Results** (`results.dfy`) holds `Option`, `Result` and one `FilterError`
  per exception the source can raise.

Every exception except one is fatal, because the source never catches it.
That includes:
- a threshold that does not split into exactly two pieces;
- a literal `float()` rejects;
- `[` without `]`;
- an index past the end of a list;
- a missing field inside `sum(`.

The exception is a missing INFO field on a plain or indexed filter. That
code is inside the `try ... except KeyError` of lines 352-365, so it only
skips the filter.

Where the code does what a reader might not expect, the model follows the
code:
- **Mixed combinators are not an error.** `a&b|c` is an AND whose right half
  is `b|c` (`MixedCombinators`). `a|b&c` is an AND whose left half is `a|b`
  (`NestedCombinators`). The tuple unpack fails on a second `&` in the whole
  string, on a second `|` in a string with no `&`, or on a second `|` in a
  half that is evaluated: in `a|b|c&d` the half `a|b|c` cannot be unpacked
  (`TooManyPieces`, `AndFires`).
- **Only the halves are stripped.** The pieces of a split are stripped, but a
  whole threshold is not. A leaf with leading white space matches no prefix
  and never fires (`LeadingSpaceNeverFires`).
- **A `sum(` filter ends the loop.** It returns in both branches, so it
  always decides the record (`SumNeverContinues`). With the default filter,
  the three `PV4` filters after `sum(DP4[2],DP4[3])` are never evaluated
  (`DefaultIgnoresPv4`).
- **A missing field in a `sum(` filter is fatal.** The field is read by
  `lcl[mykey] = vcf_line.INFO[mykey]`, which sits outside any `try`.
- **Only the field before the first `[` is bound for `eval`.** In a `sum(`
  whose elements name a different field, evaluation fails
  (`SumNotEvaluable`). The field name must also be one
  `eval` can read as the stored list (`EvalName`): a Python identifier that
  is not a keyword, not `sum` (the list would hide the builtin being
  called), not `__debug__` (which the compiler replaces by the constant
  `True`) and not a local variable of `_filter_line` (see below)
  (`ReservedSumKey`, `ReservedSumFails`).
- **Indices inside `sum(` are Python literals, not `int()` text.** A leading
  zero such as `DP4[02]` is a syntax error for `eval` (`LeadingZeroRefused`),
  and the model accepts only spaces and tabs around an element; an indexed key outside
  `sum(` goes through `int()`, which accepts both. For any text `t` with no
  `]`, `KEY[t]` reads index `int(t.strip())`, or fails with `BadIndex` when
  `int()` refuses it (`IndexedKeyText`, `EmptyIndexFails`); `KEY[ -n ]`
  gives the negative index `-n` (`SignedPaddedKey`) and `KEY[0n]` gives `n`
  (`LeadingZeroKey`).
- **Negative indices count from the end of the list, as in Python.** Only an
  index greater than `len - 1` gets the "Index must be less than" error; one
  before the start raises an IndexError (`NegativeIndex`).

The `sum(` evaluation is modelled as CPython before 3.13 behaves. There,
`locals()` inside a function returns the frame's one locals dictionary, and
`eval` without explicit namespaces first refreshes that same dictionary from
the function's local variables: it rewrites each bound local and deletes
each unbound one, and leaves other keys alone. A list stored under a name
that is not a local of `_filter_line` therefore survives and is what `eval`
reads; one stored under a local's name (`key`, `value`, `expr`, `index`, ...)
is overwritten or removed first. The model evaluates
`sum([name[i], name[j], ...])`, with optional spaces and tabs, over the list
value of `name`.

`_filter_line` returns as soon as a filter decides. `InfoPasses` is stated
as `Run` over the steps of every filter, but `Run` never looks past the
first step that decides. The steps are total functions with no effects, so
this is exactly the early return (`FirstDecisive`, `DecisiveShadowsLater`).

## Model

| member | source | states |
|---|---|---|
| Thresholds.LeafFires | sequana/vcf_filter.py:293-305 | `<=b`, `<b`, `>=b` and `>b` fire exactly when the value is `<= b`, `< b`, `>= b` or `> b`, for every literal `b` that `float()` reads; `<=` is looked for before `<` and `>=` before `>` |
| Thresholds.IntegerLeafFires | sequana/vcf_filter.py:293-305 | the same for integer bounds written in decimal, such as `"<30"` |
| Thresholds.LeafCase | sequana/vcf_filter.py:293-305 | a leaf `Symbol(op) + lit` gives `Holds(op, v, b)` when `float(lit) = b` |
| Thresholds.OtherPrefixNeverFires | sequana/vcf_filter.py:293-305 | a threshold with no combinator whose first character is neither `<` nor `>` (e.g. `"=5"`, `""`) never fires and raises nothing |
| Thresholds.LeadingSpaceNeverFires | sequana/vcf_filter.py:293-305 | a leaf is not stripped as a whole: a leading space means no prefix matches, so it never fires |
| Thresholds.LeafRejects | sequana/vcf_filter.py:293-305 | a comparison whose literal `float()` rejects raises `ValueError` (`BadFloat`) whatever the value |
| Thresholds.SeparatorThresholdRejects | sequana/vcf_filter.py:297 | `"<5"` followed by a separator U+001C to U+001F raises `ValueError`, although `str.strip()` would remove that separator |
| Thresholds.EqualsIsNotDecimal | sequana/vcf_filter.py:295-303 | `float()` rejects a literal beginning with `=`; this is why `"<=x"` must be read as `<=` and not as `<` followed by `"=x"` |
| Thresholds.AndFires | sequana/vcf_filter.py:279-284 | `a&b` fires iff both stripped halves fire; an error in the first half is raised; the second half is evaluated, and can raise, only when the first fires |
| Thresholds.OrFires | sequana/vcf_filter.py:286-291 | `a` and `b` joined by a bar, with no `&`, fire iff either stripped half fires; the second half is evaluated only when the first does not fire |
| Thresholds.TooManyPieces | sequana/vcf_filter.py:279-291 | two or more `&`, or with no `&` two or more bars, make the tuple unpack fail with the whole threshold in the error |
| Thresholds.AllPiecesWithout | sequana/vcf_filter.py:279-291 | a split gives two or more pieces exactly when the separator occurs, so the `in` test and the unpack agree |
| Thresholds.FiresIsCompiledEval | sequana/vcf_filter.py:273-305 | on every threshold and value, interpreting the string directly and evaluating its parse tree give the same result, error included |
| Thresholds.WellFormedNeverFails | sequana/vcf_filter.py:273-305 | a tree with no unsplittable combinator node and only literals `float()` accepts never raises, whatever the value |
| Thresholds.CompileLeafShape | sequana/vcf_filter.py:293-304 | a leaf string compiles to the comparison its symbol names |
| Thresholds.CompileAnd | sequana/vcf_filter.py:279-284 | `a&b` parses to the AND of its stripped halves |
| Thresholds.CompileOr | sequana/vcf_filter.py:286-291 | `a` and `b` joined by a bar, with no `&`, parse to the OR of the stripped halves |
| Thresholds.NestedCombinators | sequana/vcf_filter.py:279-291 | `a`, a bar, `b`, `&`, `c` is accepted and parses to AND(OR(a, b), c), because `&` is looked for first |
| Thresholds.MixedCombinators | sequana/vcf_filter.py:279-291 | `a`, `&`, `b`, a bar, `c` is accepted and parses to AND(a, OR(b, c)) |
| FieldKeys.SumExpression | sequana/vcf_filter.py:327 | the rewritten aggregate starts with `sum(` and ends with `])` |
| FieldKeys.SumExpressionOf | sequana/vcf_filter.py:327 | `sum(body)` with no `(` in `body` is rewritten to `sum([body])` |
| FieldKeys.SumNameOf | sequana/vcf_filter.py:330 | the field an aggregate `sum(name[...)` reads is `name`, the text up to the first `[` |
| FieldKeys.SumKeyParts | sequana/vcf_filter.py:324-330 | for an identifier `KEY`, the key `sum(KEY[i],KEY[j])` takes the `sum(` branch, names the field `KEY` and is rewritten to `sum([KEY[i],KEY[j]])` |
| FieldKeys.SumKey | sequana/vcf_filter.py:324-333 | for a name `eval` reads as the stored list, `sum(KEY[i],KEY[j])` is an aggregate of elements `i` and `j` of the field `KEY` |
| FieldKeys.ReservedSumKey | sequana/vcf_filter.py:330-333 | for an identifier that is a keyword, `sum`, `__debug__` or a local of `_filter_line`, the same key names the field but `eval` cannot sum it |
| FieldKeys.SumIndicesOf | sequana/vcf_filter.py:327-333 | the list display `[KEY[i], KEY[j]]` of the rewritten expression names the indices `i` and `j` |
| FieldKeys.IndexLiteralOfDecimalString | sequana/vcf_filter.py:333 | the tokenizer reads back every index written in decimal |
| FieldKeys.LeadingZeroRefused | sequana/vcf_filter.py:333 | an element `KEY[0n]` with `n > 0` is no index `eval` reads, unlike `int()` |
| FieldKeys.IdentifierPunctuation | sequana/vcf_filter.py:327-330 | an identifier holds no `[`, `(` or `,` and does not start with white space, so the rewrite and the split keep it whole |
| FieldKeys.PlainKey | sequana/vcf_filter.py:348-349 | a key with no `[` that is not a `sum(` is the field itself, unstripped, with index 0 |
| FieldKeys.UnclosedBracketFails | sequana/vcf_filter.py:341-343 | a key with `[` and no `]` is a fatal configuration error |
| FieldKeys.IndexedKeyText | sequana/vcf_filter.py:341-347 | for any index text `t` with no `]`, `KEY[t]` is the stripped base name `KEY` with index `int(t.strip())`, or the `BadIndex` error carrying `t.strip()` when `int()` refuses it |
| FieldKeys.IndexedKey | sequana/vcf_filter.py:341-347 | `KEY[i]` reads element `i` of the stripped base name `KEY` |
| FieldKeys.SignedPaddedKey | sequana/vcf_filter.py:345-347 | `KEY[ -n ]` has the stripped name and the negative index `-n`: the sign and the padding are read by `int()` |
| FieldKeys.LeadingZeroKey | sequana/vcf_filter.py:345-347 | `KEY[0n]` has index `n`, since `int()` reads a leading zero |
| FieldKeys.EmptyIndexFails | sequana/vcf_filter.py:345-347 | `KEY[]` is the `BadIndex("")` error, the ValueError `int("")` raises |
| FieldKeys.NotSumKey | sequana/vcf_filter.py:324-341 | a `KEY[...]` key whose base has no `[` and does not start with `sum(` never takes the `sum(` branch |
| Text.IntOfDecimalString | sequana/vcf_filter.py:347 | `int()` reads back every index written in decimal |
| Text.IntOfSigned | sequana/vcf_filter.py:347 | `int("-n")` is `-n` and `int("+n")` is `n` |
| Text.IntOfSignedText | sequana/vcf_filter.py:347 | the same for any text that is a sign followed by the digits of `n` |
| Text.IntOfLeadingZero | sequana/vcf_filter.py:347 | `int("0" + str(n))` is `n` |
| Text.SignedUnstripped | sequana/vcf_filter.py:347 | a sign followed by digits is its own strip |
| Text.StripPadded | sequana/vcf_filter.py:346-347 | one blank on each side of a string with no white space at its ends is stripped away |
| Text.NumberStripAfterStrip | sequana/vcf_filter.py:347 | on text already passed through `str.strip()`, the stripping `int()` does removes nothing more |
| Text.SeparatorStripped | sequana/vcf_filter.py:281-282 | `str.strip()` removes a trailing separator U+001C to U+001F |
| Text.SeparatorIsNoDecimal | sequana/vcf_filter.py:295-303 | `float()` rejects a text whose last character is one of the separators U+001C to U+001F, since it strips only ASCII white space and non-ASCII white space |
| Text.FloatOfDecimalString | sequana/vcf_filter.py:295-303 | `float()` reads back every integer bound written in decimal |
| Text.JoinSplit | sequana/vcf_filter.py:280 | splitting loses nothing: joining the pieces with the separator gives back the string |
| Text.SplitJoin | sequana/vcf_filter.py:280 | pieces without the separator, joined and split again, come back unchanged |
| Text.SplitTwo | sequana/vcf_filter.py:280 | `a + sep + b` with no separator in `a` or `b` splits into exactly `[a, b]` |
| Text.StripUnchanged | sequana/vcf_filter.py:281-282 | stripping a string that neither starts nor ends with white space leaves it unchanged |
| Text.StripSpaces | sequana/vcf_filter.py:281-282 | a string of white space strips to the empty string |
| LineFilter.NegativeMirrorsPositive | sequana/vcf_filter.py:362 | the negative index `i - len` reads the same element as the index `i`, namely `xs[i]` |
| LineFilter.Elements | sequana/vcf_filter.py:333 | the list `[xs[i] for i in indices]` exists iff every index is in range, has one element per index, and holds those elements |
| LineFilter.FilterLine | sequana/vcf_filter.py:307-366 | the loop computes `LinePasses` for the given filter, or for the default one when none is given |
| LineFilter.QualityGate | sequana/vcf_filter.py:312-314 | QUAL below the bound rejects before any INFO filter is looked at; otherwise the INFO filters alone decide; a passing record has QUAL at least the bound |
| LineFilter.FirstDecisive | sequana/vcf_filter.py:317-366 | after filters that all go on, the first filter that decides gives the verdict, whatever comes after it |
| LineFilter.AllQuietPasses | sequana/vcf_filter.py:317-366 | a record no filter decides passes |
| LineFilter.QuietStepIsInert | sequana/vcf_filter.py:317-366 | a filter that goes on can be removed without changing the verdict |
| LineFilter.DecisiveShadowsLater | sequana/vcf_filter.py:317-366 | everything after a deciding filter can be removed without changing the verdict |
| LineFilter.RejectedByFirstFiring | sequana/vcf_filter.py:317-366 | a rejected record was rejected by a filter that fired, and every filter before it went on |
| LineFilter.StepsAppend | sequana/vcf_filter.py:317 | the steps of a concatenation of filters are the concatenation of their steps |
| LineFilter.QuietFilterIsInert | sequana/vcf_filter.py:317-366 | an INFO filter that lets the loop go on can be dropped from the filter set |
| LineFilter.FilterShadowsLater | sequana/vcf_filter.py:317-366 | every INFO filter after one that decides can be dropped from the filter set |
| LineFilter.MissingKeySkipped | sequana/vcf_filter.py:352-365 | a plain or indexed filter on a field the record lacks is skipped (the KeyError is caught) and can be dropped |
| LineFilter.ScalarIgnoresIndex | sequana/vcf_filter.py:353-357 | on a scalar value the index of `KEY[i]` is ignored; the filter rejects iff the threshold fires on the value |
| LineFilter.ListIndexed | sequana/vcf_filter.py:358-363 | `KEY[i]` on a list rejects iff the threshold fires on element `i`; an index past the end is fatal and names the list length |
| LineFilter.NegativeIndex | sequana/vcf_filter.py:359-363 | a negative index is not caught by the length check; it reads from the end, or raises an IndexError before the start |
| LineFilter.SumNeverContinues | sequana/vcf_filter.py:324-338 | a `sum(` filter always decides the record; a missing field there is the fatal `MissingSumKey` error |
| LineFilter.AggregateStep | sequana/vcf_filter.py:324-338 | a key read as an aggregate is handled by the `sum(` branch |
| LineFilter.AggregateOfTwo | sequana/vcf_filter.py:333 | two in-range elements `[xs[i], xs[j]]` sum to `xs[i] + xs[j]` |
| LineFilter.SumStepOf | sequana/vcf_filter.py:332-338 | a `sum(` filter whose sum evaluates rejects if the threshold fires and passes at once otherwise |
| LineFilter.SumStepOfTwo | sequana/vcf_filter.py:332-338 | the same for the sum of two list elements |
| LineFilter.SumOfTwo | sequana/vcf_filter.py:324-338 | for a name `eval` reads as the stored list, `sum(KEY[i],KEY[j])` rejects iff the threshold fires on `KEY[i] + KEY[j]`, and otherwise passes at once |
| LineFilter.ReservedSumFails | sequana/vcf_filter.py:330-333 | `sum(KEY[i],KEY[j])` on a present field named like a keyword, `sum`, `__debug__` or a local of `_filter_line` raises, whatever the field holds |
| LineFilter.DefaultIgnoresPv4 | sequana/vcf_filter.py:261-271 | with the default filter set, the verdict depends only on its first four filters; the three `PV4` filters are never reached |
| LineFilter.RunOne | sequana/vcf_filter.py:317-366 | a loop over one filter gives that filter's verdict, or passes when it goes on |
| LineFilter.StepsOne | sequana/vcf_filter.py:317 | the single step of a single filter |
| LineFilter.OneScalarFilter | sequana/vcf_filter.py:307-366 | with QUAL bound `q` and the single filter `NAME: "<n"`, a record with scalar `NAME` passes iff QUAL >= q and the value >= n (so QUAL 40 fails at bound 50; with QUAL 60, `MQ` 25 fails and `MQ` 35 passes) |
| Partition.FilterVcf | sequana/vcf_filter.py:368-396 | fresh writers on the given paths; a second writer exactly when `output_filtered` is truthy; the first holds the kept records and the second the rejected ones, in input order; on success the counts are `N`, `N - unfiltered` and `unfiltered`; on a filter error the error is returned, with the records before it written |
| Partition.FilterWith | sequana/vcf_filter.py:385-396 | for a verdict function that agrees with `_filter_line` on the records: the same writers, contents, counts and error as `FilterVcf`, stated with that function |
| Partition.Writer.WriteRecord | sequana/vcf_filter.py:387 | writing appends the record to those already written |
| Partition.PartitionSizes | sequana/vcf_filter.py:385-396 | the kept and rejected records together number at most N, and exactly N when no error stops the run (that no record is lost or invented is `PartitionPermutes`) |
| Partition.FilteredIsRejected | sequana/vcf_filter.py:395-396 | `filtered = N - unfiltered` is the number of rejected records |
| Partition.PartitionErrorSticks | sequana/vcf_filter.py:385-391 | an error stops the run: records after it change nothing |
| Partition.KeptAppend | sequana/vcf_filter.py:385-391 | the kept records of two streams joined are the kept records of the first followed by those of the second |
| Partition.DroppedAppend | sequana/vcf_filter.py:385-391 | the same for the rejected records |
| Partition.PartitionIsFilter | sequana/vcf_filter.py:385-391 | the run is error-free iff every record can be judged; then the kept and rejected records are the stream filtered by the verdict, in order |
| Partition.PartitionError | sequana/vcf_filter.py:385-391 | a run stopped by an error was stopped by the first record that could not be judged, and holds what was written before it |
| Partition.PartitionSound | sequana/vcf_filter.py:385-391 | each kept record passes the line filter and each rejected one fails it |
| Partition.PartitionPermutes | sequana/vcf_filter.py:385-391 | an error-free run loses and invents no record: kept plus rejected is the input, as a multiset |
| Partition.PartitionIdempotent | sequana/vcf_filter.py:385-391 | filtering the kept records again keeps all of them, in order |
| Partition.AllPass | sequana/vcf_filter.py:385-391 | a stream whose records all pass is written out whole |
| Partition.KeptAboveQual | sequana/vcf_filter.py:312-314 | no kept record has QUAL below the bound |
| Partition.PartitionStep | sequana/vcf_filter.py:385-391 | one more record extends the run the way one turn of the loop does |

## Left out

- File I/O is left out. The VCF reader (`vcf.Reader`), the choice of reader class by the file's header (lines 67-84), `rewind`, opening and closing files, and `vcf.Writer`'s output format are not modelled. A stream of records is a `seq<Record>`, and a writer keeps the records written to it.
- `N = len(self)` is taken as the number of records the loop visits.
- `hist_qual` and the plotting helpers are left out. They are not part of the filter logic.
- Logging (`logger.debug`, `logger.warning`) is left out. It has no effect on the results.
- A record is reduced to its QUAL and INFO. QUAL is a number: a missing QUAL (`None`) is not modelled. Flag values and non-numeric INFO values are not modelled either; an INFO value is a number or a list of numbers.
- `filter_dict` is a QUAL bound plus a sequence of (key, threshold) pairs, in the dictionary's iteration order. Several consequences follow:
  - Key uniqueness is not enforced.
  - A dictionary without `"QUAL"` or `"INFO"` (a KeyError) is not modelled.
  - The QUAL bound is a number.
  - The `.copy()` of the default is dropped, because no code here mutates the dictionary.
- Numbers are exact reals, so binary floating-point rounding is not modelled.
- Text.ParseDecimal: reads only optional white space, an optional sign, and digits with an optional fraction. The white space it strips is what `float()` strips (`NumberStrip`: every white-space character except the separators U+001C to U+001F). Python's `float()` also accepts exponents, `inf`, `nan`, underscores and non-ASCII digits; such literals are `BadFloat` here.
- Text.ParseInt: reads only optional white space, an optional sign and ASCII digits. It strips the same white space as `ParseDecimal`; at sequana/vcf_filter.py:347 the text has already been through `str.strip()`, so there the difference never shows (`NumberStripAfterStrip`). Python's `int()` also accepts underscores and non-ASCII digits.
- Text.Strip: the white-space set is Python's for the characters the model lists. There is no Unicode database.
- FieldKeys.SumIndices: evaluates only the form `sum([name[i], name[j], ...])` that the rewrite produces from comma-separated elements of one field. Any other text handed to `eval` is `SumNotEvaluable`, even where Python could compute a value. That covers arithmetic inside the list (the docstring's `sum(DP4[2]+DP4[3])`), other names or calls, nested brackets, and a trailing comma. The exact Python exception for such faults is not distinguished.
- FieldKeys.IndexLiteral: reads a sign directly followed by a decimal literal, with spaces or tabs around it. Python's tokenizer also accepts `- 1`, underscores (`1_0`), other bases (`0x1`), newlines and form feeds inside the brackets, and a space before `[`. These are refused here, so the model never sums what `eval` would reject, but it refuses some text `eval` would sum.
- FieldKeys.EvalName: accepts only ASCII identifiers, while Python also allows non-ASCII ones.
- Writing into `locals()` is modelled as CPython before 3.13 behaves. From 3.13 on, the `eval` would not see the name, and every `sum(` filter would raise a NameError.
- Concurrency does not arise in this code.
