/** The threshold language of `_filter_info_field`: a threshold string such as
    `"<30"`, `">0.05&<0.95"` or `"<30|>60"` says when a numeric INFO value
    "fires", that is, when the record holding it is rejected.

    `Fires` interprets the string the way the method does, directly and
    recursively, with Python's short-circuit `and`/`or` (so an error in the
    second half is raised only when that half is reached). `Compile` and
    `Eval` split the same work into a parse to a tree and an evaluation of
    the tree; `FiresIsCompiledEval` proves the two agree on every input. */
module Thresholds {
  import opened Results
  import opened Text

  datatype Cmp = Lt | Le | Gt | Ge

  /** When a comparison leaf fires. */
  predicate Holds(op: Cmp, v: real, bound: real) {
    match op
    case Lt => v < bound
    case Le => v <= bound
    case Gt => v > bound
    case Ge => v >= bound
  }

  /** Compare `v` with the number written in `literal`; `float(literal)` may fail. */
  function CompareWith(op: Cmp, v: real, literal: string): Result<bool> {
    match ParseDecimal(literal)
    case None => Err(BadFloat(literal))
    case Some(bound) => Ok(Holds(op, v, bound))
  }

  /** `_filter_info_field(v, threshold)` */
  function Fires(v: real, threshold: string): Result<bool>
    decreases |threshold|
  {
    if '&' in threshold then
      var parts := Split(threshold, '&');
      if |parts| != 2 then Err(ThresholdUnpack(threshold))
      else
        var first := Fires(v, Strip(parts[0]));
        if first.Err? || !first.value then first else Fires(v, Strip(parts[1]))
    else if '|' in threshold then
      var parts := Split(threshold, '|');
      if |parts| != 2 then Err(ThresholdUnpack(threshold))
      else
        var first := Fires(v, Strip(parts[0]));
        if first.Err? || first.value then first else Fires(v, Strip(parts[1]))
    else if StartsWith(threshold, "<") then
      if StartsWith(threshold, "<=") then CompareWith(Le, v, threshold[2..])
      else CompareWith(Lt, v, threshold[1..])
    else if StartsWith(threshold, ">") then
      if StartsWith(threshold, ">=") then CompareWith(Ge, v, threshold[2..])
      else CompareWith(Gt, v, threshold[1..])
    else Ok(false)
  }

  // ---------------------------------------------------------------------------
  // Leaves
  // ---------------------------------------------------------------------------

  /** `float()` rejects a literal that begins with `=`. */
  lemma EqualsIsNotDecimal(lit: string)
    requires lit != [] && lit[0] == '='
    ensures ParseDecimal(lit) == None
  {
    NumberStripKeepsFirst(lit);
    var t := NumberStrip(lit);
    StartsUnsigned(t);
  }

  /** The unsigned part of a literal cannot start with `=`. */
  lemma StartsUnsigned(t: string)
    requires t != [] && t[0] == '='
    ensures ParseUnsignedDecimal(t) == None
  {
    SplitKeepsFirst(t, '.');
    var parts := Split(t, '.');
    assert !AllDigits(parts[0]) by { assert !IsDigit(parts[0][0]); }
    assert !AllDigits(t) by { assert !IsDigit(t[0]); }
  }

  /** The symbol that introduces a leaf of each kind. */
  function Symbol(op: Cmp): string {
    match op
    case Lt => "<"
    case Le => "<="
    case Gt => ">"
    case Ge => ">="
  }

  lemma LeafCase(v: real, op: Cmp, lit: string, b: real)
    requires ParseDecimal(lit) == Some(b)
    requires '&' !in lit && '|' !in lit
    ensures Fires(v, Symbol(op) + lit) == Ok(Holds(op, v, b))
  {
    if lit != [] && lit[0] == '=' { EqualsIsNotDecimal(lit); }
    SymbolNoCombinator(op, lit);
    LeafIsCompiledEval(v, Symbol(op) + lit);
    CompileSymbol(op, lit);
  }

  /** A comparison whose literal `float()` rejects raises `ValueError`. */
  lemma LeafRejects(v: real, op: Cmp, lit: string)
    requires ParseDecimal(lit) == None
    requires '&' !in lit && '|' !in lit
    requires lit == [] || lit[0] != '='
    ensures Fires(v, Symbol(op) + lit) == Err(BadFloat(lit))
  {
    SymbolNoCombinator(op, lit);
    LeafIsCompiledEval(v, Symbol(op) + lit);
    CompileSymbol(op, lit);
  }

  /** So `"<5"` followed by one of the separators U+001C to U+001F raises,
      although `"5\x1f".strip()` is `"5"`. */
  lemma SeparatorThresholdRejects(v: real, lit: string, c: char)
    requires lit != [] && IsDigit(lit[0]) && '&' !in lit && '|' !in lit
    requires '\U{001C}' <= c <= '\U{001F}'
    ensures Fires(v, "<" + lit + [c]) == Err(BadFloat(lit + [c]))
  {
    var t := lit + [c];
    assert t[0] == lit[0] && t[|t| - 1] == c;
    SeparatorIsNoDecimal(t);
    assert '&' !in t && '|' !in t;
    LeafRejects(v, Lt, t);
    assert "<" + lit + [c] == Symbol(Lt) + t;
  }

  /** Putting a symbol in front adds no `&` or `|`. */
  lemma SymbolNoCombinator(op: Cmp, lit: string)
    requires '&' !in lit && '|' !in lit
    ensures '&' !in Symbol(op) + lit && '|' !in Symbol(op) + lit
  {
    var t := Symbol(op) + lit;
    forall i | 0 <= i < |t| ensures t[i] != '&' && t[i] != '|' {
      if i >= |Symbol(op)| { assert t[i] == lit[i - |Symbol(op)|]; }
    }
  }

  /** The prefix tests of the method pick the leaf of the symbol. */
  lemma CompileSymbol(op: Cmp, lit: string)
    requires op == Lt || op == Gt ==> lit == [] || lit[0] != '='
    ensures CompileLeaf(Symbol(op) + lit) == Leaf(op, lit)
  {
    match op
    case Lt => CompileLt(lit);
    case Le => CompileLe(lit);
    case Gt => CompileGt(lit);
    case Ge => CompileGe(lit);
  }

  lemma CompileLt(lit: string)
    requires lit == [] || lit[0] != '='
    ensures CompileLeaf("<" + lit) == Leaf(Lt, lit)
  {
    var t := "<" + lit;
    assert t[..1] == "<" && t[1..] == lit;
    assert !StartsWith(t, "<=") by { assert |t| < 2 || t[1] != '='; }
  }

  lemma CompileLe(lit: string)
    ensures CompileLeaf("<=" + lit) == Leaf(Le, lit)
  {
    var t := "<=" + lit;
    assert t[..2] == "<=" && t[2..] == lit;
  }

  lemma CompileGt(lit: string)
    requires lit == [] || lit[0] != '='
    ensures CompileLeaf(">" + lit) == Leaf(Gt, lit)
  {
    var t := ">" + lit;
    assert t[..1] == ">" && t[1..] == lit;
    assert !StartsWith(t, "<") && !StartsWith(t, "<=");
    assert !StartsWith(t, ">=") by { assert |t| < 2 || t[1] != '='; }
  }

  lemma CompileGe(lit: string)
    ensures CompileLeaf(">=" + lit) == Leaf(Ge, lit)
  {
    var t := ">=" + lit;
    assert t[..2] == ">=" && t[2..] == lit;
    assert t[..1] == ">";
    assert !StartsWith(t, "<") && !StartsWith(t, "<=");
  }

  /** `"<=b"`, `"<b"`, `">=b"` and `">b"` fire exactly when `v <= b`, `v < b`,
      `v >= b` and `v > b`, for every literal `b` that `float()` reads. */
  lemma LeafFires(v: real, lit: string, b: real)
    requires ParseDecimal(lit) == Some(b)
    requires '&' !in lit && '|' !in lit
    ensures Fires(v, "<=" + lit) == Ok(v <= b)
    ensures Fires(v, "<" + lit) == Ok(v < b)
    ensures Fires(v, ">=" + lit) == Ok(v >= b)
    ensures Fires(v, ">" + lit) == Ok(v > b)
  {
    LeafBelow(v, lit, b);
    LeafAbove(v, lit, b);
  }

  lemma LeafBelow(v: real, lit: string, b: real)
    requires ParseDecimal(lit) == Some(b)
    requires '&' !in lit && '|' !in lit
    ensures Fires(v, "<=" + lit) == Ok(v <= b)
    ensures Fires(v, "<" + lit) == Ok(v < b)
  {
    LeafCase(v, Le, lit, b);
    LeafCase(v, Lt, lit, b);
  }

  lemma LeafAbove(v: real, lit: string, b: real)
    requires ParseDecimal(lit) == Some(b)
    requires '&' !in lit && '|' !in lit
    ensures Fires(v, ">=" + lit) == Ok(v >= b)
    ensures Fires(v, ">" + lit) == Ok(v > b)
  {
    LeafCase(v, Ge, lit, b);
    LeafCase(v, Gt, lit, b);
  }

  /** The same for integer bounds written out in decimal, e.g. `"<30"`. */
  lemma IntegerLeafFires(v: real, n: nat)
    ensures Fires(v, "<=" + DecimalString(n)) == Ok(v <= n as real)
    ensures Fires(v, "<" + DecimalString(n)) == Ok(v < n as real)
    ensures Fires(v, ">=" + DecimalString(n)) == Ok(v >= n as real)
    ensures Fires(v, ">" + DecimalString(n)) == Ok(v > n as real)
  {
    var s := DecimalString(n);
    FloatOfDecimalString(n);
    assert forall i :: 0 <= i < |s| ==> s[i] != '&' && s[i] != '|';
    LeafFires(v, s, n as real);
  }

  /** A threshold whose first character is not `<` or `>` (for instance one
      with a leading space, since the whole string is not stripped) never
      fires and raises nothing, whatever follows. */
  lemma OtherPrefixNeverFires(v: real, t: string)
    requires '&' !in t && '|' !in t
    requires t == [] || (t[0] != '<' && t[0] != '>')
    ensures Fires(v, t) == Ok(false)
  {
  }

  lemma LeadingSpaceNeverFires(v: real, t: string)
    requires '&' !in t && '|' !in t
    ensures Fires(v, " " + t) == Ok(false)
  {
    OtherPrefixNeverFires(v, " " + t);
  }

  // ---------------------------------------------------------------------------
  // `&` and `|`
  // ---------------------------------------------------------------------------

  /** `a&b` fires iff both stripped halves fire; the second half is only
      evaluated (and can only raise) when the first fires. */
  lemma AndFires(v: real, a: string, b: string)
    requires '&' !in a && '&' !in b
    ensures Fires(v, Strip(a)).Err? ==> Fires(v, a + "&" + b) == Fires(v, Strip(a))
    ensures Fires(v, Strip(a)) == Ok(false) ==> Fires(v, a + "&" + b) == Ok(false)
    ensures Fires(v, Strip(a)) == Ok(true) ==> Fires(v, a + "&" + b) == Fires(v, Strip(b))
    ensures Fires(v, Strip(a)).Ok? && Fires(v, Strip(b)).Ok? ==>
              Fires(v, a + "&" + b) == Ok(Fires(v, Strip(a)).value && Fires(v, Strip(b)).value)
  {
    var t := a + "&" + b;
    SplitTwo(a, '&', b);
    assert t[|a|] == '&';
  }

  /** `a|b` (with no `&` anywhere) fires iff either stripped half fires; the
      second half is only evaluated when the first does not fire. */
  lemma OrFires(v: real, a: string, b: string)
    requires '&' !in a && '&' !in b && '|' !in a && '|' !in b
    ensures Fires(v, Strip(a)).Err? ==> Fires(v, a + "|" + b) == Fires(v, Strip(a))
    ensures Fires(v, Strip(a)) == Ok(true) ==> Fires(v, a + "|" + b) == Ok(true)
    ensures Fires(v, Strip(a)) == Ok(false) ==> Fires(v, a + "|" + b) == Fires(v, Strip(b))
    ensures Fires(v, Strip(a)).Ok? && Fires(v, Strip(b)).Ok? ==>
              Fires(v, a + "|" + b) == Ok(Fires(v, Strip(a)).value || Fires(v, Strip(b)).value)
  {
    var t := a + "|" + b;
    SplitTwo(a, '|', b);
    assert t[|a|] == '|';
    assert '&' !in t;
  }

  /** Two or more `&` (or, with no `&`, two or more `|`) make the tuple unpack fail. */
  lemma TooManyPieces(v: real, t: string)
    requires Count(t, '&') >= 2 || (Count(t, '&') == 0 && Count(t, '|') >= 2)
    ensures Fires(v, t) == Err(ThresholdUnpack(t))
  {
    var amp := Split(t, '&');
    var bar := Split(t, '|');
    assert '&' in t <==> |amp| >= 2 by { AllPiecesWithout(t, '&'); }
    assert '|' in t <==> |bar| >= 2 by { AllPiecesWithout(t, '|'); }
  }

  /** A string splits into more than one piece iff it holds the separator. */
  lemma AllPiecesWithout(s: string, sep: char)
    ensures sep in s <==> |Split(s, sep)| >= 2
  {
    CountZero(s, sep);
  }

  // ---------------------------------------------------------------------------
  // The compiled form
  // ---------------------------------------------------------------------------

  /** A parsed threshold. `Never` is a string with no recognised prefix;
      `Unsplittable` one whose combinator does not split it into exactly two
      pieces. A leaf keeps its literal: `float()` is applied when it is reached. */
  datatype Threshold =
    | Leaf(op: Cmp, literal: string)
    | Never
    | Both(left: Threshold, right: Threshold)
    | Either(left: Threshold, right: Threshold)
    | Unsplittable(text: string)

  function Compile(threshold: string): Threshold
    decreases |threshold|
  {
    if '&' in threshold then
      var parts := Split(threshold, '&');
      if |parts| != 2 then Unsplittable(threshold)
      else Both(Compile(Strip(parts[0])), Compile(Strip(parts[1])))
    else if '|' in threshold then
      var parts := Split(threshold, '|');
      if |parts| != 2 then Unsplittable(threshold)
      else Either(Compile(Strip(parts[0])), Compile(Strip(parts[1])))
    else CompileLeaf(threshold)
  }

  /** A threshold with no combinator: the leaf its prefix selects. */
  function CompileLeaf(threshold: string): Threshold {
    if StartsWith(threshold, "<=") then Leaf(Le, threshold[2..])
    else if StartsWith(threshold, "<") then Leaf(Lt, threshold[1..])
    else if StartsWith(threshold, ">=") then Leaf(Ge, threshold[2..])
    else if StartsWith(threshold, ">") then Leaf(Gt, threshold[1..])
    else Never
  }

  function Eval(th: Threshold, v: real): Result<bool> {
    match th
    case Leaf(op, lit) => CompareWith(op, v, lit)
    case Never => Ok(false)
    case Unsplittable(text) => Err(ThresholdUnpack(text))
    case Both(l, r) =>
      var first := Eval(l, v);
      if first.Err? || !first.value then first else Eval(r, v)
    case Either(l, r) =>
      var first := Eval(l, v);
      if first.Err? || first.value then first else Eval(r, v)
  }

  /** Interpreting the string directly and evaluating its compiled tree agree. */
  lemma {:induction false} FiresIsCompiledEval(v: real, t: string)
    ensures Fires(v, t) == Eval(Compile(t), v)
    decreases |t|, 1
  {
    if '&' in t {
      AndIsCompiledEval(v, t);
    } else if '|' in t {
      OrIsCompiledEval(v, t);
    } else {
      LeafIsCompiledEval(v, t);
    }
  }

  lemma {:induction false} AndIsCompiledEval(v: real, t: string)
    requires '&' in t
    ensures Fires(v, t) == Eval(Compile(t), v)
    decreases |t|, 0
  {
    var parts := Split(t, '&');
    if |parts| == 2 {
      var a, b := Strip(parts[0]), Strip(parts[1]);
      FiresIsCompiledEval(v, a);
      FiresIsCompiledEval(v, b);
      assert Compile(t) == Both(Compile(a), Compile(b));
    }
  }

  lemma {:induction false} OrIsCompiledEval(v: real, t: string)
    requires '&' !in t && '|' in t
    ensures Fires(v, t) == Eval(Compile(t), v)
    decreases |t|, 0
  {
    var parts := Split(t, '|');
    if |parts| == 2 {
      var a, b := Strip(parts[0]), Strip(parts[1]);
      FiresIsCompiledEval(v, a);
      FiresIsCompiledEval(v, b);
      assert Compile(t) == Either(Compile(a), Compile(b));
    }
  }

  lemma LeafIsCompiledEval(v: real, t: string)
    requires '&' !in t && '|' !in t
    ensures Fires(v, t) == Eval(Compile(t), v)
  {
    if StartsWith(t, "<=") {
      assert StartsWith(t, "<") by { assert t[..1] == t[..2][..1]; }
    } else if StartsWith(t, ">=") {
      assert StartsWith(t, ">") by { assert t[..1] == t[..2][..1]; }
    }
  }

  /** A tree with no unsplittable node and only literals `float()` accepts. */
  predicate WellFormed(th: Threshold) {
    match th
    case Leaf(_, lit) => ParseDecimal(lit).Some?
    case Never => true
    case Unsplittable(_) => false
    case Both(l, r) => WellFormed(l) && WellFormed(r)
    case Either(l, r) => WellFormed(l) && WellFormed(r)
  }

  /** A well-formed threshold never raises, whatever the value. */
  lemma {:induction false} WellFormedNeverFails(th: Threshold, v: real)
    requires WellFormed(th)
    ensures Eval(th, v).Ok?
  {
    match th
    case Leaf(_, _) =>
    case Never =>
    case Both(l, r) => WellFormedNeverFails(l, v); WellFormedNeverFails(r, v);
    case Either(l, r) => WellFormedNeverFails(l, v); WellFormedNeverFails(r, v);
  }

  // ---------------------------------------------------------------------------
  // Shape of the compiled tree
  // ---------------------------------------------------------------------------

  /** A leaf string compiles to the leaf its symbol names. */
  lemma CompileLeafShape(op: Cmp, lit: string)
    requires '&' !in lit && '|' !in lit
    requires op == Lt || op == Gt ==> lit == [] || lit[0] != '='
    ensures Compile(Symbol(op) + lit) == Leaf(op, lit)
  {
    SymbolNoCombinator(op, lit);
    CompileSymbol(op, lit);
  }

  /** `a&b` compiles to the AND of its stripped halves. */
  lemma CompileAnd(a: string, b: string)
    requires '&' !in a && '&' !in b
    ensures Compile(a + "&" + b) == Both(Compile(Strip(a)), Compile(Strip(b)))
  {
    var t := a + "&" + b;
    SplitTwo(a, '&', b);
    assert t[|a|] == '&';
  }

  /** `a|b`, with no `&` anywhere, compiles to the OR of its stripped halves. */
  lemma CompileOr(a: string, b: string)
    requires '&' !in a && '&' !in b && '|' !in a && '|' !in b
    ensures Compile(a + "|" + b) == Either(Compile(Strip(a)), Compile(Strip(b)))
  {
    var t := a + "|" + b;
    SplitTwo(a, '|', b);
    assert t[|a|] == '|';
    assert '&' !in t;
  }

  /** `&` is looked for before `|`: `a|b&c` is an AND whose left half is the
      OR `a|b`, so the tree is not limited to one level of combinators. */
  lemma NestedCombinators(a: string, b: string, c: string)
    requires '&' !in a && '&' !in b && '&' !in c && '|' !in a && '|' !in b
    requires a == [] || !IsSpace(a[0])
    requires b == [] || !IsSpace(b[|b| - 1])
    ensures Compile(a + "|" + b + "&" + c) ==
            Both(Either(Compile(Strip(a)), Compile(Strip(b))), Compile(Strip(c)))
  {
    var ab := a + "|" + b;
    JoinedWithout(a, '|', b, '&');
    JoinedStripped(a, '|', b);
    assert ab + "&" + c == a + "|" + b + "&" + c;
    CompileAnd(ab, c);
    CompileOr(a, b);
  }

  /** A string that mixes the combinators the other way round, `a&b|c`, is
      no error either: it is an AND whose right half is the OR `b|c`. */
  lemma MixedCombinators(a: string, b: string, c: string)
    requires '&' !in a && '&' !in b && '&' !in c && '|' !in b && '|' !in c
    requires b == [] || !IsSpace(b[0])
    requires c == [] || !IsSpace(c[|c| - 1])
    ensures Compile(a + "&" + (b + "|" + c)) ==
            Both(Compile(Strip(a)), Either(Compile(Strip(b)), Compile(Strip(c))))
  {
    var bc := b + "|" + c;
    JoinedWithout(b, '|', c, '&');
    JoinedStripped(b, '|', c);
    CompileAnd(a, bc);
    CompileOr(b, c);
  }

  lemma JoinedWithout(a: string, sep: char, b: string, c: char)
    requires c !in a && c !in b && c != sep
    ensures c !in a + [sep] + b
  {
  }
}
