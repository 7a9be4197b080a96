/** The keys of the INFO filter mapping of `_filter_line`. A key is either
    a plain field name (`"DP"`), an indexed one (`"PV4[0]"`) or an aggregate
    `"sum(DP4[2],DP4[3])"` that adds up elements of one list-valued field. */
module FieldKeys {
  import opened Results
  import opened Text

  /** How a filter reads its value from a record's INFO mapping.
      `Direct(name, index)`: the field `name`; the index is used only when the
      field holds a list (a key without brackets gets index 0).
      `Aggregate(name, indices)`: the sum of the listed elements of `name`;
      `indices` is `None` when the `sum(...)` text is not an expression the
      evaluation can compute. */
  datatype FieldKey =
    | Direct(name: string, index: int)
    | Aggregate(name: string, indices: Option<seq<int>>)

  /** `key.replace("sum(", "sum([")[0:-1] + "])"`: the key rewritten into a
      Python expression that sums a list. */
  function SumExpression(key: string): (expr: string)
    requires StartsWith(key, "sum(")
    ensures |expr| >= 6 && expr[..4] == "sum(" && expr[|expr| - 2..] == "])"
  {
    var replaced := ReplaceAll(key, "sum(", "sum([");
    assert replaced == "sum([" + ReplaceAll(key[4..], "sum(", "sum([");
    var expr := replaced[..|replaced| - 1] + "])";
    assert expr[..4] == replaced[..4];
    expr
  }

  /** `expr[5:].split("[")[0]`: the field the aggregate reads. */
  function SumName(key: string): string
    requires StartsWith(key, "sum(")
  {
    Split(SumExpression(key)[5..], '[')[0]
  }

  // ---------------------------------------------------------------------------
  // What `eval` accepts
  // ---------------------------------------------------------------------------

  /** The white space the tokenizer skips inside a list display. */
  predicate IsBlank(c: char) { c == ' ' || c == '\t' }

  /** The text without the blanks at either end. Unlike `str.strip()`, this
      keeps every other white space character, which the tokenizer rejects. */
  function TrimBlanks(s: string): (r: string)
    ensures |r| <= |s|
    ensures r == [] || (!IsBlank(r[0]) && !IsBlank(r[|r| - 1]))
    ensures s != [] && !IsBlank(s[0]) ==> r != [] && r[0] == s[0]
    decreases |s|
  {
    if s != [] && IsBlank(s[0]) then TrimBlanks(s[1..])
    else if s != [] && IsBlank(s[|s| - 1]) then TrimBlanks(s[..|s| - 1])
    else s
  }

  predicate IsIdentifierStart(c: char) { 'a' <= c <= 'z' || 'A' <= c <= 'Z' || c == '_' }

  predicate IsIdentifierChar(c: char) { IsIdentifierStart(c) || IsDigit(c) }

  /** An ASCII Python identifier. */
  predicate IsIdentifier(s: string) {
    s != [] && IsIdentifierStart(s[0]) && forall k :: 0 <= k < |s| ==> IsIdentifierChar(s[k])
  }

  /** Names that `eval` cannot read as the summed list: the keywords, `sum`
      itself (the list would hide the builtin that is called), `__debug__`
      (which the compiler replaces by the constant `True`), and the local
      variables of `_filter_line`, which `eval` writes back into (or, when
      they are unbound, deletes from) the `locals()` dictionary before it
      runs, so the list stored under such a name is lost. */
  const ReservedWords: seq<string> := [
    "sum", "__debug__",
    "self", "vcf_line", "filter_dict", "key", "value", "expr", "mykey", "lcl",
    "result", "index", "val", "Nlist",
    "False", "None", "True", "and", "as", "assert", "async", "await", "break",
    "class", "continue", "def", "del", "elif", "else", "except", "finally",
    "for", "from", "global", "if", "import", "in", "is", "lambda", "nonlocal",
    "not", "or", "pass", "raise", "return", "try", "while", "with", "yield"
  ]

  /** `name` is one of `words`. */
  predicate Among(words: seq<string>, name: string)
    decreases |words|
  {
    words != [] && (words[0] == name || Among(words[1..], name))
  }

  /** A field name under which `eval` sees the list the loop stored. */
  predicate EvalName(name: string) {
    IsIdentifier(name) && !Among(ReservedWords, name)
  }

  /** An identifier holds none of the punctuation of an aggregate key. */
  lemma IdentifierPunctuation(name: string)
    requires IsIdentifier(name)
    ensures '[' !in name && '(' !in name && ',' !in name
    ensures !IsBlank(name[0]) && !IsSpace(name[0])
  {
    assert forall k :: 0 <= k < |name| ==> IsIdentifierChar(name[k]);
  }

  /** A decimal integer literal: no leading zero unless every digit is zero. */
  function DecimalLiteral(d: string): Option<nat> {
    if d != [] && AllDigits(d) && (d[0] != '0' || DigitsValue(d) == 0) then Some(DigitsValue(d))
    else None
  }

  /** An index the tokenizer reads as an integer: blanks around an optional
      sign directly followed by a decimal literal. */
  function IndexLiteral(s: string): Option<int> {
    var t := TrimBlanks(s);
    if t != [] && (t[0] == '-' || t[0] == '+') then
      match DecimalLiteral(t[1..])
      case Some(n) => Some(if t[0] == '-' then 0 - n else n as int)
      case None => None
    else
      match DecimalLiteral(t)
      case Some(n) => Some(n)
      case None => None
  }

  /** One list element `name[i]` of the summed list; `None` for anything else. */
  function ItemIndex(item: string, name: string): Option<int> {
    var open := name + "[";
    if |item| > |open| && item[..|open|] == open && item[|item| - 1] == ']' then
      IndexLiteral(item[|open|..|item| - 1])
    else None
  }

  function ItemIndices(items: seq<string>, name: string): Option<seq<int>>
    decreases |items|
  {
    if items == [] then Some([])
    else
      var first := ItemIndex(TrimBlanks(items[0]), name);
      var rest := ItemIndices(items[1..], name);
      if first.Some? && rest.Some? then Some([first.value] + rest.value) else None
  }

  /** What `eval(expr)` computes from: the indices of `sum([name[i], name[j], ...])`,
      or `None` when the text is not of that form or `name` is not one `eval`
      reads as the stored list. */
  function SumIndices(expr: string, name: string): Option<seq<int>> {
    if !EvalName(name) || |expr| < 7 || expr[..5] != "sum([" || expr[|expr| - 2..] != "])" then None
    else
      var body := expr[5..|expr| - 2];
      if TrimBlanks(body) == [] then Some([])
      else ItemIndices(Split(body, ','), name)
  }

  /** The key handling at the top of the loop body of `_filter_line`. */
  function ParseKey(key: string): Result<FieldKey> {
    if StartsWith(key, "sum(") then
      var name := SumName(key);
      Ok(Aggregate(name, SumIndices(SumExpression(key), name)))
    else if '[' in key then
      if ']' !in key then Err(UnclosedBracket(key))
      else
        var i := IndexOf(key, '[');
        var indexText := Strip(RemoveAll(key[i + 1..], ']'));
        match ParseInt(indexText)
        case None => Err(BadIndex(indexText))
        case Some(index) => Ok(Direct(Strip(key[..i]), index))
    else Ok(Direct(key, 0))
  }

  // ---------------------------------------------------------------------------
  // Plain and indexed keys
  // ---------------------------------------------------------------------------

  /** No `[` in a key made of `base + "[" ...` can make it start with `sum(`. */
  lemma NotSumKey(base: string, rest: string)
    requires '[' !in base && !StartsWith(base, "sum(")
    ensures !StartsWith(base + ['['] + rest, "sum(")
  {
    var key := base + ['['] + rest;
    if |base| >= 4 {
      assert key[..4] == base[..4];
    } else {
      assert key[|base|] == '[';
    }
  }

  /** A key with no bracket is the field name itself, with index 0. */
  lemma PlainKey(key: string)
    requires !StartsWith(key, "sum(") && '[' !in key
    ensures ParseKey(key) == Ok(Direct(key, 0))
  {
  }

  /** A `[` with no `]` anywhere is a fatal configuration error. */
  lemma UnclosedBracketFails(key: string)
    requires !StartsWith(key, "sum(") && '[' in key && ']' !in key
    ensures ParseKey(key) == Err(UnclosedBracket(key))
  {
  }

  /** The text `name[n]`. */
  function Item(name: string, n: nat): string {
    name + "[" + DecimalString(n) + "]"
  }

  /** The text `name[ -n ]`, with a sign and blank padding inside the brackets. */
  function SignedItem(name: string, n: nat): string {
    name + "[ -" + DecimalString(n) + " ]"
  }

  /** `name[n]` is `name`, a `[`, and digits followed by `]`. */
  lemma ItemShape(name: string, n: nat)
    ensures Item(name, n) == name + ['['] + (DecimalString(n) + "]")
    ensures Item(name, n)[..|name|] == name
    ensures Item(name, n)[|name| + 1..] == DecimalString(n) + "]"
    ensures ']' !in DecimalString(n) && ',' !in DecimalString(n) && '(' !in DecimalString(n)
    ensures |Item(name, n)| >= 3 && Item(name, n)[|Item(name, n)| - 1] == ']'
    ensures Item(name, n)[0] == if name == [] then '[' else name[0]
  {
    var d := DecimalString(n);
    assert forall k :: 0 <= k < |d| ==> IsDigit(d[k]);
  }

  /** `KEY[t]`, whatever the text `t` between the brackets: the stripped base
      name with `int(t)`, or the error `int()` raises on `t`. */
  lemma IndexedKeyText(base: string, t: string)
    requires '[' !in base && !StartsWith(base, "sum(") && ']' !in t
    ensures ParseKey(base + "[" + t + "]")
      == match ParseInt(Strip(t))
         case None => Err(BadIndex(Strip(t)))
         case Some(k) => Ok(Direct(Strip(base), k))
  {
    var key := base + "[" + t + "]";
    assert key == base + ['['] + (t + "]");
    NotSumKey(base, t + "]");
    assert ']' in key by { assert key[|key| - 1] == ']'; }
    FirstIndex(base, '[', t + "]");
    assert key[..|base|] == base && key[|base| + 1..] == t + "]";
    RemoveAbsentThenLast(t, ']');
  }

  /** `KEY[i]` reads element `i` of the stripped base name `KEY`. */
  lemma IndexedKey(base: string, n: nat)
    requires '[' !in base && !StartsWith(base, "sum(")
    ensures ParseKey(Item(base, n)) == Ok(Direct(Strip(base), n))
  {
    var digits := DecimalString(n);
    assert ']' !in digits by { ItemShape(base, n); }
    StripUnchanged(digits);
    IntOfDecimalString(n);
    IndexedKeyText(base, digits);
  }

  /** `KEY[ -n ]`: a sign and blank padding are read by `int()`, so the index
      is negative. */
  lemma SignedPaddedKey(base: string, n: nat)
    requires '[' !in base && !StartsWith(base, "sum(")
    ensures ParseKey(SignedItem(base, n)) == Ok(Direct(Strip(base), -(n as int)))
  {
    var d := DecimalString(n);
    var signed := "-" + d;
    var t := " " + signed + " ";
    assert SignedItem(base, n) == base + "[" + t + "]";
    assert ']' !in t by { ItemShape(base, n); }
    assert Strip(t) == signed by {
      assert signed[|signed| - 1] == d[|d| - 1] && IsDigit(d[|d| - 1]);
      StripPadded(signed);
    }
    IntOfSigned(n, '-');
    IndexedKeyText(base, t);
  }

  /** `KEY[0n]`: `int()` reads a leading zero, unlike a literal inside `sum(`. */
  lemma LeadingZeroKey(base: string, n: nat)
    requires '[' !in base && !StartsWith(base, "sum(")
    ensures ParseKey(base + "[0" + DecimalString(n) + "]") == Ok(Direct(Strip(base), n))
  {
    var d := DecimalString(n);
    var t := "0" + d;
    assert base + "[0" + d + "]" == base + "[" + t + "]";
    ItemShape(base, n);
    assert ']' !in t;
    assert t[|t| - 1] == d[|d| - 1] && IsDigit(d[|d| - 1]);
    StripUnchanged(t);
    IntOfLeadingZero(n);
    IndexedKeyText(base, t);
  }

  /** `KEY[]`: `int("")` fails, and so does the filter set. */
  lemma EmptyIndexFails(base: string)
    requires '[' !in base && !StartsWith(base, "sum(")
    ensures ParseKey(base + "[]") == Err(BadIndex(""))
  {
    assert base + "[]" == base + "[" + "" + "]";
    IndexedKeyText(base, "");
    StripUnchanged("");
  }

  /** The first `c` in `a + [c] + b` is the one after `a` when `a` has none. */
  lemma {:induction false} FirstIndex(a: string, c: char, b: string)
    requires c !in a
    ensures c in a + [c] + b && IndexOf(a + [c] + b, c) == |a|
    decreases |a|
  {
    var s := a + [c] + b;
    assert s[|a|] == c;
    if a != [] {
      assert s[1..] == a[1..] + [c] + b;
      FirstIndex(a[1..], c, b);
    }
  }

  /** Removing a character that occurs only at the end of `s + [c]`. */
  lemma {:induction false} RemoveAbsentThenLast(s: string, c: char)
    requires c !in s
    ensures RemoveAll(s + [c], c) == s
    decreases |s|
  {
    if s == [] {
      assert [c][1..] == [];
    } else {
      assert (s + [c])[1..] == s[1..] + [c];
      RemoveAbsentThenLast(s[1..], c);
      assert [s[0]] + s[1..] == s;
    }
  }

  // ---------------------------------------------------------------------------
  // Aggregate keys
  // ---------------------------------------------------------------------------

  /** Text without `(` holds no `sum(` for the rewrite to replace. */
  lemma {:induction false} ReplaceWithoutParen(s: string, rep: string)
    requires '(' !in s
    ensures ReplaceAll(s, "sum(", rep) == s
    decreases |s|
  {
    if |s| >= 4 {
      assert s[..4] != "sum(" by { assert s[3] != '('; }
      ReplaceWithoutParen(s[1..], rep);
      assert [s[0]] + s[1..] == s;
    }
  }

  /** The first piece of `a + [sep] + b` is `a` when `a` has no separator. */
  lemma {:induction false} FirstPiece(a: string, sep: char, b: string)
    requires sep !in a
    ensures Split(a + [sep] + b, sep)[0] == a
    decreases |a|
  {
    if a != [] {
      assert (a + [sep] + b)[1..] == a[1..] + [sep] + b;
      FirstPiece(a[1..], sep, b);
      assert [a[0]] + a[1..] == a;
    }
  }

  /** `sum(body)` with no `(` in `body` is rewritten to `sum([body])`. */
  lemma SumExpressionOf(body: string)
    requires '(' !in body
    ensures SumExpression("sum(" + body + ")") == "sum([" + body + "])"
  {
    var key := "sum(" + body + ")";
    assert key[..4] == "sum(";
    assert '(' !in body + ")";
    ReplaceWithoutParen(body + ")", "sum([");
    assert key[4..] == body + ")";
    var replaced := ReplaceAll(key, "sum(", "sum([");
    assert replaced == "sum([" + (body + ")");
    assert replaced[..|replaced| - 1] == "sum([" + body;
  }

  /** The tokenizer reads back every index written in decimal. */
  lemma IndexLiteralOfDecimalString(n: nat)
    ensures IndexLiteral(DecimalString(n)) == Some(n)
  {
    var d := DecimalString(n);
    assert IsDigit(d[0]) && IsDigit(d[|d| - 1]);
    assert TrimBlanks(d) == d;
    DecimalStringLeading(n);
    DigitsOfDecimalString(n);
  }

  /** The element `name[n]` of a summed list reads index `n`. */
  lemma ItemIndexOf(name: string, n: nat)
    ensures ItemIndex(Item(name, n), name) == Some(n)
  {
    var digits := DecimalString(n);
    var item := Item(name, n);
    var open := name + "[";
    ItemShape(name, n);
    assert item[..|open|] == open;
    assert item[|open|..|item| - 1] == digits;
    IndexLiteralOfDecimalString(n);
  }

  /** Unlike `int()`, the tokenizer refuses a leading zero: `name[0n]` with
      `n > 0` is no element `eval` can read. */
  lemma LeadingZeroRefused(name: string, n: nat)
    requires n > 0
    ensures ItemIndex(name + "[0" + DecimalString(n) + "]", name) == None
  {
    var d := "0" + DecimalString(n);
    var item := name + "[0" + DecimalString(n) + "]";
    var open := name + "[";
    assert item[..|open|] == open;
    assert item[|open|..|item| - 1] == d;
    assert IsDigit(d[|d| - 1]);
    assert TrimBlanks(d) == d;
    LeadingZeroValue(DecimalString(n));
    DigitsOfDecimalString(n);
  }

  /** `name[i],name[j]` splits into its two elements, each its own strip. */
  lemma TwoItems(name: string, i: nat, j: nat)
    requires ',' !in name
    requires name == [] || !IsBlank(name[0])
    ensures Split(Item(name, i) + "," + Item(name, j), ',') == [Item(name, i), Item(name, j)]
    ensures TrimBlanks(Item(name, i) + "," + Item(name, j)) != []
  {
    var item1, item2 := Item(name, i), Item(name, j);
    ItemShape(name, i);
    ItemShape(name, j);
    assert ',' !in item1 && ',' !in item2;
    SplitTwo(item1, ',', item2);
    assert (item1 + "," + item2)[0] == item1[0];
  }

  /** The list display of a rewritten expression is split at its commas. */
  lemma SumIndicesOfBody(body: string, name: string)
    requires EvalName(name) && TrimBlanks(body) != []
    ensures SumIndices("sum([" + body + "])", name) == ItemIndices(Split(body, ','), name)
  {
    DisplayShape(body);
  }

  /** The parts of the list display `sum([body])`. */
  lemma DisplayShape(body: string)
    requires body != []
    ensures var expr := "sum([" + body + "])";
      |expr| >= 7 && expr[..5] == "sum([" && expr[|expr| - 2..] == "])" && expr[5..|expr| - 2] == body
  {
    var expr := "sum([" + body + "])";
    assert expr[..5] == "sum([";
    assert expr[|expr| - 2..] == "])";
    assert expr[5..|expr| - 2] == body;
  }

  /** A two-element list display whose elements both parse. */
  lemma SumIndicesOfPair(a: string, b: string, name: string, x: int, y: int)
    requires EvalName(name)
    requires Split(a + "," + b, ',') == [a, b]
    requires TrimBlanks(a + "," + b) != []
    requires ItemIndex(TrimBlanks(a), name) == Some(x) && ItemIndex(TrimBlanks(b), name) == Some(y)
    ensures SumIndices("sum([" + (a + "," + b) + "])", name) == Some([x, y])
  {
    SumIndicesOfBody(a + "," + b, name);
    ItemIndicesOfTwo(a, b, name);
  }

  /** An item survives the trimming applied to each list element. */
  lemma ItemIndexTrimmed(name: string, n: nat)
    requires name == [] || !IsBlank(name[0])
    ensures ItemIndex(TrimBlanks(Item(name, n)), name) == Some(n)
  {
    ItemShape(name, n);
    assert Item(name, n)[0] == (if name == [] then '[' else name[0]);
    assert TrimBlanks(Item(name, n)) == Item(name, n);
    ItemIndexOf(name, n);
  }

  /** The list `[name[i], name[j]]` of the rewritten expression. */
  lemma SumIndicesOf(name: string, i: nat, j: nat)
    requires EvalName(name)
    ensures SumIndices("sum([" + (Item(name, i) + "," + Item(name, j)) + "])", name) == Some([i, j])
  {
    IdentifierPunctuation(name);
    TwoItems(name, i, j);
    ItemIndexTrimmed(name, i);
    ItemIndexTrimmed(name, j);
    SumIndicesOfPair(Item(name, i), Item(name, j), name, i, j);
  }

  lemma ItemIndicesOfTwo(a: string, b: string, name: string)
    requires ItemIndex(TrimBlanks(a), name).Some? && ItemIndex(TrimBlanks(b), name).Some?
    ensures ItemIndices([a, b], name) == Some([ItemIndex(TrimBlanks(a), name).value, ItemIndex(TrimBlanks(b), name).value])
  {
    var x, y := ItemIndex(TrimBlanks(a), name), ItemIndex(TrimBlanks(b), name);
    assert ItemIndices([], name) == Some([]);
    assert [b][1..] == [];
    assert [y.value] + [] == [y.value];
    assert ItemIndices([b], name) == Some([y.value]);
    assert [a, b][1..] == [b];
    assert [x.value] + [y.value] == [x.value, y.value];
  }

  /** The field named by `sum(name[...)` is `name`. */
  lemma SumNameOf(name: string, rest: string)
    requires '[' !in name && '(' !in name + "[" + rest
    ensures StartsWith("sum(" + (name + "[" + rest) + ")", "sum(")
    ensures SumName("sum(" + (name + "[" + rest) + ")") == name
  {
    var body := name + "[" + rest;
    var key := "sum(" + body + ")";
    assert key[..4] == "sum(";
    SumExpressionOf(body);
    var expr := "sum([" + body + "])";
    assert expr[5..] == name + ['['] + (rest + "])");
    FirstPiece(name, '[', rest + "])");
  }

  /** The key `sum(KEY[i],KEY[j])` of an identifier `KEY` takes the `sum(`
      branch, names the field `KEY` and is rewritten to `sum([KEY[i],KEY[j]])`. */
  lemma SumKeyParts(name: string, i: nat, j: nat)
    requires IsIdentifier(name)
    ensures var key := "sum(" + (Item(name, i) + "," + Item(name, j)) + ")";
      StartsWith(key, "sum(") && SumName(key) == name
      && SumExpression(key) == "sum([" + (Item(name, i) + "," + Item(name, j)) + "])"
  {
    IdentifierPunctuation(name);
    var body := Item(name, i) + "," + Item(name, j);
    ItemShape(name, i);
    ItemShape(name, j);
    assert '(' !in body;
    var rest := DecimalString(i) + "]" + "," + Item(name, j);
    assert body == name + "[" + rest;
    SumNameOf(name, rest);
    SumExpressionOf(body);
  }

  /** `sum(KEY[i],KEY[j])` sums elements `i` and `j` of the field `KEY`. */
  lemma SumKey(name: string, i: nat, j: nat)
    requires EvalName(name)
    ensures ParseKey("sum(" + (Item(name, i) + "," + Item(name, j)) + ")") == Ok(Aggregate(name, Some([i, j])))
  {
    SumKeyParts(name, i, j);
    SumIndicesOf(name, i, j);
  }

  /** A field named like a keyword, `sum` or a local of `_filter_line` is
      read as the field, but `eval` cannot sum it. */
  lemma ReservedSumKey(name: string, i: nat, j: nat)
    requires IsIdentifier(name) && !EvalName(name)
    ensures ParseKey("sum(" + (Item(name, i) + "," + Item(name, j)) + ")") == Ok(Aggregate(name, None))
  {
    SumKeyParts(name, i, j);
  }
}
