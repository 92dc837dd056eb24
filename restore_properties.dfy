/**
 * Properties of the Restore rules, stated over the `Render` specification
 * that every Restore method is proved to follow.
 */
module RestoreProperties {
  import opened Decimal
  import opened ExpressionAtom

  /**
   * Integers of every width render in base 10: the text parses back to the
   * value, carries a minus sign exactly when a signed value is negative, and
   * unsigned values never carry a sign.
   */
  lemma ConstantIntegerText(env: Env, lit: Literal)
    ensures SignedValue(lit).Some? ==>
      var r := Constant2String(env, lit);
      IsSignedDecimal(r) && ParseInt(r) == SignedValue(lit).value &&
      (r[0] == '-' <==> SignedValue(lit).value < 0)
    ensures UnsignedValue(lit).Some? ==>
      var r := Constant2String(env, lit);
      Canonical(r) && r[0] != '-' && ParseDigits(r) == UnsignedValue(lit).value
  {
    match lit
    case LitInt(v) => var r := FormatInt(v as int);
    case LitInt32(v) => var r := FormatInt(v as int);
    case LitInt16(v) => var r := FormatInt(v as int);
    case LitInt64(v) => var r := FormatInt(v as int);
    case LitInt8(v) => var r := FormatInt(v as int);
    case LitUint(v) => var r := FormatUint(v as nat);
    case LitUint32(v) => var r := FormatUint(v as nat);
    case LitUint16(v) => var r := FormatUint(v as nat);
    case LitUint64(v) => var r := FormatUint(v as nat);
    case LitUint8(v) => var r := FormatUint(v as nat);
    case _ =>
  }

  // ------------------------------------------------------------ column names

  /** The position of the first dot. */
  function IndexOfDot(s: string): (i: nat)
    requires '.' in s
    ensures i < |s| && s[i] == '.' && '.' !in s[..i]
  {
    if s[0] == '.' then 0
    else
      var j := IndexOfDot(s[1..]);
      assert s[..j + 1] == [s[0]] + s[1..][..j];
      j + 1
  }

  /** Cut a text at every dot: the reference reading of a dotted name. */
  function SplitDots(s: string): seq<string>
    decreases |s|
  {
    if '.' !in s then [s]
    else
      var i := IndexOfDot(s);
      [s[..i]] + SplitDots(s[i + 1..])
  }

  lemma SplitDotsCons(x: string, rest: string)
    requires '.' !in x
    ensures SplitDots(x + "." + rest) == [x] + SplitDots(rest)
  {
    var s := x + "." + rest;
    assert s[|x|] == '.';
    assert s[..|x|] == x;
    var i := IndexOfDot(s);
    assert i == |x|;
    assert s[i + 1..] == rest;
  }

  lemma {:induction false} SplitJoined(ids: seq<string>)
    requires |ids| >= 1
    requires forall k :: 0 <= k < |ids| ==> '.' !in ids[k]
    ensures SplitDots(Joined(ids)) == ids
    decreases |ids|
  {
    if |ids| > 1 {
      SplitDotsCons(ids[0], Joined(ids[1..]));
      SplitJoined(ids[1..]);
      assert ids == [ids[0]] + ids[1..];
    }
  }

  lemma {:induction false} JoinedEnds(ids: seq<string>)
    requires |ids| >= 1
    ensures var r := Joined(ids);
      |ids[0]| <= |r| && r[..|ids[0]|] == ids[0] &&
      |ids[|ids| - 1]| <= |r| && r[|r| - |ids[|ids| - 1]|..] == ids[|ids| - 1]
    ensures |ids| > 1 ==> |ids[0]| + 1 <= |Joined(ids)| && Joined(ids)[..|ids[0]| + 1] == ids[0] + "."
    decreases |ids|
  {
    if |ids| > 1 {
      var rest := Joined(ids[1..]);
      JoinedEnds(ids[1..]);
      assert ids[1..][|ids[1..]| - 1] == ids[|ids| - 1];
      var r := ids[0] + "." + rest;
      var last := ids[|ids| - 1];
      assert r[|r| - |last|..] == rest[|rest| - |last|..];
    }
  }

  /**
   * A column name of k parts renders as the k quoted parts in order with a
   * dot between each two: reading the text back at its dots yields exactly
   * the k parts (when quoting puts no dot inside a part). Nothing is
   * collected and nothing fails.
   */
  lemma ColumnNameTokens(env: Env, flag: RestoreFlag, parts: seq<string>)
    requires |parts| >= 1
    requires forall k :: 0 <= k < |parts| ==> '.' !in env.writeId(parts[k])
    ensures var e := Render(env, flag, ColumnName(parts));
      SplitDots(e.text) == WriteIds(env, parts) && |SplitDots(e.text)| == |parts| &&
      e.args == [] && e.err == None
  {
    SplitJoined(WriteIds(env, parts));
  }

  /**
   * The rendering begins with the prefix and a dot when there is a prefix,
   * is the suffix alone for a single part, and always ends with the suffix.
   */
  lemma ColumnNamePrefixSuffix(env: Env, flag: RestoreFlag, parts: seq<string>)
    requires |parts| >= 1
    ensures var t := Render(env, flag, ColumnName(parts)).text;
      var suffix := env.writeId(Suffix(parts));
      |suffix| <= |t| && t[|t| - |suffix|..] == suffix &&
      (|parts| == 1 ==> Prefix(parts) == "" && t == suffix) &&
      (|parts| > 1 ==>
        var prefix := env.writeId(Prefix(parts));
        |prefix| + 1 <= |t| && t[..|prefix| + 1] == prefix + ".")
  {
    JoinedEnds(WriteIds(env, parts));
  }

  // ------------------------------------------------------------- variables

  /** A placeholder renders as `?` and contributes exactly its own index. */
  lemma VariableRender(env: Env, flag: RestoreFlag, n: int)
    ensures Render(env, flag, Variable(n)) == Emit("?", [N(Variable(n))], None)
  {
  }

  // ------------------------------------------------------------------ math

  /**
   * Math renders left, operator, right, with a space on each side of the
   * operator only for integer division; indices from the left come first.
   */
  lemma MathRender(env: Env, flag: RestoreFlag, l: Atom, op: string, r: Atom)
    requires Renderable(l) && Renderable(r)
    requires Render(env, flag, l).err == None
    ensures var left, right := Render(env, flag, l), Render(env, flag, r);
      var e := Render(env, flag, Math(l, op, r));
      e.args == left.args + right.args && e.err == right.err &&
      (op == env.intDiv ==> e.text == left.text + " " + op + " " + right.text) &&
      (op != env.intDiv ==> e.text == left.text + op + right.text)
  {
    var left, right := Render(env, flag, l), Render(env, flag, r);
    MathUnfold(env, flag, l, op, r);
    if op == env.intDiv {
      var lt, rt := left.text, right.text;
      assert lt + (" " + op + " ") + rt == lt + " " + op + " " + rt;
    }
  }

  lemma MathUnfold(env: Env, flag: RestoreFlag, l: Atom, op: string, r: Atom)
    requires Renderable(l) && Renderable(r)
    requires Render(env, flag, l).err == None
    ensures var left, right := Render(env, flag, l), Render(env, flag, r);
      Render(env, flag, Math(l, op, r)) ==
        Emit(left.text + MathOperator(env, op) + right.text, left.args + right.args, right.err)
  {
  }

  /**
   * When the left operand fails, the right operand is never rendered: the
   * outcome is the left operand's, whatever the right operand is.
   */
  lemma MathLeftFailure(env: Env, flag: RestoreFlag, l: Atom, op: string, r: Atom, r': Atom)
    requires Renderable(l) && Renderable(r) && Renderable(r')
    requires Render(env, flag, l).err.Some?
    ensures Render(env, flag, Math(l, op, r)) == Render(env, flag, l)
    ensures Render(env, flag, Math(l, op, r)) == Render(env, flag, Math(l, op, r'))
  {
  }

  // ---------------------------------------------------------------- nested

  function Delta(c: char): int {
    if c == '(' then 1 else if c == ')' then -1 else 0
  }

  /** Open minus closed parentheses. */
  function Depth(s: string): int
    decreases |s|
  {
    if s == [] then 0 else Depth(s[..|s| - 1]) + Delta(s[|s| - 1])
  }

  ghost predicate Balanced(s: string) {
    Depth(s) == 0 && forall k :: 0 <= k <= |s| ==> Depth(s[..k]) >= 0
  }

  /** Balanced, and the first character's parenthesis is closed only by the last. */
  ghost predicate OnePair(s: string) {
    |s| >= 2 && s[0] == '(' && s[|s| - 1] == ')' && Balanced(s) &&
    forall k :: 1 <= k < |s| ==> Depth(s[..k]) >= 1
  }

  lemma {:induction false} DepthAfterOpen(t: string, k: nat)
    requires k <= |t|
    ensures Depth(("(" + t)[..k + 1]) == 1 + Depth(t[..k])
    decreases k
  {
    var s := ("(" + t)[..k + 1];
    if k == 0 {
      assert s == "(";
      assert s[..0] == [];
      assert t[..0] == [];
    } else {
      DepthAfterOpen(t, k - 1);
      assert s[..k] == ("(" + t)[..k];
      assert s[k] == t[k - 1];
      assert t[..k][..k - 1] == t[..k - 1];
    }
  }

  lemma NestedOnePair(t: string)
    requires Balanced(t)
    ensures OnePair("(" + t + ")")
  {
    var s := "(" + t + ")";
    forall k | 1 <= k < |s|
      ensures Depth(s[..k]) >= 1
    {
      assert s[..k] == ("(" + t)[..k];
      DepthAfterOpen(t, k - 1);
    }
    assert s[..|s| - 1] == ("(" + t)[..|t| + 1];
    DepthAfterOpen(t, |t|);
    assert t[..|t|] == t;
    assert s[..0] == [];
    assert s[..|s|] == s;
  }

  /**
   * Nested wraps its child in one pair of parentheses: a child that renders
   * balanced text yields text whose opening parenthesis is closed by the
   * final character and no earlier. On failure the opening parenthesis
   * stays written and the closing one is not.
   */
  lemma NestedRender(env: Env, flag: RestoreFlag, first: Atom)
    requires Renderable(first)
    ensures var inner := Render(env, flag, first);
      var e := Render(env, flag, Nested(first));
      e.args == inner.args && e.err == inner.err &&
      (inner.err == None ==> e.text == "(" + inner.text + ")") &&
      (inner.err.Some? ==> e.text == "(" + inner.text)
    ensures var inner := Render(env, flag, first);
      inner.err == None && Balanced(inner.text) ==> OnePair(Render(env, flag, Nested(first)).text)
  {
    var inner := Render(env, flag, first);
    if inner.err == None && Balanced(inner.text) {
      NestedOnePair(inner.text);
    }
  }

  // ----------------------------------------------------------------- unary

  /** The operator is written immediately before the operand: no space, no parentheses. */
  lemma UnaryRender(env: Env, flag: RestoreFlag, op: string, inner: Atom)
    requires Renderable(Unary(op, inner))
    ensures var e := Render(env, flag, inner);
      Render(env, flag, Unary(op, inner)) == Emit(op + e.text, e.args, e.err)
  {
  }

  lemma OperatorNotExamples()
    ensures IsOperatorNot("NOT") && IsOperatorNot("!")
    ensures !IsOperatorNot("-") && !IsOperatorNot("not") && !IsOperatorNot("~")
  {
  }

  // --------------------------------------------------------- function calls

  /** A function call renders exactly as the function node it holds. */
  lemma FunctionCallRender(env: Env, flag: RestoreFlag, f: Atom)
    requires Renderable(FunctionCall(f))
    ensures Render(env, flag, FunctionCall(f)) == env.ext(f.node, flag)
  {
  }

  // ------------------------------------------------------- system variables

  /**
   * In compatibility mode a table key renders as the table's text, whatever
   * the scope flags; otherwise `@`, a second `@` for system scope, `GLOBAL.`
   * for global scope, then the quoted name.
   */
  lemma SystemVariableRender(env: Env, flag: RestoreFlag, name: string, system: bool, global: bool)
    ensures var e := Render(env, flag, SystemVariable(name, system, global));
      e.args == [] && e.err == None &&
      (Has(flag, RestoreCompat80) && IsCompat80(name) ==>
        e.text == Compat80Dict[name] &&
        e.text in {"'1048576'", "'OFF'", "@@transaction_isolation", "@@transaction_read_only"}) &&
      (!(Has(flag, RestoreCompat80) && IsCompat80(name)) ==>
        e.text == "@" + (if system then "@" else "") + (if global then "GLOBAL." else "") + env.writeId(name))
  {
  }

  /**
   * Outside the compatibility rewrite, the text starts with `@`, its second
   * character is `@` exactly for system scope, and `GLOBAL.` follows the
   * at-signs exactly for global scope (given quoting that does not itself
   * start with `@` or `G`).
   */
  lemma SystemVariableScope(env: Env, flag: RestoreFlag, name: string, system: bool, global: bool)
    requires !(Has(flag, RestoreCompat80) && IsCompat80(name))
    requires |env.writeId(name)| >= 1 && env.writeId(name)[0] != '@' && env.writeId(name)[0] != 'G'
    ensures var t := Render(env, flag, SystemVariable(name, system, global)).text;
      |t| >= 2 && t[0] == '@' && (t[1] == '@' <==> system) &&
      var rest := if system then t[2..] else t[1..];
      (|rest| >= 7 && rest[..7] == "GLOBAL.") <==> global
  {
    var w := env.writeId(name);
    var g := if global then "GLOBAL." else "";
    var t := Render(env, flag, SystemVariable(name, system, global)).text;
    var rest := g + w;
    if system {
      assert t == "@@" + rest;
      assert t[2..] == rest;
    } else {
      assert t == "@" + rest;
      assert t[1..] == rest;
    }
    if global {
      assert rest[..7] == "GLOBAL.";
    } else {
      assert rest == w;
    }
  }

  lemma TxIsolationExample(env: Env)
    requires env.writeId("tx_isolation") == "tx_isolation"
    ensures Render(env, {}, SystemVariable("tx_isolation", true, false)).text == "@@tx_isolation"
    ensures Render(env, {RestoreCompat80}, SystemVariable("tx_isolation", true, false)).text
      == "@@transaction_isolation"
  {
  }

  // ---------------------------------------------------------------- interval

  /** `INTERVAL `, the value, a space, the unit name; a failing value stops after its own text. */
  lemma IntervalRender(env: Env, flag: RestoreFlag, unit: TimeUnit, v: Atom)
    requires Renderable(v)
    ensures var e, val := Render(env, flag, Interval(unit, v)), Render(env, flag, v);
      e.args == val.args && e.err == val.err &&
      (val.err == None ==> e.text == "INTERVAL " + val.text + " " + env.unitText(unit)) &&
      (val.err.Some? ==> e.text == "INTERVAL " + val.text)
  {
  }

  /** The five fixed units, in nanoseconds, each a whole multiple of the one before. */
  lemma DurationTable()
    ensures Duration(TimeUnitMicrosecond) == 1_000
    ensures Duration(TimeUnitSecond) == 1_000_000_000 == 1_000_000 * Duration(TimeUnitMicrosecond)
    ensures Duration(TimeUnitMinute) == 60_000_000_000 == 60 * Duration(TimeUnitSecond)
    ensures Duration(TimeUnitHour) == 3_600_000_000_000 == 60 * Duration(TimeUnitMinute)
    ensures Duration(TimeUnitDay) == 86_400_000_000_000 == 24 * Duration(TimeUnitHour)
  {
  }

  // ---------------------------------------------------------------- constants

  lemma IntegerConstantExamples(env: Env)
    ensures Render(env, {}, Constant(LitInt64(-42))).text == "-42"
    ensures Render(env, {}, Constant(LitUint8(7))).text == "7"
  {
    assert Digits(42) == "42" by {
      assert Digits(4) == "4";
    }
    assert FormatInt(-42) == "-42";
  }

  lemma ConstantExamples(env: Env)
    ensures Render(env, {}, Constant(LitBool(true))).text == "true"
    ensures Render(env, {}, Constant(LitBool(false))).text == "false"
    ensures Render(env, {}, Constant(LitString("a'b"))).text == "'" + env.escape("a'b") + "'"
    ensures Render(env, {}, Constant(LitNull)).text == env.nullText
  {
  }

  // ------------------------------------------------------ errors and flags

  /** The error of the first failing external node in a list. */
  function FirstFailure(env: Env, flag: RestoreFlag, xs: seq<ExtNode>): Option<Error>
    decreases |xs|
  {
    if xs == [] then None
    else if env.ext(xs[0], flag).err.Some? then env.ext(xs[0], flag).err
    else FirstFailure(env, flag, xs[1..])
  }

  lemma {:induction false} FirstFailureAppend(env: Env, flag: RestoreFlag, xs: seq<ExtNode>, ys: seq<ExtNode>)
    ensures FirstFailure(env, flag, xs + ys) ==
      if FirstFailure(env, flag, xs).Some? then FirstFailure(env, flag, xs) else FirstFailure(env, flag, ys)
    decreases |xs|
  {
    if xs == [] {
      assert xs + ys == ys;
    } else {
      assert (xs + ys)[1..] == xs[1..] + ys;
      FirstFailureAppend(env, flag, xs[1..], ys);
    }
  }

  /**
   * Restore stops at the first error: the error returned is the one of the
   * first external node, left to right, whose own Restore fails, and there
   * is no error when none fails.
   */
  lemma {:induction false} RenderErrorIsFirstFailure(env: Env, flag: RestoreFlag, a: Atom)
    requires Renderable(a)
    ensures Render(env, flag, a).err == FirstFailure(env, flag, Exts(a))
    decreases a
  {
    match a
    case Math(l, _, r) =>
      RenderErrorIsFirstFailure(env, flag, l);
      RenderErrorIsFirstFailure(env, flag, r);
      FirstFailureAppend(env, flag, Exts(l), Exts(r));
    case Nested(first) => RenderErrorIsFirstFailure(env, flag, first);
    case FunctionCall(f) => RenderErrorIsFirstFailure(env, flag, f);
    case Unary(_, inner) => RenderErrorIsFirstFailure(env, flag, inner);
    case Interval(_, v) => RenderErrorIsFirstFailure(env, flag, v);
    case Ext(node) =>
      assert Exts(a)[1..] == [];
    case _ =>
  }

  /** Some system variable in the tree is a key of the compatibility table. */
  predicate UsesCompat80(a: Atom) {
    match a
    case Math(l, _, r) => UsesCompat80(l) || UsesCompat80(r)
    case Nested(first) => UsesCompat80(first)
    case FunctionCall(f) => UsesCompat80(f)
    case Unary(_, inner) => UsesCompat80(inner)
    case Interval(_, v) => UsesCompat80(v)
    case SystemVariable(name, _, _) => IsCompat80(name)
    case _ => false
  }

  /**
   * Within this file only the compatibility bit is interpreted: two flag
   * sets that agree on it render a tree without external nodes identically,
   * and a tree without table keys renders identically under every flag set.
   */
  lemma {:induction false} OnlyCompat80Matters(env: Env, f1: RestoreFlag, f2: RestoreFlag, a: Atom)
    requires Renderable(a) && Exts(a) == []
    requires Has(f1, RestoreCompat80) == Has(f2, RestoreCompat80) || !UsesCompat80(a)
    ensures Render(env, f1, a) == Render(env, f2, a)
    decreases a
  {
    match a
    case Math(l, _, r) =>
      assert |Exts(l)| + |Exts(r)| == 0;
      OnlyCompat80Matters(env, f1, f2, l);
      OnlyCompat80Matters(env, f1, f2, r);
    case Nested(first) => OnlyCompat80Matters(env, f1, f2, first);
    case FunctionCall(f) => OnlyCompat80Matters(env, f1, f2, f);
    case Unary(_, inner) => OnlyCompat80Matters(env, f1, f2, inner);
    case Interval(_, v) => OnlyCompat80Matters(env, f1, f2, v);
    case _ =>
  }
}
