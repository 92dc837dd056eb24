/**
 * The expression-atom AST of the SQL proxy and its text reconstruction
 * ("Restore"): nine atom kinds, each with its own rule for writing SQL text
 * to a shared buffer and placeholder indices to an optional accumulator.
 *
 * `Render` is the specification: the text a Restore call appends (including
 * the partial text written before a child fails, which is never rolled
 * back), the placeholder indices it appends, and the error it returns.
 * The `Restore...` methods are the imperative code, each proved to append
 * exactly what `Render` says.
 */
module ExpressionAtom {
  import opened Decimal
  import opened Builders

  datatype Option<T> = None | Some(value: T)

  /** An error reported by an external child's Restore (stack wrapping is not modelled). */
  datatype Error = Error(message: string)

  /** Rendering modes: the legacy-compatibility bit and any number of other, unrecognised bits. */
  datatype RestoreMode = RestoreCompat80 | OtherMode(bit: nat)

  type RestoreFlag = set<RestoreMode>

  predicate Has(rf: RestoreFlag, m: RestoreMode) {
    m in rf
  }

  /** The parser's time units (ast.TimeUnitType). */
  datatype TimeUnit =
    | TimeUnitInvalid
    | TimeUnitMicrosecond | TimeUnitSecond | TimeUnitMinute | TimeUnitHour | TimeUnitDay
    | TimeUnitWeek | TimeUnitMonth | TimeUnitQuarter | TimeUnitYear
    | TimeUnitSecondMicrosecond | TimeUnitMinuteMicrosecond | TimeUnitMinuteSecond
    | TimeUnitHourMicrosecond | TimeUnitHourSecond | TimeUnitHourMinute
    | TimeUnitDayMicrosecond | TimeUnitDaySecond | TimeUnitDayMinute | TimeUnitDayHour
    | TimeUnitYearMonth

  /** The kinds of node outside this file that an atom can own. */
  datatype ExtKind =
    | PredicateKind | ExpressionKind | BinaryComparisonKind
    | FunctionKind | AggrFunctionKind | CaseWhenElseKind | CastKind

  /** An external node, identified only by its kind and an opaque identity. */
  datatype ExtNode = ExtNode(kind: ExtKind, id: nat)

  newtype Int8 = x: int | -0x80 <= x < 0x80
  newtype Int16 = x: int | -0x8000 <= x < 0x8000
  newtype Int32 = x: int | -0x8000_0000 <= x < 0x8000_0000
  newtype Int64 = x: int | -0x8000_0000_0000_0000 <= x < 0x8000_0000_0000_0000
  newtype Uint8 = x: int | 0 <= x < 0x100
  newtype Uint16 = x: int | 0 <= x < 0x1_0000
  newtype Uint32 = x: int | 0 <= x < 0x1_0000_0000
  newtype Uint64 = x: int | 0 <= x < 0x1_0000_0000_0000_0000

  /**
   * The closed set of values a constant atom may hold. Go's `int` and `uint`
   * are taken at 64 bits; floats are kept as their IEEE bit patterns.
   */
  datatype Literal =
    | LitNull
    | LitInt(i: Int64) | LitUint(u: Uint64)
    | LitInt32(i32: Int32) | LitUint32(u32: Uint32)
    | LitInt16(i16: Int16) | LitUint16(u16: Uint16)
    | LitInt64(i64: Int64) | LitUint64(u64: Uint64)
    | LitInt8(i8: Int8) | LitUint8(u8: Uint8)
    | LitString(s: string)
    | LitBool(b: bool)
    | LitFloat64(f64: bv64)
    | LitFloat32(f32: bv32)

  /**
   * The nine atom kinds, plus `Ext` standing for any external node an atom
   * owns (a predicate, an expression, a binary comparison, or one of the four
   * function kinds).
   */
  datatype Atom =
    | ColumnName(parts: seq<string>)
    | Math(left: Atom, op: string, right: Atom)
    | Variable(index: int)
    | Constant(value: Literal)
    | Nested(first: Atom)
    | FunctionCall(f: Atom)
    | Unary(op: string, inner: Atom)
    | SystemVariable(name: string, system: bool, global: bool)
    | Interval(unit: TimeUnit, interval: Atom)
    | Ext(node: ExtNode)

  /** What one Restore call appends to the buffer and the accumulator, and what it returns. */
  datatype Emit = Emit(text: string, args: seq<int>, err: Option<Error>)

  /**
   * The helpers whose code lies outside this file: identifier quoting
   * (WriteID), single-quote escaping (misc.WriteEscape), the null literal's
   * spelling, the unit names, the integer-division operator literal, float
   * formatting, and the Restore of every external node.
   */
  datatype Env = Env(
    writeId: string -> string,
    escape: string -> string,
    nullText: string,
    unitText: TimeUnit -> string,
    intDiv: string,
    formatFloat64: bv64 -> string,
    formatFloat32: bv32 -> string,
    ext: (ExtNode, RestoreFlag) -> Emit)

  /** The legacy system variables and the text that replaces them in compatibility mode. */
  const Compat80Dict: map<string, string> := map[
    "query_cache_size" := "'1048576'",
    "query_cache_type" := "'OFF'",
    "tx_isolation" := "@@transaction_isolation",
    "tx_read_only" := "@@transaction_read_only"
  ]

  // ---------------------------------------------------------------- helpers

  function IsCompat80(name: string): (r: bool)
    ensures r <==> name in {"query_cache_size", "query_cache_type", "tx_isolation", "tx_read_only"}
  {
    name in Compat80Dict
  }

  function IsOperatorNot(op: string): (r: bool)
    ensures r <==> op in {"!", "NOT"}
  {
    op == "!" || op == "NOT"
  }

  /** The qualifier of a column name: its first part, when there is more than one. */
  function Prefix(c: seq<string>): (p: string)
    ensures |c| > 1 ==> p == c[0]
    ensures p != "" ==> |c| > 1
  {
    if |c| > 1 then c[0] else ""
  }

  /** The column itself: the last part. */
  function Suffix(c: seq<string>): (s: string)
    requires |c| >= 1
    ensures c == c[..|c| - 1] + [s]
  {
    c[|c| - 1]
  }

  function NewSingleColumnName(name: string): (a: Atom)
    ensures a.ColumnName? && |a.parts| == 1
    ensures Prefix(a.parts) == "" && Suffix(a.parts) == name
  {
    ColumnName([name])
  }

  function N(v: Atom): int
    requires v.Variable?
  {
    v.index
  }

  function IsNull(c: Atom): (r: bool)
    requires c.Constant?
    ensures r <==> c.value == LitNull
  {
    c.value.LitNull?
  }

  const Nanosecond: int := 1
  const Microsecond: int := 1000 * Nanosecond
  const Millisecond: int := 1000 * Microsecond
  const Second: int := 1000 * Millisecond
  const Minute: int := 60 * Second
  const Hour: int := 60 * Minute

  predicate HasFixedDuration(u: TimeUnit) {
    u in {TimeUnitMicrosecond, TimeUnitSecond, TimeUnitMinute, TimeUnitHour, TimeUnitDay}
  }

  /** The length of one interval unit in nanoseconds; any other unit aborts. */
  function Duration(u: TimeUnit): (d: int)
    requires HasFixedDuration(u)
    ensures d > 0 && d % Microsecond == 0
    ensures u == TimeUnitDay ==> d == 24 * Hour
  {
    if u == TimeUnitMicrosecond then Microsecond
    else if u == TimeUnitSecond then Second
    else if u == TimeUnitMinute then Minute
    else if u == TimeUnitHour then Hour
    else Hour * 24
  }

  /** The value of a signed integer literal, if it is one. */
  function SignedValue(lit: Literal): Option<int> {
    match lit
    case LitInt(v) => Some(v as int)
    case LitInt32(v) => Some(v as int)
    case LitInt16(v) => Some(v as int)
    case LitInt64(v) => Some(v as int)
    case LitInt8(v) => Some(v as int)
    case _ => None
  }

  /** The value of an unsigned integer literal, if it is one. */
  function UnsignedValue(lit: Literal): Option<nat> {
    match lit
    case LitUint(v) => Some(v as nat)
    case LitUint32(v) => Some(v as nat)
    case LitUint16(v) => Some(v as nat)
    case LitUint64(v) => Some(v as nat)
    case LitUint8(v) => Some(v as nat)
    case _ => None
  }

  /** The SQL text of a constant. */
  function Constant2String(env: Env, lit: Literal): (r: string)
    ensures lit == LitNull ==> r == env.nullText
    ensures lit.LitBool? ==> r in {"true", "false"} && (r == "true" <==> lit.b)
    ensures lit.LitString? ==>
      |r| >= 2 && r[0] == '\'' && r[|r| - 1] == '\'' && r[1..|r| - 1] == env.escape(lit.s)
  {
    match lit
    case LitNull => env.nullText
    case LitInt(v) => FormatInt(v as int)
    case LitUint(v) => FormatUint(v as nat)
    case LitInt32(v) => FormatInt(v as int)
    case LitUint32(v) => FormatUint(v as nat)
    case LitInt16(v) => FormatInt(v as int)
    case LitUint16(v) => FormatUint(v as nat)
    case LitInt64(v) => FormatInt(v as int)
    case LitUint64(v) => FormatUint(v as nat)
    case LitInt8(v) => FormatInt(v as int)
    case LitUint8(v) => FormatUint(v as nat)
    case LitString(s) => "'" + env.escape(s) + "'"
    case LitBool(b) => if b then "true" else "false"
    case LitFloat64(f) => env.formatFloat64(f)
    case LitFloat32(f) => env.formatFloat32(f)
  }

  // ------------------------------------------------------- column name text

  function WriteIds(env: Env, parts: seq<string>): (ids: seq<string>)
    ensures |ids| == |parts|
    ensures forall k :: 0 <= k < |parts| ==> ids[k] == env.writeId(parts[k])
  {
    seq(|parts|, k requires 0 <= k < |parts| => env.writeId(parts[k]))
  }

  /** The identifiers separated by single dots. */
  function Joined(ids: seq<string>): string
    requires |ids| >= 1
    decreases |ids|
  {
    if |ids| == 1 then ids[0] else ids[0] + "." + Joined(ids[1..])
  }

  lemma {:induction false} JoinedSnoc(ids: seq<string>, x: string)
    requires |ids| >= 1
    ensures Joined(ids + [x]) == Joined(ids) + "." + x
    decreases |ids|
  {
    if |ids| == 1 {
      assert (ids + [x])[1..] == [x];
    } else {
      assert (ids + [x])[1..] == ids[1..] + [x];
      JoinedSnoc(ids[1..], x);
    }
  }

  // ------------------------------------------------------ system variables

  function SystemVariableText(env: Env, flag: RestoreFlag, name: string, system: bool, global: bool): string {
    if Has(flag, RestoreCompat80) && name in Compat80Dict then Compat80Dict[name]
    else "@" + (if system then "@" else "") + (if global then "GLOBAL." else "") + env.writeId(name)
  }

  function MathOperator(env: Env, op: string): string {
    if op == env.intDiv then " " + op + " " else op
  }

  // --------------------------------------------- the render specification

  /** The atom kinds reachable by a Restore that does not panic. */
  predicate Renderable(a: Atom) {
    match a
    case ColumnName(parts) => |parts| >= 1
    case Math(l, _, r) => Renderable(l) && Renderable(r)
    case Nested(first) => Renderable(first)
    case FunctionCall(f) =>
      f.Ext? && f.node.kind in {FunctionKind, AggrFunctionKind, CaseWhenElseKind, CastKind}
    case Unary(_, inner) =>
      (inner.Ext? ==> inner.node.kind == BinaryComparisonKind) && Renderable(inner)
    case Interval(_, v) => Renderable(v)
    case _ => true
  }

  /** The external nodes of a tree, left to right. */
  function Exts(a: Atom): seq<ExtNode> {
    match a
    case Math(l, _, r) => Exts(l) + Exts(r)
    case Nested(first) => Exts(first)
    case FunctionCall(f) => Exts(f)
    case Unary(_, inner) => Exts(inner)
    case Interval(_, v) => Exts(v)
    case Ext(node) => [node]
    case _ => []
  }

  /** The placeholder indices of a tree, left to right, as the tree's own order dictates. */
  function Placeholders(env: Env, flag: RestoreFlag, a: Atom): seq<int> {
    match a
    case Math(l, _, r) => Placeholders(env, flag, l) + Placeholders(env, flag, r)
    case Variable(n) => [n]
    case Nested(first) => Placeholders(env, flag, first)
    case FunctionCall(f) => Placeholders(env, flag, f)
    case Unary(_, inner) => Placeholders(env, flag, inner)
    case Interval(_, v) => Placeholders(env, flag, v)
    case Ext(node) => env.ext(node, flag).args
    case _ => []
  }

  /**
   * What Restore appends and returns. A tree without external nodes never
   * fails, and a successful render collects exactly the tree's placeholders
   * in left-to-right order.
   */
  function Render(env: Env, flag: RestoreFlag, a: Atom): (e: Emit)
    requires Renderable(a)
    ensures Exts(a) == [] ==> e.err == None
    ensures e.err == None ==> e.args == Placeholders(env, flag, a)
    decreases a
  {
    match a
    case ColumnName(parts) => Emit(Joined(WriteIds(env, parts)), [], None)
    case Math(l, op, r) =>
      var left := Render(env, flag, l);
      if left.err.Some? then left
      else
        var right := Render(env, flag, r);
        Emit(left.text + MathOperator(env, op) + right.text, left.args + right.args, right.err)
    case Variable(n) => Emit("?", [n], None)
    case Constant(lit) => Emit(Constant2String(env, lit), [], None)
    case Nested(first) =>
      var inner := Render(env, flag, first);
      if inner.err.Some? then Emit("(" + inner.text, inner.args, inner.err)
      else Emit("(" + inner.text + ")", inner.args, None)
    case FunctionCall(f) => Render(env, flag, f)
    case Unary(op, inner) =>
      var e := Render(env, flag, inner);
      Emit(op + e.text, e.args, e.err)
    case SystemVariable(name, system, global) =>
      Emit(SystemVariableText(env, flag, name, system, global), [], None)
    case Interval(unit, v) =>
      var e := Render(env, flag, v);
      if e.err.Some? then Emit("INTERVAL " + e.text, e.args, e.err)
      else Emit("INTERVAL " + e.text + " " + env.unitText(unit), e.args, None)
    case Ext(node) => env.ext(node, flag)
  }

  /** ColumnNameExpressionAtom.String: the rendering under the default flag. */
  function ColumnNameString(env: Env, parts: seq<string>): (s: string)
    requires |parts| >= 1
    ensures s == Render(env, {}, ColumnName(parts)).text
  {
    Joined(WriteIds(env, parts))
  }

  /** ConstantExpressionAtom.String: the same text its Restore writes. */
  function ConstantString(env: Env, c: Atom): (s: string)
    requires c.Constant?
    ensures s == Render(env, {}, c).text
  {
    Constant2String(env, c.value)
  }

  // ------------------------------------------------- the Restore methods

  method WriteID(env: Env, sb: Builder, name: string)
    modifies sb
    ensures sb.buf == old(sb.buf) + env.writeId(name)
  {
    sb.WriteString(env.writeId(name));
  }

  /** The Restore of an external node: whatever its own code writes, collects and returns. */
  method RestoreExt(env: Env, flag: RestoreFlag, node: ExtNode, sb: Builder, args: Args?)
    returns (err: Option<Error>)
    modifies sb, args
    ensures sb.buf == old(sb.buf) + env.ext(node, flag).text
    ensures args != null ==> args.items == old(args.items) + env.ext(node, flag).args
    ensures err == env.ext(node, flag).err
  {
    var e := env.ext(node, flag);
    sb.WriteString(e.text);
    if args != null {
      args.AppendAll(e.args);
    }
    err := e.err;
  }

  /** Restore of any atom: dispatch on its kind. */
  method RestoreAtom(env: Env, flag: RestoreFlag, a: Atom, sb: Builder, args: Args?)
    returns (err: Option<Error>)
    requires Renderable(a)
    modifies sb, args
    ensures sb.buf == old(sb.buf) + Render(env, flag, a).text
    ensures args != null ==> args.items == old(args.items) + Render(env, flag, a).args
    ensures err == Render(env, flag, a).err
    decreases a, 1
  {
    match a
    case ColumnName(_) => err := RestoreColumnName(env, flag, a, sb, args);
    case Math(_, _, _) => err := RestoreMath(env, flag, a, sb, args);
    case Variable(_) => err := RestoreVariable(env, flag, a, sb, args);
    case Constant(_) => err := RestoreConstant(env, flag, a, sb, args);
    case Nested(_) => err := RestoreNested(env, flag, a, sb, args);
    case FunctionCall(_) => err := RestoreFunctionCall(env, flag, a, sb, args);
    case Unary(_, _) => err := RestoreUnary(env, flag, a, sb, args);
    case SystemVariable(_, _, _) => err := RestoreSystemVariable(env, flag, a, sb, args);
    case Interval(_, _) => err := RestoreInterval(env, flag, a, sb, args);
    case Ext(node) => err := RestoreExt(env, flag, node, sb, args);
  }

  method RestoreColumnName(env: Env, flag: RestoreFlag, a: Atom, sb: Builder, args: Args?)
    returns (err: Option<Error>)
    requires a.ColumnName? && Renderable(a)
    modifies sb
    ensures sb.buf == old(sb.buf) + Render(env, flag, a).text
    ensures err == None
    decreases a, 0
  {
    var c := a.parts;
    ghost var ids := WriteIds(env, c);
    WriteID(env, sb, c[0]);
    assert ids[..1] == [ids[0]];
    var i := 1;
    while i < |c|
      invariant 1 <= i <= |c|
      invariant sb.buf == old(sb.buf) + Joined(ids[..i])
    {
      sb.WriteByte('.');
      WriteID(env, sb, c[i]);
      assert ids[..i + 1] == ids[..i] + [ids[i]];
      JoinedSnoc(ids[..i], ids[i]);
      i := i + 1;
    }
    assert ids[..i] == ids;
    err := None;
  }

  method RestoreMath(env: Env, flag: RestoreFlag, a: Atom, sb: Builder, args: Args?)
    returns (err: Option<Error>)
    requires a.Math? && Renderable(a)
    modifies sb, args
    ensures sb.buf == old(sb.buf) + Render(env, flag, a).text
    ensures args != null ==> args.items == old(args.items) + Render(env, flag, a).args
    ensures err == Render(env, flag, a).err
    decreases a, 0
  {
    err := RestoreAtom(env, flag, a.left, sb, args);
    if err.Some? {
      return;
    }
    if a.op == env.intDiv {
      sb.WriteByte(' ');
      sb.WriteString(a.op);
      sb.WriteByte(' ');
    } else {
      sb.WriteString(a.op);
    }
    err := RestoreAtom(env, flag, a.right, sb, args);
  }

  method RestoreVariable(env: Env, flag: RestoreFlag, a: Atom, sb: Builder, args: Args?)
    returns (err: Option<Error>)
    requires a.Variable?
    modifies sb, args
    ensures sb.buf == old(sb.buf) + "?"
    ensures args != null ==> args.items == old(args.items) + [N(a)]
    ensures err == None
  {
    sb.WriteByte('?');
    if args != null {
      args.Append(N(a));
    }
    err := None;
  }

  method RestoreConstant(env: Env, flag: RestoreFlag, a: Atom, sb: Builder, args: Args?)
    returns (err: Option<Error>)
    requires a.Constant?
    modifies sb
    ensures sb.buf == old(sb.buf) + Constant2String(env, a.value)
    ensures err == None
  {
    sb.WriteString(Constant2String(env, a.value));
    err := None;
  }

  method RestoreNested(env: Env, flag: RestoreFlag, a: Atom, sb: Builder, args: Args?)
    returns (err: Option<Error>)
    requires a.Nested? && Renderable(a)
    modifies sb, args
    ensures sb.buf == old(sb.buf) + Render(env, flag, a).text
    ensures args != null ==> args.items == old(args.items) + Render(env, flag, a).args
    ensures err == Render(env, flag, a).err
    decreases a, 0
  {
    sb.WriteByte('(');
    err := RestoreAtom(env, flag, a.first, sb, args);
    if err.Some? {
      return;
    }
    sb.WriteByte(')');
  }

  method RestoreFunctionCall(env: Env, flag: RestoreFlag, a: Atom, sb: Builder, args: Args?)
    returns (err: Option<Error>)
    requires a.FunctionCall? && Renderable(a)
    modifies sb, args
    ensures sb.buf == old(sb.buf) + Render(env, flag, a).text
    ensures args != null ==> args.items == old(args.items) + Render(env, flag, a).args
    ensures err == Render(env, flag, a).err
    decreases a, 0
  {
    err := RestoreExt(env, flag, a.f.node, sb, args);
  }

  method RestoreUnary(env: Env, flag: RestoreFlag, a: Atom, sb: Builder, args: Args?)
    returns (err: Option<Error>)
    requires a.Unary? && Renderable(a)
    modifies sb, args
    ensures sb.buf == old(sb.buf) + Render(env, flag, a).text
    ensures args != null ==> args.items == old(args.items) + Render(env, flag, a).args
    ensures err == Render(env, flag, a).err
    decreases a, 0
  {
    sb.WriteString(a.op);
    if a.inner.Ext? {
      err := RestoreExt(env, flag, a.inner.node, sb, args);
    } else {
      err := RestoreAtom(env, flag, a.inner, sb, args);
    }
  }

  method RestoreSystemVariable(env: Env, flag: RestoreFlag, a: Atom, sb: Builder, args: Args?)
    returns (err: Option<Error>)
    requires a.SystemVariable?
    modifies sb
    ensures sb.buf == old(sb.buf) + SystemVariableText(env, flag, a.name, a.system, a.global)
    ensures err == None
  {
    err := None;
    if Has(flag, RestoreCompat80) && a.name in Compat80Dict {
      sb.WriteString(Compat80Dict[a.name]);
      return;
    }
    sb.WriteByte('@');
    if a.system {
      sb.WriteByte('@');
    }
    if a.global {
      sb.WriteString("GLOBAL.");
    }
    WriteID(env, sb, a.name);
  }

  method RestoreInterval(env: Env, flag: RestoreFlag, a: Atom, sb: Builder, args: Args?)
    returns (err: Option<Error>)
    requires a.Interval? && Renderable(a)
    modifies sb, args
    ensures sb.buf == old(sb.buf) + Render(env, flag, a).text
    ensures args != null ==> args.items == old(args.items) + Render(env, flag, a).args
    ensures err == Render(env, flag, a).err
    decreases a, 0
  {
    sb.WriteString("INTERVAL ");
    err := RestoreAtom(env, flag, a.interval, sb, args);
    if err.Some? {
      return;
    }
    sb.WriteByte(' ');
    sb.WriteString(env.unitText(a.unit));
  }
}
