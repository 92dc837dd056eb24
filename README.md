# Expression atoms and their Restore rules

This project models the expression-atom AST of the arana SQL proxy
(`pkg/runtime/ast/expression_atom.go`) and the rules that write an atom tree
back out as SQL text. There are nine atom kinds: column name, math, variable
(placeholder), constant, nested, function call, unary, system variable and
interval. Each has its own Restore rule. A Restore appends text to a shared
`strings.Builder`. For every placeholder it also appends the index to an
optional `*[]int` accumulator. It returns the first error of an external
child and never rolls back what it has already written.

Layout:

- `decimal.dfy` (module `Decimal`): base-10 rendering of integers, as done by
  `strconv.FormatInt` and `strconv.FormatUint`. It comes with a parser and
  round trips in both directions.
- `builders.dfy` (module `Builders`): the text buffer (`Builder`) and the
  placeholder accumulator (`Args`; `null` plays the part of a nil `*[]int`).
- `expression_atom.dfy` (module `ExpressionAtom`): the data model, the
  compatibility table, the pure helpers (`Duration`, `IsCompat80`,
  `IsOperatorNot`, `Prefix`, `Suffix`, `Constant2String`), the specification
  function `Render`, and the imperative `Restore...` methods. Each method is
  proved to append exactly `Render`'s text and placeholder indices and to
  return `Render`'s error.
- `restore_properties.dfy` (module `RestoreProperties`): the properties of
  the Restore rules, stated as lemmas over `Render`.

Modelling choices:

- The atom is `datatype Atom` with one constructor per kind. An extra `Ext`
  constructor stands for every external node an atom can own: `PredicateNode`,
  `ExpressionNode`, `*BinaryComparisonPredicateNode`, and the four function
  kinds. Their Restore is an arbitrary function `Env.ext` from node and flag
  to `Emit(text, args, err)`, so it may write partial text and then fail.
- Helpers whose code is not part of this model are fields of `Env`. These are
  `WriteID`, `misc.WriteEscape`, `Null.String`, `TimeUnitType.String`,
  `opcode.IntDiv.Literal` and float formatting. Every property holds for
  every choice of them, except that three lemmas restrict `Env.writeId`:
  `ColumnNameTokens` requires that no quoted part contains a dot,
  `SystemVariableScope` requires the quoted name to be non-empty and not to
  start with `@` or `G`, and `TxIsolationExample` requires `WriteID` to leave
  `tx_isolation` unchanged.
- `Render` returns everything a Restore call appends, including the partial
  text and indices written before a child fails.
- Panics are preconditions (`Renderable`, `HasFixedDuration`). The panics are:
  an empty column name (index `c[0]`), a function call holding something
  other than the four function kinds, a unary operand that is neither an
  atom nor a binary comparison, and `Duration` of any unit other than the
  five fixed ones.
- The constant payload is the closed `Literal` datatype. It has one
  constructor per Go kind in the `constant2string` type switch. Integer
  widths are newtypes over their ranges. Go's `int` and `uint` are taken as
  64 bits. Floats are kept as their bit patterns. The switch's `default`
  panic cannot be reached by construction.
- `RestoreFlag` is a set of modes: `RestoreCompat80` plus any number of other
  bits. `Has` is membership. The code of `RestoreFlag.Has` is not part of
  this model.

Two consequences of the code worth stating:

- `Prefix` returns `c[0]` whenever there are two or more parts, even when
  `c[0]` is empty. So an empty prefix does not imply a single part; "the
  prefix is empty iff there is one part" holds only when the first part is
  non-empty.
- The text of a string literal such as `a'b` depends on `misc.WriteEscape`,
  which is not part of this model. `ConstantExamples` proves that the text is
  `'` + escape(s) + `'`.

## Model

| member | source | states |
|---|---|---|
| `ExpressionAtom.IsCompat80` | pkg/runtime/ast/expression_atom.go:116-119 | true exactly for the four names query_cache_size, query_cache_type, tx_isolation, tx_read_only (the keys of the table at lines 50-55) |
| `ExpressionAtom.IsOperatorNot` | pkg/runtime/ast/expression_atom.go:157-163 | true exactly for `!` and `NOT` (case-sensitive) |
| `ExpressionAtom.Prefix` | pkg/runtime/ast/expression_atom.go:273-278 | the first part when there is more than one part; a non-empty prefix implies more than one part |
| `ExpressionAtom.Suffix` | pkg/runtime/ast/expression_atom.go:280-282 | defined only for non-empty names (otherwise the index panics); the parts are exactly the earlier parts followed by the result, so the result is the last part |
| `ExpressionAtom.NewSingleColumnName` | pkg/runtime/ast/expression_atom.go:265-267 | a one-part column whose prefix is empty and whose suffix is the given name |
| `ExpressionAtom.IsNull` | pkg/runtime/ast/expression_atom.go:254-257 | true exactly when the constant holds the null sentinel |
| `ExpressionAtom.Duration` | pkg/runtime/ast/expression_atom.go:74-89 | defined only for the five fixed units (others abort); always a positive whole number of microseconds; a day is 24 hours |
| `ExpressionAtom.Constant2String` | pkg/runtime/ast/expression_atom.go:204-248 | null renders as the null spelling; bool as `true`/`false` matching the value; a string as a quote, the escaped string, a quote |
| `ExpressionAtom.Render` | pkg/runtime/ast/expression_atom.go:91-410 | the text, indices and error of every Restore; a tree with no external node never fails, and a successful render collects exactly the tree's placeholders in left-to-right order |
| `ExpressionAtom.ColumnNameString` | pkg/runtime/ast/expression_atom.go:294-296 | the column's string form is its Restore text under the default flag |
| `ExpressionAtom.ConstantString` | pkg/runtime/ast/expression_atom.go:250-252 | the constant's string form is its Restore text under the default flag |
| `ExpressionAtom.RestoreAtom` | pkg/runtime/ast/expression_atom.go:59-63 | Restore of any atom appends `Render`'s text and indices (indices only when an accumulator is given) and returns `Render`'s error |
| `ExpressionAtom.RestoreColumnName` | pkg/runtime/ast/expression_atom.go:284-292 | the index loop appends the quoted parts joined by dots; it never touches the accumulator and never fails |
| `ExpressionAtom.RestoreMath` | pkg/runtime/ast/expression_atom.go:336-354 | appends left, operator (spaced only for integer division), right; stops after a failing left operand |
| `ExpressionAtom.RestoreVariable` | pkg/runtime/ast/expression_atom.go:308-316 | appends exactly `?`; with an accumulator appends exactly the index, without one changes nothing else |
| `ExpressionAtom.RestoreConstant` | pkg/runtime/ast/expression_atom.go:195-198 | appends the constant's text, touches nothing else and never fails |
| `ExpressionAtom.RestoreNested` | pkg/runtime/ast/expression_atom.go:368-376 | appends `(`, the child, `)`; after a failing child the `(` stays and no `)` is written |
| `ExpressionAtom.RestoreFunctionCall` | pkg/runtime/ast/expression_atom.go:390-410 | forwards to the held function node and returns its error |
| `ExpressionAtom.RestoreUnary` | pkg/runtime/ast/expression_atom.go:165-181 | appends the operator, then the operand (an atom or a binary comparison) |
| `ExpressionAtom.RestoreSystemVariable` | pkg/runtime/ast/expression_atom.go:121-142 | appends the table text in compatibility mode for a table key, otherwise the `@`/`@@`/`GLOBAL.` form; never fails and never touches the accumulator |
| `ExpressionAtom.RestoreInterval` | pkg/runtime/ast/expression_atom.go:91-100 | appends `INTERVAL `, the value, a space, the unit name; stops after a failing value |
| `Decimal.FormatInt` | pkg/runtime/ast/expression_atom.go:208-225 | the base-10 text parses back to the value and starts with `-` exactly for negative values; no leading zeros, no `-0` |
| `Decimal.FormatUint` | pkg/runtime/ast/expression_atom.go:210-227 | canonical digits only (no sign, no leading zero) that parse back to the value |
| `Decimal.FormatIntOfParseInt` | pkg/runtime/ast/expression_atom.go:220-221 | every canonical signed decimal text is the rendering of its own value, so the rendering is the unique canonical form |
| `Decimal.DigitsOfParseDigits` | pkg/runtime/ast/expression_atom.go:222-223 | every canonical digit string is the rendering of its own value |
| `RestoreProperties.ConstantIntegerText` | pkg/runtime/ast/expression_atom.go:204-227 | every integer width renders in base 10 with the value it holds; a minus sign exactly for negative signed values, never for unsigned ones |
| `RestoreProperties.IntegerConstantExamples` | pkg/runtime/ast/expression_atom.go:220-227 | int64 -42 renders `-42`, uint8 7 renders `7` |
| `RestoreProperties.ConstantExamples` | pkg/runtime/ast/expression_atom.go:204-240 | `true`, `false`, the quoted escape of `a'b`, and the null spelling |
| `RestoreProperties.ColumnNameTokens` | pkg/runtime/ast/expression_atom.go:284-292 | cutting the text at its dots gives back exactly the k quoted parts in order; no indices, no error |
| `RestoreProperties.ColumnNamePrefixSuffix` | pkg/runtime/ast/expression_atom.go:273-292 | the text starts with the quoted prefix and a dot when there is a prefix, is the quoted suffix alone for one part, and always ends with the quoted suffix |
| `RestoreProperties.VariableRender` | pkg/runtime/ast/expression_atom.go:308-320 | a placeholder renders `?` and contributes the single index `N()` |
| `RestoreProperties.MathRender` | pkg/runtime/ast/expression_atom.go:336-354 | after a successful left operand: left indices before right ones, the right operand's error, and the text left+op+right with single spaces around the operator exactly when it is integer division |
| `RestoreProperties.MathLeftFailure` | pkg/runtime/ast/expression_atom.go:337-339 | a failing left operand is the whole outcome; the right operand has no influence |
| `RestoreProperties.NestedRender` | pkg/runtime/ast/expression_atom.go:368-376 | text is `(` child `)`; for a balanced child the first parenthesis is closed by the last character and by no earlier one; on failure only `(` and the child's partial text |
| `RestoreProperties.UnaryRender` | pkg/runtime/ast/expression_atom.go:165-181 | the operator immediately followed by the operand's text, with no space or parentheses added; indices and error are the operand's |
| `RestoreProperties.OperatorNotExamples` | pkg/runtime/ast/expression_atom.go:157-163 | `NOT` and `!` are negation; `-`, `not` and `~` are not |
| `RestoreProperties.FunctionCallRender` | pkg/runtime/ast/expression_atom.go:390-410 | a function call renders exactly as its function node |
| `RestoreProperties.SystemVariableRender` | pkg/runtime/ast/expression_atom.go:121-142 | compatibility mode and a table key give exactly the table text, whatever the scope flags; otherwise `@`, `@` iff system, `GLOBAL.` iff global, then the quoted name |
| `RestoreProperties.SystemVariableScope` | pkg/runtime/ast/expression_atom.go:129-139 | outside the rewrite the text starts with `@`, has a second `@` iff system scope, and `GLOBAL.` after the at-signs iff global scope |
| `RestoreProperties.TxIsolationExample` | pkg/runtime/ast/expression_atom.go:50-142 | `@@tx_isolation` under the default flag, `@@transaction_isolation` in compatibility mode |
| `RestoreProperties.IntervalRender` | pkg/runtime/ast/expression_atom.go:91-100 | `INTERVAL `, value, space, unit name; a failing value stops right after its own text |
| `RestoreProperties.DurationTable` | pkg/runtime/ast/expression_atom.go:74-89 | 1µs, 1s, 1min, 1h, 24h in nanoseconds (1e3, 1e9, 6e10, 3.6e12, 8.64e13), each a multiple of the one before |
| `RestoreProperties.RenderErrorIsFirstFailure` | pkg/runtime/ast/expression_atom.go:337-376 | the error returned is the first external node's error in left-to-right order; no error when none fails |
| `RestoreProperties.OnlyCompat80Matters` | pkg/runtime/ast/expression_atom.go:121-127 | flag sets that agree on the compatibility bit render identically, and without table keys every flag set renders identically |

## Left out

- `Accept` and `phantom`: `Accept` is a one-line forward to a `Visitor` whose code is not part of this model. `phantom` only seals the type.
- `errors.WithStack`: the model propagates the child's error unchanged and does not model the stack context.
- Float rendering (`strconv.FormatFloat`, lines 241-244): floats are opaque bit patterns rendered by `Env.formatFloat64`/`formatFloat32`.
- `WriteID`, `misc.WriteEscape`, `Null.String`, `TimeUnitType.String` and `opcode.IntDiv.Literal` are uninterpreted parameters (`Env`). Their code is not part of this model.
- The internals of `PredicateNode`, `ExpressionNode`, `BinaryComparisonPredicateNode` and the four function kinds: they are the opaque `Ext` node.
- `ConstantExpressionAtom.Value` is the `value` field itself, and `VariableExpressionAtom.N` is `N`. Neither has a contract of its own; `VariableRender` and `RestoreVariable` state what `N` contributes.
- `MustRestoreToString` is not part of this model. `ColumnNameString` uses the fact that a column's Restore never fails.
- Go's static typing of children is not enforced. Math operands may be `Ext` in the model, and an atom may stand directly as the child of `Nested` or `Interval` where Go has an `ExpressionNode` or `PredicateNode` wrapper. This only widens the inputs.
- Strings are sequences of characters, not bytes; `WriteByte` appends one character.
- Concurrent reads are not modelled; the code has no concurrency.
- `pkg/mysql/thead/thead.go` (a static column-header table forwarding to `mysql.NewField`) is not part of this model.
- `RestoreProperties.ColumnNameTokens`: requires that the quoted parts contain no dot. A part that `WriteID` quotes with a dot inside would split differently.
- `RestoreProperties.SystemVariableScope`: requires that the quoted name does not start with `@` or `G`. Otherwise the prefix and the name cannot be told apart by their first characters.
- `RestoreProperties.NestedRender`: the single-pair statement requires the child's text to be balanced. Parentheses inside quoted literals are not treated specially.
