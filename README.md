# WebAssembly-Playground front end, modelled in Dafny

The repository is the beginning of a compiler from a small expression
language to the WebAssembly text format. Its working core is three files:

- `src/ast.rs` defines an expression tree with three node kinds: an `i32` literal, a function with
  parameters and a body, and a binary operator (add, sub, mul, div, mod). It
  also defines type inference into `{None, Int32}` (`as_t`) and rendering to S-expression text
  (`as_s`).
- `src/parse.rs` holds a one-token lexer `tok` that advances a mutable cursor
  string, and the top-level parser `parseTop`. `parseTop` delegates to `parseFn`, a stub that always
  fails.
- `src/writer.rs` has `to_s`, which wraps a rendering in `(module \n … )`.

The Dafny modules follow those files:

- `Ast` (ast.dfy) holds the datatypes `Constant`, `Type`, `BinaryOperation` and `AST`.
  - `TypeToString`, `Instr`, `Lit`, `Add` and `AsT` are pure functions, as in the source.
  - `AsS` is the specification of `as_s`, and the method `Render` is `as_s` proper. `Render` hands
    the function arm to `RenderFunction`, which builds the text in a mutable string and appends the
    parameter clauses in a `for` loop, as the source does. Both methods are proved equal to `AsS`.
- `Reader` (reader.dfy) reads rendered expression text back into a tree. It
  exists to prove that rendering literals and operator nodes loses nothing: reading a
  rendering returns the tree, so distinct expressions always render differently.
- `Decimal` (decimal.dfy) holds the decimal printing used for `i32` constants and `usize`
  parameter indices, `to_string` in the source, together with its inverse reader.
- `Parse` (parse.dfy) holds `Trim`, the name search `FindName`, and the methods `Tok`, `ParseFn` and
  `ParseTop`.
  - Each method receives the cursor's text and returns the text it leaves behind. This is how the model
    represents `&mut String`, which the Rust borrow rules keep unaliased.
  - The code's quirks are reproduced, and small example methods show them:
    - `"fnord"` lexes as `fn`.
    - Offsets found in the trimmed cursor are applied to the untrimmed one.
    - The name search is unanchored.
    - `parseFn`, so `parseTop`, never succeeds.
- `Writer` (writer.dfy) holds `ToS`.
- `Wrappers` and `Strings` hold `Option`/`Result` and a `StartsWith` test.

## Model

| member | source | states |
|---|---|---|
| `Ast.TypeToString` | src/ast.rs:12-19 | `Int32` is shown as "i32" and `None` as "none", and each string belongs to exactly one type, so the two differ |
| `Ast.Instr` | src/ast.rs:26-35 | every operator has a three-letter mnemonic starting with a, s, m or d |
| `Reader.InstrInjective` | src/ast.rs:27-35 | the mnemonic map is injective: each mnemonic reads back as its operator, and two operators share a mnemonic only if they are equal |
| `Ast.Lit` | src/ast.rs:46-48 | `lit(x)` is a literal holding `x`, it infers `Int32`, and it renders as "(i32.const " + decimal(x) + ")" |
| `Ast.Add` | src/ast.rs:50-52 | `add(l, r)` is an `Add` node over `l` and `r`, and it infers `Int32` whatever `l` and `r` are |
| `Ast.AsTNeverNone` | src/ast.rs:54-66 | by induction over the inference rules, every tree infers `Int32`, so the `None` sentinel is unreachable |
| `Ast.BinaryOpRendersI32` | src/ast.rs:91 | an operator node renders as "(i32." + mnemonic + " " + left + " " + right + ")", because the tag taken from the left operand's type is always `i32` |
| `Ast.ParamClausesInOrder` | src/ast.rs:80-84 | the loop emits exactly `params.len()` clauses, clause `i` being "(param $" + i + " " + params[i] + ") ", in index order |
| `Ast.FunctionRendering` | src/ast.rs:74-89 | a function renders as " (export \"name\" $name) (func $name ", then its parameter clauses in order, then "(result i32) ", then its body's rendering, then ")" |
| `Ast.Render` | src/ast.rs:68-93 | the method that renders a node, recursing into its children, produces exactly the text `AsS` specifies |
| `Ast.RenderFunction` | src/ast.rs:74-89 | building a function's text by successive appends, with the parameter clauses appended in a loop over `0..plen`, produces exactly the text `AsS` specifies |
| `Reader.ReadExprRoundTrip` | src/ast.rs:68-93 | reading back the rendering of any literal/operator tree, whatever text follows it, gives back the tree and the following text |
| `Reader.RenderInjective` | src/ast.rs:70-73 | two literal/operator trees render to the same text exactly when they are equal |
| `Decimal.NatToString` | src/ast.rs:83 | a parameter index prints as a non-empty string of digits without leading zeros |
| `Decimal.IntToString` | src/ast.rs:72 | an `i32` value prints as digits, preceded by '-' exactly when it is negative |
| `Decimal.ReadIntRoundTrip` | src/ast.rs:72 | the printed decimal reads back as the same integer, so distinct constants print differently |
| `Parse.Trim` | src/parse.rs:12 | the trimmed cursor is a contiguous slice of the cursor. It starts where the leading whitespace ends, drops only whitespace, and neither begins nor ends with whitespace |
| `Parse.FindName` | src/parse.rs:15 | the search returns the leftmost maximal run of name characters as `[first, second)` with `first < second`, and returns nothing exactly when no name character occurs |
| `Parse.Tok` | src/parse.rs:10-22 | see the list below this table |
| `Parse.ParseFn` | src/parse.rs:24-26 | always fails with "dd" and leaves the cursor unchanged |
| `Parse.ParseTop` | src/parse.rs:28-35 | see the list below this table |
| `Parse.TokFnord` | src/parse.rs:12-14 | "fnord" lexes as the `Function` token, leaving "ord" |
| `Parse.TokLeadingSpace` | src/parse.rs:15-17 | " ab" lexes as `ID(" a")`, cut from the untrimmed cursor at offsets found in the trimmed one, leaving "" |
| `Parse.TokSkipsPunctuation` | src/parse.rs:15-17 | "+x y" lexes as `ID("x")`: the unanchored search skips "+" and drops it from the cursor, leaving " y" |
| `Parse.TokEmpty` | src/parse.rs:19-21 | whitespace only is no token: the error is "No token at " and the cursor is unchanged |
| `Writer.ToS` | src/writer.rs:3-10 | the result is "(module \n" + the rendering + ")". It is 10 characters longer than the rendering, and dropping its 9-character prefix and 1-character suffix gives the rendering back |

`Parse.Tok` states:
- If the trimmed cursor starts with "fn", the token is `Function` and the cursor becomes the trimmed cursor without those two characters.
- Otherwise, if a name run `[first, second)` is found in the trimmed cursor, the token is `ID(cur[first..second])` and the cursor becomes the trimmed cursor from `second` on.
- Otherwise the result is `Err("No token at " + trimmed)` and the cursor is unchanged.
- Every successful step shortens the cursor.
- Without leading whitespace, the `ID` text is a non-empty run of name characters.

`Parse.ParseTop` states:
- It never returns `Ok`.
- A `fn` first token gives `parseFn`'s "dd", with the cursor after "fn".
- A name first token gives "First token should be fn", with the cursor after the name.
- A lexer error is returned unchanged, with the cursor unchanged.

## Left out

- src/main.rs is not part of this model. It handles argument checking, reading the file, `println!` and exit codes, all of which are I/O. As written it calls `parse::parse_top`, which does not exist (the function is `parseTop`), and it never declares the `writer` module.
- src/warn.rs is not part of this model: it is a macro that writes to standard error.
- The regex engine is not modelled. `Regex::new("[:alnum:]+")` is a foreign library call. The model takes name characters to be ASCII letters and digits, as the pattern intends, and searches for the leftmost greedy run as `find` does. Read literally, the Rust regex syntax may treat `[:alnum:]` outside an enclosing bracket as the set of the characters `:`, `a`, `l`, `n`, `u`, `m`. The model does not follow that reading.
- Strings are sequences of ASCII characters. Byte offsets equal character offsets, and the panics that `cur[first..second]` can raise on a UTF-8 character boundary cannot occur.
- `trim` strips ASCII whitespace only: tab, line feed, vertical tab, form feed, carriage return and space. Rust also strips Unicode whitespace outside ASCII.
- Integer printing is modelled as plain decimal text of the value, not as Rust's formatting machinery. `i32` values stay in range because the model only ever stores them and never does arithmetic on them.
- `Reader.RenderInjective` and `Reader.ReadExprRoundTrip` cover trees without function nodes. Function names and parameter strings are emitted unescaped, so the text of a function node does not always determine the node.
- Conditionals, calls, parameter references, comparison operators and declared return types are not modelled. The source does not implement them.
