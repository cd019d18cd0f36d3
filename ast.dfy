/** The expression tree of src/ast.rs: its node kinds, the structural type
    inference `as_t` and the rendering `as_s` into WebAssembly text format
    S-expressions. */
module Ast {
  import opened Decimal

  /** Rust's `i32`. */
  type I32 = x: int | -0x8000_0000 <= x < 0x8000_0000

  datatype Constant = Int32(v: I32)

  /** `None` is the sentinel for "ill-typed", not the absence of a type. */
  datatype Type = None | Int32

  function TypeToString(t: Type): (s: string)
    ensures s == "i32" <==> t == Type.Int32
    ensures s == "none" <==> t == Type.None
  {
    match t
    case Int32 => "i32"
    case None => "none"
  }

  datatype BinaryOperation = Add | Subtract | Multiply | Divide | Mod

  /** The instruction mnemonic of an operator: always three letters. */
  function Instr(op: BinaryOperation): (s: string)
    ensures |s| == 3 && s[0] in "asmd"
  {
    match op
    case Add => "add"
    case Subtract => "sub"
    case Multiply => "mul"
    case Divide => "div"
    case Mod => "mod"
  }

  /** A function node holds its name, its parameters' strings and its body. */
  datatype AST =
    | Literal(c: Constant)
    | Function(name: string, params: seq<string>, body: AST)
    | BinaryOp(op: BinaryOperation, left: AST, right: AST)

  /** `AST::lit`. */
  function Lit(x: I32): (a: AST)
    ensures a.Literal? && a.c.v == x
    ensures AsT(a) == Type.Int32
    ensures AsS(a) == "(i32.const " + IntToString(x) + ")"
  {
    Literal(Constant.Int32(x))
  }

  /** `AST::add`: an addition node, which is always well typed. */
  function Add(l: AST, r: AST): (a: AST)
    ensures a.BinaryOp? && a.op == BinaryOperation.Add && a.left == l && a.right == r
    ensures AsT(a) == Type.Int32
  {
    AsTNeverNone(l);
    AsTNeverNone(r);
    BinaryOp(BinaryOperation.Add, l, r)
  }

  /** `as_t`: a literal is `Int32`, a function has its body's type, and an
      operator node has its left operand's type when both operands agree. */
  function AsT(a: AST): Type
  {
    match a
    case Literal(Int32(_)) => Type.Int32
    case Function(_, _, body) => AsT(body)
    case BinaryOp(_, left, right) => if AsT(left) == AsT(right) then AsT(left) else Type.None
  }

  /** The only leaf is an `i32` literal, so the sentinel `None` is never inferred. */
  lemma {:induction false} AsTNeverNone(a: AST)
    ensures AsT(a) == Type.Int32
  {
    match a
    case Literal(_) =>
    case Function(_, _, body) =>
      AsTNeverNone(body);
    case BinaryOp(_, left, right) =>
      AsTNeverNone(left);
      AsTNeverNone(right);
  }

  /** The export declaration and the opening of the function declaration. */
  function FunctionHeader(name: string): string
  {
    " (export \"" + name + "\" $" + name + ") (func $" + name + " "
  }

  /** The header as the source assembles it, in three appends. */
  lemma HeaderText(name: string)
    ensures " (export \"" + name + "\" $" + name + ") " + "(func $" + (name + " ") == FunctionHeader(name)
  {
    var e := " (export \"" + name + "\" $" + name;
    assert ") " + "(func $" == ") (func $";
    calc {
      e + ") " + "(func $" + (name + " ");
      e + (") " + "(func $") + name + " ";
      e + ") (func $" + name + " ";
    }
  }

  /** The clause for the `i`-th parameter; its string stands in the type position. */
  function ParamClause(i: nat, param: string): string
  {
    "(param $" + NatToString(i) + " " + param + ") "
  }

  /** The clauses of the first `n` parameters, as the loop over `0..plen` appends them. */
  function ParamClauses(params: seq<string>, n: nat): string
    requires n <= |params|
  {
    if n == 0 then "" else ParamClauses(params, n - 1) + ParamClause(n - 1, params[n - 1])
  }

  function ResultClause(t: Type): string
  {
    "(result " + TypeToString(t) + ") "
  }

  /** `as_s`: the S-expression text of a node. An operator's type tag comes
      from its left operand, and a function's result clause from its body. */
  function AsS(a: AST): string
  {
    match a
    case Literal(Int32(v)) => "(i32.const " + IntToString(v) + ")"
    case Function(name, params, body) =>
      FunctionHeader(name) + ParamClauses(params, |params|) + ResultClause(AsT(body)) + AsS(body) + ")"
    case BinaryOp(op, left, right) =>
      "(" + TypeToString(AsT(left)) + "." + Instr(op) + " " + AsS(left) + " " + AsS(right) + ")"
  }

  /** The concatenation of a list of strings, front to back. */
  function Concat(parts: seq<string>): string
  {
    if parts == [] then "" else parts[0] + Concat(parts[1..])
  }

  /** The parameter clauses, one per parameter, the `i`-th at index `i`. */
  function ParamClauseList(params: seq<string>): (cs: seq<string>)
    ensures |cs| == |params|
    ensures forall i :: 0 <= i < |params| ==> cs[i] == ParamClause(i, params[i])
  {
    seq(|params|, i requires 0 <= i < |params| => ParamClause(i, params[i]))
  }

  /** Appending one more part appends its text. */
  lemma {:induction false} ConcatSnoc(parts: seq<string>, last: string)
    ensures Concat(parts + [last]) == Concat(parts) + last
    decreases |parts|
  {
    if parts != [] {
      assert (parts + [last])[1..] == parts[1..] + [last];
      ConcatSnoc(parts[1..], last);
    }
  }

  /** The loop emits exactly the first `n` parameter clauses, in index order. */
  lemma {:induction false} ParamClausesInOrder(params: seq<string>, n: nat)
    requires n <= |params|
    ensures ParamClauses(params, n) == Concat(ParamClauseList(params)[..n])
    decreases n
  {
    if n > 0 {
      var cs := ParamClauseList(params);
      ParamClausesInOrder(params, n - 1);
      assert cs[..n] == cs[..n - 1] + [cs[n - 1]];
      ConcatSnoc(cs[..n - 1], cs[n - 1]);
    }
  }

  /** An operator node is always tagged `i32`, since its left operand is never ill-typed. */
  lemma BinaryOpRendersI32(op: BinaryOperation, left: AST, right: AST)
    ensures AsS(BinaryOp(op, left, right)) == "(i32." + Instr(op) + " " + AsS(left) + " " + AsS(right) + ")"
  {
    AsTNeverNone(left);
    var tag := TypeToString(AsT(left));
    assert "(" + tag + "." == "(i32.";
  }

  /** A function renders as its header, one clause per parameter in index order,
      the result clause `(result i32) `, its body, and a closing parenthesis. */
  lemma FunctionRendering(name: string, params: seq<string>, body: AST)
    ensures AsS(Function(name, params, body)) ==
      FunctionHeader(name) + Concat(ParamClauseList(params)) + "(result i32) " + AsS(body) + ")"
    ensures FunctionHeader(name) == " (export \"" + name + "\" $" + name + ") (func $" + name + " "
  {
    AsTNeverNone(body);
    assert ResultClause(AsT(body)) == "(result i32) ";
    ParamClausesInOrder(params, |params|);
    assert ParamClauseList(params)[..|params|] == ParamClauseList(params);
  }

  /** `as_s`, as the source computes it. */
  method Render(a: AST) returns (s: string)
    ensures s == AsS(a)
    decreases a, 1
  {
    match a
    case Literal(Int32(v)) =>
      s := "(i32.const " + IntToString(v) + ")";
    case Function(name, params, body) =>
      s := RenderFunction(name, params, body);
    case BinaryOp(op, left, right) =>
      var l := Render(left);
      var r := Render(right);
      s := "(" + TypeToString(AsT(left)) + "." + Instr(op) + " " + l + " " + r + ")";
  }

  /** The function arm of `as_s`: the text is built in a mutable string, and
      the parameter clauses are appended in a loop over the indices. */
  method RenderFunction(name: string, params: seq<string>, body: AST) returns (s: string)
    ensures s == AsS(Function(name, params, body))
    decreases Function(name, params, body), 0
  {
    var prelude := " (export \"" + name + "\" $" + name + ") ";
    prelude := prelude + "(func $";
    prelude := prelude + (name + " ");
    HeaderText(name);
    var plen := |params|;
    for i := 0 to plen
      invariant prelude == FunctionHeader(name) + ParamClauses(params, i)
    {
      prelude := prelude + ("(param $" + NatToString(i) + " " + params[i] + ") ");
    }
    prelude := prelude + ("(result " + TypeToString(AsT(body)) + ") ");
    var b := Render(body);
    prelude := prelude + b;
    prelude := prelude + ")";
    s := prelude;
  }
}
