/** A reader for the text that `as_s` produces for expression trees (literals
    and operator nodes). It is the inverse of the rendering, and its round trip
    shows that distinct expressions never render to the same text. */
module Reader {
  import opened Wrappers
  import opened Strings
  import opened Decimal
  import Ast

  /** A tree built from literals and operator nodes only. */
  predicate IsExpr(a: Ast.AST)
  {
    match a
    case Literal(_) => true
    case Function(_, _, _) => false
    case BinaryOp(_, left, right) => IsExpr(left) && IsExpr(right)
  }

  /** The operator whose mnemonic is `s`, if any. */
  function ReadInstr(s: string): (r: Option<Ast.BinaryOperation>)
    ensures r.Some? ==> Ast.Instr(r.value) == s
  {
    if s == "add" then Some(Ast.Add)
    else if s == "sub" then Some(Ast.Subtract)
    else if s == "mul" then Some(Ast.Multiply)
    else if s == "div" then Some(Ast.Divide)
    else if s == "mod" then Some(Ast.Mod)
    else None
  }

  /** Every mnemonic reads back as its operator, so the mnemonic map is injective. */
  lemma InstrInjective(a: Ast.BinaryOperation, b: Ast.BinaryOperation)
    ensures ReadInstr(Ast.Instr(a)) == Some(a)
    ensures Ast.Instr(a) == Ast.Instr(b) <==> a == b
  {
    assert ReadInstr(Ast.Instr(b)) == Some(b);
  }

  /** Reads one rendered expression from the front of `s`, returning the tree and what follows it. */
  function ReadExpr(s: string): (r: Option<(Ast.AST, string)>)
    ensures r.Some? ==> |r.value.1| < |s| && IsExpr(r.value.0)
    decreases |s|
  {
    if StartsWith(s, "(i32.") then ReadTagged(s[5..]) else None
  }

  /** Reads what follows an `i32.` tag: a constant, or a mnemonic and two operands. */
  function ReadTagged(t: string): (r: Option<(Ast.AST, string)>)
    ensures r.Some? ==> |r.value.1| < |t| && IsExpr(r.value.0)
    decreases |t|
  {
    if StartsWith(t, "const ") then
      match ReadInt(t[6..])
      case None => None
      case Some((v, rest)) =>
        if StartsWith(rest, ")") && -0x8000_0000 <= v < 0x8000_0000
        then Some((Ast.Literal(Ast.Constant.Int32(v)), rest[1..]))
        else None
    else if |t| < 4 || t[3] != ' ' then None
    else
      match ReadInstr(t[..3])
      case None => None
      case Some(op) => ReadOperands(op, t[4..])
  }

  /** Reads the two space-separated operands of `op` and the closing parenthesis. */
  function ReadOperands(op: Ast.BinaryOperation, u: string): (r: Option<(Ast.AST, string)>)
    ensures r.Some? ==> |r.value.1| < |u| && IsExpr(r.value.0)
    decreases |u| + 1
  {
    match ReadExpr(u)
    case None => None
    case Some((left, rest1)) =>
      if !StartsWith(rest1, " ") then None
      else
        match ReadExpr(rest1[1..])
        case None => None
        case Some((right, rest2)) =>
          if StartsWith(rest2, ")") then Some((Ast.BinaryOp(op, left, right), rest2[1..])) else None
  }

  /** The text of a literal reads back as that literal. */
  lemma ReadLiteralText(v: Ast.I32, rest: string)
    ensures ReadExpr("(i32.const " + IntToString(v) + ")" + rest) == Some((Ast.Literal(Ast.Constant.Int32(v)), rest))
  {
    var d := IntToString(v);
    var s := "(i32.const " + d + ")" + rest;
    assert s == "(i32." + ("const " + (d + (")" + rest)));
    var t := s[5..];
    assert t == "const " + (d + (")" + rest));
    assert StartsWith(t, "const ");
    assert t[6..] == d + (")" + rest);
    ReadIntRoundTrip(v, ")" + rest);
    assert (")" + rest)[1..] == rest;
  }

  /** Two operand texts and a closing parenthesis read back as the operator node. */
  lemma ReadOperandsText(op: Ast.BinaryOperation, left: Ast.AST, right: Ast.AST, ls: string, rs: string, rest: string)
    requires ReadExpr(ls + (" " + (rs + (")" + rest)))) == Some((left, " " + (rs + (")" + rest))))
    requires ReadExpr(rs + (")" + rest)) == Some((right, ")" + rest))
    ensures ReadOperands(op, ls + (" " + (rs + (")" + rest)))) == Some((Ast.BinaryOp(op, left, right), rest))
  {
    var rest1 := " " + (rs + (")" + rest));
    assert StartsWith(rest1, " ") && rest1[1..] == rs + (")" + rest);
    assert StartsWith(")" + rest, ")") && (")" + rest)[1..] == rest;
  }

  /** After the `i32.` tag, a mnemonic and a space hand the rest to the operand reader. */
  lemma ReadTaggedInstr(op: Ast.BinaryOperation, u: string)
    ensures ReadExpr("(i32." + Ast.Instr(op) + " " + u) == ReadOperands(op, u)
  {
    var ins := Ast.Instr(op);
    var t := ins + (" " + u);
    var s := "(i32." + ins + " " + u;
    assert s == "(i32." + t;
    assert StartsWith(s, "(i32.") && s[5..] == t;
    assert t[0] == ins[0];
    assert !StartsWith(t, "const ");
    assert t[..3] == ins && t[3] == ' ' && t[4..] == u;
    InstrInjective(op, op);
  }

  /** Regrouping an operator node's text to the right, as the reader splits it. */
  lemma Regroup(q: string, ls: string, rs: string, rest: string)
    ensures ((((q + ls) + " ") + rs) + ")") + rest == q + (ls + (" " + (rs + (")" + rest))))
  {
    calc {
      ((((q + ls) + " ") + rs) + ")") + rest;
      (((q + ls) + " ") + rs) + (")" + rest);
      ((q + ls) + " ") + (rs + (")" + rest));
      (q + ls) + (" " + (rs + (")" + rest)));
      q + (ls + (" " + (rs + (")" + rest))));
    }
  }

  /** The rendering of an operator node followed by `rest`, regrouped as the reader consumes it. */
  lemma BinaryOpText(op: Ast.BinaryOperation, left: Ast.AST, right: Ast.AST, rest: string)
    ensures Ast.AsS(Ast.BinaryOp(op, left, right)) + rest
         == "(i32." + Ast.Instr(op) + " " + (Ast.AsS(left) + (" " + (Ast.AsS(right) + (")" + rest))))
  {
    Ast.BinaryOpRendersI32(op, left, right);
    Regroup("(i32." + Ast.Instr(op) + " ", Ast.AsS(left), Ast.AsS(right), rest);
  }

  /** Reading the rendering of an expression recovers the expression, whatever text follows it. */
  lemma {:induction false} ReadExprRoundTrip(e: Ast.AST, rest: string)
    requires IsExpr(e)
    ensures ReadExpr(Ast.AsS(e) + rest) == Some((e, rest))
    decreases e
  {
    match e
    case Literal(Int32(v)) =>
      ReadLiteralText(v, rest);
    case BinaryOp(op, left, right) =>
      var ls, rs := Ast.AsS(left), Ast.AsS(right);
      var u := ls + (" " + (rs + (")" + rest)));
      ReadExprRoundTrip(left, " " + (rs + (")" + rest)));
      ReadExprRoundTrip(right, ")" + rest);
      ReadOperandsText(op, left, right, ls, rs, rest);
      ReadTaggedInstr(op, u);
      BinaryOpText(op, left, right, rest);
  }

  /** Rendering is injective on expressions: the emitted text determines the tree. */
  lemma RenderInjective(e1: Ast.AST, e2: Ast.AST)
    requires IsExpr(e1) && IsExpr(e2)
    ensures Ast.AsS(e1) == Ast.AsS(e2) <==> e1 == e2
  {
    ReadExprRoundTrip(e1, "");
    ReadExprRoundTrip(e2, "");
    assert Ast.AsS(e1) + "" == Ast.AsS(e1);
    assert Ast.AsS(e2) + "" == Ast.AsS(e2);
  }
}
