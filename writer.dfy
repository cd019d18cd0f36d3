/** The module wrapper of src/writer.rs. */
module Writer {
  import opened Ast

  /** `to_s`: the rendering of `ast` between "(module \n" and ")". Dropping
      the nine-character prefix and the one-character suffix gives the
      rendering back. */
  method ToS(ast: AST) returns (result: string)
    ensures result == "(module \n" + AsS(ast) + ")"
    ensures |result| == |AsS(ast)| + 10
    ensures result[..9] == "(module \n" && result[|result| - 1] == ')'
    ensures result[9..|result| - 1] == AsS(ast)
  {
    result := "(module \n";
    var body := Render(ast);
    result := result + body;
    result := result + ")";
  }
}
