/** The lexer and top-level parser of src/parse.rs. The Rust code threads a
    `&mut String` cursor through `tok`, `parseFn` and `parseTop`; here each of
    them takes the cursor's text and returns the text it leaves behind. */
module Parse {
  import opened Wrappers
  import opened Strings
  import Ast

  datatype Token = Function | ID(name: string)

  /** The ASCII whitespace that `trim` strips: tab, line feed, vertical tab,
      form feed, carriage return and space. */
  predicate IsWhitespace(c: char)
  {
    '\t' <= c <= '\r' || c == ' '
  }

  /** The characters the name pattern `[:alnum:]+` is meant to match: ASCII letters and digits. */
  predicate IsNameChar(c: char)
  {
    'a' <= c <= 'z' || 'A' <= c <= 'Z' || '0' <= c <= '9'
  }

  /** The number of whitespace characters at the front of `s`. */
  function LeadingSpace(s: string): (n: nat)
    ensures n <= |s|
    ensures forall i :: 0 <= i < n ==> IsWhitespace(s[i])
    ensures n < |s| ==> !IsWhitespace(s[n])
  {
    if |s| > 0 && IsWhitespace(s[0]) then 1 + LeadingSpace(s[1..]) else 0
  }

  /** The number of whitespace characters at the back of `s`. */
  function TrailingSpace(s: string): (n: nat)
    ensures n <= |s|
    ensures forall i :: |s| - n <= i < |s| ==> IsWhitespace(s[i])
    ensures n < |s| ==> !IsWhitespace(s[|s| - 1 - n])
  {
    if |s| > 0 && IsWhitespace(s[|s| - 1]) then 1 + TrailingSpace(s[..|s| - 1]) else 0
  }

  /** `str::trim`: the slice of `s` left once whitespace is stripped at both ends.
      It starts where the leading whitespace ends, and all it drops is whitespace. */
  function Trim(s: string): (r: string)
    ensures |r| <= |s|
    ensures LeadingSpace(s) + |r| <= |s| && r == s[LeadingSpace(s)..LeadingSpace(s) + |r|]
    ensures forall i :: LeadingSpace(s) + |r| <= i < |s| ==> IsWhitespace(s[i])
    ensures |r| > 0 ==> !IsWhitespace(r[0]) && !IsWhitespace(r[|r| - 1])
  {
    var t := s[LeadingSpace(s)..];
    t[..|t| - TrailingSpace(t)]
  }

  /** The first position at or after `i` holding a name character, or |s| if there is none. */
  function FirstNameChar(s: string, i: nat): (f: nat)
    requires i <= |s|
    ensures i <= f <= |s|
    ensures forall k :: i <= k < f ==> !IsNameChar(s[k])
    ensures f < |s| ==> IsNameChar(s[f])
    decreases |s| - i
  {
    if i == |s| || IsNameChar(s[i]) then i else FirstNameChar(s, i + 1)
  }

  /** The end of the run of name characters that starts at position `i`. */
  function NameRunEnd(s: string, i: nat): (e: nat)
    requires i <= |s|
    ensures i <= e <= |s|
    ensures forall k :: i <= k < e ==> IsNameChar(s[k])
    ensures e < |s| ==> !IsNameChar(s[e])
    decreases |s| - i
  {
    if i < |s| && IsNameChar(s[i]) then NameRunEnd(s, i + 1) else i
  }

  /** An unanchored, greedy search for one or more name characters, as
      `Regex::find` does it: the leftmost maximal run `[first, second)`, or
      nothing when `s` holds no name character at all. */
  function FindName(s: string): (m: Option<(nat, nat)>)
    ensures m.None? ==> forall k :: 0 <= k < |s| ==> !IsNameChar(s[k])
    ensures m.Some? ==>
      var (first, second) := m.value;
      && first < second <= |s|
      && (forall k :: 0 <= k < first ==> !IsNameChar(s[k]))
      && (forall k :: first <= k < second ==> IsNameChar(s[k]))
      && (second < |s| ==> !IsNameChar(s[second]))
  {
    var first := FirstNameChar(s, 0);
    if first == |s| then None else Some((first, NameRunEnd(s, first)))
  }

  /** `tok`: one lexer step. If the trimmed cursor starts with "fn" the token
      is `Function` and the cursor loses those two characters; otherwise, if
      the trimmed cursor holds a run of name characters, the token is an `ID`
      and the cursor keeps what follows the run; otherwise the step fails and
      leaves the cursor as it was. The `ID` text is cut out of the untrimmed
      cursor at the offsets found in the trimmed one. */
  method Tok(cur: string) returns (r: Result<Token, string>, cur': string)
    ensures StartsWith(Trim(cur), "fn") ==>
      r == Ok(Function) && cur' == Trim(cur)[2..]
    ensures !StartsWith(Trim(cur), "fn") && FindName(Trim(cur)).Some? ==>
      var (first, second) := FindName(Trim(cur)).value;
      r == Ok(ID(cur[first..second])) && cur' == Trim(cur)[second..]
    ensures !StartsWith(Trim(cur), "fn") && FindName(Trim(cur)).None? ==>
      r == Err("No token at " + Trim(cur)) && cur' == cur
    ensures r.Ok? ==> |cur'| < |cur|
    ensures r.Ok? && r.value.ID? && LeadingSpace(cur) == 0 ==>
      |r.value.name| > 0 && forall k :: 0 <= k < |r.value.name| ==> IsNameChar(r.value.name[k])
  {
    var trimmed := Trim(cur);
    if StartsWith(trimmed, "fn") {
      cur' := trimmed[2..];
      r := Ok(Function);
    } else {
      var found := FindName(trimmed);
      if found.Some? {
        var (first, second) := found.value;
        var name := ID(cur[first..second]);
        cur' := trimmed[second..];
        r := Ok(name);
        if LeadingSpace(cur) == 0 {
          assert cur[first..second] == trimmed[first..second];
        }
      } else {
        r := Err("No token at " + trimmed);
        cur' := cur;
      }
    }
  }

  /** `parseFn`: not implemented; it always fails with "dd" and does not move the cursor. */
  method ParseFn(cur: string) returns (r: Result<Ast.AST, string>, cur': string)
    ensures r == Err("dd") && cur' == cur
  {
    r := Err("dd");
    cur' := cur;
  }

  /** `parseTop`: a lexer error is passed on unchanged, a first token other
      than `fn` is rejected, and a `fn` hands over to `parseFn`. Since `parseFn`
      always fails, no input parses. */
  method ParseTop(cur: string) returns (r: Result<Ast.AST, string>, cur': string)
    ensures r.Err?
    ensures StartsWith(Trim(cur), "fn") ==>
      r == Err("dd") && cur' == Trim(cur)[2..]
    ensures !StartsWith(Trim(cur), "fn") && FindName(Trim(cur)).Some? ==>
      r == Err("First token should be fn") && cur' == Trim(cur)[FindName(Trim(cur)).value.1..]
    ensures !StartsWith(Trim(cur), "fn") && FindName(Trim(cur)).None? ==>
      r == Err("No token at " + Trim(cur)) && cur' == cur
  {
    var first;
    first, cur' := Tok(cur);
    if first.Err? {
      r := Err(first.error);
      return;
    }
    if first.value == Function {
      r, cur' := ParseFn(cur');
    } else {
      r := Err("First token should be fn");
    }
  }

  /** The keyword test is a bare prefix test: "fnord" lexes as `fn`, leaving "ord". */
  method TokFnord() returns (r: Result<Token, string>, cur': string)
    ensures r == Ok(Function) && cur' == "ord"
  {
    r, cur' := Tok("fnord");
  }

  /** Offsets found in the trimmed cursor cut the untrimmed one: " ab" yields
      the name " a", not "ab", and leaves nothing behind. */
  method TokLeadingSpace() returns (r: Result<Token, string>, cur': string)
    ensures r == Ok(ID(" a")) && cur' == ""
  {
    assert LeadingSpace(" ab") == 1 && TrailingSpace("ab") == 0;
    assert Trim(" ab") == "ab";
    assert FirstNameChar("ab", 0) == 0 && NameRunEnd("ab", 0) == 2;
    assert !StartsWith("ab", "fn") && FindName("ab") == Some((0, 2));
    assert " ab"[0..2] == " a";
    r, cur' := Tok(" ab");
  }

  /** The name search is unanchored: in "+x y" the '+' is skipped and dropped. */
  method TokSkipsPunctuation() returns (r: Result<Token, string>, cur': string)
    ensures r == Ok(ID("x")) && cur' == " y"
  {
    assert LeadingSpace("+x y") == 0 && TrailingSpace("+x y") == 0;
    assert Trim("+x y") == "+x y";
    assert FirstNameChar("+x y", 0) == 1 && NameRunEnd("+x y", 1) == 2;
    assert !StartsWith("+x y", "fn") && FindName("+x y") == Some((1, 2));
    assert "+x y"[1..2] == "x" && "+x y"[2..] == " y";
    r, cur' := Tok("+x y");
  }

  /** End of input is not a token. */
  method TokEmpty() returns (r: Result<Token, string>, cur': string)
    ensures r == Err("No token at ") && cur' == "  "
  {
    assert LeadingSpace("  ") == 2;
    assert Trim("  ") == "";
    assert !StartsWith("", "fn") && FindName("") == None;
    assert "No token at " + "" == "No token at ";
    r, cur' := Tok("  ");
  }
}
