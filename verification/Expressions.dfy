/** The GitHub Actions expression evaluator. A Go string is a string of bytes: each char stands for one byte. */
module Expressions {
  import opened Options

  /** Maps that are nil behave as empty ones. */
  datatype Context = Context(depResults: map<string, string>, values: map<string, string>, cancelled: bool)

  // ---------- Bytes and space ----------

  /** unicode.IsSpace on a single byte: the six ASCII spaces, and the bytes 0x85 and 0xA0. */
  predicate IsSpace(c: char) {
    '\t' <= c <= '\r' || c == ' ' || c == 0x85 as char || c == 0xA0 as char
  }

  predicate IsIdentChar(c: char) {
    !IsSpace(c) && c !in {'(', ')', '!', '=', '&', '|', '\''}
  }

  predicate IsSuffix(t: string, s: string) {
    |t| <= |s| && t == s[|s| - |t|..]
  }

  lemma SuffixTransitive(a: string, b: string, c: string)
    requires IsSuffix(a, b) && IsSuffix(b, c)
    ensures IsSuffix(a, c)
  {
    assert c[|c| - |b|..][|b| - |a|..] == c[|c| - |a|..];
  }

  lemma TailSuffix(t: string, s: string, k: nat)
    requires IsSuffix(t, s) && k <= |t|
    ensures IsSuffix(t[k..], s) && |t[k..]| <= |s|
  {
    SuffixTransitive(t[k..], t, s);
  }

  lemma SuffixShorter(t: string, s: string)
    requires IsSuffix(t, s)
    ensures |t| <= |s|
  {
  }

  function Skip(s: string): (t: string)
    ensures IsSuffix(t, s)
    ensures t == [] || !IsSpace(t[0])
  {
    if s != [] && IsSpace(s[0]) then Skip(s[1..]) else s
  }

  /** The length of the longest prefix of identifier bytes. */
  function IdentLength(s: string): (n: nat)
    ensures n <= |s|
    ensures forall i :: 0 <= i < n ==> IsIdentChar(s[i])
    ensures n < |s| ==> !IsIdentChar(s[n])
  {
    if s != [] && IsIdentChar(s[0]) then 1 + IdentLength(s[1..]) else 0
  }

  /** The index of the first closing quote, or the length when there is none. */
  function QuoteIndex(s: string): (n: nat)
    ensures n <= |s|
    ensures forall i :: 0 <= i < n ==> s[i] != '\''
    ensures n < |s| ==> s[n] == '\''
  {
    if s != [] && s[0] != '\'' then 1 + QuoteIndex(s[1..]) else 0
  }

  predicate StartsWith(s: string, p: string) {
    |p| <= |s| && s[..|p|] == p
  }

  function DropClose(w: string): (t: string)
    ensures t == w || (w != [] && t == w[1..])
  {
    if w != [] && w[0] == ')' then w[1..] else w
  }

  lemma CloseSuffix(u: string, s: string)
    requires IsSuffix(u, s)
    ensures IsSuffix(DropClose(Skip(u)), s)
  {
    SuffixTransitive(Skip(u), u, s);
  }

  // ---------- Values ----------

  predicate IsTruthy(v: string) {
    v != "" && v != "false" && v != "0"
  }

  function BoolText(b: bool): string {
    if b then "true" else "false"
  }

  function EvalFunction(name: string, ctx: Option<Context>): string {
    if ctx.None? then "false"
    else
      var deps := ctx.value.depResults;
      match name
      case "success" => BoolText(forall d <- deps :: deps[d] == "success" || deps[d] == "skipped")
      case "failure" => BoolText(exists d <- deps :: deps[d] == "failure")
      case "always" => "true"
      case "cancelled" => BoolText(ctx.value.cancelled)
      case _ => "false"
  }

  function EvalIdent(name: string, ctx: Option<Context>): string {
    if name == "true" || name == "false" then name
    else if ctx.Some? && name in ctx.value.values then ctx.value.values[name]
    else name
  }

  // ---------- The parse functions, on the text that remains ----------

  function ParsePrimary(s: string, ctx: Option<Context>): (r: (string, string))
    ensures IsSuffix(r.1, s)
    decreases |s|, 0
  {
    hide EvalFunction, EvalIdent, Skip, DropClose, IdentLength, QuoteIndex, IsSuffix, IsSpace, IsIdentChar;
    var t := Skip(s);
    SuffixShorter(t, s);
    if t == [] then ("", t)
    else if t[0] == '(' then
      TailSuffix(t, s, 1);
      var (v, u) := ParseOr(t[1..], ctx);
      SuffixTransitive(u, t[1..], s);
      CloseSuffix(u, s);
      (BoolText(v), DropClose(Skip(u)))
    else if t[0] == '\'' then
      TailSuffix(t, s, 1);
      var u := t[1..];
      var n := QuoteIndex(u);
      TailSuffix(u, s, if n < |u| then n + 1 else n);
      (u[..n], if n < |u| then u[n + 1..] else u[n..])
    else
      var n := IdentLength(t);
      var u := Skip(t[n..]);
      TailSuffix(t, s, n);
      SuffixTransitive(u, t[n..], s);
      if u != [] && u[0] == '(' then
        TailSuffix(u, s, 1);
        CloseSuffix(u[1..], s);
        (EvalFunction(t[..n], ctx), DropClose(Skip(u[1..])))
      else (EvalIdent(t[..n], ctx), u)
  }

  function ParseUnary(s: string, ctx: Option<Context>): (r: (string, string))
    ensures IsSuffix(r.1, s)
    decreases |s|, 1
  {
    var t := Skip(s);
    if t != [] && t[0] == '!' then
      var (v, u) := ParsePrimary(t[1..], ctx);
      SuffixTransitive(u, t[1..], s);
      (BoolText(!IsTruthy(v)), u)
    else
      var r := ParsePrimary(t, ctx);
      SuffixTransitive(r.1, t, s);
      r
  }

  function ParseComparison(s: string, ctx: Option<Context>): (r: (bool, string))
    ensures IsSuffix(r.1, s)
    decreases |s|, 2
  {
    var (l, s1) := ParseUnary(s, ctx);
    var t := Skip(s1);
    SuffixTransitive(t, s1, s);
    if StartsWith(t, "==") || StartsWith(t, "!=") then
      var (v, u) := ParseUnary(t[2..], ctx);
      SuffixTransitive(u, t[2..], s);
      ((l == v) == StartsWith(t, "=="), u)
    else (IsTruthy(l), t)
  }

  function AndLoop(left: bool, s: string, ctx: Option<Context>): (r: (bool, string))
    ensures IsSuffix(r.1, s)
    decreases |s|, 3
  {
    var t := Skip(s);
    if StartsWith(t, "&&") then
      var (v, u) := ParseComparison(t[2..], ctx);
      var r := AndLoop(left && v, u, ctx);
      SuffixTransitive(u, t[2..], s);
      SuffixTransitive(r.1, u, s);
      r
    else (left, t)
  }

  function ParseAnd(s: string, ctx: Option<Context>): (r: (bool, string))
    ensures IsSuffix(r.1, s)
    decreases |s|, 4
  {
    var (l, s1) := ParseComparison(s, ctx);
    var r := AndLoop(l, s1, ctx);
    SuffixTransitive(r.1, s1, s);
    r
  }

  function OrLoop(left: bool, s: string, ctx: Option<Context>): (r: (bool, string))
    ensures IsSuffix(r.1, s)
    decreases |s|, 5
  {
    var t := Skip(s);
    if StartsWith(t, "||") then
      var (v, u) := ParseAnd(t[2..], ctx);
      var r := OrLoop(left || v, u, ctx);
      SuffixTransitive(u, t[2..], s);
      SuffixTransitive(r.1, u, s);
      r
    else (left, t)
  }

  function ParseOr(s: string, ctx: Option<Context>): (r: (bool, string))
    ensures IsSuffix(r.1, s)
    decreases |s|, 6
  {
    var (l, s1) := ParseAnd(s, ctx);
    var r := OrLoop(l, s1, ctx);
    SuffixTransitive(r.1, s1, s);
    r
  }

  // ---------- One unfolding of each parse function ----------

  lemma PrimaryStep(s: string, ctx: Option<Context>)
    ensures ParsePrimary(s, ctx) ==
      var t := Skip(s);
      if t == [] then ("", t)
      else if t[0] == '(' then
        var (v, u) := ParseOr(t[1..], ctx);
        (BoolText(v), DropClose(Skip(u)))
      else if t[0] == '\'' then
        var u := t[1..];
        var n := QuoteIndex(u);
        (u[..n], if n < |u| then u[n + 1..] else [])
      else
        var n := IdentLength(t);
        var u := Skip(t[n..]);
        if u != [] && u[0] == '(' then
          (EvalFunction(t[..n], ctx), DropClose(Skip(u[1..])))
        else (EvalIdent(t[..n], ctx), u)
  {
    hide ParseOr, EvalFunction, EvalIdent, Skip, IdentLength, QuoteIndex;
  }

  lemma UnaryStep(s: string, ctx: Option<Context>)
    ensures ParseUnary(s, ctx) ==
      var t := Skip(s);
      if t != [] && t[0] == '!' then
        var (v, u) := ParsePrimary(t[1..], ctx);
        (BoolText(!IsTruthy(v)), u)
      else ParsePrimary(t, ctx)
  {
    hide ParsePrimary, Skip;
  }

  lemma ComparisonStep(s: string, ctx: Option<Context>)
    ensures ParseComparison(s, ctx) ==
      var (l, s1) := ParseUnary(s, ctx);
      var t := Skip(s1);
      if StartsWith(t, "==") || StartsWith(t, "!=") then
        var (v, u) := ParseUnary(t[2..], ctx);
        ((l == v) == StartsWith(t, "=="), u)
      else (IsTruthy(l), t)
  {
    hide ParseUnary, Skip;
  }

  lemma AndStep(s: string, ctx: Option<Context>)
    ensures ParseAnd(s, ctx) ==
      var (l, s1) := ParseComparison(s, ctx);
      AndLoop(l, s1, ctx)
  {
    hide ParseComparison, AndLoop;
  }

  lemma AndLoopStep(left: bool, s: string, ctx: Option<Context>)
    ensures AndLoop(left, s, ctx) ==
      var t := Skip(s);
      if StartsWith(t, "&&") then
        var (v, u) := ParseComparison(t[2..], ctx);
        AndLoop(left && v, u, ctx)
      else (left, t)
  {
    hide ParseComparison, Skip;
  }

  lemma OrStep(s: string, ctx: Option<Context>)
    ensures ParseOr(s, ctx) ==
      var (l, s1) := ParseAnd(s, ctx);
      OrLoop(l, s1, ctx)
  {
    hide ParseAnd, OrLoop;
  }

  lemma OrLoopStep(left: bool, s: string, ctx: Option<Context>)
    ensures OrLoop(left, s, ctx) ==
      var t := Skip(s);
      if StartsWith(t, "||") then
        var (v, u) := ParseAnd(t[2..], ctx);
        OrLoop(left || v, u, ctx)
      else (left, t)
  {
    hide ParseAnd, Skip;
  }

  // ---------- strings.TrimSpace, and the whole evaluation ----------

  function Byte(s: string, i: nat): int
    requires i < |s|
  {
    s[i] as int
  }

  predicate IsAsciiSpace(c: char) {
    '\t' <= c <= '\r' || c == ' '
  }

  /** Two bytes that are the UTF-8 text of U+0085 or U+00A0. */
  predicate IsSpace2(s: string) {
    |s| == 2 && Byte(s, 0) == 0xC2 && (Byte(s, 1) == 0x85 || Byte(s, 1) == 0xA0)
  }

  /** Three bytes that are the UTF-8 text of U+1680, U+2000..U+200A, U+2028, U+2029, U+202F, U+205F or U+3000. */
  predicate IsSpace3(s: string) {
    |s| == 3 &&
    var (a, b, c) := (Byte(s, 0), Byte(s, 1), Byte(s, 2));
    || (a == 0xE1 && b == 0x9A && c == 0x80)
    || (a == 0xE2 && b == 0x80 && (0x80 <= c <= 0x8A || c == 0xA8 || c == 0xA9 || c == 0xAF))
    || (a == 0xE2 && b == 0x81 && c == 0x9F)
    || (a == 0xE3 && b == 0x80 && c == 0x80)
  }

  /** The byte length of the white-space rune that s starts with, 0 when it starts with none. */
  function LeadingSpace(s: string): (n: nat)
    ensures n <= |s|
  {
    if |s| >= 1 && IsAsciiSpace(s[0]) then 1
    else if |s| >= 2 && IsSpace2(s[..2]) then 2
    else if |s| >= 3 && IsSpace3(s[..3]) then 3
    else 0
  }

  function TrailingSpace(s: string): (n: nat)
    ensures n <= |s|
  {
    if |s| >= 1 && IsAsciiSpace(s[|s| - 1]) then 1
    else if |s| >= 2 && IsSpace2(s[|s| - 2..]) then 2
    else if |s| >= 3 && IsSpace3(s[|s| - 3..]) then 3
    else 0
  }

  function TrimLeft(s: string): string {
    var n := LeadingSpace(s);
    if n == 0 then s else TrimLeft(s[n..])
  }

  function TrimRight(s: string): string {
    var n := TrailingSpace(s);
    if n == 0 then s else TrimRight(s[..|s| - n])
  }

  function TrimSpace(s: string): string {
    TrimRight(TrimLeft(s))
  }

  predicate IsWrapped(s: string) {
    |s| >= 5 && s[..3] == "${{" && s[|s| - 2..] == "}}"
  }

  function Eval(expr: string, ctx: Option<Context>): bool {
    var e := TrimSpace(expr);
    if e == "" then true
    else if IsWrapped(e) then ParseOr(TrimSpace(e[3..|e| - 2]), ctx).0
    else ParseOr(e, ctx).0
  }

  // ---------- The parser as written: a position that moves over the input ----------

  class ExprParser {
    const input: string
    const ctx: Option<Context>
    var pos: nat

    constructor (input: string, ctx: Option<Context>)
      ensures this.input == input && this.ctx == ctx && pos == 0
    {
      this.input, this.ctx, this.pos := input, ctx, 0;
    }

    ghost predicate Valid()
      reads this
    {
      pos <= |input|
    }

    ghost function Rest(): (s: string)
      requires Valid()
      reads this
      ensures |s| == |input| - pos
    {
      input[pos..]
    }

    method SkipWhitespace()
      requires Valid()
      modifies this
      ensures Valid() && Rest() == Skip(old(Rest()))
      ensures pos >= old(pos)
    {
      while pos < |input| && IsSpace(input[pos])
        invariant Valid() && pos >= old(pos)
        invariant Skip(Rest()) == Skip(old(Rest()))
      {
        assert Rest()[1..] == input[pos + 1..];
        pos := pos + 1;
      }
    }

    /** The string-literal branch of parsePrimary, after the opening quote. */
    method ScanQuoted() returns (value: string)
      requires Valid()
      modifies this
      ensures Valid() && pos >= old(pos)
      ensures var n := QuoteIndex(old(Rest()));
              && value == old(Rest())[..n]
              && Rest() == if n < |old(Rest())| then old(Rest())[n + 1..] else []
    {
      var start := pos;
      ghost var u := Rest();
      while pos < |input| && input[pos] != '\''
        invariant start <= pos <= |input|
        invariant QuoteIndex(u) == pos - start + QuoteIndex(Rest())
      {
        assert Rest()[1..] == input[pos + 1..];
        pos := pos + 1;
      }
      value := input[start..pos];
      if pos < |input| {
        pos := pos + 1;
      }
    }

    /** The scan of parsePrimary over the bytes of an identifier. */
    method ScanIdent() returns (ident: string)
      requires Valid()
      modifies this
      ensures Valid() && pos >= old(pos)
      ensures var n := IdentLength(old(Rest()));
              ident == old(Rest())[..n] && Rest() == old(Rest())[n..]
    {
      var start := pos;
      ghost var t := Rest();
      while pos < |input|
        invariant start <= pos <= |input|
        invariant IdentLength(t) == pos - start + IdentLength(Rest())
      {
        var c := input[pos];
        if c == '(' || c == ')' || c == '!' || c == '=' || c == '&' || c == '|' || c == '\'' || IsSpace(c) {
          break;
        }
        assert Rest()[1..] == input[pos + 1..];
        pos := pos + 1;
      }
      ident := input[start..pos];
    }

    /** Skips space and then one closing parenthesis, when there is one. */
    method SkipClose()
      requires Valid()
      modifies this
      ensures Valid() && pos >= old(pos) && Rest() == DropClose(Skip(old(Rest())))
    {
      hide Skip;
      SkipWhitespace();
      if pos < |input| && input[pos] == ')' {
        assert Rest()[1..] == input[pos + 1..];
        pos := pos + 1;
      }
    }

    /** The last branch of parsePrimary: an identifier, or a call when a parenthesis follows. */
    method IdentOrCall() returns (value: string)
      requires Valid()
      modifies this
      ensures Valid() && pos >= old(pos)
      ensures var t := old(Rest());
              var n := IdentLength(t);
              var u := Skip(t[n..]);
              (value, Rest()) ==
                if u != [] && u[0] == '(' then (EvalFunction(t[..n], ctx), DropClose(Skip(u[1..])))
                else (EvalIdent(t[..n], ctx), u)
    {
      hide Skip, IdentLength, EvalFunction, EvalIdent, IsSuffix;
      var ident := ScanIdent();
      SkipWhitespace();
      if pos < |input| && input[pos] == '(' {
        assert Rest()[1..] == input[pos + 1..];
        pos := pos + 1;
        SkipClose();
        return EvalFunction(ident, ctx);
      }
      return EvalIdent(ident, ctx);
    }

    method ReadPrimary() returns (value: string)
      requires Valid()
      modifies this
      ensures Valid() && pos >= old(pos) && (value, Rest()) == ParsePrimary(old(Rest()), ctx)
      decreases |input| - pos, 0
    {
      hide ParsePrimary, ParseUnary, ParseComparison, AndLoop, ParseAnd, OrLoop, ParseOr, IsSuffix, EvalFunction, EvalIdent, Skip, IdentLength, QuoteIndex, IsIdentChar, IsSpace;
      PrimaryStep(Rest(), ctx);
      SkipWhitespace();
      if pos >= |input| {
        return "";
      }
      ghost var t := Rest();
      var ch := input[pos];
      if ch == '(' {
        pos := pos + 1;
        assert Rest() == t[1..];
        var result := ReadOr();
        SkipClose();
        return if result then "true" else "false";
      }
      if ch == '\'' {
        pos := pos + 1;
        assert Rest() == t[1..];
        value := ScanQuoted();
        return;
      }
      value := IdentOrCall();
    }

    method ReadUnary() returns (value: string)
      requires Valid()
      modifies this
      ensures Valid() && pos >= old(pos) && (value, Rest()) == ParseUnary(old(Rest()), ctx)
      decreases |input| - pos, 1
    {
      hide ParsePrimary, ParseUnary, ParseComparison, AndLoop, ParseAnd, OrLoop, ParseOr, IsSuffix, Skip;
      UnaryStep(Rest(), ctx);
      SkipWhitespace();
      if pos < |input| && input[pos] == '!' {
        assert Rest()[1..] == input[pos + 1..];
        pos := pos + 1;
        value := ReadPrimary();
        return if IsTruthy(value) then "false" else "true";
      }
      value := ReadPrimary();
    }

    method ReadComparison() returns (result: bool)
      requires Valid()
      modifies this
      ensures Valid() && pos >= old(pos) && (result, Rest()) == ParseComparison(old(Rest()), ctx)
      decreases |input| - pos, 2
    {
      hide ParsePrimary, ParseUnary, ParseComparison, AndLoop, ParseAnd, OrLoop, ParseOr, IsSuffix, Skip;
      ComparisonStep(Rest(), ctx);
      var leftVal := ReadUnary();
      SkipWhitespace();
      if pos + 1 < |input| {
        var op := input[pos..pos + 2];
        assert op == Rest()[..2];
        if op == "==" || op == "!=" {
          assert Rest()[2..] == input[pos + 2..];
          pos := pos + 2;
          var rightVal := ReadUnary();
          if op == "==" {
            return leftVal == rightVal;
          }
          return leftVal != rightVal;
        }
      }
      return IsTruthy(leftVal);
    }

    method ReadAnd() returns (left: bool)
      requires Valid()
      modifies this
      ensures Valid() && pos >= old(pos) && (left, Rest()) == ParseAnd(old(Rest()), ctx)
      decreases |input| - pos, 4
    {
      hide ParsePrimary, ParseUnary, ParseComparison, AndLoop, ParseAnd, OrLoop, ParseOr, IsSuffix, Skip;
      AndStep(Rest(), ctx);
      left := ReadComparison();
      while true
        invariant Valid() && old(pos) <= pos
        invariant AndLoop(left, Rest(), ctx) == ParseAnd(old(Rest()), ctx)
        decreases |input| - pos
      {
        AndLoopStep(left, Rest(), ctx);
        SkipWhitespace();
        if pos + 1 < |input| && input[pos..pos + 2] == "&&" {
          assert Rest()[..2] == input[pos..pos + 2] && Rest()[2..] == input[pos + 2..];
          pos := pos + 2;
          var right := ReadComparison();
          left := left && right;
        } else {
          assert |Rest()| >= 2 ==> Rest()[..2] == input[pos..pos + 2];
          break;
        }
      }
    }

    method ReadOr() returns (left: bool)
      requires Valid()
      modifies this
      ensures Valid() && pos >= old(pos) && (left, Rest()) == ParseOr(old(Rest()), ctx)
      decreases |input| - pos, 6
    {
      hide ParsePrimary, ParseUnary, ParseComparison, AndLoop, ParseAnd, OrLoop, ParseOr, IsSuffix, Skip;
      OrStep(Rest(), ctx);
      left := ReadAnd();
      while true
        invariant Valid() && old(pos) <= pos
        invariant OrLoop(left, Rest(), ctx) == ParseOr(old(Rest()), ctx)
        decreases |input| - pos
      {
        OrLoopStep(left, Rest(), ctx);
        SkipWhitespace();
        if pos + 1 < |input| && input[pos..pos + 2] == "||" {
          assert Rest()[..2] == input[pos..pos + 2] && Rest()[2..] == input[pos + 2..];
          pos := pos + 2;
          var right := ReadAnd();
          left := left || right;
        } else {
          assert |Rest()| >= 2 ==> Rest()[..2] == input[pos..pos + 2];
          break;
        }
      }
    }
  }

  method EvalExpr(expr: string, ctx: Option<Context>) returns (result: bool)
    ensures result == Eval(expr, ctx)
  {
    hide ParseOr, TrimSpace;
    var e := TrimSpace(expr);
    if e == "" {
      return true;
    }
    if |e| >= 5 && e[..3] == "${{" && e[|e| - 2..] == "}}" {
      e := TrimSpace(e[3..|e| - 2]);
    }
    var p := new ExprParser(e, ctx);
    result := p.ReadOr();
  }
}
