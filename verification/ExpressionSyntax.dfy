/** Well-formed expressions, their meaning, their text with any white space, and the proof that the parser agrees. */
module ExpressionSyntax {
  import opened Expressions
  import opened Options

  // ---------- Syntax trees; every field called ws, before or gap is the white space at that place ----------

  datatype OrExpr = OrExpr(head: AndExpr, tail: OrTail)
  datatype OrTail = OrEnd | OrMore(gap: string, item: AndExpr, rest: OrTail)
  datatype AndExpr = AndExpr(head: Comparison, tail: AndTail)
  datatype AndTail = AndEnd | AndMore(gap: string, item: Comparison, rest: AndTail)
  datatype Comparison = Truth(operand: Unary) | Compare(left: Unary, gap: string, equal: bool, right: Unary)
  datatype Unary = Plain(before: string, arg: Primary) | Not(before: string, gap: string, arg: Primary)
  datatype Primary =
    | Paren(inner: OrExpr, ws: string)
    | Quoted(body: string)
    | Ident(name: string)
    | Call(fn: string, gap: string, ws: string)

  predicate IsBlank(ws: string) {
    forall i :: 0 <= i < |ws| ==> IsSpace(ws[i])
  }

  predicate IsName(s: string) {
    s != [] && forall i :: 0 <= i < |s| ==> IsIdentChar(s[i])
  }

  predicate WfOr(e: OrExpr) { WfAnd(e.head) && WfOrTail(e.tail) }

  predicate WfOrTail(e: OrTail) { e.OrMore? ==> IsBlank(e.gap) && WfAnd(e.item) && WfOrTail(e.rest) }

  predicate WfAnd(e: AndExpr) { WfComparison(e.head) && WfAndTail(e.tail) }

  predicate WfAndTail(e: AndTail) { e.AndMore? ==> IsBlank(e.gap) && WfComparison(e.item) && WfAndTail(e.rest) }

  predicate WfComparison(e: Comparison) {
    match e
    case Truth(u) => WfUnary(u)
    case Compare(l, gap, _, r) => WfUnary(l) && IsBlank(gap) && WfUnary(r)
  }

  predicate WfUnary(e: Unary) {
    IsBlank(e.before) && (e.Not? ==> IsBlank(e.gap)) && WfPrimary(e.arg)
  }

  predicate WfPrimary(e: Primary) {
    match e
    case Paren(inner, ws) => WfOr(inner) && IsBlank(ws)
    case Quoted(body) => '\'' !in body
    case Ident(name) => IsName(name)
    case Call(fn, gap, ws) => IsName(fn) && IsBlank(gap) && IsBlank(ws)
  }

  // ---------- Meaning: white space plays no part ----------

  function MeanOr(e: OrExpr, ctx: Option<Context>): bool { MeanAnd(e.head, ctx) || MeanOrTail(e.tail, ctx) }

  function MeanOrTail(e: OrTail, ctx: Option<Context>): bool {
    e.OrMore? && (MeanAnd(e.item, ctx) || MeanOrTail(e.rest, ctx))
  }

  function MeanAnd(e: AndExpr, ctx: Option<Context>): bool { MeanComparison(e.head, ctx) && MeanAndTail(e.tail, ctx) }

  function MeanAndTail(e: AndTail, ctx: Option<Context>): bool {
    e.AndMore? ==> MeanComparison(e.item, ctx) && MeanAndTail(e.rest, ctx)
  }

  function MeanComparison(e: Comparison, ctx: Option<Context>): bool {
    match e
    case Truth(u) => IsTruthy(MeanUnary(u, ctx))
    case Compare(l, _, equal, r) => equal == (MeanUnary(l, ctx) == MeanUnary(r, ctx))
  }

  function MeanUnary(e: Unary, ctx: Option<Context>): string {
    var v := MeanPrimary(e.arg, ctx);
    if e.Not? then BoolText(!IsTruthy(v)) else v
  }

  function MeanPrimary(e: Primary, ctx: Option<Context>): string {
    match e
    case Paren(inner, _) => BoolText(MeanOr(inner, ctx))
    case Quoted(body) => body
    case Ident(name) => EvalIdent(name, ctx)
    case Call(fn, _, _) => EvalFunction(fn, ctx)
  }

  // ---------- Text ----------

  function PrintOr(e: OrExpr): string { PrintAnd(e.head) + PrintOrTail(e.tail) }

  function PrintOrTail(e: OrTail): string {
    match e
    case OrEnd => ""
    case OrMore(gap, item, rest) => gap + ("||" + (PrintAnd(item) + PrintOrTail(rest)))
  }

  function PrintAnd(e: AndExpr): string { PrintComparison(e.head) + PrintAndTail(e.tail) }

  function PrintAndTail(e: AndTail): string {
    match e
    case AndEnd => ""
    case AndMore(gap, item, rest) => gap + ("&&" + (PrintComparison(item) + PrintAndTail(rest)))
  }

  function PrintComparison(e: Comparison): string {
    match e
    case Truth(u) => PrintUnary(u)
    case Compare(l, gap, equal, r) => PrintUnary(l) + (gap + ((if equal then "==" else "!=") + PrintUnary(r)))
  }

  function PrintUnary(e: Unary): string {
    match e
    case Plain(before, arg) => before + PrintPrimary(arg)
    case Not(before, gap, arg) => before + ("!" + (gap + PrintPrimary(arg)))
  }

  function PrintPrimary(e: Primary): string {
    match e
    case Paren(inner, ws) => "(" + (PrintOr(inner) + (ws + ")"))
    case Quoted(body) => "'" + (body + "'")
    case Ident(name) => name
    case Call(fn, gap, ws) => fn + (gap + ("(" + (ws + ")")))
  }

  // ---------- What may follow an expression ----------

  /** The text after an operand: it does not continue an identifier and is not the parenthesis of a call. */
  predicate Follows(post: string) {
    (post == [] || !IsIdentChar(post[0])) && !StartsWith(Skip(post), "(")
  }

  predicate NoComparison(post: string) {
    !StartsWith(Skip(post), "==") && !StartsWith(Skip(post), "!=")
  }

  lemma {:induction false} SkipBlank(ws: string, s: string)
    requires IsBlank(ws)
    ensures Skip(ws + s) == Skip(s)
  {
    if ws == [] {
      assert ws + s == s;
    } else {
      assert (ws + s)[1..] == ws[1..] + s;
      SkipBlank(ws[1..], s);
    }
  }

  /** A gap and then something that is not space: the parser skips exactly the gap. */
  lemma SkipTo(ws: string, s: string)
    requires IsBlank(ws) && s != [] && !IsSpace(s[0])
    ensures Skip(ws + s) == s
    ensures !IsIdentChar(s[0]) ==> !IsIdentChar((ws + s)[0])
  {
    SkipBlank(ws, s);
  }

  lemma SkipSkip(s: string)
    ensures Skip(Skip(s)) == Skip(s)
  {
    var t := Skip(s);
    assert t == [] || !IsSpace(t[0]);
  }

  lemma {:induction false} IdentLengthIs(name: string, post: string)
    requires forall i :: 0 <= i < |name| ==> IsIdentChar(name[i])
    requires post == [] || !IsIdentChar(post[0])
    ensures IdentLength(name + post) == |name|
  {
    if name != [] {
      assert (name + post)[1..] == name[1..] + post;
      IdentLengthIs(name[1..], post);
    } else {
      assert name + post == post;
    }
  }

  lemma {:induction false} QuoteIndexIs(body: string, post: string)
    requires '\'' !in body && post != [] && post[0] == '\''
    ensures QuoteIndex(body + post) == |body|
  {
    if body != [] {
      assert (body + post)[1..] == body[1..] + post;
      assert body[0] in body;
      QuoteIndexIs(body[1..], post);
    } else {
      assert body + post == post;
    }
  }

  // ---------- The parser reads back what the printer wrote ----------

  lemma QuotedReads(body: string, post: string, ctx: Option<Context>)
    requires '\'' !in body
    ensures ParsePrimary("'" + (body + "'") + post, ctx) == (body, post)
  {
    hide ParsePrimary, ParseOr, EvalFunction, EvalIdent, IsSuffix;
    var s := "'" + (body + "'") + post;
    var after := "'" + post;
    PrimaryStep(s, ctx);
    assert s == "'" + (body + after);
    assert s[1..] == body + after;
    QuoteIndexIs(body, after);
    assert (body + after)[..|body|] == body;
    assert (body + after)[|body| + 1..] == post;
  }

  lemma IdentReads(name: string, post: string, ctx: Option<Context>)
    requires IsName(name) && Follows(post)
    ensures ParsePrimary(name + post, ctx) == (EvalIdent(name, ctx), Skip(post))
  {
    hide ParsePrimary, ParseOr, EvalFunction, EvalIdent, IsSuffix;
    var s := name + post;
    PrimaryStep(s, ctx);
    IdentLengthIs(name, post);
    assert s[..|name|] == name && s[|name|..] == post;
    assert Skip(s) == s;
  }

  lemma CallReads(fn: string, gap: string, ws: string, post: string, ctx: Option<Context>)
    requires IsName(fn) && IsBlank(gap) && IsBlank(ws)
    ensures ParsePrimary(fn + (gap + ("(" + (ws + ")"))) + post, ctx) == (EvalFunction(fn, ctx), post)
  {
    hide ParsePrimary, ParseOr, EvalFunction, EvalIdent, IsSuffix;
    var s := fn + (gap + ("(" + (ws + ")"))) + post;
    PrimaryStep(s, ctx);
    var close := ws + (")" + post);
    var after := gap + ("(" + close);
    assert s == fn + after;
    SkipTo(gap, "(" + close);
    IdentLengthIs(fn, after);
    assert s[..|fn|] == fn && s[|fn|..] == after;
    assert Skip(s) == s;
    assert ("(" + close)[1..] == close;
    SkipTo(ws, ")" + post);
    assert (")" + post)[1..] == post;
  }

  lemma {:induction false} ParenReads(inner: OrExpr, ws: string, post: string, ctx: Option<Context>)
    requires WfOr(inner) && IsBlank(ws)
    ensures ParsePrimary("(" + (PrintOr(inner) + (ws + ")")) + post, ctx) == (BoolText(MeanOr(inner, ctx)), post)
    decreases inner, 1
  {
    hide ParsePrimary, ParseOr, EvalFunction, EvalIdent, PrintOr, MeanOr, WfOr, IsSuffix;
    var s := "(" + (PrintOr(inner) + (ws + ")")) + post;
    PrimaryStep(s, ctx);
    var after := ws + (")" + post);
    assert s == "(" + (PrintOr(inner) + after);
    assert s[1..] == PrintOr(inner) + after;
    SkipTo(ws, ")" + post);
    OrReads(inner, after, ctx);
    assert Skip(")" + post) == ")" + post;
    assert (")" + post)[1..] == post;
  }

  lemma {:induction false} PrimaryReads(e: Primary, post: string, ctx: Option<Context>)
    requires WfPrimary(e) && Follows(post)
    ensures var r := ParsePrimary(PrintPrimary(e) + post, ctx);
            r.0 == MeanPrimary(e, ctx) && Skip(r.1) == Skip(post)
    decreases e
  {
    hide ParsePrimary, EvalFunction, EvalIdent, PrintOr, MeanOr, WfOr, Skip;
    match e
    case Paren(inner, ws) => ParenReads(inner, ws, post, ctx);
    case Quoted(body) => QuotedReads(body, post, ctx);
    case Ident(name) =>
      IdentReads(name, post, ctx);
      SkipSkip(post);
    case Call(fn, gap, ws) => CallReads(fn, gap, ws, post, ctx);
  }

  lemma {:induction false} PrimaryStart(e: Primary)
    requires WfPrimary(e)
    ensures var s := PrintPrimary(e); s != [] && !IsSpace(s[0]) && s[0] != '!'
  {
  }

  /** Space, and then an operand that is read as said. */
  lemma PlainReads(before: string, operand: string, ctx: Option<Context>)
    requires IsBlank(before) && operand != [] && !IsSpace(operand[0]) && operand[0] != '!'
    ensures ParseUnary(before + operand, ctx) == ParsePrimary(operand, ctx)
  {
    hide ParsePrimary, ParseUnary, ParseOr, EvalFunction, EvalIdent, IdentLength, QuoteIndex, IsSuffix, IsTruthy, BoolText;
    UnaryStep(before + operand, ctx);
    SkipTo(before, operand);
  }

  lemma NotReads(before: string, gap: string, operand: string, ctx: Option<Context>)
    requires IsBlank(before) && IsBlank(gap) && operand != [] && !IsSpace(operand[0])
    ensures var r := ParsePrimary(operand, ctx);
            ParseUnary(before + ("!" + (gap + operand)), ctx) == (BoolText(!IsTruthy(r.0)), r.1)
  {
    hide ParsePrimary, ParseUnary, ParseOr, EvalFunction, EvalIdent, IdentLength, QuoteIndex, IsSuffix, IsTruthy, BoolText;
    var s := "!" + (gap + operand);
    UnaryStep(before + s, ctx);
    SkipTo(before, s);
    assert s[1..] == gap + operand;
    PrimaryStep(gap + operand, ctx);
    PrimaryStep(operand, ctx);
    SkipTo(gap, operand);
    assert Skip(operand) == operand;
  }

  lemma {:induction false} UnaryReads(e: Unary, post: string, ctx: Option<Context>)
    requires WfUnary(e) && Follows(post)
    ensures var r := ParseUnary(PrintUnary(e) + post, ctx);
            r.0 == MeanUnary(e, ctx) && Skip(r.1) == Skip(post)
    decreases e
  {
    hide ParsePrimary, ParseUnary, ParseOr, PrintPrimary, MeanPrimary, WfPrimary, IsSuffix, EvalFunction, EvalIdent,
         IdentLength, QuoteIndex, Skip, Follows, IsBlank, IsTruthy, BoolText;
    var operand := PrintPrimary(e.arg) + post;
    PrimaryStart(e.arg);
    PrimaryReads(e.arg, post, ctx);
    match e
    case Plain(before, arg) =>
      assert PrintUnary(e) + post == before + operand;
      PlainReads(before, operand, ctx);
    case Not(before, gap, arg) =>
      assert PrintUnary(e) + post == before + ("!" + (gap + operand));
      NotReads(before, gap, operand, ctx);
  }

  lemma {:induction false} ComparisonReads(e: Comparison, post: string, ctx: Option<Context>)
    requires WfComparison(e) && Follows(post) && NoComparison(post)
    ensures var r := ParseComparison(PrintComparison(e) + post, ctx);
            r.0 == MeanComparison(e, ctx) && Skip(r.1) == Skip(post)
    decreases e
  {
    hide ParseUnary, ParseComparison, PrintUnary, MeanUnary, WfUnary, IsSuffix;
    var s := PrintComparison(e) + post;
    ComparisonStep(s, ctx);
    match e
    case Truth(u) =>
      UnaryReads(u, post, ctx);
      SkipSkip(post);
    case Compare(l, gap, equal, r) =>
      var op := if equal then "==" else "!=";
      var after := gap + (op + (PrintUnary(r) + post));
      assert s == PrintUnary(l) + after;
      SkipTo(gap, op + (PrintUnary(r) + post));
      UnaryReads(l, after, ctx);
      var t := op + (PrintUnary(r) + post);
      assert t[..2] == op && t[2..] == PrintUnary(r) + post;
      UnaryReads(r, post, ctx);
  }

  lemma AndTailFollows(e: AndTail, post: string)
    requires WfAndTail(e) && Follows(post) && NoComparison(post)
    ensures Follows(PrintAndTail(e) + post) && NoComparison(PrintAndTail(e) + post)
  {
    hide PrintComparison, WfComparison, IsSuffix, Skip;
    match e
    case AndEnd => assert PrintAndTail(e) + post == post;
    case AndMore(gap, item, rest) =>
      var after := "&&" + (PrintComparison(item) + PrintAndTail(rest) + post);
      assert PrintAndTail(e) + post == gap + after;
      SkipTo(gap, after);
  }

  lemma {:induction false} AndTailReads(left: bool, s: string, e: AndTail, post: string, ctx: Option<Context>)
    requires WfAndTail(e) && Follows(post) && NoComparison(post) && !StartsWith(Skip(post), "&&")
    requires Skip(s) == Skip(PrintAndTail(e) + post)
    ensures AndLoop(left, s, ctx) == (left && MeanAndTail(e, ctx), Skip(post))
    decreases e
  {
    hide ParseComparison, AndLoop, PrintComparison, MeanComparison, WfComparison, IsSuffix;
    AndLoopStep(left, s, ctx);
    match e
    case AndEnd => assert PrintAndTail(e) + post == post;
    case AndMore(gap, item, rest) =>
      var next := PrintAndTail(rest) + post;
      var t := "&&" + (PrintComparison(item) + next);
      assert PrintAndTail(e) + post == gap + t;
      SkipTo(gap, t);
      assert t[..2] == "&&" && t[2..] == PrintComparison(item) + next;
      AndTailFollows(rest, post);
      ComparisonReads(item, next, ctx);
      var r := ParseComparison(t[2..], ctx);
      AndTailReads(left && r.0, r.1, rest, post, ctx);
  }

  lemma {:induction false} AndReads(e: AndExpr, post: string, ctx: Option<Context>)
    requires WfAnd(e) && Follows(post) && NoComparison(post) && !StartsWith(Skip(post), "&&")
    ensures ParseAnd(PrintAnd(e) + post, ctx) == (MeanAnd(e, ctx), Skip(post))
    decreases e
  {
    hide ParseComparison, AndLoop, ParseAnd, PrintComparison, PrintAndTail, WfComparison, WfAndTail, MeanComparison, MeanAndTail, IsSuffix;
    var after := PrintAndTail(e.tail) + post;
    assert PrintAnd(e) + post == PrintComparison(e.head) + after;
    AndStep(PrintAnd(e) + post, ctx);
    AndTailFollows(e.tail, post);
    ComparisonReads(e.head, after, ctx);
    var r := ParseComparison(PrintComparison(e.head) + after, ctx);
    AndTailReads(r.0, r.1, e.tail, post, ctx);
  }

  /** After a whole expression comes neither an operator nor something that an operand would swallow. */
  predicate Ends(post: string) {
    Follows(post) && NoComparison(post) && !StartsWith(Skip(post), "&&") && !StartsWith(Skip(post), "||")
  }

  lemma OrTailFollows(e: OrTail, post: string)
    requires WfOrTail(e) && Ends(post)
    ensures var after := PrintOrTail(e) + post;
            Follows(after) && NoComparison(after) && !StartsWith(Skip(after), "&&")
  {
    hide PrintAnd, WfAnd, IsSuffix, Skip;
    match e
    case OrEnd => assert PrintOrTail(e) + post == post;
    case OrMore(gap, item, rest) =>
      var after := "||" + (PrintAnd(item) + PrintOrTail(rest) + post);
      assert PrintOrTail(e) + post == gap + after;
      SkipTo(gap, after);
  }

  lemma {:induction false} OrTailReads(left: bool, s: string, e: OrTail, post: string, ctx: Option<Context>)
    requires WfOrTail(e) && Ends(post)
    requires Skip(s) == Skip(PrintOrTail(e) + post)
    ensures OrLoop(left, s, ctx) == (left || MeanOrTail(e, ctx), Skip(post))
    decreases e
  {
    hide ParseAnd, OrLoop, PrintAnd, MeanAnd, WfAnd, IsSuffix;
    OrLoopStep(left, s, ctx);
    match e
    case OrEnd => assert PrintOrTail(e) + post == post;
    case OrMore(gap, item, rest) =>
      var next := PrintOrTail(rest) + post;
      var t := "||" + (PrintAnd(item) + next);
      assert PrintOrTail(e) + post == gap + t;
      SkipTo(gap, t);
      assert t[..2] == "||" && t[2..] == PrintAnd(item) + next;
      OrTailFollows(rest, post);
      AndReads(item, next, ctx);
      SkipSkip(next);
      OrTailReads(left || MeanAnd(item, ctx), Skip(next), rest, post, ctx);
  }

  /** The heart: any well-formed expression, any white space, any text after it that could not be part of it. */
  lemma {:induction false} OrReads(e: OrExpr, post: string, ctx: Option<Context>)
    requires WfOr(e) && Ends(post)
    ensures ParseOr(PrintOr(e) + post, ctx) == (MeanOr(e, ctx), Skip(post))
    decreases e, 0
  {
    hide ParseAnd, OrLoop, ParseOr, PrintAnd, PrintOrTail, WfAnd, WfOrTail, MeanAnd, MeanOrTail, IsSuffix;
    var after := PrintOrTail(e.tail) + post;
    assert PrintOr(e) + post == PrintAnd(e.head) + after;
    OrStep(PrintOr(e) + post, ctx);
    OrTailFollows(e.tail, post);
    AndReads(e.head, after, ctx);
    SkipSkip(after);
    OrTailReads(MeanAnd(e.head, ctx), Skip(after), e.tail, post, ctx);
  }

  /** On the printed text alone the parser gives the meaning and stops exactly at the end. */
  lemma ParsePrinted(e: OrExpr, ctx: Option<Context>)
    requires WfOr(e)
    ensures ParseOr(PrintOr(e), ctx) == (MeanOr(e, ctx), "")
  {
    hide ParseOr, PrintOr, MeanOr, WfOr;
    OrReads(e, "", ctx);
    assert PrintOr(e) + "" == PrintOr(e);
  }

  // ---------- The whole of EvalExpr: outer space and the ${{ }} wrapper ----------

  predicate IsAsciiBlank(ws: string) {
    forall i :: 0 <= i < |ws| ==> IsAsciiSpace(ws[i])
  }

  /** Neither end of the text is a space to strings.TrimSpace. */
  predicate IsTrimmed(s: string) {
    LeadingSpace(s) == 0 && TrailingSpace(s) == 0
  }

  lemma {:induction false} TrimLeftBlank(ws: string, s: string)
    requires IsAsciiBlank(ws)
    ensures TrimLeft(ws + s) == TrimLeft(s)
  {
    if ws == [] {
      assert ws + s == s;
    } else {
      assert (ws + s)[1..] == ws[1..] + s;
      TrimLeftBlank(ws[1..], s);
    }
  }

  lemma {:induction false} TrimRightBlank(s: string, ws: string)
    requires IsAsciiBlank(ws)
    ensures TrimRight(s + ws) == TrimRight(s)
  {
    if ws == [] {
      assert s + ws == s;
    } else {
      var n := |ws| - 1;
      assert (s + ws)[..|s + ws| - 1] == s + ws[..n];
      TrimRightBlank(s, ws[..n]);
    }
  }

  /** White space behind a text cannot turn its first bytes into a white-space rune. */
  lemma LeadingSpaceStable(s: string, ws: string)
    requires s != [] && LeadingSpace(s) == 0 && IsAsciiBlank(ws)
    ensures LeadingSpace(s + ws) == 0
  {
    var t := s + ws;
    if |t| >= 2 {
      assert |s| >= 2 ==> t[..2] == s[..2];
      assert |s| < 2 ==> t[1] == ws[0];
    }
    if |t| >= 3 {
      assert |s| >= 3 ==> t[..3] == s[..3];
      assert |s| < 3 ==> t[2] == ws[2 - |s|];
    }
  }

  lemma TrimSurrounded(lead: string, s: string, trail: string)
    requires s != [] && IsTrimmed(s) && IsAsciiBlank(lead) && IsAsciiBlank(trail)
    ensures TrimSpace(lead + s + trail) == s
  {
    hide LeadingSpace, TrailingSpace;
    assert lead + s + trail == lead + (s + trail);
    TrimLeftBlank(lead, s + trail);
    LeadingSpaceStable(s, trail);
    TrimRightBlank(s, trail);
  }

  lemma {:induction false} PrintNonEmpty(e: OrExpr)
    requires WfOr(e)
    ensures PrintOr(e) != []
  {
    assert WfAnd(e.head) && WfComparison(e.head.head);
    var c := e.head.head;
    var u := if c.Truth? then c.operand else c.left;
    assert WfUnary(u);
    PrimaryStart(u.arg);
    assert |PrintUnary(u)| > 0;
    assert |PrintComparison(c)| > 0;
    assert |PrintAnd(e.head)| > 0;
  }

  /** EvalExpr on a printed expression, bare: it is the meaning, unless the text itself looks like a wrapper. */
  lemma EvalPrinted(e: OrExpr, lead: string, trail: string, ctx: Option<Context>)
    requires WfOr(e) && IsTrimmed(PrintOr(e)) && !IsWrapped(PrintOr(e))
    requires IsAsciiBlank(lead) && IsAsciiBlank(trail)
    ensures Eval(lead + PrintOr(e) + trail, ctx) == MeanOr(e, ctx)
  {
    hide ParseOr, PrintOr, MeanOr, WfOr, TrimSpace;
    PrintNonEmpty(e);
    TrimSurrounded(lead, PrintOr(e), trail);
    ParsePrinted(e, ctx);
  }

  /** EvalExpr on a printed expression inside the wrapper: always the meaning. */
  lemma EvalWrapped(e: OrExpr, lead: string, l: string, t: string, trail: string, ctx: Option<Context>)
    requires WfOr(e) && IsTrimmed(PrintOr(e))
    requires IsAsciiBlank(lead) && IsAsciiBlank(l) && IsAsciiBlank(t) && IsAsciiBlank(trail)
    ensures Eval(lead + ("${{" + (l + PrintOr(e) + t) + "}}") + trail, ctx) == MeanOr(e, ctx)
  {
    hide ParseOr, PrintOr, MeanOr, WfOr, TrimSpace;
    var body := l + PrintOr(e) + t;
    var s := "${{" + body + "}}";
    PrintNonEmpty(e);
    WrappedIsTrimmed(body);
    TrimSurrounded(lead, s, trail);
    assert s[..3] == "${{" && s[|s| - 2..] == "}}" && s[3..|s| - 2] == body;
    TrimSurrounded(l, PrintOr(e), t);
    ParsePrinted(e, ctx);
  }

  lemma WrappedIsTrimmed(body: string)
    ensures IsTrimmed("${{" + body + "}}")
  {
    var s := "${{" + body + "}}";
    assert s[0] == '$' && s[|s| - 1] == '}';
    assert s[|s| - 2..][1] == '}' && s[|s| - 3..][2] == '}';
  }

  /** The expression that is a single operand. */
  function Single(p: Primary): OrExpr {
    OrExpr(AndExpr(Truth(Plain("", p)), AndEnd), OrEnd)
  }

  lemma SingleIs(p: Primary, ctx: Option<Context>)
    requires WfPrimary(p)
    ensures WfOr(Single(p)) && PrintOr(Single(p)) == PrintPrimary(p)
    ensures MeanOr(Single(p), ctx) == IsTruthy(MeanPrimary(p, ctx))
  {
    hide EvalIdent, EvalFunction;
    var u := Plain("", p);
    var c := Truth(u);
    AloneIs(c, ctx);
    assert WfUnary(u) && MeanUnary(u, ctx) == MeanPrimary(p, ctx) && PrintUnary(u) == PrintPrimary(p);
    assert WfComparison(c) && MeanComparison(c, ctx) == IsTruthy(MeanPrimary(p, ctx));
    assert PrintComparison(c) == PrintPrimary(p);
  }

  /** The expression that is a single comparison. */
  lemma AloneIs(c: Comparison, ctx: Option<Context>)
    requires WfComparison(c)
    ensures var e := OrExpr(AndExpr(c, AndEnd), OrEnd);
            WfOr(e) && PrintOr(e) == PrintComparison(c) && MeanOr(e, ctx) == MeanComparison(c, ctx)
  {
    hide MeanComparison, WfComparison, PrintComparison;
    var a := AndExpr(c, AndEnd);
    assert WfAndTail(AndEnd) && WfAnd(a);
    assert MeanAndTail(AndEnd, ctx) && MeanAnd(a, ctx) == MeanComparison(c, ctx);
    assert PrintAndTail(AndEnd) == "" && PrintComparison(c) + "" == PrintComparison(c);
    assert PrintAnd(a) == PrintComparison(c) && PrintComparison(c) + "" == PrintComparison(c);
    assert WfOrTail(OrEnd) && !MeanOrTail(OrEnd, ctx) && PrintOrTail(OrEnd) == "";
  }

  /** The expression that is a single name. */
  function NameExpr(name: string): OrExpr {
    Single(Ident(name))
  }

  lemma NameExprIs(name: string, ctx: Option<Context>)
    requires IsName(name)
    ensures WfOr(NameExpr(name)) && PrintOr(NameExpr(name)) == name
    ensures MeanOr(NameExpr(name), ctx) == IsTruthy(EvalIdent(name, ctx))
  {
    hide EvalIdent, PrintOr, MeanOr, WfOr;
    SingleIs(Ident(name), ctx);
  }

  /** Why EvalPrinted needs its condition: this name has one meaning to the grammar and another to EvalExpr. */
  lemma NameThatLooksWrapped()
    ensures var e := NameExpr("${{0}}");
            && WfOr(e) && IsTrimmed(PrintOr(e)) && IsWrapped(PrintOr(e))
            && MeanOr(e, None) && !Eval(PrintOr(e), None)
  {
    hide PrintOr, MeanOr, WfOr, Eval, TrimSpace;
    var name := "${{0}}";
    NameExprIs(name, None);
    NameExprIs("0", None);
    WrappedIsTrimmed("0");
    assert "${{" + "0" + "}}" == name;
    EvalWrapped(NameExpr("0"), "", "", "", "", None);
    assert "" + ("${{" + ("" + "0" + "") + "}}") + "" == name;
  }

  /** No expression at all is true; an empty wrapper is false. */
  lemma EmptyExpressions(lead: string, l: string, trail: string, ctx: Option<Context>)
    requires IsAsciiBlank(lead) && IsAsciiBlank(l) && IsAsciiBlank(trail)
    ensures Eval(lead, ctx)
    ensures !Eval(lead + ("${{" + l + "}}") + trail, ctx)
  {
    hide ParseOr, TrimSpace;
    BlankTrimsAway(lead);
    BlankTrimsAway(l);
    var s := "${{" + l + "}}";
    WrappedIsTrimmed(l);
    TrimSurrounded(lead, s, trail);
    assert s[..3] == "${{" && s[|s| - 2..] == "}}" && s[3..|s| - 2] == l;
    EmptyParse(ctx);
  }

  lemma BlankTrimsAway(ws: string)
    requires IsAsciiBlank(ws)
    ensures TrimSpace(ws) == ""
  {
    TrimLeftBlank(ws, "");
    assert ws + "" == ws;
  }

  lemma EmptyParse(ctx: Option<Context>)
    ensures ParseOr("", ctx) == (false, "")
  {
    hide ParsePrimary, ParseUnary, ParseComparison, AndLoop, ParseAnd, OrLoop, ParseOr;
    OrStep("", ctx);
    AndStep("", ctx);
    ComparisonStep("", ctx);
    UnaryStep("", ctx);
    PrimaryStep("", ctx);
    AndLoopStep(false, "", ctx);
    OrLoopStep(false, "", ctx);
  }
}
