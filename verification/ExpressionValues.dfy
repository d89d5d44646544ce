/** What calls, names and literals amount to in EvalExpr, said without the functions that the evaluator is made of. */
module ExpressionValues {
  import opened Expressions
  import opened ExpressionSyntax
  import opened Options

  // ---------- Functions ----------

  /** The four functions of the evaluator, on the results of the jobs that this one needs. Any other call, and any call
      without a context, is false. */
  ghost predicate CallHolds(fn: string, ctx: Option<Context>) {
    ctx.Some? &&
    var deps := ctx.value.depResults;
    || (fn == "success" && forall d <- deps :: deps[d] in {"success", "skipped"})
    || (fn == "failure" && "failure" in deps.Values)
    || fn == "always"
    || (fn == "cancelled" && ctx.value.cancelled)
  }

  lemma CallValue(fn: string, gap: string, ws: string, ctx: Option<Context>)
    ensures MeanPrimary(Call(fn, gap, ws), ctx) == if CallHolds(fn, ctx) then "true" else "false"
  {
    if ctx.Some? {
      var deps := ctx.value.depResults;
      assert (exists d <- deps :: deps[d] == "failure") <==> "failure" in deps.Values;
    }
  }

  // ---------- Names ----------

  /** A literal, the value of the context, or else the name itself. */
  ghost predicate NameIs(name: string, ctx: Option<Context>, v: string) {
    if name in {"true", "false"} then v == name
    else (ctx.Some? && name in ctx.value.values && v == ctx.value.values[name])
         || ((ctx.None? || name !in ctx.value.values) && v == name)
  }

  lemma NameValue(name: string, ctx: Option<Context>, v: string)
    ensures MeanPrimary(Ident(name), ctx) == v <==> NameIs(name, ctx, v)
  {
  }

  // ---------- Whole texts ----------

  lemma SpacesEndHigh(t: string)
    ensures IsSpace2(t) ==> t[1] as int >= 128
    ensures IsSpace3(t) ==> t[2] as int >= 128
  {
  }

  /** A text that ends with ASCII that is no space is not trimmed at its end. */
  lemma PlainEnd(s: string)
    requires s != [] && s[|s| - 1] as int < 128 && !IsAsciiSpace(s[|s| - 1])
    ensures TrailingSpace(s) == 0
  {
    hide IsSpace2, IsSpace3;
    if |s| >= 2 {
      SpacesEndHigh(s[|s| - 2..]);
    }
    if |s| >= 3 {
      SpacesEndHigh(s[|s| - 3..]);
    }
  }

  lemma PlainStart(s: string)
    requires s != [] && s[0] as int < 128 && !IsAsciiSpace(s[0])
    ensures LeadingSpace(s) == 0
  {
  }

  function CallText(fn: string, gap: string, ws: string): string {
    fn + gap + "(" + ws + ")"
  }

  lemma CallTrimmed(fn: string, gap: string, ws: string)
    requires IsName(fn) && fn[0] as int < 128
    ensures LeadingSpace(CallText(fn, gap, ws)) == 0
  {
    assert CallText(fn, gap, ws)[0] == fn[0];
    assert !IsSpace(fn[0]);
  }

  /** EvalExpr on a call, alone or in the wrapper, with any white space: whether the call holds. Only a name whose first
      bytes are a space of several bytes is left out; no name that begins with ASCII is one. */
  lemma CallEval(fn: string, gap: string, ws: string, lead: string, l: string, t: string, trail: string, ctx: Option<Context>)
    requires IsName(fn) && LeadingSpace(CallText(fn, gap, ws)) == 0
    requires IsBlank(gap) && IsBlank(ws)
    requires IsAsciiBlank(lead) && IsAsciiBlank(l) && IsAsciiBlank(t) && IsAsciiBlank(trail)
    ensures Eval(lead + CallText(fn, gap, ws) + trail, ctx) <==> CallHolds(fn, ctx)
    ensures Eval(lead + ("${{" + (l + CallText(fn, gap, ws) + t) + "}}") + trail, ctx) <==> CallHolds(fn, ctx)
  {
    hide Eval, PrintOr, MeanOr, WfOr, MeanPrimary, CallHolds, LeadingSpace, TrailingSpace;
    var p := Call(fn, gap, ws);
    var text := CallText(fn, gap, ws);
    assert PrintPrimary(p) == text;
    SingleIs(p, ctx);
    CallValue(fn, gap, ws, ctx);
    assert text[|text| - 1] == ')';
    PlainEnd(text);
    assert !IsWrapped(text) by {
      assert |text| >= 2 ==> text[|text| - 2..][1] == ')';
    }
    EvalPrinted(Single(p), lead, trail, ctx);
    EvalWrapped(Single(p), lead, l, t, trail, ctx);
  }

  /** An operand compared with a literal. */
  function Compared(p: Primary, body: string): Comparison {
    Compare(Plain("", p), " ", true, Plain(" ", Quoted(body)))
  }

  function ComparedText(p: Primary, body: string): string {
    PrintPrimary(p) + " == '" + body + "'"
  }

  lemma ComparedIs(p: Primary, body: string, ctx: Option<Context>)
    requires WfPrimary(p) && '\'' !in body
    ensures WfComparison(Compared(p, body)) && PrintComparison(Compared(p, body)) == ComparedText(p, body)
    ensures MeanComparison(Compared(p, body), ctx) <==> MeanPrimary(p, ctx) == body
  {
    hide EvalIdent, EvalFunction, MeanOr, WfOr, PrintOr;
    OperandIs("", p, ctx);
    OperandIs(" ", Quoted(body), ctx);
    Glue(PrintPrimary(p), body);
  }

  lemma OperandIs(before: string, p: Primary, ctx: Option<Context>)
    requires WfPrimary(p) && IsBlank(before)
    ensures var u := Plain(before, p);
            WfUnary(u) && PrintUnary(u) == before + PrintPrimary(p) && MeanUnary(u, ctx) == MeanPrimary(p, ctx)
  {
    hide EvalIdent, EvalFunction, WfPrimary, PrintPrimary, MeanPrimary;
  }

  lemma Glue(a: string, body: string)
    ensures a + " == '" + body + "'" == ("" + a) + (" " + ("==" + (" " + ("'" + (body + "'")))))
  {
    var l := a + " == '" + body + "'";
    assert l == a + (" == '" + body + "'");
    assert " " + ("==" + (" " + ("'" + (body + "'")))) == " == '" + body + "'";
  }

  /** EvalExpr on an operand compared with a literal: whether the literal is its value. */
  lemma ComparedEval(p: Primary, body: string, ctx: Option<Context>)
    requires WfPrimary(p) && '\'' !in body && LeadingSpace(ComparedText(p, body)) == 0
    ensures Eval(ComparedText(p, body), ctx) <==> MeanPrimary(p, ctx) == body
  {
    hide Eval, PrintOr, MeanOr, WfOr, MeanPrimary, MeanComparison, WfComparison, PrintComparison, PrintPrimary, WfPrimary,
         LeadingSpace, TrailingSpace;
    var c := Compared(p, body);
    ComparedIs(p, body, ctx);
    AloneIs(c, ctx);
    var text := ComparedText(p, body);
    assert text[|text| - 1] == '\'';
    PlainEnd(text);
    assert !IsWrapped(text) by {
      assert |text| >= 2 ==> text[|text| - 2..][1] == '\'';
    }
    EvalPrinted(OrExpr(AndExpr(c, AndEnd), OrEnd), "", "", ctx);
    assert "" + text + "" == text;
  }

  /** A name compared with a literal, and a name alone. */
  lemma NameEval(name: string, body: string, ctx: Option<Context>)
    requires IsName(name) && '\'' !in body && LeadingSpace(ComparedText(Ident(name), body)) == 0
    ensures Eval(name + " == '" + body + "'", ctx) <==> NameIs(name, ctx, body)
  {
    hide Eval, NameIs, MeanPrimary, LeadingSpace;
    ComparedEval(Ident(name), body, ctx);
    NameValue(name, ctx, body);
    assert PrintPrimary(Ident(name)) == name;
  }

  /** A call compared with a literal: its text is "true" or "false". */
  lemma CallCompared(fn: string, gap: string, ws: string, body: string, ctx: Option<Context>)
    requires IsName(fn) && IsBlank(gap) && IsBlank(ws) && '\'' !in body
    requires LeadingSpace(ComparedText(Call(fn, gap, ws), body)) == 0
    ensures Eval(CallText(fn, gap, ws) + " == '" + body + "'", ctx) <==>
            body == if CallHolds(fn, ctx) then "true" else "false"
  {
    hide Eval, CallHolds, MeanPrimary, LeadingSpace;
    ComparedEval(Call(fn, gap, ws), body, ctx);
    CallValue(fn, gap, ws, ctx);
    assert PrintPrimary(Call(fn, gap, ws)) == CallText(fn, gap, ws);
  }

  // ---------- Truth ----------

  /** A literal is true unless it is empty, "false" or "0"; and it can be negated. */
  lemma LiteralEval(body: string, ctx: Option<Context>)
    requires '\'' !in body
    ensures Eval("'" + body + "'", ctx) <==> body !in {"", "false", "0"}
    ensures Eval("!'" + body + "'", ctx) <==> body in {"", "false", "0"}
  {
    hide Eval, MeanComparison, WfComparison, PrintComparison;
    PlainIs(body, ctx);
    TruthEval(Truth(Plain("", Quoted(body))), "'" + body + "'", ctx);
    NegatedIs(body, ctx);
    TruthEval(Truth(Not("", "", Quoted(body))), "!'" + body + "'", ctx);
  }

  lemma TruthEval(c: Comparison, text: string, ctx: Option<Context>)
    requires WfComparison(c) && PrintComparison(c) == text
    requires |text| >= 2 && text[0] in {'\'', '!'} && text[|text| - 1] == '\''
    ensures Eval(text, ctx) <==> MeanComparison(c, ctx)
  {
    hide Eval, PrintOr, MeanOr, WfOr, MeanComparison, WfComparison, PrintComparison, LeadingSpace, TrailingSpace, IsWrapped;
    AloneIs(c, ctx);
    LiteralText(text);
    EvalPrinted(OrExpr(AndExpr(c, AndEnd), OrEnd), "", "", ctx);
    assert "" + text + "" == text;
  }

  lemma PlainIs(body: string, ctx: Option<Context>)
    requires '\'' !in body
    ensures var c := Truth(Plain("", Quoted(body)));
            && WfComparison(c) && PrintComparison(c) == "'" + body + "'"
            && (MeanComparison(c, ctx) <==> body !in {"", "false", "0"})
  {
    hide EvalIdent, EvalFunction, MeanOr, WfOr, PrintOr;
    OperandIs("", Quoted(body), ctx);
    assert WfPrimary(Quoted(body)) && MeanPrimary(Quoted(body), ctx) == body;
    assert PrintPrimary(Quoted(body)) == "'" + (body + "'") == "'" + body + "'";
  }

  lemma LiteralText(s: string)
    requires |s| >= 2 && s[0] in {'\'', '!'} && s[|s| - 1] == '\''
    ensures IsTrimmed(s) && !IsWrapped(s)
  {
    PlainStart(s);
    PlainEnd(s);
    assert s[|s| - 2..][1] == '\'';
  }

  lemma NegatedIs(body: string, ctx: Option<Context>)
    requires '\'' !in body
    ensures var c := Truth(Not("", "", Quoted(body)));
            && WfComparison(c) && PrintComparison(c) == "!'" + body + "'"
            && (MeanComparison(c, ctx) <==> body in {"", "false", "0"})
  {
    var p := Quoted(body);
    var u := Not("", "", p);
    assert WfPrimary(p) && WfUnary(u);
    assert PrintPrimary(p) == "'" + (body + "'");
    assert PrintUnary(u) == "" + ("!" + ("" + PrintPrimary(p))) == "!'" + body + "'";
    assert MeanUnary(u, ctx) == BoolText(!IsTruthy(body));
  }

  // ---------- What is not closed ----------

  predicate NotClosed(post: string) {
    Skip(post) == "" || Skip(post)[0] != ')'
  }

  /** A missing quote is as good as there at the end. So is a closing parenthesis, wherever it is missing: what comes
      instead, such as the arguments of a call, is left to be read. */
  lemma UnclosedReads(e: OrExpr, body: string, fn: string, gap: string, post: string, ctx: Option<Context>)
    requires WfOr(e) && '\'' !in body && IsName(fn) && IsBlank(gap) && NotClosed(post)
    ensures ParsePrimary("'" + body, ctx) == (body, "")
    ensures Ends(post) ==>
              ParsePrimary("(" + (PrintOr(e) + post), ctx) == (if MeanOr(e, ctx) then "true" else "false", Skip(post))
    ensures ParsePrimary(fn + (gap + ("(" + post)), ctx) == (MeanPrimary(Call(fn, gap, ""), ctx), Skip(post))
  {
    UnclosedQuote(body, ctx);
    if Ends(post) {
      UnclosedParen(e, post, ctx);
    }
    UnclosedCall(fn, gap, post, ctx);
  }

  lemma UnclosedQuote(body: string, ctx: Option<Context>)
    requires '\'' !in body
    ensures ParsePrimary("'" + body, ctx) == (body, "")
  {
    hide ParsePrimary, ParseOr, EvalFunction, EvalIdent, IsSuffix;
    var s := "'" + body;
    PrimaryStep(s, ctx);
    assert s[1..] == body && Skip(s) == s;
    assert QuoteIndex(body) == |body| && body[..|body|] == body;
  }

  lemma UnclosedParen(e: OrExpr, post: string, ctx: Option<Context>)
    requires WfOr(e) && Ends(post) && NotClosed(post)
    ensures ParsePrimary("(" + (PrintOr(e) + post), ctx) == (if MeanOr(e, ctx) then "true" else "false", Skip(post))
  {
    hide ParsePrimary, ParseOr, EvalFunction, EvalIdent, PrintOr, MeanOr, WfOr, IsSuffix;
    var s := "(" + (PrintOr(e) + post);
    PrimaryStep(s, ctx);
    assert s[1..] == PrintOr(e) + post && Skip(s) == s;
    OrReads(e, post, ctx);
    SkipSkip(post);
  }

  lemma UnclosedCall(fn: string, gap: string, post: string, ctx: Option<Context>)
    requires IsName(fn) && IsBlank(gap) && NotClosed(post)
    ensures ParsePrimary(fn + (gap + ("(" + post)), ctx) == (MeanPrimary(Call(fn, gap, ""), ctx), Skip(post))
  {
    hide ParsePrimary, ParseOr, EvalFunction, EvalIdent, IsSuffix;
    var s := fn + (gap + ("(" + post));
    PrimaryStep(s, ctx);
    var after := gap + ("(" + post);
    SkipTo(gap, "(" + post);
    IdentLengthIs(fn, after);
    assert s[..|fn|] == fn && s[|fn|..] == after && Skip(s) == s;
    assert ("(" + post)[1..] == post;
  }
}
