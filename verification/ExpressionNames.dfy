/** Exactly which names EvalExpr takes for what they are, and what it makes of the others. */
module ExpressionNames {
  import opened Expressions
  import opened ExpressionSyntax
  import opened Options

  /** The text that EvalExpr hands to the parser. */
  function Seen(text: string): string {
    var e := TrimSpace(text);
    if IsWrapped(e) then TrimSpace(e[3..|e| - 2]) else e
  }

  predicate AllIdent(s: string) {
    forall i :: 0 <= i < |s| ==> IsIdentChar(s[i])
  }

  // ---------- What trimming does ----------

  lemma {:induction false} TrimLeftSlice(s: string)
    ensures |TrimLeft(s)| <= |s| && TrimLeft(s) == s[|s| - |TrimLeft(s)|..]
    ensures TrimLeft(s) == s <==> LeadingSpace(s) == 0
    ensures LeadingSpace(TrimLeft(s)) == 0
  {
    hide LeadingSpace;
    var n := LeadingSpace(s);
    if n != 0 {
      TrimLeftSlice(s[n..]);
      var t := TrimLeft(s[n..]);
      assert s[n..][|s| - n - |t|..] == s[|s| - |t|..];
    }
  }

  lemma {:induction false} TrimRightSlice(s: string)
    ensures |TrimRight(s)| <= |s| && TrimRight(s) == s[..|TrimRight(s)|]
    ensures TrimRight(s) == s <==> TrailingSpace(s) == 0
  {
    hide TrailingSpace;
    var n := TrailingSpace(s);
    if n != 0 {
      TrimRightSlice(s[..|s| - n]);
    }
  }

  /** Trimming keeps a stretch of the text, and all of it exactly if there is nothing to trim. */
  lemma TrimSlice(s: string)
    ensures |TrimSpace(s)| <= |s|
    ensures TrimSpace(s) == s <==> IsTrimmed(s)
    ensures TrimSpace(s) != s ==> |TrimSpace(s)| < |s|
    ensures AllIdent(s) ==> AllIdent(TrimSpace(s))
  {
    hide LeadingSpace, TrailingSpace, TrimLeft, TrimRight, IsIdentChar;
    TrimLeftSlice(s);
    TrimRightSlice(TrimLeft(s));
    assert |TrimSpace(s)| == |s| ==> TrimLeft(s) == s && TrimSpace(s) == s;
  }

  lemma SeenSlice(s: string)
    requires AllIdent(s)
    ensures AllIdent(Seen(s))
    ensures Seen(s) == s <==> IsTrimmed(s) && !IsWrapped(s)
  {
    hide TrimSpace, IsTrimmed, IsIdentChar;
    TrimSlice(s);
    var e := TrimSpace(s);
    if IsWrapped(e) {
      assert AllIdent(e[3..|e| - 2]);
      TrimSlice(e[3..|e| - 2]);
    }
  }

  // ---------- Names ----------

  /** A text of identifier bytes is read as the name it is, or as nothing. */
  lemma ParseName(u: string, ctx: Option<Context>)
    requires AllIdent(u)
    ensures ParseOr(u, ctx).0 == (u != "" && IsTruthy(EvalIdent(u, ctx)))
  {
    hide ParseOr, PrintOr, MeanOr, WfOr, EvalIdent;
    if u == "" {
      EmptyParse(ctx);
    } else {
      NameExprIs(u, ctx);
      ParsePrinted(NameExpr(u), ctx);
    }
  }

  lemma EvalSeen(name: string, ctx: Option<Context>)
    requires AllIdent(name)
    ensures Eval(name, ctx) == (TrimSpace(name) == "" || (Seen(name) != "" && IsTruthy(EvalIdent(Seen(name), ctx))))
  {
    hide ParseOr, TrimSpace, EvalIdent;
    SeenSlice(name);
    ParseName(Seen(name), ctx);
  }

  /** The literals, and 0, have nothing to trim or unwrap. */
  lemma LiteralsSeen(s: string)
    requires s in {"true", "false", "0"}
    ensures IsTrimmed(s) && !IsWrapped(s)
  {
  }

  /** The context that gives the name the empty value and knows no other. */
  function Blanking(name: string): Option<Context> {
    Some(Context(map[], map[name := ""], false))
  }

  /** EvalExpr means a name, in every context, if and only if the name has no space bytes to trim and does not look
      like a wrapper. */
  lemma NameExact(name: string)
    requires IsName(name)
    ensures (forall ctx :: Eval(name, ctx) == MeanOr(NameExpr(name), ctx)) <==> IsTrimmed(name) && !IsWrapped(name)
  {
    hide Eval, MeanOr, TrimSpace, Seen, IsTrimmed, IsWrapped;
    SeenSlice(name);
    forall ctx
      ensures MeanOr(NameExpr(name), ctx) == IsTruthy(EvalIdent(name, ctx))
      ensures Eval(name, ctx) == (TrimSpace(name) == "" || (Seen(name) != "" && IsTruthy(EvalIdent(Seen(name), ctx))))
    {
      NameExprIs(name, ctx);
      EvalSeen(name, ctx);
    }
    if Seen(name) == name {
      NotAllTrimmed(name);
    } else {
      if name in {"true", "false", "0"} {
        LiteralsSeen(name);
        assert false;
      }
      assert MeanOr(NameExpr(name), None) && !MeanOr(NameExpr(name), Blanking(name));
      assert Eval(name, None) ==> Eval(name, Blanking(name));
    }
  }

  lemma NotAllTrimmed(name: string)
    requires name != "" && Seen(name) == name
    ensures TrimSpace(name) != ""
  {
  }

  /** A text that looks like a wrapper means whatever its inside means, also when it is itself a printed expression. */
  lemma EvalWrappedText(text: string, lead: string, trail: string, ctx: Option<Context>)
    requires IsWrapped(text) && IsAsciiBlank(lead) && IsAsciiBlank(trail)
    ensures Eval(lead + text + trail, ctx) == ParseOr(TrimSpace(text[3..|text| - 2]), ctx).0
  {
    hide ParseOr, TrimSpace, IsTrimmed;
    assert text == "${{" + text[3..|text| - 2] + "}}";
    WrappedIsTrimmed(text[3..|text| - 2]);
    TrimSurrounded(lead, text, trail);
  }

  // ---------- Witnesses ----------

  /** A name that ends with the bytes of an ideographic space: to the grammar it is no literal, to EvalExpr it is 0. */
  lemma UntrimmedName()
    ensures var name := ['0', 0xE3 as char, 0x80 as char, 0x80 as char];
            IsName(name) && !IsTrimmed(name) && MeanOr(NameExpr(name), None) && !Eval(name, None)
  {
    hide MeanOr, PrintOr, WfOr, Eval;
    var name := ['0', 0xE3 as char, 0x80 as char, 0x80 as char];
    NameExprIs(name, None);
    assert name[1..] == [0xE3 as char, 0x80 as char, 0x80 as char] && name[..1] == "0";
    assert LeadingSpace(name) == 0 && TrailingSpace(name) == 3 && TrailingSpace("0") == 0;
    assert TrimRight(name) == TrimRight("0") == "0";
    EvalSeen(name, None);
  }

  /** Looking like a wrapper settles it for names only: this longer expression does, and means the same either way. */
  lemma SameEitherWay(ctx: Option<Context>)
    ensures var e := Three("${{a", "a}}");
            WfOr(e) && IsWrapped(PrintOr(e)) && IsTrimmed(PrintOr(e)) && Eval(PrintOr(e), ctx) == MeanOr(e, ctx) == true
  {
    hide ParseOr, TrimSpace, PrintOr, MeanOr, WfOr, Eval, LeadingSpace, TrailingSpace, Three;
    ThreePrints("${{a", "a}}", ctx);
    ThreePrints("a", "a", ctx);
    ParsePrinted(Three("a", "a"), ctx);
    var inside := "a" + "||'x'||" + "a";
    var text := "${{a" + "||'x'||" + "a}}";
    assert text == "${{" + inside + "}}";
    WrappedIsTrimmed(inside);
    EvalWrappedText(text, "", "", ctx);
    assert "" + text + "" == text && text[3..|text| - 2] == inside;
    InsideTrimmed();
  }

  lemma InsideTrimmed()
    ensures TrimSpace("a" + "||'x'||" + "a") == "a" + "||'x'||" + "a"
  {
    var s := "a" + "||'x'||" + "a";
    TrimSlice(s);
    assert s[0] == 'a' && s[|s| - 1] == 'a' && s[|s| - 2..] == "|a" && s[|s| - 3..] == "||a";
  }

  /** Two names and a text between them, as a disjunction. */
  function Three(a: string, b: string): OrExpr {
    OrExpr(One(Ident(a)), OrMore("", One(Quoted("x")), OrMore("", One(Ident(b)), OrEnd)))
  }

  function One(p: Primary): AndExpr {
    AndExpr(Truth(Plain("", p)), AndEnd)
  }

  lemma ThreePrints(a: string, b: string, ctx: Option<Context>)
    requires IsName(a) && IsName(b)
    ensures WfOr(Three(a, b)) && MeanOr(Three(a, b), ctx) && PrintOr(Three(a, b)) == a + "||'x'||" + b
  {
    hide PrintAnd, MeanAnd, WfAnd, PrintOrTail, MeanOrTail, WfOrTail, PrintPrimary, MeanPrimary, One;
    PrimariesPrint(a, b, ctx);
    OnePrints(Ident(a), ctx);
    OnePrints(Quoted("x"), ctx);
    OnePrints(Ident(b), ctx);
    EndPrints(ctx);
    var last := OrMore("", One(Ident(b)), OrEnd);
    TailPrints(One(Ident(b)), OrEnd, ctx);
    TailPrints(One(Quoted("x")), last, ctx);
    assert a + ("||" + ("'x'" + ("||" + (b + "")))) == a + "||'x'||" + b;
  }

  lemma PrimariesPrint(a: string, b: string, ctx: Option<Context>)
    requires IsName(a) && IsName(b)
    ensures WfPrimary(Ident(a)) && WfPrimary(Ident(b)) && WfPrimary(Quoted("x"))
    ensures PrintPrimary(Ident(a)) == a && PrintPrimary(Ident(b)) == b && PrintPrimary(Quoted("x")) == "'x'"
    ensures IsTruthy(MeanPrimary(Quoted("x"), ctx))
  {
    assert "'" + ("x" + "'") == "'x'";
  }

  lemma EndPrints(ctx: Option<Context>)
    ensures WfOrTail(OrEnd) && PrintOrTail(OrEnd) == "" && !MeanOrTail(OrEnd, ctx)
  {
  }

  lemma TailPrints(item: AndExpr, rest: OrTail, ctx: Option<Context>)
    requires WfAnd(item) && WfOrTail(rest)
    ensures var t := OrMore("", item, rest);
            && WfOrTail(t) && PrintOrTail(t) == "||" + (PrintAnd(item) + PrintOrTail(rest))
            && MeanOrTail(t, ctx) == (MeanAnd(item, ctx) || MeanOrTail(rest, ctx))
  {
    hide PrintAnd, MeanAnd, WfAnd;
    assert IsBlank("");
  }

  lemma OnePrints(p: Primary, ctx: Option<Context>)
    requires WfPrimary(p)
    ensures WfAnd(One(p)) && PrintAnd(One(p)) == PrintPrimary(p)
    ensures MeanAnd(One(p), ctx) == IsTruthy(MeanPrimary(p, ctx))
  {
    hide PrintPrimary, MeanPrimary, WfPrimary;
    var u := Plain("", p);
    assert WfUnary(u) && PrintUnary(u) == PrintPrimary(p) && MeanUnary(u, ctx) == MeanPrimary(p, ctx);
    assert WfComparison(Truth(u)) && PrintComparison(Truth(u)) == PrintPrimary(p);
    assert MeanComparison(Truth(u), ctx) == IsTruthy(MeanPrimary(p, ctx));
    assert WfAndTail(AndEnd) && PrintAndTail(AndEnd) == "" && MeanAndTail(AndEnd, ctx);
    assert PrintPrimary(p) + "" == PrintPrimary(p);
  }
}
