/** The line structure of the generated program, stated independently of
    the text splicing: each construct is a list of lines tagged with their
    nesting depth, and rendering a line puts four spaces per level in front
    of it. The theorems below show that the generator's f-strings, joins
    and `_indent` calls produce exactly this structure, so a nested body is
    always one level deeper than its header and no indentation drifts. */
module Layout {
  import opened PyStr
  import opened Ast
  import opened ToPython

  /** One line of generated code: its nesting depth and its text. */
  datatype Line = Line(depth: nat, text: string)

  function Spaces(depth: nat): string
  {
    if depth == 0 then "" else "    " + Spaces(depth - 1)
  }

  function Render(lines: seq<Line>): (r: seq<string>)
    ensures |r| == |lines|
    ensures forall i :: 0 <= i < |lines| ==> r[i] == Spaces(lines[i].depth) + lines[i].text
  {
    seq(|lines|, i requires 0 <= i < |lines| => Spaces(lines[i].depth) + lines[i].text)
  }

  /** The same lines one level deeper. */
  function Shift(lines: seq<Line>): (r: seq<Line>)
    ensures |r| == |lines|
    ensures forall i :: 0 <= i < |lines| ==> r[i] == Line(lines[i].depth + 1, lines[i].text)
  {
    seq(|lines|, i requires 0 <= i < |lines| => Line(lines[i].depth + 1, lines[i].text))
  }

  /** The lines of one command, its own header at depth 0. */
  function CommandLayout(c: Command): seq<Line>
    decreases c
  {
    match c
    case IfElse(cond, t, f) =>
      [Line(0, "if " + GenCond(cond) + ":")] + CommandsLayout(t) + [Line(0, "else:")] + CommandsLayout(f)
    case IfThen(cond, t) => [Line(0, "if " + GenCond(cond) + ":")] + CommandsLayout(t)
    case WhileLoop(cond, body) => [Line(0, "while " + GenCond(cond) + ":")] + CommandsLayout(body)
    case RepeatUntil(body, cond) =>
      [Line(0, "while True:")] + CommandsLayout(body) + [Line(1, "if " + GenCond(cond) + ": break")]
    case ForTo(v, a, b, body) =>
      [Line(0, "for __IND in range (" + GenValue(a) + "," + GenValue(b) + "+1):"),
       Line(1, v + "= [__IND]")] + CommandsLayout(body)
    case ForDownto(v, a, b, body) =>
      [Line(0, "for __IND in range (" + GenValue(a) + "," + GenValue(b) + "-1,-1):"),
       Line(1, v + "= [__IND]")] + CommandsLayout(body)
    case _ => [Line(0, GenCommand(c))]
  }

  /** The lines of a command list: each command one level deeper, in order. */
  function CommandsLayout(cs: seq<Command>): seq<Line>
    decreases cs
  {
    if cs == [] then [] else Shift(CommandLayout(cs[0])) + CommandsLayout(cs[1..])
  }

  /** Every line of the layout is one non-empty line of text. */
  predicate Clean(lines: seq<Line>)
  {
    forall i :: 0 <= i < |lines| ==> OneLine(lines[i].text)
  }

  // ---------------------------------------------------------------------
  // Rendering
  // ---------------------------------------------------------------------

  lemma {:induction false} SpacesShape(depth: nat)
    ensures |Spaces(depth)| == 4 * depth
    ensures forall i :: 0 <= i < |Spaces(depth)| ==> Spaces(depth)[i] == ' '
  {
    if depth > 0 {
      SpacesShape(depth - 1);
    }
  }

  lemma RenderedOneLine(lines: seq<Line>)
    requires Clean(lines)
    ensures forall s :: s in Render(lines) ==> OneLine(s)
  {
    forall s | s in Render(lines) ensures OneLine(s) {
      var i :| 0 <= i < |lines| && Render(lines)[i] == s;
      SpacesShape(lines[i].depth);
      var sp := Spaces(lines[i].depth);
      assert forall ch :: ch in sp ==> ch == ' ';
      forall ch | ch in s ensures !IsLineBreak(ch) {
        assert ch in sp || ch in lines[i].text;
      }
    }
  }

  lemma RenderAppend(a: seq<Line>, b: seq<Line>)
    ensures Render(a + b) == Render(a) + Render(b)
  {
  }

  lemma RenderShift(lines: seq<Line>)
    ensures Render(Shift(lines)) == Prefixed(Render(lines))
  {
    forall i | 0 <= i < |lines|
      ensures Render(Shift(lines))[i] == Prefixed(Render(lines))[i]
    {
      var d, t := lines[i].depth, lines[i].text;
      assert Spaces(d + 1) + t == "    " + (Spaces(d) + t);
    }
  }

  lemma CleanAppend(a: seq<Line>, b: seq<Line>)
    requires Clean(a) && Clean(b)
    ensures Clean(a + b)
  {
  }

  /** A line at depth 0 renders as its text. */
  lemma RenderTop(h: string)
    ensures Render([Line(0, h)]) == [h]
  {
    assert Spaces(0) + h == h;
  }

  /** A line at depth 1 renders with four spaces in front. */
  lemma RenderInner(h: string)
    ensures Render([Line(1, h)]) == ["    " + h]
  {
    assert Spaces(1) == "    ";
  }

  lemma RenderHeader(h: string, a: seq<Line>)
    ensures Render([Line(0, h)] + a) == [h] + Render(a)
  {
    RenderTop(h);
    RenderAppend([Line(0, h)], a);
  }

  /** A header line followed by a non-empty block renders as the header, a
      newline and the block's text. */
  lemma HeaderShape(h: string, body: string, a: seq<Line>)
    requires |a| >= 1 && body == Join(Render(a), "\n")
    ensures Join(Render([Line(0, h)] + a), "\n") == h + "\n" + body
  {
    RenderHeader(h, a);
    JoinCons(h, Render(a), "\n");
  }

  lemma LinesAssoc(a: seq<Line>, b: seq<Line>, c: seq<Line>, d: seq<Line>)
    ensures a + b + c + d == (a + b) + (c + d)
  {
  }

  // ---------------------------------------------------------------------
  // The text of each kind of command, by its shape
  // ---------------------------------------------------------------------

  lemma GlueIfElse(cond: string, t: string, f: string)
    ensures "if " + cond + ":\n" + t + "\nelse:\n" + f
         == (("if " + cond + ":") + "\n" + t) + "\n" + ("else:" + "\n" + f)
  {
  }

  lemma IfElseShape(cond: string, t: string, f: string, lt: seq<Line>, lf: seq<Line>)
    requires |lt| >= 1 && t == Join(Render(lt), "\n")
    requires |lf| >= 1 && f == Join(Render(lf), "\n")
    ensures "if " + cond + ":\n" + t + "\nelse:\n" + f
         == Join(Render([Line(0, "if " + cond + ":")] + lt + [Line(0, "else:")] + lf), "\n")
  {
    var a, b := [Line(0, "if " + cond + ":")] + lt, [Line(0, "else:")] + lf;
    HeaderShape("if " + cond + ":", t, lt);
    HeaderShape("else:", f, lf);
    LinesAssoc([Line(0, "if " + cond + ":")], lt, [Line(0, "else:")], lf);
    RenderAppend(a, b);
    JoinAppend(Render(a), Render(b), "\n");
    GlueIfElse(cond, t, f);
  }

  lemma GlueHeader(pre: string, cond: string, body: string)
    ensures pre + cond + ":\n" + body == (pre + cond + ":") + "\n" + body
  {
  }

  lemma GlueRepeat(body: string, cond: string)
    ensures "while True:\n" + body + "\n    if " + cond + ": break"
         == ("while True:" + "\n" + body) + "\n" + ("    " + ("if " + cond + ": break"))
  {
  }

  lemma RepeatShape(body: string, cond: string, lb: seq<Line>)
    requires |lb| >= 1 && body == Join(Render(lb), "\n")
    ensures "while True:\n" + body + "\n    if " + cond + ": break"
         == Join(Render([Line(0, "while True:")] + lb + [Line(1, "if " + cond + ": break")]), "\n")
  {
    var a := [Line(0, "while True:")] + lb;
    var tail := [Line(1, "if " + cond + ": break")];
    HeaderShape("while True:", body, lb);
    RenderInner("if " + cond + ": break");
    RenderAppend(a, tail);
    JoinAppend(Render(a), Render(tail), "\n");
    GlueRepeat(body, cond);
  }

  lemma GlueForTo(first: string, last: string, v: string, body: string)
    ensures "for __IND in range (" + first + "," + last + "+1):\n" + "    " + v + "= [__IND]\n" + body + "\n"
         == ("for __IND in range (" + first + "," + last + "+1):") + "\n" + ("    " + (v + "= [__IND]")) + "\n" + body + "\n"
  {
  }

  lemma GlueForDownto(first: string, last: string, v: string, body: string)
    ensures "for __IND in range (" + first + "," + last + "-1,-1):\n" + "    " + v + "= [__IND]\n" + body + "\n"
         == ("for __IND in range (" + first + "," + last + "-1,-1):") + "\n" + ("    " + (v + "= [__IND]")) + "\n" + body + "\n"
  {
  }

  /** A `for` header, the line binding the loop variable one level in, and the body. */
  lemma ForShape(h: string, bind: string, body: string, lb: seq<Line>)
    requires |lb| >= 1 && body == Join(Render(lb), "\n")
    ensures Join(Render([Line(0, h), Line(1, bind)] + lb), "\n") == h + "\n" + ("    " + bind) + "\n" + body
  {
    var rest := [Line(1, bind)] + lb;
    assert [Line(0, h), Line(1, bind)] + lb == [Line(0, h)] + rest;
    RenderInner(bind);
    RenderAppend([Line(1, bind)], lb);
    JoinCons("    " + bind, Render(lb), "\n");
    HeaderShape(h, "    " + bind + "\n" + body, rest);
  }

  // ---------------------------------------------------------------------
  // Commands
  // ---------------------------------------------------------------------

  lemma ValidTail(cs: seq<Command>)
    requires ValidCommands(cs) && |cs| > 1
    ensures ValidCommands(cs[1..])
  {
    forall i | 0 <= i < |cs[1..]| ensures ValidCommand(cs[1..][i]) {
      assert cs[1..][i] == cs[i + 1];
    }
  }

  lemma ConcatNoBreaks(a: string, b: string)
    requires NoBreaks(a) && NoBreaks(b)
    ensures NoBreaks(a + b)
  {
  }

  /** A text such as `while x[0] < 5:` is one line when its middle is. */
  lemma Framed(pre: string, mid: string, post: string)
    requires pre != "" && NoBreaks(pre) && NoBreaks(mid) && NoBreaks(post)
    ensures OneLine(pre + mid + post)
  {
    ConcatNoBreaks(pre, mid);
    ConcatNoBreaks(pre + mid, post);
  }

  lemma TargetOneLine(id: Identifier)
    requires ValidIdentifier(id)
    ensures OneLine(TargetOf(id).name)
    ensures TargetOf(id).Element? ==> NoBreaks(TargetOf(id).index)
  {
    match id
    case IdSimple(name) => NameIsOneLine(name);
    case IdArrayNum(name, n) => NameIsOneLine(name); DecimalIsOneLine(n);
    case IdArrayVar(name, index) => NameIsOneLine(name); NameIsOneLine(index); ConcatNoBreaks(index, "[0]");
  }

  lemma {:induction false} ArgsOneLine(args: seq<string>)
    requires forall a :: a in args ==> ValidName(a)
    ensures NoBreaks(Join(args, ", "))
  {
    if |args| > 0 {
      NameIsOneLine(args[0]);
      if |args| > 1 {
        ArgsOneLine(args[1..]);
        ConcatNoBreaks(args[0], ", ");
        ConcatNoBreaks(args[0] + ", ", Join(args[1..], ", "));
      }
    }
  }

  lemma StoreOneLine(t: Target, value: string)
    requires OneLine(t.name) && (t.Element? ==> NoBreaks(t.index)) && NoBreaks(value)
    ensures OneLine(LowerStore(t, value))
  {
    if t.Scalar? {
      Framed(t.name, "[0] = ", value);
    } else {
      Framed(t.name, ".set(", t.index);
      Framed(t.name + ".set(" + t.index, ", ", value);
      Framed(t.name + ".set(" + t.index + ", " + value, ")", "");
    }
  }

  lemma ReadOneLine(t: Target)
    requires OneLine(t.name) && (t.Element? ==> NoBreaks(t.index))
    ensures OneLine(GenReadAsWritten(t))
  {
    if t.Scalar? {
      Framed(t.name, "[0] = int(input())", "");
    } else {
      Framed(t.name, ".set(int(input()), ", t.index);
      Framed(t.name + ".set(int(input()), " + t.index, ")", "");
    }
  }

  lemma CallOneLine(name: string, args: seq<string>)
    requires ValidName(name) && forall a :: a in args ==> ValidName(a)
    ensures OneLine(name + "(" + Join(args, ", ") + ")")
  {
    NameIsOneLine(name);
    ArgsOneLine(args);
    Framed(name, "(", Join(args, ", "));
    Framed(name + "(" + Join(args, ", "), ")", "");
  }

  /** Assignments, reads, writes and calls are one line each. */
  lemma SimpleCommandOneLine(c: Command)
    requires ValidCommand(c)
    requires c.Assign? || c.Read? || c.Write? || c.ProcCall?
    ensures OneLine(GenCommand(c))
  {
    match c
    case Assign(t, e) =>
      ExprOneLine(e);
      TargetOneLine(t);
      StoreOneLine(TargetOf(t), GenExpr(e));
    case Read(t) =>
      TargetOneLine(t);
      ReadOneLine(TargetOf(t));
    case Write(v) =>
      ValueOneLine(v);
      Framed("print(", GenValue(v), ")");
    case ProcCall(name, args) =>
      CallOneLine(name, args);
  }

  lemma CleanHeader(d: nat, h: string, a: seq<Line>)
    requires OneLine(h) && Clean(a)
    ensures Clean([Line(d, h)] + a)
  {
  }

  lemma IfElseClean(cond: string, lt: seq<Line>, lf: seq<Line>)
    requires NoBreaks(cond) && Clean(lt) && Clean(lf)
    ensures Clean([Line(0, "if " + cond + ":")] + lt + [Line(0, "else:")] + lf)
  {
    Framed("if ", cond, ":");
    CleanHeader(0, "if " + cond + ":", lt);
    CleanHeader(0, "else:", lf);
    LinesAssoc([Line(0, "if " + cond + ":")], lt, [Line(0, "else:")], lf);
    CleanAppend([Line(0, "if " + cond + ":")] + lt, [Line(0, "else:")] + lf);
  }

  lemma RepeatClean(lb: seq<Line>, cond: string)
    requires NoBreaks(cond) && Clean(lb)
    ensures Clean([Line(0, "while True:")] + lb + [Line(1, "if " + cond + ": break")])
  {
    Framed("if ", cond, ": break");
    CleanHeader(0, "while True:", lb);
    CleanHeader(1, "if " + cond + ": break", []);
    assert [Line(1, "if " + cond + ": break")] + [] == [Line(1, "if " + cond + ": break")];
    CleanAppend([Line(0, "while True:")] + lb, [Line(1, "if " + cond + ": break")]);
  }

  lemma ForClean(h: string, v: string, lb: seq<Line>)
    requires OneLine(h) && NoBreaks(v) && Clean(lb)
    ensures Clean([Line(0, h), Line(1, v + "= [__IND]")] + lb)
  {
    Framed("= [__IND]", v, "");
    assert v + "= [__IND]" == "" + v + "= [__IND]";
    ConcatNoBreaks(v, "= [__IND]");
    CleanHeader(1, v + "= [__IND]", lb);
    CleanHeader(0, h, [Line(1, v + "= [__IND]")] + lb);
    assert [Line(0, h), Line(1, v + "= [__IND]")] + lb == [Line(0, h)] + ([Line(1, v + "= [__IND]")] + lb);
  }

  lemma ForHeaderOneLine(first: string, last: string, suffix: string)
    requires NoBreaks(first) && NoBreaks(last) && NoBreaks(suffix)
    ensures OneLine("for __IND in range (" + first + "," + last + suffix)
  {
    Framed("for __IND in range (", first, ",");
    Framed("for __IND in range (" + first + ",", last, suffix);
  }

  /** Layouts of well-formed commands are non-empty and clean. */
  lemma {:induction false} CommandLayoutClean(c: Command)
    requires ValidCommand(c)
    ensures |CommandLayout(c)| >= 1 && Clean(CommandLayout(c))
    decreases c, 1
  {
    match c
    case IfElse(cond, t, f) => IfElseLayoutClean(cond, t, f);
    case IfThen(cond, t) => HeaderLayoutClean("if ", cond, t);
    case WhileLoop(cond, body) => HeaderLayoutClean("while ", cond, body);
    case RepeatUntil(body, cond) => RepeatLayoutClean(body, cond);
    case ForTo(v, a, b, body) => ForLayoutClean(v, a, b, "+1):", body);
    case ForDownto(v, a, b, body) => ForLayoutClean(v, a, b, "-1,-1):", body);
    case Assign(_, _) => SimpleCommandOneLine(c);
    case Read(_) => SimpleCommandOneLine(c);
    case Write(_) => SimpleCommandOneLine(c);
    case ProcCall(_, _) => SimpleCommandOneLine(c);
  }

  lemma {:induction false} IfElseLayoutClean(cond: Condition, t: seq<Command>, f: seq<Command>)
    requires ValidCondition(cond) && ValidCommands(t) && ValidCommands(f)
    ensures Clean([Line(0, "if " + GenCond(cond) + ":")] + CommandsLayout(t) + [Line(0, "else:")] + CommandsLayout(f))
    decreases IfElse(cond, t, f), 0
  {
    CondOneLine(cond);
    CommandsLayoutClean(t);
    CommandsLayoutClean(f);
    IfElseClean(GenCond(cond), CommandsLayout(t), CommandsLayout(f));
  }

  /** `if_then` (with `pre` = `if `) and `while_loop` (with `pre` = `while `). */
  lemma {:induction false} HeaderLayoutClean(pre: string, cond: Condition, body: seq<Command>)
    requires pre == "if " || pre == "while "
    requires ValidCondition(cond) && ValidCommands(body)
    ensures Clean([Line(0, pre + GenCond(cond) + ":")] + CommandsLayout(body))
    decreases body, 1
  {
    CondOneLine(cond);
    Framed(pre, GenCond(cond), ":");
    CommandsLayoutClean(body);
    CleanHeader(0, pre + GenCond(cond) + ":", CommandsLayout(body));
  }

  lemma {:induction false} RepeatLayoutClean(body: seq<Command>, cond: Condition)
    requires ValidCondition(cond) && ValidCommands(body)
    ensures Clean([Line(0, "while True:")] + CommandsLayout(body) + [Line(1, "if " + GenCond(cond) + ": break")])
    decreases body, 1
  {
    CondOneLine(cond);
    CommandsLayoutClean(body);
    RepeatClean(CommandsLayout(body), GenCond(cond));
  }

  lemma {:induction false} ForLayoutClean(v: string, a: Value, b: Value, suffix: string, body: seq<Command>)
    requires suffix == "+1):" || suffix == "-1,-1):"
    requires ValidName(v) && ValidValue(a) && ValidValue(b) && ValidCommands(body)
    ensures Clean([Line(0, "for __IND in range (" + GenValue(a) + "," + GenValue(b) + suffix),
                   Line(1, v + "= [__IND]")] + CommandsLayout(body))
    decreases body, 1
  {
    ValueOneLine(a);
    ValueOneLine(b);
    ForHeaderOneLine(GenValue(a), GenValue(b), suffix);
    NameIsOneLine(v);
    CommandsLayoutClean(body);
    ForClean("for __IND in range (" + GenValue(a) + "," + GenValue(b) + suffix, v, CommandsLayout(body));
  }

  lemma {:induction false} CommandsLayoutClean(cs: seq<Command>)
    requires ValidCommands(cs)
    ensures |CommandsLayout(cs)| >= 1 && Clean(CommandsLayout(cs))
    ensures forall i :: 0 <= i < |CommandsLayout(cs)| ==> CommandsLayout(cs)[i].depth >= 1
    decreases cs, 0
  {
    CommandLayoutClean(cs[0]);
    if |cs| > 1 {
      ValidTail(cs);
      CommandsLayoutClean(cs[1..]);
      CleanAppend(Shift(CommandLayout(cs[0])), CommandsLayout(cs[1..]));
    }
  }

  /** The text of a command is its layout joined by newlines; a `FOR` loop
      adds one trailing newline. */
  lemma {:induction false} CommandText(c: Command)
    requires ValidCommand(c)
    ensures GenCommand(c) == Join(Render(CommandLayout(c)), "\n")
                             + (if c.ForTo? || c.ForDownto? then "\n" else "")
    decreases c, 1
  {
    match c
    case IfElse(cond, t, f) =>
      CommandsText(t);
      CommandsText(f);
      CommandsLayoutClean(t);
      CommandsLayoutClean(f);
      IfElseShape(GenCond(cond), GenCommands(t), GenCommands(f), CommandsLayout(t), CommandsLayout(f));
    case IfThen(cond, t) =>
      CommandsText(t);
      CommandsLayoutClean(t);
      HeaderShape("if " + GenCond(cond) + ":", GenCommands(t), CommandsLayout(t));
      GlueHeader("if ", GenCond(cond), GenCommands(t));
    case WhileLoop(cond, body) =>
      CommandsText(body);
      CommandsLayoutClean(body);
      HeaderShape("while " + GenCond(cond) + ":", GenCommands(body), CommandsLayout(body));
      GlueHeader("while ", GenCond(cond), GenCommands(body));
    case RepeatUntil(body, cond) =>
      CommandsText(body);
      CommandsLayoutClean(body);
      RepeatShape(GenCommands(body), GenCond(cond), CommandsLayout(body));
    case ForTo(v, a, b, body) =>
      CommandsText(body);
      CommandsLayoutClean(body);
      ForShape("for __IND in range (" + GenValue(a) + "," + GenValue(b) + "+1):", v + "= [__IND]",
               GenCommands(body), CommandsLayout(body));
      GlueForTo(GenValue(a), GenValue(b), v, GenCommands(body));
    case ForDownto(v, a, b, body) =>
      CommandsText(body);
      CommandsLayoutClean(body);
      ForShape("for __IND in range (" + GenValue(a) + "," + GenValue(b) + "-1,-1):", v + "= [__IND]",
               GenCommands(body), CommandsLayout(body));
      GlueForDownto(GenValue(a), GenValue(b), v, GenCommands(body));
    case Assign(_, _) =>
    case Read(_) =>
    case Write(_) =>
    case ProcCall(_, _) =>
  }

  /** Read back with `splitlines`, a clean layout joined by newlines gives
      its rendered lines, with or without one trailing newline. */
  lemma LinesShape(text: string, layout: seq<Line>, trailing: bool)
    requires |layout| >= 1 && Clean(layout)
    requires text == Join(Render(layout), "\n") + (if trailing then "\n" else "")
    ensures SplitLines(text) == Render(layout)
  {
    RenderedOneLine(layout);
    var lines := Render(layout);
    if trailing {
      SplitLinesJoinNewline(lines);
    } else {
      assert lines[|lines| - 1] in lines;
      assert Join(lines, "\n") + "" == Join(lines, "\n");
      SplitLinesJoin(lines);
    }
  }

  /** Read back with `splitlines`, a command's text is its rendered layout. */
  lemma {:induction false} CommandLines(c: Command)
    requires ValidCommand(c)
    ensures SplitLines(GenCommand(c)) == Render(CommandLayout(c))
    decreases c, 2
  {
    CommandText(c);
    CommandLayoutClean(c);
    LinesShape(GenCommand(c), CommandLayout(c), c.ForTo? || c.ForDownto?);
  }

  /** `_indent` applied to a command's text renders its layout one level deeper. */
  lemma IndentShape(text: string, layout: seq<Line>)
    requires |layout| >= 1 && SplitLines(text) == Render(layout)
    ensures Indent(text) == Join(Render(Shift(layout)), "\n")
  {
    RenderShift(layout);
  }

  /** One command's lines followed by those of the rest of its list. */
  lemma ListShape(first: string, lf: seq<Line>, rest: seq<string>, lr: seq<Line>)
    requires |lf| >= 1 && first == Join(Render(lf), "\n")
    requires (|rest| == 0 <==> |lr| == 0) && (|lr| >= 1 ==> Join(rest, "\n") == Join(Render(lr), "\n"))
    ensures Join([first] + rest, "\n") == Join(Render(lf + lr), "\n")
  {
    if |lr| == 0 {
      assert [first] + rest == [first];
      assert lf + lr == lf;
    } else {
      JoinCons(first, rest, "\n");
      RenderAppend(lf, lr);
      JoinAppend(Render(lf), Render(lr), "\n");
    }
  }

  /** `commands` produces exactly the rendered layout of the list: every
      command one level deeper than the construct that owns the list. */
  lemma {:induction false} CommandsText(cs: seq<Command>)
    requires ValidCommands(cs)
    ensures GenCommands(cs) == Join(Render(CommandsLayout(cs)), "\n")
    ensures |CommandsLayout(cs)| >= 1
    decreases cs, 0
  {
    var c := cs[0];
    var layout := CommandLayout(c);
    CommandLines(c);
    CommandLayoutClean(c);
    IndentShape(GenCommand(c), layout);
    if |cs| > 1 {
      ValidTail(cs);
      CommandsText(cs[1..]);
    }
    ListShape(Indent(GenCommand(c)), Shift(layout), IndentEach(cs[1..]), CommandsLayout(cs[1..]));
  }

  lemma SpacesPrefix(d: nat, t: string)
    requires d >= 1
    ensures |Spaces(d) + t| >= 4 && (Spaces(d) + t)[..4] == "    "
  {
    SpacesShape(d - 1);
    assert Spaces(d) + t == "    " + (Spaces(d - 1) + t);
  }

  /** Split at newlines, a clean layout whose lines are all at depth one or
      more gives lines that each start with four spaces. */
  lemma IndentedShape(text: string, layout: seq<Line>)
    requires |layout| >= 1 && Clean(layout) && text == Join(Render(layout), "\n")
    requires forall i :: 0 <= i < |layout| ==> layout[i].depth >= 1
    ensures forall l :: l in Split(text, '\n') ==> |l| >= 4 && l[..4] == "    "
  {
    CleanHasNoNewlines(layout);
    RenderedNoNewline(layout);
    SplitJoin(Render(layout), '\n');
    forall l | l in Render(layout) ensures |l| >= 4 && l[..4] == "    " {
      var i :| 0 <= i < |layout| && Render(layout)[i] == l;
      SpacesPrefix(layout[i].depth, layout[i].text);
    }
  }

  /** Every line of a command list's text starts with four spaces: the
      list sits one level inside whatever owns it. */
  lemma CommandsIndented(cs: seq<Command>)
    requires ValidCommands(cs)
    ensures forall l :: l in Split(GenCommands(cs), '\n') ==> |l| >= 4 && l[..4] == "    "
  {
    CommandsText(cs);
    CommandsLayoutClean(cs);
    IndentedShape(GenCommands(cs), CommandsLayout(cs));
  }

  // ---------------------------------------------------------------------
  // Declarations, procedures, main, program
  // ---------------------------------------------------------------------

  function DeclsLayout(ds: seq<Declaration>): (r: seq<Line>)
    ensures |r| == |ds|
    ensures forall i :: 0 <= i < |ds| ==> r[i] == Line(1, GenDecl(ds[i]))
  {
    seq(|ds|, i requires 0 <= i < |ds| => Line(1, GenDecl(ds[i])))
  }

  /** A procedure: a blank line, the `def` line, its declarations and its
      commands one level in, and a closing blank line. With no declarations
      this is `proc_decl_empty`. */
  function ProcedureLayout(p: Procedure): seq<Line>
  {
    [Line(0, ""), Line(0, "def " + GenHead(p.head) + ":")]
    + DeclsLayout(p.decls) + CommandsLayout(p.cmds) + [Line(0, "")]
  }

  /** The procedures in source order; none at all still leaves one empty line. */
  function ProceduresLayout(ps: seq<Procedure>): seq<Line>
  {
    if |ps| == 0 then [Line(0, "")]
    else if |ps| == 1 then ProcedureLayout(ps[0])
    else ProcedureLayout(ps[0]) + ProceduresLayout(ps[1..])
  }

  /** The closing lines of `main_full` and `main_empty`. */
  const GuardLayout: seq<Line> := [Line(0, ""), Line(0, "if __name__ == '__main__':"), Line(1, "main()")]

  /** Main ends with the `if __name__ == '__main__':` guard calling `main()`. */
  function MainLayout(m: MainBlock): seq<Line>
  {
    [Line(0, ""), Line(0, "def main():")]
    + DeclsLayout(m.decls) + CommandsLayout(m.cmds) + GuardLayout
  }

  /** Everything after the runtime prelude. */
  function ProgramLayout(p: Program): seq<Line>
  {
    ProceduresLayout(p.procs) + MainLayout(p.main)
  }

  /** A layout whose lines hold no newline (empty lines allowed). */
  predicate NoNewlines(lines: seq<Line>)
  {
    forall i :: 0 <= i < |lines| ==> '\n' !in lines[i].text
  }

  lemma RenderedNoNewline(lines: seq<Line>)
    requires NoNewlines(lines)
    ensures forall s :: s in Render(lines) ==> '\n' !in s
  {
    forall s | s in Render(lines) ensures '\n' !in s {
      var i :| 0 <= i < |lines| && Render(lines)[i] == s;
      SpacesShape(lines[i].depth);
      var sp := Spaces(lines[i].depth);
      assert forall ch :: ch in sp ==> ch == ' ';
      assert s == sp + lines[i].text;
    }
  }

  lemma CleanHasNoNewlines(lines: seq<Line>)
    requires Clean(lines)
    ensures NoNewlines(lines)
  {
    forall i | 0 <= i < |lines| ensures '\n' !in lines[i].text {
      assert OneLine(lines[i].text);
    }
  }

  lemma DeclOneLine(d: Declaration)
    requires ValidDeclaration(d)
    ensures OneLine(GenDecl(d))
  {
    NameIsOneLine(d.name);
    match d
    case DeclVar(_) =>
    case DeclArray(_, s, e) => DecimalIsOneLine(s); DecimalIsOneLine(e);
  }

  lemma DeclsLayoutClean(ds: seq<Declaration>)
    requires ValidDeclarations(ds)
    ensures Clean(DeclsLayout(ds))
  {
    forall i | 0 <= i < |ds| ensures OneLine(DeclsLayout(ds)[i].text) {
      DeclOneLine(ds[i]);
    }
  }

  /** `_indent(declarations)` puts every declaration on its own line, one level in. */
  lemma DeclsText(ds: seq<Declaration>)
    requires |ds| > 0 && ValidDeclarations(ds)
    ensures Indent(GenDecls(ds)) == Join(Render(DeclsLayout(ds)), "\n")
  {
    var layout := seq(|ds|, i requires 0 <= i < |ds| => Line(0, GenDecl(ds[i])));
    forall i | 0 <= i < |ds| ensures OneLine(layout[i].text) && Render(layout)[i] == DeclTexts(ds)[i] {
      DeclOneLine(ds[i]);
      assert Spaces(0) + GenDecl(ds[i]) == GenDecl(ds[i]);
    }
    assert Render(layout) == DeclTexts(ds);
    assert DeclsLayout(ds) == Shift(layout);
    LinesShape(GenDecls(ds), layout, false);
    IndentShape(GenDecls(ds), layout);
  }

  lemma HeadOneLine(h: ProcHead)
    requires ValidHead(h)
    ensures NoBreaks(GenHead(h))
  {
    NameIsOneLine(h.name);
    ArgsOneLine(ParamNames(h.params));
  }

  /** The opening, declaration and command lines of a procedure or main. */
  lemma BlockShape(head: string, decls: string, cmds: string, ld: seq<Line>, lc: seq<Line>)
    requires |lc| >= 1 && cmds == Join(Render(lc), "\n")
    requires |ld| >= 1 ==> decls == Join(Render(ld), "\n")
    ensures Join(Render([Line(0, ""), Line(0, head)] + ld + lc), "\n")
         == "" + "\n" + (head + "\n" + (if |ld| >= 1 then decls + "\n" + cmds else cmds))
  {
    var body := ld + lc;
    var text := if |ld| >= 1 then decls + "\n" + cmds else cmds;
    if |ld| >= 1 {
      RenderAppend(ld, lc);
      JoinAppend(Render(ld), Render(lc), "\n");
    } else {
      assert body == lc;
    }
    assert [Line(0, ""), Line(0, head)] + ld + lc == [Line(0, "")] + ([Line(0, head)] + body);
    HeaderShape(head, text, body);
    HeaderShape("", head + "\n" + text, [Line(0, head)] + body);
  }

  lemma GlueProcedure(head: string, decls: string, cmds: string)
    ensures "\ndef " + head + ":\n" + decls + "\n" + cmds + "\n"
         == ("" + "\n" + (("def " + head + ":") + "\n" + (decls + "\n" + cmds))) + "\n" + ""
    ensures "\ndef " + head + ":\n" + cmds + "\n"
         == ("" + "\n" + (("def " + head + ":") + "\n" + cmds)) + "\n" + ""
  {
  }

  /** `proc_decl_full` (with declarations) and `proc_decl_empty`, by shape. */
  lemma ProcedureShape(head: string, decls: string, cmds: string, ld: seq<Line>, lc: seq<Line>)
    requires |lc| >= 1 && cmds == Join(Render(lc), "\n")
    requires |ld| >= 1 ==> decls == Join(Render(ld), "\n")
    ensures (if |ld| >= 1 then "\ndef " + head + ":\n" + decls + "\n" + cmds + "\n"
             else "\ndef " + head + ":\n" + cmds + "\n")
         == Join(Render([Line(0, ""), Line(0, "def " + head + ":")] + ld + lc + [Line(0, "")]), "\n")
  {
    var block := [Line(0, ""), Line(0, "def " + head + ":")] + ld + lc;
    BlockShape("def " + head + ":", decls, cmds, ld, lc);
    RenderAppend(block, [Line(0, "")]);
    RenderTop("");
    JoinAppend(Render(block), [""], "\n");
    GlueProcedure(head, decls, cmds);
  }

  lemma ProcedureText(p: Procedure)
    requires ValidProcedure(p)
    ensures GenProcedure(p) == Join(Render(ProcedureLayout(p)), "\n")
  {
    CommandsText(p.cmds);
    if |p.decls| > 0 {
      DeclsText(p.decls);
    }
    ProcedureShape(GenHead(p.head), Indent(GenDecls(p.decls)), GenCommands(p.cmds),
                   DeclsLayout(p.decls), CommandsLayout(p.cmds));
  }

  lemma GuardRender()
    ensures Render(GuardLayout) == ["", "if __name__ == '__main__':", "    main()"]
  {
    var r := Render(GuardLayout);
    assert Spaces(0) == "" && Spaces(1) == "    ";
    assert r[0] == "" + "" == "";
    assert r[1] == "" + "if __name__ == '__main__':" == "if __name__ == '__main__':";
    assert r[2] == "    " + "main()" == "    main()";
  }

  lemma JoinTriple(a: string, b: string, c: string, sep: string)
    ensures Join([a, b, c], sep) == a + sep + (b + sep + c)
  {
    JoinCons(a, [b, c], sep);
    assert [a] + [b, c] == [a, b, c];
    JoinCons(b, [c], sep);
    assert [b] + [c] == [b, c];
  }

  /** `MainGuard` is a newline followed by the joined guard lines. */
  lemma GuardGlue(x: string, y: string)
    ensures "\n" + "\n" + x + "\n" + y == "\n" + ("" + "\n" + (x + "\n" + y))
  {
  }

  lemma GuardLiteral()
    ensures MainGuard == "\n" + ("" + "\n" + ("if __name__ == '__main__':" + "\n" + "    main()"))
  {
    GuardGlue("if __name__ == '__main__':", "    main()");
  }

  lemma GlueMain(decls: string, cmds: string, guard: string)
    ensures "\ndef main():\n" + decls + "\n" + cmds + ("\n" + guard)
         == ("" + "\n" + ("def main():" + "\n" + (decls + "\n" + cmds))) + "\n" + guard
    ensures "\ndef main():\n" + cmds + ("\n" + guard)
         == ("" + "\n" + ("def main():" + "\n" + cmds)) + "\n" + guard
  {
  }

  /** `main_full` (with declarations) and `main_empty`, by shape. */
  lemma MainShape(decls: string, cmds: string, ld: seq<Line>, lc: seq<Line>)
    requires |lc| >= 1 && cmds == Join(Render(lc), "\n")
    requires |ld| >= 1 ==> decls == Join(Render(ld), "\n")
    ensures (if |ld| >= 1 then "\ndef main():\n" + decls + "\n" + cmds + MainGuard
             else "\ndef main():\n" + cmds + MainGuard)
         == Join(Render([Line(0, ""), Line(0, "def main():")] + ld + lc + GuardLayout), "\n")
  {
    var block := [Line(0, ""), Line(0, "def main():")] + ld + lc;
    BlockShape("def main():", decls, cmds, ld, lc);
    RenderAppend(block, GuardLayout);
    GuardRender();
    JoinTriple("", "if __name__ == '__main__':", "    main()", "\n");
    JoinAppend(Render(block), Render(GuardLayout), "\n");
    GuardLiteral();
    GlueMain(decls, cmds, "" + "\n" + ("if __name__ == '__main__':" + "\n" + "    main()"));
  }

  lemma MainText(m: MainBlock)
    requires ValidMain(m)
    ensures GenMain(m) == Join(Render(MainLayout(m)), "\n")
  {
    CommandsText(m.cmds);
    if |m.decls| > 0 {
      DeclsText(m.decls);
    }
    MainShape(Indent(GenDecls(m.decls)), GenCommands(m.cmds), DeclsLayout(m.decls), CommandsLayout(m.cmds));
  }

  lemma {:induction false} ProceduresText(ps: seq<Procedure>)
    requires forall i :: 0 <= i < |ps| ==> ValidProcedure(ps[i])
    ensures GenProcedures(ps) == Join(Render(ProceduresLayout(ps)), "\n")
    ensures |ProceduresLayout(ps)| >= 1
  {
    if |ps| == 0 {
      RenderTop("");
    } else if |ps| == 1 {
      ProcedureText(ps[0]);
    } else {
      ProcedureText(ps[0]);
      ProceduresText(ps[1..]);
      assert ProcedureTexts(ps) == [GenProcedure(ps[0])] + ProcedureTexts(ps[1..]);
      JoinCons(GenProcedure(ps[0]), ProcedureTexts(ps[1..]), "\n");
      RenderAppend(ProcedureLayout(ps[0]), ProceduresLayout(ps[1..]));
      JoinAppend(Render(ProcedureLayout(ps[0])), Render(ProceduresLayout(ps[1..])), "\n");
    }
  }

  lemma JoinPair(a: string, b: string, sep: string)
    ensures Join([a, b], sep) == a + sep + b
  {
    JoinCons(a, [b], sep);
    assert [a] + [b] == [a, b];
  }

  /** `program_all`: the runtime prelude, a newline, then the rendered
      layout of the procedures in source order followed by main. */
  lemma ProgramText(p: Program)
    requires ValidProgram(p)
    ensures Join([GenProcedures(p.procs), GenMain(p.main)], "\n") == Join(Render(ProgramLayout(p)), "\n")
  {
    ProceduresText(p.procs);
    MainText(p.main);
    RenderAppend(ProceduresLayout(p.procs), MainLayout(p.main));
    JoinAppend(Render(ProceduresLayout(p.procs)), Render(MainLayout(p.main)), "\n");
    JoinPair(GenProcedures(p.procs), GenMain(p.main), "\n");
  }

  /** Splitting a header, a newline and a joined newline-free layout. */
  lemma PreludeShape(header: string, rest: string, layout: seq<Line>)
    requires |layout| >= 1 && NoNewlines(layout) && rest == Join(Render(layout), "\n")
    ensures Split(header + "\n" + rest, '\n') == Split(header, '\n') + Render(layout)
    ensures (header + "\n" + rest)[..|header|] == header
  {
    RenderedNoNewline(layout);
    SplitJoin(Render(layout), '\n');
    SplitAppend(header, rest, '\n');
  }

  /** Split at newlines, a generated program is the prelude's lines followed
      by the layout's lines, and so begins with `RUNTIME_HEADER`. */
  lemma ProgramLines(p: Program)
    requires ValidProgram(p)
    ensures Split(GenProgram(p), '\n') == Split(RuntimeHeader, '\n') + Render(ProgramLayout(p))
    ensures |GenProgram(p)| >= |RuntimeHeader| && GenProgram(p)[..|RuntimeHeader|] == RuntimeHeader
  {
    ProgramText(p);
    ProgramNoNewlines(p);
    PreludeShape(RuntimeHeader, Join([GenProcedures(p.procs), GenMain(p.main)], "\n"), ProgramLayout(p));
  }

  /** The last three lines of every generated program are a blank line and
      the guard that calls `main()`. */
  lemma ProgramEndsWithGuard(p: Program)
    requires ValidProgram(p)
    ensures var lines := Split(GenProgram(p), '\n');
      |lines| >= 3 && lines[|lines| - 3..] == ["", "if __name__ == '__main__':", "    main()"]
  {
    ProgramLines(p);
    GuardRendered(Split(RuntimeHeader, '\n'), ProceduresLayout(p.procs),
      [Line(0, ""), Line(0, "def main():")] + DeclsLayout(p.main.decls) + CommandsLayout(p.main.cmds));
  }

  lemma GuardRendered(pre: seq<string>, procs: seq<Line>, front: seq<Line>)
    ensures var lines := pre + Render(procs + (front + GuardLayout));
      |lines| >= 3 && lines[|lines| - 3..] == ["", "if __name__ == '__main__':", "    main()"]
  {
    assert procs + (front + GuardLayout) == (procs + front) + GuardLayout;
    RenderAppend(procs + front, GuardLayout);
    GuardRender();
  }

  lemma NoNewlinesAppend(a: seq<Line>, b: seq<Line>)
    requires NoNewlines(a) && NoNewlines(b)
    ensures NoNewlines(a + b)
  {
  }

  lemma ProgramNoNewlines(p: Program)
    requires ValidProgram(p)
    ensures NoNewlines(ProgramLayout(p))
  {
    forall i | 0 <= i < |p.procs| ensures NoNewlines(ProcedureLayout(p.procs[i])) {
      BlockNoNewlines(p.procs[i].head, p.procs[i].decls, p.procs[i].cmds);
    }
    ProceduresNoNewlines(p.procs);
    MainNoNewlines(p.main);
    NoNewlinesAppend(ProceduresLayout(p.procs), MainLayout(p.main));
  }

  /** A block's frame around its declaration and command lines. */
  lemma FrameNoNewlines(head: string, ld: seq<Line>, lc: seq<Line>, tail: seq<Line>)
    requires '\n' !in head && Clean(ld) && Clean(lc) && NoNewlines(tail)
    ensures NoNewlines([Line(0, ""), Line(0, head)] + ld + lc + tail)
  {
    CleanHasNoNewlines(ld);
    CleanHasNoNewlines(lc);
    NoNewlinesAppend([Line(0, ""), Line(0, head)], ld);
    NoNewlinesAppend([Line(0, ""), Line(0, head)] + ld, lc);
    NoNewlinesAppend([Line(0, ""), Line(0, head)] + ld + lc, tail);
  }

  lemma GuardTestNoNewline()
    ensures '\n' !in "if __name__ == '__main__':"
  {
  }

  lemma GuardCallNoNewline()
    ensures '\n' !in "main()"
  {
  }

  lemma GuardNoNewlines()
    ensures NoNewlines(GuardLayout)
  {
    GuardTestNoNewline();
    GuardCallNoNewline();
    assert GuardLayout[0].text == "";
    assert GuardLayout[1].text == "if __name__ == '__main__':";
    assert GuardLayout[2].text == "main()";
  }

  lemma MainNoNewlines(m: MainBlock)
    requires ValidMain(m)
    ensures NoNewlines(MainLayout(m))
  {
    GuardNoNewlines();
    DeclsLayoutClean(m.decls);
    CommandsLayoutClean(m.cmds);
    FrameNoNewlines("def main():", DeclsLayout(m.decls), CommandsLayout(m.cmds), GuardLayout);
  }

  lemma BlockNoNewlines(h: ProcHead, ds: seq<Declaration>, cs: seq<Command>)
    requires ValidHead(h) && ValidDeclarations(ds) && ValidCommands(cs)
    ensures NoNewlines(ProcedureLayout(Procedure(h, ds, cs)))
  {
    HeadOneLine(h);
    ConcatNoBreaks("def " + GenHead(h), ":");
    ConcatNoBreaks("def ", GenHead(h));
    DeclsLayoutClean(ds);
    CommandsLayoutClean(cs);
    FrameNoNewlines("def " + GenHead(h) + ":", DeclsLayout(ds), CommandsLayout(cs), [Line(0, "")]);
  }

  lemma {:induction false} ProceduresNoNewlines(ps: seq<Procedure>)
    requires forall i :: 0 <= i < |ps| ==> NoNewlines(ProcedureLayout(ps[i]))
    ensures NoNewlines(ProceduresLayout(ps))
  {
    if |ps| > 1 {
      ProceduresNoNewlines(ps[1..]);
      NoNewlinesAppend(ProcedureLayout(ps[0]), ProceduresLayout(ps[1..]));
    }
  }
}
