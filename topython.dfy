/** The syntax-directed code generator `ToPython`: one function per grammar
    rule, each folding the text of its children into a fragment of Python
    source, and the program-level layout that puts the runtime prelude first. */
module ToPython {
  import opened PyStr
  import opened Ast

  /** `RUNTIME_HEADER`, emitted once at the top of every generated program;
      module `Runtime` states what it means. */
  const RuntimeHeader: string :=
    "\n"
    + "import sys\n"
    + "\n"
    + "class SmartArray:\n"
    + "    def __init__(self, start, end):\n"
    + "        self.start = int(start)\n"
    + "        self.end = int(end)\n"
    + "        size = max(0, self.end - self.start + 1)\n"
    + "        self.data = [0] * size\n"
    + "\n"
    + "    def _get_idx(self, i):\n"
    + "        return int(i) - self.start\n"
    + "\n"
    + "    def get(self, i):\n"
    + "        idx = self._get_idx(i)\n"
    + "        return self.data[idx] if 0 <= idx < len(self.data) else 0\n"
    + "\n"
    + "    def set(self, i, val):\n"
    + "        idx = self._get_idx(i)\n"
    + "        if 0 <= idx < len(self.data):\n"
    + "            self.data[idx] = val\n"
    + "\n"
    + "def _sub(a, b): return max(0, a - b)\n"
    + "def _div(a, b): return a // b if b != 0 else 0\n"
    + "def _mod(a, b): return a % b if b != 0 else 0\n"

  /** The closing lines of every generated program. */
  const MainGuard: string := "\n" + "\n" + "if __name__ == '__main__':" + "\n" + "    main()"

  /** A text is one non-empty line with no line boundary in it. */
  predicate OneLine(s: string)
  {
    s != "" && NoBreaks(s)
  }

  lemma NameIsOneLine(s: string)
    requires ValidName(s)
    ensures OneLine(s)
  {
    forall c | c in s ensures !IsLineBreak(c) {
      assert IsNameChar(c);
    }
  }

  lemma DecimalIsOneLine(n: nat)
    ensures OneLine(DecimalString(n))
  {
    var s := DecimalString(n);
    forall c | c in s ensures !IsLineBreak(c) {
      assert IsDigit(c);
    }
  }

  // ---------------------------------------------------------------------
  // _indent
  // ---------------------------------------------------------------------

  function Prefixed(lines: seq<string>): (r: seq<string>)
    ensures |r| == |lines|
    ensures forall i :: 0 <= i < |lines| ==> r[i] == "    " + lines[i]
  {
    seq(|lines|, i requires 0 <= i < |lines| => "    " + lines[i])
  }

  /** `_indent(text)`: every line of `text` moved four spaces to the right. */
  function Indent(text: string): string
  {
    if text == "" then "" else Join(Prefixed(SplitLines(text)), "\n")
  }

  /** `_indent("")` is `""`; otherwise each line of the input becomes exactly
      one output line, in the same order, prefixed by four spaces. */
  lemma IndentLines(text: string)
    ensures text == "" ==> Indent(text) == ""
    ensures text != "" ==> Split(Indent(text), '\n') == Prefixed(SplitLines(text))
    ensures text != "" ==> |Split(Indent(text), '\n')| == |SplitLines(text)|
  {
    if text != "" {
      var lines := Prefixed(SplitLines(text));
      forall p | p in lines ensures '\n' !in p {
        var i :| 0 <= i < |lines| && lines[i] == p;
        assert NoBreaks(SplitLines(text)[i]);
        assert p == "    " + SplitLines(text)[i];
      }
      SplitJoin(lines, '\n');
    }
  }

  // ---------------------------------------------------------------------
  // Identifiers, values, expressions, conditions
  // ---------------------------------------------------------------------

  /** What an identifier lowers to: the name of a one-element cell
      (`id_simple`), or an array name with the text of its index
      (`id_array_num`, `id_array_var`: a variable index reads its cell). */
  datatype Target = Scalar(name: string) | Element(name: string, index: string)

  function TargetOf(id: Identifier): Target
  {
    match id
    case IdSimple(name) => Scalar(name)
    case IdArrayNum(name, n) => Element(name, DecimalString(n))
    case IdArrayVar(name, index) => Element(name, index + "[0]")
  }

  /** How `id_val` reads a target. */
  function LowerLoad(t: Target): string
  {
    match t
    case Scalar(name) => name + "[0]"
    case Element(name, index) => name + ".get(" + index + ")"
  }

  /** How `assign` writes `value` to a target. */
  function LowerStore(t: Target, value: string): string
  {
    match t
    case Scalar(name) => name + "[0] = " + value
    case Element(name, index) => name + ".set(" + index + ", " + value + ")"
  }

  /** `num_val` and `id_val`. */
  function GenValue(v: Value): string
  {
    match v
    case NumVal(n) => DecimalString(n)
    case IdVal(id) => LowerLoad(TargetOf(id))
  }

  /** `val_expr`, `add`, `sub`, `mul`, `div`, `mod`: subtraction, division
      and remainder go through the prelude's `_sub`, `_div`, `_mod`. */
  function GenExpr(e: Expression): string
  {
    match e
    case ValExpr(v) => GenValue(v)
    case Add(l, r) => "(" + GenValue(l) + " + " + GenValue(r) + ")"
    case Sub(l, r) => "_sub(" + GenValue(l) + ", " + GenValue(r) + ")"
    case Mul(l, r) => "(" + GenValue(l) + " * " + GenValue(r) + ")"
    case Div(l, r) => "_div(" + GenValue(l) + ", " + GenValue(r) + ")"
    case Mod(l, r) => "_mod(" + GenValue(l) + ", " + GenValue(r) + ")"
  }

  function RelOpText(op: RelOp): string
  {
    match op
    case Eq => "=="
    case Neq => "!="
    case Gt => ">"
    case Lt => "<"
    case Geq => ">="
    case Leq => "<="
  }

  /** `eq`, `neq`, `gt`, `lt`, `geq`, `leq`. */
  function GenCond(c: Condition): string
  {
    GenValue(c.left) + " " + RelOpText(c.op) + " " + GenValue(c.right)
  }

  lemma ValueOneLine(v: Value)
    requires ValidValue(v)
    ensures OneLine(GenValue(v))
  {
    match v
    case NumVal(n) => DecimalIsOneLine(n);
    case IdVal(id) =>
      match id
      case IdSimple(name) => NameIsOneLine(name);
      case IdArrayNum(name, n) => NameIsOneLine(name); DecimalIsOneLine(n);
      case IdArrayVar(name, index) => NameIsOneLine(name); NameIsOneLine(index);
  }

  lemma ExprOneLine(e: Expression)
    requires ValidExpression(e)
    ensures OneLine(GenExpr(e))
  {
    match e
    case ValExpr(v) => ValueOneLine(v);
    case Add(l, r) => ValueOneLine(l); ValueOneLine(r);
    case Sub(l, r) => ValueOneLine(l); ValueOneLine(r);
    case Mul(l, r) => ValueOneLine(l); ValueOneLine(r);
    case Div(l, r) => ValueOneLine(l); ValueOneLine(r);
    case Mod(l, r) => ValueOneLine(l); ValueOneLine(r);
  }

  lemma CondOneLine(c: Condition)
    requires ValidCondition(c)
    ensures OneLine(GenCond(c))
  {
    ValueOneLine(c.left);
    ValueOneLine(c.right);
  }

  // ---------------------------------------------------------------------
  // Commands
  // ---------------------------------------------------------------------

  /** `read_cmd` as the translator writes it: for an array element the
      input is passed as the index and the index as the value. */
  function GenReadAsWritten(t: Target): string
  {
    match t
    case Scalar(name) => name + "[0] = int(input())"
    case Element(name, index) => name + ".set(int(input()), " + index + ")"
  }

  /** `read_cmd` as evidently intended: the input is stored into the
      target exactly as `assign` stores a value. For a scalar this is the
      translator's own text. */
  function GenRead(t: Target): string
  {
    LowerStore(t, "int(input())")
  }

  function GenCommand(c: Command): string
    decreases c
  {
    match c
    case Assign(t, e) => LowerStore(TargetOf(t), GenExpr(e))
    case Write(v) => "print(" + GenValue(v) + ")"
    case Read(t) => GenReadAsWritten(TargetOf(t))
    case IfElse(cond, t, f) => "if " + GenCond(cond) + ":\n" + GenCommands(t) + "\nelse:\n" + GenCommands(f)
    case IfThen(cond, t) => "if " + GenCond(cond) + ":\n" + GenCommands(t)
    case WhileLoop(cond, body) => "while " + GenCond(cond) + ":\n" + GenCommands(body)
    case RepeatUntil(body, cond) => "while True:\n" + GenCommands(body) + "\n    if " + GenCond(cond) + ": break"
    case ForTo(v, a, b, body) =>
      "for __IND in range (" + GenValue(a) + "," + GenValue(b) + "+1):\n"
      + "    " + v + "= [__IND]\n"
      + GenCommands(body) + "\n"
    case ForDownto(v, a, b, body) =>
      "for __IND in range (" + GenValue(a) + "," + GenValue(b) + "-1,-1):\n"
      + "    " + v + "= [__IND]\n"
      + GenCommands(body) + "\n"
    case ProcCall(name, args) => name + "(" + Join(args, ", ") + ")"
  }

  /** `commands`: each command indented one level, one after the other. */
  function GenCommands(cs: seq<Command>): string
    decreases cs, 1
  {
    Join(IndentEach(cs), "\n")
  }

  function IndentEach(cs: seq<Command>): (r: seq<string>)
    ensures |r| == |cs|
    decreases cs, 0
  {
    if cs == [] then [] else [Indent(GenCommand(cs[0]))] + IndentEach(cs[1..])
  }

  // ---------------------------------------------------------------------
  // Declarations, procedures, main, program
  // ---------------------------------------------------------------------

  /** `decl_var` allocates a one-element cell, `decl_array` a `SmartArray`. */
  function GenDecl(d: Declaration): string
  {
    match d
    case DeclVar(name) => name + " = [0]"
    case DeclArray(name, start, end) =>
      name + " = SmartArray(" + DecimalString(start) + ", " + DecimalString(end) + ")"
  }

  function DeclTexts(ds: seq<Declaration>): (r: seq<string>)
    ensures |r| == |ds| && forall i :: 0 <= i < |ds| ==> r[i] == GenDecl(ds[i])
  {
    seq(|ds|, i requires 0 <= i < |ds| => GenDecl(ds[i]))
  }

  /** `declarations`. */
  function GenDecls(ds: seq<Declaration>): string
  {
    Join(DeclTexts(ds), "\n")
  }

  function ParamNames(params: seq<ArgDecl>): (r: seq<string>)
    ensures |r| == |params| && forall i :: 0 <= i < |params| ==> r[i] == params[i].name
  {
    seq(|params|, i requires 0 <= i < |params| => params[i].name)
  }

  /** `proc_head` with `args_decl`: the parameter tags are dropped. */
  function GenHead(h: ProcHead): string
  {
    h.name + "(" + Join(ParamNames(h.params), ", ") + ")"
  }

  /** `proc_decl_full` and `proc_decl_empty`. */
  function GenProcedure(p: Procedure): string
  {
    if |p.decls| > 0 then
      "\ndef " + GenHead(p.head) + ":\n" + Indent(GenDecls(p.decls)) + "\n" + GenCommands(p.cmds) + "\n"
    else
      "\ndef " + GenHead(p.head) + ":\n" + GenCommands(p.cmds) + "\n"
  }

  function ProcedureTexts(ps: seq<Procedure>): (r: seq<string>)
    ensures |r| == |ps| && forall i :: 0 <= i < |ps| ==> r[i] == GenProcedure(ps[i])
  {
    seq(|ps|, i requires 0 <= i < |ps| => GenProcedure(ps[i]))
  }

  /** `procedures`. */
  function GenProcedures(ps: seq<Procedure>): string
  {
    Join(ProcedureTexts(ps), "\n")
  }

  /** `main_full` and `main_empty`. */
  function GenMain(m: MainBlock): string
  {
    if |m.decls| > 0 then
      "\ndef main():\n" + Indent(GenDecls(m.decls)) + "\n" + GenCommands(m.cmds) + MainGuard
    else
      "\ndef main():\n" + GenCommands(m.cmds) + MainGuard
  }

  /** `program_all`: the runtime prelude, then the procedures, then main. */
  function GenProgram(p: Program): string
  {
    RuntimeHeader + "\n" + Join([GenProcedures(p.procs), GenMain(p.main)], "\n")
  }
}
