/** The abstract syntax of the source language, one datatype per group of
    grammar productions. Leaves are already converted the way the
    translator's token handlers convert them: `PIDENTIFIER` to its text,
    `NUM` to a non-negative integer. */
module Ast {

  /** The optional parameter tag `T`, `I`, `O` (or none); parsed and then
      ignored by code generation. */
  datatype ParamKind = KindT | KindI | KindO | NoKind

  datatype ArgDecl = ArgDecl(kind: ParamKind, name: string)

  datatype ProcHead = ProcHead(name: string, params: seq<ArgDecl>)

  /** `decl_var` (`x`) and `decl_array` (`a[start:end]`). */
  datatype Declaration =
    | DeclVar(name: string)
    | DeclArray(name: string, start: nat, end: nat)

  /** `id_simple` (`x`), `id_array_var` (`a[i]`) and `id_array_num` (`a[3]`). */
  datatype Identifier =
    | IdSimple(name: string)
    | IdArrayVar(name: string, index: string)
    | IdArrayNum(name: string, num: nat)

  /** `num_val` and `id_val`. */
  datatype Value = NumVal(n: nat) | IdVal(id: Identifier)

  /** `val_expr` and the five binary operators. */
  datatype Expression =
    | ValExpr(v: Value)
    | Add(left: Value, right: Value)
    | Sub(left: Value, right: Value)
    | Mul(left: Value, right: Value)
    | Div(left: Value, right: Value)
    | Mod(left: Value, right: Value)

  datatype RelOp = Eq | Neq | Gt | Lt | Geq | Leq

  datatype Condition = Condition(op: RelOp, left: Value, right: Value)

  datatype Command =
    | Assign(target: Identifier, expr: Expression)
    | IfElse(cond: Condition, thenCmds: seq<Command>, elseCmds: seq<Command>)
    | IfThen(cond: Condition, thenCmds: seq<Command>)
    | WhileLoop(cond: Condition, body: seq<Command>)
    | RepeatUntil(body: seq<Command>, cond: Condition)
    | ForTo(iter: string, first: Value, last: Value, body: seq<Command>)
    | ForDownto(iter: string, first: Value, last: Value, body: seq<Command>)
    | ProcCall(callee: string, args: seq<string>)
    | Read(target: Identifier)
    | Write(v: Value)

  /** `proc_decl_full` when `decls` is non-empty, `proc_decl_empty` otherwise. */
  datatype Procedure = Procedure(head: ProcHead, decls: seq<Declaration>, cmds: seq<Command>)

  /** `main_full` when `decls` is non-empty, `main_empty` otherwise. */
  datatype MainBlock = MainBlock(decls: seq<Declaration>, cmds: seq<Command>)

  datatype Program = Program(procs: seq<Procedure>, main: MainBlock)

  // ---------------------------------------------------------------------
  // What the grammar admits at the leaves and in the repetitions
  // ---------------------------------------------------------------------

  predicate IsNameChar(ch: char)
  {
    ch == '_' || 'a' <= ch <= 'z'
  }

  /** The token `PIDENTIFIER`, `/[_a-z]+/`. */
  predicate ValidName(s: string)
  {
    |s| > 0 && forall c :: c in s ==> IsNameChar(c)
  }

  predicate ValidIdentifier(id: Identifier)
  {
    match id
    case IdSimple(name) => ValidName(name)
    case IdArrayVar(name, index) => ValidName(name) && ValidName(index)
    case IdArrayNum(name, _) => ValidName(name)
  }

  predicate ValidValue(v: Value)
  {
    v.IdVal? ==> ValidIdentifier(v.id)
  }

  predicate ValidExpression(e: Expression)
  {
    match e
    case ValExpr(v) => ValidValue(v)
    case Add(l, r) => ValidValue(l) && ValidValue(r)
    case Sub(l, r) => ValidValue(l) && ValidValue(r)
    case Mul(l, r) => ValidValue(l) && ValidValue(r)
    case Div(l, r) => ValidValue(l) && ValidValue(r)
    case Mod(l, r) => ValidValue(l) && ValidValue(r)
  }

  predicate ValidCondition(c: Condition)
  {
    ValidValue(c.left) && ValidValue(c.right)
  }

  predicate ValidCommand(c: Command)
  {
    match c
    case Assign(t, e) => ValidIdentifier(t) && ValidExpression(e)
    case IfElse(cond, t, f) => ValidCondition(cond) && ValidCommands(t) && ValidCommands(f)
    case IfThen(cond, t) => ValidCondition(cond) && ValidCommands(t)
    case WhileLoop(cond, body) => ValidCondition(cond) && ValidCommands(body)
    case RepeatUntil(body, cond) => ValidCondition(cond) && ValidCommands(body)
    case ForTo(v, a, b, body) => ValidName(v) && ValidValue(a) && ValidValue(b) && ValidCommands(body)
    case ForDownto(v, a, b, body) => ValidName(v) && ValidValue(a) && ValidValue(b) && ValidCommands(body)
    case ProcCall(name, args) => ValidName(name) && |args| > 0 && forall a :: a in args ==> ValidName(a)
    case Read(t) => ValidIdentifier(t)
    case Write(v) => ValidValue(v)
  }

  /** `commands: command+`. */
  predicate ValidCommands(cs: seq<Command>)
  {
    |cs| > 0 && forall i :: 0 <= i < |cs| ==> ValidCommand(cs[i])
  }

  predicate ValidDeclaration(d: Declaration)
  {
    ValidName(d.name)
  }

  /** `declarations: declaration ("," declaration)*`, or absent when empty. */
  predicate ValidDeclarations(ds: seq<Declaration>)
  {
    forall i :: 0 <= i < |ds| ==> ValidDeclaration(ds[i])
  }

  /** `proc_head: PIDENTIFIER "(" args_decl ")"` with at least one parameter. */
  predicate ValidHead(h: ProcHead)
  {
    ValidName(h.name) && |h.params| > 0 && forall i :: 0 <= i < |h.params| ==> ValidName(h.params[i].name)
  }

  predicate ValidProcedure(p: Procedure)
  {
    ValidHead(p.head) && ValidDeclarations(p.decls) && ValidCommands(p.cmds)
  }

  predicate ValidMain(m: MainBlock)
  {
    ValidDeclarations(m.decls) && ValidCommands(m.cmds)
  }

  predicate ValidProgram(p: Program)
  {
    (forall i :: 0 <= i < |p.procs| ==> ValidProcedure(p.procs[i])) && ValidMain(p.main)
  }
}
