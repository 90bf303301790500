/** The command-line driver's exit status. The module-level flag `hasread`
    starts false and the process exits with 1 when it is set and 0 otherwise;
    the `read_cmd` handler means to set it. The handlers run bottom-up over
    the parse tree, so the commands are visited in post-order: the nested
    commands of a compound command before the command itself, procedures
    before `main`. */
module Driver {
  import opened Ast

  // ---------------------------------------------------------------------
  // The order in which the command handlers run
  // ---------------------------------------------------------------------

  /** The commands of `c`'s subtree in the order their handlers run. */
  function PostOrder(c: Command): (r: seq<Command>)
    ensures |r| >= 1 && r[|r| - 1] == c
    decreases c, 1
  {
    match c
    case IfElse(_, t, f) => PostOrderAll(t) + PostOrderAll(f) + [c]
    case IfThen(_, t) => PostOrderAll(t) + [c]
    case WhileLoop(_, body) => PostOrderAll(body) + [c]
    case RepeatUntil(body, _) => PostOrderAll(body) + [c]
    case ForTo(_, _, _, body) => PostOrderAll(body) + [c]
    case ForDownto(_, _, _, body) => PostOrderAll(body) + [c]
    case _ => [c]
  }

  function PostOrderAll(cs: seq<Command>): seq<Command>
    decreases cs, 0
  {
    if cs == [] then [] else PostOrder(cs[0]) + PostOrderAll(cs[1..])
  }

  function ProcedureCalls(ps: seq<Procedure>): seq<Command>
  {
    if ps == [] then [] else PostOrderAll(ps[0].cmds) + ProcedureCalls(ps[1..])
  }

  /** Every command handler call made while translating `p`, in order. */
  function ProgramCalls(p: Program): seq<Command>
  {
    ProcedureCalls(p.procs) + PostOrderAll(p.main.cmds)
  }

  // ---------------------------------------------------------------------
  // Whether a program reads its input: a reference definition
  // ---------------------------------------------------------------------

  /** `c` is a `READ` or holds one among its nested commands. */
  predicate HasRead(c: Command)
    decreases c, 1
  {
    match c
    case Read(_) => true
    case IfElse(_, t, f) => AnyRead(t) || AnyRead(f)
    case IfThen(_, t) => AnyRead(t)
    case WhileLoop(_, body) => AnyRead(body)
    case RepeatUntil(body, _) => AnyRead(body)
    case ForTo(_, _, _, body) => AnyRead(body)
    case ForDownto(_, _, _, body) => AnyRead(body)
    case _ => false
  }

  predicate AnyRead(cs: seq<Command>)
    decreases cs, 0
  {
    exists i :: 0 <= i < |cs| && HasRead(cs[i])
  }

  /** Some procedure or `main` holds a `READ`. */
  predicate ReadsInput(p: Program)
  {
    (exists i :: 0 <= i < |p.procs| && AnyRead(p.procs[i].cmds)) || AnyRead(p.main.cmds)
  }

  /** Some handler call in `calls` is one of `read_cmd`. */
  predicate ContainsRead(calls: seq<Command>)
  {
    exists i :: 0 <= i < |calls| && calls[i].Read?
  }

  lemma ContainsReadAppend(a: seq<Command>, b: seq<Command>)
    ensures ContainsRead(a + b) <==> ContainsRead(a) || ContainsRead(b)
  {
    if ContainsRead(a + b) {
      var i :| 0 <= i < |a + b| && (a + b)[i].Read?;
      if i >= |a| {
        assert b[i - |a|].Read?;
      }
    }
    if ContainsRead(a) {
      var i :| 0 <= i < |a| && a[i].Read?;
      assert (a + b)[i].Read?;
    }
    if ContainsRead(b) {
      var i :| 0 <= i < |b| && b[i].Read?;
      assert (a + b)[|a| + i].Read?;
    }
  }

  lemma AnyReadCons(cs: seq<Command>)
    requires cs != []
    ensures AnyRead(cs) <==> HasRead(cs[0]) || AnyRead(cs[1..])
  {
    if AnyRead(cs) && !HasRead(cs[0]) {
      var i :| 0 <= i < |cs| && HasRead(cs[i]);
      assert cs[1..][i - 1] == cs[i];
    }
    if AnyRead(cs[1..]) {
      var i :| 0 <= i < |cs[1..]| && HasRead(cs[1..][i]);
      assert cs[i + 1] == cs[1..][i];
    }
  }

  /** The `read_cmd` handler runs exactly for the `READ` commands of the tree. */
  lemma {:induction false} PostOrderReads(c: Command)
    ensures ContainsRead(PostOrder(c)) <==> HasRead(c)
    decreases c, 1
  {
    var last := [c];
    assert ContainsRead(last) <==> c.Read? by {
      assert last[0] == c;
    }
    match c
    case IfElse(_, t, f) =>
      PostOrderAllReads(t);
      PostOrderAllReads(f);
      ContainsReadAppend(PostOrderAll(t), PostOrderAll(f));
      ContainsReadAppend(PostOrderAll(t) + PostOrderAll(f), last);
    case IfThen(_, t) =>
      PostOrderAllReads(t);
      ContainsReadAppend(PostOrderAll(t), last);
    case WhileLoop(_, body) =>
      PostOrderAllReads(body);
      ContainsReadAppend(PostOrderAll(body), last);
    case RepeatUntil(body, _) =>
      PostOrderAllReads(body);
      ContainsReadAppend(PostOrderAll(body), last);
    case ForTo(_, _, _, body) =>
      PostOrderAllReads(body);
      ContainsReadAppend(PostOrderAll(body), last);
    case ForDownto(_, _, _, body) =>
      PostOrderAllReads(body);
      ContainsReadAppend(PostOrderAll(body), last);
    case _ =>
  }

  lemma {:induction false} PostOrderAllReads(cs: seq<Command>)
    ensures ContainsRead(PostOrderAll(cs)) <==> AnyRead(cs)
    decreases cs, 0
  {
    if cs != [] {
      PostOrderReads(cs[0]);
      PostOrderAllReads(cs[1..]);
      ContainsReadAppend(PostOrder(cs[0]), PostOrderAll(cs[1..]));
      AnyReadCons(cs);
    }
  }

  lemma {:induction false} ProcedureCallsReads(ps: seq<Procedure>)
    ensures ContainsRead(ProcedureCalls(ps)) <==> exists i :: 0 <= i < |ps| && AnyRead(ps[i].cmds)
  {
    if ps != [] {
      PostOrderAllReads(ps[0].cmds);
      ProcedureCallsReads(ps[1..]);
      ContainsReadAppend(PostOrderAll(ps[0].cmds), ProcedureCalls(ps[1..]));
      if exists i :: 0 <= i < |ps| && AnyRead(ps[i].cmds) {
        var i :| 0 <= i < |ps| && AnyRead(ps[i].cmds);
        if i > 0 {
          assert ps[1..][i - 1] == ps[i];
        }
      }
      if exists i :: 0 <= i < |ps[1..]| && AnyRead(ps[1..][i].cmds) {
        var i :| 0 <= i < |ps[1..]| && AnyRead(ps[1..][i].cmds);
        assert ps[i + 1] == ps[1..][i];
      }
    }
  }

  /** Translating `p` calls `read_cmd` exactly when `p` holds a `READ`. */
  lemma ProgramCallsReads(p: Program)
    ensures ContainsRead(ProgramCalls(p)) <==> ReadsInput(p)
  {
    ProcedureCallsReads(p.procs);
    PostOrderAllReads(p.main.cmds);
    ContainsReadAppend(ProcedureCalls(p.procs), PostOrderAll(p.main.cmds));
  }

  // ---------------------------------------------------------------------
  // The flag and the exit status, as written
  // ---------------------------------------------------------------------

  /** `sys.exit(1 if hasread else 0)`. */
  function ExitStatus(hasread: bool): (status: int)
    ensures status == 1 <==> hasread
    ensures status == 0 <==> !hasread
  {
    if hasread then 1 else 0
  }

  /** The module-level `hasread` after the `read_cmd` handler runs: the
      handler's assignment binds a local of the same name (there is no
      `global` declaration), so the module-level flag keeps its value. */
  function ReadHandler(hasread: bool): bool
  {
    hasread
  }

  /** The module-level `hasread` after the handler calls `calls`. */
  function AfterHandlers(calls: seq<Command>, hasread: bool): bool
  {
    if calls == [] then hasread
    else AfterHandlers(calls[1..], if calls[0].Read? then ReadHandler(hasread) else hasread)
  }

  /** The exit status of the driver after translating `p`. */
  function ProgramExitStatus(p: Program): int
  {
    ExitStatus(AfterHandlers(ProgramCalls(p), false))
  }

  /** No handler call changes the module-level flag. */
  lemma {:induction false} HandlersKeepFlag(calls: seq<Command>, hasread: bool)
    ensures AfterHandlers(calls, hasread) == hasread
  {
    if calls != [] {
      HandlersKeepFlag(calls[1..], hasread);
    }
  }

  /** As written, the driver exits with status 0 for every program. */
  lemma ExitStatusAlwaysZero(p: Program)
    ensures ProgramExitStatus(p) == 0
  {
    HandlersKeepFlag(ProgramCalls(p), false);
  }

  /** `main: READ x; END` reads its input, yet the driver exits with 0. */
  lemma ReadingProgramExitsZero()
    ensures var p := Program([], MainBlock([DeclVar("x")], [Read(IdSimple("x"))]));
      ReadsInput(p) && ProgramExitStatus(p) == 0
  {
    var p := Program([], MainBlock([DeclVar("x")], [Read(IdSimple("x"))]));
    assert HasRead(p.main.cmds[0]);
    ExitStatusAlwaysZero(p);
  }

  // ---------------------------------------------------------------------
  // The flag and the exit status, as evidently intended
  // ---------------------------------------------------------------------

  /** `read_cmd` with `global hasread`: the module-level flag becomes true. */
  function ReadHandlerIntended(hasread: bool): bool
  {
    true
  }

  function AfterHandlersIntended(calls: seq<Command>, hasread: bool): bool
  {
    if calls == [] then hasread
    else AfterHandlersIntended(calls[1..], if calls[0].Read? then ReadHandlerIntended(hasread) else hasread)
  }

  function ProgramExitStatusIntended(p: Program): int
  {
    ExitStatus(AfterHandlersIntended(ProgramCalls(p), false))
  }

  /** With the flag declared global, it ends true exactly when it started
      true or some handler call was one of `read_cmd`. */
  lemma {:induction false} HandlersIntendedFlag(calls: seq<Command>, hasread: bool)
    ensures AfterHandlersIntended(calls, hasread) <==> hasread || ContainsRead(calls)
  {
    if calls != [] {
      var next := if calls[0].Read? then true else hasread;
      HandlersIntendedFlag(calls[1..], next);
      ContainsReadAppend([calls[0]], calls[1..]);
      assert calls == [calls[0]] + calls[1..];
      assert ContainsRead([calls[0]]) <==> calls[0].Read? by {
        assert [calls[0]][0] == calls[0];
      }
    }
  }

  /** As intended, the driver exits with 1 exactly for the programs that
      read their input and with 0 for all others. */
  lemma ExitStatusIntended(p: Program)
    ensures ProgramExitStatusIntended(p) == 1 <==> ReadsInput(p)
    ensures ProgramExitStatusIntended(p) == 0 <==> !ReadsInput(p)
  {
    HandlersIntendedFlag(ProgramCalls(p), false);
    ProgramCallsReads(p);
  }
}
