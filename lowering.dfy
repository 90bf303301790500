/** Reading the generated statements and operands back. Each decoder below
    recovers, from the text the generator emits, the source-level entity it
    came from; the round-trip lemmas show that the lowering of identifiers,
    values, expressions, conditions and assignments loses nothing. The same
    decoder shows what the array case of `read_cmd` really writes. */
module Lowering {
  import opened PyStr
  import opened Ast
  import opened ToPython

  datatype Option<T> = None | Some(value: T)

  /** Length of the longest prefix of `s` made of `PIDENTIFIER` characters. */
  function NameLength(s: string): (k: nat)
    ensures k <= |s|
    ensures forall i :: 0 <= i < k ==> IsNameChar(s[i])
    ensures k < |s| ==> !IsNameChar(s[k])
  {
    if |s| == 0 || !IsNameChar(s[0]) then 0 else 1 + NameLength(s[1..])
  }

  lemma NameLengthOf(name: string, rest: string)
    requires ValidName(name)
    requires rest == [] || !IsNameChar(rest[0])
    ensures NameLength(name + rest) == |name|
    ensures (name + rest)[..|name|] == name && (name + rest)[|name|..] == rest
  {
    var s := name + rest;
    forall i | 0 <= i < |name| ensures IsNameChar(s[i]) {
      assert s[i] == name[i] && name[i] in name;
    }
    assert rest != [] ==> s[|name|] == rest[0];
  }

  // ---------------------------------------------------------------------
  // Loads and stores
  // ---------------------------------------------------------------------

  /** The target an `id_val` read names: `name[0]` or `name.get(index)`. */
  function DecodeLoad(s: string): Option<Target>
  {
    var k := NameLength(s);
    if k == 0 then None else DecodeAccess(s[..k], s[k..])
  }

  /** What follows the name in a read. */
  function DecodeAccess(name: string, rest: string): Option<Target>
  {
    if rest == "[0]" then Some(Scalar(name))
    else if |rest| >= 6 && rest[..5] == ".get(" && rest[|rest| - 1] == ')' then
      Some(Element(name, rest[5..|rest| - 1]))
    else None
  }

  /** The target and the stored text of a store statement: `name[0] = value`
      or `name.set(index, value)`. */
  function DecodeStore(s: string): Option<(Target, string)>
  {
    var k := NameLength(s);
    if k == 0 then None else DecodeUpdate(s[..k], s[k..])
  }

  /** What follows the name in a store statement. */
  function DecodeUpdate(name: string, rest: string): Option<(Target, string)>
  {
    if |rest| >= 6 && rest[..6] == "[0] = " then Some((Scalar(name), rest[6..]))
    else if |rest| >= 6 && rest[..5] == ".set(" && rest[|rest| - 1] == ')' then
      match DecodeSetArgs(rest[5..|rest| - 1])
      case None => None
      case Some((index, value)) => Some((Element(name, index), value))
    else None
  }

  /** The arguments of `set`: the index runs to the first comma, the stored
      text is everything after the following space. */
  function DecodeSetArgs(args: string): Option<(string, string)>
  {
    var parts := Split(args, ',');
    if |parts| >= 2 && |parts[1]| >= 1 && parts[1][0] == ' ' then
      Some((parts[0], Join([parts[1][1..]] + parts[2..], ",")))
    else None
  }

  /** A load reads back as the target it was lowered from. */
  lemma LoadRoundTrip(t: Target)
    requires ValidName(t.name)
    ensures DecodeLoad(LowerLoad(t)) == Some(t)
  {
    match t
    case Scalar(name) => NameLengthOf(name, "[0]");
    case Element(name, index) =>
      var rest := ".get(" + index + ")";
      assert LowerLoad(t) == name + rest;
      NameLengthOf(name, rest);
      assert rest[5..|rest| - 1] == index;
  }

  /** `a + ", " + b` split at commas: the pieces of `a`, then `" " + b`'s. */
  lemma SplitComma(a: string, b: string)
    requires ',' !in a
    ensures Split(a + ", " + b, ',') == [a] + Split(" " + b, ',')
  {
    CommaGlue(a, b);
    SplitAppend(a, " " + b, ',');
    SplitNoSeparator(a, ',');
  }

  lemma CommaGlue(a: string, b: string)
    ensures a + ", " + b == a + [','] + (" " + b)
  {
  }

  /** A stored value comes back whole, commas included. */
  lemma RejoinValue(v: string)
    ensures var args := Split(" " + v, ',');
      |args[0]| >= 1 && args[0][0] == ' ' && Join([args[0][1..]] + args[1..], ",") == v
  {
    var args := Split(" " + v, ',');
    var tail := Split(v, ',');
    assert (" " + v)[1..] == v;
    assert args == [[' '] + tail[0]] + tail[1..];
    assert ([' '] + tail[0])[1..] == tail[0];
    assert [tail[0]] + tail[1..] == tail;
    JoinSplit(v, ',');
  }

  lemma SetArgsRoundTrip(index: string, value: string)
    requires ',' !in index
    ensures DecodeSetArgs(index + ", " + value) == Some((index, value))
  {
    SplitComma(index, value);
    RejoinValue(value);
    var parts := Split(index + ", " + value, ',');
    assert parts[1..] == Split(" " + value, ',');
    assert parts[2..] == Split(" " + value, ',')[1..];
  }

  lemma ScalarStoreRoundTrip(name: string, value: string)
    requires ValidName(name)
    ensures DecodeStore(LowerStore(Scalar(name), value)) == Some((Scalar(name), value))
  {
    var rest := "[0] = " + value;
    assert LowerStore(Scalar(name), value) == name + rest;
    NameLengthOf(name, rest);
    assert rest[..6] == "[0] = " && rest[6..] == value;
  }

  lemma ElementStoreRoundTrip(name: string, index: string, value: string)
    requires ValidName(name) && ',' !in index
    ensures DecodeStore(LowerStore(Element(name, index), value)) == Some((Element(name, index), value))
  {
    var rest := ".set(" + index + ", " + value + ")";
    assert LowerStore(Element(name, index), value) == name + rest;
    NameLengthOf(name, rest);
    assert rest[..6] != "[0] = " by { assert rest[0] == '.'; }
    assert rest[..5] == ".set(" && rest[|rest| - 1] == ')';
    assert rest[5..|rest| - 1] == index + ", " + value;
    SetArgsRoundTrip(index, value);
  }

  /** A store reads back as its target and the stored text, for every index
      without a comma (a decimal number or `name[0]`). */
  lemma StoreRoundTrip(t: Target, value: string)
    requires ValidName(t.name)
    requires t.Element? ==> ',' !in t.index
    ensures DecodeStore(LowerStore(t, value)) == Some((t, value))
  {
    match t
    case Scalar(name) => ScalarStoreRoundTrip(name, value);
    case Element(name, index) => ElementStoreRoundTrip(name, index, value);
  }

  // ---------------------------------------------------------------------
  // Identifiers and values
  // ---------------------------------------------------------------------

  /** The identifier a target stands for: `id_simple`, `id_array_num` (a
      decimal index) or `id_array_var` (an index cell `name[0]`). */
  function IdentifierOfTarget(t: Target): Option<Identifier>
  {
    if !ValidName(t.name) then None
    else match t
      case Scalar(name) => Some(IdSimple(name))
      case Element(name, index) =>
        if |index| > 0 && AllDigits(index) then Some(IdArrayNum(name, DecimalValue(index)))
        else if |index| > 3 && index[|index| - 3..] == "[0]" && ValidName(index[..|index| - 3]) then
          Some(IdArrayVar(name, index[..|index| - 3]))
        else None
  }

  /** The index text of an array identifier never holds a comma. */
  lemma IndexHasNoComma(id: Identifier)
    requires ValidIdentifier(id)
    ensures TargetOf(id).Element? ==> ',' !in TargetOf(id).index
  {
    match id
    case IdSimple(_) =>
    case IdArrayNum(_, n) =>
      var s := DecimalString(n);
      forall i | 0 <= i < |s| ensures s[i] != ',' {
        assert IsDigit(s[i]);
      }
    case IdArrayVar(_, index) =>
      forall i | 0 <= i < |index| ensures index[i] != ',' {
        assert index[i] in index;
      }
      assert index + "[0]" == index + ['[', '0', ']'];
  }

  /** Lowering an identifier loses nothing: its target names it again. */
  lemma TargetRoundTrip(id: Identifier)
    requires ValidIdentifier(id)
    ensures IdentifierOfTarget(TargetOf(id)) == Some(id)
  {
    match id
    case IdSimple(_) =>
    case IdArrayNum(_, n) =>
      DecimalRoundTrip(n);
    case IdArrayVar(_, index) =>
      var s := index + "[0]";
      assert s[0] == index[0] && index[0] in index;
      assert !IsDigit(s[0]);
      assert s[|s| - 3..] == "[0]" && s[..|s| - 3] == index;
  }

  /** The operand a `num_val` or `id_val` text stands for. */
  function DecodeValue(s: string): Option<Value>
  {
    if |s| > 0 && AllDigits(s) then Some(NumVal(DecimalValue(s)))
    else match DecodeLoad(s)
      case None => None
      case Some(t) =>
        match IdentifierOfTarget(t)
        case None => None
        case Some(id) => Some(IdVal(id))
  }

  /** An identifier's name comes first in its lowered read. */
  lemma LoadStartsWithName(t: Target)
    requires ValidName(t.name)
    ensures |LowerLoad(t)| > 0 && LowerLoad(t)[0] == t.name[0]
  {
  }

  /** Lowering an operand loses nothing. */
  lemma ValueRoundTrip(v: Value)
    requires ValidValue(v)
    ensures DecodeValue(GenValue(v)) == Some(v)
  {
    match v
    case NumVal(n) => DecimalRoundTrip(n);
    case IdVal(id) =>
      var t := TargetOf(id);
      LoadStartsWithName(t);
      assert t.name[0] in t.name;
      assert !IsDigit(LowerLoad(t)[0]);
      LoadRoundTrip(t);
      TargetRoundTrip(id);
  }

  /** An operand's text holds neither a space nor a comma. */
  lemma ValueHasNoSeparators(v: Value)
    requires ValidValue(v)
    ensures ' ' !in GenValue(v) && ',' !in GenValue(v)
  {
    var s := GenValue(v);
    match v
    case NumVal(n) =>
      forall i | 0 <= i < |s| ensures s[i] != ' ' && s[i] != ',' {
        assert IsDigit(s[i]);
      }
    case IdVal(id) =>
      var t := TargetOf(id);
      IndexHasNoComma(id);
      assert ' ' !in t.name && ',' !in t.name by {
        forall i | 0 <= i < |t.name| ensures IsNameChar(t.name[i]) {
          assert t.name[i] in t.name;
        }
      }
      if t.Element? {
        assert ' ' !in t.index by {
          match id
          case IdArrayNum(_, n) =>
            forall i | 0 <= i < |t.index| ensures t.index[i] != ' ' {
              assert IsDigit(t.index[i]);
            }
          case IdArrayVar(_, index) =>
            forall i | 0 <= i < |index| ensures index[i] != ' ' {
              assert index[i] in index;
            }
            assert t.index == index + ['[', '0', ']'];
        }
        assert s == t.name + ".get(" + t.index + ")";
      } else {
        assert s == t.name + "[0]";
      }
  }

  // ---------------------------------------------------------------------
  // Expressions and conditions
  // ---------------------------------------------------------------------

  /** `left, right` inside the parentheses of `_sub`, `_div`, `_mod`. */
  function DecodeArgs(s: string): Option<(Value, Value)>
  {
    var parts := Split(s, ',');
    if |parts| == 2 && |parts[1]| >= 1 && parts[1][0] == ' ' then
      match (DecodeValue(parts[0]), DecodeValue(parts[1][1..]))
      case (Some(l), Some(r)) => Some((l, r))
      case _ => None
    else None
  }

  /** `left op right` with single spaces around the operator. */
  function DecodeInfix(s: string): Option<(Value, string, Value)>
  {
    var parts := Split(s, ' ');
    if |parts| == 3 then
      match (DecodeValue(parts[0]), DecodeValue(parts[2]))
      case (Some(l), Some(r)) => Some((l, parts[1], r))
      case _ => None
    else None
  }

  /** The expression an expression text stands for. */
  function DecodeExpr(s: string): Option<Expression>
  {
    if DecodeValue(s).Some? then Some(ValExpr(DecodeValue(s).value))
    else if |s| >= 6 && s[|s| - 1] == ')' && DecodeCall(s[..5], s[5..|s| - 1]).Some? then
      DecodeCall(s[..5], s[5..|s| - 1])
    else if |s| >= 2 && s[0] == '(' && s[|s| - 1] == ')' then DecodeParen(s[1..|s| - 1])
    else None
  }

  /** `_sub(l, r)`, `_div(l, r)`, `_mod(l, r)`, split into the helper's
      name with its parenthesis and the argument text. */
  function DecodeCall(helper: string, args: string): Option<Expression>
  {
    match DecodeArgs(args)
    case None => None
    case Some((l, r)) =>
      if helper == "_sub(" then Some(Sub(l, r))
      else if helper == "_div(" then Some(Div(l, r))
      else if helper == "_mod(" then Some(Mod(l, r))
      else None
  }

  /** `l + r` and `l * r` inside parentheses. */
  function DecodeParen(inner: string): Option<Expression>
  {
    match DecodeInfix(inner)
    case Some((l, "+", r)) => Some(Add(l, r))
    case Some((l, "*", r)) => Some(Mul(l, r))
    case _ => None
  }

  lemma SplitThree(a: string, b: string, c: string, sep: char)
    requires sep !in a && sep !in b && sep !in c
    ensures Split(a + [sep] + b + [sep] + c, sep) == [a, b, c]
  {
    SplitAppend(a + [sep] + b, c, sep);
    SplitAppend(a, b, sep);
    SplitNoSeparator(a, sep);
    SplitNoSeparator(b, sep);
    SplitNoSeparator(c, sep);
  }

  lemma InfixRoundTrip(l: Value, op: string, r: Value)
    requires ValidValue(l) && ValidValue(r) && ' ' !in op
    ensures DecodeInfix(GenValue(l) + " " + op + " " + GenValue(r)) == Some((l, op, r))
  {
    ValueHasNoSeparators(l);
    ValueHasNoSeparators(r);
    SplitThree(GenValue(l), op, GenValue(r), ' ');
    ValueRoundTrip(l);
    ValueRoundTrip(r);
  }

  lemma ArgsRoundTrip(l: Value, r: Value)
    requires ValidValue(l) && ValidValue(r)
    ensures DecodeArgs(GenValue(l) + ", " + GenValue(r)) == Some((l, r))
  {
    var a, b := GenValue(l), GenValue(r);
    ValueHasNoSeparators(l);
    ValueHasNoSeparators(r);
    SplitComma(a, b);
    SplitAppend(" ", b, ',');
    SplitNoSeparator(" " + b, ',');
    assert (" " + b)[1..] == b;
    ValueRoundTrip(l);
    ValueRoundTrip(r);
  }

  /** A text that is not an operand: a call of a prelude helper or a
      parenthesised infix operation. */
  lemma NotAValue(s: string)
    requires (|s| >= 5 && (forall i :: 0 <= i < 4 ==> IsNameChar(s[i])) && s[4] == '(') || (|s| > 0 && s[0] == '(')
    ensures DecodeValue(s) == None
  {
    assert !IsDigit(s[0]);
    if s[0] != '(' {
      assert NameLength(s) == 4;
    }
  }

  /** A parenthesised text is decoded as an infix operation. */
  lemma ParenDispatch(s: string)
    requires |s| >= 2 && s[0] == '(' && s[|s| - 1] == ')'
    ensures DecodeExpr(s) == DecodeParen(s[1..|s| - 1])
  {
    NotAValue(s);
    if |s| >= 6 {
      assert s[..5][0] == '(';
      assert DecodeCall(s[..5], s[5..|s| - 1]) == None;
    }
  }

  /** A helper call is decoded by its helper's name. */
  lemma CallDispatch(helper: string, args: string)
    requires helper == "_sub(" || helper == "_div(" || helper == "_mod("
    requires DecodeCall(helper, args).Some?
    ensures DecodeExpr(helper + args + ")") == DecodeCall(helper, args)
  {
    var s := helper + args + ")";
    assert s[..5] == helper && s[5..|s| - 1] == args;
    assert s[0] == '_' && IsNameChar(s[1]) && IsNameChar(s[2]) && IsNameChar(s[3]) && s[4] == '(';
    NotAValue(s);
  }

  lemma GlueCall(helper: string, a: string, b: string)
    ensures helper + a + ", " + b + ")" == helper + (a + ", " + b) + ")"
  {
  }

  lemma CallExprRoundTrip(e: Expression)
    requires (e.Sub? || e.Div? || e.Mod?) && ValidExpression(e)
    ensures DecodeExpr(GenExpr(e)) == Some(e)
  {
    var helper := if e.Sub? then "_sub(" else if e.Div? then "_div(" else "_mod(";
    var a, b := GenValue(e.left), GenValue(e.right);
    assert GenExpr(e) == helper + a + ", " + b + ")";
    GlueCall(helper, a, b);
    ArgsRoundTrip(e.left, e.right);
    CallDispatch(helper, a + ", " + b);
  }

  /** `(l op r)` decodes as its infix operation. */
  lemma ParenRoundTrip(l: Value, op: string, r: Value)
    requires ValidValue(l) && ValidValue(r) && (op == "+" || op == "*")
    ensures DecodeExpr("(" + (GenValue(l) + " " + op + " " + GenValue(r)) + ")")
         == Some(if op == "+" then Add(l, r) else Mul(l, r))
  {
    var inner := GenValue(l) + " " + op + " " + GenValue(r);
    var s := "(" + inner + ")";
    assert s[1..|s| - 1] == inner;
    ParenDispatch(s);
    InfixRoundTrip(l, op, r);
  }

  lemma GlueAdd(a: string, b: string)
    ensures "(" + a + " + " + b + ")" == "(" + (a + " " + "+" + " " + b) + ")"
  {
  }

  lemma GlueMul(a: string, b: string)
    ensures "(" + a + " * " + b + ")" == "(" + (a + " " + "*" + " " + b) + ")"
  {
  }

  lemma ParenExprRoundTrip(e: Expression)
    requires (e.Add? || e.Mul?) && ValidExpression(e)
    ensures DecodeExpr(GenExpr(e)) == Some(e)
  {
    if e.Add? {
      GlueAdd(GenValue(e.left), GenValue(e.right));
      ParenRoundTrip(e.left, "+", e.right);
    } else {
      GlueMul(GenValue(e.left), GenValue(e.right));
      ParenRoundTrip(e.left, "*", e.right);
    }
  }

  /** Lowering an expression loses nothing: the operator and both operands
      come back, and `-`, `/`, `%` are recognised by their helper's name. */
  lemma ExprRoundTrip(e: Expression)
    requires ValidExpression(e)
    ensures DecodeExpr(GenExpr(e)) == Some(e)
  {
    match e
    case ValExpr(v) => ValueRoundTrip(v);
    case Add(_, _) => ParenExprRoundTrip(e);
    case Mul(_, _) => ParenExprRoundTrip(e);
    case Sub(_, _) => CallExprRoundTrip(e);
    case Div(_, _) => CallExprRoundTrip(e);
    case Mod(_, _) => CallExprRoundTrip(e);
  }

  function RelOpOf(s: string): Option<RelOp>
  {
    if s == "==" then Some(Eq)
    else if s == "!=" then Some(Neq)
    else if s == ">" then Some(Gt)
    else if s == "<" then Some(Lt)
    else if s == ">=" then Some(Geq)
    else if s == "<=" then Some(Leq)
    else None
  }

  /** The condition a condition text stands for. */
  function DecodeCond(s: string): Option<Condition>
  {
    match DecodeInfix(s)
    case None => None
    case Some((l, op, r)) =>
      match RelOpOf(op)
      case None => None
      case Some(o) => Some(Condition(o, l, r))
  }

  /** Lowering a condition loses nothing. */
  lemma CondRoundTrip(c: Condition)
    requires ValidCondition(c)
    ensures DecodeCond(GenCond(c)) == Some(c)
  {
    InfixRoundTrip(c.left, RelOpText(c.op), c.right);
  }

  // ---------------------------------------------------------------------
  // Procedure heads
  // ---------------------------------------------------------------------

  /** Each text with one space in front of it. */
  function SpaceEach(texts: seq<string>): (r: seq<string>)
    ensures |r| == |texts| && forall i :: 0 <= i < |texts| ==> r[i] == " " + texts[i]
  {
    seq(|texts|, i requires 0 <= i < |texts| => " " + texts[i])
  }

  /** The procedure name and the parameter names of a `proc_head` text
      `name(a, b, c)`. */
  function DecodeHead(s: string): Option<(string, seq<string>)>
  {
    var k := NameLength(s);
    if k == 0 then None else DecodeParamList(s[..k], s[k..])
  }

  /** What follows the name in a head: the parenthesised parameter list. */
  function DecodeParamList(name: string, rest: string): Option<(string, seq<string>)>
  {
    if |rest| >= 2 && rest[0] == '(' && rest[|rest| - 1] == ')' then
      match DecodeParams(Split(rest[1..|rest| - 1], ','))
      case None => None
      case Some(names) => Some((name, names))
    else None
  }

  /** The pieces of `args_decl` split at commas: every piece after the
      first starts with the space that `", "` put there. */
  function DecodeParams(parts: seq<string>): Option<seq<string>>
  {
    if |parts| >= 1 && forall i :: 1 <= i < |parts| ==> |parts[i]| >= 1 && parts[i][0] == ' ' then
      Some([parts[0]] + seq(|parts| - 1, i requires 0 <= i < |parts| - 1 => parts[i + 1][1..]))
    else None
  }

  lemma CommaSpaceGlue(pre: string, first: string, joined: string)
    ensures pre + (first + ", " + joined) == (pre + first) + "," + (" " + joined)
  {
  }

  /** Joining with `", "` is joining with `","` after putting a space in
      front of every item but the first. */
  lemma {:induction false} JoinCommaSpace(pre: string, first: string, rest: seq<string>)
    ensures pre + Join([first] + rest, ", ") == Join([pre + first] + SpaceEach(rest), ",")
    decreases |rest|
  {
    if rest == [] {
      assert [first] + rest == [first];
      assert [pre + first] + SpaceEach(rest) == [pre + first];
    } else {
      JoinCons(first, rest, ", ");
      assert rest == [rest[0]] + rest[1..];
      JoinCommaSpace(" ", rest[0], rest[1..]);
      assert SpaceEach(rest) == [" " + rest[0]] + SpaceEach(rest[1..]);
      JoinCons(pre + first, SpaceEach(rest), ",");
      CommaSpaceGlue(pre, first, Join(rest, ", "));
    }
  }

  /** A name holds no comma, with or without a space in front. */
  lemma SpacedNamesHaveNoComma(names: seq<string>)
    requires |names| >= 1 && forall i :: 0 <= i < |names| ==> ValidName(names[i])
    ensures forall p | p in [names[0]] + SpaceEach(names[1..]) :: ',' !in p
  {
    var pieces := [names[0]] + SpaceEach(names[1..]);
    forall p | p in pieces ensures ',' !in p {
      var j :| 0 <= j < |pieces| && pieces[j] == p;
      var n := names[j];
      forall k | 0 <= k < |n| ensures n[k] != ',' {
        assert n[k] in n;
      }
      if j > 0 {
        assert p == " " + n;
      }
    }
  }

  /** Dropping the leading spaces again gives back the names. */
  lemma DecodeSpacedNames(names: seq<string>)
    requires |names| >= 1
    ensures DecodeParams([names[0]] + SpaceEach(names[1..])) == Some(names)
  {
    var pieces := [names[0]] + SpaceEach(names[1..]);
    assert forall i :: 1 <= i < |pieces| ==> pieces[i] == " " + names[i];
    var decoded := [pieces[0]] + seq(|pieces| - 1, i requires 0 <= i < |pieces| - 1 => pieces[i + 1][1..]);
    assert decoded == names;
  }

  lemma JoinedAsPieces(names: seq<string>)
    requires |names| >= 1
    ensures Join(names, ", ") == Join([names[0]] + SpaceEach(names[1..]), [','])
  {
    assert names == [names[0]] + names[1..];
    JoinCommaSpace("", names[0], names[1..]);
    assert "" + names[0] == names[0];
  }

  /** The parameter list `a, b, c` reads back as the parameter names. */
  lemma ParamsRoundTrip(names: seq<string>)
    requires |names| >= 1 && forall i :: 0 <= i < |names| ==> ValidName(names[i])
    ensures DecodeParams(Split(Join(names, ", "), ',')) == Some(names)
  {
    var pieces := [names[0]] + SpaceEach(names[1..]);
    JoinedAsPieces(names);
    SpacedNamesHaveNoComma(names);
    SplitJoin(pieces, ',');
    DecodeSpacedNames(names);
  }

  /** `proc_head` loses nothing but the parameter tags: its text reads back
      as the procedure name and the parameter names, in order. */
  lemma HeadRoundTrip(h: ProcHead)
    requires ValidHead(h)
    ensures DecodeHead(GenHead(h)) == Some((h.name, ParamNames(h.params)))
  {
    var names := ParamNames(h.params);
    var inner := Join(names, ", ");
    var rest := "(" + inner + ")";
    assert GenHead(h) == h.name + rest;
    NameLengthOf(h.name, rest);
    assert rest[1..|rest| - 1] == inner;
    ParamsRoundTrip(names);
  }

  /** Two heads emit the same text exactly when they have the same name and
      the same parameter names: the `T`, `I`, `O` tags leave no trace. */
  lemma HeadTextDeterminesNames(h1: ProcHead, h2: ProcHead)
    requires ValidHead(h1) && ValidHead(h2)
    ensures GenHead(h1) == GenHead(h2)
        <==> h1.name == h2.name && ParamNames(h1.params) == ParamNames(h2.params)
  {
    HeadRoundTrip(h1);
    HeadRoundTrip(h2);
  }

  /** Changing only the parameter tags does not change the head's text. */
  lemma HeadIgnoresKinds(h: ProcHead, kinds: seq<ParamKind>)
    requires |kinds| == |h.params|
    ensures var retagged := seq(|h.params|, i requires 0 <= i < |h.params| => ArgDecl(kinds[i], h.params[i].name));
      GenHead(ProcHead(h.name, retagged)) == GenHead(h)
  {
    var retagged := seq(|h.params|, i requires 0 <= i < |h.params| => ArgDecl(kinds[i], h.params[i].name));
    assert ParamNames(retagged) == ParamNames(h.params);
  }

  // ---------------------------------------------------------------------
  // Declarations
  // ---------------------------------------------------------------------

  /** The declaration a `decl_var` or `decl_array` line declares. */
  function DecodeDecl(s: string): Option<Declaration>
  {
    var k := NameLength(s);
    if k == 0 then None else DecodeAllocation(s[..k], s[k..])
  }

  /** What follows the name: a one-element cell or a `SmartArray` call. */
  function DecodeAllocation(name: string, rest: string): Option<Declaration>
  {
    var call := " = SmartArray(";
    if rest == " = [0]" then Some(DeclVar(name))
    else if |rest| > |call| && rest[..|call|] == call && rest[|rest| - 1] == ')' then
      DecodeBounds(name, Split(rest[|call|..|rest| - 1], ','))
    else None
  }

  /** The two bounds of a `SmartArray` call, split at its comma. */
  function DecodeBounds(name: string, parts: seq<string>): Option<Declaration>
  {
    if |parts| == 2 && |parts[0]| > 0 && AllDigits(parts[0])
       && |parts[1]| > 1 && parts[1][0] == ' ' && AllDigits(parts[1][1..])
    then Some(DeclArray(name, DecimalValue(parts[0]), DecimalValue(parts[1][1..])))
    else None
  }

  lemma DigitsHaveNoComma(s: string)
    requires AllDigits(s)
    ensures ',' !in s && ',' !in " " + s
  {
    assert !IsDigit(',');
    assert forall c :: c in " " + s ==> c == ' ' || c in s;
  }

  /** `start, end` reads back as both bounds. */
  lemma BoundsRoundTrip(name: string, start: nat, end: nat)
    ensures var lo, hi := DecimalString(start), DecimalString(end);
      DecodeBounds(name, Split(lo + ", " + hi, ',')) == Some(DeclArray(name, start, end))
  {
    var lo, hi := DecimalString(start), DecimalString(end);
    DigitsHaveNoComma(lo);
    DigitsHaveNoComma(hi);
    SplitComma(lo, hi);
    SplitNoSeparator(" " + hi, ',');
    assert (" " + hi)[1..] == hi;
    DecimalRoundTrip(start);
    DecimalRoundTrip(end);
  }

  lemma GlueDecl(name: string, lo: string, hi: string)
    ensures name + " = SmartArray(" + lo + ", " + hi + ")" == name + (" = SmartArray(" + (lo + ", " + hi) + ")")
  {
  }

  /** `decl_var` and `decl_array` lose nothing: the line reads back as the
      declared name, and for an array both bounds in their order. */
  lemma DeclRoundTrip(d: Declaration)
    requires ValidDeclaration(d)
    ensures DecodeDecl(GenDecl(d)) == Some(d)
  {
    match d
    case DeclVar(name) =>
      NameLengthOf(name, " = [0]");
    case DeclArray(name, start, end) =>
      var inner := DecimalString(start) + ", " + DecimalString(end);
      var rest := " = SmartArray(" + inner + ")";
      GlueDecl(name, DecimalString(start), DecimalString(end));
      NameLengthOf(name, rest);
      assert |rest| > 6;
      assert rest[..14] == " = SmartArray(" && rest[14..|rest| - 1] == inner;
      BoundsRoundTrip(name, start, end);
  }

  // ---------------------------------------------------------------------
  // Procedure calls and writes
  // ---------------------------------------------------------------------

  /** `proc_call` has the shape of a head: the callee's name and the
      arguments, bare cell names, joined by `", "`. It reads back as the
      name and the arguments, in order, so no argument is dropped, moved or
      dereferenced: each procedure receives the caller's cells themselves. */
  lemma CallRoundTrip(name: string, args: seq<string>)
    requires ValidCommand(ProcCall(name, args))
    ensures DecodeHead(GenCommand(ProcCall(name, args))) == Some((name, args))
  {
    var rest := "(" + Join(args, ", ") + ")";
    assert GenCommand(ProcCall(name, args)) == name + rest;
    NameLengthOf(name, rest);
    assert rest[1..|rest| - 1] == Join(args, ", ");
    forall i | 0 <= i < |args| ensures ValidName(args[i]) {
      assert args[i] in args;
    }
    ParamsRoundTrip(args);
  }

  /** The operand of a `print(...)` statement. */
  function DecodePrint(s: string): Option<Value>
  {
    var call := "print(";
    if |s| > |call| && s[..|call|] == call && s[|s| - 1] == ')' then DecodeValue(s[|call|..|s| - 1])
    else None
  }

  /** `write_cmd` prints its operand's text, which reads back as the operand. */
  lemma WriteRoundTrip(v: Value)
    requires ValidValue(v)
    ensures DecodePrint(GenCommand(Write(v))) == Some(v)
  {
    var s := "print(" + GenValue(v) + ")";
    assert GenCommand(Write(v)) == s;
    assert s[..6] == "print(";
    assert s[6..|s| - 1] == GenValue(v);
    ValueRoundTrip(v);
  }

  // ---------------------------------------------------------------------
  // Assignments and reads
  // ---------------------------------------------------------------------

  /** `assign` writes the expression to the cell its identifier names. */
  lemma AssignRoundTrip(id: Identifier, e: Expression)
    requires ValidIdentifier(id) && ValidExpression(e)
    ensures DecodeStore(GenCommand(Assign(id, e))) == Some((TargetOf(id), GenExpr(e)))
    ensures IdentifierOfTarget(TargetOf(id)) == Some(id)
    ensures DecodeExpr(GenExpr(e)) == Some(e)
  {
    IndexHasNoComma(id);
    StoreRoundTrip(TargetOf(id), GenExpr(e));
    TargetRoundTrip(id);
    ExprRoundTrip(e);
  }

  lemma ReadGlue(name: string, index: string)
    ensures GenReadAsWritten(Element(name, index)) == LowerStore(Element(name, "int(input())"), index)
  {
  }

  /** The input text names no identifier. */
  lemma InputIsNoIndex(name: string)
    ensures IdentifierOfTarget(Element(name, "int(input())")) == None
  {
    var s := "int(input())";
    assert !IsDigit(s[0]);
    assert s[|s| - 3..] != "[0]" by { assert s[|s| - 1] == ')'; }
  }

  /** The text `read_cmd` emits for an array element, as written, is the
      store of the element's index text into the cell the input selects,
      and that cell is not the element the `READ` names. */
  lemma ReadAsWritten(id: Identifier)
    requires ValidIdentifier(id) && !id.IdSimple?
    ensures DecodeStore(GenCommand(Read(id)))
         == Some((Element(id.name, "int(input())"), TargetOf(id).index))
    ensures IdentifierOfTarget(Element(id.name, "int(input())")) == None
  {
    var t := TargetOf(id);
    assert t == Element(id.name, t.index);
    ReadCommandText(id);
    ReadGlue(id.name, t.index);
    assert ',' !in "int(input())";
    StoreRoundTrip(Element(id.name, "int(input())"), t.index);
    InputIsNoIndex(id.name);
  }

  lemma ThreeText()
    ensures DecimalString(3) == "3"
  {
  }

  lemma ReadSwapText()
    ensures GenReadAsWritten(Element("t", "3")) == "t.set(int(input()), 3)"
  {
    var head := "t" + ".set(int(input()), ";
    assert head == "t.set(int(input()), ";
    assert head + "3" + ")" == "t.set(int(input()), 3)";
  }

  /** `READ t[3];` as written: the input picks the cell and 3 is stored. */
  lemma ReadSwapExample()
    ensures GenCommand(Read(IdArrayNum("t", 3))) == "t.set(int(input()), 3)"
    ensures DecodeStore(GenCommand(Read(IdArrayNum("t", 3))))
         == Some((Element("t", "int(input())"), "3"))
  {
    ThreeText();
    var id := IdArrayNum("t", 3);
    assert TargetOf(id) == Element("t", "3");
    ReadCommandText(id);
    ReadSwapText();
    assert ValidIdentifier(id) by { assert forall c :: c in "t" ==> c == 't'; }
    ReadAsWritten(id);
  }

  /** The corrected read stores the input into the cell its identifier
      names; for a scalar it is the translator's own text. */
  lemma ReadRoundTrip(id: Identifier)
    requires ValidIdentifier(id)
    ensures DecodeStore(GenRead(TargetOf(id))) == Some((TargetOf(id), "int(input())"))
    ensures IdentifierOfTarget(TargetOf(id)) == Some(id)
    ensures id.IdSimple? ==> GenRead(TargetOf(id)) == GenCommand(Read(id))
  {
    ReadCommandText(id);
    IndexHasNoComma(id);
    StoreRoundTrip(TargetOf(id), "int(input())");
    TargetRoundTrip(id);
    if id.IdSimple? {
      ReadScalarGlue(id.name);
    }
  }

  lemma ReadCommandText(id: Identifier)
    ensures GenCommand(Read(id)) == GenReadAsWritten(TargetOf(id))
  {
  }

  lemma ReadScalarGlue(name: string)
    ensures GenRead(Scalar(name)) == GenReadAsWritten(Scalar(name))
  {
    assert name + "[0] = " + "int(input())" == name + "[0] = int(input())";
  }
}
