/** What the lowering of src/builder/main.go does, as functions from one
    builder state to the next: for every `generate*` method of `Builder`,
    the state it leaves behind and the value it returns, or the error that
    ends the build. The class in module Builder is proved to compute
    exactly these functions. */
module Lowering {
  import opened Wrappers
  import opened AstNode
  import opened Ir
  import opened Pratt
  import G = Grammar
  import P = Patterns

  // -----------------------------------------------------------------------
  // Builder state

  /** `LoopTrace`: the three blocks of a while statement. */
  datatype LoopTrace = LoopTrace(condition: BlockRef, body: BlockRef, end: BlockRef)

  /** What a local name is bound to: a parameter, used directly, or a stack
      slot (an `alloca` result) holding a value of type `elem`. */
  datatype Local = ParamLocal(name: string, ty: Type) | SlotLocal(addr: Value, elem: Type)

  /** The fields of `Builder`. `functions` and `blocks` record every
      function and block created, in order; `currentBlock` means nothing
      before the first function is lowered. */
  datatype BuildState = BuildState(
    mod: Module,
    functions: seq<nat>,
    currentFunction: Option<nat>,
    blocks: seq<BlockRef>,
    currentBlock: BlockRef,
    locals: map<string, Local>,
    globals: map<string, Value>,
    loops: seq<LoopTrace>)

  /** The panics of the builder. */
  datatype BuildError =
    | UnsupportedTarget(target: int)
    | UnsupportedType(name: string)
    | UnsupportedValueType(kind: NodeKind)
    | UnsupportedDirective(name: string)
    | UnsupportedExpression(kind: NodeKind)
    | UnsupportedLiteral(text: string)
    | UnknownIdentifier(name: string)
    | TypesDiffer(left: Type, right: Type)
    | UnsupportedOperandType(ty: Type)
    | UnsupportedOperator(op: string)
    | FunctionNotFound(name: string)
    | UnsupportedPrintfArgument(ty: Type)
    | UnsupportedStatement(name: string)
    | UnsupportedBlockItem(kind: NodeKind)
    | UnsupportedAssignmentOperator(op: string)
    | MissingValue(op: string)
    | OutsideLoop

  type Step = Result<BuildState, BuildError>
  type Lowered = Result<(Value, BuildState), BuildError>

  /** `NewBuilder`: an empty module and empty environments. */
  function NewBuilder(): BuildState
  {
    BuildState(NewModule(), [], None, [], BlockRef(0, 0), map[], map[], [])
  }

  /** `SetTarget`: target 0 is Windows, 1 is Linux, anything else fails. */
  function SetTarget(s: BuildState, target: int): (r: Step)
    ensures r.Ok? <==> target == 0 || target == 1
    ensures r.Ok? ==> r.value == s.(mod := s.mod.(target := r.value.mod.target))
    ensures r.Err? ==> r.error == UnsupportedTarget(target)
  {
    if target == 0 then Ok(s.(mod := s.mod.(target := "x86_64-pc-windows-msvc")))
    else if target == 1 then Ok(s.(mod := s.mod.(target := "x86_64-pc-linux-gnu")))
    else Err(UnsupportedTarget(target))
  }

  /** Lowering is inside a function whose current block exists. */
  predicate Inside(s: BuildState)
  {
    s.currentFunction.Some? && s.currentBlock.fn == s.currentFunction.value
    && ValidRef(s.mod, s.currentBlock)
  }

  /** From `s` to `t` the current function stays, neither the functions
      of the module nor the blocks of the current function disappear, and
      the loop stack is only pushed onto. */
  predicate Grows(s: BuildState, t: BuildState)
  {
    t.currentFunction == s.currentFunction && |s.mod.funcs| <= |t.mod.funcs|
    && BlockCount(s.mod, s.currentBlock.fn) <= BlockCount(t.mod, s.currentBlock.fn)
    && s.loops <= t.loops
  }

  /** Appends an instruction to the current block. */
  function EmitHere(s: BuildState, i: Instr): (r: (Value, BuildState))
    requires Inside(s)
    ensures r.1 == s.(mod := r.1.mod) && Inside(r.1) && Grows(s, r.1)
    ensures TypeOf(r.0) == ResultType(i)
  {
    var (m, v) := Emit(s.mod, s.currentBlock, i);
    (v, s.(mod := m))
  }

  /** Sets the terminator of the current block. */
  function TerminateHere(s: BuildState, t: Terminator): (r: BuildState)
    requires Inside(s)
    ensures r == s.(mod := r.mod) && Inside(r) && Grows(s, r)
  {
    s.(mod := SetTerm(s.mod, s.currentBlock, t))
  }

  /** `b.currentBlock.Term == nil` is false. */
  predicate CurrentTerminated(s: BuildState)
    requires Inside(s)
  {
    Terminated(s.mod, s.currentBlock)
  }

  /** A branch to `target` when the current block has no terminator yet. */
  function FallThrough(s: BuildState, target: BlockRef): (r: BuildState)
    requires Inside(s)
    ensures r == s.(mod := r.mod) && Inside(r) && Grows(s, r)
  {
    if CurrentTerminated(s) then s else TerminateHere(s, Br(target))
  }

  /** `b.currentFunction.NewBlock(name)`. */
  function NewBlockHere(s: BuildState, name: string): (r: (BlockRef, BuildState))
    requires Inside(s)
    ensures r.1 == s.(mod := r.1.mod) && Inside(r.1) && Grows(s, r.1)
    ensures r.0 == BlockRef(s.currentBlock.fn, BlockCount(s.mod, s.currentBlock.fn))
    ensures BlockCount(r.1.mod, s.currentBlock.fn) == BlockCount(s.mod, s.currentBlock.fn) + 1
  {
    var (m, b) := AddBlock(s.mod, s.currentBlock.fn, name);
    (b, s.(mod := m))
  }

  // -----------------------------------------------------------------------
  // Numbers in text

  predicate AllDigits(s: string)
  {
    forall i :: 0 <= i < |s| ==> P.IsDigit(s[i])
  }

  /** The value of a run of decimal digits. */
  function DigitsValue(s: string): nat
    requires AllDigits(s)
  {
    if |s| == 0 then 0 else DigitsValue(s[..|s| - 1]) * 10 + (s[|s| - 1] as int - '0' as int)
  }

  function DigitChar(d: nat): (c: char)
    requires d < 10
    ensures P.IsDigit(c) && c as int - '0' as int == d
  {
    (d + '0' as int) as char
  }

  /** `%d` of a non-negative number: its decimal digits, without leading
      zeros. */
  function Decimal(n: nat): (s: string)
    ensures 1 <= |s| && AllDigits(s)
  {
    if n < 10 then [DigitChar(n)] else Decimal(n / 10) + [DigitChar(n % 10)]
  }

  const MinInt64: int := -0x8000_0000_0000_0000
  const MaxInt64: int := 0x7fff_ffff_ffff_ffff

  /** The sign of a number's text: whether it is `-`, and where the digits
      start. */
  function SignSplit(s: string): (r: (bool, nat))
    ensures r.1 <= 1 && r.1 <= |s|
  {
    if 0 < |s| && (s[0] == '+' || s[0] == '-') then (s[0] == '-', 1) else (false, 0)
  }

  function Signed(negative: bool, n: nat): int
  {
    if negative then -(n as int) else n
  }

  /** `strconv.Atoi`: an optional sign and at least one digit, nothing else,
      within the range of a 64-bit int. */
  function Atoi(s: string): Option<int>
  {
    var (negative, start) := SignSplit(s);
    var digits := s[start..];
    if |digits| == 0 || !AllDigits(digits) then None
    else
      var v := Signed(negative, DigitsValue(digits));
      if MinInt64 <= v <= MaxInt64 then Some(v) else None
  }

  /** The double literals `strconv.ParseFloat` accepts among the texts the
      scanner produces: an optional sign, digits, and at most one `.`, with
      at least one digit. */
  predicate IsFloatText(s: string)
  {
    var (_, start) := SignSplit(s);
    var body := s[start..];
    (exists i :: 0 <= i < |body| && P.IsDigit(body[i]))
    && (forall i :: 0 <= i < |body| ==> P.IsDigit(body[i]) || body[i] == '.')
    && (forall i, j :: 0 <= i < j < |body| && body[i] == '.' ==> body[j] != '.')
  }

  function Pow2(n: nat): (p: nat)
    ensures 1 <= p
  {
    if n == 0 then 1 else 2 * Pow2(n - 1)
  }

  /** The least magnitude that a double rounds to infinity: halfway between
      the largest finite double, (2^53 - 1) * 2^971, and 2^1024. */
  const FloatOverflow: nat := (Pow2(54) - 1) * Pow2(970)

  /** `strconv.ParseFloat(text, 64)` succeeds on a text of the shape above
      unless its magnitude rounds to infinity. That happens exactly when
      its integer part reaches `FloatOverflow`, which is itself an
      integer. */
  predicate ParsesAsFloat(s: string)
  {
    IsFloatText(s)
    && var (_, start) := SignSplit(s);
       var body := s[start..];
       DigitsValue(body[..DigitRun(body)]) < FloatOverflow
  }

  /** The length of the run of digits at the start of `s`. */
  function DigitRun(s: string): (n: nat)
    ensures n <= |s| && AllDigits(s[..n]) && (n < |s| ==> !P.IsDigit(s[n]))
  {
    if 0 < |s| && P.IsDigit(s[0]) then
      var n := 1 + DigitRun(s[1..]);
      assert forall i :: 1 <= i < n ==> s[..n][i] == s[1..][..n - 1][i - 1];
      n
    else 0
  }

  /** `fmt.Sscanf(text, "%d", &value)` with `value` starting at 0: an
      optional sign and the digits after it; the value stays 0 when no
      digit follows or the number does not fit in 64 bits. */
  function ScanInt(s: string): int
  {
    var (negative, start) := SignSplit(s);
    var n := DigitRun(s[start..]);
    if n == 0 then 0
    else
      var v := Signed(negative, DigitsValue(s[start..][..n]));
      if MinInt64 <= v <= MaxInt64 then v else 0
  }

  // -----------------------------------------------------------------------
  // Types

  /** `getTypeFromName`. */
  function GetTypeFromName(name: string): (r: Result<Type, BuildError>)
    ensures r.Ok? <==> name in G.ReturnTypes && name != "char"
    ensures r.Ok? ==> r.value in {I32, Double, Void}
    ensures name == "int" ==> r == Ok(I32)
    ensures name == "float" ==> r == Ok(Double)
    ensures name == "void" ==> r == Ok(Void)
    ensures r.Err? ==> r.error == UnsupportedType(name)
  {
    if name == "int" then Ok(I32)
    else if name == "float" then Ok(Double)
    else if name == "void" then Ok(Void)
    else Err(UnsupportedType(name))
  }

  // -----------------------------------------------------------------------
  // The top level

  /** `generatePreprocessorDirective`: only `#define` with a value; the
      value becomes an i32 global of the builder. */
  function GeneratePreprocessorDirective(s: BuildState, node: Node): (r: Step)
  {
    if node.name == "#define" && |node.children| == 2 then
      var value := node.children[1];
      if value.kind == Literal then
        Ok(s.(globals := s.globals[node.children[0].name := IntConst(ScanInt(value.name))]))
      else Err(UnsupportedValueType(value.kind))
    else Err(UnsupportedDirective(node.name))
  }

  /** The parameters of a function from parameter `i` on, after `acc`,
      in order; the first unsupported type name fails. */
  function ParamTypes(params: seq<Node>, i: nat, acc: seq<Param>): (r: Result<seq<Param>, BuildError>)
    requires i <= |params| && forall j :: 0 <= j < |params| ==> G.IsParameter(params[j])
    ensures r.Err? <==> exists j :: i <= j < |params| && G.IsParameter(params[j]) && GetTypeFromName(params[j].children[0].name).Err?
    ensures r.Ok? ==> |r.value| == |acc| + |params| - i && r.value[..|acc|] == acc
    ensures r.Ok? ==> forall j :: i <= j < |params| && G.IsParameter(params[j]) ==>
      r.value[|acc| + (j - i)].name == params[j].name
      && GetTypeFromName(params[j].children[0].name) == Ok(r.value[|acc| + (j - i)].ty)
    decreases |params| - i
  {
    if i == |params| then Ok(acc)
    else
      assert G.IsParameter(params[i]);
      var ty :- GetTypeFromName(params[i].children[0].name);
      ParamTypes(params, i + 1, acc + [Param(params[i].name, ty)])
  }

  /** The locals of a fresh function: its parameters, a later one of the
      same name replacing an earlier one. */
  function ParamLocals(params: seq<Param>): map<string, Local>
  {
    if |params| == 0 then map[]
    else
      var last := params[|params| - 1];
      ParamLocals(params[..|params| - 1])[last.name := ParamLocal(last.name, last.ty)]
  }

  /** `generateFunction`: the function is added to the module, its
      parameters become the locals, its body is lowered from a fresh
      `entry` block, and a bare return ends the last block if nothing
      else does. */
  function GenerateFunction(s: BuildState, node: Node): (r: Step)
    requires G.IsFunction(node)
    ensures r.Ok? ==> r.value.currentFunction == None && s.loops <= r.value.loops
  {
    var retType :- GetTypeFromName(node.children[0].name);
    var params :- ParamTypes(node.children[1].children, 0, []);
    FunctionBody(EnterFunction(s, node.name, retType, params), node.children[2])
  }

  /** The start of `generateFunction` once the types are known: the new
      function is the current one, its parameters are the locals, and its
      `entry` block is the current block. */
  function EnterFunction(s: BuildState, name: string, retType: Type, params: seq<Param>): (r: BuildState)
    ensures Inside(r) && r.currentBlock == BlockRef(|s.mod.funcs|, 0) && r.loops == s.loops
  {
    var (m, f) := AddFunc(s.mod, name, retType, params);
    var (m', entry) := AddBlock(m, f, "entry");
    s.(mod := m', functions := s.functions + [f], currentFunction := Some(f),
       locals := ParamLocals(params), blocks := s.blocks + [entry], currentBlock := entry)
  }

  /** The end of `generateFunction`: the body from the entry block, a bare
      return if the last block has no terminator, and no current
      function. */
  function FunctionBody(s: BuildState, body: Node): (r: Step)
    requires Inside(s) && G.IsBlock(body)
    ensures r.Ok? ==> r.value.currentFunction == None && s.loops <= r.value.loops
  {
    var s1 :- GenerateBlock(s, s.currentBlock, body);
    var s2 := if CurrentTerminated(s1) then s1 else TerminateHere(s1, Ret(None));
    Ok(s2.(currentFunction := None))
  }

  /** The loop of `Build` from child `i` of the program on. */
  function BuildItems(s: BuildState, program: Node, i: nat): Step
    requires G.IsProgram(program) && i <= |program.children|
    decreases |program.children| - i
  {
    if i == |program.children| then Ok(s)
    else
      var child := program.children[i];
      var s1 :- if child.kind == PreprocessorDirective then GeneratePreprocessorDirective(s, child)
                else if child.kind == FunctionDeclaration then GenerateFunction(s, child)
                else Ok(s);
      BuildItems(s1, program, i + 1)
  }

  /** `Build`: each directive and each function of the program in turn. */
  function Build(s: BuildState, program: Node): Step
    requires G.IsProgram(program)
  {
    BuildItems(s, program, 0)
  }

  // -----------------------------------------------------------------------
  // Expressions

  /** `generateExpression`. An array initializer reaches it as the value of
      an array declaration and fails. */
  function GenerateExpression(s: BuildState, node: Node): (r: Lowered)
    requires Inside(s) && (IsExpression(node) || G.IsInitializer(node))
    ensures r.Ok? ==> r.value.1 == s.(mod := r.value.1.mod) && Inside(r.value.1) && Grows(s, r.value.1)
    decreases node, 2, 0
  {
    match node.kind
    case Literal =>
      var v :- GenerateLiteral(node);
      Ok((v, s))
    case Identifier => GenerateIdentifier(s, node)
    case BinaryExpression => GenerateBinaryExpression(s, node)
    case FunctionCall => GenerateFunctionCall(s, node)
    case _ => Err(UnsupportedExpression(node.kind))
  }

  /** `generateLiteral`: an i32 constant when the text is an integer, a
      double constant when it is a decimal number, an error otherwise. */
  function GenerateLiteral(node: Node): Result<Value, BuildError>
  {
    match Atoi(node.name)
    case Some(n) => Ok(IntConst(n))
    case None => if ParsesAsFloat(node.name) then Ok(FloatConst(node.name)) else Err(UnsupportedLiteral(node.name))
  }

  /** `generateIdentifier`: a parameter, then a loaded stack slot, then a
      global. */
  function GenerateIdentifier(s: BuildState, node: Node): (r: Lowered)
    requires Inside(s)
    ensures r.Ok? ==> r.value.1 == s.(mod := r.value.1.mod) && Inside(r.value.1) && Grows(s, r.value.1)
  {
    if node.name in s.locals then
      match s.locals[node.name]
      case ParamLocal(name, ty) => Ok((ParamValue(name, ty), s))
      case SlotLocal(addr, elem) => Ok(EmitHere(s, Load(elem, addr)))
    else if node.name in s.globals then Ok((s.globals[node.name], s))
    else Err(UnknownIdentifier(node.name))
  }

  /** The instruction of a binary operator on operands of type `ty`, if the
      operator is one the builder knows. */
  function BinaryInstr(op: string, ty: Type, left: Value, right: Value): (r: Option<Instr>)
    ensures r.Some? <==> 4 <= OperatorPrecedence(op) <= 7
    ensures r.Some? ==> ResultType(r.value) == if OperatorPrecedence(op) <= 5 then I1 else ty
  {
    if op == "+" then Some(Arith(Add, ty, left, right))
    else if op == "-" then Some(Arith(Sub, ty, left, right))
    else if op == "*" then Some(Arith(Mul, ty, left, right))
    else if op == "/" then Some(Arith(Div, ty, left, right))
    else if op == "%" then Some(Arith(Rem, ty, left, right))
    else if op == "==" then Some(Compare(Eq, ty, left, right))
    else if op == "!=" then Some(Compare(Ne, ty, left, right))
    else if op == "<" then Some(Compare(Lt, ty, left, right))
    else if op == "<=" then Some(Compare(Le, ty, left, right))
    else if op == ">" then Some(Compare(Gt, ty, left, right))
    else if op == ">=" then Some(Compare(Ge, ty, left, right))
    else None
  }

  /** `generateBinaryExpression`: both operands, then the type checks, then
      the operator. */
  function GenerateBinaryExpression(s: BuildState, node: Node): (r: Lowered)
    requires Inside(s) && node.kind == BinaryExpression && IsExpression(node)
    ensures r.Ok? ==> r.value.1 == s.(mod := r.value.1.mod) && Inside(r.value.1) && Grows(s, r.value.1)
    decreases node, 1, 0
  {
    var (left, s1) :- GenerateExpression(s, node.children[0]);
    var (right, s2) :- GenerateExpression(s1, node.children[1]);
    var lType, rType := TypeOf(left), TypeOf(right);
    if lType != rType then Err(TypesDiffer(lType, rType))
    else if lType != I32 && lType != Double then Err(UnsupportedOperandType(lType))
    else
      match BinaryInstr(node.name, lType, left, right)
      case Some(i) => Ok(EmitHere(s2, i))
      case None => Err(UnsupportedOperator(node.name))
  }

  /** The first function of the module with the given name. */
  function FindFunc(funcs: seq<Func>, name: string): (r: Option<nat>)
    ensures r.Some? ==> r.value < |funcs| && funcs[r.value].name == name
    ensures r.Some? ==> forall j :: 0 <= j < r.value ==> funcs[j].name != name
    ensures r.None? ==> forall j :: 0 <= j < |funcs| ==> funcs[j].name != name
  {
    if |funcs| == 0 then None
    else if funcs[0].name == name then Some(0)
    else match FindFunc(funcs[1..], name)
      case Some(i) => Some(i + 1)
      case None => None
  }

  /** The callee of a call: a function already in the module, else a
      `printf` declared on first use as variadic. */
  function Callee(s: BuildState, name: string): (r: Result<(nat, BuildState), BuildError>)
    requires Inside(s)
    ensures r.Ok? ==> var t := r.value.1;
      t == s.(mod := t.mod) && Inside(t) && Grows(s, t) && r.value.0 < |t.mod.funcs|
  {
    match FindFunc(s.mod.funcs, name)
    case Some(i) => Ok((i, s))
    case None =>
      if name == "printf" then
        var (m, f) := AddFunc(s.mod, "printf", Void, [Param("format", Ptr(I8))]);
        Ok((f, s.(mod := SetVariadic(m, f))))
      else Err(FunctionNotFound(name))
  }

  /** The conversion `printf` uses for an argument type. */
  function Conversion(ty: Type): Result<string, BuildError>
  {
    if ty == I32 then Ok("%d")
    else if ty == Double then Ok("%f")
    else Err(UnsupportedPrintfArgument(ty))
  }

  /** The conversions of the arguments from argument `i` on, after `acc`. */
  function Conversions(args: seq<Value>, i: nat, acc: string): Result<string, BuildError>
    requires i <= |args|
    decreases |args| - i
  {
    if i == |args| then Ok(acc)
    else
      var c :- Conversion(TypeOf(args[i]));
      Conversions(args, i + 1, acc + c)
  }

  /** The `printf` format string: a conversion per argument, a newline and
      a terminating NUL. */
  function FormatString(args: seq<Value>): Result<string, BuildError>
  {
    var conversions :- Conversions(args, 0, "");
    Ok(conversions + "\n\0")
  }

  /** `generateFunctionCall`: the callee, the arguments in order, and for
      `printf` the format string as a new first argument. */
  function GenerateFunctionCall(s: BuildState, node: Node): (r: Lowered)
    requires Inside(s) && forall i :: 0 <= i < |node.children| ==> IsExpression(node.children[i])
    ensures r.Ok? ==> r.value.1 == s.(mod := r.value.1.mod) && Inside(r.value.1) && Grows(s, r.value.1)
    decreases node, 1, 0
  {
    var (f, s1) :- Callee(s, node.name);
    var (args, s2) :- GenerateArguments(s1, node, 0, []);
    EmitCall(s2, f, node.name == "printf", args)
  }

  /** The end of `generateFunctionCall`, once the callee `f` and the
      arguments are known: for `printf` the format string is added as a
      global and passed first, then the call is appended. */
  function EmitCall(s: BuildState, f: nat, isPrintf: bool, args: seq<Value>): (r: Lowered)
    requires Inside(s) && f < |s.mod.funcs|
    ensures r.Ok? ==> r.value.1 == s.(mod := r.value.1.mod) && Inside(r.value.1) && Grows(s, r.value.1)
  {
    var ret := s.mod.funcs[f].ret;
    if isPrintf then
      var format :- FormatString(args);
      var (m, global) := AddGlobal(s.mod, format);
      Ok(EmitHere(s.(mod := m), Call(f, ret, [global] + args)))
    else Ok(EmitHere(s, Call(f, ret, args)))
  }

  /** The arguments of a call from child `i` on, after `args`. */
  function GenerateArguments(s: BuildState, node: Node, i: nat, args: seq<Value>): (r: Result<(seq<Value>, BuildState), BuildError>)
    requires Inside(s) && i <= |node.children|
    requires forall j :: 0 <= j < |node.children| ==> IsExpression(node.children[j])
    ensures r.Ok? ==> r.value.1 == s.(mod := r.value.1.mod) && Inside(r.value.1) && Grows(s, r.value.1)
    ensures r.Ok? ==> |r.value.0| == |args| + |node.children| - i
    ensures r.Ok? ==> r.value.0[..|args|] == args
    decreases node, 0, |node.children| - i
  {
    if i == |node.children| then Ok((args, s))
    else
      var (arg, s1) :- GenerateExpression(s, node.children[i]);
      GenerateArguments(s1, node, i + 1, args + [arg])
  }

  // -----------------------------------------------------------------------
  // Statements

  /** `generateBlock`: `target` becomes the current block and the statements
      are lowered in order. */
  function GenerateBlock(s: BuildState, target: BlockRef, node: Node): (r: Step)
    requires Inside(s) && target.fn == s.currentBlock.fn && ValidRef(s.mod, target) && G.IsBlock(node)
    ensures r.Ok? ==> Inside(r.value) && Grows(s, r.value)
    decreases node, 3, 0
  {
    GenerateStatements(s.(currentBlock := target), node, 0)
  }

  /** The statements of a block from child `i` on. */
  function GenerateStatements(s: BuildState, node: Node, i: nat): (r: Step)
    requires Inside(s) && G.IsBlock(node) && i <= |node.children|
    ensures r.Ok? ==> Inside(r.value) && Grows(s, r.value)
    decreases node, 2, |node.children| - i
  {
    if i == |node.children| then Ok(s)
    else
      var s1 :- GenerateStatement(s, node.children[i]);
      GenerateStatements(s1, node, i + 1)
  }

  /** One statement of a block, chosen by its kind and, for Statement
      nodes, by its name. */
  function GenerateStatement(s: BuildState, node: Node): (r: Step)
    requires Inside(s) && G.IsStatement(node)
    ensures r.Ok? ==> Inside(r.value) && Grows(s, r.value)
    decreases node, 1, 0
  {
    match node.kind
    case ReturnStatement => GenerateReturn(s, node)
    case VariableDeclaration => GenerateVariableDeclaration(s, node)
    case FunctionCall =>
      var (_, s1) :- GenerateFunctionCall(s, node);
      Ok(s1)
    case Statement =>
      if node.name == "if" then GenerateConditional(s, node)
      else if node.name == "continue" then GenerateBreakContinue(s, true)
      else if node.name == "break" then GenerateBreakContinue(s, false)
      else Err(UnsupportedStatement(node.name))
    case Assignment => GenerateAssignment(s, node)
    case WhileStatement => GenerateWhileStatement(s, node)
    case _ => Err(UnsupportedBlockItem(node.kind))
  }

  /** `generateReturn`: the current block ends with a return of the value,
      or a bare return when there is none. */
  function GenerateReturn(s: BuildState, node: Node): (r: Step)
    requires Inside(s) && forall i :: 0 <= i < |node.children| ==> IsExpression(node.children[i])
    ensures r.Ok? ==> r.value == s.(mod := r.value.mod) && Inside(r.value) && Grows(s, r.value)
    decreases node, 0, 0
  {
    if |node.children| == 0 then Ok(TerminateHere(s, Ret(None)))
    else
      var (v, s1) :- GenerateExpression(s, node.children[0]);
      Ok(TerminateHere(s1, Ret(Some(v))))
  }

  /** `generateVariableDeclaration`: a named slot of the declared type,
      bound to the name before the initializer is lowered and stored. */
  function GenerateVariableDeclaration(s: BuildState, node: Node): (r: Step)
    requires Inside(s) && node.kind == VariableDeclaration && G.IsStatement(node)
    ensures r.Ok? ==> Inside(r.value) && Grows(s, r.value)
    decreases node, 0, 0
  {
    var ty :- GetTypeFromName(node.children[0].name);
    var (addr, s1) := EmitHere(s, Alloca(node.name, ty));
    var s2 := s1.(locals := s1.locals[node.name := SlotLocal(addr, ty)]);
    if |node.children| > 1 then
      var (v, s3) :- GenerateExpression(s2, node.children[1]);
      Ok(EmitHere(s3, Store(v, addr)).1)
    else Ok(s2)
  }

  /** The arithmetic of a compound assignment operator. */
  function CompoundOp(op: string): Option<ArithOp>
  {
    if op == "+=" then Some(Add)
    else if op == "-=" then Some(Sub)
    else if op == "*=" then Some(Mul)
    else if op == "/=" then Some(Div)
    else if op == "%=" then Some(Rem)
    else None
  }

  /** The slot an assignment stores into: the name's slot, or for a
      parameter a fresh slot holding the parameter's value. */
  function AssignmentSlot(s: BuildState, local: Local): (r: (Value, Type, BuildState))
    requires Inside(s)
    ensures r.2 == s.(mod := r.2.mod) && Inside(r.2) && Grows(s, r.2)
  {
    match local
    case SlotLocal(addr, elem) => (addr, elem, s)
    case ParamLocal(name, ty) =>
      var (addr, s1) := EmitHere(s, Alloca("", ty));
      (addr, ty, EmitHere(s1, Store(ParamValue(name, ty), addr)).1)
  }

  /** `generateAssignment`: the right-hand side, the slot, a load of the
      slot, the stored value, and the name bound to the slot. */
  function GenerateAssignment(s: BuildState, node: Node): (r: Step)
    requires Inside(s) && node.kind == NodeKind.Assignment && G.IsStatement(node)
    ensures r.Ok? ==> Inside(r.value) && Grows(s, r.value)
    decreases node, 0, 0
  {
    var op := node.children[0].name;
    var (right, s1) :- GenerateExpression(s, node.children[1]);
    if node.name !in s1.locals then Err(UnknownIdentifier(node.name))
    else
      var (addr, elem, s2) := AssignmentSlot(s1, s1.locals[node.name]);
      var (loaded, s3) := EmitHere(s2, Load(elem, addr));
      var (result, s4) :- AssignedValue(s3, op, elem, loaded, right);
      var s5 := EmitHere(s4, Store(result, addr)).1;
      Ok(s5.(locals := s5.locals[node.name := SlotLocal(addr, elem)]))
  }

  /** The value an assignment stores: the right-hand side for `=`, else
      the loaded value combined with it by the operator's arithmetic, which
      needs an i32 or double slot. */
  function AssignedValue(s: BuildState, op: string, elem: Type, loaded: Value, right: Value): (r: Lowered)
    requires Inside(s)
    ensures r.Ok? ==> r.value.1 == s.(mod := r.value.1.mod) && Inside(r.value.1) && Grows(s, r.value.1)
    ensures r.Ok? <==> op == "=" || (CompoundOp(op).Some? && (elem == I32 || elem == Double))
    ensures r.Err? ==> r.error == if CompoundOp(op).None? then UnsupportedAssignmentOperator(op) else MissingValue(op)
    ensures op == "=" ==> r == Ok((right, s))
    ensures r.Ok? && op != "=" ==>
      var before := BlockAt(s.mod, s.currentBlock).instrs;
      && BlockAt(r.value.1.mod, s.currentBlock).instrs == before + [Arith(CompoundOp(op).value, elem, loaded, right)]
      && r.value.0 == Reg(InstrRef(s.currentBlock, |before|), elem)
  {
    if op == "=" then Ok((right, s))
    else match CompoundOp(op)
      case None => Err(UnsupportedAssignmentOperator(op))
      case Some(a) =>
        if elem == I32 || elem == Double then Ok(EmitHere(s, Arith(a, elem, loaded, right)))
        else Err(MissingValue(op))
  }

  /** `generateBreakContinue`: a branch to the condition (continue) or the
      end (break) of the most recently lowered while statement. */
  function GenerateBreakContinue(s: BuildState, isContinue: bool): (r: Step)
    requires Inside(s)
    ensures r.Ok? ==> Inside(r.value) && Grows(s, r.value)
    ensures r.Ok? <==> |s.loops| > 0
    ensures r.Ok? ==> var top := s.loops[|s.loops| - 1];
      r.value == s.(mod := r.value.mod)
      && BlockAt(r.value.mod, s.currentBlock).term == Some(Br(if isContinue then top.condition else top.end))
  {
    if |s.loops| == 0 then Err(OutsideLoop)
    else
      var top := s.loops[|s.loops| - 1];
      Ok(TerminateHere(s, Br(if isContinue then top.condition else top.end)))
  }

  /** `generateConditional`: the condition, then the body and end blocks
      and, with an else part, the else block, all numbered by the number of
      blocks created so far; the current block branches on the condition. */
  function GenerateConditional(s: BuildState, node: Node): (r: Step)
    requires Inside(s) && G.IsConditional(node)
    ensures r.Ok? ==> Inside(r.value) && Grows(s, r.value)
    decreases node, 0, 3
  {
    var (cond, s1) :- GenerateExpression(s, node.children[0]);
    ConditionalBranch(s1, node, cond)
  }

  /** `generateConditional` once the condition is computed: the body and
      end blocks, then the branch on the condition. */
  function ConditionalBranch(s: BuildState, node: Node, cond: Value): (r: Step)
    requires Inside(s) && G.IsConditional(node)
    ensures r.Ok? ==> Inside(r.value) && Grows(s, r.value)
    decreases node, 0, 2
  {
    var k := |s.blocks|;
    var (body, s2) := NewBlockHere(s, "if.body." + Decimal(k));
    var (end, s3) := NewBlockHere(s2, "if.end." + Decimal(k));
    ConditionalJump(s3.(blocks := s3.blocks + [body, end]), node, cond, body, end)
  }

  /** The conditional branch that ends the current block: to `body` or to
      a new else block when there is an else part, to `body` or `end`
      otherwise. */
  function ConditionalJump(s: BuildState, node: Node, cond: Value, body: BlockRef, end: BlockRef): (r: Step)
    requires Inside(s) && G.IsConditional(node)
    requires body.fn == end.fn == s.currentBlock.fn && ValidRef(s.mod, body) && ValidRef(s.mod, end)
    ensures r.Ok? ==> Inside(r.value) && Grows(s, r.value)
    decreases node, 0, 1
  {
    if |node.children| > 2 then
      var prefix := if node.children[2].kind == Statement then "if.elseif." else "if.else.";
      var (alt, s5) := NewBlockHere(s, prefix + Decimal(|s.blocks|));
      var s6 := s5.(blocks := s5.blocks + [alt]);
      ConditionalArms(TerminateHere(s6, CondBr(cond, body, alt)), node, body, end, Some(alt))
    else
      ConditionalArms(TerminateHere(s, CondBr(cond, body, end)), node, body, end, None)
  }

  /** The rest of `generateConditional` once the branch is in place: the
      body, the else part, the fall-through branches to `end`, and `end` as
      the new current block. */
  function ConditionalArms(s: BuildState, node: Node, body: BlockRef, end: BlockRef, alt: Option<BlockRef>): (r: Step)
    requires Inside(s) && G.IsConditional(node)
    requires body.fn == end.fn == s.currentBlock.fn && ValidRef(s.mod, body) && ValidRef(s.mod, end)
    requires alt.Some? ==> |node.children| == 3 && alt.value.fn == s.currentBlock.fn && ValidRef(s.mod, alt.value)
    ensures r.Ok? ==> Inside(r.value) && Grows(s, r.value) && r.value.currentBlock == end
    decreases node, 0, 0
  {
    var s1 :- GenerateBlock(s, body, node.children[1]);
    StillValid(s, s1, end);
    var s2 := FallThrough(s1, end);
    var s3 :- if alt.None? then Ok(s2) else ElseArm(s2, node.children[2], end, alt.value);
    StillValid(s, s3, end);
    Ok(FallThrough(s3, end).(currentBlock := end))
  }

  /** The else part of a conditional in its own block `alt`: a further
      conditional, or a block that falls through to `end`. */
  function ElseArm(s: BuildState, node: Node, end: BlockRef, alt: BlockRef): (r: Step)
    requires Inside(s) && (G.IsBlock(node) || G.IsConditional(node))
    requires end.fn == alt.fn == s.currentBlock.fn && ValidRef(s.mod, end) && ValidRef(s.mod, alt)
    ensures r.Ok? ==> Inside(r.value) && Grows(s, r.value)
    decreases node, 4, 0
  {
    if node.kind == Statement then GenerateConditional(s.(currentBlock := alt), node)
    else
      var s1 :- GenerateBlock(s, alt, node);
      StillValid(s, s1, end);
      Ok(FallThrough(s1, end))
  }

  /** `generateWhileStatement`: condition, body and end blocks, a loop
      trace, and the branch into the condition; the rest is `LoopArms`. */
  function GenerateWhileStatement(s: BuildState, node: Node): (r: Step)
    requires Inside(s) && node.kind == WhileStatement && G.IsStatement(node)
    ensures r.Ok? ==> Inside(r.value) && Grows(s, r.value)
    decreases node, 0, 2
  {
    var k := |s.blocks|;
    var (condition, s1) := NewBlockHere(s, "while.cond." + Decimal(k));
    var (body, s2) := NewBlockHere(s1, "while.body." + Decimal(k));
    var (end, s3) := NewBlockHere(s2, "while.end." + Decimal(k));
    EnterLoop(s3.(blocks := s3.blocks + [condition, body, end]), node, condition, body, end)
  }

  /** The branch into the condition block, which then becomes the current
      block, with the loop's blocks pushed on the loop stack. */
  function EnterLoop(s: BuildState, node: Node, condition: BlockRef, body: BlockRef, end: BlockRef): (r: Step)
    requires Inside(s) && node.kind == WhileStatement && G.IsStatement(node)
    requires condition.fn == body.fn == end.fn == s.currentBlock.fn
    requires ValidRef(s.mod, condition) && ValidRef(s.mod, body) && ValidRef(s.mod, end)
    ensures r.Ok? ==> Inside(r.value) && Grows(s, r.value)
    decreases node, 0, 1
  {
    var s4 := TerminateHere(s, Br(condition));
    LoopArms(s4.(loops := s4.loops + [LoopTrace(condition, body, end)], currentBlock := condition), node, body, end)
  }

  /** The rest of `generateWhileStatement`, from the condition block on: the
      condition and the conditional branch out of it, the body with its
      branch back, and `end` as the new current block. */
  function LoopArms(s: BuildState, node: Node, body: BlockRef, end: BlockRef): (r: Step)
    requires Inside(s) && node.kind == WhileStatement && G.IsStatement(node)
    requires body.fn == end.fn == s.currentBlock.fn && ValidRef(s.mod, body) && ValidRef(s.mod, end)
    ensures r.Ok? ==> Inside(r.value) && Grows(s, r.value) && r.value.currentBlock == end
    decreases node, 0, 0
  {
    var condition := s.currentBlock;
    var (c, s1) :- GenerateExpression(s, node.children[0]);
    var s2 := TerminateHere(s1, CondBr(c, body, end));
    StillValid(s, s2, body);
    var s3 :- GenerateBlock(s2, body, node.children[1]);
    StillValid(s, s3, end);
    StillValid(s, s3, condition);
    var s4 := FallThrough(FallThrough(s3, condition), end);
    Ok(s4.(currentBlock := end))
  }

  /** A block of the current function stays a block while lowering only
      adds to it. */
  lemma StillValid(s: BuildState, t: BuildState, b: BlockRef)
    requires Inside(s) && Grows(s, t) && b.fn == s.currentBlock.fn && ValidRef(s.mod, b)
    ensures ValidRef(t.mod, b)
  {
    assert BlockCount(s.mod, b.fn) <= BlockCount(t.mod, b.fn);
  }
}
