/** The environment of the lowering of src/builder/main.go: how a name
    resolves (a parameter, a stack slot, a `#define` global), how a
    declaration and an assignment rebind a name, how a callee is found and
    `printf` declared on first use, and the loop stack that `break` and
    `continue` consult, which only ever grows. */
module Environment {
  import opened Wrappers
  import opened AstNode
  import opened Ir
  import opened Pratt
  import opened Lowering
  import G = Grammar
  import LF = LoweringFacts

  /** The type of the values a local name stands for. */
  function LocalType(l: Local): Type
  {
    match l
    case ParamLocal(_, ty) => ty
    case SlotLocal(_, elem) => elem
  }

  // -----------------------------------------------------------------------
  // Names

  /** An identifier resolves to a local before a global, and to nothing
      else: a parameter is its own value, a slot is loaded, a global is
      used as it is. */
  lemma IdentifierLookup(s: BuildState, node: Node)
    requires Inside(s)
    ensures var r := GenerateIdentifier(s, node);
      && (r.Ok? <==> node.name in s.locals || node.name in s.globals)
      && (r.Err? ==> r.error == UnknownIdentifier(node.name))
      && (r.Ok? && node.name in s.locals ==> TypeOf(r.value.0) == LocalType(s.locals[node.name]))
      && (r.Ok? && node.name in s.locals && s.locals[node.name].ParamLocal? ==> r.value.1 == s)
      && (r.Ok? && node.name !in s.locals ==> r.value == (s.globals[node.name], s))
  {
  }

  /** The slot a declaration creates: the result of the `alloca` appended
      to the current block. */
  function SlotOf(s: BuildState, ty: Type): Value
    requires Inside(s)
  {
    Reg(InstrRef(s.currentBlock, |BlockAt(s.mod, s.currentBlock).instrs|), Ptr(ty))
  }

  /** A declaration binds its name, and only its name, to a fresh slot of
      the declared type; an unsupported type name fails first. */
  lemma DeclarationBinds(s: BuildState, node: Node)
    requires Inside(s) && node.kind == VariableDeclaration && G.IsStatement(node)
    ensures var r, ty := GenerateVariableDeclaration(s, node), GetTypeFromName(node.children[0].name);
      && (ty.Err? ==> r == Err(UnsupportedType(node.children[0].name)))
      && (r.Ok? ==>
            && ty.Ok?
            && r.value.locals == s.locals[node.name := SlotLocal(SlotOf(s, ty.value), ty.value)]
            && r.value.globals == s.globals && r.value.loops == s.loops
            && r.value.currentBlock == s.currentBlock)
  {
    var ty := GetTypeFromName(node.children[0].name);
    if ty.Ok? {
      var (addr, s1) := EmitHere(s, Alloca(node.name, ty.value));
      assert addr == SlotOf(s, ty.value);
    }
  }

  /** The name is bound before its initializer is lowered: `int x = x;`
      reads the new slot, whatever `x` meant before. */
  lemma DeclarationScopesInitializer(s: BuildState, node: Node)
    requires Inside(s) && node.kind == VariableDeclaration && G.IsStatement(node)
    requires |node.children| == 2 && node.children[1] == Leaf(NodeKind.Identifier, node.name)
    requires GetTypeFromName(node.children[0].name).Ok?
    ensures GenerateVariableDeclaration(s, node).Ok?
  {
    var ty := GetTypeFromName(node.children[0].name).value;
    var (addr, s1) := EmitHere(s, Alloca(node.name, ty));
    var s2 := s1.(locals := s1.locals[node.name := SlotLocal(addr, ty)]);
    IdentifierLookup(s2, node.children[1]);
  }

  /** A successful assignment targets a local with `=` or one of the five
      arithmetic operators; afterwards its name is bound to a slot of the
      local's type (the same slot, or a fresh one for a parameter) and no
      other binding changes. */
  lemma AssignmentRebinds(s: BuildState, node: Node)
    requires Inside(s) && node.kind == NodeKind.Assignment && G.IsStatement(node)
    ensures var r := GenerateAssignment(s, node);
      r.Ok? ==>
        && node.name in s.locals
        && (node.children[0].name == "=" || CompoundOp(node.children[0].name).Some?)
        && r.value.locals.Keys == s.locals.Keys
        && (forall x :: x in s.locals && x != node.name ==> r.value.locals[x] == s.locals[x])
        && r.value.locals[node.name].SlotLocal?
        && r.value.locals[node.name].elem == LocalType(s.locals[node.name])
        && (s.locals[node.name].SlotLocal? ==> r.value.locals[node.name] == s.locals[node.name])
        && r.value.globals == s.globals && r.value.loops == s.loops
  {
    var r := GenerateAssignment(s, node);
    if r.Ok? {
      var op := node.children[0].name;
      var (right, s1) := GenerateExpression(s, node.children[1]).value;
      var (addr, elem, s2) := AssignmentSlot(s1, s1.locals[node.name]);
      assert elem == LocalType(s.locals[node.name]);
      var (loaded, s3) := EmitHere(s2, Load(elem, addr));
      assert AssignedValue(s3, op, elem, loaded, right).Ok?;
    }
  }

  /** The instructions of the current block. */
  function Instrs(s: BuildState): seq<Instr>
    requires Inside(s)
  {
    BlockAt(s.mod, s.currentBlock).instrs
  }

  /** The code an assignment appends once its slot `addr` of type `elem`
      is known, the load being the `j`-th instruction of block `b`: a load
      of the slot, then for `=` a store of the right-hand side; for a
      compound operator the operator's arithmetic on the loaded value and
      the right-hand side, in the slot's type, and a store of its result. */
  function StoreCode(op: string, elem: Type, addr: Value, right: Value, b: BlockRef, j: nat): seq<Instr>
    requires op == "=" || CompoundOp(op).Some?
  {
    if op == "=" then [Load(elem, addr), Store(right, addr)]
    else [Load(elem, addr),
          Arith(CompoundOp(op).value, elem, Reg(InstrRef(b, j), elem), right),
          Store(Reg(InstrRef(b, j + 1), elem), addr)]
  }

  /** The slot of an assignment: a slot local's own slot, unchanged state;
      for a parameter a fresh slot, appended, that the parameter's value is
      stored into. */
  lemma SlotCode(s: BuildState, local: Local)
    requires Inside(s)
    ensures var (addr, elem, t) := AssignmentSlot(s, local);
      && elem == LocalType(local) && Inside(t) && t.currentBlock == s.currentBlock
      && (local.SlotLocal? ==> t == s && addr == local.addr)
      && (local.ParamLocal? ==>
            && Instrs(t) == Instrs(s) + [Alloca("", elem), Store(ParamValue(local.name, elem), addr)]
            && addr == Reg(InstrRef(s.currentBlock, |Instrs(s)|), Ptr(elem)))
  {
    if local.ParamLocal? {
      var (a, t1) := EmitHere(s, Alloca("", local.ty));
      assert Instrs(t1) == Instrs(s) + [Alloca("", local.ty)];
    }
  }

  /** After the slot: the load, the stored value and the store append
      exactly `StoreCode`, and only an `=` or an arithmetic operator on an
      i32 or double slot gets that far. */
  lemma StoreAppends(s: BuildState, op: string, elem: Type, addr: Value, right: Value)
    requires Inside(s)
    ensures var (loaded, s1) := EmitHere(s, Load(elem, addr));
      var a := AssignedValue(s1, op, elem, loaded, right);
      && (a.Ok? <==> op == "=" || (CompoundOp(op).Some? && (elem == I32 || elem == Double)))
      && (a.Ok? ==>
            var t := EmitHere(a.value.1, Store(a.value.0, addr)).1;
            && Inside(t) && t.currentBlock == s.currentBlock
            && Instrs(t) == Instrs(s) + StoreCode(op, elem, addr, right, s.currentBlock, |Instrs(s)|))
  {
    var (loaded, s1) := EmitHere(s, Load(elem, addr));
    assert Instrs(s1) == Instrs(s) + [Load(elem, addr)];
    var a := AssignedValue(s1, op, elem, loaded, right);
    if a.Ok? {
      var t := EmitHere(a.value.1, Store(a.value.0, addr)).1;
      assert Instrs(t) == Instrs(a.value.1) + [Store(a.value.0, addr)];
    }
  }

  /** An emitted instruction is the new last one of the current block,
      its result addressed by its position; nothing else in the state but
      that block changes. */
  lemma EmitAppends(s: BuildState, i: Instr)
    requires Inside(s)
    ensures var (v, t) := EmitHere(s, i);
      && Inside(t) && Instrs(t) == Instrs(s) + [i]
      && v == Reg(InstrRef(s.currentBlock, |Instrs(s)|), ResultType(i))
      && t.currentBlock == s.currentBlock && t.mod.globals == s.mod.globals
  {
  }

  /** What a successful assignment stores, and where: after the code of
      the right-hand side, the current block gets `StoreCode` for the
      name's slot, preceded for a parameter by a fresh slot holding the
      parameter's value; the name is then bound to that slot. */
  lemma AssignmentStores(s: BuildState, node: Node)
    requires Inside(s) && node.kind == NodeKind.Assignment && G.IsStatement(node)
    ensures var r := GenerateAssignment(s, node);
      r.Ok? ==>
        && GenerateExpression(s, node.children[1]).Ok?
        && node.name in s.locals && node.name in r.value.locals && r.value.locals[node.name].SlotLocal?
        && Inside(r.value) && r.value.currentBlock == s.currentBlock
        && (var (right, s1) := GenerateExpression(s, node.children[1]).value;
            var local, op, b := s.locals[node.name], node.children[0].name, s.currentBlock;
            var addr, elem, before := r.value.locals[node.name].addr, LocalType(local), Instrs(s1);
            && (op == "=" || (CompoundOp(op).Some? && (elem == I32 || elem == Double)))
            && (local.SlotLocal? ==>
                  && addr == local.addr
                  && Instrs(r.value) == before + StoreCode(op, elem, addr, right, b, |before|))
            && (local.ParamLocal? ==>
                  && addr == Reg(InstrRef(b, |before|), Ptr(elem))
                  && Instrs(r.value) == before + [Alloca("", elem), Store(ParamValue(local.name, elem), addr)]
                       + StoreCode(op, elem, addr, right, b, |before| + 2)))
  {
    var r := GenerateAssignment(s, node);
    if r.Ok? {
      var op := node.children[0].name;
      var (right, s1) := GenerateExpression(s, node.children[1]).value;
      var local := s1.locals[node.name];
      SlotCode(s1, local);
      var (addr, elem, s2) := AssignmentSlot(s1, local);
      StoreAppends(s2, op, elem, addr, right);
      var (loaded, s3) := EmitHere(s2, Load(elem, addr));
      var (result, s4) := AssignedValue(s3, op, elem, loaded, right).value;
      var s5 := EmitHere(s4, Store(result, addr)).1;
      assert r.value == s5.(locals := s5.locals[node.name := SlotLocal(addr, elem)]);
      assert Instrs(r.value) == Instrs(s5) && r.value.locals[node.name].addr == addr;
      assert Instrs(s5) == Instrs(s2) + StoreCode(op, elem, addr, right, s.currentBlock, |Instrs(s2)|);
    }
  }

  /** The failures of an assignment whose right-hand side lowers: the name
      is not a local, or the operator is one the parser accepts but the
      builder does not (`&=`, `|=`, `^=`, `<<=`, `>>=`). */
  lemma AssignmentFailures(s: BuildState, node: Node)
    requires Inside(s) && node.kind == NodeKind.Assignment && G.IsStatement(node)
    requires GenerateExpression(s, node.children[1]).Ok?
    ensures var r, op := GenerateAssignment(s, node), node.children[0].name;
      && (node.name !in s.locals ==> r == Err(UnknownIdentifier(node.name)))
      && (node.name in s.locals && op != "=" && CompoundOp(op).None? ==> r == Err(UnsupportedAssignmentOperator(op)))
      && (node.name in s.locals && CompoundOp(op).Some? && LocalType(s.locals[node.name]) !in {I32, Double} ==>
            r == Err(MissingValue(op)))
  {
    var op := node.children[0].name;
    var (right, s1) := GenerateExpression(s, node.children[1]).value;
    if node.name in s.locals && op != "=" {
      var (addr, elem, s2) := AssignmentSlot(s1, s1.locals[node.name]);
      assert elem == LocalType(s.locals[node.name]);
      var (loaded, s3) := EmitHere(s2, Load(elem, addr));
      assert AssignedValue(s3, op, elem, loaded, right).Err? ==>
        GenerateAssignment(s, node) == Err(AssignedValue(s3, op, elem, loaded, right).error);
    }
  }

  // -----------------------------------------------------------------------
  // Callees

  /** A function appended after the others is found when no earlier one
      has its name. */
  lemma {:induction false} FindAppended(funcs: seq<Func>, f: Func)
    requires FindFunc(funcs, f.name).None?
    ensures FindFunc(funcs + [f], f.name) == Some(|funcs|)
  {
    if |funcs| > 0 {
      assert (funcs + [f])[1..] == funcs[1..] + [f];
      FindAppended(funcs[1..], f);
    }
  }

  /** A callee is a function already in the module, found by its name;
      only `printf` may be missing, and then it is declared. */
  lemma CalleeResolution(s: BuildState, name: string)
    requires Inside(s)
    ensures var r, found := Callee(s, name), FindFunc(s.mod.funcs, name);
      && (found.Some? ==> r == Ok((found.value, s)))
      && (r.Err? <==> found.None? && name != "printf")
      && (r.Err? ==> r.error == FunctionNotFound(name))
      && (r.Ok? ==> r.value.1.mod.funcs[r.value.0].name == name)
  {
  }

  /** `printf` is declared once, as a variadic function of one `i8*`
      parameter after the others; a second call finds that declaration and
      changes nothing. */
  lemma PrintfDeclaredOnce(s: BuildState)
    requires Inside(s) && FindFunc(s.mod.funcs, "printf").None?
    ensures var r := Callee(s, "printf");
      && r.Ok? && r.value.0 == |s.mod.funcs|
      && r.value.1.mod.funcs == s.mod.funcs + [Func("printf", Void, [Param("format", Ptr(I8))], true, [])]
      && Callee(r.value.1, "printf") == Ok((r.value.0, r.value.1))
  {
    var decl := Func("printf", Void, [Param("format", Ptr(I8))], true, []);
    var (m, f) := AddFunc(s.mod, "printf", Void, [Param("format", Ptr(I8))]);
    var t := s.(mod := SetVariadic(m, f));
    assert t.mod.funcs == s.mod.funcs + [decl];
    FindAppended(s.mod.funcs, decl);
  }

  /** The call a function call appends to the current block: to the
      callee found by its name (or `printf`, declared), with its return
      type and the arguments in order. The call's result is the value of
      the call expression. */
  lemma CallEmits(s: BuildState, node: Node)
    requires Inside(s) && forall i :: 0 <= i < |node.children| ==> IsExpression(node.children[i])
    ensures var r, c := GenerateFunctionCall(s, node), Callee(s, node.name);
      && (c.Err? ==> r == Err(FunctionNotFound(node.name)))
      && (c.Ok? ==>
            var (f, s1) := c.value;
            var a := GenerateArguments(s1, node, 0, []);
            && s1.mod.funcs[f].name == node.name
            && (a.Err? ==> r == Err(a.error))
            && (a.Ok? ==>
                  var (args, s2) := a.value;
                  && |args| == |node.children| && s2.currentBlock == s.currentBlock
                  && r == EmitCall(s2, f, node.name == "printf", args)
                  && (node.name != "printf" ==> CallAppended(s2, f, args, r))))
  {
    CalleeResolution(s, node.name);
    var c := Callee(s, node.name);
    if c.Ok? {
      var (f, s1) := c.value;
      var a := GenerateArguments(s1, node, 0, []);
      if a.Ok? {
        var (args, s2) := a.value;
        EmitAppends(s2, Call(f, s2.mod.funcs[f].ret, args));
      }
    }
  }

  /** `r` is the call of `f` with `args` appended to the current block of
      `s`: the call has `f`'s return type and its result is the value. */
  predicate CallAppended(s: BuildState, f: nat, args: seq<Value>, r: Lowered)
    requires Inside(s) && f < |s.mod.funcs|
  {
    var ret := s.mod.funcs[f].ret;
    && r.Ok? && Inside(r.value.1) && r.value.1.currentBlock == s.currentBlock
    && r.value.0 == Reg(InstrRef(s.currentBlock, |Instrs(s)|), ret)
    && Instrs(r.value.1) == Instrs(s) + [Call(f, ret, args)]
  }

  /** A call of `printf` whose arguments are all i32 or double passes
      first the address of a new global holding the format string: a `%d`
      per i32 and a `%f` per double argument, then a newline and a NUL. */
  lemma PrintfEmits(s: BuildState, f: nat, args: seq<Value>)
    requires Inside(s) && f < |s.mod.funcs|
    requires forall j :: 0 <= j < |args| ==> LF.Printable(args[j])
    ensures var r, format := EmitCall(s, f, true, args), LF.Specifiers(args) + "\n\0";
      && r.Ok? && r.value.1.mod.globals == s.mod.globals + [format]
      && CallAppended(s.(mod := s.mod.(globals := s.mod.globals + [format])), f, [GlobalRef(|s.mod.globals|, |format|)] + args, r)
  {
    LF.FormatStringOfPrintable(args);
    var format := LF.Specifiers(args) + "\n\0";
    var (m, global) := AddGlobal(s.mod, format);
    EmitAppends(s.(mod := m), Call(f, s.mod.funcs[f].ret, [global] + args));
  }

  /** Any other call appends the call of its callee with its arguments and
      adds no global. */
  lemma OtherCallEmits(s: BuildState, f: nat, args: seq<Value>)
    requires Inside(s) && f < |s.mod.funcs|
    ensures var r := EmitCall(s, f, false, args);
      CallAppended(s, f, args, r) && r.value.1.mod.globals == s.mod.globals
  {
    EmitAppends(s, Call(f, s.mod.funcs[f].ret, args));
  }

  /** An argument of `printf` that is neither i32 nor double fails the
      call, with the type of the first such argument. */
  lemma PrintfRejects(s: BuildState, f: nat, args: seq<Value>, bad: nat)
    requires Inside(s) && f < |s.mod.funcs|
    requires bad < |args| && !LF.Printable(args[bad]) && forall k :: 0 <= k < bad ==> LF.Printable(args[k])
    ensures EmitCall(s, f, true, args) == Err(UnsupportedPrintfArgument(TypeOf(args[bad])))
  {
    LF.FormatStringStopsAt(args, bad);
  }

  // -----------------------------------------------------------------------
  // Directives

  /** Only `#define` with a value is lowered; the value becomes a 32-bit
      global of the builder under the defined name, read as `%d` reads it,
      and nothing else changes. */
  lemma DefineBecomesGlobal(s: BuildState, node: Node)
    ensures var r := GeneratePreprocessorDirective(s, node);
      && (r.Ok? <==> node.name == "#define" && |node.children| == 2 && node.children[1].kind == Literal)
      && (!(node.name == "#define" && |node.children| == 2) ==> r == Err(UnsupportedDirective(node.name)))
      && (r.Ok? ==> var x := node.children[0].name;
            && r.value.globals.Keys == s.globals.Keys + {x}
            && r.value.globals[x] == IntConst(ScanInt(node.children[1].name))
            && TypeOf(r.value.globals[x]) == I32
            && (forall y :: y in s.globals && y != x ==> r.value.globals[y] == s.globals[y])
            && r.value == s.(globals := r.value.globals))
  {
  }

  /** `#define N 42` makes `N` the i32 constant 42. */
  lemma DefineOfNumber(s: BuildState, node: Node, n: nat)
    requires node.name == "#define" && |node.children| == 2
    requires node.children[1] == Leaf(Literal, Decimal(n)) && n <= MaxInt64
    ensures GeneratePreprocessorDirective(s, node)
      == Ok(s.(globals := s.globals[node.children[0].name := IntConst(n)]))
  {
    LF.ScanIntStopsAtNonDigit(n, "");
    assert Decimal(n) + "" == Decimal(n);
  }

  /** A value that does not start with a number, such as a string,
      defines the constant 0. */
  lemma DefineDefaultsToZero(s: BuildState, node: Node)
    requires node.name == "#define" && |node.children| == 2 && node.children[1].kind == Literal
    requires var t := node.children[1].name; |t| > 0 && t[0] == '"'
    ensures GeneratePreprocessorDirective(s, node)
      == Ok(s.(globals := s.globals[node.children[0].name := IntConst(0)]))
  {
    var t := node.children[1].name;
    assert SignSplit(t) == (false, 0);
    assert DigitRun(t[0..]) == 0;
  }

  // -----------------------------------------------------------------------
  // The loop stack

  /** A while statement pushes its three blocks on the loop stack: the
      condition, body and end blocks it adds, in that order. What its body
      pushes stays above them. */
  lemma WhilePushesTrace(s: BuildState, node: Node)
    requires Inside(s) && node.kind == WhileStatement && G.IsStatement(node)
    ensures var r, f, n := GenerateWhileStatement(s, node), s.currentBlock.fn, BlockCount(s.mod, s.currentBlock.fn);
      r.Ok? ==>
        && |s.loops| < |r.value.loops|
        && r.value.loops[|s.loops|] == LoopTrace(BlockRef(f, n), BlockRef(f, n + 1), BlockRef(f, n + 2))
  {
    var f, n := s.currentBlock.fn, BlockCount(s.mod, s.currentBlock.fn);
    var k := |s.blocks|;
    var (condition, s1) := NewBlockHere(s, "while.cond." + Decimal(k));
    var (body, s2) := NewBlockHere(s1, "while.body." + Decimal(k));
    var (end, s3) := NewBlockHere(s2, "while.end." + Decimal(k));
    var s4 := s3.(blocks := s3.blocks + [condition, body, end]);
    assert GenerateWhileStatement(s, node) == EnterLoop(s4, node, condition, body, end);
    var s5 := TerminateHere(s4, Br(condition));
    var s6 := s5.(loops := s5.loops + [LoopTrace(condition, body, end)], currentBlock := condition);
    assert EnterLoop(s4, node, condition, body, end) == LoopArms(s6, node, body, end);
    var r := LoopArms(s6, node, body, end);
    if r.Ok? {
      assert s6.loops <= r.value.loops;
      assert s6.loops[|s.loops|] == LoopTrace(BlockRef(f, n), BlockRef(f, n + 1), BlockRef(f, n + 2));
    }
  }

  /** The loop stack is never popped: a `break` or `continue` after a while
      statement, even outside it, is accepted. */
  lemma BreakAfterLoop(s: BuildState, node: Node, isContinue: bool)
    requires Inside(s) && node.kind == WhileStatement && G.IsStatement(node)
    requires GenerateWhileStatement(s, node).Ok?
    ensures GenerateBreakContinue(GenerateWhileStatement(s, node).value, isContinue).Ok?
  {
    WhilePushesTrace(s, node);
  }

  /** Across a whole build the loop stack only grows, from one function to
      the next, so a `break` outside any loop fails only when no while
      statement has been lowered before it. */
  lemma {:induction false} LoopStackPersists(s: BuildState, program: Node, i: nat)
    requires G.IsProgram(program) && i <= |program.children|
    ensures var r := BuildItems(s, program, i);
      r.Ok? ==> s.loops <= r.value.loops
    decreases |program.children| - i
  {
    if i < |program.children| {
      var child := program.children[i];
      var r1 := if child.kind == PreprocessorDirective then GeneratePreprocessorDirective(s, child)
                else if child.kind == FunctionDeclaration then GenerateFunction(s, child)
                else Ok(s);
      if r1.Ok? {
        LoopStackPersists(r1.value, program, i + 1);
      }
    }
  }

  // -----------------------------------------------------------------------
  // Operand types

  /** A binary expression lowers only when both operands lower to values
      of one type, i32 or double, and the operator is arithmetic or a
      comparison: `&&`, `||`, `**` and the assignment operators fail. A
      comparison yields an i1, arithmetic the operand type. */
  lemma BinaryTyping(s: BuildState, node: Node)
    requires Inside(s) && node.kind == BinaryExpression && IsExpression(node)
    ensures var r, lhs := GenerateBinaryExpression(s, node), GenerateExpression(s, node.children[0]);
      r.Ok? ==>
        && 4 <= OperatorPrecedence(node.name) <= 7
        && lhs.Ok?
        && var rhs := GenerateExpression(lhs.value.1, node.children[1]);
           && rhs.Ok?
           && var ty := TypeOf(lhs.value.0);
              && TypeOf(rhs.value.0) == ty && (ty == I32 || ty == Double)
              && TypeOf(r.value.0) == if OperatorPrecedence(node.name) <= 5 then I1 else ty
  {
  }
}
