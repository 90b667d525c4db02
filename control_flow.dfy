/** The control flow the lowering of src/builder/main.go leaves behind:
    every block of every function it defines ends with a terminator. A
    return or a branch ends the current block; a conditional and a while
    statement branch out of every block they open and leave only their
    `end` block open; and `generateFunction` closes the last open block of
    a body with a bare return. Blocks only ever gain a terminator, and the
    functions other than the one being lowered keep their blocks. */
module ControlFlow {
  import opened Wrappers
  import opened AstNode
  import opened Ir
  import opened Pratt
  import opened Lowering
  import G = Grammar

  // -----------------------------------------------------------------------
  // Relations between two modules, for the blocks of function `f`

  /** Block `i` of function `f` exists and has a terminator. */
  predicate Term(m: Module, f: nat, i: nat)
  {
    i < BlockCount(m, f) && m.funcs[f].blocks[i].term.Some?
  }

  /** The blocks of function `g`; none when there is no such function. */
  function BlocksOf(m: Module, g: nat): seq<Block>
  {
    if g < |m.funcs| then m.funcs[g].blocks else []
  }

  /** Every function other than `f` keeps its blocks, and the functions
      added after the others have none: they are declarations. */
  ghost predicate OthersKept(m: Module, m': Module, f: nat)
  {
    |m.funcs| <= |m'.funcs|
    && forall g: nat :: g < |m'.funcs| && g != f ==> BlocksOf(m', g) == BlocksOf(m, g)
  }

  /** `f` keeps its blocks, which keep their terminators. */
  ghost predicate Keeps(m: Module, m': Module, f: nat)
  {
    BlockCount(m, f) <= BlockCount(m', f)
    && (forall i :: Term(m, f, i) ==> Term(m', f, i))
    && OthersKept(m, m', f)
  }

  /** As Keeps, and `f` has no new block. */
  ghost predicate Quiet(m: Module, m': Module, f: nat)
  {
    Keeps(m, m', f) && BlockCount(m', f) == BlockCount(m, f)
  }

  /** Block `start` and every block added to `f` from `m` to `m'` have a
      terminator in `m'`. */
  ghost predicate Finished(m: Module, m': Module, f: nat, start: nat)
  {
    forall i :: (i == start || BlockCount(m, f) <= i < BlockCount(m', f)) ==> Term(m', f, i)
  }

  /** As Finished, except perhaps block `open`. */
  ghost predicate Closes(m: Module, m': Module, f: nat, start: nat, open: nat)
  {
    forall i :: (i == start || BlockCount(m, f) <= i < BlockCount(m', f)) && i != open ==> Term(m', f, i)
  }

  /** What lowering a statement does to the blocks: from `s` to `t` it
      stays in the same function, keeps the blocks and their terminators,
      ends in the block it started in or in a new one, and leaves every
      other block it started in or added terminated. */
  ghost predicate Settles(s: BuildState, t: BuildState)
  {
    Inside(s) && Inside(t) && t.currentFunction == s.currentFunction
    && var f := s.currentBlock.fn;
       Keeps(s.mod, t.mod, f)
       && (t.currentBlock == s.currentBlock || BlockCount(s.mod, f) <= t.currentBlock.index)
       && Closes(s.mod, t.mod, f, s.currentBlock.index, t.currentBlock.index)
  }

  /** Every block of every function of the module has a terminator. */
  ghost predicate AllTerminated(m: Module)
  {
    forall g, i :: 0 <= g < |m.funcs| && 0 <= i < |m.funcs[g].blocks| ==> m.funcs[g].blocks[i].term.Some?
  }

  // -----------------------------------------------------------------------
  // The IR operations

  lemma QuietTrans(m0: Module, m1: Module, m2: Module, f: nat)
    requires Quiet(m0, m1, f) && Quiet(m1, m2, f)
    ensures Quiet(m0, m2, f)
  {
    KeepsTrans(m0, m1, m2, f);
  }

  lemma KeepsTrans(m0: Module, m1: Module, m2: Module, f: nat)
    requires Keeps(m0, m1, f) && Keeps(m1, m2, f)
    ensures Keeps(m0, m2, f)
  {
  }

  /** Appending an instruction changes no terminator. */
  lemma EmitQuiet(m: Module, r: BlockRef, i: Instr)
    requires ValidRef(m, r)
    ensures Quiet(m, Emit(m, r, i).0, r.fn)
  {
    var m' := Emit(m, r, i).0;
    forall j: nat | Term(m, r.fn, j) ensures Term(m', r.fn, j) {
      if j != r.index {
        UpdateBlockFrame(m, r, BlockAt(m, r).(instrs := BlockAt(m, r).instrs + [i]));
        assert ValidRef(m, BlockRef(r.fn, j));
      }
    }
  }

  /** Setting a terminator keeps the others and ends block `r`. */
  lemma SetTermQuiet(m: Module, r: BlockRef, t: Terminator)
    requires ValidRef(m, r)
    ensures Quiet(m, SetTerm(m, r, t), r.fn) && Term(SetTerm(m, r, t), r.fn, r.index)
  {
    var m' := SetTerm(m, r, t);
    forall j: nat | Term(m, r.fn, j) ensures Term(m', r.fn, j) {
      if j != r.index {
        UpdateBlockFrame(m, r, BlockAt(m, r).(term := Some(t)));
        assert ValidRef(m, BlockRef(r.fn, j));
      }
    }
  }

  /** A new block adds one block and keeps the rest. */
  lemma AddBlockKeeps(m: Module, f: nat, name: string)
    requires f < |m.funcs|
    ensures Keeps(m, AddBlock(m, f, name).0, f)
  {
    var m' := AddBlock(m, f, name).0;
    forall j: nat | Term(m, f, j) ensures Term(m', f, j) {
      assert m'.funcs[f].blocks[j] == m.funcs[f].blocks[j];
    }
  }

  /** Declaring a function adds one without blocks. */
  lemma AddFuncQuiet(m: Module, name: string, ret: Type, params: seq<Param>, f: nat)
    requires f < |m.funcs|
    ensures Quiet(m, AddFunc(m, name, ret, params).0, f)
  {
    var m' := AddFunc(m, name, ret, params).0;
    assert forall g :: 0 <= g < |m.funcs| ==> m'.funcs[g] == m.funcs[g];
  }

  lemma SetVariadicQuiet(m: Module, g: nat, f: nat)
    requires g < |m.funcs|
    ensures Quiet(m, SetVariadic(m, g), f)
  {
    var m' := SetVariadic(m, g);
    assert forall h :: 0 <= h < |m.funcs| ==> m'.funcs[h].blocks == m.funcs[h].blocks;
  }

  // -----------------------------------------------------------------------
  // The builder state

  lemma EmitHereQuiet(s: BuildState, i: Instr)
    requires Inside(s)
    ensures Quiet(s.mod, EmitHere(s, i).1.mod, s.currentBlock.fn)
  {
    EmitQuiet(s.mod, s.currentBlock, i);
  }

  lemma TerminateHereQuiet(s: BuildState, t: Terminator)
    requires Inside(s)
    ensures var m := TerminateHere(s, t).mod;
      Quiet(s.mod, m, s.currentBlock.fn) && Term(m, s.currentBlock.fn, s.currentBlock.index)
  {
    SetTermQuiet(s.mod, s.currentBlock, t);
  }

  /** A fall-through leaves the current block terminated, whether or not
      it was before. */
  lemma FallThroughQuiet(s: BuildState, target: BlockRef)
    requires Inside(s)
    ensures var m := FallThrough(s, target).mod;
      Quiet(s.mod, m, s.currentBlock.fn) && Term(m, s.currentBlock.fn, s.currentBlock.index)
  {
    if !CurrentTerminated(s) {
      TerminateHereQuiet(s, Br(target));
    }
  }

  lemma NewBlockHereKeeps(s: BuildState, name: string)
    requires Inside(s)
    ensures Keeps(s.mod, NewBlockHere(s, name).1.mod, s.currentBlock.fn)
  {
    AddBlockKeeps(s.mod, s.currentBlock.fn, name);
  }

  /** A step that adds no block and stays in the current block settles. */
  lemma QuietSettles(s: BuildState, t: BuildState)
    requires Inside(s) && Inside(t) && t.currentFunction == s.currentFunction
    requires t.currentBlock == s.currentBlock && Quiet(s.mod, t.mod, s.currentBlock.fn)
    ensures Settles(s, t)
  {
  }

  lemma SettlesTrans(s: BuildState, t: BuildState, u: BuildState)
    requires Settles(s, t) && Settles(t, u)
    ensures Settles(s, u)
  {
    var f := s.currentBlock.fn;
    KeepsTrans(s.mod, t.mod, u.mod, f);
    forall i | (i == s.currentBlock.index || BlockCount(s.mod, f) <= i < BlockCount(u.mod, f)) && i != u.currentBlock.index
      ensures Term(u.mod, f, i)
    {
      if i < BlockCount(t.mod, f) && i != t.currentBlock.index {
        assert Term(t.mod, f, i);
      }
    }
  }

  /** A settled step whose open block is then terminated has finished
      every block it started in or added. */
  lemma SettlesThenFinished(s: BuildState, t: BuildState, m: Module)
    requires Settles(s, t)
    requires Quiet(t.mod, m, s.currentBlock.fn) && Term(m, s.currentBlock.fn, t.currentBlock.index)
    ensures Finished(s.mod, m, s.currentBlock.fn, s.currentBlock.index)
    ensures Keeps(s.mod, m, s.currentBlock.fn)
  {
    KeepsTrans(s.mod, t.mod, m, s.currentBlock.fn);
  }

  /** Two finished stretches make one. */
  lemma FinishedThen(m0: Module, m1: Module, m2: Module, f: nat, x: nat, y: nat)
    requires Finished(m0, m1, f, x) && Keeps(m0, m1, f)
    requires Finished(m1, m2, f, y) && Keeps(m1, m2, f)
    ensures Finished(m0, m2, f, x) && Term(m2, f, y) && Keeps(m0, m2, f)
  {
    KeepsTrans(m0, m1, m2, f);
  }

  lemma FinishedQuiet(m0: Module, m1: Module, m2: Module, f: nat, x: nat)
    requires Finished(m0, m1, f, x) && Keeps(m0, m1, f) && Quiet(m1, m2, f)
    ensures Finished(m0, m2, f, x) && Keeps(m0, m2, f)
  {
    KeepsTrans(m0, m1, m2, f);
  }

  // -----------------------------------------------------------------------
  // Expressions change no terminator and add no block

  lemma {:induction false} ExpressionQuiet(s: BuildState, node: Node)
    requires Inside(s) && (IsExpression(node) || G.IsInitializer(node))
    ensures var r := GenerateExpression(s, node);
      r.Ok? ==> Quiet(s.mod, r.value.1.mod, s.currentBlock.fn)
    decreases node, 2, 0
  {
    match node.kind {
      case Identifier => IdentifierQuiet(s, node);
      case BinaryExpression => BinaryQuiet(s, node);
      case FunctionCall => CallQuiet(s, node);
      case _ =>
    }
  }

  lemma IdentifierQuiet(s: BuildState, node: Node)
    requires Inside(s)
    ensures var r := GenerateIdentifier(s, node);
      r.Ok? ==> Quiet(s.mod, r.value.1.mod, s.currentBlock.fn)
  {
    if node.name in s.locals && s.locals[node.name].SlotLocal? {
      var l := s.locals[node.name];
      EmitHereQuiet(s, Load(l.elem, l.addr));
    }
  }

  lemma {:induction false} BinaryQuiet(s: BuildState, node: Node)
    requires Inside(s) && node.kind == BinaryExpression && IsExpression(node)
    ensures var r := GenerateBinaryExpression(s, node);
      r.Ok? ==> Quiet(s.mod, r.value.1.mod, s.currentBlock.fn)
    decreases node, 1, 0
  {
    var f := s.currentBlock.fn;
    var r0 := GenerateExpression(s, node.children[0]);
    if r0.Ok? {
      ExpressionQuiet(s, node.children[0]);
      var (left, s1) := r0.value;
      var r1 := GenerateExpression(s1, node.children[1]);
      if r1.Ok? {
        ExpressionQuiet(s1, node.children[1]);
        var (right, s2) := r1.value;
        QuietTrans(s.mod, s1.mod, s2.mod, f);
        match BinaryInstr(node.name, TypeOf(left), left, right) {
          case Some(i) =>
            EmitHereQuiet(s2, i);
            QuietTrans(s.mod, s2.mod, EmitHere(s2, i).1.mod, f);
          case None =>
        }
      }
    }
  }

  lemma CalleeQuiet(s: BuildState, name: string)
    requires Inside(s)
    ensures var r := Callee(s, name);
      r.Ok? ==> Quiet(s.mod, r.value.1.mod, s.currentBlock.fn)
  {
    if FindFunc(s.mod.funcs, name).None? && name == "printf" {
      var f := s.currentBlock.fn;
      var (m, g) := AddFunc(s.mod, "printf", Void, [Param("format", Ptr(I8))]);
      AddFuncQuiet(s.mod, "printf", Void, [Param("format", Ptr(I8))], f);
      SetVariadicQuiet(m, g, f);
      QuietTrans(s.mod, m, SetVariadic(m, g), f);
    }
  }

  lemma {:induction false} CallQuiet(s: BuildState, node: Node)
    requires Inside(s) && forall i :: 0 <= i < |node.children| ==> IsExpression(node.children[i])
    ensures var r := GenerateFunctionCall(s, node);
      r.Ok? ==> Quiet(s.mod, r.value.1.mod, s.currentBlock.fn)
    decreases node, 1, 0
  {
    var f := s.currentBlock.fn;
    var c := Callee(s, node.name);
    if c.Ok? {
      CalleeQuiet(s, node.name);
      var (g, s1) := c.value;
      var a := GenerateArguments(s1, node, 0, []);
      if a.Ok? {
        ArgumentsQuiet(s1, node, 0, []);
        var (args, s2) := a.value;
        QuietTrans(s.mod, s1.mod, s2.mod, f);
        var ret := s2.mod.funcs[g].ret;
        if node.name == "printf" {
          var format := FormatString(args);
          if format.Ok? {
            var (m, global) := AddGlobal(s2.mod, format.value);
            EmitHereQuiet(s2.(mod := m), Call(g, ret, [global] + args));
            QuietTrans(s.mod, m, EmitHere(s2.(mod := m), Call(g, ret, [global] + args)).1.mod, f);
          }
        } else {
          EmitHereQuiet(s2, Call(g, ret, args));
          QuietTrans(s.mod, s2.mod, EmitHere(s2, Call(g, ret, args)).1.mod, f);
        }
      }
    }
  }

  lemma {:induction false} ArgumentsQuiet(s: BuildState, node: Node, i: nat, args: seq<Value>)
    requires Inside(s) && i <= |node.children|
    requires forall j :: 0 <= j < |node.children| ==> IsExpression(node.children[j])
    ensures var r := GenerateArguments(s, node, i, args);
      r.Ok? ==> Quiet(s.mod, r.value.1.mod, s.currentBlock.fn)
    decreases node, 0, |node.children| - i
  {
    if i < |node.children| {
      var r0 := GenerateExpression(s, node.children[i]);
      if r0.Ok? {
        ExpressionQuiet(s, node.children[i]);
        var (arg, s1) := r0.value;
        ArgumentsQuiet(s1, node, i + 1, args + [arg]);
        var r := GenerateArguments(s1, node, i + 1, args + [arg]);
        if r.Ok? {
          QuietTrans(s.mod, s1.mod, r.value.1.mod, s.currentBlock.fn);
        }
      }
    }
  }

  // -----------------------------------------------------------------------
  // Statements settle

  lemma {:induction false} BlockSettles(s: BuildState, target: BlockRef, node: Node)
    requires Inside(s) && target.fn == s.currentBlock.fn && ValidRef(s.mod, target) && G.IsBlock(node)
    ensures var r := GenerateBlock(s, target, node);
      r.Ok? ==> Settles(s.(currentBlock := target), r.value)
    decreases node, 3, 0
  {
    StatementsSettle(s.(currentBlock := target), node, 0);
  }

  lemma {:induction false} StatementsSettle(s: BuildState, node: Node, i: nat)
    requires Inside(s) && G.IsBlock(node) && i <= |node.children|
    ensures var r := GenerateStatements(s, node, i);
      r.Ok? ==> Settles(s, r.value)
    decreases node, 2, |node.children| - i
  {
    if i == |node.children| {
      QuietSettles(s, s);
    } else {
      var r0 := GenerateStatement(s, node.children[i]);
      if r0.Ok? {
        StatementSettles(s, node.children[i]);
        StatementsSettle(r0.value, node, i + 1);
        var r := GenerateStatements(r0.value, node, i + 1);
        if r.Ok? {
          SettlesTrans(s, r0.value, r.value);
        }
      }
    }
  }

  lemma {:induction false} StatementSettles(s: BuildState, node: Node)
    requires Inside(s) && G.IsStatement(node)
    ensures var r := GenerateStatement(s, node);
      r.Ok? ==> Settles(s, r.value)
    decreases node, 1, 0
  {
    if node.kind == WhileStatement {
      WhileSettles(s, node);
    } else if node.kind == Statement && node.name == "if" {
      ConditionalSettles(s, node);
    } else {
      SimpleStatementSettles(s, node);
    }
  }

  /** A statement other than a conditional or a loop stays in its block
      and adds none. */
  lemma SimpleStatementSettles(s: BuildState, node: Node)
    requires Inside(s) && G.IsStatement(node)
    requires node.kind != WhileStatement && !(node.kind == Statement && node.name == "if")
    ensures var r := GenerateStatement(s, node);
      r.Ok? ==> Settles(s, r.value)
  {
    var r := GenerateStatement(s, node);
    match node.kind {
      case ReturnStatement =>
        ReturnQuiet(s, node);
      case VariableDeclaration =>
        DeclarationQuiet(s, node);
      case FunctionCall =>
        CallQuiet(s, node);
      case Statement =>
        if |s.loops| > 0 {
          var top := s.loops[|s.loops| - 1];
          TerminateHereQuiet(s, Br(if node.name == "continue" then top.condition else top.end));
        }
      case Assignment =>
        AssignmentQuiet(s, node);
      case _ =>
    }
    if r.Ok? {
      QuietSettles(s, r.value);
    }
  }

  lemma ReturnQuiet(s: BuildState, node: Node)
    requires Inside(s) && forall i :: 0 <= i < |node.children| ==> IsExpression(node.children[i])
    ensures var r := GenerateReturn(s, node);
      r.Ok? ==> Quiet(s.mod, r.value.mod, s.currentBlock.fn)
  {
    if |node.children| == 0 {
      TerminateHereQuiet(s, Ret(None));
    } else {
      var r0 := GenerateExpression(s, node.children[0]);
      if r0.Ok? {
        ExpressionQuiet(s, node.children[0]);
        var (v, s1) := r0.value;
        TerminateHereQuiet(s1, Ret(Some(v)));
        QuietTrans(s.mod, s1.mod, TerminateHere(s1, Ret(Some(v))).mod, s.currentBlock.fn);
      }
    }
  }

  lemma DeclarationQuiet(s: BuildState, node: Node)
    requires Inside(s) && node.kind == VariableDeclaration && G.IsStatement(node)
    ensures var r := GenerateVariableDeclaration(s, node);
      r.Ok? ==> r.value.currentBlock == s.currentBlock && Quiet(s.mod, r.value.mod, s.currentBlock.fn)
  {
    var f := s.currentBlock.fn;
    var ty := GetTypeFromName(node.children[0].name);
    if ty.Ok? {
      var (addr, s1) := EmitHere(s, Alloca(node.name, ty.value));
      EmitHereQuiet(s, Alloca(node.name, ty.value));
      var s2 := s1.(locals := s1.locals[node.name := SlotLocal(addr, ty.value)]);
      if |node.children| > 1 {
        var r0 := GenerateExpression(s2, node.children[1]);
        if r0.Ok? {
          ExpressionQuiet(s2, node.children[1]);
          var (v, s3) := r0.value;
          EmitHereQuiet(s3, Store(v, addr));
          QuietTrans(s.mod, s2.mod, s3.mod, f);
          QuietTrans(s.mod, s3.mod, EmitHere(s3, Store(v, addr)).1.mod, f);
        }
      }
    }
  }

  lemma AssignmentQuiet(s: BuildState, node: Node)
    requires Inside(s) && node.kind == NodeKind.Assignment && G.IsStatement(node)
    ensures var r := GenerateAssignment(s, node);
      r.Ok? ==> r.value.currentBlock == s.currentBlock && Quiet(s.mod, r.value.mod, s.currentBlock.fn)
  {
    var f := s.currentBlock.fn;
    var op := node.children[0].name;
    var r0 := GenerateExpression(s, node.children[1]);
    if r0.Ok? && node.name in r0.value.1.locals {
      ExpressionQuiet(s, node.children[1]);
      var (right, s1) := r0.value;
      var (addr, elem, s2) := AssignmentSlot(s1, s1.locals[node.name]);
      SlotQuiet(s1, s1.locals[node.name]);
      var (loaded, s3) := EmitHere(s2, Load(elem, addr));
      EmitHereQuiet(s2, Load(elem, addr));
      QuietTrans(s.mod, s1.mod, s2.mod, f);
      QuietTrans(s.mod, s2.mod, s3.mod, f);
      var r1 := AssignedValue(s3, op, elem, loaded, right);
      if r1.Ok? {
        var (result, s4) := r1.value;
        if op != "=" && CompoundOp(op).Some? {
          EmitHereQuiet(s3, Arith(CompoundOp(op).value, elem, loaded, right));
        }
        QuietTrans(s.mod, s3.mod, s4.mod, f);
        EmitHereQuiet(s4, Store(result, addr));
        QuietTrans(s.mod, s4.mod, EmitHere(s4, Store(result, addr)).1.mod, f);
      }
    }
  }

  lemma SlotQuiet(s: BuildState, local: Local)
    requires Inside(s)
    ensures Quiet(s.mod, AssignmentSlot(s, local).2.mod, s.currentBlock.fn)
  {
    if local.ParamLocal? {
      var (addr, s1) := EmitHere(s, Alloca("", local.ty));
      EmitHereQuiet(s, Alloca("", local.ty));
      EmitHereQuiet(s1, Store(ParamValue(local.name, local.ty), addr));
      QuietTrans(s.mod, s1.mod, EmitHere(s1, Store(ParamValue(local.name, local.ty), addr)).1.mod, s.currentBlock.fn);
    }
  }

  /** A statement that ends its block with a terminator, adds up to three
      blocks, and leaves all of them but `open` terminated together with
      every block added after them, settles in `open`. */
  lemma OpenedSettles(s: BuildState, mA: Module, r: BuildState, x: nat, y: nat, open: nat)
    requires Inside(s) && Inside(r) && r.currentFunction == s.currentFunction
    requires var f, n := s.currentBlock.fn, BlockCount(s.mod, s.currentBlock.fn);
      Keeps(s.mod, mA, f) && Term(mA, f, s.currentBlock.index)
      && n <= open && BlockCount(mA, f) <= n + 3
      && (n < BlockCount(mA, f) ==> n == x || n == y || n == open)
      && (n + 1 < BlockCount(mA, f) ==> n + 1 == x || n + 1 == y || n + 1 == open)
      && (n + 2 < BlockCount(mA, f) ==> n + 2 == x || n + 2 == y || n + 2 == open)
      && Keeps(mA, r.mod, f) && Finished(mA, r.mod, f, x) && Term(r.mod, f, y)
      && r.currentBlock == BlockRef(f, open)
    ensures Settles(s, r)
  {
    var f, n := s.currentBlock.fn, BlockCount(s.mod, s.currentBlock.fn);
    KeepsTrans(s.mod, mA, r.mod, f);
    forall i: nat | (i == s.currentBlock.index || n <= i < BlockCount(r.mod, f)) && i != open
      ensures Term(r.mod, f, i)
    {
      if i == s.currentBlock.index {
        assert Term(mA, f, i);
      }
    }
  }

  lemma {:induction false} ConditionalSettles(s: BuildState, node: Node)
    requires Inside(s) && G.IsConditional(node)
    ensures var r := GenerateConditional(s, node);
      r.Ok? ==> Settles(s, r.value)
    decreases node, 0, 4
  {
    var r0 := GenerateExpression(s, node.children[0]);
    if r0.Ok? {
      var (cond, s1) := r0.value;
      ExpressionQuiet(s, node.children[0]);
      assert GenerateConditional(s, node) == ConditionalBranch(s1, node, cond);
      BranchSettles(s, s1, node, cond);
    }
  }

  /** A conditional once its condition is computed. */
  lemma {:induction false} BranchSettles(s: BuildState, s1: BuildState, node: Node, cond: Value)
    requires Inside(s) && Inside(s1) && G.IsConditional(node)
    requires s1.currentBlock == s.currentBlock && s1.currentFunction == s.currentFunction
    requires Quiet(s.mod, s1.mod, s.currentBlock.fn)
    ensures var r := ConditionalBranch(s1, node, cond);
      r.Ok? ==> Settles(s, r.value)
    decreases node, 0, 3
  {
    var f := s.currentBlock.fn;
    var k := |s1.blocks|;
    var (body, s2) := NewBlockHere(s1, "if.body." + Decimal(k));
    NewBlockHereKeeps(s1, "if.body." + Decimal(k));
    var (end, s3) := NewBlockHere(s2, "if.end." + Decimal(k));
    NewBlockHereKeeps(s2, "if.end." + Decimal(k));
    KeepsTrans(s.mod, s1.mod, s2.mod, f);
    KeepsTrans(s.mod, s2.mod, s3.mod, f);
    JumpSettles(s, s3.(blocks := s3.blocks + [body, end]), node, cond, body, end);
  }

  /** A conditional once its body and end blocks are added: the branch on
      the condition, and the arms. */
  lemma {:induction false} JumpSettles(s: BuildState, s4: BuildState, node: Node, cond: Value, body: BlockRef, end: BlockRef)
    requires Inside(s) && Inside(s4) && G.IsConditional(node)
    requires var f, n := s.currentBlock.fn, BlockCount(s.mod, s.currentBlock.fn);
      s4.currentBlock == s.currentBlock && s4.currentFunction == s.currentFunction
      && Keeps(s.mod, s4.mod, f) && BlockCount(s4.mod, f) == n + 2
      && body == BlockRef(f, n) && end == BlockRef(f, n + 1)
    ensures var r := ConditionalJump(s4, node, cond, body, end);
      r.Ok? ==> Settles(s, r.value)
    decreases node, 0, 2
  {
    var f := s.currentBlock.fn;
    if |node.children| > 2 {
      var prefix := if node.children[2].kind == Statement then "if.elseif." else "if.else.";
      var (alt, s5) := NewBlockHere(s4, prefix + Decimal(|s4.blocks|));
      NewBlockHereKeeps(s4, prefix + Decimal(|s4.blocks|));
      KeepsTrans(s.mod, s4.mod, s5.mod, f);
      WithElseSettles(s, s5.(blocks := s5.blocks + [alt]), node, cond, body, end, alt);
    } else {
      WithoutElseSettles(s, s4, node, cond, body, end);
    }
  }

  /** The branch of a conditional with an else part, once its body, end
      and else blocks are added. */
  lemma {:induction false} WithElseSettles(s: BuildState, s6: BuildState, node: Node, cond: Value, body: BlockRef, end: BlockRef, alt: BlockRef)
    requires Inside(s) && Inside(s6) && G.IsConditional(node) && |node.children| > 2
    requires var f, n := s.currentBlock.fn, BlockCount(s.mod, s.currentBlock.fn);
      s6.currentBlock == s.currentBlock && s6.currentFunction == s.currentFunction
      && Keeps(s.mod, s6.mod, f) && BlockCount(s6.mod, f) == n + 3
      && body == BlockRef(f, n) && end == BlockRef(f, n + 1) && alt == BlockRef(f, n + 2)
    ensures var r := ConditionalArms(TerminateHere(s6, CondBr(cond, body, alt)), node, body, end, Some(alt));
      r.Ok? ==> Settles(s, r.value)
    decreases node, 0, 1
  {
    var f := s.currentBlock.fn;
    var sA := TerminateHere(s6, CondBr(cond, body, alt));
    TerminateHereQuiet(s6, CondBr(cond, body, alt));
    KeepsTrans(s.mod, s6.mod, sA.mod, f);
    ArmsFinish(sA, node, body, end, Some(alt));
    var r := ConditionalArms(sA, node, body, end, Some(alt));
    if r.Ok? {
      OpenedSettles(s, sA.mod, r.value, body.index, alt.index, end.index);
    }
  }

  /** The branch of a conditional without an else part. */
  lemma {:induction false} WithoutElseSettles(s: BuildState, s4: BuildState, node: Node, cond: Value, body: BlockRef, end: BlockRef)
    requires Inside(s) && Inside(s4) && G.IsConditional(node) && |node.children| <= 2
    requires var f, n := s.currentBlock.fn, BlockCount(s.mod, s.currentBlock.fn);
      s4.currentBlock == s.currentBlock && s4.currentFunction == s.currentFunction
      && Keeps(s.mod, s4.mod, f) && BlockCount(s4.mod, f) == n + 2
      && body == BlockRef(f, n) && end == BlockRef(f, n + 1)
    ensures var r := ConditionalArms(TerminateHere(s4, CondBr(cond, body, end)), node, body, end, None);
      r.Ok? ==> Settles(s, r.value)
    decreases node, 0, 1
  {
    var f := s.currentBlock.fn;
    var sA := TerminateHere(s4, CondBr(cond, body, end));
    TerminateHereQuiet(s4, CondBr(cond, body, end));
    KeepsTrans(s.mod, s4.mod, sA.mod, f);
    ArmsFinish(sA, node, body, end, None);
    var r := ConditionalArms(sA, node, body, end, None);
    if r.Ok? {
      OpenedSettles(s, sA.mod, r.value, body.index, body.index, end.index);
    }
  }

  /** The arms of a conditional leave the body, the else block and every
      block they add terminated. */
  lemma {:induction false} ArmsFinish(s: BuildState, node: Node, body: BlockRef, end: BlockRef, alt: Option<BlockRef>)
    requires Inside(s) && G.IsConditional(node)
    requires body.fn == end.fn == s.currentBlock.fn && ValidRef(s.mod, body) && ValidRef(s.mod, end)
    requires alt.Some? ==> |node.children| == 3 && alt.value.fn == s.currentBlock.fn && ValidRef(s.mod, alt.value)
    ensures var r := ConditionalArms(s, node, body, end, alt);
      r.Ok? ==>
        var m, f := r.value.mod, s.currentBlock.fn;
        Keeps(s.mod, m, f) && Finished(s.mod, m, f, body.index)
        && (alt.Some? ==> Term(m, f, alt.value.index))
    decreases node, 0, 0
  {
    var f := s.currentBlock.fn;
    var r1 := GenerateBlock(s, body, node.children[1]);
    if r1.Ok? {
      var s1 := r1.value;
      BlockSettles(s, body, node.children[1]);
      var s2 := FallThrough(s1, end);
      FallThroughQuiet(s1, end);
      SettlesThenFinished(s.(currentBlock := body), s1, s2.mod);
      if alt.None? {
        var s4 := FallThrough(s2, end);
        FallThroughQuiet(s2, end);
        assert ConditionalArms(s, node, body, end, alt) == Ok(s4.(currentBlock := end));
        FinishedQuiet(s.mod, s2.mod, s4.mod, f, body.index);
      } else {
        var r3 := ElseArm(s2, node.children[2], end, alt.value);
        if r3.Ok? {
          var s3 := r3.value;
          ElseSettles(s2, node.children[2], end, alt.value);
          var s4 := FallThrough(s3, end);
          FallThroughQuiet(s3, end);
          assert ConditionalArms(s, node, body, end, alt) == Ok(s4.(currentBlock := end));
          SettlesThenFinished(s2.(currentBlock := alt.value), s3, s4.mod);
          FinishedThen(s.mod, s2.mod, s4.mod, f, body.index, alt.value.index);
        }
      }
    }
  }

  lemma {:induction false} ElseSettles(s: BuildState, node: Node, end: BlockRef, alt: BlockRef)
    requires Inside(s) && (G.IsBlock(node) || G.IsConditional(node))
    requires end.fn == alt.fn == s.currentBlock.fn && ValidRef(s.mod, end) && ValidRef(s.mod, alt)
    ensures var r := ElseArm(s, node, end, alt);
      r.Ok? ==> Settles(s.(currentBlock := alt), r.value)
    decreases node, 4, 0
  {
    if node.kind == Statement {
      ConditionalSettles(s.(currentBlock := alt), node);
    } else {
      var r1 := GenerateBlock(s, alt, node);
      if r1.Ok? {
        BlockSettles(s, alt, node);
        var s2 := FallThrough(r1.value, end);
        FallThroughQuiet(r1.value, end);
        QuietSettles(r1.value, s2);
        SettlesTrans(s.(currentBlock := alt), r1.value, s2);
      }
    }
  }

  lemma {:induction false} WhileSettles(s: BuildState, node: Node)
    requires Inside(s) && node.kind == WhileStatement && G.IsStatement(node)
    ensures var r := GenerateWhileStatement(s, node);
      r.Ok? ==> Settles(s, r.value)
    decreases node, 0, 2
  {
    var f := s.currentBlock.fn;
    var k := |s.blocks|;
    var (condition, s1) := NewBlockHere(s, "while.cond." + Decimal(k));
    NewBlockHereKeeps(s, "while.cond." + Decimal(k));
    var (body, s2) := NewBlockHere(s1, "while.body." + Decimal(k));
    NewBlockHereKeeps(s1, "while.body." + Decimal(k));
    var (end, s3) := NewBlockHere(s2, "while.end." + Decimal(k));
    NewBlockHereKeeps(s2, "while.end." + Decimal(k));
    KeepsTrans(s.mod, s1.mod, s2.mod, f);
    KeepsTrans(s.mod, s2.mod, s3.mod, f);
    EnterLoopSettles(s, s3.(blocks := s3.blocks + [condition, body, end]), node, condition, body, end);
  }

  /** A while statement once its three blocks are added: the branch into
      the condition block, and the arms. */
  lemma {:induction false} EnterLoopSettles(s: BuildState, s3: BuildState, node: Node, condition: BlockRef, body: BlockRef, end: BlockRef)
    requires Inside(s) && Inside(s3) && node.kind == WhileStatement && G.IsStatement(node)
    requires var f, n := s.currentBlock.fn, BlockCount(s.mod, s.currentBlock.fn);
      s3.currentBlock == s.currentBlock && s3.currentFunction == s.currentFunction
      && Keeps(s.mod, s3.mod, f) && BlockCount(s3.mod, f) == n + 3
      && condition == BlockRef(f, n) && body == BlockRef(f, n + 1) && end == BlockRef(f, n + 2)
    ensures var r := EnterLoop(s3, node, condition, body, end);
      r.Ok? ==> Settles(s, r.value)
    decreases node, 0, 1
  {
    var f := s.currentBlock.fn;
    var s4 := TerminateHere(s3, Br(condition));
    TerminateHereQuiet(s3, Br(condition));
    KeepsTrans(s.mod, s3.mod, s4.mod, f);
    var s5 := s4.(loops := s4.loops + [LoopTrace(condition, body, end)], currentBlock := condition);
    LoopArmsFinish(s5, node, body, end);
    var r := LoopArms(s5, node, body, end);
    if r.Ok? {
      OpenedSettles(s, s4.mod, r.value, condition.index, body.index, end.index);
    }
  }

  /** The arms of a while statement leave the condition block, the body
      and every block they add terminated. */
  lemma {:induction false} LoopArmsFinish(s: BuildState, node: Node, body: BlockRef, end: BlockRef)
    requires Inside(s) && node.kind == WhileStatement && G.IsStatement(node)
    requires body.fn == end.fn == s.currentBlock.fn && ValidRef(s.mod, body) && ValidRef(s.mod, end)
    ensures var r := LoopArms(s, node, body, end);
      r.Ok? ==>
        var m, f := r.value.mod, s.currentBlock.fn;
        Keeps(s.mod, m, f) && Finished(s.mod, m, f, s.currentBlock.index) && Term(m, f, body.index)
    decreases node, 0, 0
  {
    var f := s.currentBlock.fn;
    var condition := s.currentBlock;
    var r0 := GenerateExpression(s, node.children[0]);
    if r0.Ok? {
      ExpressionQuiet(s, node.children[0]);
      var (c, s1) := r0.value;
      var s2 := TerminateHere(s1, CondBr(c, body, end));
      TerminateHereQuiet(s1, CondBr(c, body, end));
      QuietTrans(s.mod, s1.mod, s2.mod, f);
      assert Finished(s.mod, s2.mod, f, condition.index);
      var r3 := GenerateBlock(s2, body, node.children[1]);
      if r3.Ok? {
        var s3 := r3.value;
        BlockSettles(s2, body, node.children[1]);
        var sF1 := FallThrough(s3, condition);
        FallThroughQuiet(s3, condition);
        var sF2 := FallThrough(sF1, end);
        FallThroughQuiet(sF1, end);
        QuietTrans(s3.mod, sF1.mod, sF2.mod, f);
        assert LoopArms(s, node, body, end) == Ok(sF2.(currentBlock := end));
        assert Term(sF2.mod, f, s3.currentBlock.index);
        SettlesThenFinished(s2.(currentBlock := body), s3, sF2.mod);
        FinishedThen(s.mod, s2.mod, sF2.mod, f, condition.index, body.index);
      }
    }
  }

  // -----------------------------------------------------------------------
  // Functions and programs

  /** The body of a function leaves its entry block and every block it adds
      terminated. */
  lemma BodyFinishes(s: BuildState, body: Node)
    requires Inside(s) && G.IsBlock(body)
    ensures var r := FunctionBody(s, body);
      r.Ok? ==>
        var m, f := r.value.mod, s.currentBlock.fn;
        Keeps(s.mod, m, f) && Finished(s.mod, m, f, s.currentBlock.index)
  {
    var r1 := GenerateBlock(s, s.currentBlock, body);
    if r1.Ok? {
      var s1 := r1.value;
      BlockSettles(s, s.currentBlock, body);
      assert s.(currentBlock := s.currentBlock) == s;
      if CurrentTerminated(s1) {
        SettlesThenFinished(s, s1, s1.mod);
      } else {
        TerminateHereQuiet(s1, Ret(None));
        SettlesThenFinished(s, s1, TerminateHere(s1, Ret(None)).mod);
      }
    }
  }

  /** Lowering a function keeps every block of the module terminated: the
      blocks of the new function all have a terminator, the earlier
      functions are unchanged, and a `printf` it declares has no blocks. */
  lemma FunctionTerminates(s: BuildState, node: Node)
    requires G.IsFunction(node) && AllTerminated(s.mod)
    ensures var r := GenerateFunction(s, node);
      r.Ok? ==> AllTerminated(r.value.mod)
  {
    var retType := GetTypeFromName(node.children[0].name);
    var params := ParamTypes(node.children[1].children, 0, []);
    if retType.Ok? && params.Ok? {
      var e := EnterFunction(s, node.name, retType.value, params.value);
      var f := |s.mod.funcs|;
      BodyFinishes(e, node.children[2]);
      var r := FunctionBody(e, node.children[2]);
      if r.Ok? {
        var m := r.value.mod;
        assert |e.mod.funcs| == f + 1 && |e.mod.funcs[f].blocks| == 1;
        assert forall g :: 0 <= g < f ==> e.mod.funcs[g] == s.mod.funcs[g];
        forall g, i | 0 <= g < |m.funcs| && 0 <= i < |m.funcs[g].blocks|
          ensures m.funcs[g].blocks[i].term.Some?
        {
          if g == f {
            assert Term(m, f, i);
          } else {
            assert BlocksOf(m, g) == BlocksOf(e.mod, g);
          }
        }
      }
    }
  }

  lemma {:induction false} ItemsTerminate(s: BuildState, program: Node, i: nat)
    requires G.IsProgram(program) && i <= |program.children| && AllTerminated(s.mod)
    ensures var r := BuildItems(s, program, i);
      r.Ok? ==> AllTerminated(r.value.mod)
    decreases |program.children| - i
  {
    if i < |program.children| {
      var child := program.children[i];
      var r0 := if child.kind == PreprocessorDirective then GeneratePreprocessorDirective(s, child)
                else if child.kind == FunctionDeclaration then GenerateFunction(s, child)
                else Ok(s);
      if child.kind == FunctionDeclaration {
        FunctionTerminates(s, child);
      }
      if r0.Ok? {
        ItemsTerminate(r0.value, program, i + 1);
      }
    }
  }

  /** The module a successful build produces has a terminator at the end
      of every block: the IR verifier's first requirement. */
  lemma BuildTerminates(program: Node)
    requires G.IsProgram(program)
    ensures var r := Build(NewBuilder(), program);
      r.Ok? ==> AllTerminated(r.value.mod)
  {
    ItemsTerminate(NewBuilder(), program, 0);
  }
}
