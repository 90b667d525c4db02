/** The `Builder` of src/builder/main.go as a class with the Go struct's
    fields. Every `generate*` method updates those fields step by step as
    the Go code does, and is proved to end in the state, with the value or
    the error, that the function of module Lowering of the same name
    defines. */
module Builder {
  import opened Wrappers
  import opened AstNode
  import opened Ir
  import opened Pratt
  import G = Grammar
  import L = Lowering

  /** A lowering step's outcome `r`, with the builder in state `st` after
      it, is what `spec` says: the same state, or the same error. */
  ghost predicate Follows(r: Result<(), L.BuildError>, spec: L.Step, st: L.BuildState)
  {
    if spec.Ok? then r.Ok? && st == spec.value else r == Err(spec.error)
  }

  /** The same for a step that produces a value. */
  ghost predicate Yields(r: Result<Value, L.BuildError>, spec: L.Lowered, st: L.BuildState)
  {
    if spec.Ok? then r == Ok(spec.value.0) && st == spec.value.1 else r == Err(spec.error)
  }

  /** The loop over the parameters in `generateFunction`: their types, in
      order. */
  method paramTypes(paramNodes: seq<Node>) returns (r: Result<seq<Param>, L.BuildError>)
    requires forall j :: 0 <= j < |paramNodes| ==> G.IsParameter(paramNodes[j])
    ensures r == L.ParamTypes(paramNodes, 0, [])
  {
    var params: seq<Param> := [];
    var i := 0;
    while i < |paramNodes|
      invariant i <= |paramNodes|
      invariant L.ParamTypes(paramNodes, 0, []) == L.ParamTypes(paramNodes, i, params)
    {
      var paramType :- L.GetTypeFromName(paramNodes[i].children[0].name);
      params := params + [Param(paramNodes[i].name, paramType)];
      i := i + 1;
    }
    return Ok(params);
  }

  /** The loop over the parameters that fills the locals in
      `generateFunction`. */
  method paramLocals(params: seq<Param>) returns (locals: map<string, L.Local>)
    ensures locals == L.ParamLocals(params)
  {
    locals := map[];
    var i := 0;
    while i < |params|
      invariant i <= |params| && locals == L.ParamLocals(params[..i])
    {
      assert params[..i + 1][..i] == params[..i];
      locals := locals[params[i].name := L.ParamLocal(params[i].name, params[i].ty)];
      i := i + 1;
    }
    assert params[..i] == params;
  }

  /** The loop that builds the format string in `generateFunctionCall`. */
  method formatString(args: seq<Value>) returns (r: Result<string, L.BuildError>)
    ensures r == L.FormatString(args)
  {
    var formatStr := "";
    var i := 0;
    while i < |args|
      invariant i <= |args| && L.Conversions(args, 0, "") == L.Conversions(args, i, formatStr)
    {
      var ty := TypeOf(args[i]);
      if ty == I32 {
        formatStr := formatStr + "%d";
      } else if ty == Double {
        formatStr := formatStr + "%f";
      } else {
        return Err(L.UnsupportedPrintfArgument(ty));
      }
      i := i + 1;
    }
    return Ok(formatStr + "\n\0");
  }

  class Builder {
    const ast: Node
    var mod: Module
    var functions: seq<nat>
    var currentFunction: Option<nat>
    var blocks: seq<BlockRef>
    var currentBlock: BlockRef
    var locals: map<string, L.Local>
    var globals: map<string, Value>
    var loops: seq<L.LoopTrace>

    /** The fields as one value. */
    function State(): L.BuildState
      reads this
    {
      L.BuildState(mod, functions, currentFunction, blocks, currentBlock, locals, globals, loops)
    }

    /** `NewBuilder`: an empty module and empty environments. */
    constructor (ast: Node)
      ensures this.ast == ast && State() == L.NewBuilder()
    {
      this.ast := ast;
      mod := NewModule();
      functions := [];
      currentFunction := None;
      blocks := [];
      currentBlock := BlockRef(0, 0);
      locals := map[];
      globals := map[];
      loops := [];
    }

    /** `SetTarget`. */
    method SetTarget(target: int) returns (r: Result<(), L.BuildError>)
      modifies this
      ensures Follows(r, L.SetTarget(old(State()), target), State())
    {
      if target == 0 {
        mod := mod.(target := "x86_64-pc-windows-msvc");
      } else if target == 1 {
        mod := mod.(target := "x86_64-pc-linux-gnu");
      } else {
        return Err(L.UnsupportedTarget(target));
      }
      return Ok(());
    }

    /** `Build`: each directive and each function of the program in turn;
        other items are skipped. */
    method Build() returns (r: Result<Module, L.BuildError>)
      requires G.IsProgram(ast)
      modifies this
      ensures match L.Build(old(State()), ast)
        case Ok(t) => r == Ok(t.mod) && State() == t
        case Err(e) => r == Err(e)
    {
      var i := 0;
      ghost var spec := L.BuildItems(State(), ast, 0);
      while i < |ast.children|
        invariant i <= |ast.children| && L.BuildItems(State(), ast, i) == spec
      {
        var child := ast.children[i];
        if child.kind == PreprocessorDirective {
          var u :- generatePreprocessorDirective(child);
        } else if child.kind == FunctionDeclaration {
          var u :- generateFunction(child);
        }
        i := i + 1;
      }
      return Ok(mod);
    }

    /** `generatePreprocessorDirective`. */
    method generatePreprocessorDirective(node: Node) returns (r: Result<(), L.BuildError>)
      modifies this
      ensures Follows(r, L.GeneratePreprocessorDirective(old(State()), node), State())
    {
      if node.name == "#define" && |node.children| == 2 {
        var name := node.children[0].name;
        if node.children[1].kind == Literal {
          var value := L.ScanInt(node.children[1].name);
          globals := globals[name := IntConst(value)];
          return Ok(());
        }
        return Err(L.UnsupportedValueType(node.children[1].kind));
      }
      return Err(L.UnsupportedDirective(node.name));
    }

    /** `generateFunction`. */
    method generateFunction(node: Node) returns (r: Result<(), L.BuildError>)
      requires G.IsFunction(node)
      modifies this
      ensures Follows(r, L.GenerateFunction(old(State()), node), State())
    {
      var retType :- L.GetTypeFromName(node.children[0].name);
      var params :- paramTypes(node.children[1].children);
      var entry := enterFunction(node.name, retType, params);
      r := functionBody(entry, node.children[2]);
    }

    /** The start of `generateFunction` once the types are known: the new
        function, its parameters as the locals, and its `entry` block. */
    method enterFunction(name: string, retType: Type, params: seq<Param>) returns (entry: BlockRef)
      modifies this
      ensures State() == L.EnterFunction(old(State()), name, retType, params) && entry == currentBlock
    {
      var (m, fn) := AddFunc(mod, name, retType, params);
      mod := m;
      functions := functions + [fn];
      currentFunction := Some(fn);
      locals := paramLocals(params);
      var (m', block) := AddBlock(mod, fn, "entry");
      mod := m';
      blocks := blocks + [block];
      currentBlock := block;
      entry := block;
    }

    /** The end of `generateFunction`: the body from the entry block, and a
        bare return if the last block has no terminator. */
    method functionBody(entry: BlockRef, body: Node) returns (r: Result<(), L.BuildError>)
      requires L.Inside(State()) && entry == currentBlock && G.IsBlock(body)
      modifies this
      ensures Follows(r, L.FunctionBody(old(State()), body), State())
    {
      var u :- generateBlock(entry, body);
      if !Terminated(mod, currentBlock) {
        mod := SetTerm(mod, currentBlock, Ret(None));
      }
      currentFunction := None;
      return Ok(());
    }

    // ---------------------------------------------------------------------
    // The block under construction

    /** Appends an instruction to the current block. */
    method emit(i: Instr) returns (v: Value)
      requires L.Inside(State())
      modifies this`mod
      ensures (v, State()) == L.EmitHere(old(State()), i)
    {
      var emitted := Emit(mod, currentBlock, i);
      mod, v := emitted.0, emitted.1;
    }

    /** Sets the current block's terminator. */
    method terminate(t: Terminator)
      requires L.Inside(State())
      modifies this`mod
      ensures State() == L.TerminateHere(old(State()), t)
    {
      mod := SetTerm(mod, currentBlock, t);
    }

    /** `if b.currentBlock.Term == nil { b.currentBlock.NewBr(target) }`. */
    method fallThrough(target: BlockRef)
      requires L.Inside(State())
      modifies this`mod
      ensures State() == L.FallThrough(old(State()), target)
    {
      if !Terminated(mod, currentBlock) {
        terminate(Br(target));
      }
    }

    /** `b.currentFunction.NewBlock(name)`. */
    method newBlock(name: string) returns (b: BlockRef)
      requires L.Inside(State())
      modifies this`mod
      ensures (b, State()) == L.NewBlockHere(old(State()), name)
    {
      var added := AddBlock(mod, currentBlock.fn, name);
      mod, b := added.0, added.1;
    }

    // ---------------------------------------------------------------------
    // Expressions

    /** `generateExpression`. */
    method generateExpression(node: Node) returns (r: Result<Value, L.BuildError>)
      requires L.Inside(State()) && (IsExpression(node) || G.IsInitializer(node))
      modifies this
      ensures Yields(r, L.GenerateExpression(old(State()), node), State())
      decreases node, 2, 0
    {
      match node.kind
      case Literal => r := generateLiteral(node);
      case Identifier => r := generateIdentifier(node);
      case BinaryExpression => r := generateBinaryExpression(node);
      case FunctionCall => r := generateFunctionCall(node);
      case _ => r := Err(L.UnsupportedExpression(node.kind));
    }

    /** `generateLiteral`. */
    method generateLiteral(node: Node) returns (r: Result<Value, L.BuildError>)
      ensures r == L.GenerateLiteral(node)
    {
      var n := L.Atoi(node.name);
      if n.Some? {
        return Ok(IntConst(n.value));
      } else if L.ParsesAsFloat(node.name) {
        return Ok(FloatConst(node.name));
      }
      return Err(L.UnsupportedLiteral(node.name));
    }

    /** `generateIdentifier`. */
    method generateIdentifier(node: Node) returns (r: Result<Value, L.BuildError>)
      requires L.Inside(State())
      modifies this
      ensures Yields(r, L.GenerateIdentifier(old(State()), node), State())
    {
      if node.name in locals {
        match locals[node.name]
        case ParamLocal(name, ty) =>
          return Ok(ParamValue(name, ty));
        case SlotLocal(addr, elem) =>
          var v := emit(Load(elem, addr));
          return Ok(v);
      }
      if node.name in globals {
        return Ok(globals[node.name]);
      }
      return Err(L.UnknownIdentifier(node.name));
    }

    /** `generateBinaryExpression`. */
    method generateBinaryExpression(node: Node) returns (r: Result<Value, L.BuildError>)
      requires L.Inside(State()) && node.kind == BinaryExpression && IsExpression(node)
      modifies this
      ensures Yields(r, L.GenerateBinaryExpression(old(State()), node), State())
      decreases node, 1, 0
    {
      var left :- generateExpression(node.children[0]);
      var right :- generateExpression(node.children[1]);
      var lType, rType := TypeOf(left), TypeOf(right);
      if lType != rType {
        return Err(L.TypesDiffer(lType, rType));
      }
      if lType != I32 && lType != Double {
        return Err(L.UnsupportedOperandType(lType));
      }
      match L.BinaryInstr(node.name, lType, left, right)
      case Some(i) =>
        var v := emit(i);
        return Ok(v);
      case None =>
        return Err(L.UnsupportedOperator(node.name));
    }

    /** `generateFunctionCall`: the search of the module, the lazy `printf`
        declaration, the arguments, and the format string. */
    method generateFunctionCall(node: Node) returns (r: Result<Value, L.BuildError>)
      requires L.Inside(State()) && forall i :: 0 <= i < |node.children| ==> IsExpression(node.children[i])
      modifies this
      ensures Yields(r, L.GenerateFunctionCall(old(State()), node), State())
      decreases node, 1, 0
    {
      var fn := findFunc(node.name);
      if fn.None? {
        if node.name == "printf" {
          var (m, f) := AddFunc(mod, "printf", Void, [Param("format", Ptr(I8))]);
          mod := SetVariadic(m, f);
          fn := Some(f);
        } else {
          return Err(L.FunctionNotFound(node.name));
        }
      }
      assert L.Callee(old(State()), node.name) == Ok((fn.value, State()));
      var args :- generateArguments(node);
      if node.name == "printf" {
        var formatStr :- formatString(args);
        var (m, global) := AddGlobal(mod, formatStr);
        mod := m;
        args := [global] + args;
      }
      var v := emit(Call(fn.value, mod.funcs[fn.value].ret, args));
      return Ok(v);
    }

    /** The search of the module's functions in `generateFunctionCall`. */
    method findFunc(name: string) returns (fn: Option<nat>)
      ensures fn == L.FindFunc(mod.funcs, name)
    {
      var i := 0;
      while i < |mod.funcs|
        invariant i <= |mod.funcs| && forall j :: 0 <= j < i ==> mod.funcs[j].name != name
      {
        if mod.funcs[i].name == name {
          return Some(i);
        }
        i := i + 1;
      }
      return None;
    }

    /** The loop over the arguments in `generateFunctionCall`. */
    method generateArguments(node: Node) returns (r: Result<seq<Value>, L.BuildError>)
      requires L.Inside(State()) && forall i :: 0 <= i < |node.children| ==> IsExpression(node.children[i])
      modifies this
      ensures var spec := L.GenerateArguments(old(State()), node, 0, []);
        if spec.Ok? then r == Ok(spec.value.0) && State() == spec.value.1 else r == Err(spec.error)
      decreases node, 0, |node.children|
    {
      var args: seq<Value> := [];
      var i := 0;
      ghost var spec := L.GenerateArguments(State(), node, 0, []);
      while i < |node.children|
        invariant i <= |node.children| && L.Inside(State())
        invariant L.GenerateArguments(State(), node, i, args) == spec
      {
        var arg :- generateExpression(node.children[i]);
        args := args + [arg];
        i := i + 1;
      }
      return Ok(args);
    }

    // ---------------------------------------------------------------------
    // Statements

    /** `generateBlock`: `block` becomes the current block and the items of
        the block are lowered in order. */
    method generateBlock(block: BlockRef, node: Node) returns (r: Result<(), L.BuildError>)
      requires L.Inside(State()) && block.fn == currentBlock.fn && ValidRef(mod, block) && G.IsBlock(node)
      modifies this
      ensures Follows(r, L.GenerateBlock(old(State()), block, node), State())
      decreases node, 3, 0
    {
      currentBlock := block;
      var i := 0;
      ghost var spec := L.GenerateStatements(State(), node, 0);
      while i < |node.children|
        invariant i <= |node.children| && L.Inside(State())
        invariant L.GenerateStatements(State(), node, i) == spec
      {
        var u :- generateBlockItem(node.children[i]);
        i := i + 1;
      }
      return Ok(());
    }

    /** The `switch` in the loop of `generateBlock`: one item, by its kind
        and, for Statement nodes, by its name. */
    method generateBlockItem(node: Node) returns (r: Result<(), L.BuildError>)
      requires L.Inside(State()) && G.IsStatement(node)
      modifies this
      ensures Follows(r, L.GenerateStatement(old(State()), node), State())
      decreases node, 1, 0
    {
      match node.kind
      case ReturnStatement => r := generateReturn(node);
      case VariableDeclaration => r := generateVariableDeclaration(node);
      case FunctionCall =>
        var v :- generateFunctionCall(node);
        r := Ok(());
      case Statement =>
        if node.name == "if" {
          r := generateConditional(node);
        } else if node.name == "continue" {
          r := generateBreakContinue(true);
        } else if node.name == "break" {
          r := generateBreakContinue(false);
        } else {
          r := Err(L.UnsupportedStatement(node.name));
        }
      case Assignment => r := generateAssignment(node);
      case WhileStatement => r := generateWhileStatement(node);
      case _ => r := Err(L.UnsupportedBlockItem(node.kind));
    }

    /** `generateReturn`. */
    method generateReturn(node: Node) returns (r: Result<(), L.BuildError>)
      requires L.Inside(State()) && forall i :: 0 <= i < |node.children| ==> IsExpression(node.children[i])
      modifies this
      ensures Follows(r, L.GenerateReturn(old(State()), node), State())
      decreases node, 0, 0
    {
      if |node.children| == 0 {
        terminate(Ret(None));
        return Ok(());
      }
      var v :- generateExpression(node.children[0]);
      terminate(Ret(Some(v)));
      return Ok(());
    }

    /** `generateVariableDeclaration`. */
    method generateVariableDeclaration(node: Node) returns (r: Result<(), L.BuildError>)
      requires L.Inside(State()) && node.kind == VariableDeclaration && G.IsStatement(node)
      modifies this
      ensures Follows(r, L.GenerateVariableDeclaration(old(State()), node), State())
      decreases node, 0, 0
    {
      var ty :- L.GetTypeFromName(node.children[0].name);
      var alloca := emit(Alloca(node.name, ty));
      locals := locals[node.name := L.SlotLocal(alloca, ty)];
      if |node.children| > 1 {
        var v :- generateExpression(node.children[1]);
        var u := emit(Store(v, alloca));
      }
      return Ok(());
    }

    /** `generateAssignment`. */
    method generateAssignment(node: Node) returns (r: Result<(), L.BuildError>)
      requires L.Inside(State()) && node.kind == NodeKind.Assignment && G.IsStatement(node)
      modifies this
      ensures Follows(r, L.GenerateAssignment(old(State()), node), State())
      decreases node, 0, 0
    {
      var name := node.name;
      var operator := node.children[0].name;
      var rightExpr :- generateExpression(node.children[1]);
      if name !in locals {
        return Err(L.UnknownIdentifier(name));
      }
      var alloca, elem := assignmentSlot(locals[name]);
      var loadInst := emit(Load(elem, alloca));
      var result :- assignedValue(operator, elem, loadInst, rightExpr);
      var stored := emit(Store(result, alloca));
      locals := locals[name := L.SlotLocal(alloca, elem)];
      return Ok(());
    }

    /** The slot `generateAssignment` stores into: the name's slot, or for a
        parameter a fresh slot holding the parameter's value. */
    method assignmentSlot(local: L.Local) returns (alloca: Value, elem: Type)
      requires L.Inside(State())
      modifies this`mod
      ensures (alloca, elem, State()) == L.AssignmentSlot(old(State()), local)
    {
      match local {
        case SlotLocal(addr, ty) =>
          alloca, elem := addr, ty;
        case ParamLocal(param, ty) =>
          alloca := emit(Alloca("", ty));
          var stored := emit(Store(ParamValue(param, ty), alloca));
          elem := ty;
      }
    }

    /** The `switch` on the operator in `generateAssignment`. */
    method assignedValue(operator: string, elem: Type, loadInst: Value, rightExpr: Value)
      returns (r: Result<Value, L.BuildError>)
      requires L.Inside(State())
      modifies this`mod
      ensures Yields(r, L.AssignedValue(old(State()), operator, elem, loadInst, rightExpr), State())
    {
      if operator == "=" {
        return Ok(rightExpr);
      }
      match L.CompoundOp(operator) {
        case None =>
          return Err(L.UnsupportedAssignmentOperator(operator));
        case Some(op) =>
          if elem != I32 && elem != Double {
            return Err(L.MissingValue(operator));
          }
          var v := emit(Arith(op, elem, loadInst, rightExpr));
          return Ok(v);
      }
    }

    /** `generateConditional`, up to the branch on the condition; the rest
        is `conditionalArms`. */
    method generateConditional(node: Node) returns (r: Result<(), L.BuildError>)
      requires L.Inside(State()) && G.IsConditional(node)
      modifies this
      ensures Follows(r, L.GenerateConditional(old(State()), node), State())
      decreases node, 0, 1
    {
      var condition :- generateExpression(node.children[0]);
      ghost var s1 := State();
      var k := |blocks|;
      var body := newBlock("if.body." + L.Decimal(k));
      var end := newBlock("if.end." + L.Decimal(k));
      blocks := blocks + [body, end];
      ghost var s4 := State();
      assert L.ConditionalBranch(s1, node, condition) == L.ConditionalJump(s4, node, condition, body, end);
      if |node.children| > 2 {
        var prefix := if node.children[2].kind == Statement then "if.elseif." else "if.else.";
        var elseBlock := newBlock(prefix + L.Decimal(|blocks|));
        blocks := blocks + [elseBlock];
        terminate(CondBr(condition, body, elseBlock));
        r := conditionalArms(node, body, end, Some(elseBlock));
      } else {
        terminate(CondBr(condition, body, end));
        r := conditionalArms(node, body, end, None);
      }
    }

    /** The rest of `generateConditional`: the body, the else part, the
        branches to `end`, and `end` as the current block. */
    method conditionalArms(node: Node, body: BlockRef, end: BlockRef, elseBlock: Option<BlockRef>)
      returns (r: Result<(), L.BuildError>)
      requires L.Inside(State()) && G.IsConditional(node)
      requires body.fn == end.fn == currentBlock.fn && ValidRef(mod, body) && ValidRef(mod, end)
      requires elseBlock.Some? ==> |node.children| == 3 && elseBlock.value.fn == currentBlock.fn && ValidRef(mod, elseBlock.value)
      modifies this
      ensures Follows(r, L.ConditionalArms(old(State()), node, body, end, elseBlock), State())
      decreases node, 0, 0
    {
      ghost var s := State();
      var u :- generateBlock(body, node.children[1]);
      L.StillValid(s, State(), end);
      fallThrough(end);
      if elseBlock.Some? {
        L.StillValid(s, State(), elseBlock.value);
        var w :- elseArm(node.children[2], end, elseBlock.value);
      }
      L.StillValid(s, State(), end);
      fallThrough(end);
      currentBlock := end;
      return Ok(());
    }

    /** The else part of `generateConditional`: a further conditional in
        `elseBlock`, or a block there that branches to `end`. */
    method elseArm(node: Node, end: BlockRef, elseBlock: BlockRef) returns (r: Result<(), L.BuildError>)
      requires L.Inside(State()) && (G.IsBlock(node) || G.IsConditional(node))
      requires end.fn == elseBlock.fn == currentBlock.fn && ValidRef(mod, end) && ValidRef(mod, elseBlock)
      modifies this
      ensures Follows(r, L.ElseArm(old(State()), node, end, elseBlock), State())
      decreases node, 4, 0
    {
      if node.kind == Statement {
        currentBlock := elseBlock;
        r := generateConditional(node);
      } else {
        ghost var s := State();
        var u :- generateBlock(elseBlock, node);
        L.StillValid(s, State(), end);
        fallThrough(end);
        return Ok(());
      }
    }

    /** `generateWhileStatement`, up to the loop trace; the rest is
        `loopArms`. */
    method generateWhileStatement(node: Node) returns (r: Result<(), L.BuildError>)
      requires L.Inside(State()) && node.kind == WhileStatement && G.IsStatement(node)
      modifies this
      ensures Follows(r, L.GenerateWhileStatement(old(State()), node), State())
      decreases node, 0, 2
    {
      var k := |blocks|;
      var condition := newBlock("while.cond." + L.Decimal(k));
      var body := newBlock("while.body." + L.Decimal(k));
      var end := newBlock("while.end." + L.Decimal(k));
      blocks := blocks + [condition, body, end];
      r := enterLoop(node, condition, body, end);
    }

    /** The branch into `condition`, the loop trace pushed on `loops`, and
        the rest of the loop from `condition` on. */
    method enterLoop(node: Node, condition: BlockRef, body: BlockRef, end: BlockRef) returns (r: Result<(), L.BuildError>)
      requires L.Inside(State()) && node.kind == WhileStatement && G.IsStatement(node)
      requires condition.fn == body.fn == end.fn == currentBlock.fn
      requires ValidRef(mod, condition) && ValidRef(mod, body) && ValidRef(mod, end)
      modifies this
      ensures Follows(r, L.EnterLoop(old(State()), node, condition, body, end), State())
      decreases node, 0, 1
    {
      terminate(Br(condition));
      loops := loops + [L.LoopTrace(condition, body, end)];
      currentBlock := condition;
      r := loopArms(node, body, end);
    }

    /** The rest of `generateWhileStatement`: the condition and the branch
        out of the loop, the body and the branch back, and `end` as the
        current block. */
    method loopArms(node: Node, body: BlockRef, end: BlockRef) returns (r: Result<(), L.BuildError>)
      requires L.Inside(State()) && node.kind == WhileStatement && G.IsStatement(node)
      requires body.fn == end.fn == currentBlock.fn && ValidRef(mod, body) && ValidRef(mod, end)
      modifies this
      ensures Follows(r, L.LoopArms(old(State()), node, body, end), State())
      decreases node, 0, 0
    {
      ghost var s := State();
      var condition := currentBlock;
      var conditionExpr :- generateExpression(node.children[0]);
      terminate(CondBr(conditionExpr, body, end));
      L.StillValid(s, State(), body);
      var u :- generateBlock(body, node.children[1]);
      L.StillValid(s, State(), end);
      L.StillValid(s, State(), condition);
      fallThrough(condition);
      fallThrough(end);
      currentBlock := end;
      return Ok(());
    }

    /** `generateBreakContinue`. */
    method generateBreakContinue(isContinue: bool) returns (r: Result<(), L.BuildError>)
      requires L.Inside(State())
      modifies this
      ensures Follows(r, L.GenerateBreakContinue(old(State()), isContinue), State())
    {
      if |loops| == 0 {
        return Err(L.OutsideLoop);
      }
      var target;
      if isContinue {
        target := loops[|loops| - 1].condition;
      } else {
        target := loops[|loops| - 1].end;
      }
      terminate(Br(target));
      return Ok(());
    }
  }
}
