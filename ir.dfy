/** The part of the llir/llvm IR library that src/builder/main.go drives,
    as plain values: a module holds functions and global character arrays,
    a function holds blocks, a block has a name, a sequence of
    instructions and at most one terminator, and every value carries a
    type. Library objects that the Go code holds by pointer are addressed
    here by position: a block by its function and its place in that
    function, an instruction result by its block and its place there. */
module Ir {
  import opened Wrappers

  /** The types the lowering meets: `types.I1`, `types.I8`, `types.I32`,
      `types.Double`, `types.Void`, arrays and pointers. */
  datatype Type = I1 | I8 | I32 | Double | Void | Array(len: nat, elem: Type) | Ptr(elem: Type)

  /** A block of a function of the module. */
  datatype BlockRef = BlockRef(fn: nat, index: nat)

  /** The result of the instruction at position `index` of a block. */
  datatype InstrRef = InstrRef(block: BlockRef, index: nat)

  /** Values: an i32 constant, a double constant (kept as the text it was
      read from), a function parameter, an instruction result, and the
      address of a global character array of `size` bytes. */
  datatype Value =
    | IntConst(n: int)
    | FloatConst(text: string)
    | ParamValue(name: string, ty: Type)
    | Reg(at: InstrRef, ty: Type)
    | GlobalRef(index: nat, size: nat)

  function TypeOf(v: Value): Type
  {
    match v
    case IntConst(_) => I32
    case FloatConst(_) => Double
    case ParamValue(_, ty) => ty
    case Reg(_, ty) => ty
    case GlobalRef(_, size) => Ptr(Array(size, I8))
  }

  /** Arithmetic: on i32 `add`, `sub`, `mul`, `sdiv`, `srem`; on double
      `fadd`, `fsub`, `fmul`, `fdiv`, `frem`. */
  datatype ArithOp = Add | Sub | Mul | Div | Rem

  /** Comparisons: on i32 the signed `icmp` predicates `eq`, `ne`, `slt`,
      `sle`, `sgt`, `sge`; on double the ordered `fcmp` predicates `oeq`,
      `one`, `olt`, `ole`, `ogt`, `oge`. */
  datatype Predicate = Eq | Ne | Lt | Le | Gt | Ge

  /** Instructions. `ty` of Arith and Compare is the operand type, which
      selects the integer or the floating-point form. A call names its
      callee by its position in the module. */
  datatype Instr =
    | Alloca(name: string, elem: Type)
    | Load(elem: Type, slot: Value)
    | Store(value: Value, slot: Value)
    | Arith(op: ArithOp, ty: Type, left: Value, right: Value)
    | Compare(pred: Predicate, ty: Type, left: Value, right: Value)
    | Call(callee: nat, ret: Type, args: seq<Value>)

  /** The type of the value an instruction produces. */
  function ResultType(i: Instr): Type
  {
    match i
    case Alloca(_, elem) => Ptr(elem)
    case Load(elem, _) => elem
    case Store(_, _) => Void
    case Arith(_, ty, _, _) => ty
    case Compare(_, _, _, _) => I1
    case Call(_, ret, _) => ret
  }

  datatype Terminator =
    | Ret(value: Option<Value>)
    | Br(target: BlockRef)
    | CondBr(cond: Value, onTrue: BlockRef, onFalse: BlockRef)

  datatype Block = Block(name: string, instrs: seq<Instr>, term: Option<Terminator>)

  datatype Param = Param(name: string, ty: Type)

  datatype Func = Func(name: string, ret: Type, params: seq<Param>, variadic: bool, blocks: seq<Block>)

  datatype Module = Module(target: string, funcs: seq<Func>, globals: seq<string>)

  /** `ir.NewModule`. */
  function NewModule(): Module
  {
    Module("", [], [])
  }

  predicate ValidRef(m: Module, r: BlockRef)
  {
    r.fn < |m.funcs| && r.index < |m.funcs[r.fn].blocks|
  }

  function BlockCount(m: Module, f: nat): nat
  {
    if f < |m.funcs| then |m.funcs[f].blocks| else 0
  }

  function BlockAt(m: Module, r: BlockRef): Block
    requires ValidRef(m, r)
  {
    m.funcs[r.fn].blocks[r.index]
  }

  predicate Terminated(m: Module, r: BlockRef)
    requires ValidRef(m, r)
  {
    BlockAt(m, r).term.Some?
  }

  /** `module.NewFunc`: a function without blocks, placed after the others. */
  function AddFunc(m: Module, name: string, ret: Type, params: seq<Param>): (r: (Module, nat))
    ensures r.1 == |m.funcs| && r.0.funcs == m.funcs + [Func(name, ret, params, false, [])]
    ensures r.0.target == m.target && r.0.globals == m.globals
  {
    (m.(funcs := m.funcs + [Func(name, ret, params, false, [])]), |m.funcs|)
  }

  /** `fn.Sig.Variadic = true`. */
  function SetVariadic(m: Module, f: nat): (r: Module)
    requires f < |m.funcs|
    ensures |r.funcs| == |m.funcs| && r.funcs[f] == m.funcs[f].(variadic := true)
    ensures forall g :: 0 <= g < |m.funcs| && g != f ==> r.funcs[g] == m.funcs[g]
  {
    m.(funcs := m.funcs[f := m.funcs[f].(variadic := true)])
  }

  /** `fn.NewBlock(name)`: an empty, unterminated block after the others. */
  function AddBlock(m: Module, f: nat, name: string): (r: (Module, BlockRef))
    requires f < |m.funcs|
    ensures r.1 == BlockRef(f, |m.funcs[f].blocks|)
    ensures |r.0.funcs| == |m.funcs| && ValidRef(r.0, r.1)
    ensures r.0.funcs[f].blocks == m.funcs[f].blocks + [Block(name, [], None)]
  {
    var fn := m.funcs[f];
    (m.(funcs := m.funcs[f := fn.(blocks := fn.blocks + [Block(name, [], None)])]), BlockRef(f, |fn.blocks|))
  }

  /** Replaces one block. */
  function UpdateBlock(m: Module, r: BlockRef, b: Block): (m': Module)
    requires ValidRef(m, r)
    ensures |m'.funcs| == |m.funcs| && BlockCount(m', r.fn) == BlockCount(m, r.fn)
    ensures ValidRef(m', r) && BlockAt(m', r) == b
  {
    var fn := m.funcs[r.fn];
    m.(funcs := m.funcs[r.fn := fn.(blocks := fn.blocks[r.index := b])])
  }

  /** `block.NewX(...)`: the instruction is appended to the block; its
      result is addressed by its position. */
  function Emit(m: Module, r: BlockRef, i: Instr): (res: (Module, Value))
    requires ValidRef(m, r)
    ensures |res.0.funcs| == |m.funcs| && BlockCount(res.0, r.fn) == BlockCount(m, r.fn)
    ensures ValidRef(res.0, r) && BlockAt(res.0, r) == BlockAt(m, r).(instrs := BlockAt(m, r).instrs + [i])
    ensures res.1 == Reg(InstrRef(r, |BlockAt(m, r).instrs|), ResultType(i))
  {
    var b := BlockAt(m, r);
    (UpdateBlock(m, r, b.(instrs := b.instrs + [i])), Reg(InstrRef(r, |b.instrs|), ResultType(i)))
  }

  /** `block.NewRet`, `NewBr`, `NewCondBr`: the block's terminator becomes
      `t`; one set earlier is replaced. */
  function SetTerm(m: Module, r: BlockRef, t: Terminator): (m': Module)
    requires ValidRef(m, r)
    ensures |m'.funcs| == |m.funcs| && BlockCount(m', r.fn) == BlockCount(m, r.fn)
    ensures ValidRef(m', r) && BlockAt(m', r) == BlockAt(m, r).(term := Some(t))
  {
    UpdateBlock(m, r, BlockAt(m, r).(term := Some(t)))
  }

  /** `module.NewGlobalDef("", constant.NewCharArray(bytes))`: an unnamed
      global holding `text`, used through its address. */
  function AddGlobal(m: Module, text: string): (r: (Module, Value))
    ensures r.0 == m.(globals := m.globals + [text])
    ensures r.1 == GlobalRef(|m.globals|, |text|) && TypeOf(r.1) == Ptr(Array(|text|, I8))
  {
    (m.(globals := m.globals + [text]), GlobalRef(|m.globals|, |text|))
  }

  /** Every block other than `r` is the same in `m'` as in `m`. */
  ghost predicate OnlyChanged(m: Module, m': Module, r: BlockRef)
  {
    forall q :: ValidRef(m, q) && q != r ==> ValidRef(m', q) && BlockAt(m', q) == BlockAt(m, q)
  }

  lemma UpdateBlockFrame(m: Module, r: BlockRef, b: Block)
    requires ValidRef(m, r)
    ensures OnlyChanged(m, UpdateBlock(m, r, b), r)
  {
  }
}
