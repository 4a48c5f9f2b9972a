/**
  * The MIR shapes shared by the encoder, the type checker, the C emitter and the
  * interpreter: registers, immediate loads, binary operators, instructions and blocks.
  * The function-related instructions (`CreateFunc`, `LoadFunction`, `CallFunction`,
  * `PreOp`, argument pushes and pops) are not part of this model.
  */
module CoreMir {

  /** `Reg(n)`: register `n` of the frame. */
  type Reg = nat

  const Pow8: nat := 0x100
  const Pow16: nat := 0x1_0000
  const Pow32: nat := 0x1_0000_0000
  const Pow64: nat := 0x1_0000_0000_0000_0000
  const Pow128: nat := 0x1_0000_0000_0000_0000_0000_0000_0000_0000

  /** An immediate operand: a boolean or an unsigned integer of one of five widths. */
  datatype Load =
    | Bool(b: bool)
    | U8(v: nat)
    | U16(v: nat)
    | U32(v: nat)
    | U64(v: nat)
    | U128(v: nat)

  /** The value of an immediate fits the width its tag names. */
  predicate LoadFits(l: Load)
  {
    match l
    case Bool(_) => true
    case U8(v) => v < Pow8
    case U16(v) => v < Pow16
    case U32(v) => v < Pow32
    case U64(v) => v < Pow64
    case U128(v) => v < Pow128
  }

  datatype BinOpType =
    | Add | Sub | Mul | Div
    | Equal | NotEqual
    | GreaterThanOrEqual | LessThanOrEqual | GreaterThan | LessThan

  predicate IsArith(op: BinOpType)
  {
    op == Add || op == Sub || op == Mul || op == Div
  }

  predicate IsOrdering(op: BinOpType)
  {
    op == GreaterThanOrEqual || op == LessThanOrEqual || op == GreaterThan || op == LessThan
  }

  datatype Mir =
    | Jump(target: nat)
    | BranchTrue(cond: Reg, target: nat)
    | Print(reg: Reg)
    | LoadImm(dest: Reg, imm: Load)
    | LoadReg(to: Reg, from: Reg)
    | BinOp(op: BinOpType, out: Reg, left: Reg, right: Reg)

  /** The registers an instruction names. */
  function RegsOf(m: Mir): set<Reg>
  {
    match m
    case Jump(_) => {}
    case BranchTrue(c, _) => {c}
    case Print(r) => {r}
    case LoadImm(to, _) => {to}
    case LoadReg(to, from) => {to, from}
    case BinOp(_, out, l, r) => {out, l, r}
  }

  /** The blocks an instruction transfers to. */
  function TargetsOf(m: Mir): set<nat>
  {
    match m
    case Jump(t) => {t}
    case BranchTrue(_, t) => {t}
    case _ => {}
  }

  /** A basic block with the `BlockMeta` the encoder keeps: its predecessors and successors. */
  datatype Block = Block(instructions: seq<Mir>, parents: set<nat>, children: set<nat>)

  /** A block with no instructions and no edges. */
  function EmptyBlock(): Block
  {
    Block([], {}, {})
  }
}
