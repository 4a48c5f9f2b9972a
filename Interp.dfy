/**
  * The MIR interpreter of `interp-mir`: it walks the instructions of block 0, moves to the
  * start of a block on a jump or a taken branch, and stops when the current block runs out.
  * Registers hold a `bool` or an `i32` each; `Print` appends the register's value to the
  * output. The register store of `variables.rs` is not part of this model: registers start
  * at the zero value of their type, and a read at another type than the register holds is
  * a `Fault`, behaviour the model leaves undefined.
  */
module Interp {
  import opened Wrappers
  import opened CoreMir
  import opened TypeCheck

  const I32Min: int := -0x8000_0000
  const I32Max: int := 0x7fff_ffff

  predicate InI32(x: int)
  {
    I32Min <= x <= I32Max
  }

  /** The contents of a register. */
  datatype Value = BoolV(b: bool) | IntV(i: int)

  /** A value of the type the checker gave its register, an `i32` within range. */
  predicate HasType(v: Value, p: Prim)
  {
    match p
    case BoolTy => v.BoolV?
    case I32Ty => v.IntV? && InI32(v.i)
  }

  predicate RegsTyped(tys: seq<Prim>, regs: seq<Value>)
  {
    |regs| == |tys| && forall r :: 0 <= r < |tys| ==> HasType(regs[r], tys[r])
  }

  /** The zero value of each register's type. */
  function Defaults(tys: seq<Prim>): (regs: seq<Value>)
    ensures RegsTyped(tys, regs)
  {
    seq(|tys|, r requires 0 <= r < |tys| => if tys[r] == BoolTy then BoolV(false) else IntV(0))
  }

  /** The frame's blocks, as `MirDigest` keeps them: a block may be absent. */
  type Frame = seq<Option<seq<Mir>>>

  /** Every instruction of every present block names registers that exist. */
  predicate FrameOk(blocks: Frame, n: nat)
  {
    forall b, k :: 0 <= b < |blocks| && blocks[b].Some? && 0 <= k < |blocks[b].value| ==>
      RegsIn(blocks[b].value[k], n) && (blocks[b].value[k].LoadImm? ==> LoadFits(blocks[b].value[k].imm))
  }

  /** The iterator over the current block (`code` from position `pc`), the registers and the output so far. */
  datatype State = State(code: seq<Mir>, pc: nat, regs: seq<Value>, out: seq<Value>)

  /** One turn of the loop: the next state, or the end of the run. */
  datatype Turn = Next(st: State) | Halt | Panic | Fault

  /** Integer division rounding toward zero, as Rust's `/` on `i32` does. */
  function Quot(a: int, b: int): (q: int)
    requires b != 0
    ensures a >= 0 && b > 0 ==> q == a / b
    ensures Abs(a - q * b) < Abs(b)
    ensures a - q * b == 0 || (a - q * b < 0 <==> a < 0)
  {
    var n := Abs(a) / Abs(b);
    QuotRemainder(a, b, n);
    if (a < 0) != (b < 0) then -n else n
  }

  function Abs(x: int): nat { if x < 0 then -x else x }

  /** The remainder left by truncating division has the dividend's sign and is smaller than the divisor. */
  lemma QuotRemainder(a: int, b: int, n: int)
    requires b != 0 && n == Abs(a) / Abs(b)
    ensures var q := if (a < 0) != (b < 0) then -n else n;
      a - q * b == (if a < 0 then -(Abs(a) % Abs(b)) else Abs(a) % Abs(b))
  {
    var x, y := Abs(a), Abs(b);
    var m := x % y;
    assert x == n * y + m;
    if a >= 0 && b > 0 {
      assert a - n * b == m;
    } else if a < 0 && b < 0 {
      assert a - n * b == -x + n * y;
    } else if a >= 0 {
      assert a - (-n) * b == x - n * y;
    } else {
      assert a - (-n) * b == -x + n * y;
    }
  }

  /** `+`, `-`, `*`, `/` on `i32`: `None` where a debug build panics (overflow, division by zero). */
  function Arith(op: BinOpType, a: int, b: int): (r: Option<int>)
    requires IsArith(op)
    ensures r.Some? ==> InI32(r.value)
  {
    var x :=
      match op
      case Add => Some(a + b)
      case Sub => Some(a - b)
      case Mul => Some(a * b)
      case _ => if b == 0 then None else Some(Quot(a, b));
    if x.Some? && InI32(x.value) then x else None
  }

  function Compare(op: BinOpType, a: int, b: int): bool
    requires IsOrdering(op)
  {
    match op
    case LessThan => a < b
    case GreaterThan => a > b
    case LessThanOrEqual => a <= b
    case _ => a >= b
  }

  /** `blocks[target].as_ref().unwrap().mir.iter()`: a panic on a missing block. */
  function Enter(blocks: Frame, target: nat, st: State): Turn
  {
    if target < |blocks| && blocks[target].Some? then Next(State(blocks[target].value, 0, st.regs, st.out)) else Panic
  }

  /** The `match *mir` of `interpret`. */
  function StepOf(tys: seq<Prim>, blocks: Frame, st: State): Turn
    requires |st.regs| == |tys| && forall k :: 0 <= k < |st.code| ==> RegsIn(st.code[k], |tys|)
  {
    if st.pc >= |st.code| then Halt
    else
      var regs := st.regs;
      var cont := (rs: seq<Value>) => Next(st.(pc := st.pc + 1, regs := rs));
      var m := st.code[st.pc];
      assert RegsIn(m, |regs|);
      match m
      case Print(r) =>
        if HasType(regs[r], tys[r]) then Next(st.(pc := st.pc + 1, out := st.out + [regs[r]])) else Fault
      case Jump(t) => Enter(blocks, t, st)
      case BranchTrue(c, t) =>
        if !regs[c].BoolV? then Fault
        else if regs[c].b then Enter(blocks, t, st)
        else cont(regs)
      case LoadImm(to, l) =>
        if l.Bool? then cont(regs[to := BoolV(l.b)])
        else if l.U8? || l.U16? then cont(regs[to := IntV(l.v)])
        else Panic
      case LoadReg(to, from) => cont(regs[to := regs[from]])
      case BinOp(op, out, l, r) =>
        if IsArith(op) || IsOrdering(op) then
          if !(regs[l].IntV? && regs[r].IntV?) then Fault
          else if IsOrdering(op) then cont(regs[out := BoolV(Compare(op, regs[l].i, regs[r].i))])
          else
            match Arith(op, regs[l].i, regs[r].i)
            case None => Panic
            case Some(x) => cont(regs[out := IntV(x)])
        else if !HasType(regs[l], tys[l]) || !HasType(regs[r], tys[l]) then Fault
        else
          var eq := regs[l] == regs[r];
          cont(regs[out := BoolV(if op == Equal then eq else !eq)])
  }

  /** How a run ends: with the output printed so far, or out of fuel. */
  datatype Outcome = Finished(out: seq<Value>) | Aborted(out: seq<Value>) | Faulted | OutOfFuel

  predicate Inside(tys: seq<Prim>, blocks: Frame, st: State)
  {
    && |st.regs| == |tys| && FrameOk(blocks, |tys|)
    && forall k :: 0 <= k < |st.code| ==> RegsIn(st.code[k], |tys|) && (st.code[k].LoadImm? ==> LoadFits(st.code[k].imm))
  }

  lemma EnterInside(tys: seq<Prim>, blocks: Frame, t: nat, st: State)
    requires Inside(tys, blocks, st)
    ensures Enter(blocks, t, st).Next? ==> Inside(tys, blocks, Enter(blocks, t, st).st)
  {
  }

  /** A step stays within the frame's registers and blocks. */
  lemma StepInside(tys: seq<Prim>, blocks: Frame, st: State)
    requires Inside(tys, blocks, st)
    ensures var s := StepOf(tys, blocks, st); s.Next? ==> Inside(tys, blocks, s.st)
  {
    if st.pc < |st.code| {
      match st.code[st.pc]
      case Jump(t) => EnterInside(tys, blocks, t, st);
      case BranchTrue(_, t) => EnterInside(tys, blocks, t, st);
      case _ =>
    }
  }

  /** At most `fuel` turns of the loop from `st`. */
  function Run(tys: seq<Prim>, blocks: Frame, st: State, fuel: nat): Outcome
    requires Inside(tys, blocks, st)
    decreases fuel
  {
    if fuel == 0 then OutOfFuel
    else
      StepInside(tys, blocks, st);
      match StepOf(tys, blocks, st)
      case Halt => Finished(st.out)
      case Panic => Aborted(st.out)
      case Fault => Faulted
      case Next(st') => Run(tys, blocks, st', fuel - 1)
  }

  /** `interpret`: from the start of block 0, with every register at its zero value. */
  function Interpret(tys: seq<Prim>, blocks: Frame, fuel: nat): Outcome
    requires FrameOk(blocks, |tys|)
  {
    if |blocks| == 0 || blocks[0].None? then Aborted([])
    else Run(tys, blocks, State(blocks[0].value, 0, Defaults(tys), []), fuel)
  }

  // ---------------------------------------------------------------- control flow

  /** The run stops when the current block's instructions run out: there is no fall-through. */
  lemma StopsAtBlockEnd(tys: seq<Prim>, blocks: Frame, st: State, fuel: nat)
    requires Inside(tys, blocks, st) && st.pc == |st.code| && fuel >= 1
    ensures Run(tys, blocks, st, fuel) == Finished(st.out)
  {
  }

  /** A jump to a present block continues at its first instruction with nothing else changed. */
  lemma JumpEntersTarget(tys: seq<Prim>, blocks: Frame, st: State, t: nat)
    requires Inside(tys, blocks, st) && st.pc < |st.code| && st.code[st.pc] == Jump(t)
    ensures StepOf(tys, blocks, st) ==
      if t < |blocks| && blocks[t].Some? then Next(State(blocks[t].value, 0, st.regs, st.out)) else Panic
  {
  }

  /** A branch switches blocks exactly when its condition holds `true`; otherwise execution continues in place. */
  lemma BranchOnlyWhenTrue(tys: seq<Prim>, blocks: Frame, st: State, c: nat, t: nat)
    requires Inside(tys, blocks, st) && st.pc < |st.code| && st.code[st.pc] == BranchTrue(c, t)
    requires st.regs[c].BoolV?
    ensures var s := StepOf(tys, blocks, st);
      st.regs[c].b ==> s == Enter(blocks, t, st)
    ensures var s := StepOf(tys, blocks, st);
      !st.regs[c].b ==> s == Next(st.(pc := st.pc + 1))
  {
  }

  // ---------------------------------------------------------------- type soundness

  /** Every instruction of every present block meets the checker's demands. */
  predicate WellTyped(tys: seq<Prim>, blocks: Frame)
    requires FrameOk(blocks, |tys|)
  {
    forall b, k :: 0 <= b < |blocks| && blocks[b].Some? && 0 <= k < |blocks[b].value| ==> Satisfied(tys, blocks[b].value[k])
  }

  predicate Sound(tys: seq<Prim>, blocks: Frame, st: State)
  {
    && Inside(tys, blocks, st) && WellTyped(tys, blocks) && RegsTyped(tys, st.regs)
    && forall k :: 0 <= k < |st.code| ==> Satisfied(tys, st.code[k])
  }

  /** Loads and arithmetic results keep every register at its type. */
  lemma {:induction false} StepSound(tys: seq<Prim>, blocks: Frame, st: State)
    requires Sound(tys, blocks, st)
    ensures var s := StepOf(tys, blocks, st); !s.Fault? && (s.Next? ==> Sound(tys, blocks, s.st))
  {
    StepInside(tys, blocks, st);
    if st.pc < |st.code| {
      var m := st.code[st.pc];
      var t := Lift(tys);
      assert Satisfied(tys, m) && LoadFits(if m.LoadImm? then m.imm else Bool(true));
      match m
      case Print(r) =>
      case Jump(_) =>
      case BranchTrue(c, _) =>
        assert t[c] == Concrete(BoolTy);
      case LoadImm(to, l) =>
        assert t[to] == Concrete(if l.Bool? then BoolTy else I32Ty);
      case LoadReg(to, from) =>
      case BinOp(op, out, l, r) =>
        if IsArith(op) || IsOrdering(op) {
          assert t[l] == Concrete(I32Ty) && t[r] == Concrete(I32Ty);
        }
        assert t[out] == Concrete(if IsArith(op) then I32Ty else BoolTy);
    }
  }

  /** A run of a well-typed frame never reads a register at a type it does not hold. */
  lemma {:induction false} RunSound(tys: seq<Prim>, blocks: Frame, st: State, fuel: nat)
    requires Sound(tys, blocks, st)
    ensures Run(tys, blocks, st, fuel) != Faulted
    decreases fuel
  {
    if fuel > 0 {
      StepSound(tys, blocks, st);
      var s := StepOf(tys, blocks, st);
      if s.Next? {
        RunSound(tys, blocks, s.st, fuel - 1);
      }
    }
  }

  /** A frame the checker types runs without a `Fault`: panics come only from missing blocks, wide loads and `i32` overflow. */
  lemma InterpretSound(tys: seq<Prim>, blocks: Frame, fuel: nat)
    requires FrameOk(blocks, |tys|) && WellTyped(tys, blocks)
    ensures Interpret(tys, blocks, fuel) != Faulted
  {
    if |blocks| > 0 && blocks[0].Some? {
      RunSound(tys, blocks, State(blocks[0].value, 0, Defaults(tys), []), fuel);
    }
  }

  /** More fuel does not change a run that has ended. */
  lemma {:induction false} RunFuelMonotone(tys: seq<Prim>, blocks: Frame, st: State, fuel: nat, more: nat)
    requires Inside(tys, blocks, st) && fuel <= more && Run(tys, blocks, st, fuel) != OutOfFuel
    ensures Run(tys, blocks, st, more) == Run(tys, blocks, st, fuel)
    decreases fuel
  {
    StepInside(tys, blocks, st);
    var s := StepOf(tys, blocks, st);
    if s.Next? {
      RunFuelMonotone(tys, blocks, s.st, fuel - 1, more - 1);
    }
  }

  /** Output is only ever appended: what a run prints extends what was printed before it. */
  lemma {:induction false} OutputGrows(tys: seq<Prim>, blocks: Frame, st: State, fuel: nat)
    requires Inside(tys, blocks, st)
    ensures var o := Run(tys, blocks, st, fuel); (o.Finished? || o.Aborted?) ==> st.out <= o.out
    decreases fuel
  {
    if fuel > 0 {
      StepInside(tys, blocks, st);
      var s := StepOf(tys, blocks, st);
      if s.Next? {
        OutputGrows(tys, blocks, s.st, fuel - 1);
      }
    }
  }

  // ---------------------------------------------------------------- the loop

  /** The state `interpret` updates: the block iterator, the registers and the output. */
  class Machine {
    var code: seq<Mir>
    var pc: nat
    var regs: seq<Value>
    var out: seq<Value>

    function View(): State
      reads this
    {
      State(code, pc, regs, out)
    }

    constructor (tys: seq<Prim>, start: seq<Mir>)
      ensures View() == State(start, 0, Defaults(tys), [])
    {
      code := start;
      pc := 0;
      regs := Defaults(tys);
      out := [];
    }

    /** One turn of the loop: `current_block.next()`, then the instruction. */
    method Step(tys: seq<Prim>, blocks: Frame) returns (s: Turn)
      requires Inside(tys, blocks, View())
      modifies this
      ensures s == StepOf(tys, blocks, old(View()))
      ensures s.Next? ==> View() == s.st
      ensures !s.Next? ==> View() == old(View())
    {
      if pc >= |code| {
        return Halt;
      }
      match code[pc] {
      case Print(r) =>
        if !HasType(regs[r], tys[r]) {
          return Fault;
        }
        out := out + [regs[r]];
        pc := pc + 1;
      case Jump(t) =>
        s := EnterBlock(blocks, t);
        return;
      case BranchTrue(c, t) =>
        if !regs[c].BoolV? {
          return Fault;
        }
        if regs[c].b {
          s := EnterBlock(blocks, t);
          return;
        }
        pc := pc + 1;
      case LoadImm(to, l) =>
        if l.Bool? {
          regs := regs[to := BoolV(l.b)];
        } else if l.U8? || l.U16? {
          regs := regs[to := IntV(l.v)];
        } else {
          return Panic;
        }
        pc := pc + 1;
      case LoadReg(to, from) =>
        regs := regs[to := regs[from]];
        pc := pc + 1;
      case BinOp(op, o, l, r) =>
        if IsArith(op) || IsOrdering(op) {
          if !(regs[l].IntV? && regs[r].IntV?) {
            return Fault;
          }
          if IsOrdering(op) {
            regs := regs[o := BoolV(Compare(op, regs[l].i, regs[r].i))];
          } else {
            var x := Arith(op, regs[l].i, regs[r].i);
            if x.None? {
              return Panic;
            }
            regs := regs[o := IntV(x.value)];
          }
        } else {
          if !HasType(regs[l], tys[l]) || !HasType(regs[r], tys[l]) {
            return Fault;
          }
          var eq := regs[l] == regs[r];
          regs := regs[o := BoolV(if op == Equal then eq else !eq)];
        }
        pc := pc + 1;
      }
      s := Next(View());
    }

    /** `current_block = blocks[target].as_ref().unwrap().mir.iter()`. */
    method EnterBlock(blocks: Frame, t: nat) returns (s: Turn)
      modifies this
      ensures s == Enter(blocks, t, old(View()))
      ensures s.Next? ==> View() == s.st
      ensures !s.Next? ==> View() == old(View())
    {
      if t < |blocks| && blocks[t].Some? {
        code := blocks[t].value;
        pc := 0;
        s := Next(View());
      } else {
        s := Panic;
      }
    }
  }

  /** `interpret`, its loop bounded by `fuel` turns. */
  method Execute(tys: seq<Prim>, blocks: Frame, fuel: nat) returns (o: Outcome)
    requires FrameOk(blocks, |tys|)
    ensures o == Interpret(tys, blocks, fuel)
  {
    if |blocks| == 0 || blocks[0].None? {
      return Aborted([]);
    }
    var m := new Machine(tys, blocks[0].value);
    ghost var spec := Interpret(tys, blocks, fuel);
    var left := fuel;
    while left > 0
      invariant Inside(tys, blocks, m.View()) && Run(tys, blocks, m.View(), left) == spec
      decreases left
    {
      ghost var before := m.View();
      StepInside(tys, blocks, before);
      var s := m.Step(tys, blocks);
      if s.Halt? {
        return Finished(m.out);
      } else if s.Panic? {
        return Aborted(m.out);
      } else if s.Fault? {
        return Faulted;
      }
      left := left - 1;
    }
    o := OutOfFuel;
  }
}
