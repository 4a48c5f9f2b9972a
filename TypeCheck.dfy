/**
  * The type inference of `impl-pass-mir/src/type_check.rs` (`infer_types`): one inference
  * variable per register, the rules each instruction imposes applied in block order, a
  * loop that copies linked variables until nothing changes, and a final read-out that
  * fails on any variable still unresolved. Projections and function types (`CreateFunc`,
  * `LoadFunction`) are not part of this model; so every type written by a rule is concrete.
  */
module TypeCheck {
  import opened Wrappers
  import opened CoreMir

  /** The two primitive types the checker registers, `bool` and `i32`. */
  datatype Prim = BoolTy | I32Ty

  /** `Infer`: a known type, or a link to an inference variable (`Inf(i)` for its own index: unknown). */
  datatype Infer = Concrete(p: Prim) | Inf(idx: nat)

  /** What `infer_types` ends in; `Unfinished` is the pass budget running out. */
  datatype Verdict = Typed(tys: seq<Prim>) | Rejected | Panicked | Unfinished

  /** Every link names a variable that exists. */
  predicate Closed(t: seq<Infer>)
  {
    forall i :: 0 <= i < |t| && t[i].Inf? ==> t[i].idx < |t|
  }

  /** Every register `m` names is below `n`. */
  predicate RegsIn(m: Mir, n: nat)
  {
    match m
    case Jump(_) => true
    case BranchTrue(c, _) => c < n
    case Print(r) => r < n
    case LoadImm(to, _) => to < n
    case LoadReg(to, from) => to < n && from < n
    case BinOp(_, out, l, r) => out < n && l < n && r < n
  }

  /** Every register a frame names has an inference variable. */
  predicate FrameRegsIn(blocks: seq<seq<Mir>>, n: nat)
  {
    forall b, k :: 0 <= b < |blocks| && 0 <= k < |blocks[b]| ==> RegsIn(blocks[b][k], n)
  }

  /** The starting variables: register `i` is `Inf(i)`. */
  function InitialTypes(n: nat): (t: seq<Infer>)
    ensures |t| == n && Closed(t) && Upward(t)
  {
    seq(n, i requires 0 <= i < n => Inf(i))
  }

  /** Known types stay known and unchanged from `t` to `t'`. */
  predicate Refines(t: seq<Infer>, t': seq<Infer>)
  {
    |t'| == |t| && forall i :: 0 <= i < |t| && t[i].Concrete? ==> t'[i] == t[i]
  }

  lemma RefinesTrans(a: seq<Infer>, b: seq<Infer>, c: seq<Infer>)
    requires Refines(a, b) && Refines(b, c)
    ensures Refines(a, c)
  {
  }

  // ---------------------------------------------------------------- the checker as written

  /** `write_type!(reg <- ty)`: overwrites the variable unless it already holds a different known type. */
  function WriteType(t: seq<Infer>, reg: nat, ty: Infer): (r: Option<seq<Infer>>)
    requires reg < |t|
    ensures r.None? <==> t[reg].Concrete? && ty.Concrete? && t[reg] != ty
    ensures r.Some? ==> |r.value| == |t| && r.value[reg] == ty && forall i :: 0 <= i < |t| && i != reg ==> r.value[i] == t[i]
    ensures r.Some? && ty.Concrete? ==> Refines(t, r.value)
  {
    var rty := t[reg];
    if rty.Inf? || rty == ty || (ty.Inf? && !rty.Inf?) then Some(t[reg := ty]) else None
  }

  /**
    * `write_type!(a == b)`: if `a` is a variable it takes `b`'s entry, else if `b` is a
    * variable it takes `a`'s; two different known types are a type error.
    */
  function Unify(t: seq<Infer>, a: nat, b: nat): (r: Option<seq<Infer>>)
    requires a < |t| && b < |t|
    ensures r.None? <==> a != b && t[a].Concrete? && t[b].Concrete? && t[a] != t[b]
    ensures r.Some? ==> Refines(t, r.value) && r.value[a] == r.value[b]
    ensures r.Some? ==> forall i :: 0 <= i < |t| && i != a && i != b ==> r.value[i] == t[i]
  {
    if a == b then Some(t)
    else if t[a].Inf? then Some(t[a := t[b]])
    else if t[b].Inf? then Some(t[b := t[a]])
    else if t[a] != t[b] then None
    else Some(t)
  }

  /** The known types an instruction demands of its registers; a wide immediate can never be typed. */
  predicate ConcreteOk(t: seq<Infer>, m: Mir)
    requires RegsIn(m, |t|)
  {
    match m
    case Jump(_) => true
    case Print(_) => true
    case BranchTrue(c, _) => t[c] == Concrete(BoolTy)
    case LoadImm(to, l) =>
      if l.Bool? then t[to] == Concrete(BoolTy)
      else (l.U8? || l.U16?) && t[to] == Concrete(I32Ty)
    case LoadReg(_, _) => true
    case BinOp(op, out, l, r) =>
      if IsArith(op) then t[out] == Concrete(I32Ty) && t[l] == Concrete(I32Ty) && t[r] == Concrete(I32Ty)
      else if IsOrdering(op) then t[out] == Concrete(BoolTy) && t[l] == Concrete(I32Ty) && t[r] == Concrete(I32Ty)
      else t[out] == Concrete(BoolTy)
  }

  lemma ConcreteOkRefines(t: seq<Infer>, t': seq<Infer>, m: Mir)
    requires RegsIn(m, |t|) && Refines(t, t') && ConcreteOk(t, m)
    ensures ConcreteOk(t', m)
  {
  }

  /** The rule for one instruction (the `match *mir` of the first loop). */
  function Rule(t: seq<Infer>, m: Mir): (r: Option<seq<Infer>>)
    requires Closed(t) && RegsIn(m, |t|)
    ensures r.Some? ==> Closed(r.value) && Refines(t, r.value) && ConcreteOk(r.value, m)
    ensures r.Some? && m.LoadReg? ==> |r.value| == |t| && r.value[m.to] == r.value[m.from]
  {
    match m
    case Jump(_) => Some(t)
    case Print(_) => Some(t)
    case BranchTrue(c, _) => WriteType(t, c, Concrete(BoolTy))
    case LoadImm(to, l) =>
      if l.Bool? then WriteType(t, to, Concrete(BoolTy))
      else if l.U8? || l.U16? then WriteType(t, to, Concrete(I32Ty))
      else None
    case LoadReg(to, from) => Unify(t, to, from)
    case BinOp(op, out, l, r) =>
      var outTy := if IsArith(op) then I32Ty else BoolTy;
      match WriteType(t, out, Concrete(outTy))
      case None => None
      case Some(t1) =>
        if IsArith(op) || IsOrdering(op) then
          match WriteType(t1, l, Concrete(I32Ty))
          case None => None
          case Some(t2) =>
            match WriteType(t2, r, Concrete(I32Ty))
            case None => None
            case Some(t3) => Some(t3)
        else Unify(t1, l, r)
  }

  /** The rules of one block's instructions, in order, stopping at the first type error. */
  function RulesCode(t: seq<Infer>, code: seq<Mir>): (r: Option<seq<Infer>>)
    requires Closed(t) && forall k :: 0 <= k < |code| ==> RegsIn(code[k], |t|)
    ensures r.Some? ==> Closed(r.value) && Refines(t, r.value)
    ensures r.Some? ==> forall k :: 0 <= k < |code| ==> ConcreteOk(r.value, code[k])
    decreases |code|
  {
    if code == [] then Some(t)
    else
      match Rule(t, code[0])
      case None => None
      case Some(t1) =>
        var r := RulesCode(t1, code[1..]);
        if r.Some? then
          ConcreteOkRefines(t1, r.value, code[0]);
          assert forall k :: 1 <= k < |code| ==> code[k] == code[1..][k - 1];
          r
        else r
  }

  /** The first loop of `infer_types`: every block's rules, in block order. */
  function RulesFrame(t: seq<Infer>, blocks: seq<seq<Mir>>): (r: Option<seq<Infer>>)
    requires Closed(t) && FrameRegsIn(blocks, |t|)
    ensures r.Some? ==> Closed(r.value) && Refines(t, r.value)
    ensures r.Some? ==> forall b, k :: 0 <= b < |blocks| && 0 <= k < |blocks[b]| ==> ConcreteOk(r.value, blocks[b][k])
    decreases |blocks|
  {
    if blocks == [] then Some(t)
    else
      match RulesCode(t, blocks[0])
      case None => None
      case Some(t1) =>
        assert FrameRegsIn(blocks[1..], |t1|);
        var r := RulesFrame(t1, blocks[1..]);
        if r.Some? then
          forall k | 0 <= k < |blocks[0]|
            ensures ConcreteOk(r.value, blocks[0][k])
          {
            ConcreteOkRefines(t1, r.value, blocks[0][k]);
          }
          assert forall b :: 1 <= b < |blocks| ==> blocks[b] == blocks[1..][b - 1];
          r
        else r
  }

  /**
    * One pass of the second loop, from variable `i` on: a variable linked to `other` takes
    * `other`'s current entry, and `changed` records whether any entry differed.
    */
  function PassFrom(t: seq<Infer>, i: nat, changed: bool): (r: (seq<Infer>, bool))
    requires Closed(t) && i <= |t|
    ensures Closed(r.0) && Refines(t, r.0) && (changed ==> r.1)
    ensures !r.1 ==> r.0 == t
    decreases |t| - i
  {
    if i == |t| then (t, changed)
    else
      match t[i]
      case Concrete(_) => PassFrom(t, i + 1, changed)
      case Inf(other) => PassFrom(t[i := t[other]], i + 1, changed || t[i] != t[other])
  }

  /** The second loop: passes until one changes nothing, at most `passes` of them. */
  function Fixpoint(t: seq<Infer>, passes: nat): (r: Option<seq<Infer>>)
    requires Closed(t)
    ensures r.Some? ==> Closed(r.value) && Refines(t, r.value) && PassFrom(r.value, 0, false) == (r.value, false)
    decreases passes
  {
    if passes == 0 then None
    else
      var (t1, changed) := PassFrom(t, 0, false);
      if changed then
        var r := Fixpoint(t1, passes - 1);
        if r.Some? then RefinesTrans(t, t1, r.value); r else r
      else Some(t1)
  }

  /** The known types of a list of primitives. */
  function Lift(tys: seq<Prim>): (t: seq<Infer>)
    ensures |t| == |tys| && forall i :: 0 <= i < |tys| ==> t[i] == Concrete(tys[i])
  {
    seq(|tys|, i requires 0 <= i < |tys| => Concrete(tys[i]))
  }

  /** The final `map`: every variable must be known; one that is not panics. */
  function Finalize(t: seq<Infer>): (r: Verdict)
    ensures r.Typed? <==> forall i :: 0 <= i < |t| ==> t[i].Concrete?
    ensures r.Typed? ==> Lift(r.tys) == t
    ensures !r.Typed? ==> r.Panicked?
    decreases |t|
  {
    if t == [] then Typed([])
    else if t[0].Inf? then Panicked
    else
      var rest := Finalize(t[1..]);
      if rest.Typed? then
        assert Lift([t[0].p] + rest.tys) == [t[0]] + t[1..];
        Typed([t[0].p] + rest.tys)
      else
        assert exists i :: 0 <= i < |t[1..]| && t[1..][i].Inf?;
        Panicked
  }

  /** `infer_types` as written, given the register count and the blocks' instructions. */
  function InferAsWritten(n: nat, blocks: seq<seq<Mir>>, passes: nat): (r: Verdict)
    requires FrameRegsIn(blocks, n)
  {
    match RulesFrame(InitialTypes(n), blocks)
    case None => Rejected
    case Some(t) =>
      match Fixpoint(t, passes)
      case None => Unfinished
      case Some(t2) => Finalize(t2)
  }

  /**
    * A typed result meets every known-type demand of the frame: branch conditions are
    * `bool`, immediates have their type and arithmetic and comparisons their operand and
    * result types; in particular no frame loading a 32-, 64- or 128-bit immediate is typed.
    */
  lemma InferAsWrittenSound(n: nat, blocks: seq<seq<Mir>>, passes: nat)
    requires FrameRegsIn(blocks, n)
    ensures var r := InferAsWritten(n, blocks, passes);
      r.Typed? ==> |r.tys| == n && forall b, k :: 0 <= b < |blocks| && 0 <= k < |blocks[b]| ==> ConcreteOk(Lift(r.tys), blocks[b][k])
  {
    var r := InferAsWritten(n, blocks, passes);
    if r.Typed? {
      var t := RulesFrame(InitialTypes(n), blocks).value;
      var t2 := Fixpoint(t, passes).value;
      forall b, k | 0 <= b < |blocks| && 0 <= k < |blocks[b]|
        ensures ConcreteOk(Lift(r.tys), blocks[b][k])
      {
        ConcreteOkRefines(t, t2, blocks[b][k]);
      }
    }
  }

  /** What a typed result should also meet: both sides of a register copy or an equality test have one type. */
  predicate Satisfied(tys: seq<Prim>, m: Mir)
    requires RegsIn(m, |tys|)
  {
    && ConcreteOk(Lift(tys), m)
    && (m.LoadReg? ==> tys[m.to] == tys[m.from])
    && (m.BinOp? && !IsArith(m.op) && !IsOrdering(m.op) ==> tys[m.left] == tys[m.right])
  }

  /**
    * As written, `write_type!` and `a == b` overwrite a variable that is already linked to
    * another, so the earlier equation is lost: after `r1 = r0` links `r1` to `r0`, loading a
    * boolean into `r1` and a small integer into `r0` is accepted with `r1: bool, r0: i32`.
    */
  lemma LinkedVariableLost()
    ensures var code := [LoadReg(1, 0), LoadImm(1, Bool(true)), LoadImm(0, U8(0))];
      && FrameRegsIn([code], 2)
      && InferAsWritten(2, [code], 2) == Typed([I32Ty, BoolTy])
      && !Satisfied([I32Ty, BoolTy], code[0])
  {
    var code := [LoadReg(1, 0), LoadImm(1, Bool(true)), LoadImm(0, U8(0))];
    var t0 := InitialTypes(2);
    assert t0 == [Inf(0), Inf(1)];
    var t1 := [Inf(0), Inf(0)];
    assert Unify(t0, 1, 0) == Some(t0[1 := t0[0]]);
    assert t0[1 := t0[0]] == t1;
    assert Rule(t0, code[0]) == Some(t1);
    var t2 := [Inf(0), Concrete(BoolTy)];
    assert t1[1 := Concrete(BoolTy)] == t2;
    assert Rule(t1, code[1]) == Some(t2);
    var t3 := [Concrete(I32Ty), Concrete(BoolTy)];
    assert t2[0 := Concrete(I32Ty)] == t3;
    assert Rule(t2, code[2]) == Some(t3);
    assert code[1..][1..][1..] == [];
    assert RulesCode(t0, code) == Some([Concrete(I32Ty), Concrete(BoolTy)]);
    assert RulesFrame(t0, [code]) == Some([Concrete(I32Ty), Concrete(BoolTy)]);
    var t := [Concrete(I32Ty), Concrete(BoolTy)];
    assert PassFrom(t, 0, false) == (t, false);
    assert Finalize(t[1..]) == Typed([BoolTy]);
  }

  // ---------------------------------------------------------------- the checker with the equations kept

  /**
    * Links only point upwards, so following them ends; a variable linked to itself is a
    * root still unknown.
    */
  predicate Upward(t: seq<Infer>)
  {
    forall i :: 0 <= i < |t| && t[i].Inf? ==> i <= t[i].idx < |t|
  }

  /** The root of `i`'s class: follow links until a known type or a self-link. */
  function Find(t: seq<Infer>, i: nat): (r: nat)
    requires Upward(t) && i < |t|
    ensures i <= r < |t| && (t[r].Concrete? || t[r] == Inf(r))
    decreases |t| - i
  {
    if t[i].Inf? && t[i].idx != i then Find(t, t[i].idx) else i
  }

  /** The entry at the root of `i`'s class: its known type, or the root's self-link. */
  function Val(t: seq<Infer>, i: nat): Infer
    requires Upward(t) && i < |t|
  {
    t[Find(t, i)]
  }

  /** From `t` to `t'`, classes only merge and known types stay known. */
  predicate Coarsens(t: seq<Infer>, t': seq<Infer>)
    requires Upward(t) && Upward(t')
  {
    && |t'| == |t|
    && (forall x, y :: 0 <= x < |t| && 0 <= y < |t| && Val(t, x) == Val(t, y) ==> Val(t', x) == Val(t', y))
    && (forall x :: 0 <= x < |t| && Val(t, x).Concrete? ==> Val(t', x) == Val(t, x))
  }

  lemma CoarsensTrans(a: seq<Infer>, b: seq<Infer>, c: seq<Infer>)
    requires Upward(a) && Upward(b) && Upward(c) && Coarsens(a, b) && Coarsens(b, c)
    ensures Coarsens(a, c)
  {
  }

  /**
    * Setting a root `r` to a known type or linking it to a higher root `v` replaces `r`'s
    * class entry by `v` everywhere and changes no other class.
    */
  lemma {:induction false} SetRoot(t: seq<Infer>, r: nat, v: Infer, x: nat)
    requires Upward(t) && r < |t| && t[r] == Inf(r) && x < |t|
    requires v.Inf? ==> r < v.idx < |t| && t[v.idx] == Inf(v.idx)
    ensures Upward(t[r := v])
    ensures Val(t[r := v], x) == if Val(t, x) == Inf(r) then v else Val(t, x)
    decreases |t| - x
  {
    var t' := t[r := v];
    if t[x].Inf? && t[x].idx != x {
      SetRoot(t, r, v, t[x].idx);
    } else if x == r && v.Inf? {
      assert Find(t', r) == Find(t', v.idx);
    }
  }

  lemma SetRootCoarsens(t: seq<Infer>, r: nat, v: Infer)
    requires Upward(t) && r < |t| && t[r] == Inf(r)
    requires v.Inf? ==> r < v.idx < |t| && t[v.idx] == Inf(v.idx)
    ensures Upward(t[r := v]) && Coarsens(t, t[r := v])
    ensures forall x :: 0 <= x < |t| ==> Val(t[r := v], x) == if Val(t, x) == Inf(r) then v else Val(t, x)
  {
    forall x | 0 <= x < |t|
      ensures Val(t[r := v], x) == if Val(t, x) == Inf(r) then v else Val(t, x)
    {
      SetRoot(t, r, v, x);
    }
  }

  /** `write_type!(reg <- ty)` on the root of `reg`'s class. */
  function WriteRoot(t: seq<Infer>, reg: nat, ty: Prim): (r: Option<seq<Infer>>)
    requires Upward(t) && reg < |t|
    ensures r.None? <==> Val(t, reg).Concrete? && Val(t, reg) != Concrete(ty)
    ensures r.Some? ==> Upward(r.value) && Coarsens(t, r.value) && Val(r.value, reg) == Concrete(ty)
  {
    var root := Find(t, reg);
    if t[root].Inf? then
      SetRootCoarsens(t, root, Concrete(ty));
      Some(t[root := Concrete(ty)])
    else if t[root] == Concrete(ty) then Some(t)
    else None
  }

  /** `write_type!(a == b)` on the roots of the two classes: the lower root is linked to the higher, or takes its known type. */
  function UnifyRoots(t: seq<Infer>, a: nat, b: nat): (r: Option<seq<Infer>>)
    requires Upward(t) && a < |t| && b < |t|
    ensures r.None? <==> Val(t, a).Concrete? && Val(t, b).Concrete? && Val(t, a) != Val(t, b)
    ensures r.Some? ==> Upward(r.value) && Coarsens(t, r.value) && Val(r.value, a) == Val(r.value, b)
  {
    var ra := Find(t, a);
    var rb := Find(t, b);
    if ra == rb then Some(t)
    else if t[ra].Inf? && t[rb].Inf? then
      if ra < rb then
        SetRootCoarsens(t, ra, Inf(rb));
        Some(t[ra := Inf(rb)])
      else
        SetRootCoarsens(t, rb, Inf(ra));
        Some(t[rb := Inf(ra)])
    else if t[ra].Inf? then
      SetRootCoarsens(t, ra, t[rb]);
      Some(t[ra := t[rb]])
    else if t[rb].Inf? then
      SetRootCoarsens(t, rb, t[ra]);
      Some(t[rb := t[ra]])
    else if t[ra] != t[rb] then None
    else Some(t)
  }

  /** Every demand of an instruction, on the classes: known types and equal classes. */
  predicate Holds(t: seq<Infer>, m: Mir)
    requires Upward(t) && RegsIn(m, |t|)
  {
    match m
    case Jump(_) => true
    case Print(_) => true
    case BranchTrue(c, _) => Val(t, c) == Concrete(BoolTy)
    case LoadImm(to, l) =>
      if l.Bool? then Val(t, to) == Concrete(BoolTy)
      else (l.U8? || l.U16?) && Val(t, to) == Concrete(I32Ty)
    case LoadReg(to, from) => Val(t, to) == Val(t, from)
    case BinOp(op, out, l, r) =>
      if IsArith(op) then Val(t, out) == Concrete(I32Ty) && Val(t, l) == Concrete(I32Ty) && Val(t, r) == Concrete(I32Ty)
      else if IsOrdering(op) then Val(t, out) == Concrete(BoolTy) && Val(t, l) == Concrete(I32Ty) && Val(t, r) == Concrete(I32Ty)
      else Val(t, out) == Concrete(BoolTy) && Val(t, l) == Val(t, r)
  }

  lemma HoldsCoarsens(t: seq<Infer>, t': seq<Infer>, m: Mir)
    requires Upward(t) && Upward(t') && RegsIn(m, |t|) && Coarsens(t, t') && Holds(t, m)
    ensures Holds(t', m)
  {
  }

  /** The rule for one instruction, with the equations kept. */
  function ClassRule(t: seq<Infer>, m: Mir): (r: Option<seq<Infer>>)
    requires Upward(t) && RegsIn(m, |t|)
    ensures r.Some? ==> Upward(r.value) && Coarsens(t, r.value) && Holds(r.value, m)
  {
    match m
    case Jump(_) => Some(t)
    case Print(_) => Some(t)
    case BranchTrue(c, _) => WriteRoot(t, c, BoolTy)
    case LoadImm(to, l) =>
      if l.Bool? then WriteRoot(t, to, BoolTy)
      else if l.U8? || l.U16? then WriteRoot(t, to, I32Ty)
      else None
    case LoadReg(to, from) => UnifyRoots(t, to, from)
    case BinOp(op, out, l, r) =>
      var outTy := if IsArith(op) then I32Ty else BoolTy;
      match WriteRoot(t, out, outTy)
      case None => None
      case Some(t1) =>
        if IsArith(op) || IsOrdering(op) then
          match WriteRoot(t1, l, I32Ty)
          case None => None
          case Some(t2) =>
            match WriteRoot(t2, r, I32Ty)
            case None => None
            case Some(t3) =>
              CoarsensTrans(t, t1, t2);
              CoarsensTrans(t, t2, t3);
              Some(t3)
        else
          match UnifyRoots(t1, l, r)
          case None => None
          case Some(t2) =>
            CoarsensTrans(t, t1, t2);
            Some(t2)
  }

  function ClassRulesCode(t: seq<Infer>, code: seq<Mir>): (r: Option<seq<Infer>>)
    requires Upward(t) && forall k :: 0 <= k < |code| ==> RegsIn(code[k], |t|)
    ensures r.Some? ==> Upward(r.value) && Coarsens(t, r.value)
    ensures r.Some? ==> forall k :: 0 <= k < |code| ==> Holds(r.value, code[k])
    decreases |code|
  {
    if code == [] then Some(t)
    else
      match ClassRule(t, code[0])
      case None => None
      case Some(t1) =>
        var r := ClassRulesCode(t1, code[1..]);
        if r.Some? then
          HoldsCoarsens(t1, r.value, code[0]);
          CoarsensTrans(t, t1, r.value);
          assert forall k :: 1 <= k < |code| ==> code[k] == code[1..][k - 1];
          r
        else r
  }

  function ClassRulesFrame(t: seq<Infer>, blocks: seq<seq<Mir>>): (r: Option<seq<Infer>>)
    requires Upward(t) && FrameRegsIn(blocks, |t|)
    ensures r.Some? ==> Upward(r.value) && Coarsens(t, r.value)
    ensures r.Some? ==> forall b, k :: 0 <= b < |blocks| && 0 <= k < |blocks[b]| ==> Holds(r.value, blocks[b][k])
    decreases |blocks|
  {
    if blocks == [] then Some(t)
    else
      match ClassRulesCode(t, blocks[0])
      case None => None
      case Some(t1) =>
        assert FrameRegsIn(blocks[1..], |t1|);
        var r := ClassRulesFrame(t1, blocks[1..]);
        if r.Some? then
          forall k | 0 <= k < |blocks[0]|
            ensures Holds(r.value, blocks[0][k])
          {
            HoldsCoarsens(t1, r.value, blocks[0][k]);
          }
          CoarsensTrans(t, t1, r.value);
          assert forall b :: 1 <= b < |blocks| ==> blocks[b] == blocks[1..][b - 1];
          r
        else r
  }

  /** A variable taking the entry of the variable it links to keeps every class and its entry. */
  lemma {:induction false} JumpKeepsVal(t: seq<Infer>, i: nat, x: nat)
    requires Upward(t) && i < |t| && t[i].Inf? && x < |t|
    ensures Upward(t[i := t[t[i].idx]]) && Val(t[i := t[t[i].idx]], x) == Val(t, x)
    decreases |t| - x
  {
    var t' := t[i := t[t[i].idx]];
    if t[x].Inf? && t[x].idx != x {
      JumpKeepsVal(t, i, t[x].idx);
      if x == i {
        var o := t[i].idx;
        if t[o].Inf? && t[o].idx != o {
          JumpKeepsVal(t, i, t[o].idx);
        }
      }
    }
  }

  /** A pass of the second loop keeps every class and its entry. */
  lemma {:induction false} PassKeepsVal(t: seq<Infer>, i: nat, changed: bool)
    requires Upward(t) && i <= |t|
    ensures Upward(PassFrom(t, i, changed).0)
    ensures forall x :: 0 <= x < |t| ==> Val(PassFrom(t, i, changed).0, x) == Val(t, x)
    decreases |t| - i
  {
    if i < |t| && t[i].Inf? {
      var t' := t[i := t[t[i].idx]];
      forall x | 0 <= x < |t|
        ensures Val(t', x) == Val(t, x)
      {
        JumpKeepsVal(t, i, x);
      }
      PassKeepsVal(t', i + 1, changed || t[i] != t[t[i].idx]);
    } else if i < |t| {
      PassKeepsVal(t, i + 1, changed);
    }
  }

  lemma {:induction false} FixpointKeepsVal(t: seq<Infer>, passes: nat)
    requires Upward(t)
    ensures var r := Fixpoint(t, passes);
      r.Some? ==> Upward(r.value) && forall x :: 0 <= x < |t| ==> Val(r.value, x) == Val(t, x)
    decreases passes
  {
    if passes > 0 {
      PassKeepsVal(t, 0, false);
      var (t1, changed) := PassFrom(t, 0, false);
      if changed {
        FixpointKeepsVal(t1, passes - 1);
      }
    }
  }

  /** `infer_types` with the equations kept: the same passes and read-out after the rules. */
  function InferClasses(n: nat, blocks: seq<seq<Mir>>, passes: nat): (r: Verdict)
    requires FrameRegsIn(blocks, n)
  {
    assert Upward(InitialTypes(n));
    match ClassRulesFrame(InitialTypes(n), blocks)
    case None => Rejected
    case Some(t) =>
      match Fixpoint(t, passes)
      case None => Unfinished
      case Some(t2) => Finalize(t2)
  }

  /** With the equations kept, a typed result meets every demand of every instruction, equations included. */
  lemma InferClassesSound(n: nat, blocks: seq<seq<Mir>>, passes: nat)
    requires FrameRegsIn(blocks, n)
    ensures var r := InferClasses(n, blocks, passes);
      r.Typed? ==> |r.tys| == n && forall b, k :: 0 <= b < |blocks| && 0 <= k < |blocks[b]| ==> Satisfied(r.tys, blocks[b][k])
  {
    var r := InferClasses(n, blocks, passes);
    if r.Typed? {
      assert Upward(InitialTypes(n));
      var t := ClassRulesFrame(InitialTypes(n), blocks).value;
      var t2 := Fixpoint(t, passes).value;
      FixpointKeepsVal(t, passes);
      KnownVals(t, t2, r.tys);
      forall b, k | 0 <= b < |blocks| && 0 <= k < |blocks[b]|
        ensures Satisfied(r.tys, blocks[b][k])
      {
        HoldsSatisfied(t, r.tys, blocks[b][k]);
      }
    }
  }

  /** Once every variable is known, each class's entry is the type read out for it. */
  lemma KnownVals(t: seq<Infer>, t2: seq<Infer>, tys: seq<Prim>)
    requires Upward(t) && Upward(t2) && |t2| == |t| && Lift(tys) == t2
    requires forall x :: 0 <= x < |t| ==> Val(t2, x) == Val(t, x)
    ensures forall x :: 0 <= x < |t| ==> Val(t, x) == Concrete(tys[x])
  {
    forall x | 0 <= x < |t|
      ensures Val(t, x) == Concrete(tys[x])
    {
      assert Find(t2, x) == x;
    }
  }

  lemma HoldsSatisfied(t: seq<Infer>, tys: seq<Prim>, m: Mir)
    requires Upward(t) && |tys| == |t| && RegsIn(m, |t|) && Holds(t, m)
    requires forall x :: 0 <= x < |t| ==> Val(t, x) == Concrete(tys[x])
    ensures Satisfied(tys, m)
  {
  }

  /** The frame that the checker as written accepts is rejected once the equations are kept. */
  lemma LinkedVariableKept()
    ensures InferClasses(2, [[LoadReg(1, 0), LoadImm(1, Bool(true)), LoadImm(0, U8(0))]], 2) == Rejected
  {
    var code := [LoadReg(1, 0), LoadImm(1, Bool(true)), LoadImm(0, U8(0))];
    var t0 := InitialTypes(2);
    assert t0 == [Inf(0), Inf(1)];
    assert Find(t0, 0) == 0 && Find(t0, 1) == 1;
    var t1 := [Inf(1), Inf(1)];
    assert t0[0 := Inf(1)] == t1;
    assert UnifyRoots(t0, 1, 0) == Some(t1);
    assert ClassRule(t0, code[0]) == Some(t1);
    assert Find(t1, 1) == 1;
    var t2 := [Inf(1), Concrete(BoolTy)];
    assert t1[1 := Concrete(BoolTy)] == t2;
    assert WriteRoot(t1, 1, BoolTy) == Some(t2);
    assert ClassRule(t1, code[1]) == Some(t2);
    assert Find(t2, 0) == 1;
    assert ClassRule(t2, code[2]) == None;
    assert ClassRulesCode(t0, code) == None;
  }

  // ---------------------------------------------------------------- the checker as a program

  /** Links that point upwards name variables that exist. */
  lemma UpwardClosed(t: seq<Infer>)
    requires Upward(t)
    ensures Closed(t)
  {
  }

  /** `InferenceVariables`: the vector of variables `infer_types` updates in place. */
  class InferenceVariables {
    var types: seq<Infer>

    /** The variables of a frame with `n` registers, each unknown. */
    constructor (n: nat)
      ensures types == InitialTypes(n)
    {
      types := seq(n, i requires 0 <= i < n => Inf(i));
    }

    /** Follows links from `i` to the root of its class. */
    method Root(i: nat) returns (r: nat)
      requires Upward(types) && i < |types|
      ensures r == Find(types, i)
    {
      r := i;
      while types[r].Inf? && types[r].idx != r
        invariant r < |types| && Find(types, r) == Find(types, i)
        decreases |types| - r
      {
        r := types[r].idx;
      }
    }

    /** `write_type!(reg <- ty)`, on the root of `reg`'s class. */
    method WriteType(reg: nat, ty: Prim) returns (ok: bool)
      requires Upward(types) && reg < |types|
      modifies this
      ensures ok == WriteRoot(old(types), reg, ty).Some?
      ensures ok ==> types == WriteRoot(old(types), reg, ty).value
    {
      var root := Root(reg);
      if types[root].Inf? {
        types := types[root := Concrete(ty)];
        ok := true;
      } else {
        ok := types[root] == Concrete(ty);
      }
    }

    /** `write_type!(a == b)`, on the roots of the two classes. */
    method Unify(a: nat, b: nat) returns (ok: bool)
      requires Upward(types) && a < |types| && b < |types|
      modifies this
      ensures ok == UnifyRoots(old(types), a, b).Some?
      ensures ok ==> types == UnifyRoots(old(types), a, b).value
    {
      var ra := Root(a);
      var rb := Root(b);
      ok := true;
      if ra == rb {
        return;
      }
      match (types[ra], types[rb])
      case (Inf(_), Inf(_)) =>
        if ra < rb {
          types := types[ra := Inf(rb)];
        } else {
          types := types[rb := Inf(ra)];
        }
      case (Inf(_), Concrete(_)) => types := types[ra := types[rb]];
      case (Concrete(_), Inf(_)) => types := types[rb := types[ra]];
      case (Concrete(x), Concrete(y)) => ok := x == y;
    }

    /** The `match *mir` of the first loop of `infer_types`. */
    method Apply(m: Mir) returns (ok: bool)
      requires Upward(types) && RegsIn(m, |types|)
      modifies this
      ensures ok == ClassRule(old(types), m).Some?
      ensures ok ==> types == ClassRule(old(types), m).value
    {
      match m
      case Jump(_) => ok := true;
      case Print(_) => ok := true;
      case BranchTrue(c, _) => ok := WriteType(c, BoolTy);
      case LoadImm(to, l) =>
        if l.Bool? {
          ok := WriteType(to, BoolTy);
        } else if l.U8? || l.U16? {
          ok := WriteType(to, I32Ty);
        } else {
          ok := false;
        }
      case LoadReg(to, from) => ok := Unify(to, from);
      case BinOp(op, out, l, r) =>
        ok := WriteType(out, if IsArith(op) then I32Ty else BoolTy);
        if !ok {
          return;
        }
        if IsArith(op) || IsOrdering(op) {
          ok := WriteType(l, I32Ty);
          if !ok {
            return;
          }
          ok := WriteType(r, I32Ty);
        } else {
          ok := Unify(l, r);
        }
    }

    /** The inner loop of the first loop: one block's instructions in order. */
    method ApplyBlock(code: seq<Mir>) returns (ok: bool)
      requires Upward(types) && forall k :: 0 <= k < |code| ==> RegsIn(code[k], |types|)
      modifies this
      ensures ok == ClassRulesCode(old(types), code).Some?
      ensures ok ==> types == ClassRulesCode(old(types), code).value
    {
      ghost var spec := ClassRulesCode(types, code);
      var k := 0;
      while k < |code|
        invariant 0 <= k <= |code| && Upward(types) && |types| == |old(types)|
        invariant ClassRulesCode(types, code[k..]) == spec
      {
        assert code[k..][0] == code[k] && code[k..][1..] == code[k + 1..];
        ok := Apply(code[k]);
        if !ok {
          return;
        }
        k := k + 1;
      }
      assert code[k..] == [];
      ok := true;
    }

    /** One pass of the second loop: each linked variable takes the entry of the variable it links to. */
    method Pass() returns (changed: bool)
      requires Closed(types)
      modifies this
      ensures (types, changed) == PassFrom(old(types), 0, false)
    {
      changed := false;
      var i := 0;
      while i < |types|
        invariant 0 <= i <= |types| == |old(types)| && Closed(types)
        invariant PassFrom(types, i, changed) == PassFrom(old(types), 0, false)
        decreases |types| - i
      {
        if types[i].Inf? {
          var other := types[i].idx;
          changed := changed || types[i] != types[other];
          types := types[i := types[other]];
        }
        i := i + 1;
      }
    }

    /** The first loop of `infer_types`: the rules of every block, in order. */
    method ApplyFrame(blocks: seq<seq<Mir>>) returns (ok: bool)
      requires Upward(types) && FrameRegsIn(blocks, |types|)
      modifies this
      ensures ok == ClassRulesFrame(old(types), blocks).Some?
      ensures ok ==> types == ClassRulesFrame(old(types), blocks).value
    {
      ghost var spec := ClassRulesFrame(types, blocks);
      var b := 0;
      while b < |blocks|
        invariant 0 <= b <= |blocks| && Upward(types) && |types| == |old(types)|
        invariant ClassRulesFrame(types, blocks[b..]) == spec
      {
        assert blocks[b..][0] == blocks[b] && blocks[b..][1..] == blocks[b + 1..];
        ok := ApplyBlock(blocks[b]);
        if !ok {
          return;
        }
        b := b + 1;
      }
      assert blocks[b..] == [];
      ok := true;
    }

    /** The second loop of `infer_types`: passes until one changes nothing, at most `passes` of them. */
    method Settle(passes: nat) returns (done: bool)
      requires Upward(types)
      modifies this
      ensures done == Fixpoint(old(types), passes).Some?
      ensures done ==> types == Fixpoint(old(types), passes).value
    {
      ghost var fix := Fixpoint(types, passes);
      var left := passes;
      while left > 0
        invariant Upward(types) && Fixpoint(types, left) == fix
      {
        UpwardClosed(types);
        PassKeepsVal(types, 0, false);
        var changed := Pass();
        if !changed {
          return true;
        }
        left := left - 1;
      }
      done := false;
    }
  }

  /** The final `map` over the variables, as a loop. */
  method ReadOut(t: seq<Infer>) returns (r: Verdict)
    ensures r == Finalize(t)
  {
    var tys := [];
    var i := 0;
    while i < |t|
      invariant 0 <= i <= |t| && Lift(tys) == t[..i]
    {
      if t[i].Inf? {
        assert !Finalize(t).Typed?;
        return Panicked;
      }
      assert Lift(tys + [t[i].p]) == t[..i + 1];
      tys := tys + [t[i].p];
      i := i + 1;
    }
    assert t[..i] == t;
    LiftInjective(Finalize(t).tys, tys);
    r := Typed(tys);
  }

  lemma LiftInjective(a: seq<Prim>, b: seq<Prim>)
    requires Lift(a) == Lift(b)
    ensures a == b
  {
    assert forall i :: 0 <= i < |a| ==> Lift(a)[i] == Concrete(a[i]) && Lift(b)[i] == Concrete(b[i]);
  }

  /**
    * `infer_types`, keeping the equations: the rules of every block in order, at most
    * `passes` passes of the second loop, then the read-out.
    */
  method InferTypes(n: nat, blocks: seq<seq<Mir>>, passes: nat) returns (r: Verdict)
    requires FrameRegsIn(blocks, n)
    ensures r == InferClasses(n, blocks, passes)
  {
    var vars := new InferenceVariables(n);
    var ok := vars.ApplyFrame(blocks);
    if !ok {
      return Rejected;
    }
    ok := vars.Settle(passes);
    if !ok {
      return Unfinished;
    }
    r := ReadOut(vars.types);
  }
}
