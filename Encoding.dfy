/**
  * The `Encoder` object of `impl-pass-mir/src/encode.rs`, whose methods update its fields
  * in place; each method is proved to do what the corresponding function of `Encode` says.
  */
module Encoding {
  import opened Wrappers
  import opened CoreMir
  import opened Encode

  /** How an `encode` call returns: with `Some` value or `None`, or by panicking. */
  datatype Exit<T> = Normal(val: Option<T>) | Panic

  function ExitOf<T>(o: Outcome<T>): Exit<T>
  {
    match o
    case Done(v, _) => Normal(Some(v))
    case Failed => Normal(None)
    case Panicked => Panic
  }

  /** A method run agrees with the model: the same exit and, on success, the same encoder state. */
  predicate Follows<T(==)>(o: Outcome<T>, r: Exit<T>, now: State)
  {
    r == ExitOf(o) && (o.Done? ==> now == o.st)
  }

  /** `Encoder`: its fields, updated in place by the `encode` implementations. */
  class Encoder {
    var blocks: seq<Block>
    var scopes: seq<ScopeEntry>
    var loopStack: seq<LoopEntry>
    var maxRegCount: nat
    var currentScope: nat
    var currentBlock: nat

    function View(): State
      reads this
    {
      State(blocks, scopes, loopStack, maxRegCount, currentScope, currentBlock)
    }

    /** The encoder `write` starts from: the default one, given a first block and the root scope. */
    constructor ()
      ensures View() == Initial()
    {
      blocks := [EmptyBlock()];
      scopes := [ScopeEntry(0, map[])];
      loopStack := [];
      maxRegCount := 0;
      currentScope := 0;
      currentBlock := 0;
    }

    /** `get`: walks `scopes()` from the current scope towards the root and stops at the first binding. */
    method Get(id: string) returns (r: Option<Reg>)
      requires Wf(View())
      ensures r == Encode.Get(View(), id)
    {
      var s: nat := currentScope;
      while id !in scopes[s].locals && s != 0
        invariant Wf(View()) && s < |scopes|
        invariant Lookup(scopes, s, id) == Lookup(scopes, currentScope, id)
        decreases s
      {
        s := scopes[s].parent;
      }
      if id in scopes[s].locals {
        r := Some(scopes[s].locals[id]);
      } else {
        r := None;
      }
    }

    method Insert(id: string) returns (reg: Reg)
      requires Wf(View())
      modifies this
      ensures (reg, View()) == Encode.Insert(old(View()), id)
    {
      reg := maxRegCount;
      var sc := scopes[currentScope];
      scopes := scopes[currentScope := sc.(locals := sc.locals[id := reg])];
      maxRegCount := maxRegCount + 1;
    }

    method Temp() returns (reg: Reg)
      requires Wf(View())
      modifies this
      ensures (reg, View()) == Encode.Temp(old(View()))
    {
      reg := maxRegCount;
      maxRegCount := maxRegCount + 1;
    }

    method NewBlock() returns (target: nat)
      requires Wf(View())
      modifies this
      ensures (target, View()) == Encode.NewBlock(old(View()))
    {
      target := |blocks|;
      blocks := blocks + [EmptyBlock()];
    }

    method OpenScope()
      requires Wf(View())
      modifies this
      ensures View() == Encode.OpenScope(old(View()))
    {
      var parent := currentScope;
      currentScope := |scopes|;
      scopes := scopes + [ScopeEntry(parent, map[])];
    }

    method CloseScope()
      requires Wf(View())
      modifies this
      ensures View() == Encode.CloseScope(old(View()))
    {
      currentScope := scopes[currentScope].parent;
    }

    /** Appends `m` to the current block. */
    method Push(m: Mir)
      requires Wf(View()) && InstrOk(m, maxRegCount, |blocks|, blocks[currentBlock].children)
      modifies this
      ensures View() == Emit(old(View()), m)
    {
      var b := blocks[currentBlock];
      blocks := blocks[currentBlock := b.(instructions := b.instructions + [m])];
    }

    method Jump(from: nat, to: nat)
      requires Wf(View()) && from < |blocks| && to < |blocks|
      modifies this
      ensures View() == JumpTo(old(View()), from, to)
    {
      blocks := blocks[from := blocks[from].(instructions := blocks[from].instructions + [Mir.Jump(to)])];
      blocks := blocks[to := blocks[to].(parents := blocks[to].parents + {from})];
      blocks := blocks[from := blocks[from].(children := blocks[from].children + {to})];
    }

    method Branch(cond: Reg, from: nat, to: nat)
      requires Wf(View()) && from < |blocks| && to < |blocks| && cond < maxRegCount
      modifies this
      ensures View() == BranchTo(old(View()), cond, from, to)
    {
      blocks := blocks[from := blocks[from].(instructions := blocks[from].instructions + [BranchTrue(cond, to)])];
      blocks := blocks[to := blocks[to].(parents := blocks[to].parents + {from})];
      blocks := blocks[from := blocks[from].(children := blocks[from].children + {to})];
    }

    /** `encode((Literal, Reg))`. */
    method EncodeLiteral(lit: Literal, to: Reg) returns (r: Exit<Reg>)
      requires Wf(View()) && to < maxRegCount
      modifies this
      ensures Follows(EncLiteral(old(View()), lit, to), r, View())
    {
      match lit
      case StrLit(_) => r := Panic;
      case FloatLit => r := Panic;
      case BoolLit(b) =>
        Push(LoadImm(to, Bool(b)));
        r := Normal(Some(to));
      case IntLit(x) =>
        var from;
        if x < Pow8 {
          from := U8(x);
        } else if x < Pow16 {
          from := U16(x);
        } else if x < Pow32 {
          from := U32(x);
        } else if x < Pow64 {
          from := U64(x);
        } else {
          from := U128(x);
        }
        Push(LoadImm(to, from));
        r := Normal(Some(to));
    }

    /** `encode((SimpleExpr, Reg))`. */
    method EncodeSimpleTo(e: SimpleExpr, to: Reg) returns (r: Exit<Reg>)
      requires Wf(View()) && to < maxRegCount
      modifies this
      ensures Follows(EncSimpleTo(old(View()), e, to), r, View())
    {
      match e
      case LiteralExpr(lit) => r := EncodeLiteral(lit, to);
      case IdentExpr(id) =>
        var from := Get(id);
        if from.None? {
          return Normal(None);
        }
        Push(LoadReg(to, from.value));
        r := Normal(Some(to));
    }

    /** `encode(SimpleExpr)`. */
    method EncodeSimple(e: SimpleExpr) returns (r: Exit<Reg>)
      requires Wf(View())
      modifies this
      ensures Follows(EncSimple(old(View()), e), r, View())
    {
      match e
      case LiteralExpr(lit) =>
        var to := Temp();
        r := EncodeLiteral(lit, to);
      case IdentExpr(id) =>
        var reg := Get(id);
        r := Normal(reg);
    }

    /** Calls a `to` closure. */
    method Call(to: Dest) returns (r: Exit<Reg>)
      requires Wf(View()) && (to.RegDest? ==> to.reg < maxRegCount)
      modifies this
      ensures Follows(CallDest(old(View()), to), r, View())
    {
      match to
      case TempDest =>
        var reg := Temp();
        r := Normal(Some(reg));
      case RegDest(reg) => r := Normal(Some(reg));
      case LetDest(pat) =>
        if pat.IdentPat? && pat.mode == Value {
          var reg := Insert(pat.name);
          r := Normal(Some(reg));
        } else {
          r := Panic;
        }
    }

    /** `encode((Expr, to))`. */
    method EncodeExpr(e: Expr, to: Dest) returns (r: Exit<Reg>)
      requires Wf(View()) && (to.RegDest? ==> to.reg < maxRegCount)
      modifies this
      ensures Follows(EncExpr(old(View()), e, to), r, View())
    {
      match e
      case Simple(s) =>
        var reg := Call(to);
        if reg.Panic? {
          return Panic;
        }
        r := EncodeSimpleTo(s, reg.val.value);
      case BinOpExpr(op, left, right) =>
        var l := EncodeSimple(left);
        if l.Panic? || l.val.None? {
          return l;
        }
        var rr := EncodeSimple(right);
        if rr.Panic? || rr.val.None? {
          return rr;
        }
        var mop := OpOf(op);
        if mop.None? {
          return Normal(None);
        }
        var out := Call(to);
        if out.Panic? {
          return Panic;
        }
        Push(BinOp(mop.value, out.val.value, l.val.value, rr.val.value));
        r := out;
      case _ => r := Panic;
    }

    /** `encode(Hir)`. */
    method EncodeHir(h: Hir) returns (r: Exit<()>)
      requires Wf(View())
      modifies this
      ensures Follows(EncHir(old(View()), h), r, View())
      decreases HirSize(h), 5
    {
      match h
      case Scope(inner) => r := EncodeScope(inner);
      case Loop(inner) => r := EncodeLoop(h);
      case ControlFlow(ty, lbl, val) =>
        if ty == Break {
          r := EncodeBreak(lbl, val);
        } else {
          r := Panic;
        }
      case Print(id) =>
        var reg := Get(id);
        if reg.None? {
          return Normal(None);
        }
        Push(CoreMir.Mir.Print(reg.value));
        r := Normal(Some(()));
      case Let(pat, value) =>
        var x := EncodeExpr(value, LetDest(pat));
        r := if x.Panic? then Panic else if x.val.None? then Normal(None) else Normal(Some(()));
      case Mut(pat, value) => r := EncodeMut(pat, value);
      case If(_, _, _) => r := EncodeIf(h);
    }

    /** `Hir::Loop`, with encoding resuming in the loop's `exit`. */
    method EncodeLoop(h: Hir) returns (r: Exit<()>)
      requires Wf(View()) && h.Loop?
      modifies this
      ensures Follows(EncLoop(old(View()), h), r, View())
      decreases HirSize(h), 4
    {
      var start, end, exit := OpenLoop();
      ghost var s6 := View();
      assert EncLoop(old(View()), h) == LoopRest(s6, EncScope(s6, h.body), end, exit);
      r := EncodeScope(h.body);
      if r.Panic? || r.val.None? {
        return;
      }
      CloseLoop(end, exit);
    }

    /** The end of `Hir::Loop`: the body's last block jumps to `end`, the loop is popped, encoding moves to `exit`. */
    method CloseLoop(end: nat, exit: nat)
      requires Wf(View()) && end < |blocks| && exit < |blocks| && loopStack != []
      modifies this
      ensures var s8 := JumpTo(old(View()), old(currentBlock), end);
        View() == s8.(loops := s8.loops[..|s8.loops| - 1], curBlock := exit)
    {
      Jump(currentBlock, end);
      loopStack := loopStack[..|loopStack| - 1];
      currentBlock := exit;
    }

    /** The start of `Hir::Loop`: three new blocks, the loop pushed, the jumps into `start`. */
    method OpenLoop() returns (start: nat, end: nat, exit: nat)
      requires Wf(View())
      modifies this
      ensures (start, end, exit, View()) == LoopOpen(old(View()))
    {
      start := NewBlock();
      end := NewBlock();
      exit := NewBlock();
      loopStack := loopStack + [LoopEntry(None, start, end, exit)];
      Jump(currentBlock, start);
      Jump(end, start);
      currentBlock := start;
    }

    /** `Hir::ControlFlow` with `Break`. */
    method EncodeBreak(lbl: Option<string>, val: Option<Expr>) returns (r: Exit<()>)
      requires Wf(View())
      modifies this
      ensures Follows(EncBreak(old(View()), lbl, val), r, View())
    {
      if lbl.Some? || val.Some? || loopStack == [] {
        return Panic;
      }
      Jump(currentBlock, loopStack[|loopStack| - 1].exit);
      r := Normal(Some(()));
    }

    /** `Hir::Mut`. */
    method EncodeMut(pat: Pattern, value: Expr) returns (r: Exit<()>)
      requires Wf(View())
      modifies this
      ensures Follows(EncMut(old(View()), pat, value), r, View())
    {
      if !pat.IdentPat? || pat.mode == Reference {
        return Panic;
      }
      var reg := Get(pat.name);
      if reg.None? {
        return Normal(None);
      }
      var x := EncodeExpr(value, RegDest(reg.value));
      r := if x.Panic? then Panic else if x.val.None? then Normal(None) else Normal(Some(()));
    }

    /** `Hir::If`. */
    method EncodeIf(h: Hir) returns (r: Exit<()>)
      requires Wf(View()) && h.If?
      modifies this
      ensures Follows(EncIf(old(View()), h), r, View())
      decreases HirSize(h), 4
    {
      var bbStart := NewBlock();
      var trailing := NewBlock();
      Jump(currentBlock, bbStart);
      currentBlock := bbStart;
      var first := NewBlock();
      BranchesSizeCons(h.ifBranch, h.elseIfs);
      var next := EncodeBranches([h.ifBranch] + h.elseIfs, first, bbStart, trailing);
      if next.Panic? || next.val.None? {
        return if next.Panic? then Panic else Normal(None);
      }
      r := EncodeElse(bbStart, next.val.value, trailing, h.elseBranch);
    }

    /** The end of `Hir::If`: `bb_start` jumps to the `else` block, which then jumps to `trailing`. */
    method EncodeElse(bbStart: nat, next: nat, trailing: nat, eb: ElseBranch) returns (r: Exit<()>)
      requires Wf(View()) && bbStart < |blocks| && next < |blocks| && trailing < |blocks|
      modifies this
      ensures Follows(EncIfElse(old(View()), bbStart, next, trailing, eb), r, View())
      decreases ElseSize(eb), 9
    {
      Jump(bbStart, next);
      currentBlock := next;
      if eb.Else? {
        r := EncodeScope(eb.body);
        if r.Panic? || r.val.None? {
          return;
        }
      }
      Jump(currentBlock, trailing);
      currentBlock := trailing;
      r := Normal(Some(()));
    }

    /** The `try_fold` over the `if` and `else if` branches. */
    method EncodeBranches(bs: seq<IfBranch>, first: nat, init: nat, trailing: nat) returns (r: Exit<nat>)
      requires Wf(View()) && first < |blocks| && init < |blocks| && trailing < |blocks|
      modifies this
      ensures Follows(EncBranches(old(View()), bs, first, init, trailing), r, View())
      decreases BranchesSize(bs), 3
    {
      ghost var spec := EncBranches(View(), bs, first, init, trailing);
      var acc: nat := first;
      var i := 0;
      while i < |bs|
        invariant 0 <= i <= |bs| && Wf(View())
        invariant acc < |blocks| && init < |blocks| && trailing < |blocks|
        invariant EncBranches(View(), bs[i..], acc, init, trailing) == spec
      {
        assert bs[i..][0] == bs[i] && bs[i..][1..] == bs[i + 1..];
        BranchSizeElem(bs, i);
        var next := EncodeBranch(bs[i], acc, init, trailing);
        if next.Panic? || next.val.None? {
          return if next.Panic? then Panic else Normal(None);
        }
        acc := next.val.value;
        i := i + 1;
      }
      assert bs[i..] == [];
      r := Normal(Some(acc));
    }

    /** One step of the fold: the condition into `init`, a branch to `acc`, the body, and the jump to `trailing`. */
    method EncodeBranch(b: IfBranch, acc: nat, init: nat, trailing: nat) returns (r: Exit<nat>)
      requires Wf(View()) && acc < |blocks| && init < |blocks| && trailing < |blocks|
      modifies this
      ensures Follows(EncBranch(old(View()), b, acc, init, trailing), r, View())
      decreases BranchSize(b), 2
    {
      var next := NewBlock();
      currentBlock := init;
      var cond := EncodeExpr(b.cond, TempDest);
      if cond.Panic? || cond.val.None? {
        return if cond.Panic? then Panic else Normal(None);
      }
      Branch(cond.val.value, currentBlock, acc);
      currentBlock := acc;
      var x := EncodeScope(b.branch);
      if x.Panic? || x.val.None? {
        return if x.Panic? then Panic else Normal(None);
      }
      Jump(currentBlock, trailing);
      r := Normal(Some(next));
    }

    /** `encode(Vec<Hir>)`. */
    method EncodeScope(hs: seq<Hir>) returns (r: Exit<()>)
      requires Wf(View())
      modifies this
      ensures Follows(EncScope(old(View()), hs), r, View())
      decreases SeqSize(hs), 7
    {
      OpenScope();
      r := EncodeIter(hs);
      if r.Panic? || r.val.None? {
        return;
      }
      CloseScope();
      r := Normal(Some(()));
    }

    /** `encode_iter`: `try_for_each` over the statements. */
    method EncodeIter(hs: seq<Hir>) returns (r: Exit<()>)
      requires Wf(View())
      modifies this
      ensures Follows(EncIter(old(View()), hs), r, View())
      decreases SeqSize(hs), 6
    {
      ghost var spec := EncIter(View(), hs);
      var i := 0;
      while i < |hs|
        invariant 0 <= i <= |hs| && Wf(View())
        invariant EncIter(View(), hs[i..]) == spec
      {
        assert hs[i..][0] == hs[i] && hs[i..][1..] == hs[i + 1..];
        SeqSizeElem(hs, i);
        r := EncodeHir(hs[i]);
        if r.Panic? || r.val.None? {
          return;
        }
        i := i + 1;
      }
      assert hs[i..] == [];
      r := Normal(Some(()));
    }
  }

  /** `write`: a fresh encoder runs `encode_iter` over the statements; its blocks and register count make the frame. */
  method WriteFrame(hs: seq<Hir>) returns (r: Exit<()>, e: Encoder)
    ensures fresh(e) && Follows(Write(hs), r, e.View())
  {
    e := new Encoder();
    r := e.EncodeIter(hs);
  }
}
