/**
  * The HIR to MIR encoder of `impl-pass-mir/src/encode.rs`: a chain of lexical scopes
  * mapping identifiers to registers, a register counter, a list of basic blocks with
  * parent and child edges, and a stack of enclosing loops. The HIR shapes are those of
  * `core-hir` without spans, which the encoder only prints in diagnostics.
  */
module Encode {
  import opened Wrappers
  import opened CoreMir
  import Tokens

  // ---------------------------------------------------------------- HIR shapes

  datatype BindingMode = Reference | Value

  /** `u128`. */
  type U128 = n: nat | n < Pow128

  /** A literal; a float's value is not modelled. */
  datatype Literal = StrLit(s: string) | IntLit(n: U128) | FloatLit | BoolLit(b: bool)

  datatype Pattern = LiteralPat(lit: Literal) | IdentPat(name: string, mode: BindingMode) | TuplePat(items: seq<Pattern>)

  datatype Operator = SymbolOp(sym: Tokens.Symbol) | KeywordOp(kw: Tokens.Keyword)

  datatype SimpleExpr = LiteralExpr(lit: Literal) | IdentExpr(name: string)

  /** An expression; a closure's body is not modelled, since encoding one is not implemented. */
  datatype Expr =
    | Simple(e: SimpleExpr)
    | PreOp(op: Operator, arg: SimpleExpr)
    | PostOp(op: Operator, arg: SimpleExpr)
    | BinOpExpr(op: Operator, left: SimpleExpr, right: SimpleExpr)
    | Func(param: string)
    | Tuple(items: seq<Pattern>)

  datatype ControlFlowType = Break | Continue

  datatype Hir =
    | Let(pat: Pattern, value: Expr)
    | If(ifBranch: IfBranch, elseIfs: seq<IfBranch>, elseBranch: ElseBranch)
    | Mut(pat: Pattern, value: Expr)
    | Print(id: string)
    | Scope(body: seq<Hir>)
    | Loop(body: seq<Hir>)
    | ControlFlow(ty: ControlFlowType, loopLabel: Option<string>, val: Option<Expr>)

  datatype IfBranch = IfBranch(cond: Expr, branch: seq<Hir>)

  /** The optional `else` scope. */
  datatype ElseBranch = NoElse | Else(body: seq<Hir>)

  function HirSize(h: Hir): (n: nat)
    ensures n >= 1
  {
    match h
    case If(ib, eis, eb) => 1 + BranchSize(ib) + BranchesSize(eis) + ElseSize(eb)
    case Scope(body) => 1 + SeqSize(body)
    case Loop(body) => 1 + SeqSize(body)
    case _ => 1
  }

  function ElseSize(eb: ElseBranch): nat
  {
    match eb
    case NoElse => 0
    case Else(b) => SeqSize(b)
  }

  function SeqSize(hs: seq<Hir>): nat
  {
    if hs == [] then 0 else HirSize(hs[0]) + SeqSize(hs[1..])
  }

  function BranchSize(b: IfBranch): (n: nat)
    ensures n >= 1
  {
    1 + SeqSize(b.branch)
  }

  function BranchesSize(bs: seq<IfBranch>): nat
  {
    if bs == [] then 0 else BranchSize(bs[0]) + BranchesSize(bs[1..])
  }

  lemma BranchesSizeCons(b: IfBranch, bs: seq<IfBranch>)
    ensures BranchesSize([b] + bs) == BranchSize(b) + BranchesSize(bs)
  {
    assert ([b] + bs)[1..] == bs;
  }

  // ---------------------------------------------------------------- encoder state

  datatype LoopEntry = LoopEntry(loopLabel: Option<string>, start: nat, end: nat, exit: nat)

  datatype ScopeEntry = ScopeEntry(parent: nat, locals: map<string, Reg>)

  /** The fields of `Encoder`. */
  datatype State = State(
    blocks: seq<Block>,
    scopes: seq<ScopeEntry>,
    loops: seq<LoopEntry>,
    maxReg: nat,
    curScope: nat,
    curBlock: nat)

  /** An instruction names only registers already handed out and blocks that exist, and transfers only to children of its block. */
  predicate InstrOk(m: Mir, maxReg: nat, n: nat, children: set<nat>)
  {
    match m
    case Jump(t) => t < n && t in children
    case BranchTrue(c, t) => c < maxReg && t < n && t in children
    case Print(r) => r < maxReg
    case LoadImm(to, l) => to < maxReg && LoadFits(l)
    case LoadReg(to, from) => to < maxReg && from < maxReg
    case BinOp(_, out, l, r) => out < maxReg && l < maxReg && r < maxReg
  }

  predicate BlockOk(bs: seq<Block>, i: nat, maxReg: nat)
    requires i < |bs|
  {
    && (forall k :: 0 <= k < |bs[i].instructions| ==> InstrOk(bs[i].instructions[k], maxReg, |bs|, bs[i].children))
    && (forall j :: j in bs[i].children ==> j < |bs| && i in bs[j].parents)
    && (forall j :: j in bs[i].parents ==> j < |bs| && i in bs[j].children)
  }

  /** Every block is well formed; in particular the parent and child relations are each other's converse. */
  predicate BlocksOk(bs: seq<Block>, maxReg: nat)
  {
    forall i :: 0 <= i < |bs| ==> BlockOk(bs, i, maxReg)
  }

  /** Scope 0 is the root; every other scope's parent was opened before it; bindings name handed-out registers. */
  predicate ScopesOk(ss: seq<ScopeEntry>, maxReg: nat)
  {
    && |ss| >= 1 && ss[0].parent == 0
    && (forall i :: 0 < i < |ss| ==> ss[i].parent < i)
    && forall i, id :: 0 <= i < |ss| && id in ss[i].locals ==> ss[i].locals[id] < maxReg
  }

  predicate LoopsOk(ls: seq<LoopEntry>, n: nat)
  {
    forall k :: 0 <= k < |ls| ==> ls[k].start < n && ls[k].end < n && ls[k].exit < n
  }

  predicate Wf(st: State)
  {
    && 1 <= |st.blocks|
    && st.curBlock < |st.blocks|
    && st.curScope < |st.scopes|
    && ScopesOk(st.scopes, st.maxReg)
    && BlocksOk(st.blocks, st.maxReg)
    && LoopsOk(st.loops, |st.blocks|)
  }

  /**
    * What every step keeps: blocks, scopes and registers are only ever added, scope
    * parents never change, and no register is taken back.
    */
  predicate Grows(a: State, b: State)
  {
    && |a.blocks| <= |b.blocks|
    && |a.scopes| <= |b.scopes|
    && a.maxReg <= b.maxReg
    && forall i :: 0 <= i < |a.scopes| ==> b.scopes[i].parent == a.scopes[i].parent
  }

  /** Only the blocks in `keep`, and blocks made since `a`, have had instructions added. */
  predicate Touches(a: State, b: State, keep: set<nat>)
  {
    forall i :: 0 <= i < |a.blocks| && i < |b.blocks| && i !in keep ==> b.blocks[i].instructions == a.blocks[i].instructions
  }

  /** Encoding carries on in the block it started in or in a block it made. */
  predicate Resumes(a: State, b: State)
  {
    b.curBlock == a.curBlock || b.curBlock >= |a.blocks|
  }

  /**
    * What encoding a statement keeps: the state stays well formed and only grows, the
    * current scope and the loop stack are as before, instructions are added only to the
    * current block and to new blocks, and encoding carries on in one of those.
    */
  predicate HirStep(a: State, b: State)
  {
    && Wf(b) && Grows(a, b)
    && b.curScope == a.curScope && b.loops == a.loops
    && Touches(a, b, {a.curBlock}) && Resumes(a, b)
  }

  lemma TouchesTrans(a: State, b: State, c: State, k1: set<nat>, k2: set<nat>)
    requires |a.blocks| <= |b.blocks| && Touches(a, b, k1) && Touches(b, c, k2)
    ensures Touches(a, c, k1 + k2)
  {
  }

  /** Blocks made after `a` need not be kept out. */
  lemma TouchesNew(a: State, b: State, k1: set<nat>, k2: set<nat>)
    requires Touches(a, b, k1) && forall k :: k in k1 && k !in k2 ==> |a.blocks| <= k
    ensures Touches(a, b, k2)
  {
  }

  lemma GrowsTrans(a: State, b: State, c: State)
    requires Grows(a, b) && Grows(b, c)
    ensures Grows(a, c)
  {
  }

  /** `write`'s encoder: one empty block, the root scope, no loop, no register. */
  function Initial(): (st: State)
    ensures Wf(st)
  {
    State([EmptyBlock()], [ScopeEntry(0, map[])], [], 0, 0, 0)
  }

  // ---------------------------------------------------------------- scope lookups

  /** `scopes` and `get`: the binding of `id` in scope `s` or, failing that, on its parent chain down to scope 0. */
  function Lookup(ss: seq<ScopeEntry>, s: nat, id: string): Option<Reg>
    requires s < |ss| && forall i :: 0 < i < |ss| ==> ss[i].parent < i
    decreases s
  {
    if id in ss[s].locals then Some(ss[s].locals[id])
    else if s == 0 then None
    else Lookup(ss, ss[s].parent, id)
  }

  /** The scopes `scopes()` visits, innermost first. */
  function Chain(ss: seq<ScopeEntry>, s: nat): (c: seq<nat>)
    requires s < |ss| && forall i :: 0 < i < |ss| ==> ss[i].parent < i
    ensures c != [] && c[0] == s && c[|c| - 1] == 0
    ensures forall k :: 0 <= k < |c| ==> c[k] < |ss|
    decreases s
  {
    if s == 0 then [0] else [s] + Chain(ss, ss[s].parent)
  }

  /** Scope `c[k]` binds `id` and no scope before it on the chain `c` does. */
  predicate FirstBinding(ss: seq<ScopeEntry>, c: seq<nat>, k: nat, id: string)
    requires forall j :: 0 <= j < |c| ==> c[j] < |ss|
  {
    && k < |c| && id in ss[c[k]].locals
    && forall k' :: 0 <= k' < k ==> id !in ss[c[k']].locals
  }

  /**
    * `get` finds the innermost binding: the result is the binding in the first scope of
    * the chain that binds `id`, and nothing when no scope on the chain binds it.
    */
  /** No scope on the chain `c` binds `id`. */
  predicate Unbound(ss: seq<ScopeEntry>, c: seq<nat>, id: string)
    requires forall j :: 0 <= j < |c| ==> c[j] < |ss|
  {
    forall k :: 0 <= k < |c| ==> id !in ss[c[k]].locals
  }

  lemma {:induction false} LookupInnermost(ss: seq<ScopeEntry>, s: nat, id: string)
    requires s < |ss| && forall i :: 0 < i < |ss| ==> ss[i].parent < i
    ensures Lookup(ss, s, id).None? <==> Unbound(ss, Chain(ss, s), id)
    ensures Lookup(ss, s, id).Some? ==>
      exists k: nat :: FirstBinding(ss, Chain(ss, s), k, id) && Lookup(ss, s, id).value == ss[Chain(ss, s)[k]].locals[id]
    decreases s
  {
    var c := Chain(ss, s);
    if id in ss[s].locals {
      assert c[0] == s && id in ss[c[0]].locals;
      assert FirstBinding(ss, c, 0, id);
    } else if s == 0 {
      assert c == [0];
    } else {
      var p := ss[s].parent;
      LookupInnermost(ss, p, id);
      var c' := Chain(ss, p);
      assert c == [s] + c';
      assert Lookup(ss, s, id) == Lookup(ss, p, id);
      if Lookup(ss, s, id).Some? {
        var k: nat :| FirstBinding(ss, c', k, id) && Lookup(ss, p, id).value == ss[c'[k]].locals[id];
        assert c[k + 1] == c'[k];
        forall k' | 0 <= k' < k + 1
          ensures id !in ss[c[k']].locals
        {
          if k' > 0 {
            assert c[k'] == c'[k' - 1];
          }
        }
        assert FirstBinding(ss, c, k + 1, id);
      } else {
        assert Unbound(ss, c', id);
        forall k | 0 <= k < |c|
          ensures id !in ss[c[k]].locals
        {
          if k > 0 {
            assert c[k] == c'[k - 1];
          }
        }
      }
    }
  }

  function Get(st: State, id: string): (r: Option<Reg>)
    requires Wf(st)
    ensures r.Some? ==> r.value < st.maxReg
  {
    GetBelow(st.scopes, st.curScope, id, st.maxReg);
    Lookup(st.scopes, st.curScope, id)
  }

  lemma {:induction false} GetBelow(ss: seq<ScopeEntry>, s: nat, id: string, maxReg: nat)
    requires s < |ss| && ScopesOk(ss, maxReg)
    ensures Lookup(ss, s, id).Some? ==> Lookup(ss, s, id).value < maxReg
    decreases s
  {
    if id !in ss[s].locals && s != 0 {
      GetBelow(ss, ss[s].parent, id, maxReg);
    }
  }

  // ---------------------------------------------------------------- registers, blocks, scopes

  /** `insert`: binds `id` in the current scope to a fresh register. */
  function Insert(st: State, id: string): (r: (Reg, State))
    requires Wf(st)
    ensures Wf(r.1) && Grows(st, r.1) && r.1.blocks == st.blocks && r.1.curBlock == st.curBlock && r.1.loops == st.loops
    ensures r.0 == st.maxReg && r.1.maxReg == st.maxReg + 1
  {
    var reg := st.maxReg;
    var sc := st.scopes[st.curScope];
    var st1 := st.(scopes := st.scopes[st.curScope := sc.(locals := sc.locals[id := reg])], maxReg := st.maxReg + 1);
    assert BlocksOk(st1.blocks, st1.maxReg) by {
      forall i | 0 <= i < |st1.blocks|
        ensures BlockOk(st1.blocks, i, st1.maxReg)
      {
        assert BlockOk(st.blocks, i, st.maxReg);
      }
    }
    (reg, st1)
  }

  /** `temp`: a fresh register bound to nothing. */
  function Temp(st: State): (r: (Reg, State))
    requires Wf(st)
    ensures Wf(r.1) && Grows(st, r.1) && r.1 == st.(maxReg := st.maxReg + 1)
    ensures r.0 == st.maxReg
  {
    var st1 := st.(maxReg := st.maxReg + 1);
    assert BlocksOk(st1.blocks, st1.maxReg) by {
      forall i | 0 <= i < |st1.blocks|
        ensures BlockOk(st1.blocks, i, st1.maxReg)
      {
        assert BlockOk(st.blocks, i, st.maxReg);
      }
    }
    (st.maxReg, st1)
  }

  /** `new_block`: appends a block with no instructions and no edges and returns its index. */
  function NewBlock(st: State): (r: (nat, State))
    requires Wf(st)
    ensures Wf(r.1) && Grows(st, r.1) && r.1 == st.(blocks := st.blocks + [EmptyBlock()])
    ensures r.0 == |st.blocks|
  {
    var st1 := st.(blocks := st.blocks + [EmptyBlock()]);
    assert BlocksOk(st1.blocks, st1.maxReg) by {
      forall i | 0 <= i < |st1.blocks|
        ensures BlockOk(st1.blocks, i, st1.maxReg)
      {
        if i < |st.blocks| {
          assert BlockOk(st.blocks, i, st.maxReg);
          assert st1.blocks[i] == st.blocks[i];
        }
      }
    }
    (|st.blocks|, st1)
  }

  /** `open_scope`: a new empty scope whose parent is the current one becomes current. */
  function OpenScope(st: State): (r: State)
    requires Wf(st)
    ensures Wf(r) && Grows(st, r)
  {
    st.(scopes := st.scopes + [ScopeEntry(st.curScope, map[])], curScope := |st.scopes|)
  }

  /** `close_scope`: the current scope's parent becomes current. */
  function CloseScope(st: State): (r: State)
    requires Wf(st)
    ensures Wf(r) && Grows(st, r)
  {
    st.(curScope := st.scopes[st.curScope].parent)
  }

  /** Appends `m` to the current block. */
  function Emit(st: State, m: Mir): (r: State)
    requires Wf(st) && InstrOk(m, st.maxReg, |st.blocks|, st.blocks[st.curBlock].children)
    ensures Wf(r) && Grows(st, r) && r.curBlock == st.curBlock && Touches(st, r, {st.curBlock})
    ensures r == st.(blocks := r.blocks) && |r.blocks| == |st.blocks|
    ensures r.blocks[st.curBlock].instructions == st.blocks[st.curBlock].instructions + [m]
  {
    var b := st.blocks[st.curBlock];
    var st1 := st.(blocks := st.blocks[st.curBlock := b.(instructions := b.instructions + [m])]);
    assert BlocksOk(st1.blocks, st1.maxReg) by {
      forall i | 0 <= i < |st1.blocks|
        ensures BlockOk(st1.blocks, i, st1.maxReg)
      {
        assert BlockOk(st.blocks, i, st.maxReg);
      }
    }
    st1
  }

  /** Adds the edge `from -> to`: appends `m` to `from`, `from` to `to`'s parents and `to` to `from`'s children. */
  function Edge(st: State, from: nat, to: nat, m: Mir): (r: State)
    requires Wf(st) && from < |st.blocks| && to < |st.blocks|
    requires TargetsOf(m) == {to} && InstrOk(m, st.maxReg, |st.blocks|, st.blocks[from].children + {to})
    ensures Wf(r) && Grows(st, r) && r.curBlock == st.curBlock && Touches(st, r, {from})
    ensures r == st.(blocks := r.blocks) && |r.blocks| == |st.blocks|
    ensures r.blocks[from].instructions == st.blocks[from].instructions + [m]
    ensures to in r.blocks[from].children && from in r.blocks[to].parents
  {
    var bs := st.blocks;
    var b1 := bs[from := bs[from].(instructions := bs[from].instructions + [m])];
    var b2 := b1[to := b1[to].(parents := b1[to].parents + {from})];
    var b3 := b2[from := b2[from].(children := b2[from].children + {to})];
    EdgeKeepsBlocks(bs, from, to, m, st.maxReg);
    st.(blocks := b3)
  }

  lemma EdgeKeepsBlocks(bs: seq<Block>, from: nat, to: nat, m: Mir, maxReg: nat)
    requires BlocksOk(bs, maxReg) && from < |bs| && to < |bs|
    requires TargetsOf(m) == {to} && InstrOk(m, maxReg, |bs|, bs[from].children + {to})
    ensures var b1 := bs[from := bs[from].(instructions := bs[from].instructions + [m])];
      var b2 := b1[to := b1[to].(parents := b1[to].parents + {from})];
      var b3 := b2[from := b2[from].(children := b2[from].children + {to})];
      BlocksOk(b3, maxReg)
  {
    var b1 := bs[from := bs[from].(instructions := bs[from].instructions + [m])];
    var b2 := b1[to := b1[to].(parents := b1[to].parents + {from})];
    var b3 := b2[from := b2[from].(children := b2[from].children + {to})];
    assert b3[from].instructions == bs[from].instructions + [m];
    assert b3[from].children == bs[from].children + {to};
    assert b3[to].parents == bs[to].parents + {from};
    forall i | 0 <= i < |b3|
      ensures BlockOk(b3, i, maxReg)
    {
      assert BlockOk(bs, i, maxReg);
      assert b3[i].instructions == if i == from then bs[i].instructions + [m] else bs[i].instructions;
      assert b3[i].children == if i == from then bs[i].children + {to} else bs[i].children;
      assert b3[i].parents == if i == to then bs[i].parents + {from} else bs[i].parents;
      forall k | 0 <= k < |b3[i].instructions|
        ensures InstrOk(b3[i].instructions[k], maxReg, |b3|, b3[i].children)
      {
        if i == from && k == |bs[i].instructions| {
        } else {
          assert b3[i].instructions[k] == bs[i].instructions[k];
          InstrOkWider(bs[i].instructions[k], maxReg, |bs|, bs[i].children, b3[i].children);
        }
      }
    }
  }

  lemma InstrOkWider(m: Mir, maxReg: nat, n: nat, c: set<nat>, c': set<nat>)
    requires InstrOk(m, maxReg, n, c) && c <= c'
    ensures InstrOk(m, maxReg, n, c')
  {
  }

  /** `jump`. */
  function JumpTo(st: State, from: nat, to: nat): (r: State)
    requires Wf(st) && from < |st.blocks| && to < |st.blocks|
    ensures Wf(r) && Grows(st, r) && r.curBlock == st.curBlock && Touches(st, r, {from})
    ensures r == st.(blocks := r.blocks) && |r.blocks| == |st.blocks|
    ensures r.blocks[from].instructions == st.blocks[from].instructions + [Jump(to)]
    ensures to in r.blocks[from].children && from in r.blocks[to].parents
  {
    Edge(st, from, to, Jump(to))
  }

  /** `branch`. */
  function BranchTo(st: State, cond: Reg, from: nat, to: nat): (r: State)
    requires Wf(st) && from < |st.blocks| && to < |st.blocks| && cond < st.maxReg
    ensures Wf(r) && Grows(st, r) && r.curBlock == st.curBlock && Touches(st, r, {from})
    ensures r == st.(blocks := r.blocks) && |r.blocks| == |st.blocks|
    ensures r.blocks[from].instructions == st.blocks[from].instructions + [BranchTrue(cond, to)]
    ensures to in r.blocks[from].children && from in r.blocks[to].parents
  {
    Edge(st, from, to, BranchTrue(cond, to))
  }

  // ---------------------------------------------------------------- what the primitives promise

  /** A binding made in one scope is not seen for another identifier, from any scope. */
  lemma {:induction false} LookupOtherId(ss: seq<ScopeEntry>, ss': seq<ScopeEntry>, c: nat, s: nat, id: string, reg: Reg, other: string)
    requires c < |ss| && s < |ss| && forall i :: 0 < i < |ss| ==> ss[i].parent < i
    requires ss' == ss[c := ss[c].(locals := ss[c].locals[id := reg])] && other != id
    ensures forall i :: 0 < i < |ss'| ==> ss'[i].parent < i
    ensures Lookup(ss', s, other) == Lookup(ss, s, other)
    decreases s
  {
    assert forall i :: 0 <= i < |ss| ==> ss'[i].parent == ss[i].parent;
    if other !in ss[s].locals && s != 0 {
      LookupOtherId(ss, ss', c, ss[s].parent, id, reg, other);
    }
  }

  /** Adding a scope changes no lookup from the scopes already there. */
  lemma {:induction false} LookupAppend(ss: seq<ScopeEntry>, e: ScopeEntry, s: nat, id: string)
    requires s < |ss| && (forall i :: 0 < i < |ss| ==> ss[i].parent < i) && e.parent < |ss|
    ensures forall i :: 0 < i < |ss + [e]| ==> (ss + [e])[i].parent < i
    ensures Lookup(ss + [e], s, id) == Lookup(ss, s, id)
    decreases s
  {
    if id !in ss[s].locals && s != 0 {
      LookupAppend(ss, e, ss[s].parent, id);
    }
  }

  /** `insert` then `get` of the same identifier yields the register handed out, shadowing any outer binding. */
  lemma InsertThenGet(st: State, id: string)
    requires Wf(st)
    ensures var (reg, st1) := Insert(st, id); Get(st1, id) == Some(reg)
  {
  }

  /** `insert` leaves the binding of every other identifier as it was. */
  lemma InsertKeepsOthers(st: State, id: string, other: string)
    requires Wf(st) && other != id
    ensures Get(Insert(st, id).1, other) == Get(st, other)
  {
    var sc := st.scopes[st.curScope];
    LookupOtherId(st.scopes, Insert(st, id).1.scopes, st.curScope, st.curScope, id, st.maxReg, other);
  }

  /** The register `temp` hands out is bound to no identifier, and no binding changes. */
  lemma TempIsFresh(st: State, id: string)
    requires Wf(st)
    ensures var (reg, st1) := Temp(st); Get(st1, id) == Get(st, id) && Get(st1, id) != Some(reg)
  {
  }

  /** Opening a scope hides nothing: every identifier resolves as before. */
  lemma OpenScopeKeepsGet(st: State, id: string)
    requires Wf(st)
    ensures Get(OpenScope(st), id) == Get(st, id)
  {
    var st1 := OpenScope(st);
    LookupAppend(st.scopes, ScopeEntry(st.curScope, map[]), st.curScope, id);
  }

  /**
    * A binding made inside a scope is gone once the scope is closed: after opening a
    * scope, binding `id` in it and closing it, `id` resolves as it did before.
    */
  lemma ScopedBindingVanishes(st: State, id: string, other: string)
    requires Wf(st)
    ensures var st1 := CloseScope(Insert(OpenScope(st), id).1);
      st1.curScope == st.curScope && Get(st1, other) == Get(st, other)
  {
    var s1 := OpenScope(st);
    var s2 := Insert(s1, id).1;
    var e := ScopeEntry(st.curScope, map[id := st.maxReg]);
    assert s2.scopes == st.scopes + [e];
    LookupAppend(st.scopes, e, st.curScope, other);
  }

  /**
    * A `break` with no label and no value adds a jump from the current block to the
    * innermost loop's `exit` and nothing else; any other `break` panics, as does one outside every loop.
    */
  lemma BreakJumpsToExit(st: State, lbl: Option<string>, val: Option<Expr>)
    requires Wf(st)
    ensures EncBreak(st, lbl, val).Panicked? <==> lbl.Some? || val.Some? || st.loops == []
    ensures var r := EncBreak(st, lbl, val);
      r.Done? ==>
        var exit := st.loops[|st.loops| - 1].exit;
        && r.st.blocks[st.curBlock].instructions == st.blocks[st.curBlock].instructions + [Jump(exit)]
        && exit in r.st.blocks[st.curBlock].children && st.curBlock in r.st.blocks[exit].parents
  {
  }

  // ---------------------------------------------------------------- encoding

  /** What an encoding step ends in: its value and the new state, `None` returned, or a panic. */
  datatype Outcome<T> = Done(value: T, st: State) | Failed | Panicked

  /** The `to` closures: a fresh temporary, the register a `let` pattern binds, or a given register. */
  datatype Dest = TempDest | LetDest(pat: Pattern) | RegDest(reg: Reg)

  /** Calls a `to` closure. The `let` closure panics on every pattern but an identifier bound by value. */
  function CallDest(st: State, to: Dest): (r: Outcome<Reg>)
    requires Wf(st) && (to.RegDest? ==> to.reg < st.maxReg)
    ensures r.Done? ==> Wf(r.st) && Grows(st, r.st) && r.value < r.st.maxReg
    ensures r.Done? ==> r.st.blocks == st.blocks && r.st.curBlock == st.curBlock && r.st.curScope == st.curScope && r.st.loops == st.loops
    ensures r.Failed? ==> false
  {
    match to
    case TempDest => var (reg, st1) := Temp(st); Done(reg, st1)
    case RegDest(reg) => Done(reg, st)
    case LetDest(pat) =>
      if pat.IdentPat? && pat.mode == Value then var (reg, st1) := Insert(st, pat.name); Done(reg, st1)
      else Panicked
  }

  /** The immediate an integer literal loads as: the narrowest of the five widths that holds it. */
  function IntWidth(x: U128): (l: Load)
    ensures LoadFits(l) && !l.Bool? && l.v == x
  {
    if x < Pow8 then U8(x)
    else if x < Pow16 then U16(x)
    else if x < Pow32 then U32(x)
    else if x < Pow64 then U64(x)
    else U128(x)
  }

  /** The width chosen is the smallest one that holds the value. */
  lemma IntWidthSmallest(x: U128)
    ensures IntWidth(x).U8? <==> x < Pow8
    ensures IntWidth(x).U16? <==> Pow8 <= x < Pow16
    ensures IntWidth(x).U32? <==> Pow16 <= x < Pow32
    ensures IntWidth(x).U64? <==> Pow32 <= x < Pow64
    ensures IntWidth(x).U128? <==> Pow64 <= x
  {
  }

  /** `encode((Literal, Reg))`: loads the literal into `to`; string and float literals are not implemented. */
  function EncLiteral(st: State, lit: Literal, to: Reg): (r: Outcome<Reg>)
    requires Wf(st) && to < st.maxReg
    ensures r.Done? ==> Wf(r.st) && Grows(st, r.st) && r.value == to
    ensures r.Done? ==> r.st.curBlock == st.curBlock && Touches(st, r.st, {st.curBlock}) && r.st.curScope == st.curScope && r.st.loops == st.loops
    ensures r.Failed? ==> false
  {
    match lit
    case StrLit(_) => Panicked
    case FloatLit => Panicked
    case BoolLit(b) => Done(to, Emit(st, LoadImm(to, Bool(b))))
    case IntLit(x) => Done(to, Emit(st, LoadImm(to, IntWidth(x))))
  }

  /** `encode((SimpleExpr, Reg))`: a literal is loaded into `to`, a variable copied into it. */
  function EncSimpleTo(st: State, e: SimpleExpr, to: Reg): (r: Outcome<Reg>)
    requires Wf(st) && to < st.maxReg
    ensures r.Done? ==> Wf(r.st) && Grows(st, r.st) && r.value == to
    ensures r.Done? ==> r.st.curBlock == st.curBlock && Touches(st, r.st, {st.curBlock}) && r.st.curScope == st.curScope && r.st.loops == st.loops
  {
    match e
    case LiteralExpr(lit) => EncLiteral(st, lit, to)
    case IdentExpr(id) =>
      match Get(st, id)
      case Some(from) => Done(to, Emit(st, LoadReg(to, from)))
      case None => Failed
  }

  /** `encode(SimpleExpr)`: a literal is loaded into a fresh temporary, a variable is its own register. */
  function EncSimple(st: State, e: SimpleExpr): (r: Outcome<Reg>)
    requires Wf(st)
    ensures r.Done? ==> Wf(r.st) && Grows(st, r.st) && r.value < r.st.maxReg
    ensures r.Done? ==> r.st.curBlock == st.curBlock && Touches(st, r.st, {st.curBlock}) && r.st.curScope == st.curScope && r.st.loops == st.loops
  {
    match e
    case LiteralExpr(lit) => var (to, st1) := Temp(st); EncLiteral(st1, lit, to)
    case IdentExpr(id) =>
      match Get(st, id)
      case Some(reg) => Done(reg, st)
      case None => Failed
  }

  /** The MIR operator of a HIR operator; keywords and other symbols have none. */
  function OpOf(op: Operator): Option<BinOpType>
  {
    match op
    case KeywordOp(_) => None
    case SymbolOp(s) =>
      match s
      case Add => Some(BinOpType.Add)
      case Sub => Some(BinOpType.Sub)
      case Mul => Some(BinOpType.Mul)
      case Div => Some(BinOpType.Div)
      case Equal => Some(BinOpType.Equal)
      case NotEqual => Some(BinOpType.NotEqual)
      case GreaterEqual => Some(GreaterThanOrEqual)
      case LessEqual => Some(LessThanOrEqual)
      case Greater => Some(GreaterThan)
      case Less => Some(LessThan)
      case _ => None
  }

  /**
    * `encode((Expr, to))`: a simple expression is written into the closure's register; a
    * binary operation encodes both operands, maps the operator, then asks the closure for
    * the output register.
    */
  function EncExpr(st: State, e: Expr, to: Dest): (r: Outcome<Reg>)
    requires Wf(st) && (to.RegDest? ==> to.reg < st.maxReg)
    ensures r.Done? ==> Wf(r.st) && Grows(st, r.st) && r.value < r.st.maxReg
    ensures r.Done? ==> r.st.curBlock == st.curBlock && Touches(st, r.st, {st.curBlock}) && r.st.curScope == st.curScope && r.st.loops == st.loops
  {
    match e
    case Simple(s) =>
      (match CallDest(st, to)
       case Done(reg, st1) => EncSimpleTo(st1, s, reg)
       case _ => Panicked)
    case BinOpExpr(op, left, right) =>
      (match EncSimple(st, left)
       case Done(l, st1) =>
         (match EncSimple(st1, right)
          case Done(rr, st2) =>
            (match OpOf(op)
             case None => Failed
             case Some(mop) =>
               (match CallDest(st2, to)
                case Done(out, st3) => Done(out, Emit(st3, BinOp(mop, out, l, rr)))
                case _ => Panicked))
          case Failed => Failed
          case Panicked => Panicked)
       case Failed => Failed
       case Panicked => Panicked)
    case _ => Panicked
  }

  /** `encode(Hir)`. */
  function EncHir(st: State, h: Hir): (r: Outcome<()>)
    requires Wf(st)
    ensures r.Done? ==> HirStep(st, r.st)
    decreases HirSize(h), 5
  {
    match h
    case Scope(inner) => EncScope(st, inner)
    case Loop(inner) => EncLoop(st, h)
    case ControlFlow(ty, lbl, val) => if ty == Break then EncBreak(st, lbl, val) else Panicked
    case Print(id) =>
      (match Get(st, id)
       case Some(reg) => Done((), Emit(st, CoreMir.Mir.Print(reg)))
       case None => Failed)
    case Let(pat, value) =>
      (match EncExpr(st, value, LetDest(pat))
       case Done(_, st1) => Done((), st1)
       case Failed => Failed
       case Panicked => Panicked)
    case Mut(pat, value) => EncMut(st, pat, value)
    case If(_, _, _) => EncIf(st, h)
  }

  /**
    * The start of `Hir::Loop`: blocks `start`, `end` and `exit` are made, the loop is
    * pushed, the current block and `end` jump to `start`, and encoding moves to `start`.
    */
  function LoopOpen(st: State): (r: (nat, nat, nat, State))
    requires Wf(st)
    ensures var (start, end, exit, s) := r;
      && start == |st.blocks| && end == start + 1 && exit == start + 2 && |s.blocks| == exit + 1
      && Wf(s) && Grows(st, s) && Touches(st, s, {st.curBlock})
      && s.curScope == st.curScope && s.curBlock == start
      && s.loops == st.loops + [LoopEntry(None, start, end, exit)]
      && s.blocks[st.curBlock].instructions == st.blocks[st.curBlock].instructions + [Jump(start)]
      && s.blocks[start].instructions == [] && s.blocks[end].instructions == [Jump(start)]
      && s.blocks[exit].instructions == []
  {
    var (start, s1) := NewBlock(st);
    var (end, s2) := NewBlock(s1);
    var (exit, s3) := NewBlock(s2);
    var s4 := s3.(loops := s3.loops + [LoopEntry(None, start, end, exit)]);
    var s5 := JumpTo(s4, s4.curBlock, start);
    var s6 := JumpTo(s5, end, start).(curBlock := start);
    (start, end, exit, s6)
  }

  /**
    * `Hir::Loop`: the body is encoded from `start`, its last block jumps to `end`, the
    * loop is popped, and encoding carries on in `exit`, where a `break` lands.
    */
  function EncLoop(st: State, h: Hir): (r: Outcome<()>)
    requires Wf(st) && h.Loop?
    ensures r.Done? ==> HirStep(st, r.st)
    decreases HirSize(h), 4
  {
    var (start, end, exit, s6) := LoopOpen(st);
    LoopRest(s6, EncScope(s6, h.body), end, exit)
  }

  /** After the body of `Hir::Loop`: its last block jumps to `end`, the loop is popped, and encoding moves to `exit`. */
  function LoopRest(s6: State, body: Outcome<()>, end: nat, exit: nat): (r: Outcome<()>)
    requires Wf(s6) && end < |s6.blocks| && exit < |s6.blocks| && s6.loops != []
    requires body.Done? ==> HirStep(s6, body.st)
    ensures r.Done? <==> body.Done?
    ensures r.Done? ==> Wf(r.st) && Grows(s6, r.st) && r.st.curScope == s6.curScope
    ensures r.Done? ==> r.st.loops == s6.loops[..|s6.loops| - 1] && r.st.curBlock == exit
    ensures r.Done? ==> Touches(s6, r.st, {s6.curBlock, body.st.curBlock})
  {
    match body
    case Done(_, s7) =>
      var s8 := JumpTo(s7, s7.curBlock, end);
      Done((), s8.(loops := s8.loops[..|s8.loops| - 1], curBlock := exit))
    case Failed => Failed
    case Panicked => Panicked
  }

  /**
    * `Hir::Loop` as written: the same blocks and jumps, but encoding is left in the body's
    * last block, after its jump to `end`, instead of moving to `exit`.
    */
  function EncLoopAsWritten(st: State, h: Hir): (r: Outcome<()>)
    requires Wf(st) && h.Loop?
    ensures r.Done? ==> Wf(r.st) && Grows(st, r.st) && r.st.loops == st.loops
  {
    var (start, end, exit, s6) := LoopOpen(st);
    match EncScope(s6, h.body)
    case Done(_, s7) =>
      var s8 := JumpTo(s7, s7.curBlock, end);
      Done((), s8.(loops := s8.loops[..|s8.loops| - 1]))
    case Failed => Failed
    case Panicked => Panicked
  }

  /**
    * As written, the block a loop leaves current already ends in a jump back to the
    * loop, so whatever follows the loop is never reached; and encoding is not in `exit`,
    * which is still empty, so a `break` lands in a block with no instructions.
    */
  lemma LoopAsWrittenStrandsCode(st: State, h: Hir)
    requires Wf(st) && h.Loop?
    ensures var r := EncLoopAsWritten(st, h);
      r.Done? ==>
        var ins := r.st.blocks[r.st.curBlock].instructions;
        && |ins| >= 1 && ins[|ins| - 1] == Jump(|st.blocks| + 1)
        && |st.blocks| + 2 < |r.st.blocks| && r.st.curBlock != |st.blocks| + 2
        && r.st.blocks[|st.blocks| + 2].instructions == []
  {
    var (start, end, exit, s6) := LoopOpen(st);
    var r6 := EncScope(s6, h.body);
    if r6.Done? {
      var s7 := r6.st;
      assert s7.blocks[exit].instructions == [];
      assert s7.curBlock != exit;
    }
  }

  /**
    * With the fix, encoding resumes in the loop's `exit`, which is still empty and is the
    * block every `break` in the body jumps to.
    */
  lemma LoopResumesAtExit(st: State, h: Hir)
    requires Wf(st) && h.Loop?
    ensures var r := EncLoop(st, h);
      r.Done? ==> r.st.curBlock == |st.blocks| + 2 && r.st.blocks[r.st.curBlock].instructions == []
  {
    var (start, end, exit, s6) := LoopOpen(st);
    var r6 := EncScope(s6, h.body);
    if r6.Done? {
      var s7 := r6.st;
      assert s7.blocks[exit].instructions == [];
    }
  }

  /** `Hir::ControlFlow` with `Break`: a jump to the innermost loop's `exit`; a label, a value or no enclosing loop panics. */
  function EncBreak(st: State, lbl: Option<string>, val: Option<Expr>): (r: Outcome<()>)
    requires Wf(st)
    ensures r.Done? ==> HirStep(st, r.st)
  {
    if lbl.Some? || val.Some? || st.loops == [] then Panicked
    else Done((), JumpTo(st, st.curBlock, st.loops[|st.loops| - 1].exit))
  }

  /** `Hir::Mut`: the value is written into the register the identifier is bound to. */
  function EncMut(st: State, pat: Pattern, value: Expr): (r: Outcome<()>)
    requires Wf(st)
    ensures r.Done? ==> HirStep(st, r.st)
  {
    if !pat.IdentPat? || pat.mode == Reference then Panicked
    else
      match Get(st, pat.name)
      case None => Failed
      case Some(reg) =>
        match EncExpr(st, value, RegDest(reg))
        case Done(_, st1) => Done((), st1)
        case Failed => Failed
        case Panicked => Panicked
  }

  /**
    * `Hir::If`: a block `bb_start` holding the conditions and a block `trailing` where
    * every branch ends; the conditions are tried in order, and the block after the last
    * one holds the `else` branch.
    */
  function EncIf(st: State, h: Hir): (r: Outcome<()>)
    requires Wf(st) && h.If?
    ensures r.Done? ==> HirStep(st, r.st)
    decreases HirSize(h), 4
  {
    var (bbStart, trailing, first, s4) := IfOpen(st);
    BranchesSizeCons(h.ifBranch, h.elseIfs);
    match EncBranches(s4, [h.ifBranch] + h.elseIfs, first, bbStart, trailing)
    case Done(next, s5) =>
      var r := EncIfElse(s5, bbStart, next, trailing, h.elseBranch);
      if r.Done? then IfComposes(st, s4, s5, r.st, first, next); r else r
    case Failed => Failed
    case Panicked => Panicked
  }

  /** The three stages of `Hir::If` together make one statement's step. */
  lemma IfComposes(st: State, s4: State, s5: State, s7: State, first: nat, next: nat)
    requires Grows(st, s4) && Grows(s4, s5) && Grows(s5, s7) && Wf(s7)
    requires s4.curScope == st.curScope && s5.curScope == s4.curScope && s7.curScope == s5.curScope
    requires s4.loops == st.loops && s5.loops == s4.loops && s7.loops == s5.loops
    requires s4.curBlock == |st.blocks| && first == |st.blocks| + 2 && s7.curBlock == |st.blocks| + 1
    requires next == first || |s4.blocks| <= next
    requires Touches(st, s4, {st.curBlock}) && Touches(s4, s5, {s4.curBlock, first}) && Touches(s5, s7, {s4.curBlock, next})
    ensures HirStep(st, s7)
  {
    TouchesTrans(st, s4, s5, {st.curBlock}, {s4.curBlock, first});
    TouchesTrans(st, s5, s7, {st.curBlock, s4.curBlock, first}, {s4.curBlock, next});
    TouchesNew(st, s7, {st.curBlock, s4.curBlock, first} + {s4.curBlock, next}, {st.curBlock});
  }

  /** The start of `Hir::If`: blocks `bb_start` and `trailing`, a jump to `bb_start`, and the block for the first branch. */
  function IfOpen(st: State): (r: (nat, nat, nat, State))
    requires Wf(st)
    ensures var (bbStart, trailing, first, s) := r;
      && bbStart == |st.blocks| && trailing == bbStart + 1 && first == bbStart + 2 && |s.blocks| == first + 1
      && Wf(s) && Grows(st, s) && Touches(st, s, {st.curBlock})
      && s.curScope == st.curScope && s.loops == st.loops && s.curBlock == bbStart
  {
    var (bbStart, s1) := NewBlock(st);
    var (trailing, s2) := NewBlock(s1);
    var s3 := JumpTo(s2, s2.curBlock, bbStart).(curBlock := bbStart);
    var (first, s4) := NewBlock(s3);
    (bbStart, trailing, first, s4)
  }

  /** The end of `Hir::If`: `bb_start` jumps to the `else` block, whose last block jumps to `trailing`, where encoding carries on. */
  function EncIfElse(st: State, bbStart: nat, next: nat, trailing: nat, eb: ElseBranch): (r: Outcome<()>)
    requires Wf(st) && bbStart < |st.blocks| && next < |st.blocks| && trailing < |st.blocks|
    ensures r.Done? ==> Wf(r.st) && Grows(st, r.st) && r.st.curScope == st.curScope && r.st.loops == st.loops
    ensures r.Done? ==> Touches(st, r.st, {bbStart, next}) && r.st.curBlock == trailing
    decreases ElseSize(eb), 9
  {
    var s6 := JumpTo(st, bbStart, next).(curBlock := next);
    match EncElse(s6, eb)
    case Done(_, s7) =>
      var s8 := JumpTo(s7, s7.curBlock, trailing);
      Done((), s8.(curBlock := trailing))
    case Failed => Failed
    case Panicked => Panicked
  }

  /** The optional `else` scope. */
  function EncElse(st: State, eb: ElseBranch): (r: Outcome<()>)
    requires Wf(st)
    ensures r.Done? ==> HirStep(st, r.st)
    decreases ElseSize(eb), 8
  {
    match eb
    case NoElse => Done((), st)
    case Else(b) => EncScope(st, b)
  }

  /**
    * The `try_fold` over the `if` and `else if` branches: each branch in turn, carrying the
    * block made for the next one.
    */
  function EncBranches(st: State, bs: seq<IfBranch>, acc: nat, init: nat, trailing: nat): (r: Outcome<nat>)
    requires Wf(st) && acc < |st.blocks| && init < |st.blocks| && trailing < |st.blocks|
    ensures r.Done? ==> Wf(r.st) && Grows(st, r.st) && r.st.curScope == st.curScope && r.st.loops == st.loops
    ensures r.Done? ==> Touches(st, r.st, {init, acc}) && r.value < |r.st.blocks|
    ensures r.Done? ==> r.value == acc || |st.blocks| <= r.value
    decreases BranchesSize(bs), 3
  {
    if bs == [] then Done(acc, st)
    else
      match EncBranch(st, bs[0], acc, init, trailing)
      case Done(next, s1) =>
        var r := EncBranches(s1, bs[1..], next, init, trailing);
        if r.Done? then
          TouchesTrans(st, s1, r.st, {init, acc}, {init, next});
          TouchesNew(st, r.st, {init, acc} + {init, next}, {init, acc});
          r
        else r
      case Failed => Failed
      case Panicked => Panicked
  }

  /**
    * One step of the fold: the condition is encoded into the block `init` and branches to
    * the block `acc`, whose body then jumps to `trailing`; a new block is made for the next
    * branch and carried on.
    */
  function EncBranch(st: State, b: IfBranch, acc: nat, init: nat, trailing: nat): (r: Outcome<nat>)
    requires Wf(st) && acc < |st.blocks| && init < |st.blocks| && trailing < |st.blocks|
    ensures r.Done? ==> Wf(r.st) && Grows(st, r.st) && r.st.curScope == st.curScope && r.st.loops == st.loops
    ensures r.Done? ==> Touches(st, r.st, {init, acc}) && r.value == |st.blocks| < |r.st.blocks|
    decreases BranchSize(b), 2
  {
    var (next, s1) := NewBlock(st);
    var s2 := s1.(curBlock := init);
    match EncExpr(s2, b.cond, TempDest)
    case Done(cond, s3) =>
      var s4 := BranchTo(s3, cond, s3.curBlock, acc).(curBlock := acc);
      (match EncScope(s4, b.branch)
       case Done(_, s5) =>
         var s6 := JumpTo(s5, s5.curBlock, trailing);
         BranchComposes(st, s1, s3, s4, s5, s6, init, acc);
         Done(next, s6)
       case Failed => Failed
       case Panicked => Panicked)
    case Failed => Failed
    case Panicked => Panicked
  }

  /** The steps of one branch touch only `init`, `acc` and blocks made since. */
  lemma BranchComposes(st: State, s1: State, s3: State, s4: State, s5: State, s6: State, init: nat, acc: nat)
    requires s1 == st.(blocks := st.blocks + [EmptyBlock()])
    requires Grows(s1, s3) && Grows(s3, s4) && Grows(s4, s5) && Grows(s5, s6)
    requires Touches(s1, s3, {init}) && Touches(s3, s4, {init}) && Touches(s4, s5, {acc})
    requires s5.curBlock == acc || s5.curBlock >= |s4.blocks|
    requires Touches(s5, s6, {s5.curBlock})
    ensures Grows(st, s6) && Touches(st, s6, {init, acc})
  {
    assert Touches(st, s1, {});
    TouchesTrans(st, s1, s3, {}, {init});
    TouchesTrans(st, s3, s4, {init}, {init});
    TouchesTrans(st, s4, s5, {init}, {acc});
    TouchesTrans(st, s5, s6, {init, acc}, {s5.curBlock});
    TouchesNew(st, s6, {init, acc, s5.curBlock}, {init, acc});
  }

  /** `encode(Vec<Hir>)`: the statements in a new scope, which is closed afterwards. */
  function EncScope(st: State, hs: seq<Hir>): (r: Outcome<()>)
    requires Wf(st)
    ensures r.Done? ==> HirStep(st, r.st)
    decreases SeqSize(hs), 7
  {
    var s1 := OpenScope(st);
    match EncIter(s1, hs)
    case Done(_, s2) => Done((), CloseScope(s2))
    case Failed => Failed
    case Panicked => Panicked
  }

  /** `encode_iter`: the statements one after another, stopping at the first that does not succeed. */
  function EncIter(st: State, hs: seq<Hir>): (r: Outcome<()>)
    requires Wf(st)
    ensures r.Done? ==> HirStep(st, r.st)
    decreases SeqSize(hs), 6
  {
    if hs == [] then Done((), st)
    else
      match EncHir(st, hs[0])
      case Done(_, s1) => EncIter(s1, hs[1..])
      case Failed => Failed
      case Panicked => Panicked
  }

  /** `encode_iter` stops at the first statement that does not succeed: a list is encoded as its two halves in turn. */
  lemma {:induction false} IterConcat(st: State, a: seq<Hir>, b: seq<Hir>)
    requires Wf(st)
    ensures EncIter(st, a + b) == match EncIter(st, a)
      case Done(_, s) => EncIter(s, b)
      case Failed => Failed
      case Panicked => Panicked
    decreases |a|
  {
    if a != [] {
      assert (a + b)[0] == a[0] && (a + b)[1..] == a[1..] + b;
      match EncHir(st, a[0])
      case Done(_, s1) => IterConcat(s1, a[1..], b);
      case Failed =>
      case Panicked =>
    } else {
      assert a + b == b;
    }
  }

  /** `write`: the statements encoded from the initial encoder; the blocks and the register count make the frame. */
  function Write(hs: seq<Hir>): (r: Outcome<()>)
    ensures r.Done? ==> Wf(r.st)
  {
    EncIter(Initial(), hs)
  }

  // ---------------------------------------------------------------- the encoder object

  /** `HirSize` bounds the size of each statement of a list. */
  lemma {:induction false} SeqSizeElem(hs: seq<Hir>, i: nat)
    requires i < |hs|
    ensures HirSize(hs[i]) <= SeqSize(hs)
    decreases i
  {
    if i > 0 {
      SeqSizeElem(hs[1..], i - 1);
      assert hs[1..][i - 1] == hs[i];
    }
  }

  lemma {:induction false} BranchSizeElem(bs: seq<IfBranch>, i: nat)
    requires i < |bs|
    ensures BranchSize(bs[i]) <= BranchesSize(bs)
    decreases i
  {
    if i > 0 {
      BranchSizeElem(bs[1..], i - 1);
      assert bs[1..][i - 1] == bs[i];
    }
  }

}
