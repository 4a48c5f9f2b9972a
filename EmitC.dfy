/**
  * The C back end of `interp-mir`: `layout` packs one stack slot per register into a
  * `char locals[]` array, and `write_c` emits one labelled section per block whose
  * statements read and write those slots through typed pointer casts. Emitted text is
  * modelled as a sequence of C statements; the formatting of each line is not modelled.
  */
module EmitC {
  import opened Wrappers
  import opened CoreMir
  import opened TypeCheck

  // ---------------------------------------------------------------- layout

  /** The size and alignment of a type, the two things `layout` looks at. */
  datatype Ty = Ty(size: nat, align: nat)

  /** Every alignment is at least one. */
  predicate Aligned(types: seq<Ty>)
  {
    forall i :: 0 <= i < |types| ==> types[i].align >= 1
  }

  /** `OrdTy`'s order reversed: `a` has the larger `(align, size)` key, so its group comes first. */
  predicate Ahead(a: Ty, b: Ty)
  {
    a.align > b.align || (a.align == b.align && a.size > b.size)
  }

  /** Two types fall into the same group of the `BTreeMap`. */
  predicate SameKey(a: Ty, b: Ty)
  {
    a.align == b.align && a.size == b.size
  }

  /** Slot `i` is placed before slot `j`: its group comes first, or it has the lower index in the same group. */
  predicate Precedes(types: seq<Ty>, i: nat, j: nat)
    requires i < |types| && j < |types|
  {
    Ahead(types[i], types[j]) || (SameKey(types[i], types[j]) && i < j)
  }

  /** The indices of `o` name types and appear in placement order. */
  predicate Sorted(types: seq<Ty>, o: seq<nat>)
  {
    && (forall p :: 0 <= p < |o| ==> o[p] < |types|)
    && (forall p, q :: 0 <= p < q < |o| ==> Precedes(types, o[p], o[q]))
  }

  predicate Distinct(o: seq<nat>)
  {
    forall p, q :: 0 <= p < q < |o| ==> o[p] != o[q]
  }

  /**
    * `map.entry(OrdTy(ty)).or_insert_with(..).insert(i)`: the flattened entries of the map,
    * with index `i` added after every entry whose key is not smaller (all of them have
    * lower indices), and before the first entry with a smaller key.
    */
  function Enter(types: seq<Ty>, o: seq<nat>, i: nat): (r: seq<nat>)
    requires i < |types| && forall p :: 0 <= p < |o| ==> o[p] < |types|
    ensures |r| == |o| + 1
    ensures forall x :: x in r <==> x in o || x == i
    decreases |o|
  {
    if o == [] || Ahead(types[i], types[o[0]]) then [i] + o
    else
      var r := [o[0]] + Enter(types, o[1..], i);
      assert forall x :: x in o <==> x == o[0] || x in o[1..];
      r
  }

  /** The map's entries, in iteration order, after the first loop has seen `types[..n]`. */
  function Order(types: seq<Ty>, n: nat): (o: seq<nat>)
    requires n <= |types|
    ensures |o| == n && (forall x :: x in o <==> 0 <= x < n) && forall p :: 0 <= p < n ==> o[p] < n
  {
    if n == 0 then []
    else
      var o := Enter(types, Order(types, n - 1), n - 1);
      assert forall p :: 0 <= p < n ==> o[p] in o;
      o
  }

  /** Entering an index above all present ones keeps the entries in placement order. */
  lemma {:induction false} EnterSorted(types: seq<Ty>, o: seq<nat>, i: nat)
    requires i < |types| && Sorted(types, o) && forall p :: 0 <= p < |o| ==> o[p] < i
    ensures Sorted(types, Enter(types, o, i))
    decreases |o|
  {
    if o == [] {
    } else if Ahead(types[i], types[o[0]]) {
      forall q | 0 <= q < |o|
        ensures Precedes(types, i, o[q])
      {
        if q > 0 {
          assert Precedes(types, o[0], o[q]);
        }
      }
      ConsSorted(types, i, o);
    } else {
      var rest := o[1..];
      SortedTail(types, o);
      EnterSorted(types, rest, i);
      var e := Enter(types, rest, i);
      forall q | 0 <= q < |e|
        ensures Precedes(types, o[0], e[q])
      {
        assert e[q] in e;
        if e[q] != i {
          var p :| 0 <= p < |rest| && rest[p] == e[q];
          assert o[p + 1] == e[q];
        }
      }
      ConsSorted(types, o[0], e);
    }
  }

  lemma SortedTail(types: seq<Ty>, o: seq<nat>)
    requires o != [] && Sorted(types, o)
    ensures Sorted(types, o[1..])
  {
    var rest := o[1..];
    forall p, q | 0 <= p < q < |rest|
      ensures Precedes(types, rest[p], rest[q])
    {
      assert rest[p] == o[p + 1] && rest[q] == o[q + 1];
    }
  }

  /** An index that precedes every entry of a sorted order can go in front of it. */
  lemma ConsSorted(types: seq<Ty>, x: nat, e: seq<nat>)
    requires x < |types| && Sorted(types, e) && forall q :: 0 <= q < |e| ==> Precedes(types, x, e[q])
    ensures Sorted(types, [x] + e)
  {
    var r := [x] + e;
    forall p, q | 0 <= p < q < |r|
      ensures Precedes(types, r[p], r[q])
    {
      assert r[q] == e[q - 1];
      if p > 0 {
        assert r[p] == e[p - 1];
      }
    }
  }

  /** The first loop leaves the entries in placement order. */
  lemma {:induction false} OrderSorted(types: seq<Ty>, n: nat)
    requires n <= |types|
    ensures Sorted(types, Order(types, n))
  {
    if n > 0 {
      OrderSorted(types, n - 1);
      var o := Order(types, n - 1);
      forall p | 0 <= p < |o|
        ensures o[p] < n - 1
      {
        assert o[p] in o;
      }
      EnterSorted(types, o, n - 1);
    }
  }

  lemma SortedDistinct(types: seq<Ty>, o: seq<nat>)
    requires Sorted(types, o)
    ensures Distinct(o)
  {
  }

  /** `(size + mask) & !mask` with `mask = align - 1`: `size` rounded up to a multiple of a power-of-two `align`. */
  function RoundUp(size: nat, align: nat): (r: nat)
    requires align >= 1
    ensures r % align == 0 && size <= r < size + align
  {
    if size % align == 0 then size
    else
      var q := size / align;
      assert size == align * q + size % align;
      assert align * (q + 1) == align * q + align;
      ModUnique(size + (align - size % align), align, q + 1, 0);
      size + (align - size % align)
  }

  /** Multiples of `a` at different counts are at least `a` apart. */
  lemma MulGap(a: nat, q: nat, q': nat)
    requires a >= 1 && q > q'
    ensures a * q >= a * q' + a
  {
    var d := q - q';
    assert a * q == a * q' + a * d;
    MulAtLeast(a, d);
  }

  lemma MulAtLeast(a: nat, d: nat)
    requires d >= 1
    ensures a * d >= a
  {
  }

  /** Division with remainder is unique. */
  lemma ModUnique(x: nat, a: nat, q: nat, m: nat)
    requires a >= 1 && m < a && x == a * q + m
    ensures x % a == m
  {
    var q', m' := x / a, x % a;
    assert x == a * q' + m';
    if q > q' {
      MulGap(a, q, q');
      assert false;
    } else if q < q' {
      MulGap(a, q', q);
      assert false;
    }
  }

  /** The offsets and the running size after the second loop has placed the slots `o[..k]`. */
  function Place(types: seq<Ty>, o: seq<nat>, k: nat): (r: (seq<nat>, nat))
    requires Aligned(types) && k <= |o| && forall p :: 0 <= p < |o| ==> o[p] < |types|
    ensures |r.0| == |types|
  {
    if k == 0 then (seq(|types|, _ => 0), 0)
    else
      var (assign, size) := Place(types, o, k - 1);
      var t := types[o[k - 1]];
      var at := RoundUp(size, t.align);
      (assign[o[k - 1] := at], at + t.size)
  }

  /** The largest alignment among the slots `o[..k]`, starting from 1. */
  function MaxOver(types: seq<Ty>, o: seq<nat>, k: nat): (a: nat)
    requires k <= |o| && forall p :: 0 <= p < |o| ==> o[p] < |types|
    ensures a >= 1
  {
    if k == 0 then 1
    else
      var a := MaxOver(types, o, k - 1);
      var t := types[o[k - 1]];
      if a >= t.align then a else t.align
  }

  /** Each placed slot is aligned and ends by the running size; a slot placed earlier ends where a later one can start. */
  lemma {:induction false} PlaceSound(types: seq<Ty>, o: seq<nat>, k: nat)
    requires Aligned(types) && k <= |o| && (forall p :: 0 <= p < |o| ==> o[p] < |types|) && Distinct(o)
    ensures var (a, s) := Place(types, o, k);
      && (forall p :: 0 <= p < k ==> a[o[p]] % types[o[p]].align == 0 && a[o[p]] + types[o[p]].size <= s)
      && (forall p, q :: 0 <= p < q < k ==> a[o[p]] + types[o[p]].size <= a[o[q]])
  {
    if k > 0 {
      PlaceSound(types, o, k - 1);
      var (a, s) := Place(types, o, k - 1);
      var (a', s') := Place(types, o, k);
      assert forall p :: 0 <= p < k - 1 ==> a'[o[p]] == a[o[p]];
    }
  }

  /** The largest alignment is at least every alignment, and is 1 or one of them. */
  lemma {:induction false} MaxOverBounds(types: seq<Ty>, o: seq<nat>, k: nat)
    requires k <= |o| && forall p :: 0 <= p < |o| ==> o[p] < |types|
    ensures forall p :: 0 <= p < k ==> MaxOver(types, o, k) >= types[o[p]].align
    ensures MaxOver(types, o, k) == 1 || exists p :: 0 <= p < k && MaxOver(types, o, k) == types[o[p]].align
  {
    if k > 0 {
      MaxOverBounds(types, o, k - 1);
    }
  }

  /** What `layout` returns: one offset per type, the total size and the alignment of `locals`. */
  function LayoutOf(types: seq<Ty>): (r: (seq<nat>, nat, nat))
    requires Aligned(types)
    ensures |r.0| == |types|
  {
    var o := Order(types, |types|);
    var (assign, size) := Place(types, o, |o|);
    (assign, size, MaxOver(types, o, |o|))
  }

  /** The index of `i` in the placement order. */
  lemma PositionOf(types: seq<Ty>, i: nat) returns (p: nat)
    requires i < |types|
    ensures var o := Order(types, |types|); p < |o| && o[p] == i
  {
    var o := Order(types, |types|);
    assert i in o;
    p :| 0 <= p < |o| && o[p] == i;
  }

  /** Each offset is a multiple of its type's alignment, and each slot lies within the total size. */
  lemma LayoutAligned(types: seq<Ty>)
    requires Aligned(types)
    ensures var (assign, size, _) := LayoutOf(types);
      forall i :: 0 <= i < |types| ==> assign[i] % types[i].align == 0 && assign[i] + types[i].size <= size
  {
    var o := Order(types, |types|);
    OrderSorted(types, |types|);
    PlaceSound(types, o, |o|);
    var (assign, size, _) := LayoutOf(types);
    forall i | 0 <= i < |types|
      ensures assign[i] % types[i].align == 0 && assign[i] + types[i].size <= size
    {
      var p := PositionOf(types, i);
    }
  }

  /**
    * Groups are placed in descending `(align, size)` order, and within a group lower indices
    * get lower offsets: a slot that precedes another ends before the other starts.
    */
  lemma LayoutOrdered(types: seq<Ty>, i: nat, j: nat)
    requires Aligned(types) && i < |types| && j < |types| && Precedes(types, i, j)
    ensures var (assign, _, _) := LayoutOf(types); assign[i] + types[i].size <= assign[j]
  {
    var o := Order(types, |types|);
    OrderSorted(types, |types|);
    PlaceSound(types, o, |o|);
    var p := PositionOf(types, i);
    var q := PositionOf(types, j);
  }

  /** Distinct slots do not overlap. */
  lemma LayoutDisjoint(types: seq<Ty>, i: nat, j: nat)
    requires Aligned(types) && i < |types| && j < |types| && i != j
    ensures var (assign, _, _) := LayoutOf(types);
      assign[i] + types[i].size <= assign[j] || assign[j] + types[j].size <= assign[i]
  {
    if Precedes(types, i, j) {
      LayoutOrdered(types, i, j);
    } else {
      LayoutOrdered(types, j, i);
    }
  }

  /** The alignment of `locals` is the largest alignment, and 1 when there are no registers. */
  lemma LayoutMaxAlign(types: seq<Ty>)
    requires Aligned(types)
    ensures var (_, _, align) := LayoutOf(types);
      && (forall i :: 0 <= i < |types| ==> align >= types[i].align)
      && (align == 1 || exists i :: 0 <= i < |types| && align == types[i].align)
  {
    var o := Order(types, |types|);
    MaxOverBounds(types, o, |o|);
    forall i | 0 <= i < |types|
      ensures MaxOver(types, o, |o|) >= types[i].align
    {
      var p := PositionOf(types, i);
    }
  }

  /** `layout`: the first loop fills the map, the second places the slots and tracks the alignment. */
  method Layout(types: seq<Ty>) returns (assign: seq<nat>, size: nat, align: nat)
    requires Aligned(types)
    ensures (assign, size, align) == LayoutOf(types)
  {
    var order := GroupTypes(types);
    assign, size, align := PlaceSlots(types, order);
  }

  /** The first loop of `layout`: every index enters the map under its type. */
  method GroupTypes(types: seq<Ty>) returns (order: seq<nat>)
    ensures order == Order(types, |types|)
  {
    order := [];
    for i := 0 to |types|
      invariant order == Order(types, i)
    {
      order := Enter(types, order, i);
    }
  }

  /** The second loop of `layout`: each slot in map order is aligned, placed and counted. */
  method PlaceSlots(types: seq<Ty>, order: seq<nat>) returns (assign: seq<nat>, size: nat, align: nat)
    requires Aligned(types) && forall p :: 0 <= p < |order| ==> order[p] < |types|
    ensures (assign, size) == Place(types, order, |order|) && align == MaxOver(types, order, |order|)
  {
    var slots := new nat[|types|](_ => 0);
    size := 0;
    align := 1;
    assert slots[..] == seq(|types|, _ => 0);
    for k := 0 to |order|
      invariant (slots[..], size) == Place(types, order, k)
      invariant align == MaxOver(types, order, k)
    {
      var t := types[order[k]];
      align := if align >= t.align then align else t.align;
      size := RoundUp(size, t.align);
      ghost var before := slots[..];
      slots[order[k]] := size;
      assert slots[..] == before[order[k] := size];
      size := size + t.size;
    }
    assign := slots[..];
  }

  // ---------------------------------------------------------------- write_c

  /** The registered sizes and alignments of `bool` and `i32`. */
  function TyOf(p: Prim): Ty
  {
    match p
    case BoolTy => Ty(1, 1)
    case I32Ty => Ty(4, 4)
  }

  function Types(tys: seq<Prim>): (types: seq<Ty>)
    ensures |types| == |tys| && Aligned(types)
  {
    seq(|tys|, i requires 0 <= i < |tys| => TyOf(tys[i]))
  }

  /** The C types the emitted casts name: `_Bool` and `int32_t`. */
  datatype CType = CBool | CInt32

  function CTypeOf(p: Prim): CType
  {
    match p
    case BoolTy => CBool
    case I32Ty => CInt32
  }

  /** `sizeof` of a C type. */
  function Width(c: CType): nat
  {
    match c
    case CBool => 1
    case CInt32 => 4
  }

  /** `*((ty*)(locals + offset))`. */
  datatype Local = Local(ty: CType, offset: nat)

  datatype CExpr = Lit(v: int) | Bin(op: BinOpType, left: Local, right: Local)

  /** One emitted line. */
  datatype CStmt =
    | Label(block: nat)
    | Goto(target: nat)
    | IfGoto(cond: Local, target: nat)
    | Store(dst: Local, e: CExpr)
    | Copy(to: nat, from: nat, len: nat)
    | Printf(spec: char, arg: Local)
    | Return0

  /** `char locals[size] __attribute__((aligned(align)))` and the body of `main`. */
  datatype CProgram = CProgram(size: nat, align: nat, body: seq<CStmt>)

  /** The typed local of register `r`. */
  function LocalOf(tys: seq<Prim>, assign: seq<nat>, r: nat): Local
    requires r < |tys| && |assign| == |tys|
  {
    Local(CTypeOf(tys[r]), assign[r])
  }

  /**
    * The `match *mir` of `write_c`. `None` is a panic: `unreachable!` on a wide integer load,
    * the `assert_eq!` of a register copy. As written, an ordering comparison stores its
    * result through an `int32_t` pointer; with `asWritten` false it stores a `_Bool`, as
    * `==` and `!=` do.
    */
  function EmitMir(tys: seq<Prim>, assign: seq<nat>, m: Mir, asWritten: bool): (r: Option<seq<CStmt>>)
    requires RegsIn(m, |tys|) && |assign| == |tys|
    ensures r.Some? ==> |r.value| == 1 && !r.value[0].Label? && !r.value[0].Return0?
  {
    match m
    case Jump(j) => Some([Goto(j)])
    case BranchTrue(c, t) => Some([IfGoto(Local(CBool, assign[c]), t)])
    case LoadImm(to, l) =>
      if l.Bool? then Some([Store(LocalOf(tys, assign, to), Lit(if l.b then 1 else 0))])
      else if l.U8? || l.U16? then Some([Store(LocalOf(tys, assign, to), Lit(l.v))])
      else None
    case LoadReg(to, from) =>
      if tys[to] == tys[from] then Some([Copy(assign[to], assign[from], TyOf(tys[to]).size)]) else None
    case Print(r) => Some([Printf(if tys[r] == BoolTy then 'b' else 'd', LocalOf(tys, assign, r))])
    case BinOp(op, out, l, r) =>
      if IsArith(op) then
        Some([Store(Local(CInt32, assign[out]), Bin(op, Local(CInt32, assign[l]), Local(CInt32, assign[r])))])
      else if IsOrdering(op) then
        var outTy := if asWritten then CInt32 else CBool;
        Some([Store(Local(outTy, assign[out]), Bin(op, Local(CInt32, assign[l]), Local(CInt32, assign[r])))])
      else
        var ty := CTypeOf(tys[l]);
        Some([Store(Local(CBool, assign[out]), Bin(op, Local(ty, assign[l]), Local(ty, assign[r])))])
  }

  /** The instructions `code[..k]` of one block, in order. */
  function EmitCode(tys: seq<Prim>, assign: seq<nat>, code: seq<Mir>, k: nat, asWritten: bool): (r: Option<seq<CStmt>>)
    requires k <= |code| && |assign| == |tys| && forall i :: 0 <= i < |code| ==> RegsIn(code[i], |tys|)
    ensures r.Some? ==> forall i :: 0 <= i < |r.value| ==> !r.value[i].Label? && !r.value[i].Return0?
  {
    if k == 0 then Some([])
    else
      match EmitCode(tys, assign, code, k - 1, asWritten)
      case None => None
      case Some(out) =>
        match EmitMir(tys, assign, code[k - 1], asWritten)
        case None => None
        case Some(line) => Some(out + line)
  }

  /**
    * One block: its label, its instructions, and `return 0;` when it has no children. The
    * section starts with the block's label, holds no other label, and ends with a return
    * exactly when the block has no successor.
    */
  function EmitBlock(tys: seq<Prim>, assign: seq<nat>, idx: nat, b: Block, asWritten: bool): (r: Option<seq<CStmt>>)
    requires |assign| == |tys| && forall i :: 0 <= i < |b.instructions| ==> RegsIn(b.instructions[i], |tys|)
    ensures r.Some? ==> |r.value| >= 1 && r.value[0] == Label(idx)
    ensures r.Some? ==> forall i :: 1 <= i < |r.value| ==> !r.value[i].Label?
    ensures r.Some? ==> (r.value[|r.value| - 1] == Return0 <==> b.children == {})
    ensures r.Some? ==> forall i :: 1 <= i < |r.value| - 1 ==> !r.value[i].Return0?
  {
    match EmitCode(tys, assign, b.instructions, |b.instructions|, asWritten)
    case None => None
    case Some(code) =>
      var tail := if b.children == {} then [Return0] else [];
      Some([Label(idx)] + code + tail)
  }

  predicate BlocksRegsIn(blocks: seq<Block>, n: nat)
  {
    forall b, i :: 0 <= b < |blocks| && 0 <= i < |blocks[b].instructions| ==> RegsIn(blocks[b].instructions[i], n)
  }

  /** The sections of the blocks `blocks[..n]`, in index order. */
  function EmitBlocks(tys: seq<Prim>, assign: seq<nat>, blocks: seq<Block>, n: nat, asWritten: bool): Option<seq<CStmt>>
    requires n <= |blocks| && |assign| == |tys| && BlocksRegsIn(blocks, |tys|)
  {
    if n == 0 then Some([])
    else
      match EmitBlocks(tys, assign, blocks, n - 1, asWritten)
      case None => None
      case Some(out) =>
        match EmitBlock(tys, assign, n - 1, blocks[n - 1], asWritten)
        case None => None
        case Some(section) => Some(out + section)
  }

  /** `write_c` on a frame typed by `tys`: the layout, then every block. */
  function Write(tys: seq<Prim>, blocks: seq<Block>, asWritten: bool): Option<CProgram>
    requires BlocksRegsIn(blocks, |tys|)
  {
    var (assign, size, align) := LayoutOf(Types(tys));
    match EmitBlocks(tys, assign, blocks, |blocks|, asWritten)
    case None => None
    case Some(body) => Some(CProgram(size, align, body))
  }

  /** `write_c` as written. */
  function WriteCAsWritten(tys: seq<Prim>, blocks: seq<Block>): Option<CProgram>
    requires BlocksRegsIn(blocks, |tys|)
  {
    Write(tys, blocks, true)
  }

  /** `write_c` with comparison results stored as `_Bool`. */
  function WriteC(tys: seq<Prim>, blocks: seq<Block>): Option<CProgram>
    requires BlocksRegsIn(blocks, |tys|)
  {
    Write(tys, blocks, false)
  }

  /** The labels of a body, in order. */
  function Labels(body: seq<CStmt>): seq<nat>
  {
    if body == [] then []
    else if body[|body| - 1].Label? then Labels(body[..|body| - 1]) + [body[|body| - 1].block]
    else Labels(body[..|body| - 1])
  }

  lemma {:induction false} LabelsAppend(a: seq<CStmt>, b: seq<CStmt>)
    ensures Labels(a + b) == Labels(a) + Labels(b)
    decreases |b|
  {
    if b != [] {
      var b' := b[..|b| - 1];
      assert (a + b)[..|a + b| - 1] == a + b';
      LabelsAppend(a, b');
    } else {
      assert a + b == a;
    }
  }

  /** A section's labels: just its own. */
  lemma {:induction false} SectionLabels(s: seq<CStmt>, idx: nat)
    requires |s| >= 1 && s[0] == Label(idx) && forall i :: 1 <= i < |s| ==> !s[i].Label?
    ensures Labels(s) == [idx]
    decreases |s|
  {
    if |s| > 1 {
      SectionLabels(s[..|s| - 1], idx);
    }
  }

  /** `write_c` emits one `_label_k` per block, in index order. */
  lemma {:induction false} LabelsInOrder(tys: seq<Prim>, assign: seq<nat>, blocks: seq<Block>, n: nat, asWritten: bool)
    requires n <= |blocks| && |assign| == |tys| && BlocksRegsIn(blocks, |tys|)
    ensures var r := EmitBlocks(tys, assign, blocks, n, asWritten);
      r.Some? ==> Labels(r.value) == seq(n, k => k)
  {
    var r := EmitBlocks(tys, assign, blocks, n, asWritten);
    if n > 0 && r.Some? {
      LabelsInOrder(tys, assign, blocks, n - 1, asWritten);
      var out := EmitBlocks(tys, assign, blocks, n - 1, asWritten).value;
      var section := EmitBlock(tys, assign, n - 1, blocks[n - 1], asWritten).value;
      assert r.value == out + section;
      LabelsStep(out, section, n - 1);
    }
  }

  /** A section labelled `idx` after the sections labelled `0` to `idx - 1`. */
  lemma LabelsStep(out: seq<CStmt>, section: seq<CStmt>, idx: nat)
    requires Labels(out) == seq(idx, k => k)
    requires |section| >= 1 && section[0] == Label(idx) && forall i :: 1 <= i < |section| ==> !section[i].Label?
    ensures Labels(out + section) == seq(idx + 1, k => k)
  {
    LabelsAppend(out, section);
    SectionLabels(section, idx);
    assert seq(idx + 1, k => k) == seq(idx, k => k) + [idx];
  }

  // ---------------------------------------------------------------- memory safety of the emitted code

  /** A local is exactly the slot of some register, read or written at that register's C type. */
  predicate InSlot(tys: seq<Prim>, assign: seq<nat>, l: Local)
    requires |assign| == |tys|
  {
    exists r :: 0 <= r < |tys| && l == LocalOf(tys, assign, r)
  }

  /** Every access a statement makes is to one register's slot at that register's width. */
  predicate Safe(tys: seq<Prim>, assign: seq<nat>, s: CStmt)
    requires |assign| == |tys|
  {
    match s
    case Label(_) => true
    case Goto(_) => true
    case Return0 => true
    case IfGoto(c, _) => InSlot(tys, assign, c)
    case Printf(_, a) => InSlot(tys, assign, a)
    case Store(d, e) =>
      InSlot(tys, assign, d) && (e.Bin? ==> InSlot(tys, assign, e.left) && InSlot(tys, assign, e.right))
    case Copy(to, from, len) =>
      exists r1, r2 :: 0 <= r1 < |tys| && 0 <= r2 < |tys| && to == assign[r1] && from == assign[r2]
        && tys[r1] == tys[r2] && len == TyOf(tys[r1]).size
  }

  /** A well-typed instruction emits safe statements and never reaches `unreachable!` or the `assert_eq!`. */
  lemma EmitMirSafe(tys: seq<Prim>, assign: seq<nat>, m: Mir)
    requires RegsIn(m, |tys|) && |assign| == |tys| && Satisfied(tys, m)
    ensures var r := EmitMir(tys, assign, m, false); r.Some? && Safe(tys, assign, r.value[0])
  {
    var t := Lift(tys);
    match m
    case Jump(_) =>
    case Print(r) =>
      assert LocalOf(tys, assign, r) == LocalOf(tys, assign, r);
    case BranchTrue(c, _) =>
      assert t[c] == Concrete(BoolTy);
      assert LocalOf(tys, assign, c) == Local(CBool, assign[c]);
    case LoadImm(to, _) =>
      assert LocalOf(tys, assign, to) == LocalOf(tys, assign, to);
    case LoadReg(to, from) =>
    case BinOp(op, out, l, r) =>
      assert LocalOf(tys, assign, out) == LocalOf(tys, assign, out);
      assert LocalOf(tys, assign, l) == LocalOf(tys, assign, l);
      assert LocalOf(tys, assign, r) == LocalOf(tys, assign, r);
      if IsArith(op) || IsOrdering(op) {
        assert t[l] == Concrete(I32Ty) && t[r] == Concrete(I32Ty);
      }
      assert t[out] == Concrete(if IsArith(op) then I32Ty else BoolTy);
  }

  /** Every instruction of a block is well typed. */
  predicate WellTyped(tys: seq<Prim>, blocks: seq<Block>)
    requires BlocksRegsIn(blocks, |tys|)
  {
    forall b, i :: 0 <= b < |blocks| && 0 <= i < |blocks[b].instructions| ==> Satisfied(tys, blocks[b].instructions[i])
  }

  lemma {:induction false} EmitCodeSafe(tys: seq<Prim>, assign: seq<nat>, code: seq<Mir>, k: nat)
    requires k <= |code| && |assign| == |tys| && forall i :: 0 <= i < |code| ==> RegsIn(code[i], |tys|)
    requires forall i :: 0 <= i < |code| ==> Satisfied(tys, code[i])
    ensures var r := EmitCode(tys, assign, code, k, false);
      r.Some? && forall i :: 0 <= i < |r.value| ==> Safe(tys, assign, r.value[i])
  {
    if k > 0 {
      EmitCodeSafe(tys, assign, code, k - 1);
      EmitMirSafe(tys, assign, code[k - 1]);
    }
  }

  lemma {:induction false} EmitBlocksSafe(tys: seq<Prim>, assign: seq<nat>, blocks: seq<Block>, n: nat)
    requires n <= |blocks| && |assign| == |tys| && BlocksRegsIn(blocks, |tys|) && WellTyped(tys, blocks)
    ensures var r := EmitBlocks(tys, assign, blocks, n, false);
      r.Some? && forall i :: 0 <= i < |r.value| ==> Safe(tys, assign, r.value[i])
  {
    if n > 0 {
      EmitBlocksSafe(tys, assign, blocks, n - 1);
      var b := blocks[n - 1];
      EmitCodeSafe(tys, assign, b.instructions, |b.instructions|);
    }
  }

  /**
    * On a well-typed frame the emitter never panics, and every statement of `main` reads and
    * writes only whole slots of registers at their own types, which `layout` keeps disjoint
    * and inside `locals`.
    */
  lemma WriteCSafe(tys: seq<Prim>, blocks: seq<Block>)
    requires BlocksRegsIn(blocks, |tys|) && WellTyped(tys, blocks)
    ensures var r := WriteC(tys, blocks);
      r.Some? && forall i :: 0 <= i < |r.value.body| ==> Safe(tys, LayoutOf(Types(tys)).0, r.value.body[i])
  {
    var (assign, _, _) := LayoutOf(Types(tys));
    EmitBlocksSafe(tys, assign, blocks, |blocks|);
  }

  /** A slot at its own width lies within `locals`. */
  lemma InSlotInBounds(tys: seq<Prim>, l: Local)
    requires InSlot(tys, LayoutOf(Types(tys)).0, l)
    ensures l.offset + Width(l.ty) <= LayoutOf(Types(tys)).1
  {
    var (assign, size, _) := LayoutOf(Types(tys));
    var r :| 0 <= r < |tys| && l == LocalOf(tys, assign, r);
    LayoutAligned(Types(tys));
    assert Width(CTypeOf(tys[r])) == TyOf(tys[r]).size;
  }

  /**
    * As written, `r1 = r0 < r0` on a frame with `r0: i32, r1: bool` stores four bytes at the
    * one-byte slot of `r1`, which `layout` puts at the end of `locals`: the store runs past it.
    */
  lemma ComparisonOverrunsLocals()
    ensures var tys := [I32Ty, BoolTy];
      var blocks := [Block([BinOp(LessThan, 1, 0, 0)], {}, {})];
      && BlocksRegsIn(blocks, |tys|) && WellTyped(tys, blocks)
      && var p := WriteCAsWritten(tys, blocks);
      && p.Some? && p.value.size == 5
      && p.value.body[1] == Store(Local(CInt32, 4), Bin(LessThan, Local(CInt32, 0), Local(CInt32, 0)))
      && 4 + Width(CInt32) > p.value.size
  {
    var tys := [I32Ty, BoolTy];
    var blocks := [Block([BinOp(LessThan, 1, 0, 0)], {}, {})];
    ComparisonFrameTyped(tys, blocks);
    IntThenBoolLayout();
    var st := Store(Local(CInt32, 4), Bin(LessThan, Local(CInt32, 0), Local(CInt32, 0)));
    ComparisonBlocks(tys, blocks, st);
    WriteFromParts(tys, blocks, true, [Label(0), st, Return0]);
  }

  /** The one block of that frame: its label, the store, and `return 0;`. */
  lemma ComparisonBlocks(tys: seq<Prim>, blocks: seq<Block>, st: CStmt)
    requires tys == [I32Ty, BoolTy] && blocks == [Block([BinOp(LessThan, 1, 0, 0)], {}, {})]
    requires st == Store(Local(CInt32, 4), Bin(LessThan, Local(CInt32, 0), Local(CInt32, 0)))
    ensures BlocksRegsIn(blocks, |tys|)
    ensures EmitBlocks(tys, [0, 4], blocks, 1, true) == Some([Label(0), st, Return0])
  {
    ComparisonFrameTyped(tys, blocks);
    ComparisonStatement(st);
    assert blocks[0].instructions == [BinOp(LessThan, 1, 0, 0)] && blocks[0].children == {};
    assert [Label(0)] + [st] + [Return0] == [Label(0), st, Return0];
    assert EmitBlock(tys, [0, 4], 0, blocks[0], true) == Some([Label(0), st, Return0]);
    assert [] + [Label(0), st, Return0] == [Label(0), st, Return0];
  }

  /** `write_c` puts the layout's size and alignment in front of the emitted blocks. */
  lemma WriteFromParts(tys: seq<Prim>, blocks: seq<Block>, asWritten: bool, body: seq<CStmt>)
    requires BlocksRegsIn(blocks, |tys|)
    requires EmitBlocks(tys, LayoutOf(Types(tys)).0, blocks, |blocks|, asWritten) == Some(body)
    ensures Write(tys, blocks, asWritten) == Some(CProgram(LayoutOf(Types(tys)).1, LayoutOf(Types(tys)).2, body))
  {
  }

  /** The frame `r1 = r0 < r0` with `r0: i32` and `r1: bool` is well typed. */
  lemma ComparisonFrameTyped(tys: seq<Prim>, blocks: seq<Block>)
    requires tys == [I32Ty, BoolTy] && blocks == [Block([BinOp(LessThan, 1, 0, 0)], {}, {})]
    ensures BlocksRegsIn(blocks, |tys|) && WellTyped(tys, blocks)
  {
    assert Lift(tys) == [Concrete(I32Ty), Concrete(BoolTy)];
    assert Satisfied(tys, blocks[0].instructions[0]);
  }

  /** `i32` then `bool`: the `bool` slot sits at offset 4 of 5 bytes. */
  lemma IntThenBoolLayout()
    ensures LayoutOf(Types([I32Ty, BoolTy])).0 == [0, 4] && LayoutOf(Types([I32Ty, BoolTy])).1 == 5
  {
    var types := Types([I32Ty, BoolTy]);
    assert types == [Ty(4, 4), Ty(1, 1)];
    assert Order(types, 1) == [0];
    assert Enter(types, [], 1) == [1];
    assert Enter(types, [0], 1) == [0, 1];
    assert Order(types, 2) == [0, 1];
    var o := [0, 1];
    assert seq(2, _ => 0) == [0, 0];
    assert RoundUp(0, 4) == 0 && RoundUp(4, 1) == 4;
    assert [0, 0][0 := 0] == [0, 0];
    assert Place(types, o, 1) == ([0, 0], 4);
    assert [0, 0][1 := 4] == [0, 4];
    assert Place(types, o, 2) == ([0, 4], 5);
  }

  /** The comparison as written stores through an `int32_t` pointer at the `bool` slot. */
  lemma ComparisonStatement(st: CStmt)
    requires st == Store(Local(CInt32, 4), Bin(LessThan, Local(CInt32, 0), Local(CInt32, 0)))
    ensures EmitCode([I32Ty, BoolTy], [0, 4], [BinOp(LessThan, 1, 0, 0)], 1, true) == Some([st])
  {
    var code := [BinOp(LessThan, 1, 0, 0)];
    assert EmitMir([I32Ty, BoolTy], [0, 4], code[0], true) == Some([st]);
    assert [] + [st] == [st];
  }

  /** A panic in one instruction is a panic of the whole block. */
  lemma {:induction false} CodeStaysFailed(tys: seq<Prim>, assign: seq<nat>, code: seq<Mir>, k: nat, k': nat)
    requires k <= k' <= |code| && |assign| == |tys| && forall i :: 0 <= i < |code| ==> RegsIn(code[i], |tys|)
    requires EmitCode(tys, assign, code, k, false).None?
    ensures EmitCode(tys, assign, code, k', false).None?
    decreases k' - k
  {
    if k < k' {
      CodeStaysFailed(tys, assign, code, k + 1, k');
    }
  }

  /** A panic in one block is a panic of the whole frame. */
  lemma {:induction false} BlocksStayFailed(tys: seq<Prim>, assign: seq<nat>, blocks: seq<Block>, n: nat, n': nat)
    requires n <= n' <= |blocks| && |assign| == |tys| && BlocksRegsIn(blocks, |tys|)
    requires EmitBlocks(tys, assign, blocks, n, false).None?
    ensures EmitBlocks(tys, assign, blocks, n', false).None?
    decreases n' - n
  {
    if n < n' {
      BlocksStayFailed(tys, assign, blocks, n + 1, n');
    }
  }

  /** The body of `write_c`'s loop over blocks: the label, each instruction, the return. */
  method WriteBlock(tys: seq<Prim>, assign: seq<nat>, idx: nat, block: Block) returns (section: Option<seq<CStmt>>)
    requires |assign| == |tys| && forall i :: 0 <= i < |block.instructions| ==> RegsIn(block.instructions[i], |tys|)
    ensures section == EmitBlock(tys, assign, idx, block, false)
  {
    var code := block.instructions;
    var out: seq<CStmt> := [];
    for k := 0 to |code|
      invariant EmitCode(tys, assign, code, k, false) == Some(out)
    {
      var line := EmitMir(tys, assign, code[k], false);
      if line.None? {
        CodeStaysFailed(tys, assign, code, k + 1, |code|);
        return None;
      }
      out := out + line.value;
    }
    var tail := if block.children == {} then [Return0] else [];
    section := Some([Label(idx)] + out + tail);
  }

  /** `write_c`: the layout, then the loop over blocks, appending each section to the output. */
  method WriteCode(tys: seq<Prim>, blocks: seq<Block>) returns (r: Option<CProgram>)
    requires BlocksRegsIn(blocks, |tys|)
    ensures r == WriteC(tys, blocks)
  {
    var assign, size, align := Layout(Types(tys));
    var out: seq<CStmt> := [];
    for b := 0 to |blocks|
      invariant EmitBlocks(tys, assign, blocks, b, false) == Some(out)
    {
      var section := WriteBlock(tys, assign, b, blocks[b]);
      if section.None? {
        BlocksStayFailed(tys, assign, blocks, b + 1, |blocks|);
        return None;
      }
      out := out + section.value;
    }
    r := Some(CProgram(size, align, out));
  }
}
