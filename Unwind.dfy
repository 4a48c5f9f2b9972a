/**
  * The panic-unwinding runtime: a thread's current jump target, its unwinding flag and
  * its panic payload, landing pads that install themselves as the target around a guarded
  * body, and the root target installed by `main`.
  *
  * `setjmp`/`longjmp` become outcome values: a body ends `Normal`ly, `Returned` through
  * `_except_return`, `Aborted`, or with a `Transfer` of a code to a jump target, which
  * travels outwards until the pad whose buffer is that target catches it. A pad's buffer
  * is named by the number of pads that are live around it.
  */
module Unwind {
  import opened Wrappers

  datatype Target = Final | PadBuffer(depth: nat)

  /** `struct panic`: the tagged payload (the zero-initialised value is `Status(0)`). */
  datatype Panic = Status(status: int) | Payload | Message(message: string)

  /** The thread-local globals, bar's `COUNTER`, and the lines the program prints. */
  datatype Thread = Thread(target: Target, unwinding: bool, panic: Panic, counter: nat, output: seq<string>)

  datatype Outcome = Normal | Returned | Transfer(code: int, to: Target) | Aborted

  /**
    * The statements the runtime and the demo program are made of. `Bar` is the demo's
    * `bar`, which panics on its tenth call; `Call` is a function call, the boundary of
    * `_except_return`; `Report` is a handler's switch on the payload's tag.
    */
  datatype Stmt =
    | Print(line: string)
    | Raise(info: Panic)
    | Bar
    | Pad(guarded: seq<Stmt>, handler: seq<Stmt>)
    | ExceptReturn
    | Call(body: seq<Stmt>)
    | Report(who: string)

  /** What the runtime prints before it aborts on a panic raised while unwinding. */
  const AbortLine := "paniced while panicing, ABORT!"

  /** The message `bar` panics with. */
  const BarMessage := "bar panicked unexpectedly!"

  /** The decimal digits of `n`. */
  function Decimal(n: nat): string
  {
    if n < 10 then ["0123456789"[n]] else Decimal(n / 10) + ["0123456789"[n % 10]]
  }

  /** What the handler of `who` prints for the payload: one line per tag. */
  function Describe(who: string, p: Panic): string
  {
    var head := "(" + who + ") panic detected: ";
    match p
    case Message(m) => head + "message = " + m + "\n"
    case Status(n) => head + "status = " + (if n < 0 then "-" + Decimal(-n) else Decimal(n)) + "\n"
    case Payload => head + "payload = <unknown>\n"
  }

  /** The thread state `main` starts from. */
  function Start(): Thread
  {
    Thread(Final, false, Status(0), 0, [])
  }

  /** `lang_start_panic_unwind` after the payload is set: abort if already unwinding, else jump to the target with code 2. */
  function StartUnwind(s: Thread): (Outcome, Thread)
  {
    if s.unwinding then (Aborted, s.(output := s.output + [AbortLine])) else (Transfer(2, s.target), s)
  }

  /**
    * Runs `code` on the thread `s`: `depth` is the number of live pads, `prev` the saved
    * target of the innermost pad in the current function (`None` outside any pad).
    */
  function Run(code: seq<Stmt>, depth: nat, prev: Option<Target>, s: Thread): (Outcome, Thread)
    decreases code
  {
    if code == [] then (Normal, s)
    else
      var (o, s1) := Exec(code[0], depth, prev, s);
      if o.Normal? then Run(code[1..], depth, prev, s1) else (o, s1)
  }

  function Exec(x: Stmt, depth: nat, prev: Option<Target>, s: Thread): (Outcome, Thread)
    decreases x
  {
    match x
    case Print(line) => (Normal, s.(output := s.output + [line]))
    case Raise(info) => StartUnwind(s.(panic := info))
    case Bar =>
      var s1 := s.(counter := s.counter + 1, output := s.output + ["bar\n"]);
      if s1.counter == 10 then StartUnwind(s1.(panic := Message(BarMessage)))
      else (Normal, s1)
    case Report(who) => (Normal, s.(output := s.output + [Describe(who, s.panic)]))
    case ExceptReturn =>
      (Returned, if prev.Some? then s.(target := prev.value) else s)
    case Call(body) =>
      var (o, s1) := Run(body, depth, None, s);
      (if o.Returned? then Normal else o, s1)
    case Pad(guarded, handler) =>
      var saved := s.target;
      var (o, s1) := Run(guarded, depth + 1, Some(saved), s.(target := PadBuffer(depth)));
      if o.Normal? then (Normal, s1.(target := saved))
      else if o.Transfer? && o.to == PadBuffer(depth) then
        var (h, s2) := Run(handler, depth + 1, Some(saved), s1.(unwinding := true));
        if h.Normal? then (Transfer(3, saved), s2.(target := saved)) else (h, s2)
      else (o, s1)
  }

  /** What `main` gives back: the code of a transfer that reached the root, or an abort; `Fell` when `__lang_main` returned. */
  datatype Exit = Code(code: int) | Abort | Fell

  /**
    * `main`: installs the root target and runs `__lang_main` as a call; a transfer that
    * reaches the root reports the payload and its code is what `main` returns.
    */
  function Launch(program: seq<Stmt>): (Exit, Thread)
  {
    var (o, s) := Exec(Call(program), 0, None, Start());
    match o
    case Transfer(code, _) => (Code(code), s.(output := s.output + [Describe("start", s.panic)]))
    case Aborted => (Abort, s)
    case _ => (Fell, s)
  }

  /**
    * Where `_except_return` may stand: inside exactly one pad of the function it returns
    * from (`pads` counts the pads around it in that function), since it restores that pad's
    * saved target.
    */
  predicate ReturnsPlaced(code: seq<Stmt>, pads: nat)
    decreases code
  {
    forall i :: 0 <= i < |code| ==> StmtReturnsPlaced(code[i], pads)
  }

  predicate StmtReturnsPlaced(x: Stmt, pads: nat)
    decreases x
  {
    match x
    case ExceptReturn => pads == 1
    case Call(body) => ReturnsPlaced(body, 0)
    case Pad(guarded, handler) => ReturnsPlaced(guarded, pads + 1) && ReturnsPlaced(handler, pads + 1)
    case _ => true
  }

  /** The invariant of the protocol that the lemmas below prove by induction over the program. */
  ghost predicate Disciplined(o: Outcome, s: Thread, s1: Thread, pads: nat, prev: Option<Target>)
  {
    && (o.Normal? ==> s1.target == s.target)
    && (o.Returned? ==> pads <= 1 && (pads == 1 ==> prev == Some(s1.target)) && (pads == 0 ==> s1.target == s.target))
    && (o.Transfer? ==> o.to == s.target && !s.unwinding)
    && (s.unwinding ==> s1.unwinding)
  }

  /**
    * The protocol's invariant: a body that completes restores the target it started with;
    * `_except_return` restores the saved target of its pad; a transfer goes to the target
    * that was current when the body started, and never happens while unwinding; the
    * unwinding flag is never reset.
    */
  lemma {:induction false} RunDisciplined(code: seq<Stmt>, depth: nat, prev: Option<Target>, s: Thread, pads: nat)
    requires ReturnsPlaced(code, pads) && (pads == 1 ==> prev.Some?)
    ensures var (o, s1) := Run(code, depth, prev, s); Disciplined(o, s, s1, pads, prev)
    decreases code
  {
    if code != [] {
      var (o, s1) := Exec(code[0], depth, prev, s);
      ExecDisciplined(code[0], depth, prev, s, pads);
      if o.Normal? {
        assert ReturnsPlaced(code[1..], pads) by {
          forall i | 0 <= i < |code[1..]|
            ensures StmtReturnsPlaced(code[1..][i], pads)
          {
            assert code[1..][i] == code[i + 1];
          }
        }
        RunDisciplined(code[1..], depth, prev, s1, pads);
      }
    }
  }

  lemma {:induction false} ExecDisciplined(x: Stmt, depth: nat, prev: Option<Target>, s: Thread, pads: nat)
    requires StmtReturnsPlaced(x, pads) && (pads == 1 ==> prev.Some?)
    ensures var (o, s1) := Exec(x, depth, prev, s); Disciplined(o, s, s1, pads, prev)
    decreases x
  {
    match x
    case Print(_) =>
    case Raise(_) =>
    case Bar =>
    case Report(_) =>
    case ExceptReturn =>
    case Call(body) =>
      RunDisciplined(body, depth, None, s, 0);
    case Pad(guarded, handler) =>
      var saved := s.target;
      var s0 := s.(target := PadBuffer(depth));
      var (o, s1) := Run(guarded, depth + 1, Some(saved), s0);
      RunDisciplined(guarded, depth + 1, Some(saved), s0, pads + 1);
      if o.Transfer? && o.to == PadBuffer(depth) {
        RunDisciplined(handler, depth + 1, Some(saved), s1.(unwinding := true), pads + 1);
      }
  }

  /**
    * A pad whose guarded body completes runs no handler, prints only what the body prints,
    * and leaves the target as it found it.
    */
  lemma PadCompletes(guarded: seq<Stmt>, handler: seq<Stmt>, depth: nat, prev: Option<Target>, s: Thread)
    requires ReturnsPlaced(guarded, 1)
    requires Run(guarded, depth + 1, Some(s.target), s.(target := PadBuffer(depth))).0.Normal?
    ensures var (o, s1) := Exec(Pad(guarded, handler), depth, prev, s);
      && o.Normal? && s1.target == s.target
      && s1.output == Run(guarded, depth + 1, Some(s.target), s.(target := PadBuffer(depth))).1.output
  {
  }

  /**
    * A pad that catches a transfer sets the unwinding flag before its handler runs and, when
    * the handler completes, restores the saved target and passes the panic on with code 3.
    * Only a handler that returns through `_except_return`, or aborts on a second raise,
    * ends the relay.
    */
  lemma PadRelays(guarded: seq<Stmt>, handler: seq<Stmt>, depth: nat, prev: Option<Target>, s: Thread)
    requires ReturnsPlaced(guarded, 1) && ReturnsPlaced(handler, 1)
    requires Run(guarded, depth + 1, Some(s.target), s.(target := PadBuffer(depth))).0.Transfer?
    ensures var (o, s1) := Exec(Pad(guarded, handler), depth, prev, s);
      && s1.unwinding
      && (o == Transfer(3, s.target) || o.Aborted? || o.Returned?)
      && (o.Transfer? ==> s1.target == s.target)
  {
    var s0 := s.(target := PadBuffer(depth));
    var (g, s1) := Run(guarded, depth + 1, Some(s.target), s0);
    RunDisciplined(guarded, depth + 1, Some(s.target), s0, 1);
    var (h, s2) := Run(handler, depth + 1, Some(s.target), s1.(unwinding := true));
    RunDisciplined(handler, depth + 1, Some(s.target), s1.(unwinding := true), 1);
  }

  /** A raise while unwinding aborts; otherwise it jumps to the current target with code 2. */
  lemma RaiseOutcome(info: Panic, depth: nat, prev: Option<Target>, s: Thread)
    ensures var (o, s1) := Exec(Raise(info), depth, prev, s);
      && s1.panic == info && s1.target == s.target
      && (s.unwinding ==> o.Aborted?)
      && (!s.unwinding ==> o == Transfer(2, s.target))
  {
  }

  /**
    * `main` returns the code of the transfer that reached its root target: every transfer
    * out of `__lang_main` goes to the root, and carries 2 when raised there directly or 3
    * when a pad relayed it.
    */
  lemma MainCodes(program: seq<Stmt>)
    requires ReturnsPlaced(program, 0)
    ensures var (o, s) := Exec(Call(program), 0, None, Start());
      o.Transfer? ==> o.to == Final && Launch(program).0 == Code(o.code)
  {
    RunDisciplined(program, 0, None, Start(), 0);
  }

  lemma {:induction false} TransferCodes(code: seq<Stmt>, depth: nat, prev: Option<Target>, s: Thread)
    ensures var (o, _) := Run(code, depth, prev, s); o.Transfer? ==> o.code == 2 || o.code == 3
    decreases code
  {
    if code != [] {
      ExecTransferCodes(code[0], depth, prev, s);
      var (o, s1) := Exec(code[0], depth, prev, s);
      if o.Normal? {
        TransferCodes(code[1..], depth, prev, s1);
      }
    }
  }

  lemma {:induction false} ExecTransferCodes(x: Stmt, depth: nat, prev: Option<Target>, s: Thread)
    ensures var (o, _) := Exec(x, depth, prev, s); o.Transfer? ==> o.code == 2 || o.code == 3
    decreases x
  {
    match x
    case Print(_) =>
    case Raise(_) =>
    case Bar =>
    case Report(_) =>
    case ExceptReturn =>
    case Call(body) =>
      TransferCodes(body, depth, None, s);
    case Pad(guarded, handler) =>
      var s0 := s.(target := PadBuffer(depth));
      TransferCodes(guarded, depth + 1, Some(s.target), s0);
      var (o, s1) := Run(guarded, depth + 1, Some(s.target), s0);
      if o.Transfer? && o.to == PadBuffer(depth) {
        TransferCodes(handler, depth + 1, Some(s.target), s1.(unwinding := true));
      }
  }

  // ---------------------------------------------------------------------------------------
  // Nested landing pads

  /** A handler that only prints: lines and reports of the payload. */
  predicate Quiet(handler: seq<Stmt>)
  {
    forall i :: 0 <= i < |handler| ==> handler[i].Print? || handler[i].Report?
  }

  /** What a quiet handler prints for the payload `p`. */
  function QuietOutput(handler: seq<Stmt>, p: Panic): seq<string>
    requires Quiet(handler)
    decreases |handler|
  {
    if handler == [] then [] else [QuietLine(handler[0], p)] + QuietOutput(handler[1..], p)
  }

  /** The line a printing statement of a handler prints. */
  function QuietLine(x: Stmt, p: Panic): string
  {
    match x
    case Print(line) => line
    case Report(who) => Describe(who, p)
    case _ => ""
  }

  /** `handlers.len()` landing pads one inside the other around `body`; `handlers[0]` belongs to the outermost. */
  function Nest(handlers: seq<seq<Stmt>>, body: seq<Stmt>): seq<Stmt>
    decreases |handlers|
  {
    if handlers == [] then body else [Pad(Nest(handlers[1..], body), handlers[0])]
  }

  /** The lines of quiet handlers run from the innermost pad outwards. */
  function UnwindLines(handlers: seq<seq<Stmt>>, p: Panic): seq<string>
    requires forall i :: 0 <= i < |handlers| ==> Quiet(handlers[i])
    decreases |handlers|
  {
    if handlers == [] then [] else UnwindLines(handlers[1..], p) + QuietOutput(handlers[0], p)
  }

  /** A quiet handler completes, prints its lines and changes nothing else. */
  lemma {:induction false} QuietRuns(handler: seq<Stmt>, depth: nat, prev: Option<Target>, s: Thread)
    requires Quiet(handler)
    ensures Run(handler, depth, prev, s) == (Normal, s.(output := s.output + QuietOutput(handler, s.panic)))
    decreases |handler|
  {
    if handler != [] {
      var s1 := s.(output := s.output + [QuietLine(handler[0], s.panic)]);
      assert Quiet(handler[1..]) by {
        forall i | 0 <= i < |handler[1..]| ensures handler[1..][i].Print? || handler[1..][i].Report? {
          assert handler[1..][i] == handler[i + 1];
        }
      }
      QuietStep(handler[0], depth, prev, s);
      QuietRuns(handler[1..], depth, prev, s1);
      assert Run(handler, depth, prev, s) == Run(handler[1..], depth, prev, s1);
      assert s1.output + QuietOutput(handler[1..], s.panic) == s.output + QuietOutput(handler, s.panic);
    } else {
      assert s.output + QuietOutput(handler, s.panic) == s.output;
    }
  }

  /** One printing statement of a handler completes and prints its line. */
  lemma QuietStep(x: Stmt, depth: nat, prev: Option<Target>, s: Thread)
    requires x.Print? || x.Report?
    ensures Exec(x, depth, prev, s) == (Normal, s.(output := s.output + [QuietLine(x, s.panic)]))
  {
  }

  /** A pad that catches a transfer from its guarded body and whose handler completes relays it with code 3. */
  lemma PadCatch(guarded: seq<Stmt>, handler: seq<Stmt>, depth: nat, prev: Option<Target>, s: Thread, code: int, sg: Thread, sh: Thread)
    requires Run(guarded, depth + 1, Some(s.target), s.(target := PadBuffer(depth))) == (Transfer(code, PadBuffer(depth)), sg)
    requires Run(handler, depth + 1, Some(s.target), sg.(unwinding := true)) == (Normal, sh)
    ensures Exec(Pad(guarded, handler), depth, prev, s) == (Transfer(3, s.target), sh.(target := s.target))
  {
  }

  /** A nest of one pad fewer, with the same handlers inside. */
  lemma NestTail(handlers: seq<seq<Stmt>>)
    requires handlers != [] && forall i :: 0 <= i < |handlers| ==> Quiet(handlers[i])
    ensures forall i :: 0 <= i < |handlers[1..]| ==> Quiet(handlers[1..][i])
  {
    forall i | 0 <= i < |handlers[1..]| ensures Quiet(handlers[1..][i]) {
      assert handlers[1..][i] == handlers[i + 1];
    }
  }

  /**
    * A panic raised inside k nested pads with quiet handlers: each pad catches it in turn,
    * innermost first, its handler prints, and it is passed on outwards; what leaves the
    * outermost pad is a transfer with code 3 to the target that was current outside the
    * nest (code 2 with no pad at all), with the target restored.
    */
  lemma {:induction false} NestRelays(handlers: seq<seq<Stmt>>, info: Panic, depth: nat, prev: Option<Target>, s: Thread)
    requires !s.unwinding && forall i :: 0 <= i < |handlers| ==> Quiet(handlers[i])
    ensures Run(Nest(handlers, [Raise(info)]), depth, prev, s) ==
      (Transfer(if handlers == [] then 2 else 3, s.target),
       s.(unwinding := handlers != [], panic := info, output := s.output + UnwindLines(handlers, info)))
    decreases |handlers|
  {
    if handlers == [] {
      assert Nest(handlers, [Raise(info)]) == [Raise(info)] && [Raise(info)][1..] == [];
      assert Exec(Raise(info), depth, prev, s) == (Transfer(2, s.target), s.(panic := info));
      assert UnwindLines(handlers, info) == [] && s.output + [] == s.output;
    } else {
      NestTail(handlers);
      var inner := Nest(handlers[1..], [Raise(info)]);
      var s0 := s.(target := PadBuffer(depth));
      NestRelays(handlers[1..], info, depth + 1, Some(s.target), s0);
      var s1 := s0.(unwinding := handlers[1..] != [], panic := info, output := s.output + UnwindLines(handlers[1..], info));
      assert Run(inner, depth + 1, Some(s.target), s0).1 == s1;
      QuietRuns(handlers[0], depth + 1, Some(s.target), s1.(unwinding := true));
      NestPadStep(handlers, inner, info, depth, prev, s);
    }
  }

  /** The outermost pad of a nest: it catches the transfer from inside and relays it with code 3. */
  lemma NestPadStep(handlers: seq<seq<Stmt>>, inner: seq<Stmt>, info: Panic, depth: nat, prev: Option<Target>, s: Thread)
    requires handlers != [] && forall i :: 0 <= i < |handlers| ==> Quiet(handlers[i])
    requires inner == Nest(handlers[1..], [Raise(info)])
    requires forall i :: 0 <= i < |handlers[1..]| ==> Quiet(handlers[1..][i])
    requires var s0 := s.(target := PadBuffer(depth));
      Run(inner, depth + 1, Some(s.target), s0) ==
      (Transfer(if handlers[1..] == [] then 2 else 3, PadBuffer(depth)),
       s0.(unwinding := handlers[1..] != [], panic := info, output := s.output + UnwindLines(handlers[1..], info)))
    ensures Run(Nest(handlers, [Raise(info)]), depth, prev, s) ==
      (Transfer(3, s.target), s.(unwinding := true, panic := info, output := s.output + UnwindLines(handlers, info)))
  {
    var s0 := s.(target := PadBuffer(depth));
    var sg := s0.(unwinding := handlers[1..] != [], panic := info, output := s.output + UnwindLines(handlers[1..], info));
    var s1 := sg.(unwinding := true);
    QuietRuns(handlers[0], depth + 1, Some(s.target), s1);
    var s2 := s1.(output := s1.output + QuietOutput(handlers[0], info));
    PadCatch(inner, handlers[0], depth, prev, s, if handlers[1..] == [] then 2 else 3, sg, s2);
    assert Nest(handlers, [Raise(info)]) == [Pad(inner, handlers[0])];
    assert [Pad(inner, handlers[0])][1..] == [];
    assert UnwindLines(handlers, info) == UnwindLines(handlers[1..], info) + QuietOutput(handlers[0], info);
    assert s2.output == s.output + UnwindLines(handlers, info);
  }

  /**
    * When the outermost handler of such a nest ends in `_except_return` after printing, the
    * panic stops there: the handlers still run innermost first, and the nest returns with
    * the outer target restored.
    */
  lemma NestReturns(outer: seq<Stmt>, handlers: seq<seq<Stmt>>, info: Panic, depth: nat, prev: Option<Target>, s: Thread)
    requires !s.unwinding && Quiet(outer) && forall i :: 0 <= i < |handlers| ==> Quiet(handlers[i])
    ensures Run(Nest([outer + [ExceptReturn]] + handlers, [Raise(info)]), depth, prev, s) ==
      (Returned, s.(unwinding := true, panic := info, output := s.output + UnwindLines(handlers, info) + QuietOutput(outer, info)))
  {
    var all := [outer + [ExceptReturn]] + handlers;
    assert all[1..] == handlers && all[0] == outer + [ExceptReturn];
    var inner := Nest(handlers, [Raise(info)]);
    var s0 := s.(target := PadBuffer(depth));
    NestRelays(handlers, info, depth + 1, Some(s.target), s0);
    var s1 := s0.(unwinding := true, panic := info, output := s.output + UnwindLines(handlers, info));
    QuietRuns(outer, depth + 1, Some(s.target), s1);
    var s2 := s1.(output := s1.output + QuietOutput(outer, info));
    RunAppend(outer, [ExceptReturn], depth + 1, Some(s.target), s1);
    assert [ExceptReturn][1..] == [];
    assert Run(outer + [ExceptReturn], depth + 1, Some(s.target), s1) == (Returned, s2.(target := s.target));
    assert Exec(Pad(inner, all[0]), depth, prev, s) == (Returned, s2.(target := s.target));
    assert Nest(all, [Raise(info)]) == [Pad(inner, all[0])];
    assert [Pad(inner, all[0])][1..] == [];
  }

  // ---------------------------------------------------------------------------------------
  // The demo program

  const FooHandler: seq<Stmt> := [Report("foo")]

  /** `foo`: a pad around a call of `bar`. */
  const Foo: seq<Stmt> := [Pad([Print("foo start\n"), Bar, Print("foo end\n")], FooHandler)]

  const MainHandler: seq<Stmt> := [Print("(main) PANIC: hello\n"), Report("main")]

  /** `__lang_main`: a pad around ten calls of `foo`. */
  const LangMain: seq<Stmt> := [Pad(FooCalls(10), MainHandler)]

  /** What one call of `foo` prints when its `bar` does not panic. */
  const FooLines: seq<string> := ["foo start\n", "bar\n", "foo end\n"]

  /** `n` calls of `foo` whose `bar` stays quiet. */
  function QuietLines(n: nat): seq<string>
  {
    if n == 0 then [] else FooLines + QuietLines(n - 1)
  }

  /** `n` calls of `foo` in a row, as in the loop of `__lang_main`. */
  function FooCalls(n: nat): seq<Stmt>
  {
    seq(n, _ => Call(Foo))
  }

  /** Running one piece of code after another is running the two in turn. */
  lemma {:induction false} RunAppend(a: seq<Stmt>, b: seq<Stmt>, depth: nat, prev: Option<Target>, s: Thread)
    ensures Run(a + b, depth, prev, s) ==
      var (o, s1) := Run(a, depth, prev, s); if o.Normal? then Run(b, depth, prev, s1) else (o, s1)
    decreases a
  {
    if a == [] {
      assert a + b == b;
    } else {
      assert (a + b)[0] == a[0] && (a + b)[1..] == a[1..] + b;
      var (o, s1) := Exec(a[0], depth, prev, s);
      if o.Normal? {
        RunAppend(a[1..], b, depth, prev, s1);
      }
    }
  }

  /** A call of `foo` before bar's tenth call completes, prints its three lines and restores the target. */
  lemma FooQuiet(depth: nat, prev: Option<Target>, s: Thread)
    requires s.counter < 9
    ensures Exec(Call(Foo), depth, prev, s) == (Normal, s.(counter := s.counter + 1, output := s.output + FooLines))
  {
    var body := [Print("foo start\n"), Bar, Print("foo end\n")];
    var s0 := s.(target := PadBuffer(depth));
    var sa := s0.(output := s0.output + ["foo start\n"]);
    var sb := sa.(counter := sa.counter + 1, output := sa.output + ["bar\n"]);
    var sc := sb.(output := sb.output + ["foo end\n"]);
    assert body[1..] == [Bar, Print("foo end\n")] && body[1..][1..] == [Print("foo end\n")];
    assert Run(body[1..][1..], depth + 1, Some(s.target), sb) == (Normal, sc);
    assert Run(body[1..], depth + 1, Some(s.target), sa) == (Normal, sc);
    assert Run(body, depth + 1, Some(s.target), s0) == (Normal, sc);
    assert Foo[0] == Pad(body, FooHandler) && Foo[1..] == [];
    assert Exec(Foo[0], depth, None, s) == (Normal, sc.(target := s.target));
    assert Run(Foo, depth, None, s) == (Normal, sc.(target := s.target));
    assert sa.output + ["bar\n"] + ["foo end\n"] == s.output + FooLines;
    assert Exec(Call(Foo), depth, prev, s) == Exec(Call(Foo), depth, None, s);
  }

  /** Calls of `foo` that all stay before bar's tenth call complete one after another. */
  lemma {:induction false} QuietCalls(n: nat, depth: nat, prev: Option<Target>, s: Thread)
    requires s.counter + n <= 9
    ensures Run(FooCalls(n), depth, prev, s) == (Normal, s.(counter := s.counter + n, output := s.output + QuietLines(n)))
  {
    if n == 0 {
      assert FooCalls(0) == [] && s.output + QuietLines(0) == s.output;
    } else {
      var s1 := s.(counter := s.counter + 1, output := s.output + FooLines);
      FooQuiet(depth, prev, s);
      assert FooCalls(n)[0] == Call(Foo) && FooCalls(n)[1..] == FooCalls(n - 1);
      QuietCalls(n - 1, depth, prev, s1);
      assert Run(FooCalls(n), depth, prev, s) == Run(FooCalls(n - 1), depth, prev, s1);
      assert s.output + FooLines + QuietLines(n - 1) == s.output + QuietLines(n);
    }
  }

  /** The tenth call of `foo`: its pad catches bar's panic, prints, and passes it on with code 3. */
  lemma FooPanics(depth: nat, prev: Option<Target>, s: Thread)
    requires s.counter == 9 && !s.unwinding
    ensures var (o, s1) := Exec(Call(Foo), depth, prev, s);
      && o == Transfer(3, s.target) && s1.target == s.target && s1.unwinding && s1.counter == 10
      && s1.panic == Message(BarMessage)
      && s1.output == s.output + ["foo start\n", "bar\n", Describe("foo", Message(BarMessage))]
  {
    var body := [Print("foo start\n"), Bar, Print("foo end\n")];
    var s0 := s.(target := PadBuffer(depth));
    var sa := s0.(output := s0.output + ["foo start\n"]);
    var sb := sa.(counter := 10, output := sa.output + ["bar\n"], panic := Message(BarMessage));
    assert body[1..] == [Bar, Print("foo end\n")];
    assert Run(body[1..], depth + 1, Some(s.target), sa) == (Transfer(2, PadBuffer(depth)), sb);
    assert Run(body, depth + 1, Some(s.target), s0) == (Transfer(2, PadBuffer(depth)), sb);
    var sh := sb.(unwinding := true);
    var sd := sh.(output := sh.output + [Describe("foo", Message(BarMessage))]);
    assert FooHandler[1..] == [];
    assert Run(FooHandler, depth + 1, Some(s.target), sh) == (Normal, sd);
    assert Foo[0] == Pad(body, FooHandler) && Foo[1..] == [];
    assert Exec(Foo[0], depth, None, s) == (Transfer(3, s.target), sd.(target := s.target));
    assert Run(Foo, depth, None, s) == (Transfer(3, s.target), sd.(target := s.target));
    assert Exec(Call(Foo), depth, prev, s) == Exec(Call(Foo), depth, None, s);
  }

  /** Ten calls of `foo` under the pad of `__lang_main`: the tenth passes bar's panic on to that pad with code 3. */
  lemma TenCalls(s0: Thread)
    requires s0 == Start().(target := PadBuffer(0))
    ensures var (o, s10) := Run(FooCalls(10), 1, Some(Final), s0);
      && o == Transfer(3, PadBuffer(0)) && s10.unwinding && s10.panic == Message(BarMessage)
      && s10.output == QuietLines(9) + ["foo start\n", "bar\n", Describe("foo", Message(BarMessage))]
  {
    assert FooCalls(10) == FooCalls(9) + [Call(Foo)];
    RunAppend(FooCalls(9), [Call(Foo)], 1, Some(Final), s0);
    QuietCalls(9, 1, Some(Final), s0);
    var s9 := s0.(counter := 9, output := QuietLines(9));
    assert s0.output + QuietLines(9) == QuietLines(9);
    assert Run(FooCalls(9), 1, Some(Final), s0) == (Normal, s9);
    FooPanics(1, Some(Final), s9);
    assert [Call(Foo)][0] == Call(Foo) && [Call(Foo)][1..] == [];
  }

  /**
    * The demo: nine calls of `foo` complete, bar panics in the tenth, the handler of `foo`
    * and then that of `__lang_main` run, and `main` returns 3.
    */
  lemma DemoReturnsThree()
    ensures Launch(LangMain).0 == Code(3)
    ensures Launch(LangMain).1.output == QuietLines(9) + [
      "foo start\n", "bar\n",
      Describe("foo", Message(BarMessage)),
      "(main) PANIC: hello\n",
      Describe("main", Message(BarMessage)),
      Describe("start", Message(BarMessage))]
  {
    var s := Start();
    var s0 := s.(target := PadBuffer(0));
    TenCalls(s0);
    var (o, s10) := Run(FooCalls(10), 1, Some(Final), s0);
    var sh := s10.(unwinding := true);
    assert sh == s10;
    var m1 := sh.(output := sh.output + ["(main) PANIC: hello\n"]);
    var m2 := m1.(output := m1.output + [Describe("main", Message(BarMessage))]);
    assert MainHandler[1..] == [Report("main")];
    assert Run(MainHandler, 1, Some(Final), sh) == (Normal, m2);
    assert LangMain[0] == Pad(FooCalls(10), MainHandler) && LangMain[1..] == [];
    assert Exec(LangMain[0], 0, None, s) == (Transfer(3, Final), m2.(target := Final));
    assert Run(LangMain, 0, None, s) == (Transfer(3, Final), m2.(target := Final));
  }

  // ---------------------------------------------------------------------------------------
  // The runtime as the C code runs it: thread-local globals updated in place

  /** The thread-local globals `__target`, `__is_unwinding` and `panic_info`, bar's `COUNTER` and what has been printed. */
  class Runtime {
    var target: Target
    var isUnwinding: bool
    var panicInfo: Panic
    var counter: nat
    var output: seq<string>

    function State(): Thread
      reads this
    {
      Thread(target, isUnwinding, panicInfo, counter, output)
    }

    /** The zero-initialised globals of a new thread. */
    constructor ()
      ensures State() == Start()
    {
      target := Final;
      isUnwinding := false;
      panicInfo := Status(0);
      counter := 0;
      output := [];
    }

    /** `lang_start_panic_unwind`. */
    method StartPanicUnwind() returns (o: Outcome)
      modifies this
      ensures (o, State()) == StartUnwind(old(State()))
    {
      if isUnwinding {
        output := output + [AbortLine];
        return Aborted;
      }
      o := Transfer(2, target);
    }

    /** One statement; a pad saves `__target`, installs its own buffer and restores the saved one. */
    method Execute(x: Stmt, depth: nat, prev: Option<Target>) returns (o: Outcome)
      modifies this
      ensures (o, State()) == Exec(x, depth, prev, old(State()))
      decreases x
    {
      match x
      case Print(line) =>
        output := output + [line];
        o := Normal;
      case Report(who) =>
        output := output + [Describe(who, panicInfo)];
        o := Normal;
      case Raise(info) =>
        panicInfo := info;
        o := StartPanicUnwind();
      case Bar =>
        output := output + ["bar\n"];
        counter := counter + 1;
        if counter == 10 {
          panicInfo := Message(BarMessage);
          o := StartPanicUnwind();
        } else {
          o := Normal;
        }
      case ExceptReturn =>
        if prev.Some? {
          target := prev.value;
        }
        o := Returned;
      case Call(body) =>
        o := ExecuteAll(body, depth, None);
        if o.Returned? {
          o := Normal;
        }
      case Pad(guarded, handler) =>
        var saved := target;
        target := PadBuffer(depth);
        o := ExecuteAll(guarded, depth + 1, Some(saved));
        if o.Normal? {
          target := saved;
        } else if o.Transfer? && o.to == PadBuffer(depth) {
          isUnwinding := true;
          var h := ExecuteAll(handler, depth + 1, Some(saved));
          if h.Normal? {
            target := saved;
            o := Transfer(3, saved);
          } else {
            o := h;
          }
        }
    }

    /** A sequence of statements, stopping at the first that does not complete. */
    method ExecuteAll(code: seq<Stmt>, depth: nat, prev: Option<Target>) returns (o: Outcome)
      modifies this
      ensures (o, State()) == Run(code, depth, prev, old(State()))
      decreases code
    {
      o := Normal;
      var i := 0;
      while i < |code| && o.Normal?
        invariant 0 <= i <= |code|
        invariant o.Normal? ==> Run(code, depth, prev, old(State())) == Run(code[i..], depth, prev, State())
        invariant !o.Normal? ==> (o, State()) == Run(code, depth, prev, old(State()))
        decreases |code| - i
      {
        assert code[i..][0] == code[i] && code[i..][1..] == code[i + 1..];
        o := Execute(code[i], depth, prev);
        i := i + 1;
      }
      if o.Normal? {
        assert code[i..] == [];
      }
    }

    /** `main`: installs the root target, runs `__lang_main` and reports a panic that reaches the root. */
    method RunMain(program: seq<Stmt>) returns (e: Exit)
      requires State().(target := Final) == Start()
      modifies this
      ensures (e, State()) == Launch(program)
    {
      target := Final;
      var o := Execute(Call(program), 0, None);
      match o
      case Transfer(code, _) =>
        output := output + [Describe("start", panicInfo)];
        e := Code(code);
      case Aborted =>
        e := Abort;
      case _ =>
        e := Fell;
    }
  }
}
