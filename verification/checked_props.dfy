/**
  Properties of the checked generator (compiler/risc_generator.c) that
  relate several calls or hold of everything an expression can emit.
*/
module CheckedProps {
  import opened Wrappers
  import opened Isa
  import opened Ast
  import opened CText
  import opened GenState
  import opened Lower
  import opened Statements
  import D = Diagnostics
  import M = Machine

  /** The lines appended between two states of one walk. */
  ghost function Added(g: Gen, r: Gen): seq<Instr>
    requires g.out <= r.out
  {
    r.out[|g.out|..]
  }

  lemma AddedSplit(a: Gen, b: Gen, c: Gen)
    requires a.out <= b.out <= c.out
    ensures Added(a, c) == Added(a, b) + Added(b, c)
  {
  }

  lemma AddedOf(g: Gen, r: Gen, lines: seq<Instr>)
    requires r.out == g.out + lines
    ensures Added(g, r) == lines
  {
  }

  lemma AddedEmit(g: Gen, lines: seq<Instr>)
    ensures Added(g, Emit(g, lines)) == lines
  {
  }

  // ----- division guard -----

  predicate IsDivide(i: Instr) {
    i.Alu? && (i.op == DIV || i.op == REM)
  }

  /** A branch taken when register `r` is zero. */
  predicate ZeroTest(i: Instr, r: Reg) {
    i.Beq? && i.rs1 == r && i.rs2 == X0
  }

  /** Line `k`, if it is a `div`/`rem`, is preceded one or two lines earlier by a branch taken when its divisor is zero. */
  predicate GuardedAt(code: seq<Instr>, k: int)
    requires 0 <= k < |code|
  {
    IsDivide(code[k]) ==>
      (1 <= k && ZeroTest(code[k - 1], code[k].rs2)) || (2 <= k && ZeroTest(code[k - 2], code[k].rs2))
  }

  /** Every `div`/`rem` is guarded. */
  predicate Guarded(code: seq<Instr>) {
    forall k :: 0 <= k < |code| ==> GuardedAt(code, k)
  }

  predicate NoDivide(code: seq<Instr>) {
    forall i | i in code :: !IsDivide(i)
  }

  lemma NoDivideGuarded(code: seq<Instr>)
    requires NoDivide(code)
    ensures Guarded(code)
  {
    forall k | 0 <= k < |code| ensures GuardedAt(code, k) {
      assert code[k] in code;
    }
  }

  lemma GuardedAppend(a: seq<Instr>, b: seq<Instr>)
    requires Guarded(a) && Guarded(b)
    ensures Guarded(a + b)
  {
    var c := a + b;
    forall k | 0 <= k < |c| ensures GuardedAt(c, k) {
      if k < |a| {
        assert GuardedAt(a, k);
        assert c[k] == a[k];
        if 1 <= k { assert c[k - 1] == a[k - 1]; }
        if 2 <= k { assert c[k - 2] == a[k - 2]; }
      } else {
        var j := k - |a|;
        assert GuardedAt(b, j);
        assert c[k] == b[j];
        if 1 <= j { assert c[k - 1] == b[j - 1]; }
        if 2 <= j { assert c[k - 2] == b[j - 2]; }
      }
    }
  }

  lemma NoDivideAppend(a: seq<Instr>, b: seq<Instr>)
    requires NoDivide(a) && NoDivide(b)
    ensures NoDivide(a + b)
  {
  }

  lemma {:induction false} StoreCharsNoDivide(cs: seq<Byte>)
    ensures NoDivide(StoreChars(cs))
    decreases |cs|
  {
    if |cs| > 0 {
      StoreCharsNoDivide(cs[1..]);
      var head := [Li(X1, SignedChar(cs[0])), Sw(X2, 0, X1), Addi(X2, X2, 1)];
      assert StoreChars(cs) == head + StoreChars(cs[1..]);
      NoDivideAppend(head, StoreChars(cs[1..]));
    }
  }

  /** The guarded head of a division or remainder: the zero test, at most one line, then the operation. */
  lemma GuardedHead(head: seq<Instr>, rr: Reg)
    requires |head| == 3 || |head| == 4
    requires ZeroTest(head[1], rr) && IsDivide(head[|head| - 1]) && head[|head| - 1].rs2 == rr
    requires forall k :: 0 <= k < |head| - 1 ==> !IsDivide(head[k])
    ensures Guarded(head)
  {
    forall k | 0 <= k < |head| ensures GuardedAt(head, k) {
      if k == |head| - 1 {
        assert head[|head| - 1 - (|head| - 2)] == head[1];
      }
    }
  }

  lemma OpLinesGuarded(op: string, t: Reg, lr: Reg, rr: Reg, l: Node, r: Node, n: nat)
    ensures Guarded(OpLines(op, t, lr, rr, l, r, n))
  {
    var code := OpLines(op, t, lr, rr, l, r, n);
    if op == "/" {
      var head := [Comment, Beq(rr, X0, Label("division_by_zero", n)), Alu(DIV, t, lr, rr)];
      var tail := [Jal(X0, Label("after_division", n)), Mark(Label("division_by_zero", n)), Li(t, 0), Mark(Label("after_division", n))];
      assert code == head + tail;
      GuardedHead(head, rr);
      NoDivideGuarded(tail);
      GuardedAppend(head, tail);
    } else if op == "%" {
      var head := [Comment, Beq(rr, X0, Label("modulo_by_zero", n)), Comment, Alu(REM, t, lr, rr)];
      var tail := [Jal(X0, Label("after_modulo", n)), Mark(Label("modulo_by_zero", n)), Li(t, 0), Mark(Label("after_modulo", n))];
      assert code == head + tail;
      GuardedHead(head, rr);
      NoDivideGuarded(tail);
      GuardedAppend(head, tail);
    } else {
      assert NoDivide(code);
      NoDivideGuarded(code);
    }
  }

  /** Guarded stretches of one walk compose. */
  lemma GuardedChain(a: Gen, b: Gen, c: Gen)
    requires a.out <= b.out <= c.out
    requires Guarded(Added(a, b)) && Guarded(Added(b, c))
    ensures Guarded(Added(a, c))
  {
    AddedSplit(a, b, c);
    GuardedAppend(Added(a, b), Added(b, c));
  }

  lemma EmitGuarded(g: Gen, lines: seq<Instr>)
    requires NoDivide(lines)
    ensures Guarded(Added(g, Emit(g, lines)))
  {
    AddedEmit(g, lines);
    NoDivideGuarded(lines);
  }

  lemma StringLiteralGuarded(g: Gen, s: string, t: Reg)
    ensures Guarded(Added(g, Emit(AddStringLiteral(g, s).0, [Li(t, AddStringLiteral(g, s).1)])))
  {
    StoreCharsNoDivide(Payload(Utf8(s)));
    var (g1, a) := AddStringLiteral(g, s);
    var stored := [Li(X2, g.memoryPos)] + StoreChars(Payload(Utf8(s))) + [Li(X1, 0), Sw(X2, 0, X1)];
    NoDivideAppend([Li(X2, g.memoryPos)], StoreChars(Payload(Utf8(s))));
    NoDivideAppend([Li(X2, g.memoryPos)] + StoreChars(Payload(Utf8(s))), [Li(X1, 0), Sw(X2, 0, X1)]);
    assert g1.out == g.out + stored;
    EmitGuarded(g, stored);
    assert Emit(g, stored).out == g1.out;
    EmitGuarded(g1, [Li(t, a)]);
    GuardedChain(g, g1, Emit(g1, [Li(t, a)]));
  }

  /** The "." case of `EvalGuarded`: both operands (a nested concatenation through x10), then the copy. */
  lemma {:induction false} ConcatOperandsGuarded(g: Gen, e: Node, t: Reg)
    requires e.BinOp?
    ensures Guarded(Added(g, EvalConcat(g, e, t)))
    decreases e, 2
  {
    var l, rt := e.left, e.right;
    var g1 := if l.IsConcat() then Emit(Eval(g, l, X10), [Addi(X5, X10, 0)]) else Eval(g, l, X5);
    if l.IsConcat() {
      var g0 := Eval(g, l, X10);
      EvalGuarded(g, l, X10);
      EmitGuarded(g0, [Addi(X5, X10, 0)]);
      GuardedChain(g, g0, g1);
    } else {
      EvalGuarded(g, l, X5);
    }
    var g2 := Eval(g1, rt, X6);
    EvalGuarded(g1, rt, X6);
    ProcessConcatGuarded(g2, e, t);
    GuardedChain(g, g1, g2);
    GuardedChain(g, g2, ProcessConcat(g2, e, t));
  }

  lemma {:induction false} EvalGuarded(g: Gen, e: Node, t: Reg)
    ensures Guarded(Added(g, Eval(g, e, t)))
    decreases e, 3
  {
    match e
    case BinOp(op, l, rt) =>
      if op == "." {
        ConcatOperandsGuarded(g, e, t);
      } else {
        LowerBinaryGuarded(g, e, t);
      }
    case StrLit(s) =>
      StringLiteralGuarded(g, s, t);
    case IntLit(v) =>
      EmitGuarded(g, [Li(t, v)]);
    case Ident(x) =>
      var (g1, a) := GetVariableAddress(g, x);
      if a != -1 {
        EmitGuarded(g1, [Li(X2, a), Lw(X31, X2, 0), Alu(ADD, t, X31, X0)]);
      } else {
        EmitGuarded(g1, [Li(t, 0)]);
      }
      assert Added(g, Eval(g, e, t)) == Added(g1, Eval(g, e, t));
    case _ =>
      EmitGuarded(g, [Comment]);
  }

  lemma CopyLoopGuarded(g: Gen, r1: Reg, r2: Reg)
    ensures Guarded(Added(g, ConcatenateStrings(g, r1, r2).0))
  {
    var code := CopyLoop(r1, r2, g.memoryPos, g.labelCounter);
    assert NoDivide(code);
    NoDivideGuarded(code);
  }

  lemma {:induction false} ProcessConcatGuarded(g: Gen, e: Node, t: Reg)
    requires e.BinOp?
    ensures Guarded(Added(g, ProcessConcat(g, e, t)))
    decreases e, 1
  {
    var g1 := Eval(g, e.left, X5);
    var g2 := Eval(g1, e.right, X6);
    var (g3, a) := ConcatenateStrings(g2, X5, X6);
    EvalGuarded(g, e.left, X5);
    EvalGuarded(g1, e.right, X6);
    CopyLoopGuarded(g2, X5, X6);
    EmitGuarded(g3, [Li(t, a)]);
    GuardedChain(g, g1, g2);
    GuardedChain(g, g2, g3);
    GuardedChain(g, g3, Emit(g3, [Li(t, a)]));
  }

  lemma {:induction false} LowerOperandsGuarded(g: Gen, e: Node, t: Reg)
    requires e.BinOp?
    ensures Guarded(Added(g, LowerOperands(g, e, t)))
    decreases e, 0
  {
    var (lr, rr) := ScratchPair(t);
    var g1 := Eval(g, e.left, lr);
    EvalGuarded(g, e.left, lr);
    EvalGuarded(g1, e.right, rr);
    AddedSplit(g, g1, Eval(g1, e.right, rr));
    GuardedAppend(Added(g, g1), Added(g1, Eval(g1, e.right, rr)));
  }

  lemma {:induction false} LowerBinaryGuarded(g: Gen, e: Node, t: Reg)
    requires e.BinOp? && !e.IsConcat()
    ensures Guarded(Added(g, LowerBinary(g, e, t)))
    decreases e, 1
  {
    var lt := OperandType(g, e.left);
    var rt := OperandType(g, e.right);
    var g1 := TypeCheck(g, lt, rt, e.op);
    var r := LowerBinary(g, e, t);
    if !(IsDivOp(e.op) && e.right.IsIntZero()) {
      var g2 := LowerOperands(g1, e, t);
      LowerOperandsGuarded(g1, e, t);
      assert Added(g, g2) == Added(g1, g2);
      if !D.IsCritical(g2.err) && !ModuloOnString(e.op, lt, rt) {
        var (lr, rr) := ScratchPair(t);
        var lines := OpLines(e.op, t, lr, rr, e.left, e.right, g2.labelCounter);
        OpLinesGuarded(e.op, t, lr, rr, e.left, e.right, g2.labelCounter);
        assert r.out == Emit(g2, lines).out;
        AddedSplit(g, g2, r);
        GuardedAppend(Added(g, g2), Added(g2, r));
      } else if !D.IsCritical(g2.err) {
        AddedSplit(g, g2, r);
        GuardedAppend(Added(g, g2), Added(g2, r));
      }
    }
  }

  // ----- literal zero divisors -----

  /**
    A "/" or "%" whose divisor is the literal 0 is reported and replaced by
    `li t, 0`: the operands are never lowered, so nothing else is emitted,
    no label is taken and no memory is reserved; the state becomes critical.
  */
  lemma DivisionByLiteralZero(g: Gen, op: string, l: Node, t: Reg)
    requires op == "/" || op == "%"
    ensures var r := Eval(g, BinOp(op, l, IntLit(0)), t);
      && r.out == g.out + [Li(t, 0)]
      && r.labelCounter == g.labelCounter && r.memoryPos == g.memoryPos && r.addrs == g.addrs
      && |r.err.log| > 0 && r.err.log[|r.err.log| - 1] == D.DivisionByZero
      && r.err.count > g.err.count
      && D.IsCritical(r.err)
  {
    var e := BinOp(op, l, IntLit(0));
    var g1 := TypeCheck(g, OperandType(g, l), OperandType(g, IntLit(0)), op);
    assert Eval(g, e, t) == Emit(ReportErr(g1, D.DivisionByZero), [Li(t, 0)]);
  }

  /**
    A division or modulo whose divisor is not a literal zero, once the
    operands are lowered and the state is not critical: a branch taken when
    the divisor register is zero comes first, then the `div`/`rem`; both of
    the operator's labels carry the counter's value, and the counter moves
    by exactly one.
  */
  lemma DivisionIsGuarded(g: Gen, e: Node, t: Reg, lt: Option<string>, rt: Option<string>)
    requires e.BinOp? && IsDivOp(e.op) && !D.IsCritical(g.err) && !ModuloOnString(e.op, lt, rt)
    ensures var r := LowerOperator(g, e, t, lt, rt);
      var (lr, rr) := ScratchPair(t);
      var n := g.labelCounter;
      var zeroL := if e.op == "/" then Label("division_by_zero", n) else Label("modulo_by_zero", n);
      var afterL := if e.op == "/" then Label("after_division", n) else Label("after_modulo", n);
      && g.out <= r.out
      && r.labelCounter == n + 1
      && |Added(g, r)| >= 7
      && Added(g, r)[1] == Beq(rr, X0, zeroL)
      && (exists k :: 1 < k < |Added(g, r)| && Added(g, r)[k] == Alu(if e.op == "/" then DIV else REM, t, lr, rr))
      && Mark(zeroL) in Added(g, r)
      && Added(g, r)[|Added(g, r)| - 1] == Mark(afterL)
  {
    var (lr, rr) := ScratchPair(t);
    var n := g.labelCounter;
    var lines := OpLines(e.op, t, lr, rr, e.left, e.right, n);
    var r := LowerOperator(g, e, t, lt, rt);
    assert r == Emit(g, lines).(labelCounter := n + 1);
    AddedOf(g, r, lines);
    GuardedDivLines(e.op, t, lr, rr, e.left, e.right, n);
  }

  /** The shape of the guarded division or modulo block on its own. */
  lemma GuardedDivLines(op: string, t: Reg, lr: Reg, rr: Reg, l: Node, r: Node, n: nat)
    requires IsDivOp(op)
    ensures var lines := OpLines(op, t, lr, rr, l, r, n);
      var zeroL := if op == "/" then Label("division_by_zero", n) else Label("modulo_by_zero", n);
      var afterL := if op == "/" then Label("after_division", n) else Label("after_modulo", n);
      && |lines| >= 7
      && lines[1] == Beq(rr, X0, zeroL)
      && (exists k :: 1 < k < |lines| && lines[k] == Alu(if op == "/" then DIV else REM, t, lr, rr))
      && Mark(zeroL) in lines
      && lines[|lines| - 1] == Mark(afterL)
  {
    var lines := OpLines(op, t, lr, rr, l, r, n);
    if op == "/" {
      assert lines[2] == Alu(DIV, t, lr, rr);
      assert lines[4] == Mark(Label("division_by_zero", n));
    } else {
      assert lines[3] == Alu(REM, t, lr, rr);
      assert lines[5] == Mark(Label("modulo_by_zero", n));
    }
  }

  /**
    A concatenation lowers each operand twice: once into x5/x6 and again
    inside process_concat. Two string literals therefore each take their
    reservation twice before the 100-cell result buffer, which is what `t`
    receives.
  */
  lemma ConcatLowersOperandsTwice(g: Gen, a: string, b: string, t: Reg)
    ensures var r := Eval(g, BinOp(".", StrLit(a), StrLit(b)), t);
      var ra, rb := |CStr(Utf8(a))| + STRING_MARGIN, |CStr(Utf8(b))| + STRING_MARGIN;
      var result := g.memoryPos + 2 * ra + 2 * rb;
      && r.memoryPos == result + CONCAT_RESERVE
      && g.out <= r.out
      && |Added(g, r)| > 0
      && Added(g, r)[|Added(g, r)| - 1] == Li(t, result)
  {
    var e := BinOp(".", StrLit(a), StrLit(b));
    var g1 := Eval(g, StrLit(a), X5);
    StringOperand(g, a, X5);
    var g2 := Eval(g1, StrLit(b), X6);
    StringOperand(g1, b, X6);
    assert Eval(g, e, t) == ProcessConcat(g2, e, t);
    ConcatOfLiterals(g2, a, b, t);
  }

  /** A string literal operand moves the cursor by its reservation. */
  lemma StringOperand(g: Gen, s: string, t: Reg)
    ensures Eval(g, StrLit(s), t).memoryPos == g.memoryPos + |CStr(Utf8(s))| + STRING_MARGIN
  {
  }

  /**
    A character outside ASCII is stored byte by byte as signed `char`s: the
    literal `"é"` (bytes 34 195 169 34) stores -61 and -87, and the cursor
    moves by its four-byte length plus STRING_MARGIN.
  */
  lemma NonAsciiLiteral(g: Gen)
    ensures var (r, a) := AddStringLiteral(g, "\"\U{e9}\"");
      && a == g.memoryPos
      && r.memoryPos == g.memoryPos + 14
      && r.out == g.out + [Li(X2, g.memoryPos),
                           Li(X1, -61), Sw(X2, 0, X1), Addi(X2, X2, 1),
                           Li(X1, -87), Sw(X2, 0, X1), Addi(X2, X2, 1),
                           Li(X1, 0), Sw(X2, 0, X1)]
  {
    QuotedEAcute();
    var bs: seq<Byte> := [QUOTE, 0xC3, 0xA9, QUOTE];
    assert Payload(bs) == [0xC3, 0xA9] by {
      var st := bs[1..];
      assert StopAtQuote(st[2..]) == [];
      assert st[1..][1..] == st[2..];
      assert StopAtQuote(st[1..]) == [0xA9];
    }
    assert StoreChars([0xC3, 0xA9]) == [Li(X1, -61), Sw(X2, 0, X1), Addi(X2, X2, 1),
                                         Li(X1, -87), Sw(X2, 0, X1), Addi(X2, X2, 1)] by {
      var t: seq<Byte> := [0xC3, 0xA9];
      assert t[1..] == [0xA9] && t[1..][1..] == [];
    }
  }

  lemma ConcatOfLiterals(g: Gen, a: string, b: string, t: Reg)
    ensures var r := ProcessConcat(g, BinOp(".", StrLit(a), StrLit(b)), t);
      var result := g.memoryPos + |CStr(Utf8(a))| + STRING_MARGIN + |CStr(Utf8(b))| + STRING_MARGIN;
      && r.memoryPos == result + CONCAT_RESERVE
      && g.out <= r.out
      && r.out[|r.out| - 1] == Li(t, result)
  {
    var g3 := Eval(g, StrLit(a), X5);
    StringOperand(g, a, X5);
    var g4 := Eval(g3, StrLit(b), X6);
    StringOperand(g3, b, X6);
    var (g5, addr) := ConcatenateStrings(g4, X5, X6);
    assert ProcessConcat(g, BinOp(".", StrLit(a), StrLit(b)), t) == Emit(g5, [Li(t, addr)]);
  }

  /**
    The counted loop's test: `slt x5, x20, x21` then `bne x5, x0, body`, so
    the body runs again exactly while the counter is below the end value;
    the end value itself is excluded.
  */
  lemma RoundTestExclusive(addr: int, loopL: Label, bodyL: Label, endL: Label, rs: M.Regs)
    ensures RoundTail(addr, loopL, bodyL, endL)[7] == Bne(X5, X0, bodyL)
    ensures var after := M.Run(rs, RoundTail(addr, loopL, bodyL, endL)[5..7]);
      after.Some? && (M.Get(after.value, X5) != 0 <==> M.Get(rs, X20) < M.Get(rs, X21))
  {
    var code := RoundTail(addr, loopL, bodyL, endL)[5..7];
    assert code == [Comment, Alu(SLT, X5, X20, X21)];
    M.RunCons(rs, Comment, [Alu(SLT, X5, X20, X21)]);
    M.RunSingle(rs, Alu(SLT, X5, X20, X21));
  }

  // ----- identifiers -----

  /** A name that does not resolve reads as 0, with one report and nothing reserved. */
  lemma UnresolvedIdentifier(g: Gen, x: string, t: Reg)
    requires !Visible(g, x)
    ensures var r := Eval(g, Ident(x), t);
      && r.out == g.out + [Li(t, 0)]
      && r.err.count == g.err.count + 1 && D.IsCritical(r.err)
      && r.addrs == g.addrs && r.memoryPos == g.memoryPos
  {
  }

  /** A resolving name is loaded from its address, which lies in the reserved range. */
  lemma ResolvedIdentifier(g: Gen, x: string, t: Reg)
    requires Wf(g) && Visible(g, x)
    ensures var (g1, a) := GetVariableAddress(g, x);
      && MEMORY_BASE <= a < g1.memoryPos
      && Eval(g, Ident(x), t).out == g.out + [Li(X2, a), Lw(X31, X2, 0), Alu(ADD, t, X31, X0)]
      && Eval(g, Ident(x), t).err == g.err
  {
  }

  // ----- addresses -----

  /** Asking again for a resolved name gives the same address and changes nothing. */
  lemma AddressIsStable(g: Gen, x: string)
    requires Wf(g) && Visible(g, x)
    ensures var (g1, a) := GetVariableAddress(g, x);
      a != -1 && GetVariableAddress(g1, x) == (g1, a)
  {
    var (g1, a) := GetVariableAddress(g, x);
    assert Visible(g1, x);
    if FindAddr(g.addrs, x).None? {
      assert g1.addrs == g.addrs + [AddrRecord(x, g.memoryPos)];
      assert g1.addrs[|g.addrs|].name == x;
      assert FindAddr(g1.addrs, x) == Some(|g.addrs|);
    }
  }

  /** A resolved address is the address of a record with that name. */
  lemma ResolvedIsRecorded(g: Gen, x: string)
    requires Wf(g) && Visible(g, x)
    ensures var (g1, a) := GetVariableAddress(g, x);
      exists i :: 0 <= i < |g1.addrs| && g1.addrs[i] == AddrRecord(x, a)
  {
    var (g1, a) := GetVariableAddress(g, x);
    if FindAddr(g.addrs, x).None? {
      assert g1.addrs[|g.addrs|] == AddrRecord(x, a);
    } else {
      var j := FindAddr(g.addrs, x).value;
      assert g1.addrs[j] == AddrRecord(x, a);
    }
  }

  /** Two different names never share an address, whichever is resolved first. */
  lemma DistinctNamesDistinctAddresses(g: Gen, x: string, y: string)
    requires Wf(g) && x != y && Visible(g, x) && Visible(g, y)
    ensures var (g1, a) := GetVariableAddress(g, x);
      var (g2, b) := GetVariableAddress(g1, y);
      a != b
  {
    var (g1, a) := GetVariableAddress(g, x);
    assert Visible(g1, y);
    var (g2, b) := GetVariableAddress(g1, y);
    ResolvedIsRecorded(g, x);
    ResolvedIsRecorded(g1, y);
    var i :| 0 <= i < |g1.addrs| && g1.addrs[i] == AddrRecord(x, a);
    var j :| 0 <= j < |g2.addrs| && g2.addrs[j] == AddrRecord(y, b);
    assert g2.addrs[i] == g1.addrs[i];
    assert i != j;
    assert Wf(g2);
    if i < j {
      assert g2.addrs[i].address < g2.addrs[j].address;
    } else {
      assert g2.addrs[j].address < g2.addrs[i].address;
    }
  }

  lemma FindVarAppend(vars: seq<VarRecord>, rec: VarRecord, x: string)
    requires FindVar(vars, x).Some?
    ensures FindVar(vars + [rec], x) == FindVar(vars, x)
  {
    var i := FindVar(vars, x).value;
    assert (vars + [rec])[i] == vars[i];
    assert forall k :: 0 <= k < i ==> (vars + [rec])[k] == vars[k];
  }

  lemma FindAddrAppend(addrs: seq<AddrRecord>, rec: AddrRecord, x: string)
    requires FindAddr(addrs, x).Some?
    ensures FindAddr(addrs + [rec], x) == FindAddr(addrs, x)
  {
    var i := FindAddr(addrs, x).value;
    assert (addrs + [rec])[i] == addrs[i];
    assert forall k :: 0 <= k < i ==> (addrs + [rec])[k] == addrs[k];
  }

  /**
    A local declared while a global of the same name exists is accepted and
    reserves a fresh address, but references keep resolving to the global's
    record and address: the local's address is never used.
  */
  lemma LocalShadowSharesAddress(g: Gen, x: string, ty: string)
    requires Wf(g) && !g.scopeGlobal
    requires FindVar(g.vars, x).Some? && g.vars[FindVar(g.vars, x).value].isGlobal
    requires FindAddr(g.addrs, x).Some?
    requires !DeclaredWithFlag(g.vars, x, false)
    ensures var r := ProcessVariableDeclaration(g, VarDecl(x, ty, false, None));
      var shared := g.addrs[FindAddr(g.addrs, x).value].address;
      && r.addrs == g.addrs + [AddrRecord(x, g.memoryPos)]
      && shared != g.memoryPos
      && GetVariableAddress(r, x) == (r, shared)
  {
    var r := ProcessVariableDeclaration(g, VarDecl(x, ty, false, None));
    var rec := VarRecord(x, ty, false, g.blockLevel);
    assert r.vars == g.vars + [rec];
    assert r.addrs == g.addrs + [AddrRecord(x, g.memoryPos)];
    assert r.scopeGlobal == g.scopeGlobal && r.blockLevel == g.blockLevel;
    FindVarAppend(g.vars, rec, x);
    FindAddrAppend(g.addrs, AddrRecord(x, g.memoryPos), x);
    assert Visible(r, x);
  }

  // ----- declarations -----

  /**
    Once the state is critical, a declaration without an initializer still
    emits its store of 0, while one with an initializer emits nothing; both
    still record the variable and reserve its address.
  */
  lemma DeclarationGating(g: Gen, x: string, ty: string, e: Node)
    requires D.IsCritical(g.err) && !DeclaredWithFlag(g.vars, x, false)
    ensures ProcessVariableDeclaration(g, VarDecl(x, ty, false, None)).out ==
      g.out + [Comment, Li(X1, 0), Li(X2, g.memoryPos), Sw(X2, 0, X1)]
    ensures ProcessVariableDeclaration(g, VarDecl(x, ty, false, Some(e))).out == g.out
    ensures ProcessVariableDeclaration(g, VarDecl(x, ty, false, Some(e))).memoryPos == g.memoryPos + 1
  {
    var g1 := RegisterVariable(g, x, ty, false);
    var (g2, addr) := RegisterVariableAddress(g1, x);
    var (g3, go) := InitializerCheck(g2, ty, e);
    assert Extends(g2, g3);
    CriticalPersists(g2, g3);
  }

  // ----- scope -----

  /**
    A program node nested in a block resets the depth to 0, and the block
    then decrements it: the depth after the block is -1 whatever it was.
  */
  lemma NestedProgramBreaksDepth(g: Gen)
    ensures ProcessNode(g, Block([Program([])])).blockLevel == -1
    ensures ProcessNode(g, Block([Program([])])).scopeGlobal == g.scopeGlobal
  {
    var inner := g.(blockLevel := g.blockLevel + 1, scopeGlobal := false);
    assert ProcessNodes(inner, [Program([])]) == ProcessNodes(ProcessNode(inner, Program([])), []);
  }

  // ----- print -----

  lemma PrintIsPrintValue(g: Gen, e: Node)
    requires !e.Ident?
    ensures ProcessNode(g, Print(e)) == PrintValue(g, e)
  {
  }

  lemma EmitTwice(g: Gen, a: seq<Instr>, b: seq<Instr>, c: nat)
    ensures Emit(Emit(g, a).(labelCounter := c), b).out == g.out + (a + b)
  {
  }

  lemma PrintStringShape(g: Gen, s: string)
    ensures var (g0, a) := AddStringLiteral(g, s);
      PrintValue(g, StrLit(s)) ==
        Emit(Emit(g0, [Li(X1, a), Comment]).(labelCounter := g.labelCounter + 4),
             StringLoop(Label("print_loop", g.labelCounter + 2), Label("print_done", g.labelCounter + 3)) + NEWLINE)
  {
    var (g0, a) := AddStringLiteral(g, s);
    var g1 := Emit(Eval(g, StrLit(s), X1), [Comment]);
    assert g1 == Emit(g0, [Li(X1, a), Comment]) by {
      assert Eval(g, StrLit(s), X1) == Emit(g0, [Li(X1, a)]);
    }
    var (g2, producerL) := NewLabel(g1, "producer_loop");
    var (g3, afterMinusL) := NewLabel(g2, "after_minus");
    var (g4, loopL) := NewLabel(g3, "print_loop");
    var (g5, doneL) := NewLabel(g4, "print_done");
    assert PrintsAsString(g3, StrLit(s));
    assert g5 == g1.(labelCounter := g.labelCounter + 4);
    assert loopL == Label("print_loop", g.labelCounter + 2) && doneL == Label("print_done", g.labelCounter + 3);
    assert PrintValue(g, StrLit(s)) == Emit(g5, StringLoop(loopL, doneL) + NEWLINE);
  }

  /** The lines printing a string literal stored at `addr`, with the labels from `n`. */
  function StringPrintLines(addr: int, s: string, n: nat): seq<Instr> {
    ([Li(X2, addr)] + StoreChars(Payload(Utf8(s))) + [Li(X1, 0), Sw(X2, 0, X1)])
    + ([Li(X1, addr), Comment]
       + (StringLoop(Label("print_loop", n + 2), Label("print_done", n + 3)) + NEWLINE))
  }

  /** Those lines hold no division, and the byte loop and the newline come last. */
  lemma StringPrintLinesFacts(addr: int, s: string, n: nat)
    ensures var added := StringPrintLines(addr, s, n);
      && NoDivide(added)
      && |added| >= 9
      && added[|added| - 9..] == StringLoop(Label("print_loop", n + 2), Label("print_done", n + 3)) + NEWLINE
  {
    var loop := StringLoop(Label("print_loop", n + 2), Label("print_done", n + 3)) + NEWLINE;
    var stored := [Li(X2, addr)] + StoreChars(Payload(Utf8(s))) + [Li(X1, 0), Sw(X2, 0, X1)];
    var added := stored + ([Li(X1, addr), Comment] + loop);
    assert |loop| == 9;
    StoreCharsNoDivide(Payload(Utf8(s)));
    NoDivideAppend([Li(X2, addr)], StoreChars(Payload(Utf8(s))));
    NoDivideAppend([Li(X2, addr)] + StoreChars(Payload(Utf8(s))), [Li(X1, 0), Sw(X2, 0, X1)]);
    StringLoopNoDivide(Label("print_loop", n + 2), Label("print_done", n + 3));
    NoDivideAppend([Li(X1, addr), Comment], loop);
    NoDivideAppend(stored, [Li(X1, addr), Comment] + loop);
    assert added[|added| - 9..] == loop;
  }

  /**
    Printing a string literal appends exactly `StringPrintLines`: the
    stored bytes, the address into x1, the byte loop; four labels are taken.
  */
  lemma PrintStringLiteral(g: Gen, s: string)
    ensures var r := ProcessNode(g, Print(StrLit(s)));
      && r.labelCounter == g.labelCounter + 4
      && r.out == g.out + StringPrintLines(g.memoryPos, s, g.labelCounter)
  {
    PrintIsPrintValue(g, StrLit(s));
    PrintStringShape(g, s);
    PrintStringResult(g, s, ProcessNode(g, Print(StrLit(s))));
  }

  lemma PrintStringResult(g: Gen, s: string, r: Gen)
    requires var (g0, a) := AddStringLiteral(g, s);
      r == Emit(Emit(g0, [Li(X1, a), Comment]).(labelCounter := g.labelCounter + 4),
                StringLoop(Label("print_loop", g.labelCounter + 2), Label("print_done", g.labelCounter + 3)) + NEWLINE)
    ensures r.labelCounter == g.labelCounter + 4
    ensures r.out == g.out + StringPrintLines(g.memoryPos, s, g.labelCounter)
  {
    var n := g.labelCounter;
    var (g0, a) := AddStringLiteral(g, s);
    var loop := StringLoop(Label("print_loop", n + 2), Label("print_done", n + 3)) + NEWLINE;
    var stored := [Li(X2, g.memoryPos)] + StoreChars(Payload(Utf8(s))) + [Li(X1, 0), Sw(X2, 0, X1)];
    assert a == g.memoryPos && g0.out == g.out + stored;
    assert r.out == g0.out + ([Li(X1, a), Comment] + loop) by {
      EmitTwice(g0, [Li(X1, a), Comment], loop, n + 4);
    }
    StringPrintOut(g.out, g.memoryPos, s, n);
  }

  /** `AddStringLiteral`'s lines, then the rest of the print, regrouped as `StringPrintLines`. */
  lemma StringPrintOut(o: seq<Instr>, addr: int, s: string, n: nat)
    ensures (o + ([Li(X2, addr)] + StoreChars(Payload(Utf8(s))) + [Li(X1, 0), Sw(X2, 0, X1)]))
        + ([Li(X1, addr), Comment] + (StringLoop(Label("print_loop", n + 2), Label("print_done", n + 3)) + NEWLINE))
      == o + StringPrintLines(addr, s, n)
  {
    var rest := [Li(X1, addr), Comment] + (StringLoop(Label("print_loop", n + 2), Label("print_done", n + 3)) + NEWLINE);
    var head := [Li(X2, addr)];
    var body := StoreChars(Payload(Utf8(s)));
    var tail := [Li(X1, 0), Sw(X2, 0, X1)];
    assert (o + (head + body + tail)) + rest == o + ((head + body + tail) + rest);
  }

  lemma StringLoopNoDivide(loopL: Label, doneL: Label)
    ensures NoDivide(StringLoop(loopL, doneL) + NEWLINE)
  {
  }

  /** The lines printing an int leaves after the expression's own code. */
  function PrintIntCode(v: int, n: nat): seq<Instr> {
    [Li(X1, v), Comment] + (DecimalLoop(Label("producer_loop", n), Label("after_minus", n + 1)) + NEWLINE)
  }

  lemma PrintIntCodeDivides(v: int, n: nat)
    ensures |PrintIntCode(v, n)| == 28
    ensures PrintIntCode(v, n)[2] == Addi(X10, X0, 10)
    ensures PrintIntCode(v, n)[11] == Alu(DIV, X15, X12, X10)
  {
    var loop := DecimalLoop(Label("producer_loop", n), Label("after_minus", n + 1));
    assert loop[0] == Addi(X10, X0, 10);
    assert loop[9] == Alu(DIV, X15, X12, X10);
  }

  lemma PrintIntShape(g: Gen, v: int)
    ensures PrintValue(g, IntLit(v)).out == g.out + PrintIntCode(v, g.labelCounter)
    ensures PrintValue(g, IntLit(v)).labelCounter == g.labelCounter + 2
  {
    var n := g.labelCounter;
    var g1 := Emit(g, [Li(X1, v), Comment]);
    assert Emit(Eval(g, IntLit(v), X1), [Comment]) == g1;
    var tail := DecimalLoop(Label("producer_loop", n), Label("after_minus", n + 1)) + NEWLINE;
    assert PrintValue(g, IntLit(v)) == Emit(g1.(labelCounter := n + 2), tail);
  }

  /**
    Printing an int literal loads it and runs the decimal conversion: x10
    is set to 10 first, and the digit loop divides by it.
  */
  lemma PrintIntLiteral(g: Gen, v: int)
    ensures var r := ProcessNode(g, Print(IntLit(v)));
      && r.labelCounter == g.labelCounter + 2
      && Added(g, r) == PrintIntCode(v, g.labelCounter)
      && Added(g, r)[2] == Addi(X10, X0, 10)
      && Added(g, r)[11] == Alu(DIV, X15, X12, X10)
  {
    PrintIsPrintValue(g, IntLit(v));
    PrintIntShape(g, v);
    AddedOf(g, ProcessNode(g, Print(IntLit(v))), PrintIntCode(v, g.labelCounter));
    PrintIntCodeDivides(v, g.labelCounter);
  }

  // ----- driver -----

  /** The text produced by the driver always ends with the `ebreak` line. */
  lemma TextEndsWithEbreak(err: D.ErrState, root: Node)
    requires GenerateText(err, root).Some?
    ensures var text := GenerateText(err, root).value;
      |text| >= 7 && text[|text| - 7..] == "ebreak\n"
  {
    var lines := GenerateRiscCode(err, root).0.value;
    RenderEndsWithEbreak(lines);
  }
}
