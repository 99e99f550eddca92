/**
  Properties of the earlier generator (risc_generator.c): its address
  allocator, its lack of declaration checks, what its operator lines
  compute on the straight-line machine, its counted-loop test and its
  driver.
*/
module LegacyProps {
  import opened Wrappers
  import opened Isa
  import opened Ast
  import opened Machine
  import opened Legacy
  import GS = GenState
  import CT = CText
  import E = Encoding

  ghost function Added(g: LGen, r: LGen): seq<Instr>
    requires g.out <= r.out
  {
    r.out[|g.out|..]
  }

  // ----- addresses -----

  /** Looking a name up twice gives the same address, and the second lookup changes nothing. */
  lemma AddressRepeat(g: LGen, x: string)
    ensures var (g1, a) := GetVariableAddress(g, x);
      GetVariableAddress(g1, x) == (g1, a)
  {
  }

  /** In a consistent state, two different names never share an address. */
  lemma DistinctNamesDistinctAddresses(g: LGen, x: string, y: string)
    requires Wf(g) && x != y
    ensures var (g1, a) := GetVariableAddress(g, x);
      a != GetVariableAddress(g1, y).1
  {
    var (g1, a) := GetVariableAddress(g, x);
    var (g2, b) := GetVariableAddress(g1, y);
    var i := GS.FindAddr(g2.addrs, x);
    var j := GS.FindAddr(g2.addrs, y).value;
    assert g1.addrs <= g2.addrs;
    var ix := GS.FindAddr(g1.addrs, x).value;
    assert g2.addrs[ix] == g1.addrs[ix];
    assert g2.addrs[ix].name == x && g2.addrs[j].name == y;
    assert ix != j;
  }

  /** Consecutive new names get addresses exactly one word apart, starting at 1000. */
  lemma FreshAddressesStepByFour(x: string, y: string)
    requires x != y
    ensures var (g1, a) := GetVariableAddress(Init(), x);
      a == MEMORY_BASE && GetVariableAddress(g1, y).1 == MEMORY_BASE + ADDRESS_STEP
  {
    var (g1, a) := GetVariableAddress(Init(), x);
    assert g1.addrs == [GS.AddrRecord(x, MEMORY_BASE)];
    assert GS.FindAddr(g1.addrs, y).None?;
  }

  /**
    Declaring a name twice is accepted: both records are kept, and both
    declarations store to the one address the name got first.
  */
  lemma RedeclarationAccepted(g: LGen, x: string, ty1: string, ty2: string)
    ensures var d1 := VarDecl(x, ty1, true, None);
      var d2 := VarDecl(x, ty2, true, None);
      var g1 := ProcessNode(g, d1);
      var g2 := ProcessNode(g1, d2);
      var a := GetVariableAddress(g, x).1;
      && g2.vars == g.vars + [LVar(x, ty1), LVar(x, ty2)]
      && Added(g, g1) == [Comment, Li(X1, 0), Li(X2, a), Sw(X2, 0, X1)]
      && Added(g1, g2) == [Comment, Li(X1, 0), Li(X2, a), Sw(X2, 0, X1)]
  {
    var a := GetVariableAddress(g, x).1;
    var g1 := ProcessNode(g, VarDecl(x, ty1, true, None));
    DeclareWithoutValue(g, x, ty1);
    DeclareWithoutValue(g1, x, ty2);
    assert GetVariableAddress(g1, x).1 == a;
  }

  /** One declaration without a value: its record, the name's address, and the four lines storing 0 there. */
  lemma DeclareWithoutValue(g: LGen, x: string, ty: string)
    ensures var r := ProcessNode(g, VarDecl(x, ty, true, None));
      var (ga, a) := GetVariableAddress(g, x);
      && r.vars == g.vars + [LVar(x, ty)]
      && r.addrs == ga.addrs
      && g.out <= r.out
      && Added(g, r) == [Comment, Li(X1, 0), Li(X2, a), Sw(X2, 0, X1)]
  {
    var (ga, a) := GetVariableAddress(g, x);
    var g1 := RegisterVariable(g, x, ty);
    assert g1.addrs == ga.addrs && g1.memoryPos == ga.memoryPos;
    var (g2, addr) := GetVariableAddress(g1, x);
    assert addr == a && g2 == g1;
    var r := Emit(Emit(g2, [Comment, Li(X1, 0)]), [Li(X2, addr), Sw(X2, 0, X1)]);
    assert r == ProcessNode(g, VarDecl(x, ty, true, None));
    assert r.out == g.out + [Comment, Li(X1, 0)] + [Li(X2, addr), Sw(X2, 0, X1)];
  }

  // ----- operators -----

  /** The operators whose lines are straight-line code here ("/" is a `div`, which the machine leaves open). */
  predicate Straight(op: string) {
    op in {"+", "-", "*", "<", ">", "=", "=="}
  }

  lemma ComparisonLines(op: string, t: Reg, rs: Regs)
    requires op == "<" || op == ">"
    requires t.idx != 0
    ensures E.Leaves(rs, OpLines(op, t), t, E.Denote(op, Get(rs, X1), Get(rs, X2)).value)
  {
    var code := OpLines(op, t);
    RunCons(rs, code[0], code[1..]);
    RunSingle(rs, code[1]);
  }

  lemma EqualityLines(op: string, t: Reg, rs: Regs)
    requires op == "=" || op == "=="
    requires t.idx != 0
    ensures E.Leaves(rs, OpLines(op, t), t, E.Denote(op, Get(rs, X1), Get(rs, X2)).value)
  {
    var code := OpLines(op, t);
    var a, b := Get(rs, X1), Get(rs, X2);
    var s1 := Set(rs, X3, a - b);
    RunCons(rs, code[0], code[1..]);
    RunCons(rs, code[1], code[2..]);
    RunSingle(s1, code[2]);
    assert Get(s1, X3) == a - b && Get(s1, X0) == 0;
  }

  /**
    With the left operand in x1 and the right one in x2, the lines of a
    straight-line operator leave `l op r` in the target, `==` by way of
    `sub x3` and `seq`.
  */
  lemma OpLinesCompute(op: string, t: Reg, rs: Regs)
    requires Straight(op) && t.idx != 0
    ensures E.StraightOp(op)
    ensures E.Leaves(rs, OpLines(op, t), t, E.Denote(op, Get(rs, X1), Get(rs, X2)).value)
  {
    if op == "<" || op == ">" {
      ComparisonLines(op, t, rs);
    } else if op == "=" || op == "==" {
      EqualityLines(op, t, rs);
    } else {
      RunSingle(rs, OpLines(op, t)[0]);
    }
  }

  /**
    An operator without a lowering still lowers both operands, then emits a
    single comment, which leaves every register as it was: the target is
    never written.
  */
  lemma UnknownOperatorWritesNothing(g: LGen, e: Node, t: Reg, rs: Regs)
    requires e.BinOp? && !KnownOp(e.op)
    ensures BinaryOperation(g, e, t).out == Eval(Eval(g, e.left, X1), e.right, X2).out + [Comment]
    ensures Run(rs, OpLines(e.op, t)) == Some(rs)
  {
    RunSingle(rs, Comment);
  }

  /** A string literal in an expression writes x0 only, so no register changes, the target included. */
  lemma StringLiteralWritesNothing(g: LGen, s: string, t: Reg, rs: Regs)
    ensures Added(g, Eval(g, StrLit(s), t)) == [Comment, Li(X0, 0)]
    ensures Run(rs, Added(g, Eval(g, StrLit(s), t))) == Some(rs)
  {
    RunCons(rs, Comment, [Li(X0, 0)]);
    RunSingle(rs, Li(X0, 0));
  }

  /** "/" is lowered as a bare `div`: even a literal 0 divisor gets no check and no guard. */
  lemma LiteralZeroDivisorUnguarded(g: LGen, a: int, t: Reg)
    ensures Added(g, Eval(g, BinOp("/", IntLit(a), IntLit(0)), t)) == [Li(X1, a), Li(X2, 0), Alu(DIV, t, X1, X2)]
  {
    var e := BinOp("/", IntLit(a), IntLit(0));
    EmittedBinary(g, e, t);
    assert Emitted(g, IntLit(a), X1) == [Li(X1, a)];
    assert Emitted(Eval(g, IntLit(a), X1), IntLit(0), X2) == [Li(X2, 0)];
  }

  // ----- whole expressions -----

  /** Trees of int literals and straight-line operators whose right operands are all literals. */
  predicate LeftChain(e: Node) {
    match e
    case IntLit(_) => true
    case BinOp(op, l, r) => Straight(op) && r.IntLit? && LeftChain(l)
    case _ => false
  }

  ghost function Emitted(g: LGen, e: Node, t: Reg): seq<Instr> {
    Added(g, Eval(g, e, t))
  }

  lemma EmittedBinary(g: LGen, e: Node, t: Reg)
    requires e.BinOp?
    ensures var g1 := Eval(g, e.left, X1);
      Emitted(g, e, t) == Emitted(g, e.left, X1) + Emitted(g1, e.right, X2) + OpLines(e.op, t)
  {
    var g1 := Eval(g, e.left, X1);
    var g2 := Eval(g1, e.right, X2);
    assert Eval(g, e, t) == Emit(g2, OpLines(e.op, t));
    assert g1.out == g.out + Emitted(g, e.left, X1);
    assert g2.out == g1.out + Emitted(g1, e.right, X2);
  }

  /** The lines emitted for a left chain leave the chain's value in the target. */
  lemma {:induction false} LeftChainComputes(g: LGen, e: Node, t: Reg, rs: Regs)
    requires LeftChain(e) && t.idx != 0
    ensures E.Value(e).Some? && E.Leaves(rs, Emitted(g, e, t), t, E.Value(e).value)
    decreases e
  {
    match e
    case IntLit(v) =>
      assert Emitted(g, e, t) == [Li(t, v)];
      RunSingle(rs, Li(t, v));
    case BinOp(op, l, r) =>
      var v := r.intValue;
      var g1 := Eval(g, l, X1);
      EmittedBinary(g, e, t);
      assert Emitted(g1, r, X2) == [Li(X2, v)];
      LeftChainComputes(g, l, X1, rs);
      var codeL := Emitted(g, l, X1);
      var rs1 := Run(rs, codeL).value;
      var rs2 := Set(rs1, X2, v);
      RunAppend(rs, codeL, [Li(X2, v)]);
      RunSingle(rs1, Li(X2, v));
      OpLinesCompute(op, t, rs2);
      RunAppend(rs, codeL + [Li(X2, v)], OpLines(op, t));
  }

  /** 1 - (2 - 3), whose value is 2. */
  const NESTED_RIGHT: Node := BinOp("-", IntLit(1), BinOp("-", IntLit(2), IntLit(3)))

  const NESTED_RIGHT_CODE: seq<Instr> :=
    [Li(X1, 1), Li(X1, 2), Li(X2, 3), Alu(SUB, X2, X1, X2), Alu(SUB, X1, X1, X2)]

  lemma NestedRightShape(g: LGen)
    ensures Emitted(g, NESTED_RIGHT, X1) == NESTED_RIGHT_CODE
  {
    var inner := BinOp("-", IntLit(2), IntLit(3));
    var g1 := Eval(g, IntLit(1), X1);
    EmittedBinary(g, NESTED_RIGHT, X1);
    EmittedBinary(g1, inner, X2);
  }

  lemma NestedRightRun(rs: Regs)
    ensures E.Leaves(rs, NESTED_RIGHT_CODE, X1, 3)
  {
    var code := NESTED_RIGHT_CODE;
    var s1 := Set(rs, X1, 1);
    var s2 := Set(s1, X1, 2);
    var s3 := Set(s2, X2, 3);
    var s4 := Set(s3, X2, -1);
    RunCons(rs, code[0], code[1..]);
    RunCons(s1, code[1], code[2..]);
    RunCons(s2, code[2], code[3..]);
    RunCons(s3, code[3], code[4..]);
    RunSingle(s4, code[4]);
  }

  /**
    A right operand that is itself an operation is lowered through x1 too,
    overwriting the left operand: 1 - (2 - 3) leaves 3 in x1 instead of 2.
  */
  lemma RightOperandClobbers(g: LGen, rs: Regs)
    ensures E.Value(NESTED_RIGHT) == Some(2)
    ensures E.Leaves(rs, Emitted(g, NESTED_RIGHT, X1), X1, 3)
  {
    NestedRightShape(g);
    NestedRightRun(rs);
  }

  // ----- counted loop -----

  /**
    The loop test compares x3 (end) with x1 (current): after its `slt` line
    x5 is 0, so the `bne` falls through into the body, exactly when
    current <= end. The end value itself is visited.
  */
  lemma LoopTestInclusive(rs: Regs, endL: Label)
    ensures LoopTest(endL)[2] == Bne(X5, X0, endL)
    ensures var after := Run(rs, LoopTest(endL)[..2]);
      after.Some? && (Get(after.value, X5) == 0 <==> Get(rs, X1) <= Get(rs, X3))
  {
    var code := LoopTest(endL)[..2];
    RunCons(rs, code[0], code[1..]);
    RunSingle(rs, code[1]);
  }

  /** Without a step expression the step register x4 is set to 1. */
  lemma DefaultStepIsOne(g: LGen, n: Node, addr: int, loopL: Label, endL: Label, rs: Regs)
    requires n.Round? && n.step.None?
    ensures var g2 := Eval(Emit(Eval(Emit(g, [Comment]), n.start, X1), [Li(X2, addr), Sw(X2, 0, X1)]), n.end, X3);
      && Added(g2, RoundHeader(g, n, addr, loopL, endL))[0] == Addi(X4, X0, 1)
      && Run(rs, [Addi(X4, X0, 1)]).Some?
      && Get(Run(rs, [Addi(X4, X0, 1)]).value, X4) == 1
  {
    RunSingle(rs, Addi(X4, X0, 1));
  }

  // ----- print and data -----

  /**
    A printed string literal is recorded as the next data line, and the
    print code loads the address of that line's label.
  */
  lemma PrintStringUsesItsData(g: LGen, s: string)
    ensures var r := ProcessPrint(g, Print(StrLit(s)));
      var k := |g.data|;
      && r.data == g.data + [DataLine(k, s)]
      && Added(g, r)[0] == La(X1, Label("str", k))
      && r.labelCounter == g.labelCounter + 2
  {
  }

  /**
    A character outside ASCII becomes one field per byte of its UTF-8
    encoding: the literal `"é"` is recorded with the four fields
    34 195 169 34 before the closing 0.
  */
  lemma NonAsciiDataLine(k: nat)
    ensures DataLine(k, "\"\U{e9}\"") == LabelText(Label("str", k)) + ": data " + ByteFields([34, 195, 169, 34]) + "0"
  {
    CT.QuotedEAcute();
  }

  /** One more byte adds one more field. */
  lemma FieldsSnoc(bs: seq<CT.Byte>, x: CT.Byte)
    ensures ByteFields(bs + [x]) == ByteFields(bs) + NatText(x) + " "
  {
    assert (bs + [x])[..|bs|] == bs;
  }

  // ----- driver -----

  /** The returned text always ends with the `ebreak` line: there is no error gating. */
  lemma TextEndsWithEbreak(root: Node)
    ensures |GenerateText(root)| >= 7
    ensures GenerateText(root)[|GenerateText(root)| - 7..] == "ebreak\n"
  {
    var lines := GenerateRiscCode(root);
    RenderEndsWithEbreak(lines);
  }
}
