/**
  What the lowered operator code computes, on the straight-line machine.
  `Denote` is the meaning of each operator of the source language on two
  ints (comparisons and logic give 0 or 1); the lemmas relate it to the
  lines the checked generator emits.
*/
module Encoding {
  import opened Wrappers
  import opened Isa
  import opened Ast
  import opened Machine
  import opened GenState
  import opened Lower
  import D = Diagnostics

  /** Operators whose lowering is straight-line code (everything but "/", "%" and "."). */
  predicate StraightOp(op: string) {
    op in {"+", "-", "*", "<", ">", "=", "==", "!=", "<=", ">=", "and", "or"}
  }

  /** The value of `a op b` in the source language. */
  function Denote(op: string, a: int, b: int): (v: Option<int>)
    ensures v.Some? <==> StraightOp(op)
  {
    if op == "+" then Some(a + b)
    else if op == "-" then Some(a - b)
    else if op == "*" then Some(a * b)
    else if op == "<" then Some(Flag(a < b))
    else if op == ">" then Some(Flag(a > b))
    else if op == "=" || op == "==" then Some(Flag(a == b))
    else if op == "!=" then Some(Flag(a != b))
    else if op == "<=" then Some(Flag(a <= b))
    else if op == ">=" then Some(Flag(a >= b))
    else if op == "and" then Some(Flag(a != 0 && b != 0))
    else if op == "or" then Some(Flag(a != 0 || b != 0))
    else None
  }

  /** Reference evaluator for int expressions built from literals and straight-line operators. */
  function Value(e: Node): Option<int> {
    match e
    case IntLit(v) => Some(v)
    case BinOp(op, l, r) =>
      var a := Value(l);
      var b := Value(r);
      if a.Some? && b.Some? then Denote(op, a.value, b.value) else None
    case _ => None
  }

  /** The machine state after `code` has `v` in register `t`. */
  predicate Leaves(rs: Regs, code: seq<Instr>, t: Reg, v: int) {
    Run(rs, code).Some? && Get(Run(rs, code).value, t) == v
  }

  lemma ArithLines(op: string, t: Reg, lr: Reg, rr: Reg, l: Node, r: Node, n: nat, rs: Regs)
    requires op == "+" || op == "-" || op == "*" || op == "<" || op == ">"
    requires (lr, rr) == ScratchPair(t) && t.idx != 0
    ensures Leaves(rs, OpLines(op, t, lr, rr, l, r, n), t, Denote(op, Get(rs, lr), Get(rs, rr)).value)
  {
  }

  /** A comment line followed by one register-register operation. */
  lemma CommentThenAlu(rs: Regs, op: AluOp, t: Reg, a: Reg, b: Reg)
    requires AluValue(op, Get(rs, a), Get(rs, b)).Some? && t.idx != 0
    ensures Leaves(rs, [Comment, Alu(op, t, a, b)], t, AluValue(op, Get(rs, a), Get(rs, b)).value)
  {
    RunCons(rs, Comment, [Alu(op, t, a, b)]);
    RunSingle(rs, Alu(op, t, a, b));
  }

  lemma CompareLines(op: string, t: Reg, lr: Reg, rr: Reg, l: Node, r: Node, n: nat, rs: Regs)
    requires op == "=" || op == "==" || op == "!=" || op == "<=" || op == ">="
    requires (lr, rr) == ScratchPair(t) && t.idx != 0
    ensures Leaves(rs, OpLines(op, t, lr, rr, l, r, n), t, Denote(op, Get(rs, lr), Get(rs, rr)).value)
  {
    if op == "<=" {
      AtMostLines(t, lr, rr, l, r, n, rs);
    } else if op == "!=" {
      CommentThenAlu(rs, SNE, t, lr, rr);
    } else if op == ">=" {
      CommentThenAlu(rs, SGE, t, lr, rr);
    } else {
      CommentThenAlu(rs, SEQ, t, lr, rr);
    }
  }

  /** `a <= b` is lowered as `not (b < a)`. */
  lemma AtMostLines(t: Reg, lr: Reg, rr: Reg, l: Node, r: Node, n: nat, rs: Regs)
    requires (lr, rr) == ScratchPair(t) && t.idx != 0
    ensures Leaves(rs, OpLines("<=", t, lr, rr, l, r, n), t, Flag(Get(rs, lr) <= Get(rs, rr)))
  {
    var a, b := Get(rs, lr), Get(rs, rr);
    var code := OpLines("<=", t, lr, rr, l, r, n);
    assert code == [Comment] + ([Alu(SLT, X5, rr, lr)] + [Xori(t, X5, 1)]);
    var s1 := Set(rs, X5, Flag(b < a));
    assert Step(s1, Xori(t, X5, 1)) == Some(Set(s1, t, Flag(Flag(b < a) != 1)));
    RunSingle(s1, Xori(t, X5, 1));
    assert Run(rs, [Alu(SLT, X5, rr, lr)] + [Xori(t, X5, 1)]) == Run(s1, [Xori(t, X5, 1)]) by {
      RunCons(rs, Alu(SLT, X5, rr, lr), [Xori(t, X5, 1)]);
    }
    RunCons(rs, Comment, [Alu(SLT, X5, rr, lr)] + [Xori(t, X5, 1)]);
  }

  /** Both operands normalised to 0/1 in x5/x6, then combined. */
  lemma TruthLines(rs: Regs, op: AluOp, t: Reg, lr: Reg, rr: Reg)
    requires op == AND || op == OR
    requires t.idx != 0 && lr != X5 && rr != X5 && rr != X6
    ensures var a, b := Get(rs, lr) != 0, Get(rs, rr) != 0;
      Leaves(rs, [Comment, Alu(SNE, X5, lr, X0), Alu(SNE, X6, rr, X0), Alu(op, t, X5, X6)], t,
             Flag(if op == AND then a && b else a || b))
  {
    var a, b := Get(rs, lr), Get(rs, rr);
    var last := Alu(op, t, X5, X6);
    var third := Alu(SNE, X6, rr, X0);
    var second := Alu(SNE, X5, lr, X0);
    var s1 := Set(rs, X5, Flag(a != 0));
    assert Get(s1, rr) == b;
    var s2 := Set(s1, X6, Flag(b != 0));
    assert Get(s2, X5) == Flag(a != 0) && Get(s2, X6) == Flag(b != 0);
    var v := Flag(if op == AND then a != 0 && b != 0 else a != 0 || b != 0);
    assert Step(s2, last) == Some(Set(s2, t, v));
    RunSingle(s2, last);
    assert Run(s1, [third, last]) == Run(s2, [last]) by {
      assert [third, last][1..] == [last];
    }
    assert Run(rs, [second, third, last]) == Run(s1, [third, last]) by {
      assert [second, third, last][1..] == [third, last];
    }
    assert [Comment, second, third, last][1..] == [second, third, last];
  }

  lemma LogicLines(op: string, t: Reg, lr: Reg, rr: Reg, l: Node, r: Node, n: nat, rs: Regs)
    requires op == "and" || op == "or"
    requires (lr, rr) == ScratchPair(t) && t.idx != 0
    requires l.IntLit? ==> l.intValue == Get(rs, lr)
    requires r.IntLit? ==> r.intValue == Get(rs, rr)
    ensures Leaves(rs, OpLines(op, t, lr, rr, l, r, n), t, Denote(op, Get(rs, lr), Get(rs, rr)).value)
  {
    var a, b := Get(rs, lr), Get(rs, rr);
    var code := OpLines(op, t, lr, rr, l, r, n);
    var folded := if op == "and" then l.IsIntZero() || r.IsIntZero() else l.IsIntNonzero() || r.IsIntNonzero();
    if folded {
      var c := if op == "and" then 0 else 1;
      assert code == [Comment] + [Li(t, c)];
      RunCons(rs, Comment, [Li(t, c)]);
      RunSingle(rs, Li(t, c));
    } else {
      var aluOp := if op == "and" then AND else OR;
      assert code == [Comment, Alu(SNE, X5, lr, X0), Alu(SNE, X6, rr, X0), Alu(aluOp, t, X5, X6)];
      TruthLines(rs, aluOp, t, lr, rr);
    }
  }

  /**
    The lines for a straight-line operator leave `a op b` in the target,
    given the operands in the scratch pair. For "and"/"or" this includes the
    folded forms: a literal operand that decides the result is never read,
    and the constant emitted agrees with evaluating both sides.
  */
  lemma OpLinesCompute(op: string, t: Reg, l: Node, r: Node, n: nat, rs: Regs)
    requires StraightOp(op) && t.idx != 0
    requires l.IntLit? ==> l.intValue == Get(rs, ScratchPair(t).0)
    requires r.IntLit? ==> r.intValue == Get(rs, ScratchPair(t).1)
    ensures var (lr, rr) := ScratchPair(t);
      Leaves(rs, OpLines(op, t, lr, rr, l, r, n), t, Denote(op, Get(rs, lr), Get(rs, rr)).value)
  {
    var (lr, rr) := ScratchPair(t);
    if op == "+" || op == "-" || op == "*" || op == "<" || op == ">" {
      ArithLines(op, t, lr, rr, l, r, n, rs);
    } else if op == "and" || op == "or" {
      LogicLines(op, t, lr, rr, l, r, n, rs);
    } else {
      CompareLines(op, t, lr, rr, l, r, n, rs);
    }
  }

  // ----- whole expressions -----

  /** Expressions built only from int literals and straight-line operators. */
  predicate IntTree(e: Node) {
    match e
    case IntLit(_) => true
    case BinOp(op, l, r) => StraightOp(op) && IntTree(l) && IntTree(r)
    case _ => false
  }

  /** Trees whose right operands are all literals, such as ((1 - 2) * 3) < 4. */
  predicate LeftChain(e: Node) {
    match e
    case IntLit(_) => true
    case BinOp(op, l, r) => StraightOp(op) && r.IntLit? && LeftChain(l)
    case _ => false
  }

  /**
    The code the generator emits for an int tree into `t`: the left operand
    into the first register of the scratch pair, the right operand into the
    second, then the operator's lines.
  */
  function TreeCode(e: Node, t: Reg): seq<Instr>
    requires IntTree(e)
  {
    match e
    case IntLit(v) => [Li(t, v)]
    case BinOp(op, l, r) =>
      var (lr, rr) := ScratchPair(t);
      TreeCode(l, lr) + TreeCode(r, rr) + OpLines(op, t, lr, rr, l, r, 0)
  }

  /** The lines `Eval` appends to the output. */
  ghost function Emitted(g: Gen, e: Node, t: Reg): seq<Instr> {
    Eval(g, e, t).out[|g.out|..]
  }

  lemma StraightOpLinesIgnoreCounter(op: string, t: Reg, lr: Reg, rr: Reg, l: Node, r: Node, n: nat)
    requires StraightOp(op)
    ensures OpLines(op, t, lr, rr, l, r, n) == OpLines(op, t, lr, rr, l, r, 0)
  {
  }

  /**
    On an int tree from a non-critical state, `Eval` reports nothing, takes
    no label, moves no cursor and appends exactly `TreeCode(e, t)`.
  */
  lemma {:induction false} EvalIntTree(g: Gen, e: Node, t: Reg)
    requires IntTree(e) && !D.IsCritical(g.err)
    ensures var r := Eval(g, e, t);
      && r.err == g.err && r.labelCounter == g.labelCounter && r.memoryPos == g.memoryPos
      && r.addrs == g.addrs && r.out == g.out + TreeCode(e, t)
    decreases e, 1
  {
    match e
    case IntLit(v) =>
    case BinOp(op, l, r) => EvalIntBinOp(g, e, t);
  }

  /** Operands that are int literals or int trees never trip the type check. */
  lemma IntOperandsTypeCheck(g: Gen, e: Node)
    requires e.BinOp? && IntTree(e)
    ensures TypeCheck(g, OperandType(g, e.left), OperandType(g, e.right), e.op) == g
  {
    var lt, rt := OperandType(g, e.left), OperandType(g, e.right);
    if lt.Some? && rt.Some? {
      assert lt.value == "int" && rt.value == "int";
      assert e.op != "%";
      assert D.CheckTypeCompatibility(g.err, "int", "int", e.op).0 == g.err;
    }
  }

  /** The operator case of `EvalIntTree`: both operands, then the operator's lines with no guard label. */
  lemma {:induction false} EvalIntBinOp(g: Gen, e: Node, t: Reg)
    requires e.BinOp? && IntTree(e) && !D.IsCritical(g.err)
    ensures var r := Eval(g, e, t);
      && r.err == g.err && r.labelCounter == g.labelCounter && r.memoryPos == g.memoryPos
      && r.addrs == g.addrs && r.out == g.out + TreeCode(e, t)
    decreases e, 0
  {
    var (lr, rr) := ScratchPair(t);
    EvalIntTree(g, e.left, lr);
    var ga := Eval(g, e.left, lr);
    EvalIntTree(ga, e.right, rr);
    var gb := Eval(ga, e.right, rr);
    StraightEval(g, e, t, gb);
    TreeCodeSplit(g.out, e, t);
  }

  /** A straight operator whose operands, lowered into the scratch pair, left `gb`: just its lines follow. */
  lemma StraightEval(g: Gen, e: Node, t: Reg, gb: Gen)
    requires e.BinOp? && IntTree(e) && !D.IsCritical(gb.err)
    requires var (lr, rr) := ScratchPair(t); gb == Eval(Eval(g, e.left, lr), e.right, rr)
    ensures var (lr, rr) := ScratchPair(t);
      Eval(g, e, t) == Emit(gb, OpLines(e.op, t, lr, rr, e.left, e.right, 0))
  {
    var (lr, rr) := ScratchPair(t);
    assert !e.IsConcat();
    IntOperandsTypeCheck(g, e);
    assert LowerOperands(g, e, t) == gb;
    StraightOpLinesIgnoreCounter(e.op, t, lr, rr, e.left, e.right, gb.labelCounter);
  }

  lemma TreeCodeSplit(o: seq<Instr>, e: Node, t: Reg)
    requires e.BinOp? && IntTree(e)
    ensures var (lr, rr) := ScratchPair(t);
      o + TreeCode(e.left, lr) + TreeCode(e.right, rr) + OpLines(e.op, t, lr, rr, e.left, e.right, 0)
        == o + TreeCode(e, t)
  {
  }

  /** The code of a left chain leaves the chain's value in the target, whatever the registers held before. */
  lemma {:induction false} LeftChainComputes(e: Node, t: Reg, rs: Regs)
    requires LeftChain(e) && t.idx != 0
    ensures IntTree(e) && Value(e).Some?
    ensures Leaves(rs, TreeCode(e, t), t, Value(e).value)
    decreases e
  {
    match e
    case IntLit(v) =>
      RunSingle(rs, Li(t, v));
    case BinOp(op, l, r) =>
      var (lr, rr) := ScratchPair(t);
      LeftChainComputes(l, lr, rs);
      var rs1 := Run(rs, TreeCode(l, lr)).value;
      var rs2 := Set(rs1, rr, r.intValue);
      assert TreeCode(r, rr) == [Li(rr, r.intValue)];
      RunAppend(rs, TreeCode(l, lr), [Li(rr, r.intValue)]);
      RunSingle(rs1, Li(rr, r.intValue));
      assert Run(rs, TreeCode(l, lr) + TreeCode(r, rr)) == Some(rs2);
      OpLinesCompute(op, t, l, r, 0, rs2);
      RunAppend(rs, TreeCode(l, lr) + TreeCode(r, rr), OpLines(op, t, lr, rr, l, r, 0));
  }

  /** The generator's output for a left chain, from any non-critical state, computes the chain's value. */
  lemma LeftChainLowering(g: Gen, e: Node, t: Reg, rs: Regs)
    requires LeftChain(e) && !D.IsCritical(g.err) && t.idx != 0
    ensures Value(e).Some? && Leaves(rs, Emitted(g, e, t), t, Value(e).value)
  {
    LeftChainComputes(e, t, rs);
    EvalIntTree(g, e, t);
    assert Emitted(g, e, t) == TreeCode(e, t);
  }

  /**
    Folding does not skip the operands: `a and 0` still loads both literals
    into the scratch pair before the `li t, 0` that replaces the
    `sne`/`sne`/`and` triple, and `a or b` with `b` nonzero likewise before
    `li t, 1`.
  */
  lemma FoldingKeepsOperandCode(g: Gen, a: int, b: int, t: Reg)
    requires !D.IsCritical(g.err)
    ensures var (lr, rr) := ScratchPair(t);
      && Emitted(g, BinOp("and", IntLit(a), IntLit(0)), t) == [Li(lr, a), Li(rr, 0), Comment, Li(t, 0)]
      && (b != 0 ==> Emitted(g, BinOp("or", IntLit(a), IntLit(b)), t) == [Li(lr, a), Li(rr, b), Comment, Li(t, 1)])
  {
    FoldedTree(g, BinOp("and", IntLit(a), IntLit(0)), t);
    FoldedLines("and", a, 0, t);
    if b != 0 {
      FoldedTree(g, BinOp("or", IntLit(a), IntLit(b)), t);
      FoldedLines("or", a, b, t);
    }
  }

  lemma FoldedTree(g: Gen, e: Node, t: Reg)
    requires IntTree(e) && !D.IsCritical(g.err)
    ensures Emitted(g, e, t) == TreeCode(e, t)
  {
    EvalIntTree(g, e, t);
  }

  lemma FoldedLines(op: string, a: int, b: int, t: Reg)
    requires (op == "and" && b == 0) || (op == "or" && b != 0)
    ensures IntTree(BinOp(op, IntLit(a), IntLit(b)))
    ensures var (lr, rr) := ScratchPair(t);
      TreeCode(BinOp(op, IntLit(a), IntLit(b)), t) == [Li(lr, a), Li(rr, b), Comment, Li(t, Flag(op == "or"))]
  {
    var (lr, rr) := ScratchPair(t);
    assert OpLines(op, t, lr, rr, IntLit(a), IntLit(b), 0) == [Comment, Li(t, Flag(op == "or"))];
  }

  /** 1 - (2 - (3 - 4)), whose value is -2. */
  const RIGHT_NESTED: Node :=
    BinOp("-", IntLit(1), BinOp("-", IntLit(2), BinOp("-", IntLit(3), IntLit(4))))

  const RIGHT_NESTED_CODE: seq<Instr> :=
    [ Li(X3, 1), Li(X1, 2), Li(X1, 3), Li(X2, 4),
      Alu(SUB, X2, X1, X2), Alu(SUB, X4, X1, X2), Alu(SUB, X1, X3, X4) ]

  lemma RightNestedShape()
    ensures IntTree(RIGHT_NESTED) && TreeCode(RIGHT_NESTED, X1) == RIGHT_NESTED_CODE
  {
    var inner := BinOp("-", IntLit(3), IntLit(4));
    var middle := BinOp("-", IntLit(2), inner);
    assert TreeCode(inner, X2) == [Li(X1, 3), Li(X2, 4), Alu(SUB, X2, X1, X2)];
    assert TreeCode(middle, X4) == [Li(X1, 2)] + TreeCode(inner, X2) + [Alu(SUB, X4, X1, X2)];
  }

  lemma RightNestedValue()
    ensures Value(RIGHT_NESTED) == Some(-2)
  {
    var inner := BinOp("-", IntLit(3), IntLit(4));
    var middle := BinOp("-", IntLit(2), inner);
    assert Denote("-", 3, 4) == Some(-1);
    assert Value(inner) == Some(-1);
    assert Denote("-", 2, -1) == Some(3);
    assert Value(middle) == Some(3);
    assert Denote("-", 1, 3) == Some(-2);
  }

  lemma RightNestedRun(rs: Regs)
    ensures Leaves(rs, RIGHT_NESTED_CODE, X1, -3)
  {
    var code := RIGHT_NESTED_CODE;
    var s1 := Set(rs, X3, 1);
    var s2 := Set(s1, X1, 2);
    var s3 := Set(s2, X1, 3);
    var s4 := Set(s3, X2, 4);
    var s5 := Set(s4, X2, -1);
    var s6 := Set(s5, X4, 4);
    RunCons(rs, code[0], code[1..]);
    RunCons(s1, code[1], code[2..]);
    RunCons(s2, code[2], code[3..]);
    RunCons(s3, code[3], code[4..]);
    RunCons(s4, code[4], code[5..]);
    RunCons(s5, code[5], code[6..]);
    RunSingle(s6, code[6]);
  }

  /**
    Right operands that nest twice clobber x1: the innermost difference is
    formed with x1/x2 while the middle one still needs its left operand in
    x1. Lowered into x1, 1 - (2 - (3 - 4)) leaves -3 instead of -2.
  */
  lemma RightNestingClobbers(g: Gen, rs: Regs)
    requires !D.IsCritical(g.err)
    ensures Value(RIGHT_NESTED) == Some(-2)
    ensures Emitted(g, RIGHT_NESTED, X1) == RIGHT_NESTED_CODE
    ensures Leaves(rs, Emitted(g, RIGHT_NESTED, X1), X1, -3)
  {
    RightNestedValue();
    RightNestedShape();
    EvalIntTree(g, RIGHT_NESTED, X1);
    RightNestedRun(rs);
  }
}
