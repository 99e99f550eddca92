/**
  Label placement in the earlier generator (risc_generator.c). Labels come
  from one counter that only moves forward, so every label line the walk
  emits names a number taken during that walk, and no number is placed
  twice. The data section is never written out, so no `__str_k` label is
  ever placed, although printing a string literal loads one with `la`.
*/
module LegacyLabels {
  import opened Isa
  import opened Ast
  import opened Legacy
  import opened LegacyProps
  import S = Statements

  /** The prefix of the labels that name data lines. */
  const DATA_PREFIX := "str"

  /**
    The label lines of `code` all name numbers in `ns`, none names a data
    label, and no number is placed twice.
  */
  ghost predicate MarksAmong(code: seq<Instr>, ns: set<nat>) {
    && (forall i :: 0 <= i < |code| && code[i].Mark? ==> code[i].at.n in ns && code[i].at.prefix != DATA_PREFIX)
    && (forall i, j :: 0 <= i < j < |code| && code[i].Mark? && code[j].Mark? ==> code[i].at.n != code[j].at.n)
  }

  lemma MarksJoin(a: seq<Instr>, b: seq<Instr>, A: set<nat>, B: set<nat>)
    requires MarksAmong(a, A) && MarksAmong(b, B) && A !! B
    ensures MarksAmong(a + b, A + B)
  {
    var c := a + b;
    forall i | 0 <= i < |c| && c[i].Mark?
      ensures c[i].at.n in A + B && c[i].at.prefix != DATA_PREFIX
    {
      if i < |a| {
        assert c[i] == a[i];
      } else {
        assert c[i] == b[i - |a|];
      }
    }
    forall i, j | 0 <= i < j < |c| && c[i].Mark? && c[j].Mark?
      ensures c[i].at.n != c[j].at.n
    {
      if j < |a| {
        assert c[i] == a[i] && c[j] == a[j];
      } else if i >= |a| {
        assert c[i] == b[i - |a|] && c[j] == b[j - |a|];
      } else {
        assert c[i] == a[i] && c[j] == b[j - |a|];
      }
    }
  }

  lemma MarksWiden(a: seq<Instr>, A: set<nat>, B: set<nat>)
    requires MarksAmong(a, A) && A <= B
    ensures MarksAmong(a, B)
  {
  }

  /** Two consecutive stretches of one walk. */
  lemma Chain(g: LGen, m: LGen, r: LGen, A: set<nat>, B: set<nat>)
    requires g.out <= m.out <= r.out
    requires MarksAmong(Added(g, m), A) && MarksAmong(Added(m, r), B) && A !! B
    ensures MarksAmong(Added(g, r), A + B)
  {
    assert Added(g, r) == Added(g, m) + Added(m, r);
    MarksJoin(Added(g, m), Added(m, r), A, B);
  }

  lemma OpLinesNoMarks(op: string, t: Reg)
    ensures MarksAmong(OpLines(op, t), {})
  {
  }

  /** Expression code places no label at all. */
  lemma {:induction false} EvalMarks(g: LGen, e: Node, t: Reg)
    ensures MarksAmong(Added(g, Eval(g, e, t)), {})
    decreases e
  {
    match e
    case BinOp(op, l, r) =>
      var g1 := Eval(g, l, X1);
      var g2 := Eval(g1, r, X2);
      EvalMarks(g, l, X1);
      EvalMarks(g1, r, X2);
      OpLinesNoMarks(op, t);
      assert Eval(g, e, t) == Emit(g2, OpLines(op, t));
      Chain(g, g1, g2, {}, {});
      Chain(g, g2, Eval(g, e, t), {}, {});
    case IntLit(v) =>
      assert Added(g, Eval(g, e, t)) == [Li(t, v)];
    case StrLit(_) =>
      assert Added(g, Eval(g, e, t)) == [Comment, Li(X0, 0)];
    case Ident(x) =>
      var (g1, a) := GetVariableAddress(g, x);
      assert Added(g, Eval(g, e, t)) == [Comment, Li(X5, a), Lw(t, X5, 0)];
    case _ =>
      assert Added(g, Eval(g, e, t)) == [Comment];
  }

  /** Fixed lines, an expression, fixed lines. */
  lemma Sandwich(g: LGen, pre: seq<Instr>, e: Node, t: Reg, post: seq<Instr>, A: set<nat>, B: set<nat>)
    requires MarksAmong(pre, A) && MarksAmong(post, B) && A !! B
    ensures MarksAmong(Added(g, Emit(Eval(Emit(g, pre), e, t), post)), A + B)
  {
    var g1 := Emit(g, pre);
    var g2 := Eval(g1, e, t);
    var r := Emit(g2, post);
    assert Added(g, g1) == pre;
    assert Added(g2, r) == post;
    EvalMarks(g1, e, t);
    Chain(g, g1, g2, A, {});
    Chain(g, g2, r, A, B);
  }

  lemma DeclarationMarks(g: LGen, n: Node)
    requires n.VarDecl?
    ensures var r := ProcessNode(g, n);
      r.labelCounter == g.labelCounter && MarksAmong(Added(g, r), {})
  {
    var g1 := RegisterVariable(g, n.name, n.varType);
    var (g2, addr) := GetVariableAddress(g1, n.name);
    if n.init.Some? {
      Sandwich(g2, [Comment, Comment], n.init.value, X1, [Li(X2, addr), Sw(X2, 0, X1)], {}, {});
    } else {
      assert Added(g, VariableDeclaration(g, n)) == [Comment, Li(X1, 0), Li(X2, addr), Sw(X2, 0, X1)];
    }
  }

  lemma AssignmentMarks(g: LGen, n: Node)
    requires n.Assign?
    ensures var r := ProcessNode(g, n);
      r.labelCounter == g.labelCounter && MarksAmong(Added(g, r), {})
  {
    var (g1, addr) := GetVariableAddress(g, n.target);
    Sandwich(g1, [Comment], n.value, X1, [Li(X2, addr), Sw(X2, 0, X1)], {}, {});
  }

  lemma HeaderMarks(g: LGen, n: Node, addr: int, loopL: Label, endL: Label)
    requires n.Round? && loopL.prefix != DATA_PREFIX
    ensures var r := RoundHeader(g, n, addr, loopL, endL);
      r.labelCounter == g.labelCounter && MarksAmong(Added(g, r), {loopL.n})
  {
    var g1 := Emit(Eval(Emit(g, [Comment]), n.start, X1), [Li(X2, addr), Sw(X2, 0, X1)]);
    var g2 := Eval(g1, n.end, X3);
    var g3 := if n.step.Some? then Eval(g2, n.step.value, X4) else Emit(g2, [Addi(X4, X0, 1)]);
    var tail := [Mark(loopL), Li(X2, addr), Lw(X1, X2, 0)] + LoopTest(endL);
    var r := Emit(g3, tail);
    assert MarksAmong(Added(g, g2), {}) by {
      Sandwich(g, [Comment], n.start, X1, [Li(X2, addr), Sw(X2, 0, X1)], {}, {});
      EvalMarks(g1, n.end, X3);
      Chain(g, g1, g2, {}, {});
    }
    assert MarksAmong(Added(g2, g3), {}) by {
      if n.step.Some? {
        EvalMarks(g2, n.step.value, X4);
      } else {
        assert Added(g2, g3) == [Addi(X4, X0, 1)];
      }
    }
    assert MarksAmong(Added(g3, r), {loopL.n}) by {
      assert Added(g3, r) == tail;
    }
    Chain3(g, g2, g3, r, {}, {}, {loopL.n});
    assert {} + {} + {loopL.n} == {loopL.n};
  }

  lemma IncrementMarks(addr: int, loopL: Label, endL: Label, incL: Label)
    requires endL.n != incL.n && endL.prefix != DATA_PREFIX && incL.prefix != DATA_PREFIX
    ensures MarksAmong(LoopIncrement(addr, loopL, endL, incL), {incL.n, endL.n})
  {
  }

  lemma StringPrintMarks(k: nat, loopL: Label, endL: Label)
    requires loopL.n != endL.n && loopL.prefix != DATA_PREFIX && endL.prefix != DATA_PREFIX
    ensures MarksAmong([La(X1, Label("str", k))] + StringLoop(loopL, endL) + NEWLINE + [Comment], {loopL.n, endL.n})
  {
    var code := [La(X1, Label("str", k))] + StringLoop(loopL, endL) + NEWLINE + [Comment];
    assert forall i :: 0 <= i < |code| && code[i].Mark? ==> i == 1 || i == 7;
  }

  lemma DecimalMarks(loopL: Label, afterMinusL: Label)
    requires loopL.n != afterMinusL.n && loopL.prefix != DATA_PREFIX && afterMinusL.prefix != DATA_PREFIX
    ensures MarksAmong(S.DecimalLoop(loopL, afterMinusL) + NEWLINE + [Comment], {loopL.n, afterMinusL.n})
  {
    var code := S.DecimalLoop(loopL, afterMinusL) + NEWLINE + [Comment];
    assert forall i :: 0 <= i < |code| && code[i].Mark? ==> i == 8 || i == 19;
  }

  lemma PrintStringMarks(g: LGen, s: string)
    ensures var r := PrintString(g, s);
      MarksAmong(Added(g, r), Range(g.labelCounter, r.labelCounter))
  {
    var (g1, k) := AddStringLiteral(g, s);
    var (g2, loopL) := NewLabel(g1, "str_print_loop");
    var (g3, endL) := NewLabel(g2, "str_print_end");
    var code := [La(X1, Label("str", k))] + StringLoop(loopL, endL) + NEWLINE + [Comment];
    var r := Emit(g3, code);
    assert Added(g, r) == code;
    StringPrintMarks(k, loopL, endL);
    MarksWiden(code, {loopL.n, endL.n}, Range(g.labelCounter, r.labelCounter));
  }

  lemma PrintValueMarks(g: LGen, e: Node)
    ensures var r := PrintValue(g, e);
      MarksAmong(Added(g, r), Range(g.labelCounter, r.labelCounter))
  {
    var (g1, _) := NewLabel(g, "print_end");
    var (g2, loopL) := NewLabel(g1, "print_loop");
    var (g3, afterMinusL) := NewLabel(g2, "after_minus");
    var tail := S.DecimalLoop(loopL, afterMinusL) + NEWLINE + [Comment];
    var r := Emit(Eval(Emit(g3, [Comment]), e, X1), tail);
    DecimalMarks(loopL, afterMinusL);
    Sandwich(g3, [Comment], e, X1, tail, {}, {loopL.n, afterMinusL.n});
    MarksWiden(Added(g, r), {} + {loopL.n, afterMinusL.n}, Range(g.labelCounter, r.labelCounter));
  }

  lemma PrintMarks(g: LGen, n: Node)
    requires n.Print?
    ensures var r := ProcessNode(g, n);
      MarksAmong(Added(g, r), Range(g.labelCounter, r.labelCounter))
  {
    if n.expr.StrLit? {
      PrintStringMarks(g, n.expr.strValue);
    } else {
      PrintValueMarks(g, n.expr);
    }
  }

  /** Every label line a statement emits names a label taken while lowering it, and none twice. */
  lemma {:induction false} NodeMarks(g: LGen, n: Node)
    ensures var r := ProcessNode(g, n);
      MarksAmong(Added(g, r), Range(g.labelCounter, r.labelCounter))
    decreases n, 2
  {
    match n
    case Program(cs) => NodesMarks(g, cs);
    case Block(cs) => NodesMarks(g, cs);
    case VarDecl(_, _, _, _) => DeclarationMarks(g, n);
    case Assign(_, _) => AssignmentMarks(g, n);
    case If(_, _, _) => IfMarks(g, n);
    case While(_, _) => WhileMarks(g, n);
    case Round(_, _, _, _, _) => RoundMarks(g, n);
    case Print(_) => PrintMarks(g, n);
    case _ => assert Added(g, g) == [];
  }

  lemma {:induction false} NodesMarks(g: LGen, ns: seq<Node>)
    ensures var r := ProcessNodes(g, ns);
      MarksAmong(Added(g, r), Range(g.labelCounter, r.labelCounter))
    decreases ns, 0
  {
    if |ns| == 0 {
      assert Added(g, g) == [];
    } else {
      var g1 := ProcessNode(g, ns[0]);
      var r := ProcessNodes(g1, ns[1..]);
      NodeMarks(g, ns[0]);
      NodesMarks(g1, ns[1..]);
      Chain(g, g1, r, Range(g.labelCounter, g1.labelCounter), Range(g1.labelCounter, r.labelCounter));
      assert Range(g.labelCounter, g1.labelCounter) + Range(g1.labelCounter, r.labelCounter)
          == Range(g.labelCounter, r.labelCounter);
    }
  }

  /** Three consecutive stretches of one walk. */
  lemma Chain3(g: LGen, m1: LGen, m2: LGen, r: LGen, A: set<nat>, B: set<nat>, C: set<nat>)
    requires g.out <= m1.out <= m2.out <= r.out
    requires MarksAmong(Added(g, m1), A) && MarksAmong(Added(m1, m2), B) && MarksAmong(Added(m2, r), C)
    requires A !! B && (A + B) !! C
    ensures MarksAmong(Added(g, r), A + B + C)
  {
    Chain(g, m1, m2, A, B);
    Chain(g, m2, r, A + B, C);
  }

  /** An if-statement after its test: then-branch, the else label, else-branch, the end label. */
  lemma {:induction false} IfRestMarks(g3: LGen, n: Node, elseL: Label, endL: Label)
    requires n.If?
    requires elseL.n < endL.n < g3.labelCounter
    requires elseL.prefix != DATA_PREFIX && endL.prefix != DATA_PREFIX
    ensures var r := IfBranches(g3, n, elseL, endL);
      MarksAmong(Added(g3, r), Range(g3.labelCounter, r.labelCounter) + {elseL.n, endL.n})
    decreases n, 0
  {
    var gt := ProcessNode(g3, n.thenBranch);
    var g4 := Emit(gt, [Jal(X0, endL), Mark(elseL)]);
    var g5 := if n.elseBranch.Some? then ProcessNode(g4, n.elseBranch.value) else g4;
    var r := Emit(g5, [Mark(endL), Comment]);
    var A := Range(g3.labelCounter, gt.labelCounter);
    var B := Range(gt.labelCounter, g5.labelCounter);
    assert MarksAmong(Added(g3, g4), A + {elseL.n}) by {
      NodeMarks(g3, n.thenBranch);
      assert Added(gt, g4) == [Jal(X0, endL), Mark(elseL)];
      Chain(g3, gt, g4, A, {elseL.n});
    }
    assert MarksAmong(Added(g4, r), B + {endL.n}) by {
      if n.elseBranch.Some? {
        NodeMarks(g4, n.elseBranch.value);
      } else {
        assert Added(g4, g5) == [];
      }
      assert Added(g5, r) == [Mark(endL), Comment];
      Chain(g4, g5, r, B, {endL.n});
    }
    Chain(g3, g4, r, A + {elseL.n}, B + {endL.n});
    assert r == IfBranches(g3, n, elseL, endL);
    MarksWiden(Added(g3, r), A + {elseL.n} + (B + {endL.n}), Range(g3.labelCounter, r.labelCounter) + {elseL.n, endL.n});
  }

  lemma {:induction false} IfMarks(g: LGen, n: Node)
    requires n.If?
    ensures var r := ProcessNode(g, n);
      MarksAmong(Added(g, r), Range(g.labelCounter, r.labelCounter))
    decreases n, 1
  {
    var (g1, elseL) := NewLabel(g, "else");
    var (g2, endL) := NewLabel(g1, "endif");
    var g3 := Emit(Eval(Emit(g2, [Comment]), n.cond, X1), [Beq(X1, X0, elseL)]);
    var r := IfBranches(g3, n, elseL, endL);
    var c := g.labelCounter;
    var A := Range(c + 2, r.labelCounter) + {c, c + 1};
    assert MarksAmong(Added(g, g3), {}) by {
      Sandwich(g2, [Comment], n.cond, X1, [Beq(X1, X0, elseL)], {}, {});
    }
    assert MarksAmong(Added(g3, r), A) by {
      IfRestMarks(g3, n, elseL, endL);
    }
    Chain(g, g3, r, {}, A);
    assert r == ProcessNode(g, n);
    MarksWiden(Added(g, r), {} + A, Range(c, r.labelCounter));
  }

  lemma {:induction false} WhileMarks(g: LGen, n: Node)
    requires n.While?
    ensures var r := ProcessNode(g, n);
      MarksAmong(Added(g, r), Range(g.labelCounter, r.labelCounter))
    decreases n, 0
  {
    var (g1, loopL) := NewLabel(g, "while");
    var (g2, endL) := NewLabel(g1, "endwhile");
    var g3 := Emit(Eval(Emit(g2, [Comment, Mark(loopL)]), n.cond, X1), [Beq(X1, X0, endL)]);
    var gb := ProcessNode(g3, n.body);
    var r := Emit(gb, [Jal(X0, loopL), Mark(endL), Comment]);
    var c := g.labelCounter;
    var A := Range(c + 2, gb.labelCounter);
    assert MarksAmong(Added(g, g3), {c}) by {
      Sandwich(g2, [Comment, Mark(loopL)], n.cond, X1, [Beq(X1, X0, endL)], {c}, {});
    }
    assert MarksAmong(Added(g3, gb), A) by {
      NodeMarks(g3, n.body);
    }
    assert MarksAmong(Added(gb, r), {c + 1}) by {
      assert Added(gb, r) == [Jal(X0, loopL), Mark(endL), Comment];
    }
    Chain3(g, g3, gb, r, {c}, A, {c + 1});
    assert r == ProcessNode(g, n);
    MarksWiden(Added(g, r), {c} + A + {c + 1}, Range(c, r.labelCounter));
  }

  /** The counted loop after its header: the body, then the increment block with its two labels. */
  lemma {:induction false} RoundRestMarks(g5: LGen, n: Node, addr: int, loopL: Label, endL: Label, incL: Label)
    requires n.Round?
    requires endL.n < incL.n < g5.labelCounter
    requires endL.prefix != DATA_PREFIX && incL.prefix != DATA_PREFIX
    ensures var r := RoundBody(g5, n, addr, loopL, endL, incL);
      MarksAmong(Added(g5, r), Range(g5.labelCounter, r.labelCounter) + {incL.n, endL.n})
    decreases n, 0
  {
    var gb := ProcessNode(g5, n.body);
    var tail := LoopIncrement(addr, loopL, endL, incL);
    var r := Emit(gb, tail);
    NodeMarks(g5, n.body);
    assert Added(gb, r) == tail;
    IncrementMarks(addr, loopL, endL, incL);
    Chain(g5, gb, r, Range(g5.labelCounter, gb.labelCounter), {incL.n, endL.n});
  }

  lemma {:induction false} RoundMarks(g: LGen, n: Node)
    requires n.Round?
    ensures var r := ProcessNode(g, n);
      MarksAmong(Added(g, r), Range(g.labelCounter, r.labelCounter))
    decreases n, 1
  {
    var (g1, addr) := GetVariableAddress(g, n.variable);
    var (g2, loopL) := NewLabel(g1, "round");
    var (g3, endL) := NewLabel(g2, "endround");
    var (g4, incL) := NewLabel(g3, "increment");
    var g5 := RoundHeader(g4, n, addr, loopL, endL);
    var r := RoundBody(g5, n, addr, loopL, endL, incL);
    var c := g.labelCounter;
    var A := Range(g5.labelCounter, r.labelCounter) + {incL.n, endL.n};
    assert MarksAmong(Added(g, g5), {c}) by {
      assert g4.out == g.out && loopL.n == c;
      HeaderMarks(g4, n, addr, loopL, endL);
    }
    assert MarksAmong(Added(g5, r), A) by {
      RoundRestMarks(g5, n, addr, loopL, endL, incL);
    }
    Chain(g, g5, r, {c}, A);
    assert g5.labelCounter == c + 3;
    MarksWiden(Added(g, r), {c} + A, Range(c, r.labelCounter));
  }

  /**
    The driver's output places no label twice and no data label at all:
    every label line names a number the walk took from the counter.
  */
  lemma GeneratedMarks(root: Node)
    ensures MarksAmong(GenerateRiscCode(root), Range(0, ProcessNode(Init(), root).labelCounter))
  {
    var w := ProcessNode(Init(), root);
    NodeMarks(Init(), root);
    assert Added(Init(), w) == w.out;
    MarksJoin(w.out, [Comment, Ebreak], Range(0, w.labelCounter), {});
  }

  /**
    Printing a string literal loads `__str_0` with `la`, but no line of
    the output defines that label: the data line that would is kept in the
    generator's data section, which the driver never writes out.
  */
  lemma StringPrintLabelDangles(s: string)
    ensures var code := GenerateRiscCode(Program([Print(StrLit(s))]));
      La(X1, Label(DATA_PREFIX, 0)) in code && Mark(Label(DATA_PREFIX, 0)) !in code
  {
    var root := Program([Print(StrLit(s))]);
    var code := GenerateRiscCode(root);
    var w := ProcessNode(Init(), Print(StrLit(s)));
    assert [Print(StrLit(s))][1..] == [];
    assert ProcessNode(Init(), root) == ProcessNodes(w, []);
    PrintStringUsesItsData(Init(), s);
    assert code[0] == La(X1, Label(DATA_PREFIX, 0));
    GeneratedMarks(root);
  }
}
