/**
  Label placement in the checked generator (compiler/risc_generator.c).
  Labels are numbered from one counter that only moves forward. Most
  constructs take one number per label they place; the zero guard of "/"
  and "%" places two labels with different prefixes under the counter's
  current value and then moves it by one. So a number can appear on two
  label lines, but a whole label (prefix and number) is placed only once.
*/
module CheckedLabels {
  import opened Wrappers
  import opened Isa
  import opened Ast
  import opened CText
  import opened GenState
  import opened Lower
  import opened Statements
  import opened CheckedProps
  import D = Diagnostics

  /** Every label line of `code` names a number in `ns`, and no label is placed twice. */
  ghost predicate MarksAmong(code: seq<Instr>, ns: set<nat>) {
    && (forall i :: 0 <= i < |code| && code[i].Mark? ==> code[i].at.n in ns)
    && (forall i, j :: 0 <= i < j < |code| && code[i].Mark? && code[j].Mark? ==> code[i].at != code[j].at)
  }

  /** Lines that place no label. */
  predicate Unlabelled(code: seq<Instr>) {
    forall i :: 0 <= i < |code| ==> !code[i].Mark?
  }

  /**
    `r` is later on the same walk as `g`, and the lines in between place
    labels numbered either from `S`, numbers taken before `g`, or from the
    counter values taken in between, and none twice.
  */
  ghost predicate Between(g: Gen, r: Gen, S: set<nat>) {
    && g.out <= r.out
    && g.labelCounter <= r.labelCounter
    && (forall k :: k in S ==> k < g.labelCounter)
    && MarksAmong(Added(g, r), S + Range(g.labelCounter, r.labelCounter))
  }

  /** The lines between `g` and `r` place only labels numbered from the counter values taken in between, none twice. */
  ghost predicate FreshMarks(g: Gen, r: Gen) {
    Between(g, r, {})
  }

  lemma MarksJoin(a: seq<Instr>, b: seq<Instr>, A: set<nat>, B: set<nat>)
    requires MarksAmong(a, A) && MarksAmong(b, B) && A !! B
    ensures MarksAmong(a + b, A + B)
  {
    var c := a + b;
    forall i | 0 <= i < |c| && c[i].Mark?
      ensures c[i].at.n in A + B
    {
      if i < |a| {
        assert c[i] == a[i];
      } else {
        assert c[i] == b[i - |a|];
      }
    }
    forall i, j | 0 <= i < j < |c| && c[i].Mark? && c[j].Mark?
      ensures c[i].at != c[j].at
    {
      if j < |a| {
        assert c[i] == a[i] && c[j] == a[j];
      } else if i >= |a| {
        assert c[i] == b[i - |a|] && c[j] == b[j - |a|];
      } else {
        assert c[i] == a[i] && c[j] == b[j - |a|];
      }
    }
  }

  lemma MarksWiden(a: seq<Instr>, A: set<nat>, B: set<nat>)
    requires MarksAmong(a, A) && A <= B
    ensures MarksAmong(a, B)
  {
  }

  /** Two consecutive stretches of one walk, the second's earlier numbers taken before the first. */
  lemma BetweenTrans(a: Gen, b: Gen, c: Gen, P: set<nat>, Q: set<nat>)
    requires Between(a, b, P) && Between(b, c, Q) && P !! Q
    requires forall k :: k in Q ==> k < a.labelCounter
    ensures Between(a, c, P + Q)
  {
    var A := P + Range(a.labelCounter, b.labelCounter);
    var B := Q + Range(b.labelCounter, c.labelCounter);
    AddedSplit(a, b, c);
    MarksJoin(Added(a, b), Added(b, c), A, B);
    MarksWiden(Added(a, c), A + B, P + Q + Range(a.labelCounter, c.labelCounter));
  }

  lemma FreshTrans(a: Gen, b: Gen, c: Gen)
    requires FreshMarks(a, b) && FreshMarks(b, c)
    ensures FreshMarks(a, c)
  {
    BetweenTrans(a, b, c, {}, {});
    var none: set<nat> := {};
    assert none + none == none;
  }

  /** Fixed lines placing labels numbered from `P`, all taken earlier; the counter stays. */
  lemma Place(g: Gen, r: Gen, lines: seq<Instr>, P: set<nat>)
    requires r.out == g.out + lines && r.labelCounter == g.labelCounter
    requires MarksAmong(lines, P) && forall k :: k in P ==> k < g.labelCounter
    ensures Between(g, r, P)
  {
    AddedOf(g, r, lines);
    MarksWiden(lines, P, P + Range(g.labelCounter, r.labelCounter));
  }

  /** Lines without labels, the counter left where it was. */
  lemma FreshPlain(g: Gen, r: Gen, lines: seq<Instr>)
    requires r.out == g.out + lines && r.labelCounter == g.labelCounter && Unlabelled(lines)
    ensures FreshMarks(g, r)
  {
    AddedOf(g, r, lines);
  }

  /** A step that emits nothing and takes no label number. */
  lemma FreshSame(g: Gen, r: Gen)
    requires r.out == g.out && r.labelCounter == g.labelCounter
    ensures FreshMarks(g, r)
  {
    FreshPlain(g, r, []);
  }

  /**
    Labels taken from the counter before any line is emitted, then placed
    later: the whole stretch only uses counter values taken in it.
  */
  lemma Taken(g: Gen, g2: Gen, r: Gen, S: set<nat>)
    requires g.out == g2.out && g.labelCounter <= g2.labelCounter
    requires forall k :: k in S ==> g.labelCounter <= k
    requires Between(g2, r, S)
    ensures FreshMarks(g, r)
  {
    assert Added(g, r) == Added(g2, r);
    MarksWiden(Added(g, r), S + Range(g2.labelCounter, r.labelCounter), {} + Range(g.labelCounter, r.labelCounter));
  }

  lemma UnlabelledJoin(a: seq<Instr>, b: seq<Instr>)
    requires Unlabelled(a) && Unlabelled(b)
    ensures Unlabelled(a + b)
  {
    forall i | 0 <= i < |a + b|
      ensures !(a + b)[i].Mark?
    {
      if i >= |a| {
        assert (a + b)[i] == b[i - |a|];
      }
    }
  }

  // ----- fixed code blocks -----

  lemma {:induction false} StoreCharsUnlabelled(bs: seq<Byte>)
    ensures Unlabelled(StoreChars(bs))
  {
    if |bs| > 0 {
      StoreCharsUnlabelled(bs[1..]);
      UnlabelledJoin([Li(X1, SignedChar(bs[0])), Sw(X2, 0, X1), Addi(X2, X2, 1)], StoreChars(bs[1..]));
    }
  }

  /**
    The operator lines place labels only for "/" and "%": the zero label and
    the after label, both numbered `n`. Every other operator places none.
  */
  lemma OpLinesMarks(op: string, t: Reg, lr: Reg, rr: Reg, l: Node, r: Node, n: nat)
    ensures IsDivOp(op) ==> MarksAmong(OpLines(op, t, lr, rr, l, r, n), {n})
    ensures !IsDivOp(op) ==> Unlabelled(OpLines(op, t, lr, rr, l, r, n))
  {
    var code := OpLines(op, t, lr, rr, l, r, n);
    if op == "/" {
      assert forall i :: 0 <= i < |code| && code[i].Mark? ==> i == 4 || i == 6;
      assert code[4].at.prefix != code[6].at.prefix;
    } else if op == "%" {
      assert forall i :: 0 <= i < |code| && code[i].Mark? ==> i == 5 || i == 7;
      assert code[5].at.prefix != code[7].at.prefix;
    }
  }

  /** The copy routine of a concatenation places its four labels, numbered `n` to `n + 3`. */
  lemma CopyLoopMarks(r1: Reg, r2: Reg, addr: int, n: nat)
    ensures MarksAmong(CopyLoop(r1, r2, addr, n), Range(n, n + 4))
  {
    var code := CopyLoop(r1, r2, addr, n);
    assert forall i :: 0 <= i < |code| && code[i].Mark? ==> i == 5 || i == 12 || i == 13 || i == 20;
    assert code[5].at.n == n && code[13].at.n == n + 1 && code[12].at.n == n + 2 && code[20].at.n == n + 3;
  }

  lemma StringLoopMarks(loopL: Label, doneL: Label)
    requires loopL != doneL
    ensures MarksAmong(StringLoop(loopL, doneL) + NEWLINE, {loopL.n, doneL.n})
  {
    var code := StringLoop(loopL, doneL) + NEWLINE;
    assert forall i :: 0 <= i < |code| && code[i].Mark? ==> i == 0 || i == 6;
  }

  lemma DecimalLoopMarks(producerL: Label, afterMinusL: Label)
    requires producerL != afterMinusL
    ensures MarksAmong(DecimalLoop(producerL, afterMinusL) + NEWLINE, {producerL.n, afterMinusL.n})
  {
    var code := DecimalLoop(producerL, afterMinusL) + NEWLINE;
    assert forall i :: 0 <= i < |code| && code[i].Mark? ==> i == 8 || i == 19;
  }

  // ----- expressions -----

  /** Expression code places only labels numbered from the counter values it took, none twice. */
  lemma {:induction false} EvalMarks(g: Gen, e: Node, t: Reg)
    ensures FreshMarks(g, Eval(g, e, t))
    decreases e, 3
  {
    var r := Eval(g, e, t);
    match e
    case BinOp(op, _, _) =>
      if op == "." {
        ConcatMarks(g, e, t);
      } else {
        BinaryMarks(g, e, t);
      }
    case IntLit(v) => FreshPlain(g, r, [Li(t, v)]);
    case StrLit(s) => StringLiteralMarks(g, s, t);
    case Ident(x) => LoadMarks(g, x, t);
    case _ => FreshPlain(g, r, [Comment]);
  }

  /** A string literal stores its bytes and loads the address: no label. */
  lemma StringLiteralMarks(g: Gen, s: string, t: Reg)
    ensures var (g1, a) := AddStringLiteral(g, s);
      FreshMarks(g, Emit(g1, [Li(t, a)]))
  {
    var (g1, a) := AddStringLiteral(g, s);
    var stored := StoreChars(Payload(Utf8(s)));
    StoreCharsUnlabelled(Payload(Utf8(s)));
    UnlabelledJoin([Li(X2, g.memoryPos)], stored);
    UnlabelledJoin([Li(X2, g.memoryPos)] + stored, [Li(X1, 0), Sw(X2, 0, X1)]);
    FreshPlain(g, g1, [Li(X2, g.memoryPos)] + stored + [Li(X1, 0), Sw(X2, 0, X1)]);
    FreshPlain(g1, Emit(g1, [Li(t, a)]), [Li(t, a)]);
    FreshTrans(g, g1, Emit(g1, [Li(t, a)]));
  }

  /** Loading a variable places no label. */
  lemma LoadMarks(g: Gen, x: string, t: Reg)
    ensures FreshMarks(g, LoadVariable(g, x, t))
  {
    var (g1, a) := GetVariableAddress(g, x);
    var r := LoadVariable(g, x, t);
    FreshSame(g, g1);
    if a != -1 {
      FreshPlain(g1, r, [Li(X2, a), Lw(X31, X2, 0), Alu(ADD, t, X31, X0)]);
    } else {
      FreshPlain(g1, r, [Li(t, 0)]);
    }
    FreshTrans(g, g1, r);
  }

  lemma {:induction false} ConcatMarks(g: Gen, e: Node, t: Reg)
    requires e.BinOp?
    ensures FreshMarks(g, EvalConcat(g, e, t))
    decreases e, 2
  {
    var g1 := if e.left.IsConcat() then Emit(Eval(g, e.left, X10), [Addi(X5, X10, 0)]) else Eval(g, e.left, X5);
    var g2 := Eval(g1, e.right, X6);
    if e.left.IsConcat() {
      var g0 := Eval(g, e.left, X10);
      EvalMarks(g, e.left, X10);
      FreshPlain(g0, g1, [Addi(X5, X10, 0)]);
      FreshTrans(g, g0, g1);
    } else {
      EvalMarks(g, e.left, X5);
    }
    EvalMarks(g1, e.right, X6);
    FreshTrans(g, g1, g2);
    ProcessConcatMarks(g2, e, t);
    FreshTrans(g, g2, EvalConcat(g, e, t));
  }

  lemma {:induction false} ProcessConcatMarks(g: Gen, e: Node, t: Reg)
    requires e.BinOp?
    ensures FreshMarks(g, ProcessConcat(g, e, t))
    decreases e, 1
  {
    var g1 := Eval(g, e.left, X5);
    var g2 := Eval(g1, e.right, X6);
    var (g3, a) := ConcatenateStrings(g2, X5, X6);
    var r := Emit(g3, [Li(t, a)]);
    EvalMarks(g, e.left, X5);
    EvalMarks(g1, e.right, X6);
    FreshTrans(g, g1, g2);
    assert FreshMarks(g2, g3) by {
      var code := CopyLoop(X5, X6, g2.memoryPos, g2.labelCounter);
      AddedOf(g2, g3, code);
      CopyLoopMarks(X5, X6, g2.memoryPos, g2.labelCounter);
      MarksWiden(code, Range(g2.labelCounter, g3.labelCounter), {} + Range(g2.labelCounter, g3.labelCounter));
    }
    FreshTrans(g, g2, g3);
    FreshPlain(g3, r, [Li(t, a)]);
    FreshTrans(g, g3, r);
  }

  lemma {:induction false} OperandsMarks(g: Gen, e: Node, t: Reg)
    requires e.BinOp?
    ensures FreshMarks(g, LowerOperands(g, e, t))
    decreases e, 0
  {
    var (lr, rr) := ScratchPair(t);
    var g1 := Eval(g, e.left, lr);
    EvalMarks(g, e.left, lr);
    EvalMarks(g1, e.right, rr);
    FreshTrans(g, g1, Eval(g1, e.right, rr));
  }

  lemma {:induction false} BinaryMarks(g: Gen, e: Node, t: Reg)
    requires e.BinOp? && !e.IsConcat()
    ensures FreshMarks(g, LowerBinary(g, e, t))
    decreases e, 1
  {
    var lt := OperandType(g, e.left);
    var rt := OperandType(g, e.right);
    var g1 := TypeCheck(g, lt, rt, e.op);
    FreshSame(g, g1);
    if IsDivOp(e.op) && e.right.IsIntZero() {
      var g2 := ReportErr(g1, D.DivisionByZero);
      FreshSame(g1, g2);
      FreshPlain(g2, Emit(g2, [Li(t, 0)]), [Li(t, 0)]);
      FreshTrans(g1, g2, Emit(g2, [Li(t, 0)]));
      FreshTrans(g, g1, Emit(g2, [Li(t, 0)]));
    } else {
      var g2 := LowerOperands(g1, e, t);
      OperandsMarks(g1, e, t);
      OperatorMarks(g2, e, t, lt, rt);
      FreshTrans(g1, g2, LowerOperator(g2, e, t, lt, rt));
      FreshTrans(g, g1, LowerOperator(g2, e, t, lt, rt));
    }
  }

  /** The operator itself: "/" and "%" place their two labels under the number they take. */
  lemma OperatorMarks(g: Gen, e: Node, t: Reg, lt: Option<string>, rt: Option<string>)
    requires e.BinOp?
    ensures FreshMarks(g, LowerOperator(g, e, t, lt, rt))
  {
    var r := LowerOperator(g, e, t, lt, rt);
    if D.IsCritical(g.err) {
      FreshSame(g, r);
    } else if ModuloOnString(e.op, lt, rt) {
      FreshPlain(g, r, [Comment]);
    } else {
      var (lr, rr) := ScratchPair(t);
      var code := OpLines(e.op, t, lr, rr, e.left, e.right, g.labelCounter);
      OpLinesMarks(e.op, t, lr, rr, e.left, e.right, g.labelCounter);
      AddedOf(g, r, code);
      if !IsDivOp(e.op) {
        FreshPlain(g, r, code);
      } else {
        MarksWiden(code, {g.labelCounter}, {} + Range(g.labelCounter, r.labelCounter));
      }
    }
  }

  // ----- statements -----

  /** Fixed lines, an expression, fixed lines. */
  lemma Sandwich(g: Gen, pre: seq<Instr>, e: Node, t: Reg, post: seq<Instr>)
    requires Unlabelled(pre) && Unlabelled(post)
    ensures FreshMarks(g, Emit(Eval(Emit(g, pre), e, t), post))
  {
    var g1 := Emit(g, pre);
    var g2 := Eval(g1, e, t);
    var r := Emit(g2, post);
    FreshPlain(g, g1, pre);
    EvalMarks(g1, e, t);
    FreshPlain(g2, r, post);
    FreshTrans(g, g1, g2);
    FreshTrans(g, g2, r);
  }

  lemma DeclarationMarks(g: Gen, n: Node)
    requires n.VarDecl?
    ensures FreshMarks(g, ProcessVariableDeclaration(g, n))
  {
    var r := ProcessVariableDeclaration(g, n);
    if n.isGlobal && !g.scopeGlobal {
      FreshSame(g, r);
    } else if DeclaredWithFlag(g.vars, n.name, n.isGlobal) {
      FreshSame(g, r);
    } else {
      var g1 := RegisterVariable(g, n.name, n.varType, n.isGlobal);
      var (g2, addr) := RegisterVariableAddress(g1, n.name);
      assert g2.out == g.out && g2.labelCounter == g.labelCounter;
      match n.init
      case None =>
        FreshPlain(g, r, [Comment, Li(X1, 0), Li(X2, addr), Sw(X2, 0, X1)]);
      case Some(e) =>
        var (g3, go) := InitializerCheck(g2, n.varType, e);
        if !go || D.IsCritical(g3.err) {
          FreshSame(g, r);
        } else {
          Sandwich(g3, [Comment], e, X1, [Li(X2, addr), Sw(X2, 0, X1)]);
          FreshSame(g, g3);
          FreshTrans(g, g3, r);
        }
    }
  }

  lemma AssignmentMarks(g: Gen, n: Node)
    requires n.Assign?
    ensures FreshMarks(g, ProcessAssignment(g, n))
  {
    var (g1, addr) := GetVariableAddress(g, n.target);
    var r := ProcessAssignment(g, n);
    FreshSame(g, g1);
    if addr != -1 && !D.IsCritical(g1.err) {
      Sandwich(g1, [Comment], n.value, X1, [Li(X2, addr), Sw(X2, 0, X1)]);
      FreshTrans(g, g1, r);
    }
  }

  /** A nested body, its scope entered and restored. */
  lemma {:induction false} ScopedMarks(g: Gen, body: Node)
    ensures FreshMarks(g, ScopedBody(g, body))
    decreases body, 3
  {
    var p := ProcessNode(EnterBody(g), body);
    NodeMarks(EnterBody(g), body);
    assert Added(g, ScopedBody(g, body)) == Added(EnterBody(g), p);
  }

  /**
    The shape of an if statement: two labels taken first, then the test and
    the then-branch, the else label, the else-branch, the end label.
  */
  lemma IfShape(g: Gen, g2: Gen, g5: Gen, g6: Gen, g7: Gen, r: Gen, elseL: Label, endL: Label)
    requires g2.out == g.out && g2.labelCounter == g.labelCounter + 2
    requires elseL.n == g.labelCounter && endL.n == g.labelCounter + 1
    requires FreshMarks(g2, g5) && FreshMarks(g6, g7)
    requires g6.out == g5.out + [Jal(X0, endL), Mark(elseL)] && g6.labelCounter == g5.labelCounter
    requires r.out == g7.out + [Mark(endL), Comment] && r.labelCounter == g7.labelCounter
    ensures FreshMarks(g, r)
  {
    var c := g.labelCounter;
    Place(g5, g6, [Jal(X0, endL), Mark(elseL)], {c});
    BetweenTrans(g2, g5, g6, {}, {c});
    BetweenTrans(g2, g6, g7, {} + {c}, {});
    Place(g7, r, [Mark(endL), Comment], {c + 1});
    BetweenTrans(g2, g7, r, {} + {c} + {}, {c + 1});
    Taken(g, g2, r, {} + {c} + {} + {c + 1});
  }

  lemma {:induction false} IfMarks(g: Gen, n: Node)
    requires n.If?
    ensures FreshMarks(g, ProcessIf(g, n))
    decreases n, 0
  {
    var (g1, elseL) := NewLabel(g, "else");
    var (g2, endL) := NewLabel(g1, "endif");
    var g3 := Eval(Emit(g2, [Comment]), n.cond, X1);
    var g4 := Emit(g3, [Beq(X1, X0, elseL)]);
    var g5 := ScopedBody(g4, n.thenBranch);
    var g6 := Emit(g5, [Jal(X0, endL), Mark(elseL)]);
    var g7 := if n.elseBranch.Some? then ScopedBody(g6, n.elseBranch.value) else g6;
    var r := Emit(g7, [Mark(endL), Comment]);
    assert ProcessIf(g, n) == r;
    Sandwich(g2, [Comment], n.cond, X1, [Beq(X1, X0, elseL)]);
    ScopedMarks(g4, n.thenBranch);
    FreshTrans(g2, g4, g5);
    if n.elseBranch.Some? {
      ScopedMarks(g6, n.elseBranch.value);
    } else {
      FreshSame(g6, g7);
    }
    IfShape(g, g2, g5, g6, g7, r, elseL, endL);
  }

  /** The shape of a while loop: two labels taken, the loop label, test and body, the end label. */
  lemma WhileShape(g: Gen, g2: Gen, g1: Gen, g5: Gen, r: Gen, loopL: Label, endL: Label)
    requires g2.out == g.out && g2.labelCounter == g.labelCounter + 2
    requires loopL.n == g.labelCounter && endL.n == g.labelCounter + 1
    requires g1.out == g2.out + [Comment, Mark(loopL)] && g1.labelCounter == g2.labelCounter
    requires FreshMarks(g1, g5)
    requires r.out == g5.out + [Jal(X0, loopL), Mark(endL), Comment] && r.labelCounter == g5.labelCounter
    ensures FreshMarks(g, r)
  {
    var c := g.labelCounter;
    Place(g2, g1, [Comment, Mark(loopL)], {c});
    BetweenTrans(g2, g1, g5, {c}, {});
    Place(g5, r, [Jal(X0, loopL), Mark(endL), Comment], {c + 1});
    BetweenTrans(g2, g5, r, {c} + {}, {c + 1});
    Taken(g, g2, r, {c} + {} + {c + 1});
  }

  lemma {:induction false} WhileMarks(g: Gen, n: Node)
    requires n.While?
    ensures FreshMarks(g, ProcessWhile(g, n))
    decreases n, 0
  {
    var (g1, loopL) := NewLabel(g, "while");
    var (g2, endL) := NewLabel(g1, "endwhile");
    var h := Emit(g2, [Comment, Mark(loopL)]);
    var g3 := Eval(h, n.cond, X1);
    var g4 := Emit(g3, [Beq(X1, X0, endL)]);
    var g5 := ScopedBody(g4, n.body);
    var r := Emit(g5, [Jal(X0, loopL), Mark(endL), Comment]);
    assert ProcessWhile(g, n) == r;
    EvalMarks(h, n.cond, X1);
    FreshPlain(g3, g4, [Beq(X1, X0, endL)]);
    FreshTrans(h, g3, g4);
    ScopedMarks(g4, n.body);
    FreshTrans(h, g4, g5);
    WhileShape(g, g2, h, g5, r, loopL, endL);
  }

  /** The counted loop's set-up: its three expressions, then the jump to the test and the body label. */
  lemma HeaderMarks(g: Gen, n: Node, addr: int, loopL: Label, bodyL: Label)
    requires n.Round? && bodyL.n < g.labelCounter
    ensures Between(g, RoundHeader(g, n, addr, loopL, bodyL), {bodyL.n})
  {
    var g1 := Eval(Emit(g, [Comment]), n.start, X1);
    var g2 := Emit(g1, [Alu(ADD, X20, X1, X0), Li(X2, addr), Sw(X2, 0, X20)]);
    var g3 := Emit(Eval(g2, n.end, X1), [Alu(ADD, X21, X1, X0)]);
    var g4 :=
      if n.step.Some? then Emit(Eval(g3, n.step.value, X1), [Alu(ADD, X22, X1, X0)])
      else Emit(g3, [Addi(X22, X0, 1)]);
    var r := Emit(g4, [Jal(X0, loopL), Mark(bodyL), Li(X2, addr), Sw(X2, 0, X20)]);
    Sandwich(g, [Comment], n.start, X1, [Alu(ADD, X20, X1, X0), Li(X2, addr), Sw(X2, 0, X20)]);
    EvalThen(g2, n.end, X1, [Alu(ADD, X21, X1, X0)]);
    FreshTrans(g, g2, g3);
    if n.step.Some? {
      EvalThen(g3, n.step.value, X1, [Alu(ADD, X22, X1, X0)]);
    } else {
      FreshPlain(g3, g4, [Addi(X22, X0, 1)]);
    }
    FreshTrans(g, g3, g4);
    LastPlaced(g, g4, r, [Jal(X0, loopL), Mark(bodyL), Li(X2, addr), Sw(X2, 0, X20)], bodyL.n);
  }

  /** A stretch that takes fresh numbers, then fixed lines placing one label taken earlier. */
  lemma LastPlaced(g: Gen, m: Gen, r: Gen, lines: seq<Instr>, k: nat)
    requires FreshMarks(g, m) && k < g.labelCounter
    requires r.out == m.out + lines && r.labelCounter == m.labelCounter && MarksAmong(lines, {k})
    ensures Between(g, r, {k})
  {
    Place(m, r, lines, {k});
    BetweenTrans(g, m, r, {}, {k});
    assert {} + {k} == {k};
  }

  /** An expression followed by fixed lines without labels. */
  lemma EvalThen(g: Gen, e: Node, t: Reg, post: seq<Instr>)
    requires Unlabelled(post)
    ensures FreshMarks(g, Emit(Eval(g, e, t), post))
  {
    EvalMarks(g, e, t);
    FreshPlain(Eval(g, e, t), Emit(Eval(g, e, t), post), post);
    FreshTrans(g, Eval(g, e, t), Emit(Eval(g, e, t), post));
  }

  /** The lines after a counted loop's body place its test label and its end label. */
  lemma RoundTailMarks(addr: int, loopL: Label, bodyL: Label, endL: Label)
    requires loopL != endL
    ensures MarksAmong(RoundTail(addr, loopL, bodyL, endL), {loopL.n, endL.n})
  {
    var tail := RoundTail(addr, loopL, bodyL, endL);
    assert forall i :: 0 <= i < |tail| && tail[i].Mark? ==> i == 4 || i == 8;
  }

  /** The shape of a counted loop: three labels taken, the set-up placing the body label, the body, the tail. */
  lemma RoundShape(g: Gen, g4: Gen, g5: Gen, g6: Gen, r: Gen, tail: seq<Instr>)
    requires g4.out == g.out && g4.labelCounter == g.labelCounter + 3
    requires Between(g4, g5, {g.labelCounter + 2}) && FreshMarks(g5, g6)
    requires r.out == g6.out + tail && r.labelCounter == g6.labelCounter
    requires MarksAmong(tail, {g.labelCounter, g.labelCounter + 1})
    ensures FreshMarks(g, r)
  {
    var c := g.labelCounter;
    BetweenTrans(g4, g5, g6, {c + 2}, {});
    Place(g6, r, tail, {c, c + 1});
    BetweenTrans(g4, g6, r, {c + 2} + {}, {c, c + 1});
    Taken(g, g4, r, {c + 2} + {} + {c, c + 1});
  }

  lemma {:induction false} RoundMarks(g: Gen, n: Node)
    requires n.Round?
    ensures FreshMarks(g, ProcessRound(g, n))
    decreases n, 0
  {
    var (g1, addr) := GetVariableAddress(g, n.variable);
    var (g2, loopL) := NewLabel(g1, "round");
    var (g3, endL) := NewLabel(g2, "endround");
    var (g4, bodyL) := NewLabel(g3, "body");
    var g5 := RoundHeader(g4, n, addr, loopL, bodyL);
    var g6 := ScopedBody(g5, n.body);
    var tail := RoundTail(addr, loopL, bodyL, endL);
    HeaderMarks(g4, n, addr, loopL, bodyL);
    ScopedMarks(g5, n.body);
    RoundTailMarks(addr, loopL, bodyL, endL);
    RoundShape(g, g4, g5, g6, RoundClose(g6, addr, loopL, bodyL, endL), tail);
  }

  /** Labels taken from the counter, then fixed lines placing some of them. */
  lemma TakenPlaced(g: Gen, g2: Gen, r: Gen, lines: seq<Instr>, P: set<nat>)
    requires g2.out == g.out && g.labelCounter <= g2.labelCounter
    requires r.out == g2.out + lines && r.labelCounter == g2.labelCounter
    requires MarksAmong(lines, P) && forall k :: k in P ==> g.labelCounter <= k < g2.labelCounter
    ensures FreshMarks(g, r)
  {
    Place(g2, r, lines, P);
    Taken(g, g2, r, P);
  }

  /** The print loops: a string takes four numbers and places the last two, a number takes two and places both. */
  lemma PrintValueMarks(g: Gen, e: Node)
    ensures FreshMarks(g, PrintValue(g, e))
  {
    var g1 := Emit(Eval(g, e, X1), [Comment]);
    var (g2, producerL) := NewLabel(g1, "producer_loop");
    var (g3, afterMinusL) := NewLabel(g2, "after_minus");
    var r := PrintValue(g, e);
    if PrintsAsString(g3, e) {
      var (g4, loopL) := NewLabel(g3, "print_loop");
      var (g5, doneL) := NewLabel(g4, "print_done");
      var code := StringLoop(loopL, doneL) + NEWLINE;
      StringLoopMarks(loopL, doneL);
      TakenPlaced(g1, g5, r, code, {loopL.n, doneL.n});
    } else {
      var code := DecimalLoop(producerL, afterMinusL) + NEWLINE;
      DecimalLoopMarks(producerL, afterMinusL);
      TakenPlaced(g1, g3, r, code, {producerL.n, afterMinusL.n});
    }
    EvalThen(g, e, X1, [Comment]);
    FreshTrans(g, g1, r);
  }

  lemma PrintMarks(g: Gen, n: Node)
    requires n.Print?
    ensures FreshMarks(g, ProcessPrint(g, n))
  {
    var r := ProcessPrint(g, n);
    if n.expr.Ident? {
      var (g1, addr) := GetVariableAddress(g, n.expr.ident);
      FreshSame(g, g1);
      if addr == -1 {
        FreshPlain(g1, r, [Comment]);
      } else {
        PrintValueMarks(g1, n.expr);
      }
      FreshTrans(g, g1, r);
    } else {
      PrintValueMarks(g, n.expr);
    }
  }

  lemma {:induction false} ProgramMarks(g: Gen, n: Node)
    requires n.Program?
    ensures FreshMarks(g, ProcessNode(g, n))
    decreases n, 1
  {
    var g0 := g.(scopeGlobal := true, blockLevel := 0);
    FreshSame(g, g0);
    NodesMarks(g0, n.children);
    FreshTrans(g, g0, ProcessNodes(g0, n.children));
  }

  lemma {:induction false} BlockMarks(g: Gen, n: Node)
    requires n.Block?
    ensures FreshMarks(g, ProcessNode(g, n))
    decreases n, 1
  {
    var g0 := g.(blockLevel := g.blockLevel + 1, scopeGlobal := false);
    var inner := ProcessNodes(g0, n.children);
    NodesMarks(g0, n.children);
    assert Added(g, ProcessNode(g, n)) == Added(g0, inner);
  }

  // process_node hands each statement kind to its own lowering.

  lemma DispatchDeclaration(g: Gen, n: Node)
    requires n.VarDecl?
    ensures ProcessNode(g, n) == ProcessVariableDeclaration(g, n)
  {
  }

  lemma DispatchAssignment(g: Gen, n: Node)
    requires n.Assign?
    ensures ProcessNode(g, n) == ProcessAssignment(g, n)
  {
  }

  lemma DispatchIf(g: Gen, n: Node)
    requires n.If?
    ensures ProcessNode(g, n) == ProcessIf(g, n)
  {
  }

  lemma DispatchWhile(g: Gen, n: Node)
    requires n.While?
    ensures ProcessNode(g, n) == ProcessWhile(g, n)
  {
  }

  lemma DispatchRound(g: Gen, n: Node)
    requires n.Round?
    ensures ProcessNode(g, n) == ProcessRound(g, n)
  {
  }

  lemma DispatchPrint(g: Gen, n: Node)
    requires n.Print?
    ensures ProcessNode(g, n) == ProcessPrint(g, n)
  {
  }

  /**
    Every label line a statement emits names a number the counter gave out
    while lowering it, and no label is placed twice.
  */
  lemma {:induction false} NodeMarks(g: Gen, n: Node)
    ensures FreshMarks(g, ProcessNode(g, n))
    decreases n, 2
  {
    match n
    case Program(_) => ProgramMarks(g, n);
    case Block(_) => BlockMarks(g, n);
    case VarDecl(_, _, _, _) => DispatchDeclaration(g, n); DeclarationMarks(g, n);
    case Assign(_, _) => DispatchAssignment(g, n); AssignmentMarks(g, n);
    case If(_, _, _) => DispatchIf(g, n); IfMarks(g, n);
    case While(_, _) => DispatchWhile(g, n); WhileMarks(g, n);
    case Round(_, _, _, _, _) => DispatchRound(g, n); RoundMarks(g, n);
    case Print(_) => DispatchPrint(g, n); PrintMarks(g, n);
    case BinOp(_, _, _) => FreshSame(g, g);
    case IntLit(_) => FreshSame(g, g);
    case StrLit(_) => FreshSame(g, g);
    case Ident(_) => FreshSame(g, g);
  }

  lemma {:induction false} NodesMarks(g: Gen, ns: seq<Node>)
    ensures FreshMarks(g, ProcessNodes(g, ns))
    decreases ns, 0
  {
    if |ns| == 0 {
      FreshSame(g, g);
    } else {
      var g1 := ProcessNode(g, ns[0]);
      NodeMarks(g, ns[0]);
      NodesMarks(g1, ns[1..]);
      FreshTrans(g, g1, ProcessNodes(g1, ns[1..]));
    }
  }

  /**
    The generated program places no label twice, and every label it places
    is numbered below the counter's final value.
  */
  lemma GeneratedMarks(err: D.ErrState, root: Node)
    ensures var code := GenerateRiscCode(err, root).0;
      code.Some? ==> MarksAmong(code.value, Range(0, ProcessNode(Init(err), root).labelCounter))
  {
    var code := GenerateRiscCode(err, root).0;
    if code.Some? {
      var w := ProcessNode(Init(err), root);
      NodeMarks(Init(err), root);
      assert Added(Init(err), w) == w.out;
      MarksJoin(w.out, [Comment, Ebreak], {} + Range(0, w.labelCounter), {});
      MarksWiden(code.value, {} + Range(0, w.labelCounter) + {}, Range(0, w.labelCounter));
    }
  }
}
