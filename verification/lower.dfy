/**
  Expression lowering of the checked generator (evaluate_expression,
  process_concat and the operator selection inside evaluate_expression,
  compiler/risc_generator.c). `Eval(g, e, t)` appends the code that leaves
  the value of `e` in register `t`, and threads the generator state.
*/
module Lower {
  import opened Wrappers
  import opened Isa
  import opened Ast
  import opened GenState
  import D = Diagnostics

  /**
    The register-pair convention: the operands of an operation whose target
    is x1 go to x3/x4, those of any other target to x1/x2. The left scratch
    register never aliases the target; the right one does exactly when the
    target is x2.
  */
  function ScratchPair(t: Reg): (p: (Reg, Reg))
    ensures p.0 != t && p.0 != p.1 && p.0 != X0 && p.1 != X0
    ensures p.1 == t <==> t == X2
    ensures t == X1 ==> p == (X3, X4)
    ensures t != X1 ==> p == (X1, X2)
  {
    if t == X1 then (X3, X4) else (X1, X2)
  }

  /** The static type the generator attributes to an operand: a literal's tag or the first record's type. */
  function OperandType(g: Gen, n: Node): (r: Option<string>)
    ensures n.IsLiteral() ==> r == Some(n.LiteralType())
    ensures n.Ident? ==> r == TypeOfVar(g, n.ident)
    ensures !n.IsLiteral() && !n.Ident? ==> r.None?
  {
    if n.IsLiteral() then Some(n.LiteralType())
    else if n.Ident? then TypeOfVar(g, n.ident)
    else None
  }

  predicate IsDivOp(op: string) {
    op == "/" || op == "%"
  }

  /** The late check of "%" on an operand typed string. */
  predicate ModuloOnString(op: string, lt: Option<string>, rt: Option<string>) {
    op == "%" && (lt == Some("string") || rt == Some("string"))
  }

  /** The compatibility check runs only when both operand types are known. */
  function TypeCheck(g: Gen, lt: Option<string>, rt: Option<string>, op: string): (r: Gen)
    ensures lt.None? || rt.None? ==> r == g
    ensures lt.Some? && rt.Some? ==> r == g.(err := D.CheckTypeCompatibility(g.err, lt.value, rt.value, op).0)
    ensures Extends(g, r) && (Wf(g) ==> Wf(r))
  {
    if lt.Some? && rt.Some? then g.(err := D.CheckTypeCompatibility(g.err, lt.value, rt.value, op).0)
    else g
  }

  /**
    The lines emitted for operator `op` once both operands sit in `lr`/`rr`
    and the state is not critical. `n` is the label counter, used by the
    zero guards of "/" and "%".
  */
  function OpLines(op: string, t: Reg, lr: Reg, rr: Reg, l: Node, r: Node, n: nat): seq<Instr> {
    if op == "+" then [Alu(ADD, t, lr, rr)]
    else if op == "-" then [Alu(SUB, t, lr, rr)]
    else if op == "*" then [Alu(MUL, t, lr, rr)]
    else if op == "/" then
      [ Comment,
        Beq(rr, X0, Label("division_by_zero", n)),
        Alu(DIV, t, lr, rr),
        Jal(X0, Label("after_division", n)),
        Mark(Label("division_by_zero", n)),
        Li(t, 0),
        Mark(Label("after_division", n)) ]
    else if op == "%" then
      [ Comment,
        Beq(rr, X0, Label("modulo_by_zero", n)),
        Comment,
        Alu(REM, t, lr, rr),
        Jal(X0, Label("after_modulo", n)),
        Mark(Label("modulo_by_zero", n)),
        Li(t, 0),
        Mark(Label("after_modulo", n)) ]
    else if op == "<" then [Alu(SLT, t, lr, rr)]
    else if op == ">" then [Alu(SLT, t, rr, lr)]
    else if op == "=" || op == "==" then [Comment, Alu(SEQ, t, lr, rr)]
    else if op == "!=" then [Comment, Alu(SNE, t, lr, rr)]
    else if op == "<=" then [Comment, Alu(SLT, X5, rr, lr), Xori(t, X5, 1)]
    else if op == ">=" then [Comment, Alu(SGE, t, lr, rr)]
    else if op == "and" then
      if l.IsIntZero() || r.IsIntZero() then [Comment, Li(t, 0)]
      else [Comment, Alu(SNE, X5, lr, X0), Alu(SNE, X6, rr, X0), Alu(AND, t, X5, X6)]
    else if op == "or" then
      if l.IsIntNonzero() || r.IsIntNonzero() then [Comment, Li(t, 1)]
      else [Comment, Alu(SNE, X5, lr, X0), Alu(SNE, X6, rr, X0), Alu(OR, t, X5, X6)]
    else [Comment]
  }

  /** What every expression step keeps: it extends the state and leaves scope, depth and variables alone. */
  ghost predicate ExprStep(g: Gen, r: Gen) {
    && Extends(g, r)
    && (Wf(g) ==> Wf(r))
    && r.vars == g.vars
    && r.scopeGlobal == g.scopeGlobal
    && r.blockLevel == g.blockLevel
  }

  lemma ExprStepTrans(a: Gen, b: Gen, c: Gen)
    requires ExprStep(a, b) && ExprStep(b, c)
    ensures ExprStep(a, c)
  {
  }

  /** evaluate_expression. */
  function Eval(g: Gen, e: Node, t: Reg): (r: Gen)
    ensures ExprStep(g, r)
    decreases e, 3
  {
    match e
    case BinOp(op, l, rt) =>
      if op == "." then EvalConcat(g, e, t) else LowerBinary(g, e, t)
    case IntLit(v) => Emit(g, [Li(t, v)])
    case StrLit(s) =>
      var (g1, a) := AddStringLiteral(g, s);
      Emit(g1, [Li(t, a)])
    case Ident(x) => LoadVariable(g, x, t)
    case _ => Emit(g, [Comment])
  }

  /** An identifier: its word loaded through x2/x31 into `t`, or 0 when it has no address. */
  function LoadVariable(g: Gen, x: string, t: Reg): (r: Gen)
    ensures ExprStep(g, r)
  {
    var (g1, a) := GetVariableAddress(g, x);
    if a != -1 then Emit(g1, [Li(X2, a), Lw(X31, X2, 0), Alu(ADD, t, X31, X0)])
    else Emit(g1, [Li(t, 0)])
  }

  /**
    A "." node: the left operand into x5 (a nested concatenation is built
    in x10 and copied over), the right into x6, then process_concat.
  */
  function EvalConcat(g: Gen, e: Node, t: Reg): (r: Gen)
    requires e.BinOp?
    ensures ExprStep(g, r)
    decreases e, 2
  {
    var g1 := if e.left.IsConcat() then Emit(Eval(g, e.left, X10), [Addi(X5, X10, 0)]) else Eval(g, e.left, X5);
    var g2 := Eval(g1, e.right, X6);
    ProcessConcat(g2, e, t)
  }

  /** process_concat: both operands are lowered (again) into x5/x6, then copied into a fresh buffer. */
  function ProcessConcat(g: Gen, e: Node, t: Reg): (r: Gen)
    requires e.BinOp?
    ensures ExprStep(g, r)
    decreases e, 1
  {
    var g1 := Eval(g, e.left, X5);
    var g2 := Eval(g1, e.right, X6);
    var (g3, a) := ConcatenateStrings(g2, X5, X6);
    Emit(g3, [Li(t, a)])
  }

  /** Both operands of a non-concatenation operator, lowered into the scratch pair of `t`. */
  function LowerOperands(g: Gen, e: Node, t: Reg): (r: Gen)
    requires e.BinOp?
    ensures ExprStep(g, r)
    decreases e, 0
  {
    var (lr, rr) := ScratchPair(t);
    Eval(Eval(g, e.left, lr), e.right, rr)
  }

  /**
    A non-concatenation operator: type check when both operand types are
    known; a literal int 0 divisor of "/" or "%" is reported and replaced by
    `li t, 0` with nothing else emitted; otherwise both operands are lowered
    and, unless the state is critical, the operator's lines are emitted.
  */
  function LowerBinary(g: Gen, e: Node, t: Reg): (r: Gen)
    requires e.BinOp? && !e.IsConcat()
    ensures ExprStep(g, r)
    decreases e, 1
  {
    var lt := OperandType(g, e.left);
    var rt := OperandType(g, e.right);
    var g1 := TypeCheck(g, lt, rt, e.op);
    if IsDivOp(e.op) && e.right.IsIntZero() then
      Emit(ReportErr(g1, D.DivisionByZero), [Li(t, 0)])
    else
      LowerOperator(LowerOperands(g1, e, t), e, t, lt, rt)
  }

  /**
    After both operands: nothing more once the state is critical, the late
    "%"-on-string check, or the operator's lines ("/" and "%" take a label).
  */
  function LowerOperator(g: Gen, e: Node, t: Reg, lt: Option<string>, rt: Option<string>): (r: Gen)
    requires e.BinOp?
    ensures ExprStep(g, r)
  {
    if D.IsCritical(g.err) then g
    else if ModuloOnString(e.op, lt, rt) then
      Emit(g.(err := D.SetCritical(D.Report(g.err, D.TypeMismatch))), [Comment])
    else
      var (lr, rr) := ScratchPair(t);
      var g1 := Emit(g, OpLines(e.op, t, lr, rr, e.left, e.right, g.labelCounter));
      if IsDivOp(e.op) then g1.(labelCounter := g1.labelCounter + 1) else g1
  }
}
