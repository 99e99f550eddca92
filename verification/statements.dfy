/**
  Statement lowering and the driver of the checked generator
  (process_node, process_variable_declaration, process_assignment,
  process_if_statement, process_while_loop, process_round_loop,
  process_print and generate_risc_code in compiler/risc_generator.c).
*/
module Statements {
  import opened Wrappers
  import opened Isa
  import opened Ast
  import opened GenState
  import opened Lower
  import D = Diagnostics

  /** What every statement step keeps: the state only extends and stays well formed. */
  ghost predicate Step(g: Gen, r: Gen) {
    Extends(g, r) && (Wf(g) ==> Wf(r))
  }

  lemma StepTrans(a: Gen, b: Gen, c: Gen)
    requires Step(a, b) && Step(b, c)
    ensures Step(a, c)
  {
  }

  /** Scope flag and block depth agree. */
  predicate SameScope(g: Gen, r: Gen) {
    r.scopeGlobal == g.scopeGlobal && r.blockLevel == g.blockLevel
  }

  /** Entering a nested body: one level deeper, local scope. */
  function EnterBody(g: Gen): (r: Gen)
    ensures Step(g, r)
    ensures r.blockLevel == g.blockLevel + 1 && !r.scopeGlobal
  {
    g.(blockLevel := g.blockLevel + 1, scopeGlobal := false)
  }

  /** Leaving a nested body: scope flag and depth put back to the saved ones. */
  function Restore(g: Gen, saved: Gen): (r: Gen)
    ensures Step(g, r) && SameScope(saved, r)
  {
    g.(scopeGlobal := saved.scopeGlobal, blockLevel := saved.blockLevel)
  }

  /** Lowers `body` as a nested scope and restores the scope afterwards (the if/while/round pattern). */
  function ScopedBody(g: Gen, body: Node): (r: Gen)
    ensures Step(g, r) && SameScope(g, r)
    decreases body, 2
  {
    Restore(ProcessNode(EnterBody(g), body), g)
  }

  /** process_node. */
  function ProcessNode(g: Gen, n: Node): (r: Gen)
    ensures Step(g, r)
    ensures n.If? || n.While? || n.Round? ==> SameScope(g, r)
    ensures NoProgram(n) ==> SameScope(g, r)
    decreases n, 1
  {
    match n
    case Program(cs) => ProcessNodes(g.(scopeGlobal := true, blockLevel := 0), cs)
    case VarDecl(_, _, _, _) => ProcessVariableDeclaration(g, n)
    case Assign(_, _) => ProcessAssignment(g, n)
    case BinOp(_, _, _) => g
    case IntLit(_) => g
    case StrLit(_) => g
    case Ident(_) => g
    case If(_, _, _) => ProcessIf(g, n)
    case While(_, _) => ProcessWhile(g, n)
    case Round(_, _, _, _, _) => ProcessRound(g, n)
    case Block(cs) =>
      var inner := ProcessNodes(g.(blockLevel := g.blockLevel + 1, scopeGlobal := false), cs);
      inner.(scopeGlobal := g.scopeGlobal, blockLevel := inner.blockLevel - 1)
    case Print(_) => ProcessPrint(g, n)
  }

  /** The children of a program or block, in order. */
  function ProcessNodes(g: Gen, ns: seq<Node>): (r: Gen)
    ensures Step(g, r)
    ensures NoProgramAll(ns) ==> SameScope(g, r)
    decreases ns, 0
  {
    if |ns| == 0 then g else ProcessNodes(ProcessNode(g, ns[0]), ns[1..])
  }

  // ----- declarations -----

  /**
    The initializer check of a declaration: a literal is checked against the
    declared type, an identifier's first record likewise (an unknown name is
    reported as undefined); anything else passes. The flag says whether to
    go on to emit code.
  */
  function InitializerCheck(g: Gen, ty: string, e: Node): (r: (Gen, bool))
    ensures Step(g, r.0)
    ensures r.0 == g.(err := r.0.err)
    ensures !e.IsLiteral() && !e.Ident? ==> r == (g, true)
    ensures r.1 ==> r.0 == g
  {
    if e.IsLiteral() then
      var (err, ok) := D.CheckTypeCompatibility(g.err, ty, e.LiteralType(), "=");
      (g.(err := err), ok == 1)
    else if e.Ident? then
      match TypeOfVar(g, e.ident)
      case None => (ReportErr(g, D.UndefinedVariable), false)
      case Some(st) =>
        var (err, ok) := D.CheckTypeCompatibility(g.err, ty, st, "=");
        (g.(err := err), ok == 1)
    else (g, true)
  }

  /**
    process_variable_declaration: a global in a local scope is a scope
    error, a name already declared with the same flag is a redeclaration;
    both leave tables and output alone. Otherwise the variable is recorded
    and given a fresh address. An initialised declaration then emits code
    only if the initializer passes its check and the state is not critical;
    one without an initializer always stores zero.
  */
  function ProcessVariableDeclaration(g: Gen, n: Node): (r: Gen)
    requires n.VarDecl?
    ensures Step(g, r) && SameScope(g, r)
    ensures n.isGlobal && !g.scopeGlobal ==> r == ReportErr(g, D.ScopeViolation)
    ensures !(n.isGlobal && !g.scopeGlobal) && DeclaredWithFlag(g.vars, n.name, n.isGlobal) ==>
      r == ReportErr(g, D.Redeclaration)
    ensures !(n.isGlobal && !g.scopeGlobal) && !DeclaredWithFlag(g.vars, n.name, n.isGlobal) ==>
      && r.vars == g.vars + [VarRecord(n.name, n.varType, n.isGlobal, if n.isGlobal then 0 else g.blockLevel)]
      && g.addrs + [AddrRecord(n.name, g.memoryPos)] <= r.addrs
  {
    if n.isGlobal && !g.scopeGlobal then ReportErr(g, D.ScopeViolation)
    else if DeclaredWithFlag(g.vars, n.name, n.isGlobal) then ReportErr(g, D.Redeclaration)
    else
      var g1 := RegisterVariable(g, n.name, n.varType, n.isGlobal);
      var (g2, addr) := RegisterVariableAddress(g1, n.name);
      match n.init
      case None => Emit(g2, [Comment, Li(X1, 0), Li(X2, addr), Sw(X2, 0, X1)])
      case Some(e) =>
        var (g3, go) := InitializerCheck(g2, n.varType, e);
        if !go || D.IsCritical(g3.err) then g3
        else Emit(Eval(Emit(g3, [Comment]), e, X1), [Li(X2, addr), Sw(X2, 0, X1)])
  }

  // ----- assignment -----

  /**
    process_assignment: an unresolvable target ends the statement after its
    report; otherwise, when not critical, the value is lowered into x1 and
    stored at the target's address.
  */
  function ProcessAssignment(g: Gen, n: Node): (r: Gen)
    requires n.Assign?
    ensures Step(g, r) && SameScope(g, r) && r.vars == g.vars
  {
    var (g1, addr) := GetVariableAddress(g, n.target);
    if addr == -1 || D.IsCritical(g1.err) then g1
    else Emit(Eval(Emit(g1, [Comment]), n.value, X1), [Li(X2, addr), Sw(X2, 0, X1)])
  }

  // ----- control flow -----

  /** process_if_statement. */
  function ProcessIf(g: Gen, n: Node): (r: Gen)
    requires n.If?
    ensures Step(g, r) && SameScope(g, r)
    decreases n, 0
  {
    var (g1, elseL) := NewLabel(g, "else");
    var (g2, endL) := NewLabel(g1, "endif");
    var g3 := Eval(Emit(g2, [Comment]), n.cond, X1);
    var g4 := Emit(g3, [Beq(X1, X0, elseL)]);
    var g5 := ScopedBody(g4, n.thenBranch);
    var g6 := Emit(g5, [Jal(X0, endL), Mark(elseL)]);
    var g7 := if n.elseBranch.Some? then ScopedBody(g6, n.elseBranch.value) else g6;
    Emit(g7, [Mark(endL), Comment])
  }

  /** process_while_loop. */
  function ProcessWhile(g: Gen, n: Node): (r: Gen)
    requires n.While?
    ensures Step(g, r) && SameScope(g, r)
    decreases n, 0
  {
    var (g1, loopL) := NewLabel(g, "while");
    var (g2, endL) := NewLabel(g1, "endwhile");
    var g3 := Eval(Emit(g2, [Comment, Mark(loopL)]), n.cond, X1);
    var g4 := Emit(g3, [Beq(X1, X0, endL)]);
    var g5 := ScopedBody(g4, n.body);
    Emit(g5, [Jal(X0, loopL), Mark(endL), Comment])
  }

  /** The lines after a counted loop's body: step, store, then the `i < end` test. */
  function RoundTail(addr: int, loopL: Label, bodyL: Label, endL: Label): seq<Instr> {
    [ Comment,
      Alu(ADD, X20, X20, X22),
      Li(X2, addr),
      Sw(X2, 0, X20),
      Mark(loopL),
      Comment,
      Alu(SLT, X5, X20, X21),
      Bne(X5, X0, bodyL),
      Mark(endL),
      Comment ]
  }

  /** The counted loop's set-up: start, end and step into x20, x21, x22, then the jump to the test and the body label. */
  function RoundHeader(g: Gen, n: Node, addr: int, loopL: Label, bodyL: Label): (r: Gen)
    requires n.Round?
    ensures Step(g, r) && SameScope(g, r)
  {
    var g1 := Eval(Emit(g, [Comment]), n.start, X1);
    var g2 := Emit(g1, [Alu(ADD, X20, X1, X0), Li(X2, addr), Sw(X2, 0, X20)]);
    var g3 := Emit(Eval(g2, n.end, X1), [Alu(ADD, X21, X1, X0)]);
    var g4 :=
      if n.step.Some? then Emit(Eval(g3, n.step.value, X1), [Alu(ADD, X22, X1, X0)])
      else Emit(g3, [Addi(X22, X0, 1)]);
    Emit(g4, [Jal(X0, loopL), Mark(bodyL), Li(X2, addr), Sw(X2, 0, X20)])
  }

  /**
    process_round_loop: iterator, end and step live in x20, x21 and x22;
    the step is 1 when omitted; control jumps to the `i < end` test first.
    The loop variable's address is looked up even when that fails (-1).
  */
  function ProcessRound(g: Gen, n: Node): (r: Gen)
    requires n.Round?
    ensures Step(g, r) && SameScope(g, r)
    ensures var c := g.labelCounter;
      && |r.out| >= 10
      && r.out[|r.out| - 10..] ==
         RoundTail(GetVariableAddress(g, n.variable).1, Label("round", c), Label("body", c + 2), Label("endround", c + 1))
    decreases n, 0
  {
    var (g1, addr) := GetVariableAddress(g, n.variable);
    var (g2, loopL) := NewLabel(g1, "round");
    var (g3, endL) := NewLabel(g2, "endround");
    var (g4, bodyL) := NewLabel(g3, "body");
    var g5 := RoundHeader(g4, n, addr, loopL, bodyL);
    var g6 := ScopedBody(g5, n.body);
    assert loopL == Label("round", g.labelCounter) && endL == Label("endround", g.labelCounter + 1)
      && bodyL == Label("body", g.labelCounter + 2);
    RoundClose(g6, addr, loopL, bodyL, endL)
  }

  /** Closes a counted loop: the increment and the `i < end` test become the last lines. */
  function RoundClose(g: Gen, addr: int, loopL: Label, bodyL: Label, endL: Label): (r: Gen)
    ensures r == Emit(g, RoundTail(addr, loopL, bodyL, endL))
    ensures |r.out| >= 10 && r.out[|r.out| - 10..] == RoundTail(addr, loopL, bodyL, endL)
  {
    var tail := RoundTail(addr, loopL, bodyL, endL);
    assert (g.out + tail)[|g.out + tail| - 10..] == tail;
    Emit(g, tail)
  }

  // ----- print -----

  /** Byte-read loop for a string: load, stop at NUL, write, advance. */
  function StringLoop(loopL: Label, doneL: Label): seq<Instr> {
    [ Mark(loopL),
      Lw(X2, X1, 0),
      Beq(X2, X0, doneL),
      Ewrite(X2),
      Addi(X1, X1, 1),
      Jal(X0, loopL),
      Mark(doneL) ]
  }

  /** Decimal conversion: sign test, digits into a backward buffer by /10 and %10, optional '-', then the digits. */
  function DecimalLoop(producerL: Label, afterMinusL: Label): seq<Instr> {
    [ Addi(X10, X0, 10),
      Addi(X11, X0, 1023),
      Addi(X12, X1, 0),
      Addi(X13, X0, 0),
      Addi(X14, X11, 0),
      Bge(X12, X0, producerL),
      Addi(X13, X0, 1),
      Alu(SUB, X12, X0, X12),
      Mark(producerL),
      Alu(DIV, X15, X12, X10),
      Alu(REM, X16, X12, X10),
      Addi(X31, X16, 48),
      Sw(X14, 0, X31),
      Addi(X14, X14, -1),
      Addi(X12, X15, 0),
      Bne(X12, X0, producerL),
      Beq(X13, X0, afterMinusL),
      Addi(X31, X0, 45),
      Ewrite(X31),
      Mark(afterMinusL),
      Addi(X14, X14, 1),
      Lw(X31, X14, 0),
      Ewrite(X31),
      Bne(X14, X11, afterMinusL) ]
  }

  const NEWLINE: seq<Instr> := [Li(X2, 10), Ewrite(X2)]

  /** A print whose expression has static type string: a literal, or a name whose first record is a string. */
  predicate PrintsAsString(g: Gen, e: Node) {
    e.StrLit? || (e.Ident? && IsStringVariable(g, e.ident))
  }

  /** The part of process_print after the identifier check. */
  function PrintValue(g: Gen, e: Node): (r: Gen)
    ensures Step(g, r) && SameScope(g, r)
  {
    var g1 := Emit(Eval(g, e, X1), [Comment]);
    var (g2, producerL) := NewLabel(g1, "producer_loop");
    var (g3, afterMinusL) := NewLabel(g2, "after_minus");
    if PrintsAsString(g3, e) then
      var (g4, loopL) := NewLabel(g3, "print_loop");
      var (g5, doneL) := NewLabel(g4, "print_done");
      Emit(g5, StringLoop(loopL, doneL) + NEWLINE)
    else
      Emit(g3, DecimalLoop(producerL, afterMinusL) + NEWLINE)
  }

  /** process_print: an identifier that does not resolve ends the statement with a comment line. */
  function ProcessPrint(g: Gen, n: Node): (r: Gen)
    requires n.Print?
    ensures Step(g, r) && SameScope(g, r)
  {
    if n.expr.Ident? then
      var (g1, addr) := GetVariableAddress(g, n.expr.ident);
      if addr == -1 then Emit(g1, [Comment]) else PrintValue(g1, n.expr)
    else PrintValue(g, n.expr)
  }

  // ----- driver -----

  /**
    generate_risc_code: nothing when the diagnostics state is critical before
    the walk or after it; otherwise every emitted line followed by the exit
    comment and `ebreak`. The diagnostics state after the call is returned too.
  */
  function GenerateRiscCode(err: D.ErrState, root: Node): (r: (Option<seq<Instr>>, D.ErrState))
    ensures D.IsCritical(err) ==> r == (None, err)
    ensures r.0.None? <==> D.IsCritical(r.1)
    ensures r.0.Some? ==> r.1.log == err.log && r.1.count == 0
    ensures r.0.Some? ==>
      && |r.0.value| >= 2
      && r.0.value[|r.0.value| - 1] == Ebreak
      && r.0.value == ProcessNode(Init(err), root).out + [Comment, Ebreak]
  {
    if D.IsCritical(err) then (None, err)
    else
      var g := ProcessNode(Init(err), root);
      if D.IsCritical(g.err) then (None, g.err)
      else (Some(g.out + [Comment, Ebreak]), g.err)
  }

  /** The driver's text: the lines joined with a newline after each. */
  function GenerateText(err: D.ErrState, root: Node): (r: Option<string>)
    ensures r.Some? <==> GenerateRiscCode(err, root).0.Some?
  {
    match GenerateRiscCode(err, root).0
    case None => None
    case Some(lines) => Some(Render(lines))
  }
}
