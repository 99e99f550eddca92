/**
  The earlier generator (risc_generator.c). It has no diagnostics and no
  scopes: every name resolves, addresses are handed out from 1000 in steps
  of 4 on first use, operands always go to x1/x2, and the driver always
  produces code. Its state is threaded through pure functions the same way
  as the checked generator's, but it is a separate model with its own
  state record.
*/
module Legacy {
  import opened Isa
  import opened Ast
  import opened Wrappers
  import GS = GenState
  import CT = CText
  import S = Statements

  /** Where `init_generator` starts the address cursor. */
  const MEMORY_BASE := 1000

  /** Every new name moves the cursor by one 4-byte word. */
  const ADDRESS_STEP := 4

  /** A variable record: name and declared type (the constant flag is always 0 and not kept). */
  datatype LVar = LVar(name: string, ty: string)

  /**
    The generator record. `data` is the string data section, which the
    driver never writes out; `init_generator` does not set its size, and the
    model starts it empty.
  */
  datatype LGen = LGen(
    out: seq<Instr>,
    vars: seq<LVar>,
    addrs: seq<GS.AddrRecord>,
    labelCounter: nat,
    memoryPos: int,
    data: seq<string>)

  /** init_generator. */
  function Init(): (g: LGen)
    ensures g.memoryPos == MEMORY_BASE && g.labelCounter == 0
    ensures g.out == [] && g.vars == [] && g.addrs == [] && g.data == []
    ensures Wf(g)
  {
    LGen([], [], [], 0, MEMORY_BASE, [])
  }

  /**
    The address table is laid out by the cursor: entry `i` holds address
    1000 + 4*i, the cursor sits just past the last entry, and no name is
    recorded twice.
  */
  ghost predicate Wf(g: LGen) {
    Layout(g.addrs, g.memoryPos)
  }

  ghost predicate Layout(addrs: seq<GS.AddrRecord>, memoryPos: int) {
    && memoryPos == MEMORY_BASE + ADDRESS_STEP * |addrs|
    && (forall i :: 0 <= i < |addrs| ==> addrs[i].address == MEMORY_BASE + ADDRESS_STEP * i)
    && (forall i, j :: 0 <= i < j < |addrs| ==> addrs[i].name != addrs[j].name)
  }

  /** `r` is a later state of the same walk: everything only grows and the layout stays consistent. */
  ghost predicate Grows(g: LGen, r: LGen) {
    && g.out <= r.out
    && g.vars <= r.vars
    && g.addrs <= r.addrs
    && g.data <= r.data
    && g.labelCounter <= r.labelCounter
    && g.memoryPos <= r.memoryPos
    && (Wf(g) ==> Wf(r))
  }

  lemma GrowsTrans(a: LGen, b: LGen, c: LGen)
    requires Grows(a, b) && Grows(b, c)
    ensures Grows(a, c)
  {
  }

  /** add_output, for a run of lines. */
  function Emit(g: LGen, lines: seq<Instr>): (r: LGen)
    ensures r.out == g.out + lines
    ensures r == g.(out := r.out)
    ensures Grows(g, r)
  {
    g.(out := g.out + lines)
  }

  /**
    get_variable_address: the recorded address of a known name, with the
    state unchanged; otherwise the name is recorded at the cursor, which
    moves on by 4. It never fails.
  */
  function GetVariableAddress(g: LGen, name: string): (r: (LGen, int))
    ensures GS.FindAddr(g.addrs, name).Some? ==>
      r == (g, g.addrs[GS.FindAddr(g.addrs, name).value].address)
    ensures GS.FindAddr(g.addrs, name).None? ==>
      && r.1 == g.memoryPos
      && r.0 == g.(addrs := g.addrs + [GS.AddrRecord(name, g.memoryPos)], memoryPos := g.memoryPos + ADDRESS_STEP)
    ensures GS.FindAddr(r.0.addrs, name).Some?
    ensures r.0.addrs[GS.FindAddr(r.0.addrs, name).value].address == r.1
    ensures Wf(g) ==> MEMORY_BASE <= r.1 < r.0.memoryPos && (r.1 - MEMORY_BASE) % ADDRESS_STEP == 0
    ensures r.0 == g.(addrs := r.0.addrs, memoryPos := r.0.memoryPos)
    ensures Grows(g, r.0)
  {
    match GS.FindAddr(g.addrs, name)
    case Some(j) =>
      LayoutEntry(g.addrs, g.memoryPos, j);
      (g, g.addrs[j].address)
    case None =>
      var r := g.(addrs := g.addrs + [GS.AddrRecord(name, g.memoryPos)], memoryPos := g.memoryPos + ADDRESS_STEP);
      LayoutAppend(g.addrs, name, g.memoryPos);
      (r, g.memoryPos)
  }

  /** Entry `j` of a consistent layout lies below the cursor, on the 4-byte grid from 1000. */
  lemma LayoutEntry(addrs: seq<GS.AddrRecord>, m: int, j: nat)
    requires j < |addrs|
    ensures Layout(addrs, m) ==>
      MEMORY_BASE <= addrs[j].address < m && (addrs[j].address - MEMORY_BASE) % ADDRESS_STEP == 0
  {
  }

  /** A name not yet recorded, placed at the cursor, keeps the layout consistent and is found there. */
  lemma LayoutAppend(addrs: seq<GS.AddrRecord>, name: string, m: int)
    requires GS.FindAddr(addrs, name).None?
    ensures var a := addrs + [GS.AddrRecord(name, m)];
      && GS.FindAddr(a, name) == Some(|addrs|)
      && (Layout(addrs, m) ==> Layout(a, m + ADDRESS_STEP))
  {
    var a := addrs + [GS.AddrRecord(name, m)];
    assert a[|addrs|].name == name;
    assert forall j :: 0 <= j < |addrs| ==> a[j] == addrs[j];
  }

  /** register_variable: appends the record (no redeclaration check) and makes sure the name has an address. */
  function RegisterVariable(g: LGen, name: string, ty: string): (r: LGen)
    ensures r.vars == g.vars + [LVar(name, ty)]
    ensures r == GetVariableAddress(g.(vars := r.vars), name).0
    ensures Grows(g, r)
  {
    GetVariableAddress(g.(vars := g.vars + [LVar(name, ty)]), name).0
  }

  /** get_new_label: `__<prefix>_<counter>`, then the counter moves on. */
  function NewLabel(g: LGen, prefix: string): (r: (LGen, Label))
    ensures r.1 == Label(prefix, g.labelCounter)
    ensures r.0 == g.(labelCounter := g.labelCounter + 1)
    ensures Grows(g, r.0)
  {
    (g.(labelCounter := g.labelCounter + 1), Label(prefix, g.labelCounter))
  }

  // ----- string data -----

  /** The bytes of a text, each written as an `unsigned char` in decimal and followed by a space. */
  function ByteFields(bs: seq<CT.Byte>): string {
    if |bs| == 0 then "" else ByteFields(bs[..|bs| - 1]) + NatText(bs[|bs| - 1]) + " "
  }

  /** The data line recorded for string number `k`: `__str_k: data b0 b1 ... 0`, one field per byte of `strlen`. */
  function DataLine(k: nat, s: string): string {
    LabelText(Label("str", k)) + ": data " + ByteFields(CT.CStr(CT.Utf8(s))) + "0"
  }

  /** add_string_literal: records the data line and returns the index it was recorded at. */
  function AddStringLiteral(g: LGen, s: string): (r: (LGen, nat))
    ensures r.1 == |g.data|
    ensures r.0.data == g.data + [DataLine(r.1, s)] && r.0.data[r.1] == DataLine(r.1, s)
    ensures r.0 == g.(data := r.0.data)
    ensures Grows(g, r.0)
  {
    (g.(data := g.data + [DataLine(|g.data|, s)]), |g.data|)
  }

  // ----- expressions -----

  /** The operators with a lowering; every other operator gets only a warning comment. */
  predicate KnownOp(op: string) {
    op in {"+", "-", "*", "/", "<", ">", "=", "=="}
  }

  /** The lines of operator `op` once the operands sit in x1 and x2. */
  function OpLines(op: string, t: Reg): seq<Instr> {
    if op == "+" then [Alu(ADD, t, X1, X2)]
    else if op == "-" then [Alu(SUB, t, X1, X2)]
    else if op == "*" then [Alu(MUL, t, X1, X2)]
    else if op == "/" then [Alu(DIV, t, X1, X2)]
    else if op == "<" then [Comment, Alu(SLT, t, X1, X2)]
    else if op == ">" then [Comment, Alu(SLT, t, X2, X1)]
    else if op == "=" || op == "==" then [Comment, Alu(SUB, X3, X1, X2), Alu(SEQ, t, X3, X0)]
    else [Comment]
  }

  /** What an expression step keeps: it takes no label, declares nothing and records no string. */
  ghost predicate ExprStep(g: LGen, r: LGen) {
    Grows(g, r) && r.labelCounter == g.labelCounter && r.vars == g.vars && r.data == g.data
  }

  /**
    evaluate_expression. A string literal yields a comment and `li x0, 0`,
    so the target is never written; an identifier is loaded through x5.
  */
  function Eval(g: LGen, e: Node, t: Reg): (r: LGen)
    ensures ExprStep(g, r)
    decreases e, 1
  {
    match e
    case BinOp(_, _, _) => BinaryOperation(g, e, t)
    case IntLit(v) => Emit(g, [Li(t, v)])
    case StrLit(_) => Emit(g, [Comment, Li(X0, 0)])
    case Ident(x) =>
      var (g1, a) := GetVariableAddress(g, x);
      Emit(g1, [Comment, Li(X5, a), Lw(t, X5, 0)])
    case _ => Emit(g, [Comment])
  }

  /** process_binary_operation: left operand into x1, right into x2, whatever the target. */
  function BinaryOperation(g: LGen, e: Node, t: Reg): (r: LGen)
    requires e.BinOp?
    ensures ExprStep(g, r)
    decreases e, 0
  {
    var g1 := Eval(g, e.left, X1);
    var g2 := Eval(g1, e.right, X2);
    Emit(g2, OpLines(e.op, t))
  }

  // ----- statements -----

  /** process_node. Expression nodes met as statements emit nothing. */
  function ProcessNode(g: LGen, n: Node): (r: LGen)
    ensures Grows(g, r)
    decreases n, 2
  {
    match n
    case Program(cs) => ProcessNodes(g, cs)
    case Block(cs) => ProcessNodes(g, cs)
    case VarDecl(_, _, _, _) => VariableDeclaration(g, n)
    case Assign(_, _) => Assignment(g, n)
    case If(_, _, _) => IfStatement(g, n)
    case While(_, _) => WhileLoop(g, n)
    case Round(_, _, _, _, _) => RoundLoop(g, n)
    case Print(_) => ProcessPrint(g, n)
    case _ => g
  }

  /** The children of a program or block, first to last. */
  function ProcessNodes(g: LGen, ns: seq<Node>): (r: LGen)
    ensures Grows(g, r)
    decreases ns, 0
  {
    if |ns| == 0 then g
    else
      var g1 := ProcessNode(g, ns[0]);
      GrowsTrans(g, g1, ProcessNodes(g1, ns[1..]));
      ProcessNodes(g1, ns[1..])
  }

  /** A declaration: always registered, then the initial value (or 0) is stored at the name's address. */
  function VariableDeclaration(g: LGen, n: Node): (r: LGen)
    requires n.VarDecl?
    ensures Grows(g, r)
  {
    var g1 := RegisterVariable(g, n.name, n.varType);
    var (g2, addr) := GetVariableAddress(g1, n.name);
    var g3 :=
      if n.init.Some? then Eval(Emit(g2, [Comment, Comment]), n.init.value, X1)
      else Emit(g2, [Comment, Li(X1, 0)]);
    Emit(g3, [Li(X2, addr), Sw(X2, 0, X1)])
  }

  /** An assignment: the value into x1, stored at the target's address (which is allocated if new). */
  function Assignment(g: LGen, n: Node): (r: LGen)
    requires n.Assign?
    ensures Grows(g, r)
  {
    var (g1, addr) := GetVariableAddress(g, n.target);
    var g2 := Eval(Emit(g1, [Comment]), n.value, X1);
    Emit(g2, [Li(X2, addr), Sw(X2, 0, X1)])
  }

  /** process_if_statement. */
  function IfStatement(g: LGen, n: Node): (r: LGen)
    requires n.If?
    ensures Grows(g, r)
    decreases n, 1
  {
    var (g1, elseL) := NewLabel(g, "else");
    var (g2, endL) := NewLabel(g1, "endif");
    var g3 := Emit(Eval(Emit(g2, [Comment]), n.cond, X1), [Beq(X1, X0, elseL)]);
    IfBranches(g3, n, elseL, endL)
  }

  /** The if-statement after its test: then-branch, jump to the end, else label, else-branch, end label. */
  function IfBranches(g: LGen, n: Node, elseL: Label, endL: Label): (r: LGen)
    requires n.If?
    ensures Grows(g, r)
    decreases n, 0
  {
    var g1 := Emit(ProcessNode(g, n.thenBranch), [Jal(X0, endL), Mark(elseL)]);
    var g2 := if n.elseBranch.Some? then ProcessNode(g1, n.elseBranch.value) else g1;
    Emit(g2, [Mark(endL), Comment])
  }

  /** process_while_loop. */
  function WhileLoop(g: LGen, n: Node): (r: LGen)
    requires n.While?
    ensures Grows(g, r)
    decreases n, 0
  {
    var (g1, loopL) := NewLabel(g, "while");
    var (g2, endL) := NewLabel(g1, "endwhile");
    var g3 := Emit(Eval(Emit(g2, [Comment, Mark(loopL)]), n.cond, X1), [Beq(X1, X0, endL)]);
    Emit(ProcessNode(g3, n.body), [Jal(X0, loopL), Mark(endL), Comment])
  }

  /** The counted loop's test: leave when `end < current` (end in x3, current in x1). */
  function LoopTest(endL: Label): seq<Instr> {
    [Comment, Alu(SLT, X5, X3, X1), Bne(X5, X0, endL)]
  }

  /** The counted loop's increment block: reload, add the step in x4, store, jump back. */
  function LoopIncrement(addr: int, loopL: Label, endL: Label, incL: Label): seq<Instr> {
    [ Mark(incL),
      Li(X2, addr),
      Lw(X1, X2, 0),
      Alu(ADD, X1, X1, X4),
      Li(X2, addr),
      Sw(X2, 0, X1),
      Jal(X0, loopL),
      Mark(endL),
      Comment ]
  }

  /** The counted loop up to its body: start stored, end into x3, step into x4 (1 when omitted), then the test. */
  function RoundHeader(g: LGen, n: Node, addr: int, loopL: Label, endL: Label): (r: LGen)
    requires n.Round?
    ensures Grows(g, r)
    ensures r.labelCounter == g.labelCounter
  {
    var g1 := Emit(Eval(Emit(g, [Comment]), n.start, X1), [Li(X2, addr), Sw(X2, 0, X1)]);
    var g2 := Eval(g1, n.end, X3);
    var g3 := if n.step.Some? then Eval(g2, n.step.value, X4) else Emit(g2, [Addi(X4, X0, 1)]);
    Emit(g3, [Mark(loopL), Li(X2, addr), Lw(X1, X2, 0)] + LoopTest(endL))
  }

  /** process_round_loop. */
  function RoundLoop(g: LGen, n: Node): (r: LGen)
    requires n.Round?
    ensures Grows(g, r)
    decreases n, 1
  {
    var (g1, addr) := GetVariableAddress(g, n.variable);
    var (g2, loopL) := NewLabel(g1, "round");
    var (g3, endL) := NewLabel(g2, "endround");
    var (g4, incL) := NewLabel(g3, "increment");
    RoundBody(RoundHeader(g4, n, addr, loopL, endL), n, addr, loopL, endL, incL)
  }

  /** The counted loop after its test: the body, then the increment block. */
  function RoundBody(g: LGen, n: Node, addr: int, loopL: Label, endL: Label, incL: Label): (r: LGen)
    requires n.Round?
    ensures Grows(g, r)
    decreases n, 0
  {
    Emit(ProcessNode(g, n.body), LoopIncrement(addr, loopL, endL, incL))
  }

  /** Byte-read loop: load a byte, stop at 0, write it, advance. */
  function StringLoop(loopL: Label, endL: Label): seq<Instr> {
    [ Mark(loopL),
      Lb(X2, X1, 0),
      Beq(X2, X0, endL),
      Ewrite(X2),
      Addi(X1, X1, 1),
      Jal(X0, loopL),
      Mark(endL) ]
  }

  const NEWLINE: seq<Instr> := [Addi(X31, X0, 10), Ewrite(X31)]

  /** A string literal is printed from its data label, byte by byte. */
  function PrintString(g: LGen, s: string): (r: LGen)
    ensures Grows(g, r)
  {
    var (g1, k) := AddStringLiteral(g, s);
    var (g2, loopL) := NewLabel(g1, "str_print_loop");
    var (g3, endL) := NewLabel(g2, "str_print_end");
    Emit(g3, [La(X1, Label("str", k))] + StringLoop(loopL, endL) + NEWLINE + [Comment])
  }

  /** Any other expression is printed as a signed decimal number. */
  function PrintValue(g: LGen, e: Node): (r: LGen)
    ensures Grows(g, r)
  {
    var (g1, _) := NewLabel(g, "print_end");
    var (g2, loopL) := NewLabel(g1, "print_loop");
    var (g3, afterMinusL) := NewLabel(g2, "after_minus");
    var g4 := Eval(Emit(g3, [Comment]), e, X1);
    Emit(g4, S.DecimalLoop(loopL, afterMinusL) + NEWLINE + [Comment])
  }

  /** process_print. */
  function ProcessPrint(g: LGen, n: Node): (r: LGen)
    requires n.Print?
    ensures Grows(g, r)
  {
    if n.expr.StrLit? then PrintString(g, n.expr.strValue) else PrintValue(g, n.expr)
  }

  // ----- driver -----

  /** generate_risc_code: no gating; the walk's lines, the exit comment and `ebreak`. */
  function GenerateRiscCode(root: Node): (r: seq<Instr>)
    ensures |r| >= 2 && r[|r| - 1] == Ebreak && r[|r| - 2] == Comment
    ensures ProcessNode(Init(), root).out <= r
  {
    ProcessNode(Init(), root).out + [Comment, Ebreak]
  }

  /** The text the driver returns. */
  function GenerateText(root: Node): (r: string) {
    Render(GenerateRiscCode(root))
  }
}
