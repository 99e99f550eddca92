/**
  State of the checked generator (compiler/risc_generator.c) and the
  operations on it that the lowering functions share: the variable table,
  the name-to-address table with its cursor `memoryPos`, the label counter,
  the scope flag and block depth, and the diagnostics state.
*/
module GenState {
  import opened Wrappers
  import opened Isa
  import opened CText
  import D = Diagnostics

  /** Where `init_generator` starts the address cursor. */
  const MEMORY_BASE := 1000

  /** A string literal reserves its C length plus this many slots. */
  const STRING_MARGIN := 10

  /** A concatenation result reserves this many slots. */
  const CONCAT_RESERVE := 100

  datatype VarRecord = VarRecord(name: string, ty: string, isGlobal: bool, blockLevel: int)

  datatype AddrRecord = AddrRecord(name: string, address: int)

  datatype Gen = Gen(
    out: seq<Instr>,
    vars: seq<VarRecord>,
    addrs: seq<AddrRecord>,
    labelCounter: nat,
    blockLevel: int,
    memoryPos: int,
    scopeGlobal: bool,
    err: D.ErrState)

  /** init_generator: empty tables, cursor at the base, global scope, diagnostics initialised. */
  function Init(err: D.ErrState): (g: Gen)
    ensures g.memoryPos == MEMORY_BASE && g.scopeGlobal && g.blockLevel == 0
    ensures g.out == [] && g.vars == [] && g.addrs == [] && g.labelCounter == 0
    ensures g.err == D.Init(err)
    ensures Wf(g)
  {
    Gen([], [], [], 0, 0, MEMORY_BASE, true, D.Init(err))
  }

  /**
    The address table is consistent with the cursor: every recorded address
    lies in [MEMORY_BASE, memoryPos) and addresses strictly increase with
    table position, so no two entries share an address.
  */
  ghost predicate Wf(g: Gen) {
    AddrsWf(g.addrs, g.memoryPos)
  }

  ghost predicate AddrsWf(addrs: seq<AddrRecord>, memoryPos: int) {
    && MEMORY_BASE <= memoryPos
    && (forall i :: 0 <= i < |addrs| ==> MEMORY_BASE <= addrs[i].address < memoryPos)
    && (forall i, j :: 0 <= i < j < |addrs| ==> addrs[i].address < addrs[j].address)
  }

  /**
    `r` is a later state of the same walk as `g`: output, tables and the
    diagnostic stream only grow, counters and the cursor never go back, and
    the critical flag, once up, stays up. Every report both counts and is
    logged, so the counter grows exactly by the number of new log entries.
  */
  ghost predicate Extends(g: Gen, r: Gen) {
    && g.out <= r.out
    && g.vars <= r.vars
    && g.addrs <= r.addrs
    && g.labelCounter <= r.labelCounter
    && g.memoryPos <= r.memoryPos
    && g.err.count <= r.err.count
    && (g.err.critical ==> r.err.critical)
    && g.err.log <= r.err.log
    && |r.err.log| - |g.err.log| == r.err.count - g.err.count
    && r.err.symbols == g.err.symbols
    && r.err.initialized == g.err.initialized
  }

  lemma ExtendsTrans(a: Gen, b: Gen, c: Gen)
    requires Extends(a, b) && Extends(b, c)
    ensures Extends(a, c)
  {
  }

  lemma CriticalPersists(g: Gen, r: Gen)
    requires Extends(g, r) && D.IsCritical(g.err)
    ensures D.IsCritical(r.err)
  {
  }

  function Emit(g: Gen, lines: seq<Instr>): (r: Gen)
    ensures r == g.(out := g.out + lines)
    ensures Extends(g, r) && (Wf(g) ==> Wf(r))
  {
    g.(out := g.out + lines)
  }

  function ReportErr(g: Gen, k: D.ErrorKind): (r: Gen)
    ensures r == g.(err := D.Report(g.err, k))
    ensures Extends(g, r) && (Wf(g) ==> Wf(r))
  {
    g.(err := D.Report(g.err, k))
  }

  // ----- variable table -----

  /**
    Index of the first variable record with this name (the C loops stop at
    the first match). It mirrors Diagnostics.FindSymbol and FindAddr on
    purpose: each is its own C loop over its own record type.
  */
  function FindVar(vars: seq<VarRecord>, name: string): (r: Option<nat>)
    ensures r.Some? ==> r.value < |vars| && vars[r.value].name == name
    ensures r.Some? ==> forall j :: 0 <= j < r.value ==> vars[j].name != name
    ensures r.None? <==> forall j :: 0 <= j < |vars| ==> vars[j].name != name
  {
    if |vars| == 0 then None
    else if vars[0].name == name then Some(0)
    else match FindVar(vars[1..], name)
      case None => None
      case Some(i) => Some(i + 1)
  }

  /** A name already declared with this global flag. */
  predicate DeclaredWithFlag(vars: seq<VarRecord>, name: string, isGlobal: bool) {
    exists i :: 0 <= i < |vars| && vars[i].name == name && vars[i].isGlobal == isGlobal
  }

  /** The declared type of the first record with this name, if any. */
  function TypeOfVar(g: Gen, name: string): (r: Option<string>)
    ensures r.Some? <==> FindVar(g.vars, name).Some?
    ensures r.Some? ==> r.value == g.vars[FindVar(g.vars, name).value].ty
  {
    match FindVar(g.vars, name)
    case None => None
    case Some(i) => Some(g.vars[i].ty)
  }

  /** register_variable: globals are recorded at level 0, locals at the current level. */
  function RegisterVariable(g: Gen, name: string, ty: string, isGlobal: bool): (r: Gen)
    ensures r.vars == g.vars + [VarRecord(name, ty, isGlobal, if isGlobal then 0 else g.blockLevel)]
    ensures r == g.(vars := r.vars)
    ensures Extends(g, r) && (Wf(g) ==> Wf(r))
  {
    g.(vars := g.vars + [VarRecord(name, ty, isGlobal, if isGlobal then 0 else g.blockLevel)])
  }

  /** is_string_variable: the first record with this name has type "string". */
  predicate IsStringVariable(g: Gen, name: string)
    ensures IsStringVariable(g, name) <==> TypeOfVar(g, name) == Some("string")
  {
    match FindVar(g.vars, name)
    case None => false
    case Some(i) => g.vars[i].ty == "string"
  }

  // ----- address table -----

  /**
    Index of the first address record with this name: the table is keyed by
    name alone. Like FindVar, it is kept apart from Diagnostics.FindSymbol
    because the C code has a separate loop per table.
  */
  function FindAddr(addrs: seq<AddrRecord>, name: string): (r: Option<nat>)
    ensures r.Some? ==> r.value < |addrs| && addrs[r.value].name == name
    ensures r.Some? ==> forall j :: 0 <= j < r.value ==> addrs[j].name != name
    ensures r.None? <==> forall j :: 0 <= j < |addrs| ==> addrs[j].name != name
  {
    if |addrs| == 0 then None
    else if addrs[0].name == name then Some(0)
    else match FindAddr(addrs[1..], name)
      case None => None
      case Some(i) => Some(i + 1)
  }

  /** register_variable_address: a fresh record at the cursor, which moves by one. */
  function RegisterVariableAddress(g: Gen, name: string): (r: (Gen, int))
    ensures r.1 == g.memoryPos
    ensures r.0.memoryPos == g.memoryPos + 1
    ensures r.0.addrs == g.addrs + [AddrRecord(name, g.memoryPos)]
    ensures r.0 == g.(addrs := r.0.addrs, memoryPos := r.0.memoryPos)
    ensures Extends(g, r.0) && (Wf(g) ==> Wf(r.0))
  {
    (g.(addrs := g.addrs + [AddrRecord(name, g.memoryPos)], memoryPos := g.memoryPos + 1), g.memoryPos)
  }

  /**
    Whether a reference to `name` resolves: the first record with the name
    must exist, and if it is local the current scope must be local and its
    level must not exceed the current block level.
  */
  predicate Visible(g: Gen, name: string) {
    match FindVar(g.vars, name)
    case None => false
    case Some(i) =>
      g.vars[i].isGlobal || (!g.scopeGlobal && g.vars[i].blockLevel <= g.blockLevel)
  }

  /**
    get_variable_address: -1 with an undefined-variable or scope report when
    the name does not resolve; otherwise the recorded address if the name has
    one (cursor unchanged), else a fresh address at the cursor.
  */
  function GetVariableAddress(g: Gen, name: string): (r: (Gen, int))
    ensures !Visible(g, name) ==> r.1 == -1
    ensures Wf(g) ==> (r.1 == -1 <==> !Visible(g, name))
    ensures FindVar(g.vars, name).None? ==> r == (ReportErr(g, D.UndefinedVariable), -1)
    ensures FindVar(g.vars, name).Some? && !Visible(g, name) ==> r == (ReportErr(g, D.ScopeViolation), -1)
    ensures Visible(g, name) && FindAddr(g.addrs, name).Some? ==>
      r == (g, g.addrs[FindAddr(g.addrs, name).value].address)
    ensures Visible(g, name) && FindAddr(g.addrs, name).None? ==>
      r == RegisterVariableAddress(g, name)
    ensures Extends(g, r.0) && (Wf(g) ==> Wf(r.0))
    ensures Wf(g) && r.1 != -1 ==> MEMORY_BASE <= r.1 < r.0.memoryPos
    ensures r.0.out == g.out && r.0.vars == g.vars && r.0.labelCounter == g.labelCounter
    ensures r.0.scopeGlobal == g.scopeGlobal && r.0.blockLevel == g.blockLevel
  {
    match FindVar(g.vars, name)
    case None => (ReportErr(g, D.UndefinedVariable), -1)
    case Some(i) =>
      if !g.vars[i].isGlobal && g.scopeGlobal then (ReportErr(g, D.ScopeViolation), -1)
      else if !g.vars[i].isGlobal && g.vars[i].blockLevel > g.blockLevel then (ReportErr(g, D.ScopeViolation), -1)
      else match FindAddr(g.addrs, name)
        case Some(j) => (g, g.addrs[j].address)
        case None => RegisterVariableAddress(g, name)
  }

  // ----- labels -----

  /** get_new_label: `__<prefix>_<counter>`, then the counter moves on. */
  function NewLabel(g: Gen, prefix: string): (r: (Gen, Label))
    ensures r.1 == Label(prefix, g.labelCounter)
    ensures r.0 == g.(labelCounter := g.labelCounter + 1)
    ensures Extends(g, r.0) && (Wf(g) ==> Wf(r.0))
  {
    (g.(labelCounter := g.labelCounter + 1), Label(prefix, g.labelCounter))
  }

  // ----- string storage -----

  /** The bytes stored for a literal: a leading quote is skipped, and storing stops at NUL or a quote. */
  function Payload(bs: seq<Byte>): (r: seq<Byte>)
    ensures var k := if |bs| > 0 && bs[0] == QUOTE then 1 else 0;
      && k + |r| <= |bs| && r == bs[k..k + |r|]
      && (forall i :: 0 <= i < |r| ==> r[i] != 0 && r[i] != QUOTE)
      && (k + |r| < |bs| ==> bs[k + |r|] == 0 || bs[k + |r|] == QUOTE)
  {
    var start := if |bs| > 0 && bs[0] == QUOTE then bs[1..] else bs;
    StopAtQuote(start)
  }

  function StopAtQuote(bs: seq<Byte>): (r: seq<Byte>)
    ensures r <= bs
    ensures forall i :: 0 <= i < |r| ==> r[i] != 0 && r[i] != QUOTE
    ensures |r| < |bs| ==> bs[|r|] == 0 || bs[|r|] == QUOTE
  {
    if |bs| == 0 || bs[0] == 0 || bs[0] == QUOTE then [] else [bs[0]] + StopAtQuote(bs[1..])
  }

  /**
    Three lines per stored byte: load it as the signed value a `char` holds,
    store it, advance the address register.
  */
  function StoreChars(bs: seq<Byte>): (r: seq<Instr>)
    ensures |r| == 3 * |bs|
  {
    if |bs| == 0 then []
    else [Li(X1, SignedChar(bs[0])), Sw(X2, 0, X1), Addi(X2, X2, 1)] + StoreChars(bs[1..])
  }

  /**
    add_string_literal: the literal's bytes are written at the cursor,
    NUL-terminated, and the cursor moves past them by the literal's `strlen`
    (in bytes, quotes included) plus STRING_MARGIN.
  */
  function AddStringLiteral(g: Gen, s: string): (r: (Gen, int))
    ensures r.1 == g.memoryPos
    ensures r.0.memoryPos == g.memoryPos + |CStr(Utf8(s))| + STRING_MARGIN
    ensures r.0.out == g.out + ([Li(X2, g.memoryPos)] + StoreChars(Payload(Utf8(s))) + [Li(X1, 0), Sw(X2, 0, X1)])
    ensures r.0 == g.(out := r.0.out, memoryPos := r.0.memoryPos)
    ensures Extends(g, r.0) && (Wf(g) ==> Wf(r.0))
  {
    var bytes := Utf8(s);
    var g1 := Emit(g, [Li(X2, g.memoryPos)] + StoreChars(Payload(bytes)) + [Li(X1, 0), Sw(X2, 0, X1)]);
    ExtendsTrans(g, g1, Advance(g1, |CStr(bytes)| + STRING_MARGIN));
    (Advance(g1, |CStr(bytes)| + STRING_MARGIN), g.memoryPos)
  }

  /** Moves the address cursor forward. */
  function Advance(g: Gen, delta: nat): (r: Gen)
    ensures r == g.(memoryPos := g.memoryPos + delta)
    ensures Extends(g, r) && (Wf(g) ==> Wf(r))
  {
    g.(memoryPos := g.memoryPos + delta)
  }

  /** The byte-copy routine concatenate_strings emits, given its four labels and the result address. */
  function CopyLoop(r1: Reg, r2: Reg, addr: int, n: nat): seq<Instr> {
    var copyFirst := Label("copy_first", n);
    var copySecond := Label("copy_second", n + 1);
    var firstDone := Label("first_done", n + 2);
    var secondDone := Label("second_done", n + 3);
    [ Comment,
      Alu(ADD, X3, r1, X0),
      Alu(ADD, X4, r2, X0),
      Comment,
      Li(X2, addr),
      Mark(copyFirst),
      Lw(X1, X3, 0),
      Sw(X2, 0, X1),
      Addi(X2, X2, 1),
      Addi(X3, X3, 1),
      Lw(X1, X3, 0),
      Bne(X1, X0, copyFirst),
      Mark(firstDone),
      Mark(copySecond),
      Lw(X1, X4, 0),
      Sw(X2, 0, X1),
      Beq(X1, X0, secondDone),
      Addi(X2, X2, 1),
      Addi(X4, X4, 1),
      Jal(X0, copySecond),
      Mark(secondDone) ]
  }

  /**
    concatenate_strings: the result lives at the cursor, which then moves by
    CONCAT_RESERVE; four labels are used.
  */
  function ConcatenateStrings(g: Gen, r1: Reg, r2: Reg): (r: (Gen, int))
    ensures r.1 == g.memoryPos
    ensures r.0.memoryPos == g.memoryPos + CONCAT_RESERVE
    ensures r.0.labelCounter == g.labelCounter + 4
    ensures r.0.out == g.out + CopyLoop(r1, r2, g.memoryPos, g.labelCounter)
    ensures r.0 == g.(out := r.0.out, memoryPos := r.0.memoryPos, labelCounter := r.0.labelCounter)
    ensures Extends(g, r.0) && (Wf(g) ==> Wf(r.0))
  {
    var (g1, _) := NewLabel(g, "copy_first");
    var (g2, _) := NewLabel(g1, "copy_second");
    var (g3, _) := NewLabel(g2, "first_done");
    var (g4, _) := NewLabel(g3, "second_done");
    var g5 := Emit(g4, CopyLoop(r1, r2, g.memoryPos, g.labelCounter));
    (g5.(memoryPos := g.memoryPos + CONCAT_RESERVE), g.memoryPos)
  }
}
