/**
  The diagnostics component (error_handler.c): a global error counter, a
  sticky critical flag, a one-shot initialisation flag, and a bounded symbol
  table of its own. The message text, positions and file names of a report
  are not modelled; what a report writes to the error stream is modelled by
  its kind, appended to `log`.
*/
module Diagnostics {
  import opened Wrappers

  datatype ErrorKind =
    | NoError
    | Syntax
    | DivisionByZero
    | UndefinedVariable
    | TypeMismatch
    | InvalidStringOp
    | ScopeViolation
    | Unknown
    | Redeclaration

  /** The five kinds whose report raises the critical flag. */
  predicate IsHard(k: ErrorKind) {
    match k
    case UndefinedVariable => true
    case TypeMismatch => true
    case DivisionByZero => true
    case ScopeViolation => true
    case Redeclaration => true
    case _ => false
  }

  const MAX_SYMBOLS := 1000

  datatype Symbol = Symbol(name: string, ty: string, isGlobal: bool, defined: int)

  datatype ErrState = ErrState(
    count: nat,
    critical: bool,
    initialized: bool,
    symbols: seq<Symbol>,
    log: seq<ErrorKind>)

  /** The values of the file-scope statics before any call. */
  const Boot := ErrState(0, false, false, [], [])

  /** No two table entries share a name, and the table respects its bound. */
  predicate TableOk(symbols: seq<Symbol>) {
    && |symbols| <= MAX_SYMBOLS
    && forall i, j :: 0 <= i < j < |symbols| ==> symbols[i].name != symbols[j].name
  }

  // ----- counter and flag -----

  /** error_report, reduced to its effect on the state. */
  function Report(s: ErrState, k: ErrorKind): (r: ErrState)
    ensures r.count == s.count + 1
    ensures r.log == s.log + [k]
    ensures r.critical == (s.critical || IsHard(k))
    ensures r.symbols == s.symbols && r.initialized == s.initialized
  {
    s.(count := s.count + 1, critical := s.critical || IsHard(k), log := s.log + [k])
  }

  /** error_is_critical: the flag, or any error counted so far. */
  predicate IsCritical(s: ErrState) {
    s.critical || s.count > 0
  }

  function SetCritical(s: ErrState): (r: ErrState)
    ensures r.critical && IsCritical(r)
    ensures r.count == s.count && r.log == s.log && r.symbols == s.symbols
  {
    s.(critical := true)
  }

  /** error_clear: resets the counter only; the flag survives. */
  function Clear(s: ErrState): (r: ErrState)
    ensures r.count == 0
    ensures r.critical == s.critical
    ensures IsCritical(r) <==> s.critical
    ensures r.symbols == s.symbols && r.log == s.log && r.initialized == s.initialized
  {
    s.(count := 0)
  }

  /** error_init: only the first call resets the counter and the table; the flag is never touched. */
  function Init(s: ErrState): (r: ErrState)
    ensures r.initialized
    ensures r.critical == s.critical
    ensures !s.initialized ==> r.count == 0 && r.symbols == []
    ensures s.initialized ==> r == s
    ensures r.log == s.log
  {
    if s.initialized then s else s.(count := 0, symbols := [], initialized := true)
  }

  // ----- the handler's own symbol table -----

  /** find_symbol: the index of the first entry with this name. */
  function FindSymbol(symbols: seq<Symbol>, name: string): (r: Option<nat>)
    ensures r.Some? ==> r.value < |symbols| && symbols[r.value].name == name
    ensures r.Some? ==> forall j :: 0 <= j < r.value ==> symbols[j].name != name
    ensures r.None? <==> forall j :: 0 <= j < |symbols| ==> symbols[j].name != name
  {
    if |symbols| == 0 then None
    else if symbols[0].name == name then Some(0)
    else match FindSymbol(symbols[1..], name)
      case None => None
      case Some(i) => Some(i + 1)
  }

  /**
    add_symbol: a full table refuses (-1) before looking at the name; an
    existing name only has its `defined` field updated; otherwise a new entry
    is appended and its index returned.
  */
  function AddSymbol(s: ErrState, name: string, ty: string, isGlobal: bool, defined: int): (r: (ErrState, int))
    ensures r.0.count == s.count && r.0.critical == s.critical && r.0.log == s.log
    ensures |s.symbols| >= MAX_SYMBOLS ==> r == (s, -1)
    ensures |s.symbols| < MAX_SYMBOLS ==> 0 <= r.1 < |r.0.symbols|
    ensures |s.symbols| < MAX_SYMBOLS && FindSymbol(s.symbols, name).Some? ==>
      var i := FindSymbol(s.symbols, name).value;
      r.1 == i && r.0.symbols == s.symbols[i := s.symbols[i].(defined := defined)]
    ensures |s.symbols| < MAX_SYMBOLS && FindSymbol(s.symbols, name).None? ==>
      r.1 == |s.symbols| && r.0.symbols == s.symbols + [Symbol(name, ty, isGlobal, defined)]
    ensures TableOk(s.symbols) ==> TableOk(r.0.symbols)
  {
    if |s.symbols| >= MAX_SYMBOLS then (s, -1)
    else match FindSymbol(s.symbols, name)
      case Some(i) => (s.(symbols := s.symbols[i := s.symbols[i].(defined := defined)]), i)
      case None => (s.(symbols := s.symbols + [Symbol(name, ty, isGlobal, defined)]), |s.symbols|)
  }

  /**
    declare_variable: the same name with the same flag is a redeclaration;
    otherwise the name goes through add_symbol, and a refusal there is
    reported as an unknown error.
  */
  function DeclareVariable(s: ErrState, name: string, ty: string, isGlobal: bool): (r: (ErrState, int))
    ensures TableOk(s.symbols) ==> TableOk(r.0.symbols)
    ensures r.1 == -1 || 0 <= r.1 < |r.0.symbols|
    ensures s.critical ==> r.0.critical
  {
    var existing := FindSymbol(s.symbols, name);
    if existing.Some? && s.symbols[existing.value].isGlobal == isGlobal then
      (Report(s, Redeclaration), -1)
    else
      var (s1, idx) := AddSymbol(s, name, ty, isGlobal, 1);
      if idx < 0 then (Report(s1, Unknown), -1) else (s1, idx)
  }

  // ----- checks -----

  /** error_check_division_by_zero: 1 and a report exactly when the divisor is 0. */
  function CheckDivisionByZero(s: ErrState, divisor: int): (r: (ErrState, int))
    ensures r.1 == 1 <==> divisor == 0
    ensures r.1 == 0 <==> divisor != 0
    ensures divisor == 0 ==> r.0 == Report(s, DivisionByZero)
    ensures divisor != 0 ==> r.0 == s
  {
    if divisor == 0 then (Report(s, DivisionByZero), 1) else (s, 0)
  }

  /** error_check_variable_defined: 1 when the name is in the handler's table, else a report. */
  function CheckVariableDefined(s: ErrState, name: string): (r: (ErrState, int))
    ensures r.1 == 1 <==> exists j :: 0 <= j < |s.symbols| && s.symbols[j].name == name
    ensures r.1 == 0 ==> r.0 == Report(s, UndefinedVariable)
    ensures r.1 == 1 ==> r.0 == s
  {
    if FindSymbol(s.symbols, name).None? then (Report(s, UndefinedVariable), 0) else (s, 1)
  }

  /** error_check_string_operation: only "." and "=" are allowed on strings. */
  function CheckStringOperation(s: ErrState, op: string): (r: (ErrState, int))
    ensures r.1 == 1 <==> op == "." || op == "="
    ensures r.1 == 1 ==> r.0 == s
    ensures r.1 == 0 ==> r.0 == Report(s, InvalidStringOp) && r.1 == 0
    ensures r.0.critical == s.critical
  {
    if op == "." || op == "=" then (s, 1) else (Report(s, InvalidStringOp), 0)
  }

  /**
    error_check_type_compatibility. Equal types pass, except strings (only
    "." and "=") and "%" (only int). Different types always fail: the branch
    for "." on two strings sits after the equality test and so never fires.
  */
  function CheckTypeCompatibility(s: ErrState, t1: string, t2: string, op: string): (r: (ErrState, int))
    ensures r.1 == 0 || r.1 == 1
    ensures t1 != t2 ==> r == (Report(s, TypeMismatch), 0)
    ensures t1 == t2 && t1 == "string" ==> r == CheckStringOperation(s, op)
    ensures t1 == t2 && t1 != "string" && op == "%" ==> (r.1 == 1 <==> t1 == "int")
    ensures t1 == t2 && t1 != "string" && op == "%" && t1 != "int" ==> r.0 == Report(s, TypeMismatch)
    ensures t1 == t2 && t1 != "string" && op != "%" ==> r == (s, 1)
    ensures r.1 == 1 ==> r.0 == s
  {
    if t1 == t2 then
      if t1 == "string" then CheckStringOperation(s, op)
      else if op == "%" then
        if t1 == "int" then (s, 1)
        else (SetCritical(Report(s, TypeMismatch)), 0)
      else (s, 1)
    else if op == "." && t1 == "string" && t2 == "string" then (s, 1)
    else (SetCritical(Report(s, TypeMismatch)), 0)
  }

  /**
    error_check_variable_scope: unknown names pass silently with 0; a global
    entry seen from a local scope, or matching flags, give 1; anything else
    is a scope violation.
  */
  function CheckVariableScope(s: ErrState, name: string, isGlobal: bool, currentIsGlobal: bool): (r: (ErrState, int))
    ensures FindSymbol(s.symbols, name).None? ==> r == (s, 0)
    ensures FindSymbol(s.symbols, name).Some? ==>
      var e := s.symbols[FindSymbol(s.symbols, name).value];
      if (!currentIsGlobal && e.isGlobal) || e.isGlobal == isGlobal then r == (s, 1)
      else r == (Report(s, ScopeViolation), 0)
  {
    match FindSymbol(s.symbols, name)
    case None => (s, 0)
    case Some(i) =>
      var e := s.symbols[i];
      if !currentIsGlobal && e.isGlobal then (s, 1)
      else if e.isGlobal == isGlobal then (s, 1)
      else (Report(s, ScopeViolation), 0)
  }

  // ----- the flag is sticky -----

  /** Every entry point of the component, as a value, so that call sequences can be stated. */
  datatype Call =
    | CallInit
    | CallReport(kind: ErrorKind)
    | CallClear
    | CallSetCritical
    | CallDeclare(name: string, ty: string, isGlobal: bool)
    | CallAddSymbol(name: string, ty: string, isGlobal: bool, defined: int)
    | CallCheckDivision(divisor: int)
    | CallCheckDefined(name: string)
    | CallCheckTypes(t1: string, t2: string, op: string)
    | CallCheckString(op: string)
    | CallCheckScope(name: string, isGlobal: bool, currentIsGlobal: bool)

  function Apply(s: ErrState, c: Call): ErrState {
    match c
    case CallInit => Init(s)
    case CallReport(k) => Report(s, k)
    case CallClear => Clear(s)
    case CallSetCritical => SetCritical(s)
    case CallDeclare(n, t, g) => DeclareVariable(s, n, t, g).0
    case CallAddSymbol(n, t, g, d) => AddSymbol(s, n, t, g, d).0
    case CallCheckDivision(d) => CheckDivisionByZero(s, d).0
    case CallCheckDefined(n) => CheckVariableDefined(s, n).0
    case CallCheckTypes(t1, t2, op) => CheckTypeCompatibility(s, t1, t2, op).0
    case CallCheckString(op) => CheckStringOperation(s, op).0
    case CallCheckScope(n, g, cur) => CheckVariableScope(s, n, g, cur).0
  }

  function ApplyAll(s: ErrState, calls: seq<Call>): ErrState
    decreases |calls|
  {
    if |calls| == 0 then s else ApplyAll(Apply(s, calls[0]), calls[1..])
  }

  /** Once set, the critical flag survives any sequence of calls. */
  lemma {:induction false} CriticalIsSticky(s: ErrState, calls: seq<Call>)
    requires s.critical
    ensures ApplyAll(s, calls).critical
    ensures IsCritical(ApplyAll(s, calls))
    decreases |calls|
  {
    if |calls| > 0 {
      CriticalIsSticky(Apply(s, calls[0]), calls[1..]);
    }
  }

  /** No call sequence breaks the handler table's invariant. */
  lemma {:induction false} TableStaysOk(s: ErrState, calls: seq<Call>)
    requires TableOk(s.symbols)
    ensures TableOk(ApplyAll(s, calls).symbols)
    decreases |calls|
  {
    if |calls| > 0 {
      TableStaysOk(Apply(s, calls[0]), calls[1..]);
    }
  }

  /** After any report of any kind, the state is critical. */
  lemma ReportIsCritical(s: ErrState, k: ErrorKind)
    ensures IsCritical(Report(s, k))
    ensures Report(s, k).critical <==> s.critical || k in {UndefinedVariable, TypeMismatch, DivisionByZero, ScopeViolation, Redeclaration}
  {
  }

  /** Only the two softer kinds (and the unused ones) leave a clear flag clear. */
  lemma SoftKindsKeepFlag(s: ErrState)
    requires !s.critical
    ensures !Report(s, InvalidStringOp).critical && !Report(s, Unknown).critical
    ensures IsCritical(Report(s, InvalidStringOp)) && IsCritical(Report(s, Unknown))
  {
  }

  /**
    declare_variable against the table: a same-flag name is refused with a
    redeclaration; a name known with the other flag gets its existing index
    back with its type and flag untouched; a full table gives an unknown error,
    even for a name it already holds.
  */
  lemma DeclareOutcomes(s: ErrState, name: string, ty: string, isGlobal: bool)
    requires TableOk(s.symbols)
    ensures var f := FindSymbol(s.symbols, name);
      var r := DeclareVariable(s, name, ty, isGlobal);
      && (f.Some? && s.symbols[f.value].isGlobal == isGlobal ==>
            r.1 == -1 && r.0 == Report(s, Redeclaration))
      && (f.Some? && s.symbols[f.value].isGlobal != isGlobal && |s.symbols| < MAX_SYMBOLS ==>
            r.1 == f.value && |r.0.symbols| == |s.symbols|
            && r.0.symbols[f.value].ty == s.symbols[f.value].ty
            && r.0.symbols[f.value].isGlobal == s.symbols[f.value].isGlobal
            && r.0.count == s.count)
      && (f.Some? && s.symbols[f.value].isGlobal != isGlobal && |s.symbols| >= MAX_SYMBOLS ==>
            r.1 == -1 && r.0 == Report(s, Unknown))
      && (f.None? && |s.symbols| >= MAX_SYMBOLS ==>
            r.1 == -1 && r.0 == Report(s, Unknown))
      && (f.None? && |s.symbols| < MAX_SYMBOLS ==>
            r.1 == |s.symbols| && r.0.symbols == s.symbols + [Symbol(name, ty, isGlobal, 1)])
  {
  }
}
