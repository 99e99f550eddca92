/**
  The syntax tree handed to both generators by the front end (ast/ast.h).
  The tree is immutable: neither generator changes it. Float literals are
  not part of this model, so a literal is either an int or a string.
*/
module Ast {
  import opened Wrappers

  const INT_TYPE := "int"
  const STRING_TYPE := "string"

  datatype Node =
    | Program(children: seq<Node>)
    | VarDecl(name: string, varType: string, isGlobal: bool, init: Option<Node>)
    | BinOp(op: string, left: Node, right: Node)
    | IntLit(intValue: int)
    | StrLit(strValue: string)
    | Ident(ident: string)
    | Assign(target: string, value: Node)
    | If(cond: Node, thenBranch: Node, elseBranch: Option<Node>)
    | While(cond: Node, body: Node)
    | Round(variable: string, start: Node, end: Node, step: Option<Node>, body: Node)
    | Block(children: seq<Node>)
    | Print(expr: Node)
  {
    predicate IsLiteral() {
      IntLit? || StrLit?
    }

    /** The `literal.type` tag the front end attaches to a literal. */
    function LiteralType(): string
      requires IsLiteral()
    {
      if IntLit? then INT_TYPE else STRING_TYPE
    }

    /** An int literal whose value is 0 (the test at several places in the generator). */
    predicate IsIntZero() {
      IntLit? && intValue == 0
    }

    /** An int literal whose value is not 0. */
    predicate IsIntNonzero() {
      IntLit? && intValue != 0
    }

    /** A string concatenation, operator ".". */
    predicate IsConcat() {
      BinOp? && op == "."
    }
  }

  /** No `Program` node occurs anywhere in `n`, `n` included. */
  predicate NoProgram(n: Node)
    decreases n, 1
  {
    match n
    case Program(_) => false
    case VarDecl(_, _, _, init) => init.None? || NoProgram(init.value)
    case BinOp(_, l, r) => NoProgram(l) && NoProgram(r)
    case IntLit(_) => true
    case StrLit(_) => true
    case Ident(_) => true
    case Assign(_, v) => NoProgram(v)
    case If(c, t, e) => NoProgram(c) && NoProgram(t) && (e.None? || NoProgram(e.value))
    case While(c, b) => NoProgram(c) && NoProgram(b)
    case Round(_, s, e, st, b) =>
      NoProgram(s) && NoProgram(e) && (st.None? || NoProgram(st.value)) && NoProgram(b)
    case Block(cs) => NoProgramAll(cs)
    case Print(e) => NoProgram(e)
  }

  predicate NoProgramAll(ns: seq<Node>)
    decreases ns, 0
  {
    |ns| == 0 || (NoProgram(ns[0]) && NoProgramAll(ns[1..]))
  }
}
