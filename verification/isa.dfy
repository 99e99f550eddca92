/**
  The instruction lines both generators emit. Each line of generated output
  is one `Instr`; comment-only lines are the opaque `Comment`, and the
  explanatory `# ...` remark some instruction lines carry is not modelled.
  `Show` gives the textual form of one line and `Render` joins lines the way
  the drivers do: every line followed by a newline.
*/
module Isa {

  datatype Reg = X(idx: nat)

  const X0 := X(0)
  const X1 := X(1)
  const X2 := X(2)
  const X3 := X(3)
  const X4 := X(4)
  const X5 := X(5)
  const X6 := X(6)
  const X10 := X(10)
  const X11 := X(11)
  const X12 := X(12)
  const X13 := X(13)
  const X14 := X(14)
  const X15 := X(15)
  const X16 := X(16)
  const X20 := X(20)
  const X21 := X(21)
  const X22 := X(22)
  const X31 := X(31)

  /** Register-register operations. */
  datatype AluOp = ADD | SUB | MUL | DIV | REM | SLT | SEQ | SNE | SGE | AND | OR

  /** A generated label, written `__<prefix>_<n>`. */
  datatype Label = Label(prefix: string, n: nat)

  /** The label numbers from `lo` up to but not including `hi`. */
  function Range(lo: nat, hi: nat): (r: set<nat>)
    ensures forall k: nat :: k in r <==> lo <= k < hi
    decreases hi
  {
    if hi <= lo then {} else Range(lo, hi - 1) + {hi - 1}
  }

  datatype Instr =
    | Li(rd: Reg, imm: int)
    | Alu(op: AluOp, rd: Reg, rs1: Reg, rs2: Reg)
    | Addi(rd: Reg, rs1: Reg, imm: int)
    | Xori(rd: Reg, rs1: Reg, imm: int)
    | Beq(rs1: Reg, rs2: Reg, target: Label)
    | Bne(rs1: Reg, rs2: Reg, target: Label)
    | Bge(rs1: Reg, rs2: Reg, target: Label)
    | Jal(rd: Reg, target: Label)
    | Lw(rd: Reg, base: Reg, offset: int)
    | Lb(rd: Reg, base: Reg, offset: int)
    | Sw(base: Reg, offset: int, src: Reg)
    | La(rd: Reg, target: Label)
    | Ewrite(rs: Reg)
    | Ebreak
    | Mark(at: Label)
    | Comment

  /** Decimal digits of a natural number, most significant first. */
  function NatText(n: nat): (s: string)
    ensures |s| > 0
    ensures forall i :: 0 <= i < |s| ==> '0' <= s[i] <= '9'
  {
    var d := ['0' + (n % 10) as char];
    if n < 10 then d else NatText(n / 10) + d
  }

  /** The `%d` rendering of an int. */
  function IntText(v: int): string {
    if v < 0 then "-" + NatText(-v) else NatText(v)
  }

  function RegText(r: Reg): string {
    "x" + NatText(r.idx)
  }

  function LabelText(l: Label): string {
    "__" + l.prefix + "_" + NatText(l.n)
  }

  function Mnemonic(op: AluOp): string {
    match op
    case ADD => "add"
    case SUB => "sub"
    case MUL => "mul"
    case DIV => "div"
    case REM => "rem"
    case SLT => "slt"
    case SEQ => "seq"
    case SNE => "sne"
    case SGE => "sge"
    case AND => "and"
    case OR => "or"
  }

  /** Text of one output line (operands in the order the generators print them). */
  function Show(i: Instr): string {
    match i
    case Li(rd, imm) => "li " + RegText(rd) + ", " + IntText(imm)
    case Alu(op, rd, a, b) => Mnemonic(op) + " " + RegText(rd) + ", " + RegText(a) + ", " + RegText(b)
    case Addi(rd, a, imm) => "addi " + RegText(rd) + ", " + RegText(a) + ", " + IntText(imm)
    case Xori(rd, a, imm) => "xori " + RegText(rd) + ", " + RegText(a) + ", " + IntText(imm)
    case Beq(a, b, l) => "beq " + RegText(a) + ", " + RegText(b) + ", " + LabelText(l)
    case Bne(a, b, l) => "bne " + RegText(a) + ", " + RegText(b) + ", " + LabelText(l)
    case Bge(a, b, l) => "bge " + RegText(a) + ", " + RegText(b) + ", " + LabelText(l)
    case Jal(rd, l) => "jal " + RegText(rd) + ", " + LabelText(l)
    case Lw(rd, base, off) => "lw " + RegText(rd) + ", " + RegText(base) + ", " + IntText(off)
    case Lb(rd, base, off) => "lb " + RegText(rd) + ", " + RegText(base) + ", " + IntText(off)
    case Sw(base, off, src) => "sw " + RegText(base) + ", " + IntText(off) + ", " + RegText(src)
    case La(rd, l) => "la " + RegText(rd) + ", " + LabelText(l)
    case Ewrite(r) => "ewrite " + RegText(r)
    case Ebreak => "ebreak"
    case Mark(l) => LabelText(l) + ":"
    case Comment => "#"
  }

  /** The drivers' final joining step: each line's text followed by "\n". */
  function Render(lines: seq<Instr>): string {
    if |lines| == 0 then "" else Render(lines[..|lines| - 1]) + Show(lines[|lines| - 1]) + "\n"
  }

  /** Text whose last line is `ebreak` ends with "ebreak" and a newline. */
  lemma RenderEndsWithEbreak(lines: seq<Instr>)
    requires |lines| > 0 && lines[|lines| - 1] == Ebreak
    ensures |Render(lines)| >= 7 && Render(lines)[|Render(lines)| - 7..] == "ebreak\n"
  {
    var front := Render(lines[..|lines| - 1]);
    assert Render(lines) == front + ("ebreak" + "\n");
    assert (front + "ebreak\n")[|front|..] == "ebreak\n";
  }
}
