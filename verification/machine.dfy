/**
  A straight-line reading of the emitted instructions, used to state what
  the lowered code computes. Registers hold unbounded integers, `x0` reads
  as 0 and ignores writes. Only the register instructions the operator
  lowering uses have a meaning here: `li`, the register-register
  operations except `div`/`rem`, `addi`, `xori` on bits, and comment
  lines. Anything else (memory, branches, labels, output) stops the run
  with `None`.
*/
module Machine {
  import opened Wrappers
  import opened Isa

  type Regs = map<nat, int>

  /** The value a register reads as: x0 is hard-wired to zero, an unset register reads 0. */
  function Get(rs: Regs, r: Reg): (v: int)
    ensures r.idx == 0 ==> v == 0
  {
    if r.idx == 0 then 0 else if r.idx in rs then rs[r.idx] else 0
  }

  /** Writing a register; a write to x0 is dropped. */
  function Set(rs: Regs, r: Reg, v: int): (out: Regs)
    ensures r.idx != 0 ==> Get(out, r) == v
    ensures forall q: Reg :: q != r ==> Get(out, q) == Get(rs, q)
  {
    if r.idx == 0 then rs else rs[r.idx := v]
  }

  predicate IsBit(v: int) {
    v == 0 || v == 1
  }

  function Flag(b: bool): int {
    if b then 1 else 0
  }

  /** The register-register operations; `and`/`or` are only given a meaning on 0/1 operands, `div`/`rem` none. */
  function AluValue(op: AluOp, a: int, b: int): Option<int> {
    match op
    case ADD => Some(a + b)
    case SUB => Some(a - b)
    case MUL => Some(a * b)
    case SLT => Some(Flag(a < b))
    case SEQ => Some(Flag(a == b))
    case SNE => Some(Flag(a != b))
    case SGE => Some(Flag(a >= b))
    case AND => if IsBit(a) && IsBit(b) then Some(Flag(a == 1 && b == 1)) else None
    case OR => if IsBit(a) && IsBit(b) then Some(Flag(a == 1 || b == 1)) else None
    case DIV => None
    case REM => None
  }

  /** One line. */
  function Step(rs: Regs, i: Instr): Option<Regs> {
    match i
    case Li(rd, imm) => Some(Set(rs, rd, imm))
    case Alu(op, rd, rs1, rs2) =>
      var v := AluValue(op, Get(rs, rs1), Get(rs, rs2));
      if v.Some? then Some(Set(rs, rd, v.value)) else None
    case Addi(rd, rs1, imm) => Some(Set(rs, rd, Get(rs, rs1) + imm))
    case Xori(rd, rs1, imm) =>
      var a := Get(rs, rs1);
      if IsBit(a) && IsBit(imm) then Some(Set(rs, rd, Flag(a != imm))) else None
    case Comment => Some(rs)
    case _ => None
  }

  /** A sequence of lines, first to last. */
  function Run(rs: Regs, code: seq<Instr>): Option<Regs>
    decreases |code|
  {
    if |code| == 0 then Some(rs)
    else
      var n := Step(rs, code[0]);
      if n.Some? then Run(n.value, code[1..]) else None
  }

  /** Running two pieces back to back is running the first, then the second from where it stopped. */
  lemma {:induction false} RunAppend(rs: Regs, a: seq<Instr>, b: seq<Instr>)
    ensures Run(rs, a + b) == (if Run(rs, a).Some? then Run(Run(rs, a).value, b) else None)
    decreases |a|
  {
    if |a| == 0 {
      assert a + b == b;
    } else {
      assert (a + b)[0] == a[0];
      assert (a + b)[1..] == a[1..] + b;
      var n := Step(rs, a[0]);
      if n.Some? {
        RunAppend(n.value, a[1..], b);
      }
    }
  }

  lemma RunSingle(rs: Regs, i: Instr)
    ensures Run(rs, [i]) == Step(rs, i)
  {
    assert [i][1..] == [];
  }

  lemma RunCons(rs: Regs, i: Instr, rest: seq<Instr>)
    ensures Run(rs, [i] + rest) == (if Step(rs, i).Some? then Run(Step(rs, i).value, rest) else None)
  {
    assert ([i] + rest)[0] == i;
    assert ([i] + rest)[1..] == rest;
  }
}
