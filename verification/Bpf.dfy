/** Classic BPF as the seccomp filters use it: loads from `seccomp_data`, a mask,
    forward jumps on equality and returns. */
module Bpf {
  import opened Basics

  const BPF_MAXINSNS: nat := 4096

  /** What the kernel shows to a filter about one system call. */
  datatype SeccompData = SeccompData(nr: U32, arch: U32, ip: U64, args: seq<U64>)

  predicate SixArgs(data: SeccompData) {
    |data.args| == 6
  }

  datatype Insn =
    | LoadAbs(offset: nat)
    | And(mask: U32)
    | JumpEq(k: U32, jt: Byte, jf: Byte)
    | Return(action: U32)

  datatype Outcome = Action(value: U32) | Fault

  const NR_OFFSET: nat := 0
  const ARCH_OFFSET: nat := 4

  function ArgOffset(n: nat): nat {
    16 + n * 8
  }

  predicate ValidOffset(offset: nat) {
    offset < 64 && offset % 4 == 0
  }

  /** The 32-bit word of `seccomp_data` at an offset, low words first. */
  function Word(data: SeccompData, offset: nat): U32
    requires SixArgs(data) && ValidOffset(offset)
  {
    if offset == 0 then data.nr
    else if offset == 4 then data.arch
    else if offset == 8 then data.ip % WORD
    else if offset == 12 then data.ip / WORD
    else
      var arg := data.args[(offset - 16) / 8];
      if offset % 8 == 0 then arg % WORD else arg / WORD
  }

  /** Bitwise conjunction of naturals. */
  function BitAnd(x: nat, y: nat): (r: nat)
    ensures r <= x && r <= y
  {
    if x == 0 || y == 0 then 0
    else 2 * BitAnd(x / 2, y / 2) + if x % 2 == 1 && y % 2 == 1 then 1 else 0
  }

  /** Leaving the program, or a load outside the data, is a fault. */
  function Run(prog: seq<Insn>, data: SeccompData, pc: nat, acc: U32): Outcome
    requires SixArgs(data)
    decreases |prog| - pc
  {
    if pc >= |prog| then Fault
    else match prog[pc]
      case LoadAbs(offset) => if ValidOffset(offset) then Run(prog, data, pc + 1, Word(data, offset)) else Fault
      case And(mask) => Run(prog, data, pc + 1, BitAnd(acc, mask))
      case JumpEq(k, jt, jf) => Run(prog, data, pc + 1 + if acc == k then jt else jf, acc)
      case Return(action) => Action(action)
  }

  /** The kernel's static check: bounded length, loads and jumps in range, and a
      return at the end. */
  predicate Accepted(prog: seq<Insn>) {
    && 0 < |prog| <= BPF_MAXINSNS
    && prog[|prog| - 1].Return?
    && forall i :: 0 <= i < |prog| ==> match prog[i]
         case LoadAbs(offset) => ValidOffset(offset)
         case And(_) => true
         case JumpEq(_, jt, jf) => i + 1 + jt < |prog| && i + 1 + jf < |prog|
         case Return(_) => true
  }

  /** An accepted program always ends with an action. */
  lemma {:induction false} AcceptedNeverFaults(prog: seq<Insn>, data: SeccompData, pc: nat, acc: U32)
    requires Accepted(prog) && SixArgs(data) && pc < |prog|
    ensures Run(prog, data, pc, acc).Action?
    decreases |prog| - pc
  {
    match prog[pc]
    case LoadAbs(offset) => AcceptedNeverFaults(prog, data, pc + 1, Word(data, offset));
    case And(mask) => AcceptedNeverFaults(prog, data, pc + 1, BitAnd(acc, mask));
    case JumpEq(k, jt, jf) => AcceptedNeverFaults(prog, data, pc + 1 + if acc == k then jt else jf, acc);
    case Return(_) =>
  }
}
