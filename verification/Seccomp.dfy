/** The system call filters (ffi/seccomp.c): compilers from rule lists to BPF. */
module Seccomp {
  import opened Basics
  import opened Errno
  import opened Bpf

  const MAX_FILTER_SYSCALLS: nat := 2045

  const AUDIT_ARCH_X86_64: U32 := 0xC000_003E
  const AUDIT_ARCH_AARCH64: U32 := 0xC000_00B7

  const RET_KILL_PROCESS: U32 := 0x8000_0000
  const RET_ALLOW: U32 := 0x7fff_0000
  const RET_ERRNO: U32 := 0x0005_0000
  const RET_DATA: nat := 0xffff

  /** `Skipped`: success without installing anything. */
  datatype Filter = Install(prog: seq<Insn>) | Skipped | Error(errno: nat)

  predicate ValidRuleAction(action: U32) {
    var kind := action - action % 0x10000;
    kind == RET_ALLOW || kind == RET_KILL_PROCESS || (kind == RET_ERRNO && action % 0x10000 > 0)
  }

  // ---- meaning ----

  /** The action of the first rule for the call, or the default. */
  function FirstMatch(rules: seq<Rule>, default_: U32, nr: U32): U32 {
    if rules == [] then default_
    else if AsU32(rules[0].nr) == nr then rules[0].action
    else FirstMatch(rules[1..], default_, nr)
  }

  function RulesDecision(rules: seq<Rule>, default_: U32, native: U32, data: SeccompData): U32 {
    if data.arch != native then default_ else FirstMatch(rules, default_, data.nr)
  }

  // ---- the shape of compiled programs ----

  function RuleInsns(rules: seq<Rule>): (insns: seq<Insn>)
    ensures |insns| == 2 * |rules|
  {
    if rules == [] then []
    else [JumpEq(AsU32(rules[0].nr), 0, 1), Return(rules[0].action)] + RuleInsns(rules[1..])
  }

  function RulesHeader(default_: U32, native: U32): seq<Insn> {
    [LoadAbs(ARCH_OFFSET), JumpEq(native, 1, 0), Return(default_), LoadAbs(NR_OFFSET)]
  }

  function RulesProgram(rules: seq<Rule>, default_: U32, native: U32): seq<Insn> {
    RulesHeader(default_, native) + RuleInsns(rules) + [Return(default_)]
  }

  lemma {:induction false} RuleInsnsAt(rules: seq<Rule>, i: nat)
    requires i < |rules|
    ensures RuleInsns(rules)[2 * i] == JumpEq(AsU32(rules[i].nr), 0, 1)
    ensures RuleInsns(rules)[2 * i + 1] == Return(rules[i].action)
  {
    if i > 0 {
      RuleInsnsAt(rules[1..], i - 1);
      var rest := RuleInsns(rules[1..]);
      assert RuleInsns(rules)[2 * i] == rest[2 * (i - 1)];
      assert RuleInsns(rules)[2 * i + 1] == rest[2 * (i - 1) + 1];
    }
  }

  lemma {:induction false} RuleInsnsGrow(rules: seq<Rule>, rule: Rule)
    ensures RuleInsns(rules + [rule]) == RuleInsns(rules) + [JumpEq(AsU32(rule.nr), 0, 1), Return(rule.action)]
  {
    if rules == [] {
      assert rules + [rule] == [rule];
      assert RuleInsns([rule][1..]) == [];
    } else {
      RuleInsnsGrow(rules[1..], rule);
      assert (rules + [rule])[1..] == rules[1..] + [rule];
    }
  }

  /** A table of rules somewhere in a program, with the default after it. */
  ghost predicate TableAt(prog: seq<Insn>, at: nat, rules: seq<Rule>, default_: U32) {
    && at + 2 * |rules| < |prog|
    && prog[at..at + 2 * |rules|] == RuleInsns(rules)
    && prog[at + 2 * |rules|] == Return(default_)
  }

  /** Such a table returns the first match. */
  lemma {:induction false} TableMeans(prog: seq<Insn>, data: SeccompData, at: nat, rules: seq<Rule>, default_: U32)
    requires SixArgs(data) && TableAt(prog, at, rules, default_)
    ensures Run(prog, data, at, data.nr) == Action(FirstMatch(rules, default_, data.nr))
    decreases |rules|
  {
    if rules != [] {
      var table := prog[at..at + 2 * |rules|];
      assert prog[at] == table[0] == JumpEq(AsU32(rules[0].nr), 0, 1);
      assert prog[at + 1] == table[1] == Return(rules[0].action);
      if AsU32(rules[0].nr) != data.nr {
        assert prog[at + 2..at + 2 + 2 * |rules[1..]|] == table[2..];
        assert table[2..] == RuleInsns(rules[1..]);
        TableMeans(prog, data, at + 2, rules[1..], default_);
        assert Run(prog, data, at, data.nr) == Run(prog, data, at + 2, data.nr);
      } else {
        assert Run(prog, data, at, data.nr) == Run(prog, data, at + 1, data.nr);
      }
    }
  }

  lemma {:induction false} TableAccepted(rules: seq<Rule>, i: nat)
    requires i < 2 * |rules|
    ensures RuleInsns(rules)[i].Return? ||
            (RuleInsns(rules)[i].JumpEq? && RuleInsns(rules)[i].jt == 0 && RuleInsns(rules)[i].jf == 1 && i + 1 < 2 * |rules|)
  {
    RuleInsnsAt(rules, i / 2);
    assert i == 2 * (i / 2) || i == 2 * (i / 2) + 1;
  }

  // ---- the rules compiler ----

  /** Compiled rules pass the kernel's check and return the first matching rule's
      action, or the default on no match or a foreign architecture. */
  lemma RulesProgramMeans(rules: seq<Rule>, default_: U32, native: U32, data: SeccompData)
    requires SixArgs(data) && |rules| <= MAX_FILTER_SYSCALLS
    ensures Run(RulesProgram(rules, default_, native), data, 0, 0) == Action(RulesDecision(rules, default_, native, data))
    ensures Accepted(RulesProgram(rules, default_, native))
  {
    var prog := RulesProgram(rules, default_, native);
    RulesProgramAccepted(rules, default_, native);
    assert prog[4..4 + 2 * |rules|] == RuleInsns(rules);
    TableMeans(prog, data, 4, rules, default_);
    assert prog[0] == LoadAbs(ARCH_OFFSET) && prog[1] == JumpEq(native, 1, 0);
    assert prog[2] == Return(default_) && prog[3] == LoadAbs(NR_OFFSET);
    hide Accepted, RulesProgram, RuleInsns, FirstMatch;
    calc {
      Run(prog, data, 0, 0);
      Run(prog, data, 1, data.arch);
      Run(prog, data, if data.arch == native then 3 else 2, data.arch);
      if data.arch == native then Run(prog, data, 4, data.nr) else Action(default_);
    }
  }

  lemma RulesProgramAccepted(rules: seq<Rule>, default_: U32, native: U32)
    requires |rules| <= MAX_FILTER_SYSCALLS
    ensures Accepted(RulesProgram(rules, default_, native))
  {
    var prog := RulesProgram(rules, default_, native);
    forall i | 4 <= i < |prog| - 1
      ensures prog[i].Return? || (prog[i].JumpEq? && prog[i].jt == 0 && prog[i].jf == 1 && i + 2 < |prog|)
    {
      TableAccepted(rules, i - 4);
      assert prog[i] == RuleInsns(rules)[i - 4];
    }
  }

  predicate AllValid(rules: seq<Rule>) {
    forall i :: 0 <= i < |rules| ==> ValidRuleAction(rules[i].action)
  }

  /** `native`: the audit architecture of the build, if it has one. `memory`: the
      program can be allocated. */
  method SyscallRules(list: CArray<Rule>, default_: U32, native: Option<U32>, memory: bool) returns (r: Filter)
    ensures !r.Skipped?
    ensures
      var rules := Contents(list);
      var dangling := list.NoItems? && list.count > 0;
      var valid := !dangling && ValidRuleAction(default_) && AllValid(rules);
      && (r.Install? <==> |rules| <= MAX_FILTER_SYSCALLS && valid && native.Some? && memory)
      && (r.Error? ==>
            r.errno == if !dangling && |rules| > MAX_FILTER_SYSCALLS then E2BIG
                       else if !valid then EINVAL
                       else if native.None? then EOPNOTSUPP
                       else ENOMEM)
    ensures r.Install? ==> Accepted(r.prog)
    ensures r.Install? ==> forall data :: SixArgs(data) ==>
              Run(r.prog, data, 0, 0) == Action(RulesDecision(Contents(list), default_, native.value, data))
  {
    hide Accepted, Run, RulesDecision, RulesProgram, ValidRuleAction, AllValid;
    if list.NoItems? && list.count > 0 {
      return Error(EINVAL);
    }
    var rules := Contents(list);
    if |rules| > MAX_FILTER_SYSCALLS {
      return Error(E2BIG);
    }
    if !ValidRuleAction(default_) {
      return Error(EINVAL);
    }
    var checked := CheckActions(rules);
    if !checked {
      return Error(EINVAL);
    }
    if native.None? {
      return Error(EOPNOTSUPP);
    }
    if !memory {
      return Error(ENOMEM);
    }
    var prog := FillRules(rules, default_, native.value);
    forall data | SixArgs(data)
      ensures Run(prog, data, 0, 0) == Action(RulesDecision(rules, default_, native.value, data))
    {
      RulesProgramMeans(rules, default_, native.value, data);
    }
    RulesProgramAccepted(rules, default_, native.value);
    return Install(prog);
  }

  method CheckActions(rules: seq<Rule>) returns (ok: bool)
    ensures ok == AllValid(rules)
  {
    hide ValidRuleAction;
    for i := 0 to |rules|
      invariant forall k :: 0 <= k < i ==> ValidRuleAction(rules[k].action)
    {
      if !ValidRuleAction(rules[i].action) {
        return false;
      }
    }
    return true;
  }

  method PutPair(prog: array<Insn>, idx: nat, a: Insn, b: Insn)
    requires idx + 2 <= prog.Length
    modifies prog
    ensures prog[..idx + 2] == old(prog[..idx]) + [a, b]
  {
    prog[idx] := a;
    prog[idx + 1] := b;
  }

  method FillRules(rules: seq<Rule>, default_: U32, native: U32) returns (r: seq<Insn>)
    ensures r == RulesProgram(rules, default_, native)
  {
    hide RuleInsns;
    var len := 5 + 2 * |rules|;
    var prog := new Insn[len];
    prog[0] := LoadAbs(ARCH_OFFSET);
    prog[1] := JumpEq(native, 1, 0);
    prog[2] := Return(default_);
    prog[3] := LoadAbs(NR_OFFSET);
    var idx := 4;
    FillNothing();
    for i := 0 to |rules|
      invariant idx == 4 + 2 * i
      invariant prog[..idx] == RulesHeader(default_, native) + RuleInsns(rules[..i])
    {
      RuleInsnsGrow(rules[..i], rules[i]);
      assert rules[..i + 1] == rules[..i] + [rules[i]];
      PutPair(prog, idx, JumpEq(AsU32(rules[i].nr), 0, 1), Return(rules[i].action));
      idx := idx + 2;
    }
    assert rules[..|rules|] == rules;
    prog[idx] := Return(default_);
    assert prog[..] == prog[..idx] + [Return(default_)];
    return prog[..];
  }

  lemma FillNothing()
    ensures RuleInsns([]) == []
  {
  }

  // ---- the allow and deny lists ----

  type SyscallTable = seq<(string, Int32)>

  /** The number of the first entry with that name, or -1. */
  function Lookup(table: SyscallTable, name: string): Int32 {
    if table == [] then -1
    else if table[0].0 == name then table[0].1
    else Lookup(table[1..], name)
  }

  method LookupSyscall(table: SyscallTable, name: string) returns (nr: Int32)
    ensures nr == Lookup(table, name)
  {
    for i := 0 to |table|
      invariant Lookup(table, name) == Lookup(table[i..], name)
    {
      if table[i].0 == name {
        return table[i].1;
      }
    }
    return -1;
  }

  /** The call is named by the list. Names that are unknown here name nothing. */
  ghost predicate Names(list: seq<string>, table: SyscallTable, nr: U32) {
    exists name :: name in list && Lookup(table, name) == nr
  }

  ghost predicate NamesSome(list: seq<string>, table: SyscallTable) {
    exists nr: U32 :: Names(list, table, nr)
  }

  function Denial(error: Int32): U32
    requires 0 < error <= RET_DATA
  {
    RET_ERRNO + error
  }

  /** Membership decides; foreign architectures are allowed. */
  ghost function ListDecision(list: seq<string>, table: SyscallTable, allow: bool, error: Int32, data: SeccompData): U32
    requires 0 < error <= RET_DATA
  {
    if data.arch != AUDIT_ARCH_X86_64 && data.arch != AUDIT_ARCH_AARCH64 then RET_ALLOW
    else if Names(list, table, data.nr) == allow then RET_ALLOW
    else Denial(error)
  }

  /** Order and repetition do not matter. */
  lemma ListIsASet(list: seq<string>, other: seq<string>, table: SyscallTable, allow: bool, error: Int32, data: SeccompData)
    requires 0 < error <= RET_DATA && forall name :: name in list <==> name in other
    ensures ListDecision(list, table, allow, error, data) == ListDecision(other, table, allow, error, data)
  {
    hide Lookup;
    if Names(list, table, data.nr) {
      var name :| name in list && Lookup(table, name) == data.nr;
      assert name in other;
    }
    if Names(other, table, data.nr) {
      var name :| name in other && Lookup(table, name) == data.nr;
      assert name in list;
    }
  }

  function Numbers(list: seq<string>, table: SyscallTable): (nrs: seq<Int32>)
    ensures |nrs| <= |list|
  {
    if list == [] then []
    else
      var rest := Numbers(list[..|list| - 1], table);
      var nr := Lookup(table, list[|list| - 1]);
      if nr >= 0 then rest + [nr] else rest
  }

  lemma {:induction false} NumbersAre(list: seq<string>, table: SyscallTable, nr: U32)
    ensures nr in Numbers(list, table) <==> Names(list, table, nr)
    ensures forall i :: 0 <= i < |Numbers(list, table)| ==> Numbers(list, table)[i] >= 0
  {
    hide Lookup;
    if list == [] {
    } else {
      var front, last := list[..|list| - 1], list[|list| - 1];
      NumbersAre(front, table, nr);
      assert list == front + [last];
      if Names(front, table, nr) {
        var name :| name in front && Lookup(table, name) == nr;
        assert name in list;
      }
    }
  }

  function Uniform(nrs: seq<Int32>, action: U32): (rules: seq<Rule>)
    ensures |rules| == |nrs|
    ensures forall i :: 0 <= i < |nrs| ==> rules[i] == Rule(nrs[i], action)
  {
    seq(|nrs|, i requires 0 <= i < |nrs| => Rule(nrs[i], action))
  }

  lemma {:induction false} UniformMatch(nrs: seq<Int32>, action: U32, default_: U32, nr: U32)
    requires forall i :: 0 <= i < |nrs| ==> nrs[i] >= 0
    ensures FirstMatch(Uniform(nrs, action), default_, nr) == if nr in nrs then action else default_
  {
    if nrs != [] {
      UniformMatch(nrs[1..], action, default_, nr);
      assert Uniform(nrs, action)[1..] == Uniform(nrs[1..], action);
      assert nrs == [nrs[0]] + nrs[1..];
    }
  }

  function ListHeader(): seq<Insn> {
    [LoadAbs(ARCH_OFFSET), JumpEq(AUDIT_ARCH_X86_64, 2, 0), JumpEq(AUDIT_ARCH_AARCH64, 1, 0), Return(RET_ALLOW),
     LoadAbs(NR_OFFSET)]
  }

  function ListProgram(nrs: seq<Int32>, action: U32, default_: U32): seq<Insn> {
    ListHeader() + RuleInsns(Uniform(nrs, action)) + [Return(default_)]
  }

  lemma ListProgramAccepted(nrs: seq<Int32>, action: U32, default_: U32)
    requires |nrs| <= MAX_FILTER_SYSCALLS
    ensures Accepted(ListProgram(nrs, action, default_))
  {
    var prog := ListProgram(nrs, action, default_);
    forall i | 5 <= i < |prog| - 1
      ensures prog[i].Return? || (prog[i].JumpEq? && prog[i].jt == 0 && prog[i].jf == 1 && i + 2 < |prog|)
    {
      TableAccepted(Uniform(nrs, action), i - 5);
      assert prog[i] == RuleInsns(Uniform(nrs, action))[i - 5];
    }
  }

  lemma ListProgramMeans(nrs: seq<Int32>, action: U32, default_: U32, data: SeccompData)
    requires SixArgs(data) && forall i :: 0 <= i < |nrs| ==> nrs[i] >= 0
    ensures Run(ListProgram(nrs, action, default_), data, 0, 0) ==
            Action(if data.arch != AUDIT_ARCH_X86_64 && data.arch != AUDIT_ARCH_AARCH64 then RET_ALLOW
                   else if data.nr in nrs then action else default_)
  {
    var prog := ListProgram(nrs, action, default_);
    var rules := Uniform(nrs, action);
    assert prog[5..5 + 2 * |rules|] == RuleInsns(rules);
    TableMeans(prog, data, 5, rules, default_);
    UniformMatch(nrs, action, default_, data.nr);
    assert prog[..5] == ListHeader();
    assert forall i :: 0 <= i < 5 ==> prog[i] == ListHeader()[i];
    hide ListProgram, RuleInsns, FirstMatch, Uniform;
    var known := data.arch == AUDIT_ARCH_X86_64 || data.arch == AUDIT_ARCH_AARCH64;
    calc {
      Run(prog, data, 0, 0);
      Run(prog, data, 1, data.arch);
      Run(prog, data, if data.arch == AUDIT_ARCH_X86_64 then 4 else 2, data.arch);
      Run(prog, data, if known then 4 else 3, data.arch);
      if known then Run(prog, data, 5, data.nr) else Action(RET_ALLOW);
    }
  }

  lemma NumbersNameSome(list: seq<string>, table: SyscallTable)
    ensures NamesSome(list, table) <==> Numbers(list, table) != []
  {
    hide Numbers, Names;
    var nrs := Numbers(list, table);
    if NamesSome(list, table) {
      var nr: U32 :| Names(list, table, nr);
      NumbersAre(list, table, nr);
    }
    if nrs != [] {
      NumbersAre(list, table, 0);
      assert nrs[0] in nrs;
      NumbersAre(list, table, nrs[0]);
    }
  }

  method FindNumbers(list: seq<string>, table: SyscallTable) returns (nrs: seq<Int32>)
    ensures nrs == Numbers(list, table)
  {
    hide Lookup;
    nrs := [];
    for i := 0 to |list|
      invariant nrs == Numbers(list[..i], table)
    {
      var nr := LookupSyscall(table, list[i]);
      assert list[..i + 1][..i] == list[..i];
      if nr >= 0 {
        nrs := nrs + [nr];
      }
    }
    assert list[..|list|] == list;
  }

  method FillList(nrs: seq<Int32>, action: U32, default_: U32) returns (r: seq<Insn>)
    ensures r == ListProgram(nrs, action, default_)
  {
    hide RuleInsns;
    var len := 6 + 2 * |nrs|;
    var prog := new Insn[len];
    prog[0] := LoadAbs(ARCH_OFFSET);
    prog[1] := JumpEq(AUDIT_ARCH_X86_64, 2, 0);
    prog[2] := JumpEq(AUDIT_ARCH_AARCH64, 1, 0);
    prog[3] := Return(RET_ALLOW);
    prog[4] := LoadAbs(NR_OFFSET);
    var idx := 5;
    FillNothing();
    ghost var rules := Uniform(nrs, action);
    for i := 0 to |nrs|
      invariant idx == 5 + 2 * i
      invariant prog[..idx] == ListHeader() + RuleInsns(rules[..i])
    {
      RuleInsnsGrow(rules[..i], rules[i]);
      assert rules[..i + 1] == rules[..i] + [rules[i]];
      PutPair(prog, idx, JumpEq(AsU32(nrs[i]), 0, 1), Return(action));
      idx := idx + 2;
    }
    assert rules[..|rules|] == rules;
    prog[idx] := Return(default_);
    assert prog[..] == prog[..idx] + [Return(default_)];
    return prog[..];
  }

  /** Exactly one of the two lists must be given. A list that names no known call
      is an error for an allow list and does nothing for a deny list. */
  method SyscallFilter(allowList: Option<seq<string>>, denyList: Option<seq<string>>, error: Int32, table: SyscallTable,
                       memory: bool)
    returns (r: Filter)
    ensures
      if allowList.Some? == denyList.Some? || !(0 < error <= RET_DATA) then r == Error(EINVAL)
      else
        var allow := allowList.Some?;
        var list := if allow then allowList.value else denyList.value;
        if |list| > MAX_FILTER_SYSCALLS then r == Error(E2BIG)
        else if list != [] && !memory then r == Error(ENOMEM)
        else if !NamesSome(list, table) then r == if allow then Error(EINVAL) else Skipped
        else
          && r.Install? && Accepted(r.prog)
          && forall data :: SixArgs(data) ==>
               Run(r.prog, data, 0, 0) == Action(ListDecision(list, table, allow, error, data))
  {
    hide Accepted, Run, Numbers, Names, NamesSome, ListProgram;
    if allowList.Some? == denyList.Some? {
      return Error(EINVAL);
    }
    if error <= 0 || error > RET_DATA {
      return Error(EINVAL);
    }
    var allow := allowList.Some?;
    var list := if allow then allowList.value else denyList.value;
    NumbersNameSome(list, table);
    NoNames(list, table);
    if |list| == 0 {
      return if allow then Error(EINVAL) else Skipped;
    }
    if |list| > MAX_FILTER_SYSCALLS {
      return Error(E2BIG);
    }
    if !memory {
      return Error(ENOMEM);
    }
    var nrs := FindNumbers(list, table);
    if |nrs| == 0 {
      return if allow then Error(EINVAL) else Skipped;
    }
    var action, default_ := if allow then RET_ALLOW else Denial(error), if allow then Denial(error) else RET_ALLOW;
    var prog := FillList(nrs, action, default_);
    ListProgramAccepted(nrs, action, default_);
    forall data | SixArgs(data)
      ensures Run(prog, data, 0, 0) == Action(ListDecision(list, table, allow, error, data))
    {
      NumbersAre(list, table, data.nr);
      ListProgramMeans(nrs, action, default_, data);
    }
    return Install(prog);
  }

  lemma NoNames(list: seq<string>, table: SyscallTable)
    ensures list == [] ==> Numbers(list, table) == []
    ensures |Numbers(list, table)| <= |list|
  {
  }

  // ---- memory that is writable and executable ----

  const PROT_WRITE: nat := 2
  const PROT_EXEC: nat := 4

  /** The fixed filter; the numbers of the two calls depend on the build. */
  function MemoryProgram(mmap: U32, mprotect: U32): seq<Insn> {
    [LoadAbs(ARCH_OFFSET),
     JumpEq(AUDIT_ARCH_X86_64, 1, 0),
     JumpEq(AUDIT_ARCH_AARCH64, 0, 13),
     LoadAbs(NR_OFFSET),
     JumpEq(mmap, 2, 0),
     JumpEq(mprotect, 7, 0),
     Return(RET_ALLOW),
     LoadAbs(ArgOffset(2)),
     And(0x6),
     JumpEq(0x6, 1, 0),
     Return(RET_ALLOW),
     Return(RET_ERRNO + EPERM),
     Return(RET_ALLOW),
     LoadAbs(ArgOffset(2)),
     And(0x4),
     JumpEq(0, 0, 1),
     Return(RET_ALLOW),
     Return(RET_ERRNO + EPERM),
     Return(RET_ALLOW)]
  }

  predicate HasBit(x: nat, bit: nat)
    requires bit > 0
  {
    x / bit % 2 == 1
  }

  /** New mappings may not be writable and executable, existing ones may not
      become executable. */
  predicate Forbidden(mmap: U32, mprotect: U32, nr: U32, prot: nat) {
    if nr == mmap then HasBit(prot, PROT_WRITE) && HasBit(prot, PROT_EXEC)
    else nr == mprotect && HasBit(prot, PROT_EXEC)
  }

  lemma MaskSix(x: nat)
    ensures BitAnd(x, 6) == 6 <==> HasBit(x, PROT_WRITE) && HasBit(x, PROT_EXEC)
  {
    assert BitAnd(x / 2 / 2, 1) == x / 4 % 2 by {
      assert x / 2 / 2 == x / 4;
      assert BitAnd(x / 4 / 2, 0) == 0;
    }
    assert BitAnd(x / 2, 3) == 2 * BitAnd(x / 2 / 2, 1) + x / 2 % 2;
  }

  lemma MaskFour(x: nat)
    ensures BitAnd(x, 4) == 0 <==> !HasBit(x, PROT_EXEC)
  {
    assert BitAnd(x / 2 / 2, 1) == x / 4 % 2 by {
      assert x / 2 / 2 == x / 4;
      assert BitAnd(x / 4 / 2, 0) == 0;
    }
    assert BitAnd(x / 2, 2) == 2 * BitAnd(x / 2 / 2, 1);
  }

  lemma MemoryProgramMeans(mmap: U32, mprotect: U32, data: SeccompData)
    requires SixArgs(data)
    ensures Accepted(MemoryProgram(mmap, mprotect))
    ensures Run(MemoryProgram(mmap, mprotect), data, 0, 0) ==
            Action(if data.arch != AUDIT_ARCH_X86_64 && data.arch != AUDIT_ARCH_AARCH64 then RET_ALLOW
                   else if Forbidden(mmap, mprotect, data.nr, data.args[2] % WORD) then RET_ERRNO + EPERM
                   else RET_ALLOW)
  {
    var prog := MemoryProgram(mmap, mprotect);
    var prot := data.args[2] % WORD;
    MaskSix(prot);
    MaskFour(prot);
    hide BitAnd;
    assert Run(prog, data, 8, prot) == Action(if HasBit(prot, PROT_WRITE) && HasBit(prot, PROT_EXEC) then RET_ERRNO + EPERM else RET_ALLOW) by {
      assert Run(prog, data, 9, BitAnd(prot, 6)) == Run(prog, data, if BitAnd(prot, 6) == 6 then 11 else 10, BitAnd(prot, 6));
    }
    assert Run(prog, data, 14, prot) == Action(if HasBit(prot, PROT_EXEC) then RET_ERRNO + EPERM else RET_ALLOW) by {
      assert Run(prog, data, 15, BitAnd(prot, 4)) == Run(prog, data, if BitAnd(prot, 4) == 0 then 16 else 17, BitAnd(prot, 4));
    }
    calc {
      Run(prog, data, 4, data.nr);
      if data.nr == mmap then Run(prog, data, 7, data.nr) else Run(prog, data, 5, data.nr);
      if data.nr == mmap then Run(prog, data, 8, prot)
      else if data.nr == mprotect then Run(prog, data, 13, data.nr) else Run(prog, data, 6, data.nr);
      if data.nr == mmap then Run(prog, data, 8, prot)
      else if data.nr == mprotect then Run(prog, data, 14, prot) else Action(RET_ALLOW);
    }
    var known := data.arch == AUDIT_ARCH_X86_64 || data.arch == AUDIT_ARCH_AARCH64;
    calc {
      Run(prog, data, 0, 0);
      Run(prog, data, 1, data.arch);
      Run(prog, data, if data.arch == AUDIT_ARCH_X86_64 then 3 else 2, data.arch);
      Run(prog, data, if known then 3 else 16, data.arch);
      if known then Run(prog, data, 4, data.nr) else Action(RET_ALLOW);
    }
  }
}
