/** The primitives of the spawn request format (ffi/spawn_wire.h): little-endian
    words and length-prefixed, terminated strings. */
module WireFormat {
  import opened Basics

  const MAX_STRING_BYTES: nat := 64 * 1024

  /** A parser consumes a prefix and leaves the rest, or rejects. */
  datatype Parsed<T> = Bad | Good(value: T, rest: Bytes)

  // ---- words ----

  function U32Bytes(x: U32): (b: Bytes)
    ensures |b| == 4
  {
    [x % 256, x / 256 % 256, x / 65536 % 256, x / 16777216]
  }

  function U32Value(b: Bytes): U32
    requires |b| == 4
  {
    (b[0] as int) + 256 * (b[1] as int) + 65536 * (b[2] as int) + 16777216 * (b[3] as int)
  }

  lemma U32Round(x: U32)
    ensures U32Value(U32Bytes(x)) == x
  {
    TwoDigits(x);
    ThreeDigits(x);
    var x1, x2, x3 := x / 256, x / 65536, x / 16777216;
    assert x == x % 256 + 256 * x1 && x1 == x1 % 256 + 256 * x2 && x2 == x2 % 256 + 256 * x3;
    hide U32Bytes, U32Value;
    Assemble(x % 256, x1 % 256, x2 % 256, x3);
    BytesAre(x);
  }

  lemma TwoDigits(x: nat)
    ensures x / 65536 == x / 256 / 256
  {
    var q := x / 256;
    var p, s, r := q / 256, q % 256, x % 256;
    assert x == 65536 * p + (256 * s + r);
  }

  lemma ThreeDigits(x: nat)
    ensures x / 16777216 == x / 65536 / 256
  {
    var q := x / 65536;
    var p, s, r := q / 256, q % 256, x % 65536;
    assert x == 16777216 * p + (65536 * s + r);
  }

  lemma Assemble(a: Byte, b: Byte, c: Byte, d: Byte)
    ensures U32Value([a, b, c, d]) == a + 256 * (b + 256 * (c + 256 * d))
  {
  }

  lemma BytesAre(x: U32)
    ensures U32Bytes(x) == [x % 256, x / 256 % 256, x / 65536 % 256, x / 16777216]
  {
  }

  lemma Digit(low: nat, high: nat)
    requires low < 256
    ensures (low + 256 * high) % 256 == low && (low + 256 * high) / 256 == high
  {
  }

  lemma U32Exact(b: Bytes)
    requires |b| == 4
    ensures U32Bytes(U32Value(b)) == b
  {
    var x := U32Value(b);
    var x2: nat := b[2] as int + 256 * (b[3] as int);
    var x1: nat := b[1] as int + 256 * x2;
    Digit(b[2], b[3]);
    Digit(b[1], x2);
    Digit(b[0], x1);
    assert x == b[0] as int + 256 * x1;
    assert x / 65536 == x / 256 / 256 && x / 16777216 == x / 256 / 256 / 256;
  }

  function U64Bytes(x: U64): (b: Bytes)
    ensures |b| == 8
  {
    U32Bytes(x % WORD) + U32Bytes(x / WORD)
  }

  function ParseU32(b: Bytes): Parsed<U32> {
    if |b| < 4 then Bad else Good(U32Value(b[..4]), b[4..])
  }

  function ParseU64(b: Bytes): Parsed<U64> {
    if |b| < 8 then Bad else Good(U32Value(b[..4]) + WORD * U32Value(b[4..8]), b[8..])
  }

  lemma ParseU32Round(x: U32, rest: Bytes)
    ensures ParseU32(U32Bytes(x) + rest) == Good(x, rest)
  {
    U32Round(x);
    assert (U32Bytes(x) + rest)[..4] == U32Bytes(x);
  }

  lemma ParseU32Exact(b: Bytes)
    ensures ParseU32(b).Good? ==> b == U32Bytes(ParseU32(b).value) + ParseU32(b).rest
  {
    if |b| >= 4 {
      U32Exact(b[..4]);
    }
  }

  lemma ParseU64Round(x: U64, rest: Bytes)
    ensures ParseU64(U64Bytes(x) + rest) == Good(x, rest)
  {
    hide U32Bytes, U32Value;
    var b := U64Bytes(x) + rest;
    U32Round(x % WORD);
    U32Round(x / WORD);
    assert b[..4] == U32Bytes(x % WORD);
    assert b[4..8] == U32Bytes(x / WORD);
    assert b[8..] == rest;
  }

  lemma ParseU64Exact(b: Bytes)
    ensures ParseU64(b).Good? ==> b == U64Bytes(ParseU64(b).value) + ParseU64(b).rest
  {
    hide U32Bytes, U32Value;
    if |b| >= 8 {
      var lo, hi := U32Value(b[..4]), U32Value(b[4..8]);
      U32Exact(b[..4]);
      U32Exact(b[4..8]);
      assert (lo + WORD * hi) % WORD == lo && (lo + WORD * hi) / WORD == hi;
      assert b == b[..4] + b[4..8] + b[8..];
    }
  }

  // ---- strings ----

  /** A C string: no inner terminator. */
  predicate CString(s: Bytes) {
    forall i :: 0 <= i < |s| ==> s[i] != 0
  }

  predicate Storable(s: Bytes) {
    CString(s) && |s| <= MAX_STRING_BYTES
  }

  function StringBytes(s: Bytes): Bytes
    requires |s| < WORD
  {
    U32Bytes(|s|) + (s + [0])
  }

  function TakeString(length: U32, b: Bytes): Parsed<Bytes> {
    if length > MAX_STRING_BYTES || length + 1 > |b| || b[length] != 0 || !CString(b[..length]) then Bad
    else Good(b[..length], b[length + 1..])
  }

  function ParseString(b: Bytes): Parsed<Bytes> {
    var n := ParseU32(b);
    if n.Bad? then Bad else TakeString(n.value, n.rest)
  }

  lemma StringRound(s: Bytes, rest: Bytes)
    requires Storable(s)
    ensures ParseString(StringBytes(s) + rest) == Good(s, rest)
  {
    hide U32Bytes, ParseU32;
    var body := s + [0] + rest;
    assert StringBytes(s) + rest == U32Bytes(|s|) + body;
    ParseU32Round(|s|, body);
    assert body[..|s|] == s && body[|s| + 1..] == rest;
  }

  lemma StringExact(b: Bytes)
    requires ParseString(b).Good?
    ensures Storable(ParseString(b).value)
    ensures b == StringBytes(ParseString(b).value) + ParseString(b).rest
  {
    hide U32Bytes, ParseU32;
    ParseU32Exact(b);
    var n := ParseU32(b);
    assert n.rest == n.rest[..n.value] + [0] + n.rest[n.value + 1..];
  }

  // ---- vectors ----

  predicate AllStorable(ss: seq<Bytes>) {
    forall i :: 0 <= i < |ss| ==> Storable(ss[i])
  }

  function StringsBytes(ss: seq<Bytes>): Bytes
    requires AllStorable(ss)
  {
    if ss == [] then [] else StringBytes(ss[0]) + StringsBytes(ss[1..])
  }

  function ParseStrings(n: nat, b: Bytes): Parsed<seq<Bytes>> {
    if n == 0 then Good([], b)
    else
      var first := ParseString(b);
      if first.Bad? then Bad
      else
        var more := ParseStrings(n - 1, first.rest);
        if more.Bad? then Bad else Good([first.value] + more.value, more.rest)
  }

  lemma {:induction false} StringsRound(ss: seq<Bytes>, rest: Bytes)
    requires AllStorable(ss)
    ensures ParseStrings(|ss|, StringsBytes(ss) + rest) == Good(ss, rest)
  {
    hide StringBytes, ParseString;
    if ss != [] {
      assert StringsBytes(ss) + rest == StringBytes(ss[0]) + (StringsBytes(ss[1..]) + rest);
      StringRound(ss[0], StringsBytes(ss[1..]) + rest);
      StringsRound(ss[1..], rest);
      assert [ss[0]] + ss[1..] == ss;
    } else {
      assert StringsBytes(ss) + rest == rest;
    }
  }

  lemma {:induction false} StringsExact(n: nat, b: Bytes)
    requires ParseStrings(n, b).Good?
    ensures |ParseStrings(n, b).value| == n && AllStorable(ParseStrings(n, b).value)
    ensures b == StringsBytes(ParseStrings(n, b).value) + ParseStrings(n, b).rest
  {
    hide StringBytes, ParseString;
    if n > 0 {
      var first := ParseString(b);
      StringExact(b);
      StringsExact(n - 1, first.rest);
      var ss := ParseStrings(n, b).value;
      assert ss[1..] == ParseStrings(n - 1, first.rest).value;
      assert b == StringBytes(ss[0]) + (StringsBytes(ss[1..]) + ParseStrings(n, b).rest);
    }
  }

  // ---- optional strings ----

  function OptionBytes(o: Option<Bytes>): Bytes
    requires o.Some? ==> Storable(o.value)
  {
    if o.Some? then StringBytes(o.value) else []
  }

  predicate OptionsStorable(os: seq<Option<Bytes>>) {
    forall i :: 0 <= i < |os| && os[i].Some? ==> Storable(os[i].value)
  }

  function OptionsBytes(os: seq<Option<Bytes>>): Bytes
    requires OptionsStorable(os)
  {
    if os == [] then [] else OptionBytes(os[0]) + OptionsBytes(os[1..])
  }

  function ParseOption(present: bool, b: Bytes): Parsed<Option<Bytes>> {
    if !present then Good(None, b)
    else
      var s := ParseString(b);
      if s.Bad? then Bad else Good(Some(s.value), s.rest)
  }

  function ParseOptions(present: seq<bool>, b: Bytes): (r: Parsed<seq<Option<Bytes>>>)
    ensures r.Good? ==> |r.value| == |present|
  {
    if present == [] then Good([], b)
    else
      var first := ParseOption(present[0], b);
      if first.Bad? then Bad
      else
        var more := ParseOptions(present[1..], first.rest);
        if more.Bad? then Bad else Good([first.value] + more.value, more.rest)
  }

  function Present(os: seq<Option<Bytes>>): (present: seq<bool>)
    ensures |present| == |os|
    ensures forall i :: 0 <= i < |os| ==> present[i] == os[i].Some?
  {
    if os == [] then [] else [os[0].Some?] + Present(os[1..])
  }

  lemma {:induction false} OptionsRound(os: seq<Option<Bytes>>, rest: Bytes)
    requires OptionsStorable(os)
    ensures ParseOptions(Present(os), OptionsBytes(os) + rest) == Good(os, rest)
  {
    hide StringBytes, ParseString;
    if os != [] {
      var tail := OptionsBytes(os[1..]) + rest;
      assert OptionsBytes(os) + rest == OptionBytes(os[0]) + tail;
      if os[0].Some? {
        StringRound(os[0].value, tail);
      } else {
        assert OptionBytes(os[0]) + tail == tail;
      }
      assert Present(os)[1..] == Present(os[1..]);
      OptionsRound(os[1..], rest);
      assert [os[0]] + os[1..] == os;
    } else {
      assert OptionsBytes(os) + rest == rest;
    }
  }

  lemma OptionExact(present: bool, b: Bytes)
    requires ParseOption(present, b).Good?
    ensures
      var o := ParseOption(present, b).value;
      && o.Some? == present && (o.Some? ==> Storable(o.value))
      && b == OptionBytes(o) + ParseOption(present, b).rest
  {
    hide StringBytes, ParseString;
    if present {
      StringExact(b);
    }
  }

  lemma OptionsStep(o: Option<Bytes>, os: seq<Option<Bytes>>, rest: Bytes)
    requires OptionsStorable(os) && (o.Some? ==> Storable(o.value))
    ensures OptionsStorable([o] + os) && Present([o] + os) == [o.Some?] + Present(os)
    ensures OptionsBytes([o] + os) + rest == OptionBytes(o) + (OptionsBytes(os) + rest)
  {
    hide OptionBytes, Storable;
    assert ([o] + os)[1..] == os;
  }

  lemma {:induction false} OptionsExact(present: seq<bool>, b: Bytes)
    requires ParseOptions(present, b).Good?
    ensures
      var os := ParseOptions(present, b).value;
      && OptionsStorable(os) && Present(os) == present
      && b == OptionsBytes(os) + ParseOptions(present, b).rest
  {
    if present != [] {
      hide OptionBytes, ParseOption, Storable, OptionsBytes, Present;
      OptionExact(present[0], b);
      var first := ParseOption(present[0], b);
      OptionsExact(present[1..], first.rest);
      var more := ParseOptions(present[1..], first.rest);
      OptionsStep(first.value, more.value, more.rest);
      assert present == [present[0]] + present[1..];
    }
  }

  // ---- resource limits and system call rules ----

  datatype Rlimit = Rlimit(resource: Int32, soft: U64, hard: U64)

  function RlimitBytes(r: Rlimit): (b: Bytes)
    ensures |b| == 20
  {
    U32Bytes(AsU32(r.resource)) + (U64Bytes(r.soft) + U64Bytes(r.hard))
  }

  function RlimitsBytes(rs: seq<Rlimit>): Bytes {
    if rs == [] then [] else RlimitBytes(rs[0]) + RlimitsBytes(rs[1..])
  }

  function ParseRlimit(b: Bytes): Parsed<Rlimit> {
    var resource := ParseU32(b);
    if resource.Bad? then Bad else
    var soft := ParseU64(resource.rest);
    if soft.Bad? then Bad else
    var hard := ParseU64(soft.rest);
    if hard.Bad? then Bad else Good(Rlimit(AsInt32(resource.value), soft.value, hard.value), hard.rest)
  }

  function ParseRlimits(n: nat, b: Bytes): Parsed<seq<Rlimit>> {
    if n == 0 then Good([], b)
    else
      var first := ParseRlimit(b);
      if first.Bad? then Bad
      else
        var more := ParseRlimits(n - 1, first.rest);
        if more.Bad? then Bad else Good([first.value] + more.value, more.rest)
  }

  lemma RlimitRound(r: Rlimit, rest: Bytes)
    ensures ParseRlimit(RlimitBytes(r) + rest) == Good(r, rest)
  {
    hide U32Bytes, U64Bytes, ParseU32, ParseU64;
    var tail := U64Bytes(r.hard) + rest;
    assert RlimitBytes(r) + rest == U32Bytes(AsU32(r.resource)) + (U64Bytes(r.soft) + tail);
    ParseU32Round(AsU32(r.resource), U64Bytes(r.soft) + tail);
    ParseU64Round(r.soft, tail);
    ParseU64Round(r.hard, rest);
  }

  lemma RlimitExact(b: Bytes)
    requires ParseRlimit(b).Good?
    ensures b == RlimitBytes(ParseRlimit(b).value) + ParseRlimit(b).rest
  {
    hide U32Bytes, U64Bytes, ParseU32, ParseU64;
    ParseU32Exact(b);
    var resource := ParseU32(b);
    ParseU64Exact(resource.rest);
    var soft := ParseU64(resource.rest);
    ParseU64Exact(soft.rest);
  }

  lemma {:induction false} RlimitsRound(rs: seq<Rlimit>, rest: Bytes)
    ensures ParseRlimits(|rs|, RlimitsBytes(rs) + rest) == Good(rs, rest)
  {
    hide RlimitBytes, ParseRlimit;
    if rs != [] {
      assert RlimitsBytes(rs) + rest == RlimitBytes(rs[0]) + (RlimitsBytes(rs[1..]) + rest);
      RlimitRound(rs[0], RlimitsBytes(rs[1..]) + rest);
      RlimitsRound(rs[1..], rest);
      assert [rs[0]] + rs[1..] == rs;
    } else {
      assert RlimitsBytes(rs) + rest == rest;
    }
  }

  lemma {:induction false} RlimitsExact(n: nat, b: Bytes)
    requires ParseRlimits(n, b).Good?
    ensures |ParseRlimits(n, b).value| == n
    ensures b == RlimitsBytes(ParseRlimits(n, b).value) + ParseRlimits(n, b).rest
  {
    hide RlimitBytes, ParseRlimit;
    if n > 0 {
      var first := ParseRlimit(b);
      RlimitExact(b);
      RlimitsExact(n - 1, first.rest);
      var rs := ParseRlimits(n, b).value;
      assert rs[1..] == ParseRlimits(n - 1, first.rest).value;
      assert b == RlimitBytes(rs[0]) + (RlimitsBytes(rs[1..]) + ParseRlimits(n, b).rest);
    }
  }

  function RuleBytes(r: Rule): (b: Bytes)
    ensures |b| == 8
  {
    U32Bytes(AsU32(r.nr)) + U32Bytes(r.action)
  }

  function RulesBytes(rs: seq<Rule>): Bytes {
    if rs == [] then [] else RuleBytes(rs[0]) + RulesBytes(rs[1..])
  }

  function ParseRule(b: Bytes): Parsed<Rule> {
    var nr := ParseU32(b);
    if nr.Bad? then Bad else
    var action := ParseU32(nr.rest);
    if action.Bad? then Bad else Good(Rule(AsInt32(nr.value), action.value), action.rest)
  }

  function ParseRules(n: nat, b: Bytes): Parsed<seq<Rule>> {
    if n == 0 then Good([], b)
    else
      var first := ParseRule(b);
      if first.Bad? then Bad
      else
        var more := ParseRules(n - 1, first.rest);
        if more.Bad? then Bad else Good([first.value] + more.value, more.rest)
  }

  lemma {:induction false} RulesRound(rs: seq<Rule>, rest: Bytes)
    ensures ParseRules(|rs|, RulesBytes(rs) + rest) == Good(rs, rest)
  {
    hide U32Bytes, ParseU32;
    if rs != [] {
      var tail := RulesBytes(rs[1..]) + rest;
      assert RulesBytes(rs) + rest == U32Bytes(AsU32(rs[0].nr)) + (U32Bytes(rs[0].action) + tail);
      ParseU32Round(AsU32(rs[0].nr), U32Bytes(rs[0].action) + tail);
      ParseU32Round(rs[0].action, tail);
      RulesRound(rs[1..], rest);
      assert [rs[0]] + rs[1..] == rs;
    } else {
      assert RulesBytes(rs) + rest == rest;
    }
  }

  lemma {:induction false} RulesExact(n: nat, b: Bytes)
    requires ParseRules(n, b).Good?
    ensures |ParseRules(n, b).value| == n
    ensures b == RulesBytes(ParseRules(n, b).value) + ParseRules(n, b).rest
  {
    hide U32Bytes, ParseU32;
    if n > 0 {
      ParseU32Exact(b);
      ParseU32Exact(ParseU32(b).rest);
      var first := ParseRule(b);
      RulesExact(n - 1, first.rest);
      var rs := ParseRules(n, b).value;
      assert rs[1..] == ParseRules(n - 1, first.rest).value;
      assert b == RuleBytes(rs[0]) + (RulesBytes(rs[1..]) + ParseRules(n, b).rest);
    }
  }
}
