/** Spawn requests: what the manager asks for, its encoding (ffi/spawn.c) and the
    helper's decoding (ffi/spawn_helper.c). */
module WireRequest {
  import opened Basics
  import opened Errno
  import opened WireFormat
  import opened WireHeader

  /** The sandbox switches, C ints on both sides. */
  datatype SandboxInts = SandboxInts(
    noNewPrivs: Int32, privateTmp: Int32, privateDevices: Int32, privateNetwork: Int32, privateMounts: Int32,
    protectSystem: Int32, protectHome: Int32, protectKernelTunables: Int32, protectKernelModules: Int32,
    protectKernelLogs: Int32, protectClock: Int32, protectControlGroups: Int32, restrictSuidSgid: Int32,
    restrictRealtime: Int32, restrictNamespaces: Int32, memoryDenyWriteExecute: Int32,
    syscallFilterEnabled: Int32, restrictNativeSyscalls: Int32)

  function ToWords(s: SandboxInts): SandboxWords {
    SandboxWords(
      AsU32(s.noNewPrivs), AsU32(s.privateTmp), AsU32(s.privateDevices), AsU32(s.privateNetwork),
      AsU32(s.privateMounts), AsU32(s.protectSystem), AsU32(s.protectHome), AsU32(s.protectKernelTunables),
      AsU32(s.protectKernelModules), AsU32(s.protectKernelLogs), AsU32(s.protectClock),
      AsU32(s.protectControlGroups), AsU32(s.restrictSuidSgid), AsU32(s.restrictRealtime),
      AsU32(s.restrictNamespaces), AsU32(s.memoryDenyWriteExecute), AsU32(s.syscallFilterEnabled),
      AsU32(s.restrictNativeSyscalls))
  }

  function ToInts(w: SandboxWords): SandboxInts {
    SandboxInts(
      AsInt32(w.noNewPrivs), AsInt32(w.privateTmp), AsInt32(w.privateDevices), AsInt32(w.privateNetwork),
      AsInt32(w.privateMounts), AsInt32(w.protectSystem), AsInt32(w.protectHome),
      AsInt32(w.protectKernelTunables), AsInt32(w.protectKernelModules), AsInt32(w.protectKernelLogs),
      AsInt32(w.protectClock), AsInt32(w.protectControlGroups), AsInt32(w.restrictSuidSgid),
      AsInt32(w.restrictRealtime), AsInt32(w.restrictNamespaces), AsInt32(w.memoryDenyWriteExecute),
      AsInt32(w.syscallFilterEnabled), AsInt32(w.restrictNativeSyscalls))
  }

  lemma IntsRound(s: SandboxInts)
    ensures ToInts(ToWords(s)) == s
  {
  }

  datatype Sandbox = Sandbox(ints: SandboxInts, defaultAction: U32, rules: seq<Rule>, paths: seq<Bytes>)

  datatype SandboxParams = SandboxParams(
    ints: SandboxInts, defaultAction: U32, rules: CArray<Rule>, paths: CArray<Bytes>)

  /** The caller's parameters; `None` is a null pointer. */
  datatype Params = Params(
    path: Option<Bytes>, argv: Option<seq<Bytes>>, env: Option<seq<Bytes>>,
    cwd: Option<Bytes>, cgroup: Option<Bytes>, selinux: Option<Bytes>, apparmor: Option<Bytes>,
    selinuxIgnore: bool, apparmorIgnore: bool, waitForExec: bool, ttyForce: bool,
    uid: U32, gid: U32, capBoundingSet: U64, ambientCaps: U64, watchdogUsec: U64,
    rlimits: CArray<Rlimit>, listen: CArray<Int32>, stdin: Int32, stdout: Int32, stderr: Int32, notifyFd: Int32,
    idleRead: Int32, idleWrite: Int32, sandbox: Option<SandboxParams>)

  // ---- validation ----

  const MINUS: Byte := 45
  const SLASH: Byte := 47

  predicate Long(s: Option<Bytes>) {
    s.Some? && |s.value| > MAX_STRING_BYTES
  }

  predicate SomeLong(ss: seq<Bytes>) {
    exists i :: 0 <= i < |ss| && |ss[i]| > MAX_STRING_BYTES
  }

  predicate IsAssignment(s: Bytes) {
    EQUALS in s && s[0] != EQUALS
  }

  /** An absolute path, optionally marked with a minus sign. */
  predicate ValidReadWritePath(s: Bytes) {
    s != [] && var path := if s[0] == MINUS then s[1..] else s; path != [] && path[0] == SLASH
  }

  predicate AllValidPaths(ss: seq<Bytes>) {
    forall i :: 0 <= i < |ss| ==> ValidReadWritePath(ss[i])
  }

  predicate TooBig(p: Params) {
    || Long(p.path) || Long(p.cwd) || Long(p.cgroup) || Long(p.selinux) || Long(p.apparmor)
    || (p.argv.Some? && (SomeLong(p.argv.value) || |p.argv.value| > MAX_ARGV))
    || (p.env.Some? && (SomeLong(p.env.value) || |p.env.value| > MAX_ENV))
    || Count(p.rlimits) > MAX_RLIMITS || Count(p.listen) > MAX_LISTEN_FDS
    || (p.sandbox.Some? &&
        (Count(p.sandbox.value.rules) > MAX_SECCOMP_RULES || Count(p.sandbox.value.paths) > MAX_READ_WRITE_PATHS
         || SomeLong(Contents(p.sandbox.value.paths))))
  }

  /** A positive count with no array behind it. */
  predicate Dangling<T>(a: CArray<T>) {
    a.NoItems? && a.count > 0
  }

  predicate Malformed(p: Params) {
    || p.path.None? || p.path.value == [] || p.argv.None? || p.argv.value == []
    || (p.env.Some? && exists i :: 0 <= i < |p.env.value| && !IsAssignment(p.env.value[i]))
    || ((p.idleRead >= 0) != (p.idleWrite >= 0))
    || Dangling(p.rlimits) || Dangling(p.listen) || Count(p.listen) < 0
    || (p.sandbox.Some? &&
        (Dangling(p.sandbox.value.rules) || Dangling(p.sandbox.value.paths)
         || !AllValidPaths(Contents(p.sandbox.value.paths))))
  }

  predicate BadDescriptor(p: Params) {
    || (exists i :: 0 <= i < |Contents(p.listen)| && Contents(p.listen)[i] < 0)
    || p.stdin < -1 || p.stdout < -1 || p.stderr < -1 || p.notifyFd < -1
  }

  predicate ValidParams(p: Params) {
    !TooBig(p) && !Malformed(p) && !BadDescriptor(p)
  }

  predicate AllCStrings(ss: seq<Bytes>) {
    forall i :: 0 <= i < |ss| ==> CString(ss[i])
  }

  predicate OptionCString(s: Option<Bytes>) {
    s.Some? ==> CString(s.value)
  }

  /** All strings come from C: none holds a terminator. */
  predicate CStrings(p: Params) {
    && OptionCString(p.path) && OptionCString(p.cwd) && OptionCString(p.cgroup)
    && OptionCString(p.selinux) && OptionCString(p.apparmor)
    && (p.argv.Some? ==> AllCStrings(p.argv.value))
    && (p.env.Some? ==> AllCStrings(p.env.value))
    && (p.sandbox.Some? ==> AllCStrings(Contents(p.sandbox.value.paths)))
  }

  // ---- encoding ----

  datatype Payload = Payload(
    path: Bytes, argv: seq<Bytes>, env: seq<Bytes>, options: seq<Option<Bytes>>, paths: seq<Bytes>,
    rlimits: seq<Rlimit>, rules: seq<Rule>)

  predicate PayloadStorable(q: Payload) {
    Storable(q.path) && AllStorable(q.argv) && AllStorable(q.env) && OptionsStorable(q.options) && AllStorable(q.paths)
  }

  function TailBytes(q: Payload): Bytes
    requires PayloadStorable(q)
  {
    OptionsBytes(q.options) + (StringsBytes(q.paths) + (RlimitsBytes(q.rlimits) + RulesBytes(q.rules)))
  }

  function PayloadBytes(q: Payload): Bytes
    requires PayloadStorable(q)
  {
    StringBytes(q.path) + (StringsBytes(q.argv) + (StringsBytes(q.env) + TailBytes(q)))
  }

  /** Empty working directories and control groups count as absent. */
  function NonEmpty(s: Option<Bytes>): Option<Bytes> {
    if s.Some? && s.value == [] then None else s
  }

  function FlagBits(p: Params, notify: Option<Bytes>): (bits: seq<bool>)
    ensures |bits| == N_FLAGS
  {
    [p.waitForExec, p.env.Some?, p.sandbox.Some?, p.idleRead >= 0, NonEmpty(p.cwd).Some?, NonEmpty(p.cgroup).Some?,
     p.selinux.Some?, p.apparmor.Some?, p.selinuxIgnore, p.apparmorIgnore, notify.Some?, p.ttyForce]
  }

  function PayloadOf(p: Params, notify: Option<Bytes>): Payload
    requires ValidParams(p)
  {
    Payload(p.path.value, p.argv.value, if p.env.Some? then p.env.value else [],
            [NonEmpty(p.cwd), NonEmpty(p.cgroup), p.selinux, p.apparmor, notify],
            if p.sandbox.Some? then Contents(p.sandbox.value.paths) else [], Contents(p.rlimits),
            if p.sandbox.Some? then Contents(p.sandbox.value.rules) else [])
  }

  const NO_SANDBOX := SandboxWords(0, 0, 0, 0, 0, 0, 0, 0, 0, 0, 0, 0, 0, 0, 0, 0, 0, 0)

  function HeaderOf(p: Params, notify: Option<Bytes>, total: U32): Header
    requires ValidParams(p)
  {
    var q := PayloadOf(p, notify);
    FlagsFit(FlagBits(p, notify));
    Header(WIRE_MAGIC, WIRE_VERSION, HEADER_BYTES, total, FromBits(FlagBits(p, notify)),
           |q.argv|, |q.env|, |q.rlimits|, |Contents(p.listen)|, |q.rules|, |q.paths|,
           if p.sandbox.Some? then p.sandbox.value.defaultAction else 0, p.uid, p.gid,
           if p.sandbox.Some? then ToWords(p.sandbox.value.ints) else NO_SANDBOX, 0,
           p.capBoundingSet, p.ambientCaps, p.watchdogUsec)
  }

  predicate NotifyOk(notify: Option<Bytes>) {
    notify.Some? ==> Storable(notify.value)
  }

  lemma ShortIsStorable(ss: seq<Bytes>)
    requires !SomeLong(ss) && AllCStrings(ss)
    ensures AllStorable(ss)
  {
    hide CString;
  }

  lemma EmptyIsShort()
    ensures !SomeLong([]) && AllCStrings([])
  {
  }

  lemma PayloadIsStorable(p: Params, notify: Option<Bytes>)
    requires ValidParams(p) && CStrings(p) && NotifyOk(notify)
    ensures PayloadStorable(PayloadOf(p, notify))
  {
    hide BadDescriptor, CString, SomeLong, AllCStrings, AllStorable, AllValidPaths, IsAssignment;
    var q := PayloadOf(p, notify);
    ShortIsStorable(q.argv);
    EmptyIsShort();
    ShortIsStorable(q.env);
    ShortIsStorable(q.paths);
    forall i | 0 <= i < |q.options| && q.options[i].Some?
      ensures Storable(q.options[i].value)
    {
      assert i == 0 || i == 1 || i == 2 || i == 3 || i == 4;
    }
  }

  function Encode(p: Params, notify: Option<Bytes>, total: U32): (b: Bytes)
    requires ValidParams(p) && PayloadStorable(PayloadOf(p, notify))
    ensures |b| == HEADER_BYTES + |PayloadBytes(PayloadOf(p, notify))|
  {
    HeaderBytes(HeaderOf(p, notify, total), [0, 0, 0, 0]) + PayloadBytes(PayloadOf(p, notify))
  }

  // ---- decoding ----

  datatype Shape = Shape(nArgv: nat, nEnv: nat, present: seq<bool>, nPaths: nat, nRlimits: nat, nRules: nat)

  datatype Tail = Tail(options: seq<Option<Bytes>>, paths: seq<Bytes>, rlimits: seq<Rlimit>, rules: seq<Rule>)

  function ParseTail(s: Shape, b: Bytes): Parsed<Tail> {
    var options := ParseOptions(s.present, b);
    if options.Bad? then Bad else
    var paths := ParseStrings(s.nPaths, options.rest);
    if paths.Bad? then Bad else
    var rlimits := ParseRlimits(s.nRlimits, paths.rest);
    if rlimits.Bad? then Bad else
    var rules := ParseRules(s.nRules, rlimits.rest);
    if rules.Bad? then Bad else Good(Tail(options.value, paths.value, rlimits.value, rules.value), rules.rest)
  }

  function ParsePayload(s: Shape, b: Bytes): Parsed<Payload> {
    var path := ParseString(b);
    if path.Bad? then Bad else
    var argv := ParseStrings(s.nArgv, path.rest);
    if argv.Bad? then Bad else
    var env := ParseStrings(s.nEnv, argv.rest);
    if env.Bad? then Bad else
    var tail := ParseTail(s, env.rest);
    if tail.Bad? then Bad else
    Good(Payload(path.value, argv.value, env.value, tail.value.options, tail.value.paths, tail.value.rlimits,
                 tail.value.rules), tail.rest)
  }

  function ShapeOf(q: Payload): Shape {
    Shape(|q.argv|, |q.env|, Present(q.options), |q.paths|, |q.rlimits|, |q.rules|)
  }

  lemma TailRound(q: Payload, rest: Bytes)
    requires PayloadStorable(q)
    ensures ParseTail(ShapeOf(q), TailBytes(q) + rest) == Good(Tail(q.options, q.paths, q.rlimits, q.rules), rest)
  {
    hide ParseOptions, ParseStrings, ParseRlimits, ParseRules, OptionsBytes, StringsBytes, RlimitsBytes, RulesBytes, Present,
         Storable;
    var b3 := RulesBytes(q.rules) + rest;
    var b2 := RlimitsBytes(q.rlimits) + b3;
    var b1 := StringsBytes(q.paths) + b2;
    assert TailBytes(q) + rest == OptionsBytes(q.options) + b1;
    OptionsRound(q.options, b1);
    StringsRound(q.paths, b2);
    RlimitsRound(q.rlimits, b3);
    RulesRound(q.rules, rest);
  }

  lemma PayloadRound(q: Payload, rest: Bytes)
    requires PayloadStorable(q)
    ensures ParsePayload(ShapeOf(q), PayloadBytes(q) + rest) == Good(q, rest)
  {
    hide ParseString, ParseStrings, ParseTail, StringBytes, StringsBytes, TailBytes, CString;
    var b2 := TailBytes(q) + rest;
    var b1 := StringsBytes(q.env) + b2;
    assert PayloadBytes(q) + rest == StringBytes(q.path) + (StringsBytes(q.argv) + b1);
    StringRound(q.path, StringsBytes(q.argv) + b1);
    StringsRound(q.argv, b1);
    StringsRound(q.env, b2);
    TailRound(q, rest);
  }

  lemma TailExact(s: Shape, b: Bytes, q: Payload)
    requires ParseTail(s, b).Good?
    requires
      var t := ParseTail(s, b).value;
      q.options == t.options && q.paths == t.paths && q.rlimits == t.rlimits && q.rules == t.rules
    requires Storable(q.path) && AllStorable(q.argv) && AllStorable(q.env)
    ensures PayloadStorable(q) && b == TailBytes(q) + ParseTail(s, b).rest
    ensures Present(q.options) == s.present && |q.paths| == s.nPaths && |q.rlimits| == s.nRlimits && |q.rules| == s.nRules
  {
    hide ParseOptions, ParseStrings, ParseRlimits, ParseRules, OptionsBytes, StringsBytes, RlimitsBytes, RulesBytes, Present,
         Storable;
    OptionsExact(s.present, b);
    var options := ParseOptions(s.present, b);
    StringsExact(s.nPaths, options.rest);
    var paths := ParseStrings(s.nPaths, options.rest);
    RlimitsExact(s.nRlimits, paths.rest);
    var rlimits := ParseRlimits(s.nRlimits, paths.rest);
    RulesExact(s.nRules, rlimits.rest);
  }

  /** Whatever is accepted is the encoding of what is returned. */
  lemma PayloadExact(s: Shape, b: Bytes)
    requires ParsePayload(s, b).Good?
    ensures
      var q := ParsePayload(s, b).value;
      PayloadStorable(q) && ShapeOf(q) == s && b == PayloadBytes(q) + ParsePayload(s, b).rest
  {
    hide ParseString, ParseStrings, ParseTail, StringBytes, StringsBytes, TailBytes, Storable, Present;
    StringExact(b);
    var path := ParseString(b);
    StringsExact(s.nArgv, path.rest);
    var argv := ParseStrings(s.nArgv, path.rest);
    StringsExact(s.nEnv, argv.rest);
    var env := ParseStrings(s.nEnv, argv.rest);
    TailExact(s, env.rest, ParsePayload(s, b).value);
  }

  /** What the helper acts on. */
  datatype Request = Request(
    header: Header, path: Bytes, argv: seq<Bytes>, env: Option<seq<Bytes>>,
    cwd: Option<Bytes>, cgroup: Option<Bytes>, selinux: Option<Bytes>, apparmor: Option<Bytes>, notify: Option<Bytes>,
    rlimits: seq<Rlimit>, sandbox: Sandbox)

  datatype Decoded = Ok(request: Request) | Error(errno: int)

  function HeaderShape(h: Header): (s: Shape)
    ensures |s.present| == 5
  {
    Shape(h.nArgv, if Bit(h.flags, HAS_ENVIRONMENT) then h.nEnv else 0,
          [Bit(h.flags, HAS_CWD), Bit(h.flags, HAS_CGROUP), Bit(h.flags, HAS_SELINUX), Bit(h.flags, HAS_APPARMOR),
           Bit(h.flags, HAS_NOTIFY_SOCKET)],
          h.nReadWritePaths, h.nRlimits, h.nSeccompRules)
  }

  function RequestFrom(h: Header, q: Payload): Request
    requires |q.options| == 5
  {
    Request(h, q.path, q.argv, if Bit(h.flags, HAS_ENVIRONMENT) then Some(q.env) else None,
            q.options[0], q.options[1], q.options[2], q.options[3], q.options[4], q.rlimits,
            Sandbox(ToInts(h.sandbox), h.seccompDefaultAction, q.rules, q.paths))
  }

  function Decode(b: Bytes): Decoded {
    if |b| < HEADER_BYTES then Error(EPROTO)
    else if |b| > MAX_REQUEST_BYTES then Error(E2BIG)
    else
      var h := ReadHeader(b);
      if !HeaderOk(h, |b|) then Error(EPROTO)
      else
        var q := ParsePayload(HeaderShape(h), b[HEADER_BYTES..]);
        if q.Bad? || q.value.path == [] || !AllValidPaths(q.value.paths) || q.rest != []
        then Error(EPROTO)
        else Ok(RequestFrom(h, q.value))
  }

  // ---- what is promised ----

  function AllZero(): SandboxInts {
    SandboxInts(0, 0, 0, 0, 0, 0, 0, 0, 0, 0, 0, 0, 0, 0, 0, 0, 0, 0)
  }

  /** The request says what the parameters say. */
  predicate Means(r: Request, p: Params, notify: Option<Bytes>)
    requires ValidParams(p)
  {
    && r.path == p.path.value && r.argv == p.argv.value && r.env == p.env
    && r.cwd == NonEmpty(p.cwd) && r.cgroup == NonEmpty(p.cgroup)
    && r.selinux == p.selinux && r.apparmor == p.apparmor && r.notify == notify
    && r.rlimits == Contents(p.rlimits)
    && r.sandbox == (if p.sandbox.None? then Sandbox(AllZero(), 0, [], [])
                     else
                       var s := p.sandbox.value;
                       Sandbox(s.ints, s.defaultAction, Contents(s.rules), Contents(s.paths)))
    && (forall i :: 0 <= i < N_FLAGS ==> Bit(r.header.flags, i) == FlagBits(p, notify)[i])
    && r.header.nListenFds == |Contents(p.listen)| && r.header.uid == p.uid && r.header.gid == p.gid
    && r.header.capBoundingSet == p.capBoundingSet && r.header.ambientCaps == p.ambientCaps
    && r.header.watchdogUsec == p.watchdogUsec
  }

  lemma HeaderOfOk(p: Params, notify: Option<Bytes>, total: U32)
    requires ValidParams(p)
    ensures HeaderOk(HeaderOf(p, notify, total), total)
  {
    hide Bit, FromBits, ToWords, TooBig, Malformed, BadDescriptor, PayloadOf;
    FlagsFit(FlagBits(p, notify));
    CountsFit(p, notify);
  }

  lemma CountsFit(p: Params, notify: Option<Bytes>)
    requires ValidParams(p)
    ensures
      var q := PayloadOf(p, notify);
      && 0 < |q.argv| <= MAX_ARGV && |q.env| <= MAX_ENV && |q.rlimits| <= MAX_RLIMITS
      && |Contents(p.listen)| <= MAX_LISTEN_FDS && |q.rules| <= MAX_SECCOMP_RULES && |q.paths| <= MAX_READ_WRITE_PATHS
      && (|q.env| > 0 ==> p.env.Some?) && (|q.paths| > 0 ==> p.sandbox.Some?)
  {
    hide IsAssignment, AllValidPaths, SomeLong, BadDescriptor, Long;
  }

  lemma HeaderOfShape(p: Params, notify: Option<Bytes>, total: U32)
    requires ValidParams(p)
    ensures HeaderShape(HeaderOf(p, notify, total)) == ShapeOf(PayloadOf(p, notify))
  {
    hide Bit, FromBits, TooBig, BadDescriptor, ToWords, NonEmpty, Present, AllValidPaths, IsAssignment;
    var bits := FlagBits(p, notify);
    FlagsFit(bits);
    FivePresent(NonEmpty(p.cwd), NonEmpty(p.cgroup), p.selinux, p.apparmor, notify);
  }

  lemma FivePresent(a: Option<Bytes>, b: Option<Bytes>, c: Option<Bytes>, d: Option<Bytes>, e: Option<Bytes>)
    ensures Present([a, b, c, d, e]) == [a.Some?, b.Some?, c.Some?, d.Some?, e.Some?]
  {
  }

  lemma RequestMeans(p: Params, notify: Option<Bytes>, total: U32)
    requires ValidParams(p)
    ensures Means(RequestFrom(HeaderOf(p, notify, total), PayloadOf(p, notify)), p, notify)
  {
    hide Bit, FromBits, TooBig, Malformed, ToWords, ToInts;
    FlagsFit(FlagBits(p, notify));
    if p.sandbox.Some? {
      IntsRound(p.sandbox.value.ints);
    } else {
      ZeroWords();
    }
  }

  lemma ZeroWords()
    ensures ToInts(NO_SANDBOX) == AllZero()
  {
  }

  /** Valid parameters, C strings, and the whole request within the limit. */
  predicate Sendable(p: Params, notify: Option<Bytes>) {
    && ValidParams(p) && CStrings(p) && NotifyOk(notify) && PayloadStorable(PayloadOf(p, notify))
    && HEADER_BYTES + |PayloadBytes(PayloadOf(p, notify))| <= MAX_REQUEST_BYTES
  }

  /** The request with its own size in the header. */
  function Blob(p: Params, notify: Option<Bytes>): Bytes
    requires Sendable(p, notify)
  {
    Encode(p, notify, HEADER_BYTES + |PayloadBytes(PayloadOf(p, notify))|)
  }

  /** Round trip: every valid parameter set that fits is accepted by the helper and
      read back as what was asked for. */
  lemma RoundTrip(p: Params, notify: Option<Bytes>)
    requires Sendable(p, notify)
    ensures Decode(Blob(p, notify)).Ok? && Means(Decode(Blob(p, notify)).request, p, notify)
  {
    hide HeaderBytes, PayloadBytes, ReadHeader, ParsePayload, HeaderShape, HeaderOk, HeaderOf, Means, TooBig, BadDescriptor,
         Storable, CStrings;
    var q := PayloadOf(p, notify);
    var total: U32 := HEADER_BYTES + |PayloadBytes(q)|;
    var h := HeaderOf(p, notify, total);
    var b := Encode(p, notify, total);
    HeaderRound(h, [0, 0, 0, 0], PayloadBytes(q));
    HeaderOfOk(p, notify, total);
    HeaderOfShape(p, notify, total);
    PayloadRound(q, []);
    assert b[HEADER_BYTES..] == PayloadBytes(q) + [];
    RequestMeans(p, notify, total);
  }

  function PayloadFrom(r: Request): Payload {
    Payload(r.path, r.argv, if r.env.Some? then r.env.value else [], [r.cwd, r.cgroup, r.selinux, r.apparmor, r.notify],
            r.sandbox.paths, r.rlimits, r.sandbox.rules)
  }

  /** Only exact encodings are accepted: a blob that decodes is its header followed
      by the encoding of the request, to the last byte. */
  lemma DecodeExact(b: Bytes)
    requires Decode(b).Ok?
    ensures
      var r := Decode(b).request;
      && |b| <= MAX_REQUEST_BYTES && HeaderOk(r.header, |b|) && r.path != [] && AllValidPaths(r.sandbox.paths)
      && PayloadStorable(PayloadFrom(r)) && ShapeOf(PayloadFrom(r)) == HeaderShape(r.header)
      && b == HeaderBytes(r.header, b[132..136]) + PayloadBytes(PayloadFrom(r))
  {
    hide HeaderBytes, PayloadBytes, ReadHeader, ParsePayload, HeaderOk, Storable, Bit, ToInts, AllValidPaths, Present;
    var h := ReadHeader(b);
    HeaderExact(b);
    PayloadExact(HeaderShape(h), b[HEADER_BYTES..]);
    var q := ParsePayload(HeaderShape(h), b[HEADER_BYTES..]).value;
    var r := Decode(b).request;
    assert q.options == [q.options[0], q.options[1], q.options[2], q.options[3], q.options[4]];
    assert PayloadFrom(r) == q;
    assert b == b[..HEADER_BYTES] + b[HEADER_BYTES..];
    assert b[HEADER_BYTES..] == PayloadBytes(q);
  }
}
