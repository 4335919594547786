/** The manager's request: validation, then measuring and filling (ffi/spawn.c). */
module WireSpawn {
  import opened Basics
  import opened Errno
  import opened WireFormat
  import opened WireHeader
  import opened WireRequest
  import opened WireWriter

  // ---- validation ----

  function BoundedLength(s: Option<Bytes>): int {
    if Long(s) then -E2BIG else 0
  }

  method CountVector(vector: seq<Bytes>, limit: nat) returns (r: int)
    ensures r == if SomeLong(vector) || |vector| > limit then -E2BIG else 0
  {
    var count := 0;
    while count < |vector|
      invariant count <= |vector| && count <= limit && !SomeLong(vector[..count])
    {
      if |vector[count]| > MAX_STRING_BYTES {
        return -E2BIG;
      }
      assert vector[..count + 1] == vector[..count] + [vector[count]];
      count := count + 1;
      if count > limit {
        return -E2BIG;
      }
    }
    assert vector[..|vector|] == vector;
    return 0;
  }

  method CheckEnvironment(env: seq<Bytes>) returns (r: int)
    ensures r == if exists i :: 0 <= i < |env| && !IsAssignment(env[i]) then -EINVAL else 0
  {
    for i := 0 to |env|
      invariant forall k :: 0 <= k < i ==> IsAssignment(env[k])
    {
      if !IsAssignment(env[i]) {
        return -EINVAL;
      }
    }
    return 0;
  }

  method CheckListeners(listen: seq<Int32>) returns (r: int)
    ensures r == if exists i :: 0 <= i < |listen| && listen[i] < 0 then -EBADF else 0
  {
    for i := 0 to |listen|
      invariant forall k :: 0 <= k < i ==> listen[k] >= 0
    {
      if listen[i] < 0 {
        return -EBADF;
      }
    }
    return 0;
  }

  method CheckSandbox(s: SandboxParams) returns (r: int)
    ensures r == 0 <==>
              && Count(s.rules) <= MAX_SECCOMP_RULES && Count(s.paths) <= MAX_READ_WRITE_PATHS
              && !Dangling(s.rules) && !Dangling(s.paths)
              && !SomeLong(Contents(s.paths)) && AllValidPaths(Contents(s.paths))
    ensures r == 0 ||
            (r == -EINVAL && (Dangling(s.rules) || Dangling(s.paths) || !AllValidPaths(Contents(s.paths)))) ||
            (r == -E2BIG && (Count(s.rules) > MAX_SECCOMP_RULES || Count(s.paths) > MAX_READ_WRITE_PATHS
                             || SomeLong(Contents(s.paths))))
  {
    hide ValidReadWritePath;
    if Count(s.rules) > MAX_SECCOMP_RULES {
      return -E2BIG;
    }
    if Dangling(s.rules) {
      return -EINVAL;
    }
    if Count(s.paths) > MAX_READ_WRITE_PATHS {
      return -E2BIG;
    }
    if Dangling(s.paths) {
      return -EINVAL;
    }
    var paths := Contents(s.paths);
    for i := 0 to |paths|
      invariant forall k :: 0 <= k < i ==> ValidReadWritePath(paths[k]) && |paths[k]| <= MAX_STRING_BYTES
    {
      if !ValidReadWritePath(paths[i]) {
        return -EINVAL;
      }
      if |paths[i]| > MAX_STRING_BYTES {
        return -E2BIG;
      }
    }
    return 0;
  }

  /** Zero exactly for valid parameters; the error says what is wrong. */
  method ValidateParams(p: Params) returns (r: int)
    ensures r == 0 <==> ValidParams(p)
    ensures r == 0 || (r == -E2BIG && TooBig(p)) || (r == -EINVAL && Malformed(p)) || (r == -EBADF && BadDescriptor(p))
  {
    hide SomeLong, AllValidPaths, IsAssignment;
    if p.path.None? || p.path.value == [] || p.argv.None? || p.argv.value == [] {
      return -EINVAL;
    }
    r := BoundedLength(p.path);
    if r < 0 {
      return;
    }
    r := CountVector(p.argv.value, MAX_ARGV);
    if r < 0 {
      return;
    }
    if p.env.Some? {
      r := CountVector(p.env.value, MAX_ENV);
      if r < 0 {
        return;
      }
      r := CheckEnvironment(p.env.value);
      if r < 0 {
        return;
      }
    }
    if Long(p.cwd) || Long(p.cgroup) || Long(p.selinux) || Long(p.apparmor) {
      return -E2BIG;
    }
    if Count(p.rlimits) > MAX_RLIMITS {
      return -E2BIG;
    }
    if Dangling(p.rlimits) || Count(p.listen) < 0 {
      return -EINVAL;
    }
    if Count(p.listen) > MAX_LISTEN_FDS {
      return -E2BIG;
    }
    if Dangling(p.listen) {
      return -EINVAL;
    }
    r := CheckListeners(Contents(p.listen));
    if r < 0 {
      return;
    }
    if p.stdin < -1 || p.stdout < -1 || p.stderr < -1 || p.notifyFd < -1 {
      return -EBADF;
    }
    if (p.idleRead >= 0) != (p.idleWrite >= 0) {
      return -EINVAL;
    }
    if p.sandbox.Some? {
      r := CheckSandbox(p.sandbox.value);
    }
  }

  // ---- bounds ----

  const STRING_SPACE: nat := MAX_STRING_BYTES + 5

  lemma {:induction false} StringsBound(ss: seq<Bytes>)
    requires AllStorable(ss)
    ensures |StringsBytes(ss)| <= STRING_SPACE * |ss|
  {
    hide U32Bytes, CString;
    if ss != [] {
      StringsBound(ss[1..]);
    }
  }

  lemma {:induction false} OptionsBound(os: seq<Option<Bytes>>)
    requires OptionsStorable(os)
    ensures |OptionsBytes(os)| <= STRING_SPACE * |os|
  {
    hide U32Bytes, CString;
    if os != [] {
      OptionsBound(os[1..]);
    }
  }

  lemma {:induction false} RlimitsBound(rs: seq<Rlimit>)
    ensures |RlimitsBytes(rs)| == 20 * |rs|
  {
    if rs != [] {
      RlimitsBound(rs[1..]);
    }
  }

  lemma {:induction false} RulesBound(rs: seq<Rule>)
    ensures |RulesBytes(rs)| == 8 * |rs|
  {
    if rs != [] {
      RulesBound(rs[1..]);
    }
  }

  /** Valid parameters never come near the end of the address space. */
  lemma RequestBound(p: Params, notify: Option<Bytes>)
    requires ValidParams(p) && PayloadStorable(PayloadOf(p, notify))
    ensures HEADER_BYTES + |PayloadBytes(PayloadOf(p, notify))| <= SIZE_MAX
  {
    hide SomeLong, AllValidPaths, IsAssignment, StringsBytes, OptionsBytes, RlimitsBytes, RulesBytes, CString, U32Bytes,
         BadDescriptor;
    var q := PayloadOf(p, notify);
    StringsBound(q.argv);
    StringsBound(q.env);
    OptionsBound(q.options);
    StringsBound(q.paths);
    RlimitsBound(q.rlimits);
    RulesBound(q.rules);
  }

  // ---- measure, then fill ----

  /** Zero exactly when the parameters are valid and the request fits; then the
      buffer holds the request and not a byte more. */
  method BuildRequest(p: Params, notify: Option<Bytes>) returns (r: int, blob: array?<Byte>)
    requires CStrings(p) && OptionCString(notify)
    ensures r == 0 <==> Sendable(p, notify)
    ensures r == 0 ==> blob != null && blob[..] == Blob(p, notify)
    ensures r == -EBADF ==> BadDescriptor(p)
    ensures r == -EINVAL ==> Malformed(p) || Long(notify)
    ensures r == 0 || r == -EBADF || r == -EINVAL || r == -E2BIG
  {
    hide TooBig, Malformed, BadDescriptor, CStrings, HeaderBytes, PayloadBytes, PayloadOf, HeaderOf, PayloadStorable;
    blob := null;
    r := ValidateParams(p);
    if r < 0 {
      return;
    }
    var measure := new Writer(null);
    measure.WriteRequest(p, notify, 0);
    if measure.failed {
      assert Long(notify) by {
        if !Long(notify) {
          RequestBound(p, notify);
        }
      }
      NotSendable(p, notify);
      return -EINVAL, null;
    }
    if measure.offset > MAX_REQUEST_BYTES {
      return -E2BIG, null;
    }
    var total := measure.offset;
    blob := new Byte[total];
    var fill := new Writer(blob);
    fill.WriteRequest(p, notify, total);
    assert !fill.failed && fill.offset == total;
    r := 0;
  }

  lemma NotSendable(p: Params, notify: Option<Bytes>)
    requires Long(notify)
    ensures !Sendable(p, notify)
  {
  }
}
