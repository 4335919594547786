/** The fixed header of a spawn request (ffi/spawn_wire.h) and its checks
    (ffi/spawn_helper.c). */
module WireHeader {
  import opened Basics
  import opened WireFormat

  const WIRE_MAGIC: U32 := 0x52535057
  const WIRE_VERSION: U32 := 2
  const HEADER_BYTES: nat := 160
  const MAX_REQUEST_BYTES: nat := 256 * 1024
  const MAX_ARGV: nat := 1024
  const MAX_ENV: nat := 4096
  const MAX_RLIMITS: nat := 64
  const MAX_SECCOMP_RULES: nat := 8192
  const MAX_READ_WRITE_PATHS: nat := 256

  datatype Header = Header(
    magic: U32, version: U32, headerBytes: U32, totalBytes: U32, flags: U32,
    nArgv: U32, nEnv: U32, nRlimits: U32, nListenFds: U32, nSeccompRules: U32, nReadWritePaths: U32,
    seccompDefaultAction: U32, uid: U32, gid: U32, sandbox: SandboxWords, reserved: U32,
    capBoundingSet: U64, ambientCaps: U64, watchdogUsec: U64)

  datatype SandboxWords = SandboxWords(
    noNewPrivs: U32, privateTmp: U32, privateDevices: U32, privateNetwork: U32, privateMounts: U32,
    protectSystem: U32, protectHome: U32, protectKernelTunables: U32, protectKernelModules: U32,
    protectKernelLogs: U32, protectClock: U32, protectControlGroups: U32, restrictSuidSgid: U32,
    restrictRealtime: U32, restrictNamespaces: U32, memoryDenyWriteExecute: U32,
    syscallFilterEnabled: U32, restrictNativeSyscalls: U32)

  // ---- layout ----

  function SandboxSeq(s: SandboxWords): (ws: seq<U32>)
    ensures |ws| == 18
  {
    [s.noNewPrivs, s.privateTmp, s.privateDevices, s.privateNetwork, s.privateMounts, s.protectSystem,
     s.protectHome, s.protectKernelTunables, s.protectKernelModules, s.protectKernelLogs, s.protectClock,
     s.protectControlGroups, s.restrictSuidSgid, s.restrictRealtime, s.restrictNamespaces,
     s.memoryDenyWriteExecute, s.syscallFilterEnabled, s.restrictNativeSyscalls]
  }

  function SandboxFrom(ws: seq<U32>): (s: SandboxWords)
    requires |ws| == 18
    ensures SandboxSeq(s) == ws
  {
    SandboxWords(ws[0], ws[1], ws[2], ws[3], ws[4], ws[5], ws[6], ws[7], ws[8], ws[9], ws[10], ws[11], ws[12],
                 ws[13], ws[14], ws[15], ws[16], ws[17])
  }

  /** The first fourteen words. */
  function Lead(h: Header): (ws: seq<U32>)
    ensures |ws| == 14
  {
    [h.magic, h.version, h.headerBytes, h.totalBytes, h.flags, h.nArgv, h.nEnv, h.nRlimits, h.nListenFds,
     h.nSeccompRules, h.nReadWritePaths, h.seccompDefaultAction, h.uid, h.gid]
  }

  function Words(h: Header): (ws: seq<U32>)
    ensures |ws| == 33
  {
    Lead(h) + SandboxSeq(h.sandbox) + [h.reserved]
  }

  function HeaderFrom(ws: seq<U32>, caps: U64, ambient: U64, watchdog: U64): (h: Header)
    requires |ws| == 33
    ensures Words(h) == ws && h.capBoundingSet == caps && h.ambientCaps == ambient && h.watchdogUsec == watchdog
  {
    Header(ws[0], ws[1], ws[2], ws[3], ws[4], ws[5], ws[6], ws[7], ws[8], ws[9], ws[10], ws[11], ws[12], ws[13],
           SandboxFrom(ws[14..32]), ws[32], caps, ambient, watchdog)
  }

  /** The words and the 64-bit fields determine the header. */
  lemma HeaderIsItsWords(h: Header, g: Header)
    requires Words(h) == Words(g)
    requires h.capBoundingSet == g.capBoundingSet && h.ambientCaps == g.ambientCaps && h.watchdogUsec == g.watchdogUsec
    ensures h == g
  {
    assert Lead(h) == Words(h)[..14] == Words(g)[..14] == Lead(g);
    assert SandboxSeq(h.sandbox) == Words(h)[14..32] == Words(g)[14..32] == SandboxSeq(g.sandbox);
    assert h.reserved == Words(h)[32] == Words(g)[32] == g.reserved;
    SameLead(h, g);
    SameSandbox(h.sandbox, g.sandbox);
  }

  lemma SameLead(h: Header, g: Header)
    requires Lead(h) == Lead(g)
    ensures h.magic == g.magic && h.version == g.version && h.headerBytes == g.headerBytes && h.totalBytes == g.totalBytes
    ensures h.flags == g.flags && h.nArgv == g.nArgv && h.nEnv == g.nEnv && h.nRlimits == g.nRlimits
    ensures h.nListenFds == g.nListenFds && h.nSeccompRules == g.nSeccompRules && h.nReadWritePaths == g.nReadWritePaths
    ensures h.seccompDefaultAction == g.seccompDefaultAction && h.uid == g.uid && h.gid == g.gid
  {
    assert forall i :: 0 <= i < 14 ==> Lead(h)[i] == Lead(g)[i];
    assert Lead(h)[0] == h.magic && Lead(h)[1] == h.version && Lead(h)[2] == h.headerBytes && Lead(h)[3] == h.totalBytes;
  }

  lemma SameSandbox(s: SandboxWords, t: SandboxWords)
    requires SandboxSeq(s) == SandboxSeq(t)
    ensures s == t
  {
    var a, b := SandboxSeq(s), SandboxSeq(t);
    assert a[0] == b[0] && a[1] == b[1] && a[2] == b[2] && a[3] == b[3] && a[4] == b[4] && a[5] == b[5];
    assert a[6] == b[6] && a[7] == b[7] && a[8] == b[8] && a[9] == b[9] && a[10] == b[10] && a[11] == b[11];
    assert a[12] == b[12] && a[13] == b[13] && a[14] == b[14] && a[15] == b[15] && a[16] == b[16] && a[17] == b[17];
  }

  function WordsBytes(ws: seq<U32>): (b: Bytes)
    ensures |b| == 4 * |ws|
  {
    if ws == [] then [] else U32Bytes(ws[0]) + WordsBytes(ws[1..])
  }

  function ReadWords(n: nat, b: Bytes): (ws: seq<U32>)
    requires |b| == 4 * n
    ensures |ws| == n
  {
    if n == 0 then [] else [U32Value(b[..4])] + ReadWords(n - 1, b[4..])
  }

  lemma {:induction false} WordsRound(ws: seq<U32>)
    ensures ReadWords(|ws|, WordsBytes(ws)) == ws
  {
    hide U32Bytes, U32Value;
    if ws != [] {
      U32Round(ws[0]);
      WordsRound(ws[1..]);
      assert WordsBytes(ws)[..4] == U32Bytes(ws[0]) && WordsBytes(ws)[4..] == WordsBytes(ws[1..]);
      assert [ws[0]] + ws[1..] == ws;
    }
  }

  lemma {:induction false} WordsExact(n: nat, b: Bytes)
    requires |b| == 4 * n
    ensures WordsBytes(ReadWords(n, b)) == b
  {
    hide U32Bytes, U32Value;
    if n > 0 {
      U32Exact(b[..4]);
      WordsExact(n - 1, b[4..]);
      var ws := ReadWords(n, b);
      assert ws[1..] == ReadWords(n - 1, b[4..]);
      assert b == b[..4] + b[4..];
    }
  }

  /** The words, four bytes of padding, then the 64-bit fields. */
  function HeaderBytes(h: Header, pad: Bytes): (b: Bytes)
    requires |pad| == 4
    ensures |b| == HEADER_BYTES
  {
    WordsBytes(Words(h)) + pad + (U64Bytes(h.capBoundingSet) + (U64Bytes(h.ambientCaps) + U64Bytes(h.watchdogUsec)))
  }

  function U64Value(b: Bytes): U64
    requires |b| == 8
  {
    U32Value(b[..4]) + WORD * U32Value(b[4..8])
  }

  lemma U64Round(x: U64)
    ensures U64Value(U64Bytes(x)) == x
  {
    hide U32Bytes, U32Value;
    U32Round(x % WORD);
    U32Round(x / WORD);
    assert U64Bytes(x)[..4] == U32Bytes(x % WORD) && U64Bytes(x)[4..8] == U32Bytes(x / WORD);
  }

  lemma U64Exact(b: Bytes)
    requires |b| == 8
    ensures U64Bytes(U64Value(b)) == b
  {
    hide U32Bytes, U32Value;
    var lo, hi := U32Value(b[..4]), U32Value(b[4..8]);
    U32Exact(b[..4]);
    U32Exact(b[4..8]);
    assert (lo + WORD * hi) % WORD == lo && (lo + WORD * hi) / WORD == hi;
    assert b == b[..4] + b[4..8];
  }

  function ReadHeader(b: Bytes): Header
    requires |b| >= HEADER_BYTES
  {
    HeaderFrom(ReadWords(33, b[..132]), U64Value(b[136..144]), U64Value(b[144..152]), U64Value(b[152..160]))
  }

  lemma HeaderRound(h: Header, pad: Bytes, rest: Bytes)
    requires |pad| == 4
    ensures ReadHeader(HeaderBytes(h, pad) + rest) == h
  {
    hide U64Bytes, U64Value, WordsBytes, ReadWords, Words, HeaderFrom;
    var b := HeaderBytes(h, pad) + rest;
    assert b[..132] == WordsBytes(Words(h));
    assert b[136..144] == U64Bytes(h.capBoundingSet);
    assert b[144..152] == U64Bytes(h.ambientCaps);
    assert b[152..160] == U64Bytes(h.watchdogUsec);
    WordsRound(Words(h));
    U64Round(h.capBoundingSet);
    U64Round(h.ambientCaps);
    U64Round(h.watchdogUsec);
    HeaderIsItsWords(ReadHeader(b), h);
  }

  lemma HeaderExact(b: Bytes)
    requires |b| >= HEADER_BYTES
    ensures b[..HEADER_BYTES] == HeaderBytes(ReadHeader(b), b[132..136])
  {
    hide U64Bytes, U64Value, WordsBytes, ReadWords, Words, HeaderFrom;
    WordsExact(33, b[..132]);
    U64Exact(b[136..144]);
    U64Exact(b[144..152]);
    U64Exact(b[152..160]);
    assert b[..160] == b[..132] + b[132..136] + (b[136..144] + (b[144..152] + b[152..160]));
  }

  // ---- flags ----

  const WAIT_FOR_EXEC: nat := 0
  const HAS_ENVIRONMENT: nat := 1
  const HAS_SANDBOX: nat := 2
  const HAS_IDLE_GATE: nat := 3
  const HAS_CWD: nat := 4
  const HAS_CGROUP: nat := 5
  const HAS_SELINUX: nat := 6
  const HAS_APPARMOR: nat := 7
  const SELINUX_IGNORE: nat := 8
  const APPARMOR_IGNORE: nat := 9
  const HAS_NOTIFY_SOCKET: nat := 10
  const TTY_FORCE: nat := 11
  const N_FLAGS: nat := 12

  predicate Bit(n: nat, i: nat) {
    if i == 0 then n % 2 == 1 else Bit(n / 2, i - 1)
  }

  function Pow2(i: nat): nat {
    if i == 0 then 1 else 2 * Pow2(i - 1)
  }

  function FromBits(bits: seq<bool>): nat {
    if bits == [] then 0 else (if bits[0] then 1 else 0) + 2 * FromBits(bits[1..])
  }

  lemma {:induction false} FromBitsBound(bits: seq<bool>)
    ensures FromBits(bits) < Pow2(|bits|)
  {
    if bits != [] {
      FromBitsBound(bits[1..]);
    }
  }

  lemma {:induction false} BitOfBits(bits: seq<bool>, i: nat)
    requires i < |bits|
    ensures Bit(FromBits(bits), i) == bits[i]
  {
    var rest := FromBits(bits[1..]);
    Halves(bits[0], rest);
    if i > 0 {
      BitOfBits(bits[1..], i - 1);
    }
  }

  lemma Halves(bit: bool, n: nat)
    ensures
      var m := (if bit then 1 else 0) + 2 * n;
      m / 2 == n && (m % 2 == 1 <==> bit)
  {
  }

  /** Twelve flags fit and no other bit is set. */
  lemma FlagsFit(bits: seq<bool>)
    requires |bits| == N_FLAGS
    ensures FromBits(bits) < 4096
    ensures forall i :: 0 <= i < N_FLAGS ==> Bit(FromBits(bits), i) == bits[i]
  {
    FromBitsBound(bits);
    assert Pow2(12) == 4096 by {
      assert Pow2(4) == 16 && Pow2(8) == 16 * Pow2(4) && Pow2(12) == 16 * Pow2(8);
    }
    forall i | 0 <= i < N_FLAGS
      ensures Bit(FromBits(bits), i) == bits[i]
    {
      BitOfBits(bits, i);
    }
  }

  /** The bounds that every accepted header obeys. */
  predicate HeaderOk(h: Header, size: nat) {
    && h.magic == WIRE_MAGIC && h.version == WIRE_VERSION && h.headerBytes == HEADER_BYTES && h.totalBytes == size
    && h.flags < 4096
    && 0 < h.nArgv <= MAX_ARGV && h.nEnv <= MAX_ENV && h.nRlimits <= MAX_RLIMITS
    && h.nListenFds <= MAX_LISTEN_FDS && h.nSeccompRules <= MAX_SECCOMP_RULES
    && h.nReadWritePaths <= MAX_READ_WRITE_PATHS
    && (h.nEnv > 0 ==> Bit(h.flags, HAS_ENVIRONMENT))
    && (h.nReadWritePaths > 0 ==> Bit(h.flags, HAS_SANDBOX))
  }
}
