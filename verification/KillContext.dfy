/** Which processes of a service get which signal (src/kill_context.rs). */
module KillContext {
  import opened Basics

  datatype KillOperation = Terminate | Restart | Kill | Watchdog

  datatype KillMode = ControlGroup | Process | Mixed | NoKill

  datatype KillPolicy = KillPolicy(
    mode: KillMode, killSignal: int, restartKillSignal: int, finalKillSignal: int, watchdogSignal: int,
    sendSigkill: bool, sendSighup: bool)
  {
    function Signal(op: KillOperation): Option<int> {
      if mode.NoKill? then None
      else match op
        case Terminate => Some(killSignal)
        case Restart => Some(restartKillSignal)
        case Kill => if sendSigkill then Some(finalKillSignal) else None
        case Watchdog => Some(watchdogSignal)
    }

    predicate SendHup(op: KillOperation) {
      sendSighup && (op.Terminate? || op.Restart?)
    }

    predicate SignalGroup(op: KillOperation) {
      mode.ControlGroup? || (mode.Mixed? && op.Kill?)
    }
  }

  /** How the kernel answers: whether a process takes a signal, how many other
      members of the control group took it, or that the group could not be read,
      and the timer that the event loop delivers, if it can arm one. */
  datatype Kernel = Kernel(
    delivers: (KillOperation, int) -> bool,
    group: KillOperation -> Option<nat>,
    hup: KillOperation -> Option<nat>,
    timer: Option<nat>)

  /** The processes that the manager tracks itself. */
  function Pids(main: Option<int>, control: Option<int>): (pids: seq<int>)
    ensures |pids| <= 2
  {
    (if main.Some? then [main.value] else []) + (if control.Some? then [control.value] else [])
  }

  function Positive(pids: seq<int>): set<int> {
    set pid | pid in pids && pid > 0
  }

  function Takers(pids: set<int>, op: KillOperation, k: Kernel): set<int> {
    set pid | pid in pids && k.delivers(op, pid)
  }

  function PrimarySent(policy: KillPolicy, main: Option<int>, control: Option<int>, op: KillOperation, k: Kernel): nat {
    if policy.Signal(op).None? then 0 else |Takers(Positive(Pids(main, control)), op, k)|
  }

  lemma OneMoreTaker(pids: set<int>, pid: int, op: KillOperation, k: Kernel)
    requires pid !in pids
    ensures |Takers(pids + {pid}, op, k)| == |Takers(pids, op, k)| + if k.delivers(op, pid) then 1 else 0
  {
    if k.delivers(op, pid) {
      assert Takers(pids + {pid}, op, k) == Takers(pids, op, k) + {pid};
    } else {
      assert Takers(pids + {pid}, op, k) == Takers(pids, op, k);
    }
  }

  /** Every tracked process is signalled once, also when it is both the main and
      the control process; the result counts those that took the signal. */
  method SignalPrimary(policy: KillPolicy, main: Option<int>, control: Option<int>, op: KillOperation, k: Kernel)
    returns (sent: nat, signalled: seq<int>)
    ensures sent == PrimarySent(policy, main, control, op, k)
    ensures policy.Signal(op).None? ==> signalled == []
    ensures policy.Signal(op).Some? ==>
              && |signalled| == |Positive(Pids(main, control))|
              && forall pid :: pid in signalled <==> pid in Positive(Pids(main, control))
  {
    hide Takers, Positive, Pids;
    sent, signalled := 0, [];
    if policy.Signal(op).None? {
      return;
    }
    var pids := Pids(main, control);
    var seen: Option<int> := None;
    ghost var targets: set<int> := {};
    var i := 0;
    NoTakers(op, k);
    NonePositive(pids);
    while i < |pids|
      invariant i <= |pids|
      invariant targets == Positive(pids[..i])
      invariant sent == |Takers(targets, op, k)| && |signalled| == |targets|
      invariant forall pid :: pid in signalled <==> pid in targets
      invariant i < 2 ==> targets == if seen.Some? then {seen.value} else {}
    {
      var pid := pids[i];
      PositiveStep(pids, i);
      i := i + 1;
      if pid <= 0 || seen == Some(pid) {
        continue;
      }
      OneMoreTaker(targets, pid, op, k);
      targets := targets + {pid};
      seen := Some(pid);
      signalled := signalled + [pid];
      if k.delivers(op, pid) {
        sent := sent + 1;
      }
    }
    assert pids[..|pids|] == pids;
  }

  lemma PositiveStep(pids: seq<int>, i: nat)
    requires i < |pids|
    ensures Positive(pids[..i + 1]) == Positive(pids[..i]) + if pids[i] > 0 then {pids[i]} else {}
  {
    assert pids[..i + 1] == pids[..i] + [pids[i]];
  }

  lemma NonePositive(pids: seq<int>)
    ensures Positive(pids[..0]) == {}
  {
  }

  lemma NoTakers(op: KillOperation, k: Kernel)
    ensures Takers({}, op, k) == {}
  {
  }

  /** An unreadable group counts as nobody, also when only the extra SIGHUP fails. */
  function GroupSent(policy: KillPolicy, op: KillOperation, k: Kernel): nat {
    if policy.Signal(op).None? || !policy.SignalGroup(op) || k.group(op).None? then 0
    else if !policy.SendHup(op) then k.group(op).value
    else if k.hup(op).None? then 0
    else k.group(op).value + k.hup(op).value
  }
}
