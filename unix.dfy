/** The Unix tree killer: it checks the root process id, resolves the
    signal, plans the subtree and signals it deepest first. */
module Unix {
  import opened Common

  const KERNEL_PROCESS_ID: u32 := 0
  const INIT_PROCESS_ID: u32 := 1

  /** Decides whether the root may be killed, given the largest id the
      system can assign. The kernel check comes first, then the init check,
      and only then the range check. */
  function ValidatePidWithAvailableMax(killer: TreeKiller, availableMax: u32): (r: Result<(), Error>)
    ensures killer.processId == KERNEL_PROCESS_ID ==> r == Err(KernelProcess(killer.processId))
    ensures killer.processId == INIT_PROCESS_ID ==> r == Err(InitProcess(killer.processId))
    ensures r.Ok? <==> INIT_PROCESS_ID < killer.processId <= availableMax
    ensures INIT_PROCESS_ID < killer.processId && r.Err? ==>
              r == Err(TooLarge(killer.processId, availableMax))
  {
    if killer.processId == KERNEL_PROCESS_ID then
      Err(KernelProcess(killer.processId))
    else if killer.processId == INIT_PROCESS_ID then
      Err(InitProcess(killer.processId))
    else if killer.processId <= availableMax then
      Ok(())
    else
      Err(TooLarge(killer.processId, availableMax))
  }

  /** Resolves the configured signal; a name the signal library does not
      know is an invalid argument. */
  function ParseSignal(killer: TreeKiller, signalFromStr: string -> Option<Signal>): (r: Result<Signal, Error>)
    ensures r.Ok? <==> signalFromStr(killer.config.signal).Some?
    ensures r.Ok? ==> signalFromStr(killer.config.signal) == Some(r.value)
    ensures r.Err? ==> r.error == Os(EINVAL)
  {
    match signalFromStr(killer.config.signal)
    case Some(signal) => Ok(signal)
    case None => Err(Os(EINVAL))
  }

  /** Sends the signal as the n-th delivery of the request. A process that
      no longer exists counts as killed; every other kernel error is passed on. */
  function Kill(host: Host, n: nat, processId: u32, signal: Signal): (r: Result<(), Error>)
    ensures r.Ok? <==> host.kill(n, processId, signal).Ok? || host.kill(n, processId, signal) == Err(ESRCH)
    ensures r.Err? ==> r.error.Os? && r.error.errno != ESRCH
                       && host.kill(n, processId, signal) == Err(r.error.errno)
  {
    match host.kill(n, processId, signal)
    case Ok(_) => Ok(())
    case Err(e) => if e == ESRCH then Ok(()) else Err(Os(e))
  }

  /** Whether delivering the signal to `order`, one id after another from the
      first delivery of the request on, meets no error. */
  ghost predicate AllKillsSucceed(host: Host, signal: Signal, order: seq<u32>)
  {
    forall k :: 0 <= k < |order| ==> Kill(host, k, order[k], signal).Ok?
  }

  /** `s` from its last element to its first. */
  function Reverse(s: seq<u32>): (r: seq<u32>)
    ensures |r| == |s|
  {
    if s == [] then [] else [s[|s| - 1]] + Reverse(s[..|s| - 1])
  }

  /** The k-th element of the reversed sequence is the k-th from the end. */
  lemma {:induction false} ReverseAt(s: seq<u32>, k: nat)
    requires k < |s|
    ensures Reverse(s)[k] == s[|s| - 1 - k]
  {
    if k > 0 {
      ReverseAt(s[..|s| - 1], k - 1);
    }
  }

  /** A list that gives the first ids of `s` from the end is a prefix of
      `Reverse(s)`, and all of it when it is as long as `s`. */
  lemma PrefixOfReverse(s: seq<u32>, t: seq<u32>)
    requires |t| <= |s|
    requires forall k :: 0 <= k < |t| ==> t[k] == s[|s| - 1 - k]
    ensures t == Reverse(s)[..|t|]
    ensures |t| == |s| ==> t == Reverse(s)
  {
    forall k | 0 <= k < |t| ensures t[k] == Reverse(s)[k] {
      ReverseAt(s, k);
    }
  }

  /** Reversing twice gives back the original order. */
  lemma ReverseReverse(s: seq<u32>)
    ensures Reverse(Reverse(s)) == s
  {
    forall k | 0 <= k < |s| ensures s[k] == Reverse(s)[|s| - 1 - k] {
      ReverseAt(s, |s| - 1 - k);
    }
    PrefixOfReverse(Reverse(s), s);
  }

  /** Whether validation, signal parsing and the snapshot all succeed, so
      that the request reaches its kill loop. */
  ghost predicate Prechecked(killer: TreeKiller, host: Host)
  {
    && ValidatePidWithAvailableMax(killer, host.availableMax).Ok?
    && ParseSignal(killer, host.signalFromStr).Ok?
    && host.processInfos.Ok?
  }

  /** The signal a request that passed its prechecks sends. */
  ghost function PlannedSignal(killer: TreeKiller, host: Host): Signal
    requires Prechecked(killer, host)
  {
    ParseSignal(killer, host.signalFromStr).value
  }

  /** The ids a request that passed its prechecks plans to kill, in planned order. */
  ghost function PlannedIds(killer: TreeKiller, host: Host): seq<u32>
    requires Prechecked(killer, host)
  {
    host.processIdsToKill(killer.processId, host.processInfos.value)
  }

  /** Kills the tree rooted at `killer.processId`. `sent` records the process
      ids the signal was sent to, in order.
      - A failed validation, an unknown signal or an unreadable process table
        ends the request with that error before any signal is sent.
      - Otherwise the planned ids are signalled from the last to the first
        (the root, planned first, is signalled last), stopping at the first
        delivery that fails for a reason other than ESRCH; that error is the
        result, and no later id is tried.
      - If every delivery succeeds, the planned ids are returned in planned
        order, including those whose process had already exited. */
  method KillTree(killer: TreeKiller, host: Host) returns (r: Result<seq<u32>, Error>, ghost sent: seq<u32>)
    // What the request returns.
    ensures ValidatePidWithAvailableMax(killer, host.availableMax).Err? ==>
              r == Err(ValidatePidWithAvailableMax(killer, host.availableMax).error)
    ensures ValidatePidWithAvailableMax(killer, host.availableMax).Ok?
            && ParseSignal(killer, host.signalFromStr).Err? ==>
              r == Err(ParseSignal(killer, host.signalFromStr).error)
    ensures ValidatePidWithAvailableMax(killer, host.availableMax).Ok?
            && ParseSignal(killer, host.signalFromStr).Ok? && host.processInfos.Err? ==>
              r == Err(Enumeration(host.processInfos.error))
    ensures Prechecked(killer, host) ==>
              (r.Ok? <==> AllKillsSucceed(host, PlannedSignal(killer, host), Reverse(PlannedIds(killer, host))))
    ensures Prechecked(killer, host) && r.Ok? ==> r.value == PlannedIds(killer, host)
    ensures Prechecked(killer, host) && r.Err? ==>
              var signal, ids := PlannedSignal(killer, host), PlannedIds(killer, host);
              exists k :: 0 <= k < |ids|
                && AllKillsSucceed(host, signal, Reverse(ids)[..k])
                && Kill(host, k, Reverse(ids)[k], signal) == Err(r.error)
    // The signals it sends.
    ensures !Prechecked(killer, host) ==> sent == []
    ensures Prechecked(killer, host) ==>
              var signal, ids := PlannedSignal(killer, host), PlannedIds(killer, host);
              && |sent| <= |ids|
              && (forall k :: 0 <= k < |sent| ==> sent[k] == ids[|ids| - 1 - k])
              && (r.Ok? ==> sent == Reverse(ids) && r.value == Reverse(sent))
              && (r.Err? ==> 0 < |sent|
                             && AllKillsSucceed(host, signal, sent[..|sent| - 1])
                             && Kill(host, |sent| - 1, sent[|sent| - 1], signal) == Err(r.error))
  {
    var v := ValidatePidWithAvailableMax(killer, host.availableMax);
    if v.Err? {
      r, sent := Err(v.error), [];
      return;
    }
    var s := ParseSignal(killer, host.signalFromStr);
    if s.Err? {
      r, sent := Err(s.error), [];
      return;
    }
    var signal := s.value;
    if host.processInfos.Err? {
      r, sent := Err(Enumeration(host.processInfos.error)), [];
      return;
    }
    var ids := host.processIdsToKill(killer.processId, host.processInfos.value);
    sent := [];
    var i := |ids|;
    while i > 0
      invariant 0 <= i <= |ids|
      invariant |sent| == |ids| - i
      invariant forall k :: 0 <= k < |sent| ==> sent[k] == ids[|ids| - 1 - k]
      invariant AllKillsSucceed(host, signal, sent)
    {
      i := i - 1;
      var n: nat := |ids| - 1 - i;
      var result := Kill(host, n, ids[i], signal);
      ghost var before := sent;
      sent := sent + [ids[i]];
      if result.Err? {
        r := Err(result.error);
        assert sent[..|sent| - 1] == before;
        ReverseAt(ids, n);
        PrefixOfReverse(ids, before);
        return;
      }
    }
    PrefixOfReverse(ids, sent);
    ReverseReverse(ids);
    r := Ok(ids);
  }
}
