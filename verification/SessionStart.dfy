/**
Starting a terminal (`start`): when a start that reports success leaves it
running and showing exactly the replay.
*/
module SessionStart {
  import opened Primitives
  import opened PaneTable
  import opened AttachProtocol
  import opened OutputDelivery
  import opened HeldLease
  import opened Reattachment
  import opened AttachFaults

  /** What a start from this table can receive, the attach tried first included. */
  predicate StartSendable(t: Table, rq: Request, restore: Restore, launch: Launch) {
    var held, here := Entry(t, rq.key).lease, GrantedHere(t, rq.key);
    && Sendable(t, Request(restore.id, rq.key), restore.opening, restore.script)
    && DeliverableAll(launch.draining, rq, held, here) && DeliverableScript(launch.arrivals, rq, held, here)
    && Sendable(t, rq, launch.opening, launch.script)
  }

  ghost predicate StartAlwaysClean(t: Table, rq: Request) {
    forall restore: Restore, launch: Launch ::
      StartSendable(t, rq, restore, launch) ==> Clean(StartTerminal(t, rq, restore, launch), rq.key)
  }

  // ---- a pane without a lease ------------------------------------------------

  lemma {:induction false} DrainingLeavesUnheld(t: Table, ms: seq<ServerMessage>, key: PtyKey)
    requires Inverse(t) && key in t.panes && t.panes[key].lease.None? && forall k :: k in t.panes ==> Durable(k)
    ensures var u := HandleAll(t, ms);
            && Inverse(u) && (forall k :: k in u.panes ==> Durable(k))
            && key in u.panes && u.panes[key] == t.panes[key]
    decreases |ms|
  {
    if ms != [] {
      var u, m := HandleAll(t, ms[..|ms| - 1]), ms[|ms| - 1];
      DrainingLeavesUnheld(t, ms[..|ms| - 1], key);
      MessageKeeps(u, m, key);
      MessageGrantsNothing(u, m, key);
    }
  }

  lemma {:induction false} CreatingLeavesUnheld(t: Table, arrivals: seq<Received>, answer: AttachResult, key: PtyKey)
    requires Ready(t, key) && t.panes[key].lease.None?
    ensures var o := CreateFrom(t, arrivals, answer);
            o.result == Attached ==> Ready(o.table, key) && o.table.panes[key].lease.None?
    decreases |arrivals|
  {
    if arrivals != [] {
      match arrivals[0] {
        case Got(m) =>
          MessageKeepsInverse(t, m);
          MessageGrantsNothing(t, m, key);
          if !m.ConnectionWide? { CreatingLeavesUnheld(HandleMessage(t, m), arrivals[1..], answer, key); }
        case Lost(resumption) =>
          var r := Resume(t, resumption);
          if r.failure.None? { CreatingLeavesUnheld(r.table, arrivals[1..], answer, key); }
        case TimedOut =>
      }
    }
  }

  lemma UnheldBindsReady(t: Table, key: PtyKey, draining: seq<ServerMessage>)
    requires Kept(t, key) && Entry(t, key).lease.None?
    ensures Ready(BoundFor(t, key, draining), key) && BoundFor(t, key, draining).panes[key].lease.None?
  {
    var reset := ResetParser(t, key);
    PutKeepsInverse(t, key, Entry(reset, key));
    DrainingLeavesUnheld(reset, draining, key);
    BindKeepsInverse(HandleAll(reset, draining), key);
  }

  /** Starting a session with no lease held is clean. */
  lemma UnheldStartIsClean(t: Table, rq: Request, launch: Launch)
    requires Kept(t, rq.key) && Entry(t, rq.key).lease.None?
    ensures Clean(StartAttached(t, rq, launch), rq.key)
  {
    var bound := BoundFor(t, rq.key, launch.draining);
    var created := CreateFrom(bound, launch.arrivals, launch.answer);
    UnheldBindsReady(t, rq.key, launch.draining);
    CreatingLeavesUnheld(bound, launch.arrivals, launch.answer, rq.key);
    StartEndsAs(t, rq, launch);
    if created.result == Attached {
      DeliverableUnheld(launch.script, rq);
      UnheldIsClean(created.table, rq, launch.opening, launch.script, true);
    }
  }

  /** Without a lease held nothing is under it. */
  lemma DeliverableUnheld(script: seq<Received>, rq: Request)
    ensures DeliverableScript(script, rq, None, true)
  {
  }

  /** Success comes only from the attach itself. */
  lemma StartEndsAs(t: Table, rq: Request, launch: Launch)
    ensures var o := StartAttached(t, rq, launch);
            var created := CreateFrom(BoundFor(t, rq.key, launch.draining), launch.arrivals, launch.answer);
            o.result == Attached ==>
              created.result == Attached && o == PerformAttach(created.table, rq, launch.opening, launch.script)
  {
  }

  // ---- the callers' choice ---------------------------------------------------

  /** A key still bound but not running holds no lease; a missing session leaves it unbound and without one. */
  lemma BoundStartIsClean(t: Table, rq: Request, restore: Restore, launch: Launch)
    requires Kept(t, rq.key) && !IsRunning(t, rq.key) && Entry(t, rq.key).attachment.Some?
    ensures Clean(StartTerminal(t, rq, restore, launch), rq.key)
  {
    var first := Request(restore.id, rq.key);
    var o := AttachExisting(t, first, restore.opening, restore.script);
    if Entry(t, rq.key).identity.Some? {
      var u := BoundAgain(t, rq.key);
      BoundAgainIsReady(t, rq.key);
      DeliverableUnheld(restore.script, first);
      UnheldIsClean(u, first, restore.opening, restore.script, true);
      AttachExistingEndsAs(t, first, restore.opening, restore.script);
      AttachExistingKeeps(t, first, restore.opening, restore.script);
      if o.result == Rejected(true) {
        MissingLeavesUnheld(t, first, restore.opening, restore.script);
        UnheldStartIsClean(o.table, rq, launch);
      }
    }
  }

  lemma MissingLeavesUnheld(t: Table, rq: Request, opening: Opening, script: seq<Received>)
    requires Kept(t, rq.key) && !IsRunning(t, rq.key) && Entry(t, rq.key).lease.None?
    requires AttachExisting(t, rq, opening, script).result == Rejected(true)
    ensures Entry(AttachExisting(t, rq, opening, script).table, rq.key).lease.None?
  {
    if Entry(t, rq.key).identity.Some? {
      var u := BoundAgain(t, rq.key);
      BoundAgainIsReady(t, rq.key);
      AttachExistingEndsAs(t, rq, opening, script);
      RefusalIsRead(u, rq, opening, script);
      FailureGrantsNothing(Awaiting(u, opening), rq, STARTED, script);
      SettledGrantsNothing(PerformAttach(u, rq, opening, script), rq.key);
    }
  }

  lemma RefusalIsRead(t: Table, rq: Request, opening: Opening, script: seq<Received>)
    requires PerformAttach(t, rq, opening, script).result.Rejected?
    ensures PerformAttach(t, rq, opening, script) == AttachFrom(Awaiting(t, opening), rq, STARTED, script)
  {
  }

  lemma SettledGrantsNothing(o: Outcome, key: PtyKey)
    requires Entry(o.table, key).lease.None?
    ensures Entry(Settled(o, key).table, key).lease.None?
  {
  }

  /** An attach that fails leaves a pane without a lease as it is, but for its screen. */
  lemma {:induction false} FailureGrantsNothing(t: Table, rq: Request, st: Attaching, script: seq<Received>)
    requires Inverse(t) && Entry(t, rq.key).lease.None? && rq.key in t.panes
    requires AttachFrom(t, rq, st, script).result != Attached
    ensures Entry(AttachFrom(t, rq, st, script).table, rq.key).lease.None?
    decreases |script|
  {
    if script != [] {
      var r, step := script[0], AttachStep(t, rq, st, script[0]);
      StepIgnoresReplies(t, rq, st, r);
      WithoutReplyGrantsNothing(t, rq, r);
      if step.More? { FailureGrantsNothing(step.table, rq, step.collected, script[1..]); }
    }
  }

  lemma WithoutReplyGrantsNothing(t: Table, rq: Request, r: Received)
    requires Inverse(t) && rq.key in t.panes && t.panes[rq.key].lease.None?
    ensures var u := WithoutReply(t, rq, r); Inverse(u) && rq.key in u.panes && u.panes[rq.key].lease.None?
  {
    if r.Got? {
      MessageKeepsInverse(t, r.message);
      MessageGrantsNothing(t, r.message, rq.key);
    } else if r.Lost? {
      LossGrantsNothing(t, rq, r.resumption);
    }
  }

  lemma LossGrantsNothing(t: Table, rq: Request, resumption: Resumption)
    requires Inverse(t) && rq.key in t.panes && t.panes[rq.key].lease.None?
    ensures var u := WithoutReply(t, rq, Lost(resumption));
            Inverse(u) && rq.key in u.panes && u.panes[rq.key].lease.None?
  {
    var u := Resume(t, resumption).table;
    if !resumption.NotResumed? { InstallKeepsInverse(t, resumption.hello, ScopeOf(t)); }
    PutKeepsInverse(u, rq.key, Entry(Restarted(u, rq.key), rq.key));
  }

  /**
  A start that reports success leaves the terminal running and showing exactly
  the replay, whatever the daemon can send before and during it, if and only if
  it is refused at once or no lease is held that can still be rejected.
  */
  lemma StartIsCleanIff(t: Table, rq: Request)
    requires Kept(t, rq.key) && Entry(t, rq.key).identity.Some?
    ensures StartAlwaysClean(t, rq) <==> IsRunning(t, rq.key) || !CanBeRejected(Entry(t, rq.key).lease)
  {
    if !IsRunning(t, rq.key) && CanBeRejected(Entry(t, rq.key).lease) {
      UncleanStart(t, rq);
    } else {
      forall restore: Restore, launch: Launch | StartSendable(t, rq, restore, launch)
        ensures Clean(StartTerminal(t, rq, restore, launch), rq.key)
      {
        StartIsClean(t, rq, restore, launch);
      }
    }
  }

  lemma StartIsClean(t: Table, rq: Request, restore: Restore, launch: Launch)
    requires Kept(t, rq.key) && Entry(t, rq.key).identity.Some? && StartSendable(t, rq, restore, launch)
    requires IsRunning(t, rq.key) || !CanBeRejected(Entry(t, rq.key).lease)
    ensures Clean(StartTerminal(t, rq, restore, launch), rq.key)
  {
    if !IsRunning(t, rq.key) {
      if Entry(t, rq.key).attachment.Some? {
        BoundStartIsClean(t, rq, restore, launch);
      } else if Entry(t, rq.key).lease.None? {
        UnheldStartIsClean(t, rq, launch);
      } else {
        var created := CreateFrom(BoundFor(t, rq.key, launch.draining), launch.arrivals, launch.answer);
        StartEndsAs(t, rq, launch);
        NoAttachUnderTheLastLease(created.table, rq, launch.opening, launch.script,
                                  GrantedHere(t, rq.key) && launch.opening.Written?);
      }
    }
  }

  /** A session created at once, and the held lease rejected as the attach begins. */
  lemma UncleanStart(t: Table, rq: Request)
    requires Kept(t, rq.key) && Entry(t, rq.key).identity.Some?
    requires !IsRunning(t, rq.key) && CanBeRejected(Entry(t, rq.key).lease)
    ensures !StartAlwaysClean(t, rq)
  {
    BoundAgainIsReady(t, rq.key);
    var refused := LeaseRejected(WireId(rq.key), Entry(t, rq.key).lease.value, false);
    var script := UncleanScript(BoundAgain(t, rq.key), rq, refused);
    AttachExistingEndsAs(t, rq, Written, script);
    var restore, launch := Restore(rq.id, Written, []), Launch([], [], Attached, Written, script);
    StartAtOnce(t, rq, restore, script);
    assert StartSendable(t, rq, restore, launch);
    assert !Clean(StartTerminal(t, rq, restore, launch), rq.key);
  }

  lemma StartAtOnce(t: Table, rq: Request, restore: Restore, script: seq<Received>)
    requires Entry(t, rq.key).identity.Some? && Entry(t, rq.key).attachment.None?
    ensures StartTerminal(t, rq, restore, Launch([], [], Attached, Written, script))
            == Settled(PerformAttach(BoundAgain(t, rq.key), rq, Written, script), rq.key)
  {
    assert BoundFor(t, rq.key, []) == BoundAgain(t, rq.key);
  }
}
