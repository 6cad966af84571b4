/** What the control lease promises, over every run of one session. */
module ControlTheorems {
  import opened Wrappers
  import opened Vocabulary
  import opened ControlState
  import opened ControlWorld
  import opened ControlInvariant
  import opened NetPreserved
  import opened ControlPreserved
  import opened ControlRuns
  import opened ControlOrphans

  // ----- epochs -----

  /**
   An epoch has one owner for the whole run, and the loop applies the input of one owner after the
   other: between two batches of one lease it applies no batch of anyone else.
   */
  lemma OneOwnerPerEpoch(run: seq<Action>, w: World)
    requires Execute(run) == Some(w) && !w.net.saturated && !w.over
    ensures forall e, o, o' :: (e, o) in w.net.claims && (e, o') in w.net.claims ==> o == o'
    ensures forall i, j :: 0 <= i < j < |w.net.applied| ==>
              && w.net.applied[i].0 <= w.net.applied[j].0
              && (w.net.applied[i].0 == w.net.applied[j].0 ==> w.net.applied[i].1 == w.net.applied[j].1)
    ensures forall i, j, k | 0 <= i < j < k < |w.net.applied| ::
              w.net.applied[i].1.Human? && w.net.applied[i].1 == w.net.applied[k].1
              ==> w.net.applied[j].1 == w.net.applied[i].1
  {
    RunAccounts(run, w);
    var applied := w.net.applied;
    assert forall i :: 0 <= i < |applied| ==> applied[i] == (applied[i].0, applied[i].1);
    assert forall i :: 0 <= i < |applied| ==> (applied[i].0, applied[i].1) in w.net.claims;
    forall i, j, k | 0 <= i < j < k < |applied| && applied[i].1.Human? && applied[i].1 == applied[k].1
      ensures applied[j].1 == applied[i].1
    {
      assert (applied[i].0, Human(applied[i].1.id)) in w.net.claims;
      assert (applied[k].0, Human(applied[i].1.id)) in w.net.claims;
      assert applied[j].0 == applied[i].0;
    }
  }

  // ----- grants -----

  /**
   When a take is granted, the loop has the epoch of the lease and nothing is down, pending, on the
   way or in flight.
   */
  lemma CleanGrant(run: seq<Action>, w: World, id: LeaseId, now: nat, w': World)
    requires Execute(run) == Some(w) && !w.net.saturated && !w.over
    requires Finish(w, id, now) == Some(w') && Holds(w'.c, id)
    ensures w'.net.loop.epoch == w'.c.epoch && w'.net.loop.held == map[] && Outcome(w'.net, w'.c.epoch) == {}
    ensures w'.net.trans == map[] && w'.c.pending == 0 && w'.c.inflight == 0
    ensures Fresh(w'.c.epoch, w'.net)
  {
    RunKeeps(run, w);
    GrantCovers(w.c, w.net);
  }

  /** No acting call is counted in flight at any instant of a granted lease. */
  lemma HumanAndCuaNeverOverlap(run: seq<Action>, w: World)
    requires Execute(run) == Some(w) && !w.net.saturated && !w.over
    ensures w.c.lease.Some? && w.c.lease.value.granted ==> w.c.inflight == 0
  {
    RunKeeps(run, w);
  }

  /** The pending count is exact, and a pending lease is always that of a take in progress. */
  lemma NothingIsLeftBehind(run: seq<Action>, w: World)
    requires Execute(run) == Some(w) && !w.net.saturated && !w.over
    ensures w.c.pending == |w.net.trans|
    ensures w.c.lease.Some? && !w.c.lease.value.granted ==> w.c.lease.value.id in w.takes
  {
    RunKeeps(run, w);
  }

  // ----- the agent -----

  /** Nothing a human pressed is down in the loop. */
  ghost predicate OnlyAgentKeys(n: Net) {
    forall k :: k in n.loop.held ==> n.loop.held[k] == Agent
  }

  ghost predicate HumanCaptured(n: Net, epoch: Epoch) {
    exists id :: (epoch, Human(id)) in n.claims
  }

  /** What is down belongs to the one owner of the loop's epoch. */
  lemma OwnerHoldsAll(n: Net, owner: Owner)
    requires Pressed(n) && Exclusive(n.claims) && (n.loop.epoch, owner) in n.claims
    ensures forall k :: k in n.loop.held ==> n.loop.held[k] == owner
  {
  }

  /**
   Whatever was given up or is still on its way: a human's key is down exactly when something is down
   and a human captured the epoch that the loop is at.
   */
  lemma HumanKeyIsDownExactly(run: seq<Action>, w: World)
    requires Execute(run) == Some(w) && !w.net.saturated && !w.over
    ensures OnlyAgentKeys(w.net) <==> w.net.loop.held == map[] || !HumanCaptured(w.net, w.net.loop.epoch)
  {
    RunKeeps(run, w);
    if HumanCaptured(w.net, w.net.loop.epoch) && w.net.loop.held != map[] {
      var id :| (w.net.loop.epoch, Human(id)) in w.net.claims;
      OwnerHoldsAll(w.net, Human(id));
      var k :| k in w.net.loop.held;
      assert w.net.loop.held[k] != Agent;
    }
  }

  /**
   When nothing is pending and the newest epoch change was not given up, a human's key is down exactly
   when a human holds the lease and something is down. Counted or not, an acting call that waited for
   earlier releases meets no other key.
   */
  lemma ReleasedExactly(run: seq<Action>, w: World)
    requires Execute(run) == Some(w) && !w.net.saturated && !w.over && w.net.newestKept && w.c.pending == 0
    ensures w.net.loop.epoch == w.c.epoch
    ensures OnlyAgentKeys(w.net) <==> w.net.loop.held == map[] || !(w.c.lease.Some? && w.c.lease.value.granted)
  {
    RunKeeps(run, w);
    NothingPending(w.net);
    assert w.net.loop.epoch == w.c.epoch;
    if w.c.lease.Some? && w.c.lease.value.granted && w.net.loop.held != map[] {
      var k :| k in w.net.loop.held;
      assert w.net.loop.held[k] == Human(w.c.lease.value.id);
    }
  }

  /** So nothing of a human is down when a native action is admitted, or when the wait of a counted call is over. */
  lemma ReleasedBeforeTheAgentActs(run: seq<Action>, w: World)
    requires Execute(run) == Some(w) && !w.net.saturated && !w.over && w.net.newestKept
    requires PollAgent(w.c).Admitted? || (w.c.pending == 0 && w.c.inflight > 0)
    ensures OnlyAgentKeys(w.net) && w.net.loop.epoch == w.c.epoch
  {
    ReleasedExactly(run, w);
    HumanAndCuaNeverOverlap(run, w);
  }

  /** A batch that is applied is of the epoch the loop is then at. */
  lemma AppliedIsCurrent(n: Net, n': Net)
    requires LoopStep(n) == Some(n') && n'.applied != n.applied
    ensures |n'.applied| == |n.applied| + 1 && n'.applied[|n.applied|].0 == n'.loop.epoch
  {
  }

  /** Confirmed or not: once the loop applied a batch of the agent, only the agent holds anything down. */
  lemma AgentInputClearsTheRest(run: seq<Action>, w: World, n': Net)
    requires Execute(run) == Some(w) && !w.net.saturated && !w.over
    requires LoopStep(w.net) == Some(n') && n'.applied != w.net.applied && n'.applied[|n'.applied| - 1].1 == Agent
    ensures OnlyAgentKeys(n')
  {
    RunKeeps(run, w);
    LoopStepKeeps(w.c.epoch, w.net, n');
    AppliedIsCurrent(w.net, n');
    assert n'.applied[|w.net.applied|] in n'.claims;
    OwnerHoldsAll(n', Agent);
  }

  // ----- the holder -----

  /** A release of `k` with this epoch waits in the queue or in the hand of the lock holder. */
  ghost predicate InFlight(n: Net, epoch: Epoch, k: Held) {
    || (exists i ::
          0 <= i < |n.queue| && n.queue[i].Input? && n.queue[i].epoch == epoch && k in Lifted(n.queue[i].events))
    || (n.lock.Busy? && n.lock.captured == Some(epoch) && k in Lifted(n.lock.hand))
  }

  lemma {:induction false} StaysOrInFlight(held: set<Held>, queue: seq<Command>, epoch: Epoch, k: Held)
    requires k in held
    ensures k in AfterQueue(held, queue, epoch)
         || exists i :: 0 <= i < |queue| && queue[i].Input? && queue[i].epoch == epoch && k in Lifted(queue[i].events)
    decreases |queue|
  {
    if queue != [] {
      if queue[0].Input? {
        LostHand(held, queue[0].events, k);
      }
      if k in AfterCommand(held, queue[0], epoch) {
        StaysOrInFlight(AfterCommand(held, queue[0], epoch), queue[1..], epoch, k);
        if k !in AfterQueue(held, queue, epoch) {
          var i :| 0 <= i < |queue[1..]| && queue[1..][i].Input? && queue[1..][i].epoch == epoch
                   && k in Lifted(queue[1..][i].events);
          assert queue[i + 1] == queue[1..][i];
        }
      }
    }
  }

  /**
   While a lease stays granted, every key or button that is down in the loop is in its held set, or
   a blur that is not sent yet releases it, or its release is on the way, or its release was given up.
   */
  lemma NoOrphanedPress(run: seq<Action>, w: World, k: Held)
    requires Execute(run) == Some(w) && !w.net.saturated && !w.over
    requires w.c.lease.Some? && w.c.lease.value.granted && k in w.net.loop.held
    ensures || k in w.c.lease.value.held || Owed(w.net, w.c.epoch, k) || InFlight(w.net, w.c.epoch, k)
            || k in w.net.lost
  {
    RunAccounts(run, w);
    StaysOrInFlight(w.net.loop.held.Keys, w.net.queue, w.c.epoch, k);
    var queued := AfterQueue(w.net.loop.held.Keys, w.net.queue, w.c.epoch);
    if k in queued && w.net.lock.Busy? {
      LostHand(queued, w.net.lock.hand, k);
    }
  }

  /** With every send accepted and nothing on the way, the loop has down at most what the lease holds. */
  lemma QuietLeaseHoldsEverything(run: seq<Action>, w: World)
    requires Execute(run) == Some(w) && !w.net.saturated && !w.over
    requires w.c.lease.Some? && w.c.lease.value.granted
    requires w.net.lost == {} && w.net.queue == [] && w.net.trans == map[] && w.net.lock.Free?
    ensures w.net.loop.held.Keys <= w.c.lease.value.held
  {
    forall k | k in w.net.loop.held ensures k in w.c.lease.value.held {
      NoOrphanedPress(run, w, k);
    }
  }

  // ----- the limits -----

  /**
   A controller change gives an epoch nobody captured, exactly when the counter can still grow or the
   epoch is unused.
   */
  lemma ChangeIsFreshExactly(run: seq<Action>, w: World)
    requires Execute(run) == Some(w) && !w.net.saturated && !w.over
    ensures Fresh(Advance(w.c).0.epoch, w.net) <==> w.c.epoch < MAX_EPOCH || Fresh(w.c.epoch, w.net)
  {
    RunKeeps(run, w);
  }

  /**
   The end of the session is the one lease end that keeps the epoch: without a lease the epoch then
   belongs to the agent exactly when the holder had not used it.
   */
  lemma SessionEndKeepsTheEpoch(run: seq<Action>, w: World, w': World)
    requires Execute(run) == Some(w) && !w.net.saturated && !w.over && SessionEnds(w) == Some(w')
    ensures w'.c.lease.None? && w'.c.epoch == w.c.epoch
    ensures ClaimedBy(w'.c.epoch, w'.net, Agent) <==>
            !(w.c.lease.Some? && w.c.lease.value.granted && (w.c.epoch, Human(w.c.lease.value.id)) in w.net.claims)
  {
    RunKeeps(run, w);
  }
}
