/**
 The control state in terms of the run alone: who renewed which clock, which keys the holder pressed,
 how every lease ended, and which acting calls are still open.
 */
module ControlHistory {
  import opened Wrappers
  import opened Vocabulary
  import opened ControlState
  import opened ControlWorld
  import opened ControlInvariant
  import opened ControlRuns

  // ----- what an action does for the lease -----

  ghost predicate LeaseGranted(w: World) {
    w.c.lease.Some? && w.c.lease.value.granted
  }

  /** `a` grants the lease: the last section of a confirmed take that still has it. */
  ghost predicate Grants(w: World, a: Action) {
    && a.Taking? && a.take.FinishA? && IsLease(w.c, a.take.id)
    && a.take.id in w.takes && w.takes[a.take.id] == Deciding(true)
  }

  /** `a` is the lease check of an event of the holder. */
  ghost predicate HolderChecks(w: World, a: Action) {
    && a.Holding? && a.hold.CheckA?
    && w.net.lock.Busy? && w.net.lock.sender.Human? && Holds(w.c, w.net.lock.sender.id)
  }

  ghost predicate Passes(w: World, a: Action) {
    HolderChecks(w, a) && !OffFrame(w.c.lease.value.held, a.hold.event, a.hold.aimed, a.hold.frame)
  }

  ghost predicate Fences(w: World, a: Action) {
    HolderChecks(w, a) && OffFrame(w.c.lease.value.held, a.hold.event, a.hold.aimed, a.hold.frame)
  }

  ghost predicate Beats(w: World, a: Action) {
    a.Holding? && a.hold.BeatA? && Holds(w.c, a.hold.id)
  }

  ghost predicate Blurs(w: World, a: Action) {
    a.Holding? && a.hold.BlurA? && Holds(w.c, a.hold.id)
  }

  /** When the action is taken, for the actions that read the clock. */
  function TimeOf(a: Action): nat {
    match a
    case Taking(FinishA(_, now)) => now
    case Holding(BeatA(_, now)) => now
    case Holding(BlurA(_, now)) => now
    case Holding(CheckA(_, _, _, now, _)) => now
    case _ => 0
  }

  // ----- the clocks -----

  /** When the holder showed that it is there, since its grant: the grant, its beats, blurs and passed events. */
  ghost function Signs(run: seq<Action>): seq<nat>
    requires Execute(run).Some?
  {
    if run == [] then []
    else
      var w, a := Execute(run[..|run| - 1]).value, run[|run| - 1];
      if Grants(w, a) then [TimeOf(a)]
      else Signs(run[..|run| - 1]) + if Beats(w, a) || Blurs(w, a) || Passes(w, a) then [TimeOf(a)] else []
  }

  /** When the holder acted, since its grant: the grant and its passed events. */
  ghost function Inputs(run: seq<Action>): seq<nat>
    requires Execute(run).Some?
  {
    if run == [] then []
    else
      var w, a := Execute(run[..|run| - 1]).value, run[|run| - 1];
      if Grants(w, a) then [TimeOf(a)]
      else Inputs(run[..|run| - 1]) + if Passes(w, a) then [TimeOf(a)] else []
  }

  /** What one action does to the clocks of a granted lease. */
  ghost predicate MovesClocks(w: World, a: Action, w': World) {
    LeaseGranted(w') ==>
      var lease' := w'.c.lease.value;
      if Grants(w, a) then lease'.lastHeartbeat == lease'.lastInput == TimeOf(a)
      else
        && LeaseGranted(w)
        && lease'.lastHeartbeat ==
           (if Beats(w, a) || Blurs(w, a) || Passes(w, a) then TimeOf(a) else w.c.lease.value.lastHeartbeat)
        && lease'.lastInput == (if Passes(w, a) then TimeOf(a) else w.c.lease.value.lastInput)
  }

  lemma TakeMovesClocks(w: World, a: TakeAction, w': World)
    requires ApplyTake(w, a) == Some(w')
    ensures MovesClocks(w, Taking(a), w')
  {
  }

  lemma LeadMovesClocks(w: World, a: LeaseAction, w': World)
    requires ApplyLease(w, a) == Some(w')
    ensures MovesClocks(w, Leading(a), w')
  {
  }

  lemma HolderMovesClocks(w: World, a: HolderAction, w': World)
    requires ApplyHolder(w, a) == Some(w')
    ensures MovesClocks(w, Holding(a), w')
  {
  }

  lemma WayLeavesLease(w: World, a: WayAction, w': World)
    requires ApplyWay(w, a) == Some(w')
    ensures w'.c.lease == w.c.lease && w'.c.ended == w.c.ended && w'.c.inflight == w.c.inflight && w'.takes == w.takes
  {
  }

  lemma StepMovesClocks(w: World, a: Action, w': World)
    requires Apply(w, a) == Some(w')
    ensures MovesClocks(w, a, w')
  {
    match a
    case Taking(take) => TakeMovesClocks(w, take, w');
    case OnTheWay(way) => WayLeavesLease(w, way, w');
    case Leading(lead) => LeadMovesClocks(w, lead, w');
    case Holding(hold) => HolderMovesClocks(w, hold, w');
  }

  /** The clocks of a granted lease are the newest times at which its holder showed itself and acted. */
  lemma {:induction false} ClocksAreTheNewestSigns(run: seq<Action>, w: World)
    requires Execute(run) == Some(w) && LeaseGranted(w)
    ensures Signs(run) != [] && w.c.lease.value.lastHeartbeat == Signs(run)[|Signs(run)| - 1]
    ensures Inputs(run) != [] && w.c.lease.value.lastInput == Inputs(run)[|Inputs(run)| - 1]
  {
    var before, a := Execute(run[..|run| - 1]).value, run[|run| - 1];
    StepMovesClocks(before, a, w);
    if !Grants(before, a) {
      ClocksAreTheNewestSigns(run[..|run| - 1], before);
    }
  }

  /** The clock is read under the mutex, so it never goes back. */
  ghost predicate Ascending(times: seq<nat>) {
    forall i, j :: 0 <= i < j < |times| ==> times[i] <= times[j]
  }

  /** Every one of `times` is more than `gap` ago, or at least `gap` ago. */
  ghost predicate LongAgo(times: seq<nat>, gap: nat, now: nat, more: bool) {
    forall i :: 0 <= i < |times| ==> if more then times[i] + gap < now else times[i] + gap <= now
  }

  lemma NewestDecides(times: seq<nat>, gap: nat, now: nat, more: bool)
    requires Ascending(times) && times != []
    ensures LongAgo(times, gap, now, more) <==> LongAgo([times[|times| - 1]], gap, now, more)
  {
    var newest := times[|times| - 1];
    assert [newest][0] == newest;
    if LongAgo([newest], gap, now, more) {
      assert forall i :: 0 <= i < |times| ==> times[i] <= newest;
    }
  }

  lemma ReasonIsExact(c: Control, now: nat, idleTimeout: nat)
    requires c.lease.Some? && c.lease.value.granted
    ensures var gone := LongAgo([c.lease.value.lastHeartbeat], 5000, now, true);
            var idle := LongAgo([c.lease.value.lastInput], idleTimeout, now, false) || idleTimeout == 0;
            ExpireReason(c, now, idleTimeout) ==
            if gone then Some(HeartbeatLost) else if idle then Some(IdleTimeout) else None
  {
    var beat, input := c.lease.value.lastHeartbeat, c.lease.value.lastInput;
    assert [beat][0] == beat && [input][0] == input;
  }

  /** What the first section finds of a lease whose holder gave these signs and inputs. */
  lemma FoundExactly(w: World, signs: seq<nat>, inputs: seq<nat>, op: nat, now: nat, idleTimeout: nat)
    requires op !in w.expiring && Ascending(signs) && Ascending(inputs)
    requires LeaseGranted(w) ==>
               && signs != [] && w.c.lease.value.lastHeartbeat == signs[|signs| - 1]
               && inputs != [] && w.c.lease.value.lastInput == inputs[|inputs| - 1]
    ensures var found := SeeExpired(w, op, now, idleTimeout);
            var gone := LongAgo(signs, 5000, now, true);
            var idle := LongAgo(inputs, idleTimeout, now, false) || idleTimeout == 0;
            && (found.Some? <==> LeaseGranted(w) && (gone || idle))
            && (found.Some? ==>
                  found.value.expiring[op] ==
                  Expiry(w.c.lease.value.id, if gone then HeartbeatLost else IdleTimeout))
  {
    if LeaseGranted(w) {
      NewestDecides(signs, 5000, now, true);
      NewestDecides(inputs, idleTimeout, now, false);
      ReasonIsExact(w.c, now, idleTimeout);
    }
  }

  /**
   The first section of an expiry, at any point of any run: it finds the lease to be without a heartbeat
   exactly when the holder gave no sign for more than 5000, and idle exactly when it gave one but did not
   act for the idle timeout. A lease that is not granted is not found at all.
   */
  lemma ExpiryIsExact(run: seq<Action>, w: World, op: nat, now: nat, idleTimeout: nat)
    returns (signs: seq<nat>, inputs: seq<nat>)
    requires Execute(run) == Some(w) && op !in w.expiring && Ascending(Signs(run)) && Ascending(Inputs(run))
    ensures signs == Signs(run) && inputs == Inputs(run)
    ensures var found := SeeExpired(w, op, now, idleTimeout);
            var gone := LongAgo(signs, 5000, now, true);
            var idle := LongAgo(inputs, idleTimeout, now, false) || idleTimeout == 0;
            && (found.Some? <==> LeaseGranted(w) && (gone || idle))
            && (found.Some? ==>
                  found.value.expiring[op] ==
                  Expiry(w.c.lease.value.id, if gone then HeartbeatLost else IdleTimeout))
  {
    signs, inputs := Signs(run), Inputs(run);
    if LeaseGranted(w) {
      ClocksAreTheNewestSigns(run, w);
    }
    FoundExactly(w, signs, inputs, op, now, idleTimeout);
  }

  // ----- what the holder holds -----

  /** What an action says about `k` in the hands of the holder: pressed, let go, or nothing. */
  ghost function Says(w: World, a: Action, k: Held): Option<bool> {
    if Grants(w, a) || Blurs(w, a) || (Fences(w, a) && k.Button?) then Some(false)
    else if Passes(w, a) && Presses(a.hold.event, k) then Some(true)
    else if Passes(w, a) && Releases(a.hold.event, k) then Some(false)
    else None
  }

  /** The newest that was said about `k` is that it is pressed. */
  ghost predicate Pressing(run: seq<Action>, k: Held)
    requires Execute(run).Some?
  {
    if run == [] then false
    else
      match Says(Execute(run[..|run| - 1]).value, run[|run| - 1], k)
      case Some(pressed) => pressed
      case None => Pressing(run[..|run| - 1], k)
  }

  ghost predicate MovesHeld(w: World, a: Action, w': World) {
    LeaseGranted(w') ==>
      forall k ::
        match Says(w, a, k)
        case Some(pressed) => k in w'.c.lease.value.held <==> pressed
        case None => LeaseGranted(w) && (k in w'.c.lease.value.held <==> k in w.c.lease.value.held)
  }

  /** A lease that is not granted holds nothing, and a granted one has no take any more. */
  ghost predicate Orderly(w: World) {
    && (forall id :: id in w.takes ==> id in w.issued)
    && (w.c.lease.Some? ==>
          var lease := w.c.lease.value;
          lease.id in w.issued && if lease.granted then lease.id !in w.takes else lease.held == {})
  }

  lemma TakeMovesHeld(w: World, a: TakeAction, w': World)
    requires ApplyTake(w, a) == Some(w') && Orderly(w)
    ensures Orderly(w') && MovesHeld(w, Taking(a), w')
  {
  }

  lemma LeadMovesHeld(w: World, a: LeaseAction, w': World)
    requires ApplyLease(w, a) == Some(w') && Orderly(w)
    ensures Orderly(w') && MovesHeld(w, Leading(a), w')
  {
  }

  lemma HolderMovesHeld(w: World, a: HolderAction, w': World)
    requires ApplyHolder(w, a) == Some(w') && Orderly(w)
    ensures Orderly(w') && MovesHeld(w, Holding(a), w')
  {
  }

  lemma WayLeavesIssued(w: World, a: WayAction, w': World)
    requires ApplyWay(w, a) == Some(w')
    ensures w'.issued == w.issued && w'.expiring == w.expiring
  {
  }

  lemma StepMovesHeld(w: World, a: Action, w': World)
    requires Apply(w, a) == Some(w') && Orderly(w)
    ensures Orderly(w') && MovesHeld(w, a, w')
  {
    match a
    case Taking(take) => TakeMovesHeld(w, take, w');
    case OnTheWay(way) =>
      WayLeavesLease(w, way, w');
      WayLeavesIssued(w, way, w');
    case Leading(lead) => LeadMovesHeld(w, lead, w');
    case Holding(hold) => HolderMovesHeld(w, hold, w');
  }

  /**
   A granted lease holds a key or button exactly when the newest its holder did about it, since the grant
   and since the last blur, and for a button since the last fence, is to press it.
   */
  lemma {:induction false} HeldIsWhatIsPressed(run: seq<Action>, w: World)
    requires Execute(run) == Some(w)
    ensures Orderly(w)
    ensures LeaseGranted(w) ==> forall k :: k in w.c.lease.value.held <==> Pressing(run, k)
  {
    if run != [] {
      var before, a := Execute(run[..|run| - 1]).value, run[|run| - 1];
      HeldIsWhatIsPressed(run[..|run| - 1], before);
      StepMovesHeld(before, a, w);
    }
  }

  // ----- how leases end -----

  /** The lease that an action displaces or ends, and what its holder is to be told. */
  function EndedBy(w: World, a: Action): Option<(LeaseId, Loss)> {
    if w.c.lease.None? then None
    else
      var id := w.c.lease.value.id;
      match a
      case Taking(MarkA(_, address, _)) => Some((id, LostTo(HumanController(address))))
      case Leading(TakeoverA) => Some((id, LostTo(AgentController)))
      case Leading(CuaAdmitA(_, _)) => Some((id, LostTo(AgentController)))
      case Leading(EndA(reason)) => Some((id, LostBy(reason)))
      case Leading(ExpireA(op)) => if op in w.expiring then Some((id, LostBy(w.expiring[op].reason))) else None
      case Leading(SessionEndsA) => Some((id, LostBy(SessionEnded)))
      case Leading(ReleaseA(_)) => Some((id, LostByRelease))
      case _ => None
  }

  /** Every end of a lease in a run, oldest first. */
  ghost function Ends(run: seq<Action>): seq<(LeaseId, Loss)>
    requires Execute(run).Some?
  {
    if run == [] then []
    else
      match EndedBy(Execute(run[..|run| - 1]).value, run[|run| - 1])
      case None => Ends(run[..|run| - 1])
      case Some(end) => Ends(run[..|run| - 1]) + [end]
  }

  ghost predicate MovesEnds(w: World, a: Action, w': World) {
    w'.c.ended == match EndedBy(w, a) case None => w.c.ended case Some(end) => Remember(w.c.ended, end.0, end.1)
  }

  lemma TakeMovesEnds(w: World, a: TakeAction, w': World)
    requires ApplyTake(w, a) == Some(w')
    ensures MovesEnds(w, Taking(a), w')
  {
  }

  lemma LeadMovesEnds(w: World, a: LeaseAction, w': World)
    requires ApplyLease(w, a) == Some(w')
    ensures MovesEnds(w, Leading(a), w')
  {
  }

  lemma HolderMovesEnds(w: World, a: HolderAction, w': World)
    requires ApplyHolder(w, a) == Some(w')
    ensures MovesEnds(w, Holding(a), w')
  {
  }

  lemma StepMovesEnds(w: World, a: Action, w': World)
    requires Apply(w, a) == Some(w')
    ensures MovesEnds(w, a, w')
  {
    match a
    case Taking(take) => TakeMovesEnds(w, take, w');
    case OnTheWay(way) => WayLeavesLease(w, way, w');
    case Leading(lead) => LeadMovesEnds(w, lead, w');
    case Holding(hold) => HolderMovesEnds(w, hold, w');
  }

  lemma {:induction false} EndsAreRemembered(run: seq<Action>, w: World)
    requires Execute(run) == Some(w)
    ensures w.c.ended == RememberAll(Ends(run))
  {
    if run != [] {
      var before := Execute(run[..|run| - 1]).value;
      EndsAreRemembered(run[..|run| - 1], before);
      StepMovesEnds(before, run[|run| - 1], w);
      var ends := Ends(run[..|run| - 1]);
      assert forall end :: (ends + [end])[..|ends|] == ends;
    }
  }

  /** Why `id` ended according to `ends`: its newest end, and unknown exactly if it has none. */
  ghost predicate IsWhy(ends: seq<(LeaseId, Loss)>, id: LeaseId, why: NotHeld) {
    && (why.Unknown? <==> forall i :: 0 <= i < |ends| ==> ends[i].0 != id)
    && (forall i :: NewestAt(ends, id, i) ==> why == Lost(ends[i].1))
  }

  /** The newest 16 of `ends`. */
  function Newest16(ends: seq<(LeaseId, Loss)>): seq<(LeaseId, Loss)> {
    if |ends| <= 16 then ends else ends[|ends| - 16..]
  }

  lemma MemoryOfEnds(ends: seq<(LeaseId, Loss)>, id: LeaseId)
    ensures IsWhy(Newest16(ends), id, LossOf(RememberAll(ends), id))
  {
    MemoryIsNewestEnds(ends);
    LossIsNewest(Newest16(ends), id);
  }

  lemma MemorySaysWhy(run: seq<Action>, w: World, id: LeaseId) returns (ends: seq<(LeaseId, Loss)>)
    requires Execute(run) == Some(w)
    ensures ends == Ends(run)
    ensures IsWhy(Newest16(ends), id, LossOf(w.c.ended, id))
  {
    ends := Ends(run);
    EndsAreRemembered(run, w);
    MemoryOfEnds(ends, id);
  }

  /** All four operations of a holder answer one thing when the lease is not held. */
  ghost predicate AllAnswer(c: Control, id: LeaseId, event: RawInput, aimed: (nat, nat), frame: Option<(nat, nat)>,
                            now: nat, why: NotHeld)
  {
    && Heartbeat(c, id, now).1 == Err(why) && Blur(c, id, now).1 == Err(why) && ReleaseLease(c, id).1 == Err(why)
    && CheckInput(c, id, event, aimed, frame, now).1 == InputLost(why)
  }

  /**
   Whoever asks with a lease that is not held is told its newest end of the run, unless 16 leases ended
   since; nobody is told anything else.
   */
  lemma LosersAreToldWhy(run: seq<Action>, w: World, id: LeaseId, event: RawInput, aimed: (nat, nat),
                         frame: Option<(nat, nat)>, now: nat)
    returns (ends: seq<(LeaseId, Loss)>, why: NotHeld)
    requires Execute(run) == Some(w) && !Holds(w.c, id)
    ensures ends == Ends(run)
    ensures AllAnswer(w.c, id, event, aimed, frame, now, why) && IsWhy(Newest16(ends), id, why)
  {
    ends := MemorySaysWhy(run, w, id);
    why := LossOf(w.c.ended, id);
  }

  ghost predicate Ended(run: seq<Action>, id: LeaseId)
    requires Execute(run).Some?
  {
    exists i :: 0 <= i < |Ends(run)| && Ends(run)[i].0 == id
  }

  /** A take that loses its lease by `a` loses it to an end. */
  ghost predicate LosesByEnd(w: World, a: Action, w': World, id: LeaseId) {
    id in w'.takes && !IsLease(w'.c, id) ==>
      id in w.takes && (IsLease(w.c, id) ==> EndedBy(w, a).Some? && EndedBy(w, a).value.0 == id)
  }

  lemma TakeLosesByEnd(w: World, a: TakeAction, w': World, id: LeaseId)
    requires ApplyTake(w, a) == Some(w')
    ensures LosesByEnd(w, Taking(a), w', id)
  {
  }

  lemma LeadLosesByEnd(w: World, a: LeaseAction, w': World, id: LeaseId)
    requires ApplyLease(w, a) == Some(w')
    ensures LosesByEnd(w, Leading(a), w', id)
  {
  }

  lemma HolderLosesNothing(w: World, a: HolderAction, w': World, id: LeaseId)
    requires ApplyHolder(w, a) == Some(w')
    ensures LosesByEnd(w, Holding(a), w', id)
  {
  }

  lemma StepLosesByEnd(w: World, a: Action, w': World, id: LeaseId)
    requires Apply(w, a) == Some(w')
    ensures LosesByEnd(w, a, w', id)
  {
    match a
    case Taking(take) => TakeLosesByEnd(w, take, w', id);
    case OnTheWay(way) => WayLeavesLease(w, way, w');
    case Leading(lead) => LeadLosesByEnd(w, lead, w', id);
    case Holding(hold) => HolderLosesNothing(w, hold, w', id);
  }

  lemma {:induction false} LostTakesEnded(run: seq<Action>, w: World, id: LeaseId)
    requires Execute(run) == Some(w) && id in w.takes && !IsLease(w.c, id)
    ensures Ended(run, id)
  {
    var init, a := run[..|run| - 1], run[|run| - 1];
    var before := Execute(init).value;
    StepLosesByEnd(before, a, w, id);
    if IsLease(before.c, id) {
      assert Ends(run)[|Ends(init)|] == EndedBy(before, a).value;
    } else {
      LostTakesEnded(init, before, id);
      var i :| 0 <= i < |Ends(init)| && Ends(init)[i].0 == id;
      assert Ends(run)[i].0 == id;
    }
  }

  /**
   A take that finds its lease gone was displaced or ended, and answers with its newest end. Only when 16
   leases ended since it says the agent.
   */
  lemma LostTakesAreToldWhy(run: seq<Action>, w: World, id: LeaseId, ok: bool, now: nat)
    returns (ends: seq<(LeaseId, Loss)>, why: NotHeld)
    requires Execute(run) == Some(w) && id in w.takes && !IsLease(w.c, id)
    ensures ends == Ends(run) && Ended(run, id)
    ensures IsWhy(Newest16(ends), id, why)
    ensures var loss := if why.Lost? then why.loss else LostTo(AgentController);
            && SettleTake(w.c, id, ok) == (w.c, SettleLost(loss))
            && FinishTake(w.c, id, ok, now) == (w.c, FinishLost(loss))
  {
    LostTakesEnded(run, w, id);
    ends := MemorySaysWhy(run, w, id);
    why := LossOf(w.c.ended, id);
  }

  // ----- whose lease it is -----

  /** A lease carries the address its take was marked with. */
  lemma {:induction false} LeaseIsAsMarked(run: seq<Action>, w: World) returns (i: nat)
    requires Execute(run) == Some(w) && w.c.lease.Some?
    ensures i < |run| && run[i].Taking? && run[i].take.MarkA?
    ensures run[i].take.id == w.c.lease.value.id && run[i].take.address == w.c.lease.value.address
  {
    var init, a := run[..|run| - 1], run[|run| - 1];
    var before := Execute(init).value;
    if a.Taking? && a.take.MarkA? {
      i := |init|;
    } else {
      StepKeepsHolder(before, a, w);
      i := LeaseIsAsMarked(init, before);
    }
  }

  /** No lease appears, and the one there is keeps its id and its address. */
  ghost predicate SameHolder(w: World, w': World) {
    w'.c.lease.Some? ==>
      && w.c.lease.Some? && w.c.lease.value.id == w'.c.lease.value.id
      && w.c.lease.value.address == w'.c.lease.value.address
  }

  lemma TakeKeepsHolder(w: World, a: TakeAction, w': World)
    requires ApplyTake(w, a) == Some(w') && !a.MarkA?
    ensures SameHolder(w, w')
  {
  }

  lemma LeadKeepsHolder(w: World, a: LeaseAction, w': World)
    requires ApplyLease(w, a) == Some(w')
    ensures SameHolder(w, w')
  {
  }

  lemma HolderKeepsHolder(w: World, a: HolderAction, w': World)
    requires ApplyHolder(w, a) == Some(w')
    ensures SameHolder(w, w')
  {
  }

  lemma StepKeepsHolder(w: World, a: Action, w': World)
    requires Apply(w, a) == Some(w') && !(a.Taking? && a.take.MarkA?)
    ensures SameHolder(w, w')
  {
    match a
    case Taking(take) => TakeKeepsHolder(w, take, w');
    case OnTheWay(way) => WayLeavesLease(w, way, w');
    case Leading(lead) => LeadKeepsHolder(w, lead, w');
    case Holding(hold) => HolderKeepsHolder(w, hold, w');
  }

  // ----- acting calls -----

  /** How many acting calls a run counted in. */
  function CountedIn(run: seq<Action>): nat {
    if run == [] then 0
    else
      var a := run[|run| - 1];
      CountedIn(run[..|run| - 1]) + if a.Leading? && a.lead.CuaAdmitA? then a.lead.count else 0
  }

  /** How many answers to acting calls a run counted out. */
  function CountedOut(run: seq<Action>): nat {
    if run == [] then 0
    else
      var a := run[|run| - 1];
      CountedOut(run[..|run| - 1]) + if a.Leading? && a.lead.CuaFinishA? then a.lead.count else 0
  }

  /** No more answers than calls, at any time. */
  ghost predicate AnswersOnlyCalls(run: seq<Action>) {
    forall i :: 0 <= i <= |run| ==> CountedOut(run[..i]) <= CountedIn(run[..i])
  }

  lemma StepCounts(w: World, a: Action, w': World)
    requires Apply(w, a) == Some(w')
    ensures w'.c.inflight ==
            if a.Leading? && a.lead.CuaAdmitA? then w.c.inflight + a.lead.count
            else if a.Leading? && a.lead.CuaFinishA? then
              if a.lead.count <= w.c.inflight then w.c.inflight - a.lead.count else 0
            else w.c.inflight
  {
    if a.OnTheWay? {
      WayLeavesLease(w, a.way, w');
    }
  }

  /** The count never forgets a call, and is exact when every answer belongs to one. */
  lemma {:induction false} CallsAreCounted(run: seq<Action>, w: World)
    requires Execute(run) == Some(w)
    ensures w.c.inflight >= CountedIn(run) - CountedOut(run)
    ensures AnswersOnlyCalls(run) ==> w.c.inflight == CountedIn(run) - CountedOut(run)
  {
    if run != [] {
      var init := run[..|run| - 1];
      CallsAreCounted(init, Execute(init).value);
      StepCounts(Execute(init).value, run[|run| - 1], w);
      if AnswersOnlyCalls(run) {
        assert forall i :: 0 <= i <= |init| ==> init[..i] == run[..i];
        assert run[..|run|] == run;
      }
    }
  }

  /** While a lease is granted, every acting call that was counted has had its answer. */
  lemma EveryCallIsAnsweredBeforeAGrant(run: seq<Action>, w: World)
    requires Execute(run) == Some(w) && !w.net.saturated && !w.over && LeaseGranted(w)
    ensures CountedIn(run) <= CountedOut(run)
  {
    CallsAreCounted(run, w);
    RunKeeps(run, w);
  }
}
