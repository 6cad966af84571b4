/**
 The control lease of one session as a value, with one function for every critical section of the
 state mutex. A pending transition is counted in the same section that changes the lease.
 */
module ControlState {
  import opened Wrappers
  import opened Vocabulary

  const MAX_EPOCH: nat := 0xFFFF_FFFF_FFFF_FFFF
  const RECENT_ENDS: nat := 16
  const HEARTBEAT_TIMEOUT: nat := 5000

  type Epoch = e: nat | e <= MAX_EPOCH

  /** Lease ids are 128 random bits; here any value, told apart by equality only. */
  type LeaseId = nat

  /** The epoch after `e`; the 64-bit counter saturates. */
  function NextEpoch(e: Epoch): Epoch {
    if e < MAX_EPOCH then e + 1 else MAX_EPOCH
  }

  datatype ControllerRef = AgentController | HumanController(address: string)

  datatype EndReason = HeartbeatLost | IdleTimeout | ViewerStopped | SessionEnded | DaemonStopped

  datatype Loss = LostTo(to: ControllerRef) | LostBy(reason: EndReason) | LostByRelease

  datatype NotHeld = Lost(loss: Loss) | Unknown

  /** A human lease; it is pending until the take that created it is granted. */
  datatype Lease = Lease(
    id: LeaseId,
    address: string,
    granted: bool,
    lastHeartbeat: nat,
    lastInput: nat,
    held: set<Held>)

  /** The release obligation of one control change. */
  datatype Transition = Transition(release: set<Held>, at: Epoch, change: Option<Epoch>)

  datatype Control = Control(
    lease: Option<Lease>,
    epoch: Epoch,
    inflight: nat,
    ended: seq<(LeaseId, Loss)>,
    pending: nat)

  const Initial := Control(None, 0, 0, [], 0)

  predicate Holds(c: Control, id: LeaseId) {
    c.lease.Some? && c.lease.value.id == id && c.lease.value.granted
  }

  predicate IsLease(c: Control, id: LeaseId) {
    c.lease.Some? && c.lease.value.id == id
  }

  // ----- the last lease ends -----

  function Remember(ended: seq<(LeaseId, Loss)>, id: LeaseId, loss: Loss): seq<(LeaseId, Loss)> {
    (if |ended| >= RECENT_ENDS then ended[1..] else ended) + [(id, loss)]
  }

  function LossOf(ended: seq<(LeaseId, Loss)>, id: LeaseId): NotHeld {
    if ended == [] then Unknown
    else if ended[|ended| - 1].0 == id then Lost(ended[|ended| - 1].1)
    else LossOf(ended[..|ended| - 1], id)
  }

  /** All ends of a history, remembered one after the other. */
  function RememberAll(history: seq<(LeaseId, Loss)>): seq<(LeaseId, Loss)> {
    if history == [] then []
    else Remember(RememberAll(history[..|history| - 1]), history[|history| - 1].0, history[|history| - 1].1)
  }

  /** The memory is the newest `RECENT_ENDS` ends of the whole history. */
  lemma {:induction false} MemoryIsNewestEnds(history: seq<(LeaseId, Loss)>)
    ensures RememberAll(history)
         == if |history| <= RECENT_ENDS then history else history[|history| - RECENT_ENDS..]
  {
    if history != [] {
      MemoryIsNewestEnds(history[..|history| - 1]);
      assert history == history[..|history| - 1] + [history[|history| - 1]];
    }
  }

  /** The last end of `id` in `ended` is at `i`. */
  ghost predicate NewestAt(ended: seq<(LeaseId, Loss)>, id: LeaseId, i: int) {
    0 <= i < |ended| && ended[i].0 == id && forall j :: i < j < |ended| ==> ended[j].0 != id
  }

  /** A lease is answered with its newest remembered loss, and as unknown exactly when none is remembered. */
  lemma {:induction false} LossIsNewest(ended: seq<(LeaseId, Loss)>, id: LeaseId)
    ensures LossOf(ended, id).Unknown? <==> forall i :: 0 <= i < |ended| ==> ended[i].0 != id
    ensures forall i :: NewestAt(ended, id, i) ==> LossOf(ended, id) == Lost(ended[i].1)
  {
    if ended != [] && ended[|ended| - 1].0 != id {
      var rest := ended[..|ended| - 1];
      LossIsNewest(rest, id);
      assert forall i :: 0 <= i < |rest| ==> rest[i] == ended[i];
      forall i | NewestAt(ended, id, i) ensures LossOf(ended, id) == Lost(ended[i].1) {
        assert NewestAt(rest, id, i);
      }
    }
  }

  // ----- transitions -----

  /** A pending transition that releases `held` at the current epoch. */
  function Begin(c: Control, held: set<Held>): (Control, Transition) {
    (c.(pending := c.pending + 1), Transition(held, c.epoch, None))
  }

  /** A controller change: the next epoch, and the pending transition that sends it. */
  function Advance(c: Control): (Control, Transition) {
    var next := c.(epoch := NextEpoch(c.epoch));
    var (begun, transition) := Begin(next, {});
    (begun, transition.(change := Some(next.epoch)))
  }

  /** A transition is discharged or dropped. */
  function Discharged(c: Control): Control {
    c.(pending := if c.pending == 0 then 0 else c.pending - 1)
  }

  // ----- admission of the agent -----

  datatype Admission = Wait | Refused(address: string) | Admitted(epoch: Epoch)

  /** One poll of a native agent action. */
  function PollAgent(c: Control): Admission {
    match c.lease
    case Some(lease) => Refused(lease.address)
    case None => if c.pending == 0 then Admitted(c.epoch) else Wait
  }

  datatype CuaAnswer = CuaRefused(address: string) | CuaAdmitted(transition: Option<Transition>)

  /** Check the controller and count the calls, in one section. */
  function AdmitCua(c: Control, count: nat, takeover: bool): (Control, CuaAnswer) {
    match c.lease
    case None => (c.(inflight := c.inflight + count), CuaAdmitted(None))
    case Some(lease) =>
      if !takeover then (c, CuaRefused(lease.address))
      else
        var (freed, transition) := AgentTakeover(c);
        (freed.(inflight := freed.inflight + count), CuaAdmitted(transition))
  }

  /** `count` calls are answered; the count never goes below zero. */
  function FinishCua(c: Control, count: nat): Control {
    c.(inflight := if count <= c.inflight then c.inflight - count else 0)
  }

  // ----- lease ends -----

  /** The transition of the end of `lease`, which is already taken out of `c`. */
  function EndLease(c: Control, lease: Lease): (Control, Transition) {
    if lease.granted then Advance(c) else Begin(c, {})
  }

  function AgentTakeover(c: Control): (Control, Option<Transition>) {
    match c.lease
    case None => (c, None)
    case Some(lease) =>
      var freed := c.(lease := None, ended := Remember(c.ended, lease.id, LostTo(AgentController)));
      var (ended, transition) := EndLease(freed, lease);
      (ended, Some(transition))
  }

  function TakeHuman(c: Control, reason: EndReason): (Control, Option<Lease>) {
    match c.lease
    case None => (c, None)
    case Some(lease) =>
      (c.(lease := None, ended := Remember(c.ended, lease.id, LostBy(reason))), Some(lease))
  }

  function EndHuman(c: Control, reason: EndReason): (Control, Option<Transition>) {
    match TakeHuman(c, reason)
    case (_, None) => (c, None)
    case (freed, Some(lease)) =>
      var (ended, transition) := EndLease(freed, lease);
      (ended, Some(transition))
  }

  /** The session is gone: nothing is sent and the epoch stays. */
  function EndHumanEnded(c: Control): (Control, Option<Transition>) {
    match TakeHuman(c, SessionEnded)
    case (_, None) => (c, None)
    case (freed, Some(_)) =>
      var (ended, transition) := Begin(freed, {});
      (ended, Some(transition))
  }

  function ReleaseLease(c: Control, id: LeaseId): (Control, Result<Transition, NotHeld>) {
    if !Holds(c, id) then (c, Err(LossOf(c.ended, id)))
    else
      var (ended, transition) := Advance(c.(lease := None, ended := Remember(c.ended, id, LostByRelease)));
      (ended, Ok(transition))
  }

  /** Why a granted lease is to end at `now`, if it is. */
  function ExpireReason(c: Control, now: nat, idleTimeout: nat): Option<EndReason> {
    if c.lease.None? || !c.lease.value.granted then None
    else if Since(now, c.lease.value.lastHeartbeat) > HEARTBEAT_TIMEOUT then Some(HeartbeatLost)
    else if Since(now, c.lease.value.lastInput) >= idleTimeout then Some(IdleTimeout)
    else None
  }

  function Since(now: nat, earlier: nat): nat {
    if now < earlier then 0 else now - earlier
  }

  // ----- the holder -----

  function Heartbeat(c: Control, id: LeaseId, now: nat): (Control, Result<(), NotHeld>) {
    if !Holds(c, id) then (c, Err(LossOf(c.ended, id)))
    else (c.(lease := Some(c.lease.value.(lastHeartbeat := now))), Ok(()))
  }

  function Blur(c: Control, id: LeaseId, now: nat): (Control, Result<Transition, NotHeld>) {
    if !Holds(c, id) then (c, Err(LossOf(c.ended, id)))
    else
      var lease := c.lease.value;
      var (begun, transition) :=
        Begin(c.(lease := Some(lease.(lastHeartbeat := now, held := {}))), lease.held);
      (begun, Ok(transition))
  }

  /** What the lease check of one input event answers. */
  datatype InputAnswer = InputLost(why: NotHeld) | Fenced(buttons: set<Held>) | Tracked

  predicate GeometryMatches(event: RawInput, aimed: (nat, nat), current: Option<(nat, nat)>) {
    current == Some(aimed) && (event.PointerMove? ==> event.x < aimed.0 && event.y < aimed.1)
  }

  predicate ReleasesHeldButton(held: set<Held>, event: RawInput) {
    event.ButtonInput? && !event.down && Button(event.button) in held
  }

  /** The event aims at another frame and is not the release of a held button. */
  predicate OffFrame(held: set<Held>, event: RawInput, aimed: (nat, nat), current: Option<(nat, nat)>) {
    IsPointer(event) && !GeometryMatches(event, aimed, current) && !ReleasesHeldButton(held, event)
  }

  function Buttons(held: set<Held>): set<Held> {
    set k | k in held && k.Button?
  }

  /** The lease check of one input event, and what it does to the held set. */
  function CheckInput(c: Control, id: LeaseId, event: RawInput, aimed: (nat, nat),
                      current: Option<(nat, nat)>, now: nat): (Control, InputAnswer)
  {
    if !Holds(c, id) then (c, InputLost(LossOf(c.ended, id)))
    else
      var lease := c.lease.value;
      if OffFrame(lease.held, event, aimed, current) then
        (c.(lease := Some(lease.(held := lease.held - Buttons(lease.held)))), Fenced(Buttons(lease.held)))
      else
        (c.(lease := Some(lease.(held := Track(lease.held, event), lastInput := now, lastHeartbeat := now))),
         Tracked)
  }

  /**
   Which events of the holder are fenced: with another frame or none, every wheel turn, move and button
   but the release of a held one; with the right frame, only a move beyond its edge; a key never.
   */
  lemma EventsAreFencedExactly(c: Control, id: LeaseId, event: RawInput, aimed: (nat, nat),
                               current: Option<(nat, nat)>, now: nat)
    requires Holds(c, id)
    ensures !CheckInput(c, id, event, aimed, current, now).1.InputLost?
    ensures CheckInput(c, id, event, aimed, current, now).1.Fenced? <==>
            match event
            case KeyInput(_, _, _) => false
            case Wheel(_, _) => current != Some(aimed)
            case PointerMove(x, y) => current != Some(aimed) || x >= aimed.0 || y >= aimed.1
            case ButtonInput(button, down) =>
              current != Some(aimed) && (down || Button(button) !in c.lease.value.held)
  {
  }

  /** After a fenced pointer event the lease holds no button, and keeps every key. */
  lemma FenceLeavesNoButton(c: Control, id: LeaseId, event: RawInput, aimed: (nat, nat),
                            current: Option<(nat, nat)>, now: nat)
    requires CheckInput(c, id, event, aimed, current, now).1.Fenced?
    ensures var (after, answer) := CheckInput(c, id, event, aimed, current, now);
            && Holds(c, id) && Holds(after, id)
            && (forall k :: k in after.lease.value.held <==> k in c.lease.value.held && k.Key?)
            && (forall k :: k in answer.buttons <==> k in c.lease.value.held && k.Button?)
  {
  }

  /** The release of a held button always reaches the session, whatever the frame is now. */
  lemma HeldReleaseIsNeverFenced(c: Control, id: LeaseId, button: PointerButton, aimed: (nat, nat),
                                 current: Option<(nat, nat)>, now: nat)
    requires Holds(c, id) && Button(button) in c.lease.value.held
    ensures var (after, answer) := CheckInput(c, id, ButtonInput(button, false), aimed, current, now);
            answer.Tracked? && after.lease.value.held == c.lease.value.held - {Button(button)}
  {
  }

  // ----- a human take -----

  /** The new lease replaces the old one. Only a granted old lease is a controller change. */
  function MarkTake(c: Control, id: LeaseId, address: string, now: nat): (Control, Option<Transition>) {
    var marked := c.(lease := Some(Lease(id, address, false, now, now, {})));
    match c.lease
    case None => (marked, None)
    case Some(previous) =>
      var remembered :=
        marked.(ended := Remember(c.ended, previous.id, LostTo(HumanController(address))));
      if previous.granted then
        var (advanced, transition) := Advance(remembered);
        (advanced, Some(transition))
      else (remembered, None)
  }

  datatype SettleAnswer = SettleLost(loss: Loss) | SettleBusy | SettleAdvanced(transition: Transition)

  /** A take from the agent, when its waits are over or timed out. */
  function SettleTake(c: Control, id: LeaseId, settled: bool): (Control, SettleAnswer) {
    if !IsLease(c, id) then (c, SettleLost(LostTake(c, id)))
    else if !settled then (c.(lease := None), SettleBusy)
    else
      var (advanced, transition) := Advance(c);
      (advanced, SettleAdvanced(transition))
  }

  datatype FinishAnswer = FinishLost(loss: Loss) | FinishBusy | FinishGranted

  /** The last section of a take: lost, busy or granted. */
  function FinishTake(c: Control, id: LeaseId, confirmed: bool, now: nat): (Control, FinishAnswer) {
    if !IsLease(c, id) then (c, FinishLost(LostTake(c, id)))
    else if !confirmed then (c.(lease := None), FinishBusy)
    else
      (c.(lease := Some(c.lease.value.(granted := true, lastHeartbeat := now, lastInput := now))),
       FinishGranted)
  }

  /** An abandoned take that is still pending is undone. */
  function UndoTake(c: Control, id: LeaseId): Control {
    if IsLease(c, id) && !c.lease.value.granted then c.(lease := None) else c
  }

  /**
   An expiry decides in one section and ends the lease in the next. A take that marks itself between
   the two is ended in place of the lease that was found expired, although it was only pending.
   */
  lemma ExpiryCanEndANewTake(c: Control, id: LeaseId, address: string, now: nat, idleTimeout: nat)
    requires ExpireReason(c, now, idleTimeout).Some? && id != c.lease.value.id
    ensures var reason := ExpireReason(c, now, idleTimeout).value;
            var marked := MarkTake(c, id, address, now).0;
            && IsLease(marked, id) && !marked.lease.value.granted && ExpireReason(marked, now, idleTimeout).None?
            && EndHuman(marked, reason).0.lease.None?
            && LossOf(EndHuman(marked, reason).0.ended, id) == Lost(LostBy(reason))
  {
  }

  function LostTake(c: Control, id: LeaseId): Loss {
    match LossOf(c.ended, id)
    case Lost(loss) => loss
    case Unknown => LostTo(AgentController)
  }
}
