/** The control loop of the bridge: one attachment at a time, spoken about in a fixed grammar. */
module BridgeRuntime {
  import opened Wrappers
  import opened Protocol

  const MAX_U64: nat := 0xFFFF_FFFF_FFFF_FFFF

  datatype Config = Config(generation: nat, bundleId: string, bridgeVersion: string)

  /** The attached child. */
  datatype Attachment = Attachment(id: nat, generation: nat)

  /**
   What one turn of the loop sees. `room` says whether the output takes an envelope of this turn,
   `spawned` whether a child starts, and `taken` whether the child's queue takes a message.
   */
  datatype Event =
    | InputClosed
    | Incoming(envelope: Envelope, spawned: bool, taken: bool, room: bool)
    | ChildSpoke(text: string, room: bool)
    | ChildEnded(reason: CloseReason, room: bool)
    | Tick(silent: bool, overdue: bool, done: Option<Result<string, ()>>, room: bool)

  /** A message to the daemon, under the control id of the request it answers, or 0. */
  datatype Answer = Answer(controlId: nat, message: Message)

  /** A message that reached a child. */
  datatype Delivery = Delivery(child: Attachment, named: Attachment, text: string)

  /** The variables of the loop; `emitted` and `delivered` are all it ever sent. */
  datatype Loop = Loop(
    ready: bool,
    active: Option<Attachment>,
    runtimeGeneration: nat,
    lastAttachmentId: nat,
    transfer: Option<nat>,
    emitted: seq<Answer>,
    delivered: seq<Delivery>,
    stopped: bool)

  const Begun := Loop(false, None, 0, 0, None, [], [], false)

  // ----- one turn -----

  /** Send `m` under the control id `to`, or stop when the output does not take it. */
  function Emit(l: Loop, to: nat, m: Message, room: bool): Loop {
    if room then l.(emitted := l.emitted + [Answer(to, m)]) else l.(stopped := true)
  }

  function OnOpen(l: Loop, to: nat, id: nat, spawned: bool, room: bool): Loop {
    if l.active.Some? then Emit(l, to, Failure(AttachmentBusy), room)
    else if id <= l.lastAttachmentId then
      Emit(l, to, Failure(IdMustIncrease), room)
    else
      var l1 := l.(lastAttachmentId := id);
      if l1.runtimeGeneration >= MAX_U64 then l1.(stopped := true)
      else
        var l2 := l1.(runtimeGeneration := l1.runtimeGeneration + 1);
        if spawned then
          Emit(l2.(active := Some(Attachment(id, l2.runtimeGeneration))), to, Opened(id, l2.runtimeGeneration), room)
        else Emit(l2, to, Failure(SpawnFailed), room)
  }

  function OnMcp(l: Loop, named: Attachment, text: string, taken: bool, room: bool): Loop {
    if l.active != Some(named) then l
    else if taken then l.(delivered := l.delivered + [Delivery(l.active.value, named, text)])
    else Emit(l.(active := None), 0, Closed(named.id, QueueSaturated), room)
  }

  function OnClose(l: Loop, to: nat, id: nat, reason: CloseReason, room: bool): Loop {
    if l.active.Some? && l.active.value.id == id then Emit(l.(active := None), to, Closed(id, reason), room) else l
  }

  /** A message other than Hello once the loop is ready. */
  function OnRequest(l: Loop, e: Envelope, spawned: bool, taken: bool, room: bool): Loop {
    match e.message
    case Ping => Emit(l, e.controlId, Pong, room)
    case Open(id) => OnOpen(l, e.controlId, id, spawned, room)
    case Mcp(id, generation, text) => OnMcp(l, Attachment(id, generation), text, taken, room)
    case Close(id, reason) => OnClose(l, e.controlId, id, reason, room)
    case FileTransfer(_) =>
      if l.transfer.Some? then Emit(l, e.controlId, Failure(TransferBusy), room) else l.(transfer := Some(e.controlId))
    case _ => Emit(l, e.controlId, Failure(Unexpected), room)
  }

  function OnEnvelope(config: Config, l: Loop, e: Envelope, spawned: bool, taken: bool, room: bool): Loop {
    if e.generation != config.generation then l
    else if e.version != PROTOCOL_VERSION then l.(stopped := true)
    else if e.message.Hello? then
      if e.message.bundleId != config.bundleId then l.(stopped := true)
      else Emit(l.(ready := true), e.controlId, Ready(config.bundleId, config.bridgeVersion), room)
    else if !l.ready then Emit(l, e.controlId, Failure(Unexpected), room)
    else OnRequest(l, e, spawned, taken, room)
  }

  function OnTick(l: Loop, silent: bool, overdue: bool, done: Option<Result<string, ()>>, room: bool): Loop {
    if silent || (overdue && l.transfer.Some?) then l.(stopped := true)
    else if l.transfer.None? || done.None? then l
    else if done.value.Err? then l.(transfer := None, stopped := true)
    else Emit(l.(transfer := None), l.transfer.value, FileTransferResult(done.value.value), room)
  }

  function Turn(config: Config, l: Loop, event: Event): Loop {
    if l.stopped then l
    else
      match event
      case InputClosed => l.(stopped := true)
      case Incoming(e, spawned, taken, room) => OnEnvelope(config, l, e, spawned, taken, room)
      case ChildSpoke(text, room) =>
        if l.active.None? then l
        else Emit(l, 0, Mcp(l.active.value.id, l.active.value.generation, text), room)
      case ChildEnded(reason, room) =>
        if l.active.None? then l
        else Emit(l.(active := None), 0, Closed(l.active.value.id, reason), room)
      case Tick(silent, overdue, done, room) => OnTick(l, silent, overdue, done, room)
  }

  function Turns(config: Config, events: seq<Event>): Loop {
    if events == [] then Begun else Turn(config, Turns(config, events[..|events| - 1]), events[|events| - 1])
  }

  // ----- the loop itself -----

  /** The variables of the control loop, changed turn by turn. */
  class ControlLoop {
    const config: Config
    var ready: bool
    var active: Option<Attachment>
    var runtimeGeneration: nat
    var lastAttachmentId: nat
    var transfer: Option<nat>
    var emitted: seq<Answer>
    var delivered: seq<Delivery>
    var stopped: bool

    function View(): Loop
      reads this
    {
      Loop(ready, active, runtimeGeneration, lastAttachmentId, transfer, emitted, delivered, stopped)
    }

    constructor (config: Config)
      ensures View() == Begun && this.config == config
    {
      this.config := config;
      ready, active, runtimeGeneration, lastAttachmentId, transfer := false, None, 0, 0, None;
      emitted, delivered, stopped := [], [], false;
    }

    method Say(to: nat, m: Message, room: bool)
      modifies this`emitted, this`stopped
      ensures View() == Emit(old(View()), to, m, room)
    {
      if room {
        emitted := emitted + [Answer(to, m)];
      } else {
        stopped := true;
      }
    }

    method Open(to: nat, id: nat, spawned: bool, room: bool)
      modifies this
      ensures View() == OnOpen(old(View()), to, id, spawned, room)
    {
      if active.Some? {
        Say(to, Failure(AttachmentBusy), room);
        return;
      }
      if id <= lastAttachmentId {
        Say(to, Failure(IdMustIncrease), room);
        return;
      }
      lastAttachmentId := id;
      if runtimeGeneration >= MAX_U64 {
        stopped := true;
        return;
      }
      runtimeGeneration := runtimeGeneration + 1;
      if spawned {
        active := Some(Attachment(id, runtimeGeneration));
        Say(to, Opened(id, runtimeGeneration), room);
      } else {
        Say(to, Failure(SpawnFailed), room);
      }
    }

    method Forward(id: nat, generation: nat, text: string, taken: bool, room: bool)
      modifies this
      ensures View() == OnMcp(old(View()), Attachment(id, generation), text, taken, room)
    {
      if active.None? || active.value.id != id || active.value.generation != generation {
        return;
      }
      if taken {
        delivered := delivered + [Delivery(active.value, Attachment(id, generation), text)];
      } else {
        active := None;
        Say(0, Closed(id, QueueSaturated), room);
      }
    }

    method Close(to: nat, id: nat, reason: CloseReason, room: bool)
      modifies this
      ensures View() == OnClose(old(View()), to, id, reason, room)
    {
      if active.Some? && active.value.id == id {
        active := None;
        Say(to, Closed(id, reason), room);
      }
    }

    method Receive(e: Envelope, spawned: bool, taken: bool, room: bool)
      modifies this
      ensures View() == OnEnvelope(config, old(View()), e, spawned, taken, room)
    {
      if e.generation != config.generation {
        return;
      }
      if e.version != PROTOCOL_VERSION {
        stopped := true;
        return;
      }
      if e.message.Hello? {
        if e.message.bundleId != config.bundleId {
          stopped := true;
          return;
        }
        ready := true;
        Say(e.controlId, Ready(config.bundleId, config.bridgeVersion), room);
        return;
      }
      if !ready {
        Say(e.controlId, Failure(Unexpected), room);
        return;
      }
      if e.message.Ping? {
        Say(e.controlId, Pong, room);
      } else if e.message.Open? {
        Open(e.controlId, e.message.attachmentId, spawned, room);
      } else if e.message.Mcp? {
        Forward(e.message.attachmentId, e.message.runtimeGeneration, e.message.message, taken, room);
      } else if e.message.Close? {
        Close(e.controlId, e.message.attachmentId, e.message.reason, room);
      } else if !e.message.FileTransfer? {
        Say(e.controlId, Failure(Unexpected), room);
      } else if transfer.Some? {
        Say(e.controlId, Failure(TransferBusy), room);
      } else {
        transfer := Some(e.controlId);
      }
    }

    method Beat(silent: bool, overdue: bool, done: Option<Result<string, ()>>, room: bool)
      modifies this
      ensures View() == OnTick(old(View()), silent, overdue, done, room)
    {
      if silent || (overdue && transfer.Some?) {
        stopped := true;
        return;
      }
      if transfer.Some? && done.Some? {
        var to := transfer.value;
        transfer := None;
        if done.value.Err? {
          stopped := true;
        } else {
          Say(to, FileTransferResult(done.value.value), room);
        }
      }
    }

    /** Turn by turn until the loop stops. */
    method Run(events: seq<Event>)
      requires View() == Begun
      modifies this
      ensures View() == Turns(config, events)
    {
      var i := 0;
      while i < |events| && !stopped
        invariant 0 <= i <= |events|
        invariant View() == Turns(config, events[..i])
      {
        assert events[..i + 1][..i] == events[..i];
        match events[i] {
          case InputClosed => stopped := true;
          case Incoming(e, spawned, taken, room) => Receive(e, spawned, taken, room);
          case ChildSpoke(text, room) =>
            if active.Some? {
              Say(0, Mcp(active.value.id, active.value.generation, text), room);
            }
          case ChildEnded(reason, room) =>
            if active.Some? {
              var id := active.value.id;
              active := None;
              Say(0, Closed(id, reason), room);
            }
          case Tick(silent, overdue, done, room) => Beat(silent, overdue, done, room);
        }
        i := i + 1;
      }
      StoppedStays(config, events, i);
    }
  }

  lemma {:induction false} StoppedStays(config: Config, events: seq<Event>, i: nat)
    requires i <= |events| && (i < |events| ==> Turns(config, events[..i]).stopped)
    ensures Turns(config, events) == Turns(config, events[..i])
    decreases |events| - i
  {
    assert events[..|events|] == events;
    if i < |events| {
      assert events[..i + 1][..i] == events[..i];
      StoppedStays(config, events, i + 1);
    }
  }

  // ----- the grammar -----

  /** A reader of the emitted messages: the open attachment, the largest numbers seen, and whether it was greeted. */
  datatype Reader = Reader(open: Option<Attachment>, lastId: nat, lastGeneration: nat, greeted: bool)

  const NewReader := Reader(None, 0, 0, false)

  /** The next message, if the grammar allows it here. */
  function ReadOne(r: Reader, m: Message): Option<Reader> {
    match m
    case Ready(_, _) => Some(r.(greeted := true))
    case Failure(_) => Some(r)
    case Opened(id, generation) =>
      if r.greeted && r.open.None? && id > r.lastId && generation > r.lastGeneration
      then Some(r.(open := Some(Attachment(id, generation)), lastId := id, lastGeneration := generation)) else None
    case Closed(id, _) =>
      if r.greeted && r.open.Some? && r.open.value.id == id then Some(r.(open := None)) else None
    case Mcp(id, generation, _) =>
      if r.greeted && r.open == Some(Attachment(id, generation)) then Some(r) else None
    case _ => if r.greeted then Some(r) else None
  }

  function ReadAll(messages: seq<Answer>): Option<Reader> {
    if messages == [] then Some(NewReader)
    else
      match ReadAll(messages[..|messages| - 1])
      case None => None
      case Some(r) => ReadOne(r, messages[|messages| - 1].message)
  }

  lemma ReadNext(messages: seq<Answer>, m: Answer)
    ensures ReadAll(messages + [m]) ==
            if ReadAll(messages).None? then None else ReadOne(ReadAll(messages).value, m.message)
  {
    assert (messages + [m])[..|messages + [m]| - 1] == messages;
  }

  /** The reader follows the loop. */
  ghost predicate Follows(l: Loop) {
    && ReadAll(l.emitted).Some?
    && var r := ReadAll(l.emitted).value;
       && r.lastId <= l.lastAttachmentId && r.lastGeneration <= l.runtimeGeneration
       && (!l.stopped ==> r.open == l.active && r.greeted == l.ready)
  }

  ghost predicate DeliveredToItsOwn(l: Loop) {
    forall i :: 0 <= i < |l.delivered| ==> l.delivered[i].child == l.delivered[i].named
  }

  lemma EmitFollows(l: Loop, l1: Loop, to: nat, m: Message, room: bool)
    requires Follows(l) && !l.stopped && l1.emitted == l.emitted && !l1.stopped
    requires l1.lastAttachmentId >= l.lastAttachmentId && l1.runtimeGeneration >= l.runtimeGeneration
    requires var read := ReadOne(ReadAll(l.emitted).value, m);
             && read.Some? && read.value.open == l1.active && read.value.greeted == l1.ready
             && read.value.lastId <= l1.lastAttachmentId && read.value.lastGeneration <= l1.runtimeGeneration
    ensures Follows(Emit(l1, to, m, room))
  {
    ReadNext(l.emitted, Answer(to, m));
  }

  lemma OpenFollows(l: Loop, to: nat, id: nat, spawned: bool, room: bool)
    requires Follows(l) && !l.stopped && l.ready
    ensures Follows(OnOpen(l, to, id, spawned, room))
  {
    if l.active.Some? {
      EmitFollows(l, l, to, Failure(AttachmentBusy), room);
    } else if id <= l.lastAttachmentId {
      EmitFollows(l, l, to, Failure(IdMustIncrease), room);
    } else if l.runtimeGeneration < MAX_U64 {
      var next := l.runtimeGeneration + 1;
      var l2 := l.(lastAttachmentId := id, runtimeGeneration := next);
      if spawned {
        EmitFollows(l, l2.(active := Some(Attachment(id, next))), to, Opened(id, next), room);
      } else {
        EmitFollows(l, l2, to, Failure(SpawnFailed), room);
      }
    }
  }

  lemma McpFollows(l: Loop, named: Attachment, text: string, taken: bool, room: bool)
    requires Follows(l) && !l.stopped && l.ready
    ensures Follows(OnMcp(l, named, text, taken, room))
  {
    if l.active == Some(named) && !taken {
      EmitFollows(l, l.(active := None), 0, Closed(named.id, QueueSaturated), room);
    }
  }

  lemma CloseFollows(l: Loop, to: nat, id: nat, reason: CloseReason, room: bool)
    requires Follows(l) && !l.stopped && l.ready
    ensures Follows(OnClose(l, to, id, reason, room))
  {
    if l.active.Some? && l.active.value.id == id {
      EmitFollows(l, l.(active := None), to, Closed(id, reason), room);
    }
  }

  lemma RequestFollows(l: Loop, e: Envelope, spawned: bool, taken: bool, room: bool)
    requires Follows(l) && !l.stopped && l.ready
    ensures Follows(OnRequest(l, e, spawned, taken, room))
  {
    match e.message
    case Ping => EmitFollows(l, l, e.controlId, Pong, room);
    case Open(id) => OpenFollows(l, e.controlId, id, spawned, room);
    case Mcp(id, generation, text) => McpFollows(l, Attachment(id, generation), text, taken, room);
    case Close(id, reason) => CloseFollows(l, e.controlId, id, reason, room);
    case FileTransfer(_) =>
      if l.transfer.Some? {
        EmitFollows(l, l, e.controlId, Failure(TransferBusy), room);
      }
    case _ => EmitFollows(l, l, e.controlId, Failure(Unexpected), room);
  }

  lemma EnvelopeFollows(config: Config, l: Loop, e: Envelope, spawned: bool, taken: bool, room: bool)
    requires Follows(l) && !l.stopped
    ensures Follows(OnEnvelope(config, l, e, spawned, taken, room))
  {
    if e.generation == config.generation && e.version == PROTOCOL_VERSION {
      if e.message.Hello? {
        EmitFollows(l, l.(ready := true), e.controlId, Ready(config.bundleId, config.bridgeVersion), room);
      } else if !l.ready {
        EmitFollows(l, l, e.controlId, Failure(Unexpected), room);
      } else {
        RequestFollows(l, e, spawned, taken, room);
      }
    }
  }

  lemma TurnFollows(config: Config, l: Loop, event: Event)
    requires Follows(l) && (l.active.Some? || l.transfer.Some? ==> l.ready)
    ensures Follows(Turn(config, l, event))
  {
    if !l.stopped {
      match event
      case InputClosed =>
      case Incoming(e, spawned, taken, room) => EnvelopeFollows(config, l, e, spawned, taken, room);
      case ChildSpoke(text, room) =>
        if l.active.Some? {
          EmitFollows(l, l, 0, Mcp(l.active.value.id, l.active.value.generation, text), room);
        }
      case ChildEnded(reason, room) =>
        if l.active.Some? {
          EmitFollows(l, l.(active := None), 0, Closed(l.active.value.id, reason), room);
        }
      case Tick(silent, overdue, done, room) =>
        if !silent && !overdue && l.transfer.Some? && done.Some? && done.value.Ok? {
          EmitFollows(l, l.(transfer := None), l.transfer.value, FileTransferResult(done.value.value), room);
        }
    }
  }

  lemma OpenDelivers(l: Loop, to: nat, id: nat, spawned: bool, room: bool)
    ensures var l' := OnOpen(l, to, id, spawned, room); l'.ready == l.ready && l'.delivered == l.delivered
  {
  }

  lemma RequestDelivers(l: Loop, e: Envelope, spawned: bool, taken: bool, room: bool)
    ensures var l' := OnRequest(l, e, spawned, taken, room);
            && l'.ready == l.ready
            && (l'.delivered == l.delivered
                || (l.active.Some? && e.message.Mcp?
                    && l'.delivered == l.delivered + [Delivery(l.active.value, l.active.value, e.message.message)]))
  {
    if e.message.Open? {
      OpenDelivers(l, e.controlId, e.message.attachmentId, spawned, room);
    }
  }

  lemma EnvelopeDelivers(config: Config, l: Loop, e: Envelope, spawned: bool, taken: bool, room: bool)
    requires l.active.Some? || l.transfer.Some? ==> l.ready
    ensures var l' := OnEnvelope(config, l, e, spawned, taken, room);
            && (l'.active.Some? || l'.transfer.Some? ==> l'.ready)
            && (DeliveredToItsOwn(l) ==> DeliveredToItsOwn(l'))
  {
    RequestDelivers(l, e, spawned, taken, room);
  }

  lemma TurnDelivers(config: Config, l: Loop, event: Event)
    requires l.active.Some? || l.transfer.Some? ==> l.ready
    ensures var l' := Turn(config, l, event); l'.active.Some? || l'.transfer.Some? ==> l'.ready
    ensures DeliveredToItsOwn(l) ==> DeliveredToItsOwn(Turn(config, l, event))
  {
    if event.Incoming? {
      EnvelopeDelivers(config, l, event.envelope, event.spawned, event.taken, event.room);
    }
  }

  /** No message that names another attachment or generation reaches a child. */
  lemma {:induction false} MessagesReachTheirOwnChild(config: Config, events: seq<Event>)
    ensures var l := Turns(config, events);
            DeliveredToItsOwn(l) && (l.active.Some? || l.transfer.Some? ==> l.ready)
  {
    if events != [] {
      MessagesReachTheirOwnChild(config, events[..|events| - 1]);
      TurnDelivers(config, Turns(config, events[..|events| - 1]), events[|events| - 1]);
    }
  }

  /**
   Every run speaks the grammar: before the first accepted Hello only errors, then Opened and Closed in
   turn with growing numbers, and messages of an attachment only while it is open.
   */
  lemma {:induction false} EveryRunSpeaksTheGrammar(config: Config, events: seq<Event>)
    ensures Follows(Turns(config, events))
  {
    if events != [] {
      EveryRunSpeaksTheGrammar(config, events[..|events| - 1]);
      MessagesReachTheirOwnChild(config, events[..|events| - 1]);
      TurnFollows(config, Turns(config, events[..|events| - 1]), events[|events| - 1]);
    }
  }

  // ----- what the grammar says -----

  lemma {:induction false} ReadPrefix(messages: seq<Answer>, n: nat)
    requires ReadAll(messages).Some? && n <= |messages|
    ensures ReadAll(messages[..n]).Some?
    ensures ReadAll(messages[..n]).value.lastId <= ReadAll(messages).value.lastId
    ensures ReadAll(messages[..n]).value.lastGeneration <= ReadAll(messages).value.lastGeneration
    decreases |messages|
  {
    if n == |messages| {
      assert messages[..n] == messages;
    } else {
      assert messages[..|messages| - 1][..n] == messages[..n];
      ReadPrefix(messages[..|messages| - 1], n);
    }
  }

  /** Attachment ids and runtime generations only grow. */
  lemma OpenedNumbersGrow(messages: seq<Answer>, i: nat, j: nat)
    requires ReadAll(messages).Some? && i < j < |messages| && messages[i].message.Opened? && messages[j].message.Opened?
    ensures messages[i].message.attachmentId < messages[j].message.attachmentId
    ensures messages[i].message.runtimeGeneration < messages[j].message.runtimeGeneration
  {
    ReadAt(messages, i);
    ReadAt(messages, j);
    ReadPrefix(messages[..j], i + 1);
    assert messages[..j][..i + 1] == messages[..i + 1];
  }

  /** The message at `j` is read after those before it. */
  lemma ReadAt(messages: seq<Answer>, j: nat)
    requires ReadAll(messages).Some? && j < |messages|
    ensures ReadAll(messages[..j]).Some? && ReadAll(messages[..j + 1]).Some?
    ensures ReadOne(ReadAll(messages[..j]).value, messages[j].message) == ReadAll(messages[..j + 1])
  {
    ReadPrefix(messages, j);
    ReadPrefix(messages, j + 1);
    assert messages[..j + 1] == messages[..j] + [messages[j]];
    ReadNext(messages[..j], messages[j]);
  }

  /** `messages` has the Opened of `a` and no later Opened or Closed. */
  ghost predicate OpenAt(messages: seq<Answer>, a: Attachment, i: nat) {
    && i < |messages| && messages[i].message == Opened(a.id, a.generation)
    && forall k :: i < k < |messages| ==> !messages[k].message.Opened? && !messages[k].message.Closed?
  }

  lemma {:induction false} OpenSince(messages: seq<Answer>) returns (i: nat)
    requires ReadAll(messages).Some? && ReadAll(messages).value.open.Some?
    ensures OpenAt(messages, ReadAll(messages).value.open.value, i)
    decreases |messages|
  {
    var before, last := messages[..|messages| - 1], messages[|messages| - 1];
    if last.message.Opened? {
      i := |messages| - 1;
    } else {
      i := OpenSince(before);
      assert messages[i] == before[i];
      forall k | i < k < |messages| ensures !messages[k].message.Opened? && !messages[k].message.Closed? {
        assert k < |before| ==> messages[k] == before[k];
      }
    }
  }

  /** Every message of a child lies after its own Opened, with no Opened or Closed between. */
  lemma MessagesLieInside(messages: seq<Answer>, j: nat) returns (i: nat)
    requires ReadAll(messages).Some? && j < |messages| && messages[j].message.Mcp?
    ensures var m := messages[j].message;
            i < j && OpenAt(messages[..j], Attachment(m.attachmentId, m.runtimeGeneration), i)
  {
    ReadPrefix(messages, j + 1);
    assert messages[..j + 1][..j] == messages[..j];
    i := OpenSince(messages[..j]);
  }

  /** Every Closed ends the attachment of the last Opened. */
  lemma ClosedEndsItsOwn(messages: seq<Answer>, j: nat) returns (i: nat)
    requires ReadAll(messages).Some? && j < |messages| && messages[j].message.Closed?
    ensures i < j && messages[i].message.Opened? && messages[i].message.attachmentId == messages[j].message.attachmentId
    ensures forall k :: i < k < j ==> !messages[k].message.Opened? && !messages[k].message.Closed?
  {
    ReadPrefix(messages, j + 1);
    assert messages[..j + 1][..j] == messages[..j];
    i := OpenSince(messages[..j]);
    assert forall k :: 0 <= k < j ==> messages[k] == messages[..j][k];
  }

  /** Between two Opened there is a Closed. */
  lemma OneAttachmentAtATime(messages: seq<Answer>, i: nat, j: nat) returns (k: nat)
    requires ReadAll(messages).Some? && i < j < |messages| && messages[i].message.Opened? && messages[j].message.Opened?
    ensures i < k < j && messages[k].message.Closed?
    decreases j - i
  {
    ReadAt(messages, j);
    k := j - 1;
    while !messages[k].message.Closed?
      invariant i <= k < j
      invariant ReadAll(messages[..k + 1]).Some? && ReadAll(messages[..k + 1]).value.open.None?
      decreases k
    {
      ReadAt(messages, k);
      assert k > i;
      k := k - 1;
    }
  }

  /** Before the first Ready nothing but errors is said. */
  lemma {:induction false} OnlyErrorsBeforeReady(messages: seq<Answer>, j: nat)
    requires ReadAll(messages).Some? && j < |messages| && !messages[j].message.Ready? && !messages[j].message.Failure?
    ensures exists i :: 0 <= i < j && messages[i].message.Ready?
  {
    ReadPrefix(messages, j + 1);
    assert messages[..j + 1][..j] == messages[..j];
    var i := GreetedSince(messages[..j]);
    assert messages[i] == messages[..j][i];
  }

  lemma {:induction false} GreetedSince(messages: seq<Answer>) returns (i: nat)
    requires ReadAll(messages).Some? && ReadAll(messages).value.greeted
    ensures i < |messages| && messages[i].message.Ready?
    decreases |messages|
  {
    if messages[|messages| - 1].message.Ready? {
      i := |messages| - 1;
    } else {
      i := GreetedSince(messages[..|messages| - 1]);
    }
  }
}
