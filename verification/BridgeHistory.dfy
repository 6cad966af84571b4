/**
 What the bridge says and delivers in terms of the run alone: the events it was given and what it said
 before, with none of its own variables.
 */
module BridgeHistory {
  import opened Wrappers
  import opened Protocol
  import opened BridgeRuntime

  // ----- what a run tells -----

  /** What a reader of everything said so far knows: who is attached, and whether there was a Ready. */
  function Known(config: Config, events: seq<Event>): Reader {
    EveryRunSpeaksTheGrammar(config, events);
    ReadAll(Turns(config, events).emitted).value
  }

  /** A message of the daemon that the loop listens to. */
  predicate Heard(config: Config, event: Event) {
    event.Incoming? && event.envelope.generation == config.generation && event.envelope.version == 2
  }

  /** The largest attachment id that was asked for while nobody was attached. */
  function LargestAsked(config: Config, events: seq<Event>): nat {
    if events == [] then 0
    else
      var init, last := events[..|events| - 1], events[|events| - 1];
      var before := LargestAsked(config, init);
      if !Turns(config, init).stopped && Asks(config, Known(config, init), last)
         && last.envelope.message.attachmentId > before
      then last.envelope.message.attachmentId else before
  }

  predicate Asks(config: Config, known: Reader, event: Event) {
    Heard(config, event) && event.envelope.message.Open? && known.greeted && known.open.None?
  }

  predicate TriesAChild(m: Message) {
    m.Opened? || m == Failure(SpawnFailed)
  }

  /** How many children were tried: one for each Opened and each failure to spawn. */
  function Tried(said: seq<Answer>): nat {
    if said == [] then 0
    else
      var last := said[|said| - 1].message;
      Tried(said[..|said| - 1]) + if TriesAChild(last) then 1 else 0
  }

  /** The control id of the transfer that was accepted and has no result yet. */
  function Transferring(config: Config, events: seq<Event>): Option<nat> {
    if events == [] then None
    else
      var init, last := events[..|events| - 1], events[|events| - 1];
      NextTransfer(config, Known(config, init).greeted, Transferring(config, init), last)
  }

  function NextTransfer(config: Config, greeted: bool, before: Option<nat>, event: Event): Option<nat> {
    if Heard(config, event) && event.envelope.message.FileTransfer? && greeted && before.None?
    then Some(event.envelope.controlId)
    else if event.Tick? && event.done.Some? then None
    else before
  }

  /** All that the reactions depend on. */
  datatype Story = Story(known: Reader, asked: nat, tried: nat, transfer: Option<nat>)

  function StoryOf(config: Config, events: seq<Event>): Story {
    Story(Known(config, events), LargestAsked(config, events), Tried(Turns(config, events).emitted),
          Transferring(config, events))
  }

  // ----- what a turn is to do -----

  datatype Reaction = Quiet | Says(controlId: nat, message: Message) | Stops

  /** The answer to a request to attach. */
  function ToOpen(s: Story, to: nat, id: nat, spawned: bool): Reaction {
    if s.known.open.Some? then Says(to, Failure(AttachmentBusy))
    else if id <= s.asked then Says(to, Failure(IdMustIncrease))
    else if s.tried >= 0xFFFF_FFFF_FFFF_FFFF then Stops
    else if spawned then Says(to, Opened(id, s.tried + 1))
    else Says(to, Failure(SpawnFailed))
  }

  /** The reaction to a request of the daemon after the first Ready. */
  function ToRequest(s: Story, e: Envelope, spawned: bool, taken: bool): Reaction {
    var open := s.known.open;
    match e.message
    case Ping => Says(e.controlId, Pong)
    case Open(id) => ToOpen(s, e.controlId, id, spawned)
    case Mcp(id, generation, _) =>
      if open == Some(Attachment(id, generation)) && !taken then Says(0, Closed(id, QueueSaturated)) else Quiet
    case Close(id, reason) =>
      if open.Some? && open.value.id == id then Says(e.controlId, Closed(id, reason)) else Quiet
    case FileTransfer(_) => if s.transfer.Some? then Says(e.controlId, Failure(TransferBusy)) else Quiet
    case _ => Says(e.controlId, Failure(Unexpected))
  }

  function ToEvent(config: Config, s: Story, event: Event): Reaction {
    var open := s.known.open;
    match event
    case InputClosed => Stops
    case Incoming(e, spawned, taken, _) =>
      if e.generation != config.generation then Quiet
      else if e.version != 2 then Stops
      else if e.message.Hello? then
        if e.message.bundleId != config.bundleId then Stops
        else Says(e.controlId, Ready(config.bundleId, config.bridgeVersion))
      else if !s.known.greeted then Says(e.controlId, Failure(Unexpected))
      else ToRequest(s, e, spawned, taken)
    case ChildSpoke(text, _) =>
      if open.Some? then Says(0, Mcp(open.value.id, open.value.generation, text)) else Quiet
    case ChildEnded(reason, _) =>
      if open.Some? then Says(0, Closed(open.value.id, reason)) else Quiet
    case Tick(silent, overdue, done, _) =>
      if silent || (overdue && s.transfer.Some?) then Stops
      else if s.transfer.None? || done.None? then Quiet
      else if done.value.Ok? then Says(s.transfer.value, FileTransferResult(done.value.value))
      else Stops
  }

  /** The output takes what is said at this turn. */
  predicate HasRoom(event: Event) {
    event.InputClosed? || event.room
  }

  /** What this turn is to hand to the attached child. */
  function ForChild(config: Config, known: Reader, event: Event): seq<Delivery> {
    if Heard(config, event) && event.envelope.message.Mcp? && event.taken && known.greeted
       && known.open == Some(Attachment(event.envelope.message.attachmentId, event.envelope.message.runtimeGeneration))
    then [Delivery(known.open.value, known.open.value, event.envelope.message.message)] else []
  }

  // ----- the variables of the loop are what the run tells -----

  ghost predicate Matches(l: Loop, s: Story) {
    && s.known.open == l.active && s.known.greeted == l.ready && l.lastAttachmentId == s.asked
    && l.runtimeGeneration == s.tried && l.transfer == s.transfer
    && (l.active.Some? || l.transfer.Some? ==> l.ready)
  }

  /** What a loop says and delivers in a turn that is to react with `r` and to deliver `more`. */
  ghost predicate Reacts(l: Loop, l': Loop, r: Reaction, more: seq<Delivery>, room: bool) {
    && l'.delivered == l.delivered + more
    && match r
       case Quiet => !l'.stopped && l'.emitted == l.emitted
       case Says(to, m) =>
         if room then !l'.stopped && l'.emitted == l.emitted + [Answer(to, m)]
         else l'.stopped && l'.emitted == l.emitted
       case Stops => l'.stopped && l'.emitted == l.emitted
  }

  lemma RequestReacts(config: Config, s: Story, l: Loop, e: Envelope, spawned: bool, taken: bool, room: bool)
    requires Matches(l, s) && !l.stopped && l.ready && !e.message.Hello?
    requires e.generation == config.generation && e.version == 2
    ensures Reacts(l, OnRequest(l, e, spawned, taken, room), ToRequest(s, e, spawned, taken),
                   ForChild(config, s.known, Incoming(e, spawned, taken, room)), room)
  {
  }

  lemma TurnReacts(config: Config, s: Story, l: Loop, event: Event)
    requires Matches(l, s) && !l.stopped
    ensures Reacts(l, Turn(config, l, event), ToEvent(config, s, event),
                   ForChild(config, s.known, event), HasRoom(event))
  {
    if Heard(config, event) && !event.envelope.message.Hello? && l.ready {
      RequestReacts(config, s, l, event.envelope, event.spawned, event.taken, event.room);
    }
  }

  lemma TriedNext(said: seq<Answer>, m: Answer)
    ensures Tried(said + [m]) == Tried(said) + if TriesAChild(m.message) then 1 else 0
  {
    assert (said + [m])[..|said|] == said;
  }

  /** The variables after a turn that does not stop the loop. */
  lemma TurnMoves(config: Config, s: Story, l: Loop, event: Event)
    requires Matches(l, s) && !l.stopped && !Turn(config, l, event).stopped
    ensures var l' := Turn(config, l, event);
            && l'.lastAttachmentId ==
               (if Asks(config, s.known, event) && event.envelope.message.attachmentId > s.asked
                then event.envelope.message.attachmentId else s.asked)
            && l'.transfer == NextTransfer(config, s.known.greeted, s.transfer, event)
            && (l'.active.Some? || l'.transfer.Some? ==> l'.ready)
  {
  }

  /** The generation grows exactly when a child is tried. */
  lemma TurnCounts(config: Config, s: Story, l: Loop, event: Event)
    requires Matches(l, s) && !l.stopped && !Turn(config, l, event).stopped
    ensures var r := ToEvent(config, s, event);
            Turn(config, l, event).runtimeGeneration ==
            l.runtimeGeneration + if r.Says? && TriesAChild(r.message) then 1 else 0
  {
  }

  lemma TurnTries(l: Loop, l': Loop, r: Reaction, more: seq<Delivery>, room: bool)
    requires Reacts(l, l', r, more, room) && !l'.stopped && l.runtimeGeneration == Tried(l.emitted)
    requires l'.runtimeGeneration == l.runtimeGeneration + if r.Says? && TriesAChild(r.message) then 1 else 0
    ensures l'.runtimeGeneration == Tried(l'.emitted)
  {
    if r.Says? {
      TriedNext(l.emitted, Answer(r.controlId, r.message));
    }
  }

  lemma {:induction false} LoopMatchesItsStory(config: Config, events: seq<Event>)
    requires !Turns(config, events).stopped
    ensures Matches(Turns(config, events), StoryOf(config, events))
  {
    EveryRunSpeaksTheGrammar(config, events);
    if events != [] {
      var init, last := events[..|events| - 1], events[|events| - 1];
      var l, s := Turns(config, init), StoryOf(config, init);
      LoopMatchesItsStory(config, init);
      TurnMoves(config, s, l, last);
      TurnReacts(config, s, l, last);
      TurnCounts(config, s, l, last);
      TurnTries(l, Turn(config, l, last), ToEvent(config, s, last), ForChild(config, s.known, last), HasRoom(last));
    }
  }

  // ----- main results -----

  /**
   Every turn of every run: what is said, under which control id, and what the child is handed is exactly
   what the events and what was said before call for; nothing is dropped, and nothing is said unasked.
   */
  lemma EveryTurnReactsExactly(config: Config, events: seq<Event>, event: Event)
    requires !Turns(config, events).stopped
    ensures Reacts(Turns(config, events), Turns(config, events + [event]),
                   ToEvent(config, StoryOf(config, events), event),
                   ForChild(config, Known(config, events), event), HasRoom(event))
  {
    assert (events + [event])[..|events|] == events;
    LoopMatchesItsStory(config, events);
    TurnReacts(config, StoryOf(config, events), Turns(config, events), event);
  }

  /** All messages for the child of a run, in order. */
  function AllForChild(config: Config, events: seq<Event>): seq<Delivery> {
    if events == [] then []
    else
      var init := events[..|events| - 1];
      AllForChild(config, init) +
      if Turns(config, init).stopped then [] else ForChild(config, Known(config, init), events[|events| - 1])
  }

  lemma TurnHandsOver(config: Config, events: seq<Event>, event: Event)
    ensures Turns(config, events + [event]).delivered ==
            Turns(config, events).delivered +
            if Turns(config, events).stopped then [] else ForChild(config, Known(config, events), event)
  {
    if Turns(config, events).stopped {
      assert (events + [event])[..|events|] == events;
    } else {
      EveryTurnReactsExactly(config, events, event);
    }
  }

  /**
   A child is handed, in order, exactly the messages that its queue took and that named it while it was
   the attachment last opened and not closed.
   */
  lemma {:induction false} DeliveredIsWhatNamedTheChild(config: Config, events: seq<Event>)
    ensures Turns(config, events).delivered == AllForChild(config, events)
  {
    if events != [] {
      var init, last := events[..|events| - 1], events[|events| - 1];
      DeliveredIsWhatNamedTheChild(config, init);
      assert init + [last] == events;
      TurnHandsOver(config, init, last);
    }
  }
}
