/** Pairing tool calls with their answers: every call that starts ends exactly once in the log. */
module CallTracker {
  import opened Wrappers
  import opened EventLog

  const PENDING_CAP: nat := 64

  const MAX_NAME: nat := 64

  /** A JSON-RPC id; `Structured` is every value that is neither a string nor a number. */
  datatype Id = Text(text: string) | Number(number: int) | Structured(value: nat)

  /** What the tracker looks at in a message towards the tool server. */
  datatype Request = NotAnObject | Request(toolCall: bool, id: Option<Id>, name: Option<string>)

  /** What it looks at in an answer: `result` and `error` say whether that member flags an error. */
  datatype Response = Opaque | Response(hasMethod: bool, id: Option<Id>, result: Option<bool>, error: Option<bool>)

  datatype Pending = Pending(id: Id, call: nat, name: Name)

  /** The pending calls of one attachment, oldest first, and the log they are recorded in. */
  datatype Table = Table(pending: seq<Pending>, kinds: seq<Kind>)

  const UPPER := "ABCDEFGHIJKLMNOPQRSTUVWXYZ"
  const LOWER := "abcdefghijklmnopqrstuvwxyz"
  const DIGITS := "0123456789"

  predicate Plain(c: char) {
    'a' <= c <= 'z' || 'A' <= c <= 'Z' || '0' <= c <= '9' || c == '_' || c == '-' || c == '.'
  }

  function Recordable(name: Option<string>): Name {
    if name.Some? && 1 <= |name.value| <= MAX_NAME && (forall c :: c in name.value ==> Plain(c)) then name else None
  }

  /** `letters` counts up from `first`. */
  lemma InARow(letters: string, first: char, c: char)
    requires forall i :: 0 <= i < |letters| ==> letters[i] as int == first as int + i
    ensures c in letters <==> first as int <= c as int < first as int + |letters|
  {
    if first as int <= c as int < first as int + |letters| {
      assert letters[c as int - first as int] == c;
    }
  }

  lemma PlainCharacters(c: char)
    ensures Plain(c) <==> c in UPPER || c in LOWER || c in DIGITS || c in "_-."
  {
    InARow(UPPER, 'A', c);
    InARow(LOWER, 'a', c);
    InARow(DIGITS, '0', c);
  }

  /** A name is recorded exactly if it has 1 to 64 plain characters; otherwise the placeholder is. */
  lemma NamesAreRecordedExactly(name: string)
    ensures Recordable(None) == None
    ensures Recordable(Some(name)) ==
            if 1 <= |name| <= 64
               && (forall c :: c in name ==> c in UPPER || c in LOWER || c in DIGITS || c in "_-.")
            then Some(name) else None
  {
    forall c | c in name ensures Plain(c) <==> c in UPPER || c in LOWER || c in DIGITS || c in "_-." {
      PlainCharacters(c);
    }
  }

  /** The id a request is tracked under: only of a tool call that expects an answer. */
  function Tracked(request: Request): Option<Id> {
    if request.Request? && request.toolCall && request.id.Some? && !request.id.value.Structured? then request.id
    else None
  }

  /** The id and the outcome of a message that answers something. */
  function Answered(response: Response): Option<(Id, Outcome)> {
    if response.Opaque? || response.hasMethod || response.id.None? then None
    else if response.error.Some? then Some((response.id.value, Error))
    else if response.result.None? then None
    else Some((response.id.value, if response.result.value then Error else Outcome.Ok))
  }

  function Position(pending: seq<Pending>, id: Id): (at: Option<nat>)
    ensures at.Some? ==> at.value < |pending| && pending[at.value].id == id
    ensures at.None? ==> forall p :: p in pending ==> p.id != id
  {
    if pending == [] then None
    else if pending[0].id == id then Some(0)
    else
      match Position(pending[1..], id)
      case None => None
      case Some(at) => Some(at + 1)
  }

  function FinishAt(t: Table, at: nat, outcome: Outcome): Table
    requires at < |t.pending|
  {
    Table(t.pending[..at] + t.pending[at + 1..],
          t.kinds + [CallFinished(t.pending[at].call, t.pending[at].name, outcome)])
  }

  function Start(t: Table, id: Id, name: Name, call: nat): Table {
    Table(t.pending + [Pending(id, call, name)], t.kinds + [CallStarted(call, name)])
  }

  /** A reused id replaces the older call. */
  function Replace(t: Table, id: Id): Table {
    match Position(t.pending, id)
    case None => t
    case Some(at) => FinishAt(t, at, NoReply)
  }

  /** A full table gives up its oldest call. */
  function Evict(t: Table): Table {
    if |t.pending| >= PENDING_CAP then FinishAt(t, 0, NoReply) else t
  }

  function Observe(t: Table, request: Request, call: nat): Table {
    match Tracked(request)
    case None => t
    case Some(id) => Start(Evict(Replace(t, id)), id, Recordable(request.name), call)
  }

  function Answer(t: Table, response: Response): Table {
    match Answered(response)
    case None => t
    case Some((id, outcome)) =>
      match Position(t.pending, id)
      case None => t
      case Some(at) => FinishAt(t, at, outcome)
  }

  function CloseAll(t: Table): Table
    decreases |t.pending|
  {
    if t.pending == [] then t else CloseAll(FinishAt(t, 0, NoReply))
  }

  function KindsOf(full: seq<Event>): seq<Kind> {
    seq(|full|, i requires 0 <= i < |full| => full[i].kind)
  }

  lemma KindsAppend(full: seq<Event>, event: Event)
    ensures KindsOf(full + [event]) == KindsOf(full) + [event.kind]
  {
  }

  class CuaCallTracker {
    const events: SessionEvents
    var pending: seq<Pending>

    ghost predicate Valid()
      reads this, events
    {
      events.Valid()
    }

    ghost function View(): Table
      reads this, events
    {
      Table(pending, KindsOf(events.log.full))
    }

    constructor (events: SessionEvents)
      requires events.Valid()
      ensures Valid() && this.events == events && pending == []
    {
      this.events := events;
      pending := [];
    }

    method Finish(call: Pending, outcome: Outcome)
      requires Valid()
      modifies events
      ensures Valid() && events.nextCall == old(events.nextCall)
      ensures View() == Table(pending, old(View()).kinds + [CallFinished(call.call, call.name, outcome)])
    {
      var kind := CallFinished(call.call, call.name, outcome);
      KindsAppend(events.log.full, Event(|events.log.full| + 1, Source.Cua, kind));
      var _ := events.Record(Source.Cua, kind);
    }

    method ObserveRequest(request: Request)
      requires Valid()
      modifies this, events
      ensures Valid() && View() == Observe(old(View()), request, old(events.nextCall))
      ensures events.nextCall == old(events.nextCall) +
              if request.Request? && request.toolCall && request.id.Some? && !request.id.value.Structured? then 1 else 0
    {
      if request.NotAnObject? || !request.toolCall || request.id.None? || request.id.value.Structured? {
        return;
      }
      var id := request.id.value;
      var name := Recordable(request.name);
      ghost var start := View();
      var at := Position(pending, id);
      if at.Some? {
        var replaced := pending[at.value];
        pending := pending[..at.value] + pending[at.value + 1..];
        Finish(replaced, NoReply);
      }
      assert View() == Replace(start, id);
      if |pending| >= PENDING_CAP {
        var oldest := pending[0];
        pending := pending[1..];
        Finish(oldest, NoReply);
      }
      assert View() == Evict(Replace(start, id));
      KindsAppend(events.log.full, Event(|events.log.full| + 1, Source.Cua, CallStarted(events.nextCall, name)));
      var call := events.CallStarted(Source.Cua, name);
      pending := pending + [Pending(id, call, name)];
    }

    method ObserveResponse(response: Response)
      requires Valid()
      modifies this, events
      ensures Valid() && View() == Answer(old(View()), response)
      ensures events.nextCall == old(events.nextCall)
    {
      if response.Opaque? || response.hasMethod || response.id.None? {
        return;
      }
      if response.result.None? && response.error.None? {
        return;
      }
      var at := Position(pending, response.id.value);
      if at.None? {
        return;
      }
      var answered := pending[at.value];
      pending := pending[..at.value] + pending[at.value + 1..];
      var flagged := if response.result.Some? then response.result.value else response.error.value;
      Finish(answered, if response.error.Some? || flagged then Error else Outcome.Ok);
    }

    method Close()
      requires Valid()
      modifies this, events
      ensures Valid() && View() == CloseAll(old(View())) && pending == []
      ensures events.nextCall == old(events.nextCall)
    {
      ghost var end := CloseAll(View());
      while pending != []
        invariant Valid() && end == CloseAll(View()) && events.nextCall == old(events.nextCall)
        decreases |pending|
      {
        var oldest := pending[0];
        ghost var before := View();
        pending := pending[1..];
        Finish(oldest, NoReply);
        assert View() == FinishAt(before, 0, NoReply);
      }
    }
  }

  /** A native verb in flight: the first of finishing and dropping it ends it. */
  class CliCall {
    const events: SessionEvents
    const call: nat
    const name: Name
    var finished: bool

    constructor (events: SessionEvents, name: Name)
      requires events.Valid()
      modifies events
      ensures events.Valid() && this.events == events && this.name == name && !finished
      ensures call == old(events.nextCall) && events.nextCall == call + 1
      ensures events.log == Recorded(old(events.log), Source.Cli, CallStarted(call, name))
    {
      var number := events.CallStarted(Source.Cli, name);
      this.events, this.call, this.name, finished := events, number, name, false;
    }

    method End(outcome: Outcome)
      requires events.Valid()
      modifies this, events
      ensures events.Valid() && finished && events.nextCall == old(events.nextCall)
      ensures events.log == if old(finished) then old(events.log)
                            else Recorded(old(events.log), Source.Cli, CallFinished(call, name, outcome))
    {
      if !finished {
        finished := true;
        var _ := events.Record(Source.Cli, CallFinished(call, name, outcome));
      }
    }

    /** Finishing consumes the call, and dropping what is left of it adds nothing. */
    method Finish(ok: bool)
      requires events.Valid()
      modifies this, events
      ensures events.Valid() && finished
      ensures events.log == if old(finished) then old(events.log)
                            else
                              Recorded(old(events.log), Source.Cli,
                                       CallFinished(call, name, if ok then Outcome.Ok else Error))
    {
      End(if ok then Outcome.Ok else Error);
      End(NoReply);
    }
  }
}
