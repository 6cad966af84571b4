/**
 The event log of one session: a ring of the newest events, a reader that polls it by sequence
 number, and a recording sink that must not disturb either.
 */
module EventLog {
  import opened Wrappers

  const RING_CAPACITY: nat := 200

  datatype Source = Cua | Cli | Viewer | Daemon

  datatype Outcome = Ok | Error | NoReply

  /** What a call is recorded as; `None` stands for the placeholder of a name that is not plain. */
  type Name = Option<string>

  /** The two kinds that pair up, and all others. */
  datatype Kind =
    | CallStarted(call: nat, name: Name)
    | CallFinished(call: nat, name: Name, outcome: Outcome)
    | Note(kind: nat)

  datatype Event = Event(seqNo: nat, source: Source, kind: Kind)

  datatype Page = Page(oldest: nat, latest: nat, events: seq<Event>)

  /**
   The log as a whole: every event since the start, what the attached sink was handed, and what
   earlier sinks were handed.
   */
  datatype Log = Log(full: seq<Event>, sink: Option<seq<Event>>, ended: seq<seq<Event>>)

  const EMPTY := Log([], None, [])

  /** Sequence numbers count from 1 without gaps. */
  ghost predicate Contiguous(full: seq<Event>) {
    forall i :: 0 <= i < |full| ==> full[i].seqNo == i + 1
  }

  function Dropped(full: seq<Event>): nat {
    if |full| <= RING_CAPACITY then 0 else |full| - RING_CAPACITY
  }

  function Newest(full: seq<Event>): seq<Event> {
    full[Dropped(full)..]
  }

  /** What a reader that has everything up to `above` is answered. */
  function PageOf(full: seq<Event>, above: nat): Page {
    var first := if above < Dropped(full) then Dropped(full) else if above < |full| then above else |full|;
    Page(Dropped(full) + 1, |full|, full[first..])
  }

  function Recorded(log: Log, source: Source, kind: Kind): Log {
    var event := Event(|log.full| + 1, source, kind);
    log.(full := log.full + [event], sink := Handed(log.sink, event))
  }

  function Handed(sink: Option<seq<Event>>, event: Event): Option<seq<Event>> {
    if sink.None? then None else Some(sink.value + [event])
  }

  function Attached(log: Log, source: Source, kind: Kind): Log {
    if log.sink.Some? then log else log.(sink := Some([Event(0, source, kind)]))
  }

  function Detached(log: Log, source: Source, kind: Kind): Log {
    if log.sink.None? then log
    else log.(sink := None, ended := log.ended + [log.sink.value + [Event(0, source, kind)]])
  }

  /** An event for the recording only. */
  function Annotated(log: Log, source: Source, kind: Kind): Log {
    log.(sink := Handed(log.sink, Event(0, source, kind)))
  }

  /** The ring after one more event. */
  lemma RingGrows(full: seq<Event>, event: Event)
    ensures var ring := Newest(full);
            Newest(full + [event]) == (if |ring| == RING_CAPACITY then ring[1..] else ring) + [event]
  {
  }

  lemma StaysContiguous(log: Log, source: Source, kind: Kind)
    requires Contiguous(log.full)
    ensures Contiguous(Recorded(log, source, kind).full)
  {
  }

  class SessionEvents {
    var events: seq<Event>
    var latest: nat
    var sink: Option<seq<Event>>
    var announced: nat
    var nextCall: nat
    ghost var log: Log

    ghost predicate Valid()
      reads this
    {
      && Contiguous(log.full)
      && events == Newest(log.full)
      && latest == announced == |log.full|
      && sink == log.sink
      && 1 <= nextCall
    }

    constructor ()
      ensures Valid() && log == EMPTY && nextCall == 1
    {
      events, latest, sink, announced, nextCall := [], 0, None, 0, 1;
      log := EMPTY;
    }

    method Record(source: Source, kind: Kind) returns (seqNo: nat)
      requires Valid()
      modifies this
      ensures Valid() && log == Recorded(old(log), source, kind) && nextCall == old(nextCall)
      ensures seqNo == |old(log).full| + 1
      ensures log.full == old(log).full + [Event(seqNo, source, kind)] && log.ended == old(log).ended
      ensures sink == if old(sink).None? then None else Some(old(sink).value + [Event(seqNo, source, kind)])
    {
      latest := latest + 1;
      var event := Event(latest, source, kind);
      RingGrows(log.full, event);
      StaysContiguous(log, source, kind);
      if |events| == RING_CAPACITY {
        events := events[1..];
      }
      if sink.Some? {
        sink := Some(sink.value + [event]);
      }
      events := events + [event];
      seqNo := latest;
      announced := seqNo;
      log := Recorded(log, source, kind);
    }

    /** Refused, without an effect, while another sink is attached. */
    method AttachSink(source: Source, kind: Kind) returns (first: Option<Event>)
      requires Valid()
      modifies `sink, `log
      ensures Valid() && log == Attached(old(log), source, kind)
      ensures first == if old(sink).Some? then None else Some(Event(0, source, kind))
      ensures sink == if old(sink).Some? then old(sink) else Some([first.value])
      ensures log.full == old(log).full && log.ended == old(log).ended
    {
      if sink.Some? {
        return None;
      }
      first := Some(Event(0, source, kind));
      sink := Some([first.value]);
      log := Attached(log, source, kind);
    }

    method DetachSink(source: Source, kind: Kind) returns (last: Option<Event>)
      requires Valid()
      modifies `sink, `log
      ensures Valid() && log == Detached(old(log), source, kind)
      ensures last == if old(sink).None? then None else Some(Event(0, source, kind))
      ensures sink.None? && log.full == old(log).full
      ensures log.ended == old(log).ended + if old(sink).None? then [] else [old(sink).value + [last.value]]
    {
      if sink.None? {
        return None;
      }
      last := Some(Event(0, source, kind));
      sink := None;
      log := Detached(log, source, kind);
    }

    /** `taken` is the sink's own answer. */
    method RecordDetached(source: Source, kind: Kind, taken: bool) returns (ok: bool)
      requires Valid()
      modifies `sink, `log
      ensures Valid() && log == Annotated(old(log), source, kind)
      ensures ok == (old(sink).Some? && taken)
      ensures sink == if old(sink).None? then None else Some(old(sink).value + [Event(0, source, kind)])
      ensures log.full == old(log).full && log.ended == old(log).ended
    {
      if sink.None? {
        return false;
      }
      sink := Some(sink.value + [Event(0, source, kind)]);
      log := Annotated(log, source, kind);
      ok := taken;
    }

    method CallStarted(source: Source, name: Name) returns (call: nat)
      requires Valid()
      modifies this
      ensures Valid() && log == Recorded(old(log), source, Kind.CallStarted(call, name))
      ensures call == old(nextCall) && nextCall == call + 1
    {
      call := nextCall;
      nextCall := nextCall + 1;
      var _ := Record(source, Kind.CallStarted(call, name));
    }

    method After(above: nat) returns (page: Page)
      requires Valid()
      ensures page == PageOf(log.full, above)
    {
      var oldest := if events == [] then latest + 1 else events[0].seqNo;
      var kept: seq<Event> := [];
      ghost var first := PageOf(log.full, above).latest - |PageOf(log.full, above).events|;
      for i := 0 to |events|
        invariant kept == if Dropped(log.full) + i <= first then [] else log.full[first..Dropped(log.full) + i]
      {
        if events[i].seqNo > above {
          kept := kept + [events[i]];
        }
      }
      page := Page(oldest, latest, kept);
    }
  }

  // --- What a page says ---

  /** A page holds exactly the retained events above the asked number, in order. */
  lemma {:induction false} PageIsExact(full: seq<Event>, above: nat)
    requires Contiguous(full)
    ensures var page := PageOf(full, above);
            && page.events <= full[|full| - |page.events|..]
            && page.latest == |full| && page.oldest == (if |full| <= 200 then 1 else |full| - 199)
            && forall e :: e in page.events <==> e in full && e.seqNo > above && e.seqNo >= page.oldest
  {
    var page := PageOf(full, above);
    var first := |full| - |page.events|;
    assert page.events == full[first..];
    forall e | e in full && e.seqNo > above && e.seqNo >= page.oldest
      ensures e in page.events
    {
      var i :| 0 <= i < |full| && full[i] == e;
      assert page.events[i - first] == e;
    }
  }

  /** `oldest > above + 1` says exactly that an event above the asked number is gone. */
  lemma GapIsALoss(full: seq<Event>, above: nat)
    requires Contiguous(full)
    ensures PageOf(full, above).oldest > above + 1 <==>
            exists e :: e in full && e.seqNo > above && e !in PageOf(full, above).events
  {
    PageIsExact(full, above);
    if PageOf(full, above).oldest > above + 1 {
      assert full[above] in full;
    }
  }

  // --- Whole runs ---

  /** The viewer page's strip: it asks above its newest number and keeps the newest 200 itself. */
  datatype Panel = Panel(header: Option<nat>, events: seq<Event>, latest: nat)

  function Above(events: seq<Event>, latest: nat): seq<Event> {
    if events == [] then []
    else (if events[0].seqNo > latest then [events[0]] else []) + Above(events[1..], latest)
  }

  /** The page's newer events follow the panel's. */
  function Merge(panel: Panel, page: Page): Panel {
    var all := panel.events + Above(page.events, panel.latest);
    Panel(panel.header, Newest(all), if panel.latest < page.latest then page.latest else panel.latest)
  }

  /** The answer of the log `id` to a request above `panel.latest`; another log starts the panel over. */
  function Show(panel: Panel, id: nat, page: Page): Panel {
    if panel.header == Some(id) then Merge(panel, page)
    else if panel.latest != 0 then Panel(Some(id), [], 0)
    else Merge(Panel(Some(id), [], 0), page)
  }

  /** A reader that collects everything and watches for the gap sign. */
  datatype Reader = Reader(seen: seq<Event>, above: nat, gap: bool)

  function Read(reader: Reader, page: Page): Reader {
    Reader(reader.seen + page.events, page.latest, reader.gap || page.oldest > reader.above + 1)
  }

  datatype Step =
    | Record(source: Source, kind: Kind)
    | Attach(source: Source, kind: Kind)
    | Detach(source: Source, kind: Kind)
    | Annotate(source: Source, kind: Kind)
    | Refresh
    | Collect
    | Restart

  /** The log of the incarnation `id`; a restart begins the next one, and a reader belongs to one log. */
  datatype World = World(id: nat, log: Log, panel: Panel, reader: Reader)

  const NewReader := Reader([], 0, false)

  function Take(w: World, step: Step): World {
    match step
    case Record(source, kind) => w.(log := Recorded(w.log, source, kind))
    case Attach(source, kind) => w.(log := Attached(w.log, source, kind))
    case Detach(source, kind) => w.(log := Detached(w.log, source, kind))
    case Annotate(source, kind) => w.(log := Annotated(w.log, source, kind))
    case Refresh => w.(panel := Show(w.panel, w.id, PageOf(w.log.full, w.panel.latest)))
    case Collect => w.(reader := Read(w.reader, PageOf(w.log.full, w.reader.above)))
    case Restart => w.(id := w.id + 1, log := EMPTY, reader := NewReader)
  }

  function Run(steps: seq<Step>): World {
    if steps == [] then World(0, EMPTY, Panel(None, [], 0), NewReader)
    else Take(Run(steps[..|steps| - 1]), steps[|steps| - 1])
  }

  lemma {:induction false} RunIsContiguous(steps: seq<Step>)
    ensures Contiguous(Run(steps).log.full)
  {
    if steps != [] {
      RunIsContiguous(steps[..|steps| - 1]);
    }
  }

  /** What was recorded since the last restart. */
  function RecordsOf(steps: seq<Step>): seq<(Source, Kind)> {
    if steps == [] then []
    else
      match steps[|steps| - 1]
      case Record(source, kind) => RecordsOf(steps[..|steps| - 1]) + [(source, kind)]
      case Restart => []
      case _ => RecordsOf(steps[..|steps| - 1])
  }

  /** The log is exactly what was recorded, in order, numbered from 1. */
  lemma {:induction false} LogIsTheRecords(steps: seq<Step>)
    ensures |Run(steps).log.full| == |RecordsOf(steps)|
    ensures forall i :: 0 <= i < |RecordsOf(steps)| ==>
              Run(steps).log.full[i] == Event(i + 1, RecordsOf(steps)[i].0, RecordsOf(steps)[i].1)
  {
    if steps != [] {
      LogIsTheRecords(steps[..|steps| - 1]);
    }
  }

  lemma {:induction false} AboveKeepsAll(events: seq<Event>, latest: nat)
    requires forall e :: e in events ==> e.seqNo > latest
    ensures Above(events, latest) == events
  {
    if events != [] {
      AboveKeepsAll(events[1..], latest);
    }
  }

  /** Extending a list and trimming it again is trimming the whole. */
  lemma TrimAgain(full: seq<Event>, upTo: nat, first: nat)
    requires upTo <= first <= |full| && (first == upTo || first == Dropped(full))
    ensures Newest(Newest(full[..upTo]) + full[first..]) == Newest(full)
  {
    var kept := Newest(full[..upTo]);
    if first == upTo {
      assert kept + full[first..] == full[Dropped(full[..upTo])..];
    } else {
      assert |full[first..]| == RING_CAPACITY;
    }
  }

  /** What a panel that knows the log `id` shows of it. */
  ghost predicate ShowsNewest(panel: Panel, id: nat, full: seq<Event>) {
    && (panel.header.Some? ==> panel.header.value <= id)
    && (panel.header.None? ==> panel.latest == 0)
    && (panel.header == Some(id) ==>
          panel.latest <= |full| && panel.events == Newest(full[..panel.latest]))
  }

  lemma MergeShowsNewest(panel: Panel, full: seq<Event>)
    requires Contiguous(full) && panel.latest <= |full| && panel.events == Newest(full[..panel.latest])
    ensures Merge(panel, PageOf(full, panel.latest)) == Panel(panel.header, Newest(full), |full|)
  {
    var page := PageOf(full, panel.latest);
    PageIsExact(full, panel.latest);
    AboveKeepsAll(page.events, panel.latest);
    TrimAgain(full, panel.latest, |full| - |page.events|);
  }

  lemma RefreshShowsNewest(panel: Panel, id: nat, full: seq<Event>)
    requires Contiguous(full) && ShowsNewest(panel, id, full)
    ensures Show(panel, id, PageOf(full, panel.latest)) ==
            if panel.header == Some(id) || panel.latest == 0 then Panel(Some(id), Newest(full), |full|)
            else Panel(Some(id), [], 0)
  {
    if panel.header == Some(id) {
      MergeShowsNewest(panel, full);
    } else if panel.latest == 0 {
      assert Newest(full[..0]) == [];
      MergeShowsNewest(Panel(Some(id), [], 0), full);
    }
  }

  /**
   The strip of a log shows exactly the newest events up to the number it last saw, however rarely it
   refreshes: a gap in what it fetched is never visible as a hole, and nothing of an earlier log stays.
   */
  lemma {:induction false} PanelShowsTheNewest(steps: seq<Step>)
    ensures ShowsNewest(Run(steps).panel, Run(steps).id, Run(steps).log.full)
  {
    if steps != [] {
      var before := Run(steps[..|steps| - 1]);
      PanelShowsTheNewest(steps[..|steps| - 1]);
      RunIsContiguous(steps[..|steps| - 1]);
      StepShowsNewest(before, steps[|steps| - 1]);
    }
  }

  lemma StepShowsNewest(w: World, step: Step)
    requires Contiguous(w.log.full) && ShowsNewest(w.panel, w.id, w.log.full)
    ensures ShowsNewest(Take(w, step).panel, Take(w, step).id, Take(w, step).log.full)
  {
    var full := w.log.full;
    if step.Refresh? {
      RefreshShowsNewest(w.panel, w.id, full);
      assert full[..|full|] == full && Newest(full[..0]) == [];
    } else if step.Record? && w.panel.header == Some(w.id) {
      assert (full + [Event(|full| + 1, step.source, step.kind)])[..w.panel.latest] == full[..w.panel.latest];
    }
  }

  /** After any run, whatever the panel missed and however often the log changed, two refreshes show it all. */
  lemma TwoRefreshesShowAll(steps: seq<Step>)
    ensures var w := Run(steps);
            Run(steps + [Refresh] + [Refresh]).panel == Panel(Some(w.id), Newest(w.log.full), |w.log.full|)
  {
    var w := Run(steps);
    PanelShowsTheNewest(steps);
    RunIsContiguous(steps);
    RunSnoc(steps, Refresh);
    RunSnoc(steps + [Refresh], Refresh);
    RefreshShowsNewest(w.panel, w.id, w.log.full);
    StepShowsNewest(w, Refresh);
    RefreshShowsNewest(Take(w, Refresh).panel, w.id, w.log.full);
  }

  /** A collecting reader has the log up to its number, unless and only unless it saw a gap. */
  lemma {:induction false} GapFreeReaderHasTheLog(steps: seq<Step>)
    ensures var w := Run(steps);
            && w.reader.above <= |w.log.full|
            && |w.reader.seen| <= w.reader.above
            && (!w.reader.gap <==> w.reader.seen == w.log.full[..w.reader.above])
            && (w.reader.gap <==> |w.reader.seen| < w.reader.above)
  {
    if steps != [] {
      var before := Run(steps[..|steps| - 1]);
      GapFreeReaderHasTheLog(steps[..|steps| - 1]);
      var full := before.log.full;
      match steps[|steps| - 1] {
        case Collect =>
          var page := PageOf(full, before.reader.above);
          assert full[..|full|] == full;
          if !before.reader.gap && page.oldest <= before.reader.above + 1 {
            assert full == full[..before.reader.above] + page.events;
          }
        case Record(source, kind) =>
          assert Recorded(before.log, source, kind).full[..before.reader.above] == full[..before.reader.above];
        case _ =>
      }
    }
  }

  function Unrecorded(steps: seq<Step>): seq<Step> {
    if steps == [] then []
    else
      var init := Unrecorded(steps[..|steps| - 1]);
      var last := steps[|steps| - 1];
      if last.Attach? || last.Detach? || last.Annotate? then init else init + [last]
  }

  ghost predicate LooksAlike(w: World, v: World) {
    w.id == v.id && w.log.full == v.log.full && w.panel == v.panel && w.reader == v.reader
  }

  lemma StepsLookAlike(w: World, v: World, step: Step)
    requires LooksAlike(w, v)
    ensures LooksAlike(Take(w, step), if step.Attach? || step.Detach? || step.Annotate? then v else Take(v, step))
  {
  }

  /** Recording is invisible: without it the log, the strip and every reader are the same. */
  lemma {:induction false} RecordingIsInvisible(steps: seq<Step>)
    ensures LooksAlike(Run(steps), Run(Unrecorded(steps)))
  {
    if steps != [] {
      var init := Unrecorded(steps[..|steps| - 1]);
      var last := steps[|steps| - 1];
      RecordingIsInvisible(steps[..|steps| - 1]);
      StepsLookAlike(Run(steps[..|steps| - 1]), Run(init), last);
      RunSnoc(init, last);
    }
  }

  lemma RunSnoc(steps: seq<Step>, last: Step)
    ensures Run(steps + [last]) == Take(Run(steps), last)
  {
    assert (steps + [last])[..|steps|] == steps;
  }

  // --- What a recording gets ---

  /** The ordinary events of a transcript: the ones with a number. */
  function Numbered(events: seq<Event>): seq<Event> {
    if events == [] then []
    else
      var init := Numbered(events[..|events| - 1]);
      var last := events[|events| - 1];
      if last.seqNo == 0 then init else init + [last]
  }

  lemma NumberedAppend(events: seq<Event>, last: Event)
    ensures Numbered(events + [last]) == Numbered(events) + if last.seqNo == 0 then [] else [last]
  {
    assert (events + [last])[..|events|] == events;
  }

  /** The numbered events of `transcript` are the log's from one point to another. */
  ghost predicate Slice(transcript: seq<Event>, full: seq<Event>, from: nat, to: nat) {
    from <= to <= |full| && Numbered(transcript) == full[from..to]
  }

  ghost predicate Unbroken(transcript: seq<Event>, full: seq<Event>) {
    exists from: nat, to: nat :: Slice(transcript, full, from, to)
  }

  ghost predicate UpToNow(transcript: seq<Event>, full: seq<Event>) {
    exists from: nat :: Slice(transcript, full, from, |full|)
  }

  ghost predicate Opened(transcript: seq<Event>) {
    transcript != [] && transcript[0].seqNo == 0
  }

  ghost predicate Finished(transcript: seq<Event>) {
    |transcript| >= 2 && Opened(transcript) && transcript[|transcript| - 1].seqNo == 0
  }

  /**
   A recording misses nothing: between its first and its last own event it is handed an unbroken
   stretch of the log, up to the newest event while it is attached, even those the ring dropped.
   */
  ghost predicate Complete(log: Log) {
    && (forall t :: t in log.ended ==> Finished(t) && Unbroken(t, log.full))
    && (log.sink.Some? ==> Opened(log.sink.value) && UpToNow(log.sink.value, log.full))
  }

  lemma UnbrokenStays(transcript: seq<Event>, full: seq<Event>, event: Event)
    requires Unbroken(transcript, full)
    ensures Unbroken(transcript, full + [event])
  {
    var from: nat, to: nat :| Slice(transcript, full, from, to);
    assert (full + [event])[from..to] == full[from..to];
    assert Slice(transcript, full + [event], from, to);
  }

  lemma UpToNowGrows(transcript: seq<Event>, full: seq<Event>, event: Event)
    requires UpToNow(transcript, full) && event.seqNo != 0
    ensures UpToNow(transcript + [event], full + [event])
  {
    var from: nat :| Slice(transcript, full, from, |full|);
    NumberedAppend(transcript, event);
    assert (full + [event])[from..|full| + 1] == full[from..|full|] + [event];
    assert Slice(transcript + [event], full + [event], from, |full + [event]|);
  }

  lemma OwnEventStays(transcript: seq<Event>, full: seq<Event>, event: Event)
    requires UpToNow(transcript, full) && event.seqNo == 0
    ensures UpToNow(transcript + [event], full) && Unbroken(transcript + [event], full)
  {
    var from: nat :| Slice(transcript, full, from, |full|);
    NumberedAppend(transcript, event);
    assert Slice(transcript + [event], full, from, |full|);
  }

  lemma RecordKeepsComplete(log: Log, source: Source, kind: Kind)
    requires Complete(log)
    ensures Complete(Recorded(log, source, kind))
  {
    var event := Event(|log.full| + 1, source, kind);
    forall t | t in log.ended
      ensures Unbroken(t, log.full + [event])
    {
      UnbrokenStays(t, log.full, event);
    }
    if log.sink.Some? {
      UpToNowGrows(log.sink.value, log.full, event);
    }
  }

  lemma OwnEventKeepsComplete(log: Log, source: Source, kind: Kind)
    requires Complete(log)
    ensures Complete(Attached(log, source, kind))
    ensures Complete(Detached(log, source, kind))
    ensures Complete(Annotated(log, source, kind))
  {
    var event := Event(0, source, kind);
    if log.sink.Some? {
      OwnEventStays(log.sink.value, log.full, event);
    } else {
      NumberedAppend([], event);
      assert [] + [event] == [event];
      assert Slice([event], log.full, |log.full|, |log.full|);
    }
  }

  lemma {:induction false} RecordingIsComplete(steps: seq<Step>)
    ensures Complete(Run(steps).log)
  {
    if steps != [] {
      var log := Run(steps[..|steps| - 1]).log;
      RecordingIsComplete(steps[..|steps| - 1]);
      match steps[|steps| - 1] {
        case Record(source, kind) => RecordKeepsComplete(log, source, kind);
        case Attach(source, kind) => OwnEventKeepsComplete(log, source, kind);
        case Detach(source, kind) => OwnEventKeepsComplete(log, source, kind);
        case Annotate(source, kind) => OwnEventKeepsComplete(log, source, kind);
        case Refresh =>
        case Collect =>
        case Restart =>
      }
    }
  }
}
