/** The input state of the session loop: its epoch and what is down. */
module SessionLoop {
  import opened Wrappers
  import opened Vocabulary
  import opened ControlState

  datatype LoopState = LoopState(epoch: Epoch, held: set<Held>)

  /** Adopt `epoch` when it is newer; the answer is what was released for it. */
  function Adopt(l: LoopState, epoch: Epoch): (LoopState, Option<set<Held>>) {
    if epoch > l.epoch then (LoopState(epoch, {}), Some(l.held)) else (l, None)
  }

  /** Apply a batch of `epoch`, or refuse it as stale. The answer is what was released first. */
  function ApplyBatch(l: LoopState, epoch: Epoch, events: seq<RawInput>): (LoopState, Result<set<Held>, Epoch>) {
    if epoch < l.epoch then (l, Err(l.epoch))
    else
      var (adopted, released) := Adopt(l, epoch);
      (adopted.(held := TrackAll(adopted.held, events)), Ok(if released.Some? then released.value else {}))
  }

  class LoopInput {
    var epoch: Epoch
    var held: set<Held>

    function View(): LoopState
      reads this
    {
      LoopState(epoch, held)
    }

    constructor ()
      ensures View() == LoopState(0, {})
    {
      epoch, held := 0, {};
    }

    method ChangeEpoch(newer: Epoch) returns (released: Option<set<Held>>)
      modifies this
      ensures (View(), released) == Adopt(old(View()), newer)
      ensures epoch == if newer > old(epoch) then newer else old(epoch)
      ensures released == if newer > old(epoch) then Some(old(held)) else None
      ensures held == if newer > old(epoch) then {} else old(held)
    {
      if newer > epoch {
        epoch := newer;
        released := Some(held);
        held := {};
      } else {
        released := None;
      }
    }

    method Apply(at: Epoch, events: seq<RawInput>) returns (answer: Result<set<Held>, Epoch>)
      modifies this
      ensures (View(), answer) == ApplyBatch(old(View()), at, events)
      ensures answer.Err? <==> at < old(epoch)
      ensures answer.Err? ==> View() == old(View()) && answer.error == epoch
      ensures answer.Ok? ==> epoch == at && held == TrackAll(old(held) - answer.value, events)
      ensures answer.Ok? ==> answer.value == if at > old(epoch) then old(held) else {}
    {
      if at < epoch {
        return Err(epoch);
      }
      assert held - {} == held && held - held == {};
      var released := ChangeEpoch(at);
      ghost var before := held;
      var i := 0;
      while i < |events|
        invariant 0 <= i <= |events|
        invariant epoch == Adopt(old(View()), at).0.epoch
        invariant TrackAll(before, events) == TrackAll(held, events[i..])
      {
        held := Track(held, events[i]);
        i := i + 1;
      }
      answer := Ok(if released.Some? then released.value else {});
    }
  }

  // ----- what the session has down -----

  datatype Command = Change(epoch: Epoch) | Batch(epoch: Epoch, events: seq<RawInput>)

  /** The loop, and what its session has down: the answered releases and then the applied events reach it. */
  datatype Played = Played(loop: LoopState, down: set<Held>)

  function Play(p: Played, command: Command): Played {
    match command
    case Change(epoch) =>
      var (loop, released) := Adopt(p.loop, epoch);
      Played(loop, if released.Some? then p.down - released.value else p.down)
    case Batch(epoch, events) =>
      var (loop, answer) := ApplyBatch(p.loop, epoch, events);
      Played(loop, if answer.Ok? then TrackAll(p.down - answer.value, events) else p.down)
  }

  function PlayAll(commands: seq<Command>): Played {
    if commands == [] then Played(LoopState(0, {}), {})
    else Play(PlayAll(commands[..|commands| - 1]), commands[|commands| - 1])
  }

  /** The largest epoch that any of `commands` names. */
  function Newest(commands: seq<Command>): Epoch {
    if commands == [] then 0
    else
      var before, epoch := Newest(commands[..|commands| - 1]), commands[|commands| - 1].epoch;
      if epoch > before then epoch else before
  }

  /** All events of the batches that name `epoch`, in order. */
  function EventsOf(commands: seq<Command>, epoch: Epoch): seq<RawInput> {
    if commands == [] then []
    else
      var last := commands[|commands| - 1];
      EventsOf(commands[..|commands| - 1], epoch) +
      if last.Batch? && last.epoch == epoch then last.events else []
  }

  lemma {:induction false} NothingNewer(commands: seq<Command>, epoch: Epoch)
    requires epoch > Newest(commands)
    ensures EventsOf(commands, epoch) == []
  {
    if commands != [] {
      NothingNewer(commands[..|commands| - 1], epoch);
    }
  }

  /**
   Over any epoch changes and batches, in any order: the loop is at the newest epoch anyone named, and
   what it holds, which is what its session has down, is what the batches of that epoch alone left down.
   */
  lemma {:induction false} LoopIsItsNewestEpoch(commands: seq<Command>)
    ensures var p := PlayAll(commands);
            && p.loop.epoch == Newest(commands)
            && p.loop.held == p.down == TrackAll({}, EventsOf(commands, Newest(commands)))
  {
    if commands != [] {
      var before, last := commands[..|commands| - 1], commands[|commands| - 1];
      var p := PlayAll(before);
      LoopIsItsNewestEpoch(before);
      assert p.down - p.loop.held == {} && p.down - {} == p.down;
      if last.epoch > Newest(before) {
        NothingNewer(before, last.epoch);
      }
      if last.Batch? && last.epoch >= Newest(before) {
        TrackAllAppend({}, EventsOf(before, last.epoch), last.events);
        assert EventsOf(commands, last.epoch) == EventsOf(before, last.epoch) + last.events;
      } else {
        assert EventsOf(commands, Newest(commands)) == EventsOf(before, Newest(commands));
      }
    }
  }

  /**
   The answers after any commands: a newer epoch releases exactly what the session has down, an older
   batch is refused with the newest epoch, and everything else releases nothing.
   */
  lemma AnswersAreExact(commands: seq<Command>, epoch: Epoch, events: seq<RawInput>)
    ensures var p, newest := PlayAll(commands), Newest(commands);
            && Adopt(p.loop, epoch).1 == (if epoch > newest then Some(p.down) else None)
            && ApplyBatch(p.loop, epoch, events).1 ==
               (if epoch < newest then Err(newest) else Ok(if epoch > newest then p.down else {}))
  {
    LoopIsItsNewestEpoch(commands);
  }
}
