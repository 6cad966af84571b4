/** Raw input of a human viewer, and the keys and buttons it holds down. */
module Vocabulary {

  datatype PointerButton = Left | Middle | Right | X1 | X2

  datatype RawInput =
    | PointerMove(x: nat, y: nat)
    | ButtonInput(button: PointerButton, down: bool)
    | Wheel(vertical: bool, units: int)
    | KeyInput(code: nat, extended: bool, down: bool)

  /** A key or a button that is pressed and not yet released. */
  datatype Held =
    | Button(button: PointerButton)
    | Key(code: nat, extended: bool)

  /** The input that releases `held`. */
  function Release(held: Held): RawInput {
    match held
    case Button(button) => ButtonInput(button, false)
    case Key(code, extended) => KeyInput(code, extended, false)
  }

  predicate IsPointer(event: RawInput) {
    !event.KeyInput?
  }

  /** The key or button an event is about; only asked of the two kinds that have one. */
  function Subject(event: RawInput): Held
    requires event.ButtonInput? || event.KeyInput?
  {
    if event.ButtonInput? then Button(event.button) else Key(event.code, event.extended)
  }

  predicate Presses(event: RawInput, key: Held) {
    (event.ButtonInput? || event.KeyInput?) && event.down && Subject(event) == key
  }

  predicate Releases(event: RawInput, key: Held) {
    (event.ButtonInput? || event.KeyInput?) && !event.down && Subject(event) == key
  }

  /** What is down after `event`, when `held` was down before it. */
  function Track(held: set<Held>, event: RawInput): set<Held> {
    match event
    case ButtonInput(button, down) => if down then held + {Button(button)} else held - {Button(button)}
    case KeyInput(code, extended, down) =>
      if down then held + {Key(code, extended)} else held - {Key(code, extended)}
    case PointerMove(_, _) => held
    case Wheel(_, _) => held
  }

  /** What is down after all of `events`, first to last. */
  function TrackAll(held: set<Held>, events: seq<RawInput>): set<Held>
    decreases |events|
  {
    if events == [] then held else TrackAll(Track(held, events[0]), events[1..])
  }

  /** The releases of `order`, in that order. */
  function ReleasesOf(order: seq<Held>): seq<RawInput> {
    seq(|order|, i requires 0 <= i < |order| => Release(order[i]))
  }

  /** `order` lists every member of `held` and nothing else, each once. */
  predicate Lists(order: seq<Held>, held: set<Held>) {
    && (forall i, j :: 0 <= i < j < |order| ==> order[i] != order[j])
    && held == set i | 0 <= i < |order| :: order[i]
  }

  /** One event changes what is down at its own key or button only. */
  lemma TrackAt(held: set<Held>, event: RawInput, key: Held)
    ensures key in Track(held, event) <==> Presses(event, key) || (key in held && !Releases(event, key))
  {
  }

  /** Sending one release after another leaves exactly the keys that were not listed. */
  lemma {:induction false} ReleasesEmpty(held: set<Held>, order: seq<Held>)
    ensures TrackAll(held, ReleasesOf(order)) == held - set i | 0 <= i < |order| :: order[i]
  {
    if order != [] {
      assert ReleasesOf(order)[1..] == ReleasesOf(order[1..]);
      ReleasesEmpty(Track(held, Release(order[0])), order[1..]);
      var rest := set i | 0 <= i < |order[1..]| :: order[1..][i];
      var all := set i | 0 <= i < |order| :: order[i];
      assert all == rest + {order[0]} by {
        forall k | k in rest ensures k in all {
          var i :| 0 <= i < |order[1..]| && order[1..][i] == k;
          assert order[i + 1] == k;
        }
        forall k | k in all && k != order[0] ensures k in rest {
          var i :| 0 <= i < |order| && order[i] == k;
          assert order[1..][i - 1] == k;
        }
      }
    }
  }

  /** What is down depends on what was down monotonically, and only a release can undo it. */
  lemma {:induction false} TrackAllMonotone(held: set<Held>, more: set<Held>, events: seq<RawInput>)
    requires held <= more
    ensures TrackAll(held, events) <= TrackAll(more, events)
    decreases |events|
  {
    if events != [] {
      TrackAllMonotone(Track(held, events[0]), Track(more, events[0]), events[1..]);
    }
  }

  /** A key that was down and is not down any more was released on the way. */
  lemma {:induction false} OnlyReleasesLift(held: set<Held>, events: seq<RawInput>, key: Held)
    requires key in held
    ensures key in TrackAll(held, events) || exists i :: 0 <= i < |events| && Releases(events[i], key)
    decreases |events|
  {
    if events != [] {
      if key in Track(held, events[0]) {
        OnlyReleasesLift(Track(held, events[0]), events[1..], key);
        if key !in TrackAll(held, events) {
          var i :| 0 <= i < |events[1..]| && Releases(events[1..][i], key);
          assert Releases(events[i + 1], key);
        }
      } else {
        TrackAt(held, events[0], key);
        assert Releases(events[0], key);
      }
    }
  }

  lemma {:induction false} TrackAllAppend(held: set<Held>, first: seq<RawInput>, second: seq<RawInput>)
    ensures TrackAll(held, first + second) == TrackAll(TrackAll(held, first), second)
    decreases |first|
  {
    if first == [] {
      assert first + second == second;
    } else {
      assert (first + second)[1..] == first[1..] + second;
      TrackAllAppend(Track(held, first[0]), first[1..], second);
    }
  }
}
