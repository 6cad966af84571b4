/**
 Waiting for a count to drop to zero: decrements signal after the fact, and a waiter registers before
 it checks. The count is the pending transitions or the calls in flight; `leased` is the lease that
 also answers an agent action.
 */
module Wakeup {
  import opened Wrappers

  type Waiter = nat

  /** What a waiter waits for: no pending transition or call, or that or a lease. */
  datatype Goal = Zero | ZeroOrLeased

  /** Registered; found its condition false and is about to sleep; asleep; or woken. */
  datatype Stage = Enabled(signalled: bool) | Drowsy(signalled: bool) | Asleep | Awake

  datatype Wait = Wait(goal: Goal, stage: Stage)

  /** `owed` counts the decrements whose signal is still to come. */
  datatype Signal = Signal(count: nat, leased: bool, owed: nat, waits: map<Waiter, Wait>)

  const Start := Signal(0, false, 0, map[])

  predicate Ready(s: Signal, goal: Goal) {
    s.count == 0 || (goal.ZeroOrLeased? && s.leased)
  }

  function Signalled(w: Wait): Wait {
    match w.stage
    case Enabled(_) => w.(stage := Enabled(true))
    case Drowsy(_) => w.(stage := Drowsy(true))
    case Asleep => w.(stage := Awake)
    case Awake => w
  }

  datatype Action =
    | Begin(id: Waiter, goal: Goal)  // a new waiter registers
    | Again(id: Waiter)              // an awake waiter registers again
    | Check(id: Waiter)              // a registered waiter polls its condition
    | Await(id: Waiter)              // it goes to sleep, unless it was signalled since it registered
    | Grow(n: nat)
    | Shrink(n: nat)                // the count drops, to zero at least; its signal is owed
    | Notify                         // one owed signal reaches every registered waiter
    | Lease(present: bool)

  function Apply(s: Signal, a: Action): Option<Signal> {
    match a
    case Begin(id, goal) =>
      if id in s.waits then None else Some(s.(waits := s.waits[id := Wait(goal, Enabled(false))]))
    case Again(id) =>
      if id !in s.waits || !s.waits[id].stage.Awake? then None
      else Some(s.(waits := s.waits[id := s.waits[id].(stage := Enabled(false))]))
    case Check(id) =>
      if id !in s.waits || !s.waits[id].stage.Enabled? then None
      else if Ready(s, s.waits[id].goal) then Some(s.(waits := s.waits - {id}))
      else Some(s.(waits := s.waits[id := s.waits[id].(stage := Drowsy(s.waits[id].stage.signalled))]))
    case Await(id) =>
      if id !in s.waits || !s.waits[id].stage.Drowsy? then None
      else
        Some(s.(waits := s.waits[id := s.waits[id].(stage := if s.waits[id].stage.signalled then Awake else Asleep)]))
    case Grow(n) => Some(s.(count := s.count + n))
    case Shrink(n) =>
      if n == 0 then None else Some(s.(count := if n <= s.count then s.count - n else 0, owed := s.owed + 1))
    case Notify =>
      if s.owed == 0 then None
      else Some(s.(owed := s.owed - 1, waits := map id | id in s.waits :: Signalled(s.waits[id])))
    case Lease(present) => Some(s.(leased := present))
  }

  function Execute(run: seq<Action>): Option<Signal> {
    if run == [] then Some(Start)
    else match Execute(run[..|run| - 1])
    case None => None
    case Some(s) => Apply(s, run[|run| - 1])
  }

  ghost predicate Sleeps(s: Signal, id: Waiter) {
    id in s.waits && s.waits[id].stage.Asleep?
  }

  /** It sleeps, or found its condition false and was not signalled since. */
  ghost predicate WillSleep(s: Signal, id: Waiter) {
    id in s.waits && (s.waits[id].stage.Asleep? || s.waits[id].stage == Drowsy(false))
  }

  /**
   A waiter sleeps, or is about to, only while its condition is false or a signal is owed: a decrement
   between its poll and its sleep is not lost. The one exception is an agent action after a lease appeared:
   it sleeps on until the next decrement.
   */
  lemma {:induction false} NoLostWakeup(run: seq<Action>, s: Signal, id: Waiter)
    requires Execute(run) == Some(s) && WillSleep(s, id)
    ensures !Ready(s, s.waits[id].goal) || s.owed > 0
         || (s.waits[id].goal.ZeroOrLeased? && s.leased && s.count > 0)
    ensures s.count == 0 ==> s.owed > 0
  {
    assert run != [];
    var before := Execute(run[..|run| - 1]).value;
    if WillSleep(before, id) {
      NoLostWakeup(run[..|run| - 1], before, id);
    }
  }

  /**
   The promise that a waiter whose condition is true is owed a signal fails for a sleeper exactly when it
   is an agent action, a lease is there, and no decrement is being signalled.
   */
  lemma SleepsThroughExactly(run: seq<Action>, s: Signal, id: Waiter)
    requires Execute(run) == Some(s) && Sleeps(s, id)
    ensures Ready(s, s.waits[id].goal) && s.owed == 0 <==>
            s.waits[id].goal.ZeroOrLeased? && s.leased && s.owed == 0
  {
    NoLostWakeup(run, s, id);
  }

  /** For the two waits that ask for a zero count only, there is no exception. */
  lemma ZeroIsNeverMissed(run: seq<Action>, s: Signal, id: Waiter)
    requires Execute(run) == Some(s) && Sleeps(s, id) && s.waits[id].goal.Zero?
    ensures s.count > 0 || s.owed > 0
  {
    NoLostWakeup(run, s, id);
  }

  /** The owed signal wakes every sleeper; one that then registers and polls an unchanged zero count is answered. */
  lemma SignalAnswers(s: Signal, id: Waiter)
    requires s.owed > 0 && Sleeps(s, id) && s.count == 0
    ensures var woken := Apply(s, Notify).value;
            && id in woken.waits && woken.waits[id].stage.Awake?
            && var again := Apply(woken, Again(id));
               && again.Some? && var polled := Apply(again.value, Check(id));
                  polled.Some? && id !in polled.value.waits
  {
  }

  lemma Extend(run: seq<Action>, s: Signal, a: Action, s': Signal)
    requires Execute(run) == Some(s) && Apply(s, a) == Some(s')
    ensures Execute(run + [a]) == Some(s')
  {
    assert (run + [a])[..|run + [a]| - 1] == run;
  }

  /** The exception happens: an agent action sleeps although a lease would answer it at once. */
  lemma LeaseDoesNotWake() returns (run: seq<Action>, s: Signal)
    ensures Execute(run) == Some(s) && Sleeps(s, 0) && Ready(s, s.waits[0].goal) && s.owed == 0
  {
    var s1 := Apply(Start, Grow(1)).value;
    Extend([], Start, Grow(1), s1);
    var s2 := Apply(s1, Begin(0, ZeroOrLeased)).value;
    Extend([] + [Grow(1)], s1, Begin(0, ZeroOrLeased), s2);
    var s3 := Apply(s2, Check(0)).value;
    Extend([] + [Grow(1)] + [Begin(0, ZeroOrLeased)], s2, Check(0), s3);
    var s4 := Apply(s3, Await(0)).value;
    Extend([] + [Grow(1)] + [Begin(0, ZeroOrLeased)] + [Check(0)], s3, Await(0), s4);
    s := Apply(s4, Lease(true)).value;
    Extend([] + [Grow(1)] + [Begin(0, ZeroOrLeased)] + [Check(0)] + [Await(0)], s4, Lease(true), s);
    run := [] + [Grow(1)] + [Begin(0, ZeroOrLeased)] + [Check(0)] + [Await(0)] + [Lease(true)];
  }

  /** How many decrements, or how many signals, a run has. */
  function HowMany(run: seq<Action>, signals: bool): nat {
    if run == [] then 0
    else
      var last := run[|run| - 1];
      HowMany(run[..|run| - 1], signals) + if (if signals then last.Notify? else last.Shrink?) then 1 else 0
  }

  /** Every decrement owes one signal of its own. */
  lemma {:induction false} EveryDropIsSignalled(run: seq<Action>, s: Signal)
    requires Execute(run) == Some(s)
    ensures s.owed == HowMany(run, false) - HowMany(run, true)
  {
    if run != [] {
      EveryDropIsSignalled(run[..|run| - 1], Execute(run[..|run| - 1]).value);
    }
  }
}
