/** An expiry decides in one critical section and ends the lease in another: what it can meet there. */
module ControlExpiry {
  import opened Wrappers
  import opened Vocabulary
  import opened ControlState
  import opened ControlWorld
  import opened ControlInvariant
  import opened ControlRuns

  ghost predicate Marks(a: Action) {
    a.Taking? && a.take.MarkA?
  }

  /** A take marked the lease somewhere in `run`. */
  ghost predicate TakeMarked(run: seq<Action>) {
    exists i :: 0 <= i < |run| && Marks(run[i])
  }

  /** Only a mark puts a lease in place, and a lease that is granted stays granted. */
  ghost predicate SameLease(w: World, w': World) {
    && w'.issued == w.issued
    && (w'.c.lease.Some? ==>
          && w.c.lease.Some? && w'.c.lease.value.id == w.c.lease.value.id
          && (w.c.lease.value.granted ==> w'.c.lease.value.granted))
  }

  lemma TakeKeepsLease(w: World, a: TakeAction, w': World)
    requires ApplyTake(w, a) == Some(w') && !a.MarkA?
    ensures SameLease(w, w') && w'.expiring == w.expiring
  {
  }

  lemma MarkNamesLease(w: World, a: TakeAction, w': World)
    requires ApplyTake(w, a) == Some(w') && a.MarkA?
    ensures w'.c.lease.Some? && w'.c.lease.value.id == a.id && a.id !in w.issued && w'.issued == w.issued + {a.id}
    ensures w'.expiring == w.expiring
  {
  }

  lemma LeadKeepsLease(w: World, a: LeaseAction, w': World)
    requires ApplyLease(w, a) == Some(w')
    ensures SameLease(w, w')
    ensures forall op :: op in w.expiring && a != ExpireA(op) ==> op in w'.expiring && w'.expiring[op] == w.expiring[op]
  {
  }

  lemma WayKeepsLease(w: World, a: WayAction, w': World)
    requires ApplyWay(w, a) == Some(w')
    ensures SameLease(w, w') && w'.expiring == w.expiring
  {
  }

  lemma HolderKeepsLease(w: World, a: HolderAction, w': World)
    requires ApplyHolder(w, a) == Some(w')
    ensures SameLease(w, w') && w'.expiring == w.expiring
  {
  }

  /** What an expiry `op` between its sections may rely on. */
  ghost predicate Since(w: World, op: nat, e: Expiry, marked: bool) {
    && op in w.expiring && w.expiring[op] == e && e.found in w.issued
    && (w.c.lease.Some? ==>
          if marked then w.c.lease.value.id != e.found
          else w.c.lease.value.id == e.found && w.c.lease.value.granted)
  }

  lemma StepSince(w: World, a: Action, w': World, op: nat, e: Expiry, marked: bool)
    requires Apply(w, a) == Some(w') && Since(w, op, e, marked) && a != Leading(ExpireA(op))
    ensures Since(w', op, e, marked || Marks(a))
  {
    match a
    case Taking(take) =>
      if take.MarkA? {
        MarkNamesLease(w, take, w');
      } else {
        TakeKeepsLease(w, take, w');
      }
    case OnTheWay(way) => WayKeepsLease(w, way, w');
    case Leading(lead) => LeadKeepsLease(w, lead, w');
    case Holding(hold) => HolderKeepsLease(w, hold, w');
  }

  /** From the first section on, the lease is the found one until a take is marked, and never again after. */
  lemma {:induction false} SinceFound(before: seq<Action>, mid: seq<Action>, op: nat, w0: World, w: World)
    requires Execute(before) == Some(w0) && op in w0.expiring && Since(w0, op, w0.expiring[op], false)
    requires Execute(before + mid) == Some(w)
    requires forall i :: 0 <= i < |mid| ==> mid[i] != Leading(ExpireA(op))
    ensures Since(w, op, w0.expiring[op], TakeMarked(mid))
    decreases |mid|
  {
    if mid == [] {
      assert before + mid == before;
    } else {
      var init, last := mid[..|mid| - 1], mid[|mid| - 1];
      assert (before + mid)[..|before + mid| - 1] == before + init;
      var w1 := Execute(before + init).value;
      SinceFound(before, init, op, w0, w1);
      StepSince(w1, last, w, op, w0.expiring[op], TakeMarked(init));
      MarkedLast(init, last);
      assert mid == init + [last];
    }
  }

  lemma MarkedLast(init: seq<Action>, last: Action)
    ensures TakeMarked(init + [last]) <==> TakeMarked(init) || Marks(last)
  {
    assert (init + [last])[|init|] == last;
    if TakeMarked(init) {
      var i :| 0 <= i < |init| && Marks(init[i]);
      assert Marks((init + [last])[i]);
    }
  }

  /** The lease of `w` ended in `w'`, and is remembered as ended for `reason`. */
  ghost predicate EndedFor(w: World, w': World, reason: EndReason)
    requires w.c.lease.Some?
  {
    && w'.c.lease.None? && w'.c.ended != []
    && w'.c.ended[|w'.c.ended| - 1] == (w.c.lease.value.id, LostBy(reason))
  }

  /** What the second section does to whatever lease it meets. */
  lemma ExpireEnds(w: World, op: nat, w': World)
    requires Expire(w, op) == Some(w')
    ensures w.c.lease.None? ==> w'.c == w.c
    ensures w.c.lease.Some? ==> EndedFor(w, w', w.expiring[op].reason)
    ensures w'.takes == w.takes
  {
  }

  /** The first section saw the granted lease `e.found` expired for `e.reason`. */
  ghost predicate SawExpired(c: Control, e: Expiry, now: nat, idleTimeout: nat) {
    && c.lease.Some? && c.lease.value.granted && c.lease.value.id == e.found
    && ExpireReason(c, now, idleTimeout) == Some(e.reason)
  }

  /** The newest end is that of a take which is still in progress. */
  ghost predicate EndedATake(w: World, w': World) {
    w.c.lease.Some? && w'.c.lease.None? && w'.c.ended != [] && w'.c.ended[|w'.c.ended| - 1].0 in w'.takes
  }

  /**
   An expiry, whatever comes between its sections. It ends the lease it meets, if there is one. That is
   another than the one it found exactly when a take was marked in between; and the promise that a
   waiting take is never expired fails exactly when the lease it meets is not granted.
   */
  lemma ExpiryEndsWhatItMeets(before: seq<Action>, mid: seq<Action>, op: nat, now: nat, idleTimeout: nat, w: World,
                              w': World)
    requires Execute(before + [Leading(SeeExpiredA(op, now, idleTimeout))] + mid) == Some(w)
    requires forall i :: 0 <= i < |mid| ==> mid[i] != Leading(ExpireA(op))
    requires Expire(w, op) == Some(w') && !w.net.saturated && !w.over
    ensures Execute(before).Some? && SawExpired(Execute(before).value.c, w.expiring[op], now, idleTimeout)
    ensures w.c.lease.None? ==> w'.c == w.c
    ensures w.c.lease.Some? ==> EndedFor(w, w', w.expiring[op].reason)
    ensures w.c.lease.Some? ==> (w.c.lease.value.id != w.expiring[op].found <==> TakeMarked(mid))
    ensures EndedATake(w, w') <==> w.c.lease.Some? && !w.c.lease.value.granted
    ensures EndedATake(w, w') ==> TakeMarked(mid)
  {
    var see := before + [Leading(SeeExpiredA(op, now, idleTimeout))];
    var w0 := FirstSection(before, mid, op, now, idleTimeout, w);
    SinceFound(see, mid, op, w0, w);
    RunKeeps(see + mid, w);
    ExpireEnds(w, op, w');
  }

  /** The world right after the first section. */
  lemma FirstSection(before: seq<Action>, mid: seq<Action>, op: nat, now: nat, idleTimeout: nat, w: World)
    returns (w0: World)
    requires Execute(before + [Leading(SeeExpiredA(op, now, idleTimeout))] + mid) == Some(w)
    requires !w.net.saturated && !w.over
    ensures Execute(before + [Leading(SeeExpiredA(op, now, idleTimeout))]) == Some(w0)
    ensures op in w0.expiring && Since(w0, op, w0.expiring[op], false)
    ensures Execute(before).Some? && SawExpired(Execute(before).value.c, w0.expiring[op], now, idleTimeout)
  {
    var see := before + [Leading(SeeExpiredA(op, now, idleTimeout))];
    PrefixExecutes(see, mid, w);
    w0 := Execute(see).value;
    assert see[..|see| - 1] == before;
    RunKeeps(see, w0);
  }

  lemma {:induction false} PrefixExecutes(first: seq<Action>, rest: seq<Action>, w: World)
    requires Execute(first + rest) == Some(w) && !w.net.saturated && !w.over
    ensures Execute(first).Some? && !Execute(first).value.net.saturated && !Execute(first).value.over
    decreases |rest|
  {
    if rest == [] {
      assert first + rest == first;
    } else {
      var init := rest[..|rest| - 1];
      assert (first + rest)[..|first + rest| - 1] == first + init;
      var w1 := Execute(first + init).value;
      if w1.net.saturated {
        SaturationStays(w1, rest[|rest| - 1], w);
      }
      PrefixExecutes(first, init, w1);
    }
  }
}
