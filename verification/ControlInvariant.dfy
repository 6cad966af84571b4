/** What every action of a session keeps. */
module ControlInvariant {
  import opened Wrappers
  import opened Vocabulary
  import opened ControlState
  import opened ControlWorld

  // ----- on the way to the loop; `epoch` is the current epoch -----

  /** Transition numbers are never reused, and a queued epoch change names its transition. */
  ghost predicate Numbered(n: Net) {
    && (forall tid :: tid in n.trans ==> tid < n.nextTid)
    && (forall i :: 0 <= i < |n.queue| && n.queue[i].SetEpoch? ==>
          && n.queue[i].tid < n.nextTid
          && (n.queue[i].tid in n.trans ==> n.trans[n.queue[i].tid].t.change == Some(n.queue[i].epoch)))
  }

  /** No controller captured an epoch that is still to come. */
  ghost predicate Past(epoch: Epoch, claims: set<(Epoch, Owner)>) {
    forall e, o :: (e, o) in claims ==> e <= epoch
  }

  /** Every epoch in use is at most the current one. */
  ghost predicate Bounded(epoch: Epoch, n: Net) {
    && n.loop.epoch <= epoch
    && Past(epoch, n.claims)
    && (forall tid :: tid in n.trans ==>
          && n.trans[tid].t.at <= epoch
          && (n.trans[tid].t.change.Some? ==> n.trans[tid].t.change.value <= epoch && n.trans[tid].t.release == {}))
    && (forall i :: 0 <= i < |n.queue| ==> n.queue[i].epoch <= epoch)
  }

  /** Each epoch has one owner. */
  ghost predicate Exclusive(claims: set<(Epoch, Owner)>) {
    forall e, o, o' :: (e, o) in claims && (e, o') in claims ==> o == o'
  }

  /** Whatever carries an epoch was sent by its owner. */
  ghost predicate Authentic(n: Net) {
    && (forall i :: 0 <= i < |n.queue| && n.queue[i].Input? ==> (n.queue[i].epoch, n.queue[i].sender) in n.claims)
    && (n.lock.Busy? && n.lock.captured.Some? && (n.lock.request || n.lock.hand != []) ==>
          (n.lock.captured.value, n.lock.sender) in n.claims)
    && (forall tid :: tid in n.trans && n.trans[tid].t.release != {} ==>
          (n.trans[tid].t.at, n.trans[tid].holder) in n.claims)
  }

  /** What is down in the loop was pressed by the owner of the epoch of the loop. */
  ghost predicate Pressed(n: Net) {
    forall k :: k in n.loop.held ==> (n.loop.epoch, n.loop.held[k]) in n.claims
  }

  /** What the loop applied: epochs never go back, and each batch came from the owner of its epoch. */
  ghost predicate Traced(n: Net) {
    && (forall i, j :: 0 <= i < j < |n.applied| ==> n.applied[i].0 <= n.applied[j].0)
    && (forall i :: 0 <= i < |n.applied| ==> n.applied[i] in n.claims && n.applied[i].0 <= n.loop.epoch)
  }

  /** A confirmed epoch change is adopted. */
  ghost predicate Answered(n: Net) {
    forall tid :: tid in n.trans && n.trans[tid].delivery.Confirmed? ==>
      n.trans[tid].t.change.Some? && n.trans[tid].t.change.value <= n.loop.epoch
  }

  /** While the newest epoch change was not given up, the loop is behind only because that is still live. */
  ghost predicate Chased(epoch: Epoch, n: Net) {
    n.newestKept && n.loop.epoch < epoch ==>
      n.changer.Some? && n.changer.value in n.trans && n.trans[n.changer.value].t.change == Some(epoch)
  }

  ghost predicate NetInv(epoch: Epoch, n: Net) {
    && Numbered(n) && Bounded(epoch, n) && Exclusive(n.claims) && Authentic(n) && Pressed(n) && Traced(n)
    && Answered(n) && Chased(epoch, n)
  }

  // ----- the lease and its takes -----

  /** Nobody ever captured `epoch`. */
  ghost predicate Fresh(epoch: Epoch, n: Net) {
    forall o :: (epoch, o) !in n.claims
  }

  /** Only `owner` ever captured `epoch`. */
  ghost predicate ClaimedBy(epoch: Epoch, n: Net, owner: Owner) {
    forall o :: (epoch, o) in n.claims ==> o == owner
  }

  /** Takes and the transitions they discharge name each other. */
  ghost predicate Paired(n: Net, takes: map<LeaseId, Phase>, issued: set<LeaseId>) {
    && (forall id :: id in takes ==> id in issued)
    && (forall id :: id in takes && TidOf(takes[id]).Some? ==>
          && TidOf(takes[id]).value in n.trans
          && n.trans[TidOf(takes[id]).value].take == Some(id)
          && n.trans[TidOf(takes[id]).value].t.change.Some?)
    && (forall tid :: tid in n.trans && n.trans[tid].take.Some? ==>
          && n.trans[tid].take.value in takes
          && TidOf(takes[n.trans[tid].take.value]) == Some(tid))
  }

  /** What a take that still has the lease may rely on at each of its awaits. */
  ghost predicate PhaseInv(c: Control, n: Net, phase: Phase) {
    match phase
    case Moving(tid) =>
      Fresh(c.epoch, n) && c.inflight == 0 && tid in n.trans && n.trans[tid].t.change == Some(c.epoch)
    case Draining => Fresh(c.epoch, n) && c.inflight == 0 && n.loop.epoch == c.epoch
    case Settling => true
    case Releasing => c.inflight == 0
    case Settled(inTime) => inTime ==> c.inflight == 0 && n.trans == map[]
    case Changing(tid) =>
      && Fresh(c.epoch, n) && c.inflight == 0 && n.trans.Keys == {tid}
      && n.trans[tid].t.change == Some(c.epoch)
    case Deciding(confirmed) =>
      confirmed ==> Fresh(c.epoch, n) && c.inflight == 0 && n.trans == map[] && n.loop.epoch == c.epoch
    case Abandoned => true
  }

  /** The lease, the owner of the current epoch and the calls in flight. */
  ghost predicate Controlled(c: Control, n: Net, takes: map<LeaseId, Phase>, issued: set<LeaseId>) {
    match c.lease
    case None => ClaimedBy(c.epoch, n, Agent)
    case Some(lease) =>
      && lease.id in issued
      && if lease.granted then
           && ClaimedBy(c.epoch, n, Human(lease.id)) && c.inflight == 0 && lease.id !in takes
           && n.loop.epoch == c.epoch
         else
           && ClaimedBy(c.epoch, n, Agent) && lease.held == {}
           && lease.id in takes && PhaseInv(c, n, takes[lease.id])
  }

  /** The pending count is the number of transitions that are neither discharged nor dropped. */
  ghost predicate Counted(c: Control, n: Net) {
    c.pending == |n.trans|
  }

  /** The part of the invariant that is about the lease and its takes. */
  ghost predicate Led(w: World) {
    && Counted(w.c, w.net) && Past(w.c.epoch, w.net.claims) && w.net.loop.epoch <= w.c.epoch
    && Paired(w.net, w.takes, w.issued) && Controlled(w.c, w.net, w.takes, w.issued)
  }

  ghost predicate Core(w: World) {
    NetInv(w.c.epoch, w.net) && Led(w)
  }
}
