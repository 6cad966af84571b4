/** Which JSON-RPC requests between the caller and the child are not answered yet. */
module ChildRequests {
  import opened Sets
  import opened Wrappers

  const MAX_PENDING: nat := 256

  /** What tracking reads of a message; `id` is the JSON text of the id, if there is one. */
  datatype Rpc = Rpc(id: Option<string>, hasMethod: bool, answers: bool)

  /** A message on its way from the child or to it. */
  datatype Sent = Sent(fromChild: bool, rpc: Rpc, at: nat)

  type Key = (bool, string)

  predicate Asks(m: Sent, key: Key) {
    m.rpc.id == Some(key.1) && m.rpc.hasMethod && m.fromChild == key.0
  }

  predicate Answers(m: Sent, key: Key) {
    m.rpc.id == Some(key.1) && !m.rpc.hasMethod && m.rpc.answers && m.fromChild != key.0
  }

  /** One message: the requests not answered after it, or the end of the attachment. */
  function Track(pending: map<Key, nat>, m: Sent): (map<Key, nat>, bool) {
    if m.rpc.id.None? then (pending, true)
    else if m.rpc.hasMethod then
      var key := (m.fromChild, m.rpc.id.value);
      if |pending| >= MAX_PENDING then (pending, false) else (pending[key := m.at], key !in pending)
    else if m.rpc.answers then (pending - {(!m.fromChild, m.rpc.id.value)}, true)
    else (pending, true)
  }

  /** All of `ms`, if none ends the attachment. */
  function TrackAll(ms: seq<Sent>): Option<map<Key, nat>> {
    if ms == [] then Some(map[])
    else
      match TrackAll(ms[..|ms| - 1])
      case None => None
      case Some(pending) =>
        var (next, ok) := Track(pending, ms[|ms| - 1]);
        if ok then Some(next) else None
  }

  /** `key` was asked at `i` and not answered by the other side since. */
  ghost predicate OpenSince(ms: seq<Sent>, key: Key, i: int) {
    0 <= i < |ms| && Asks(ms[i], key) && forall j :: i < j < |ms| ==> !Answers(ms[j], key)
  }

  ghost predicate Outstanding(ms: seq<Sent>, key: Key) {
    exists i :: OpenSince(ms, key, i)
  }

  lemma OutstandingNext(ms: seq<Sent>, m: Sent, key: Key)
    ensures Outstanding(ms + [m], key) <==> Asks(m, key) || (Outstanding(ms, key) && !Answers(m, key))
  {
    var all := ms + [m];
    if Asks(m, key) {
      assert OpenSince(all, key, |ms|);
    }
    if Outstanding(ms, key) && !Answers(m, key) {
      var i :| OpenSince(ms, key, i);
      assert OpenSince(all, key, i);
    }
    if Outstanding(all, key) && !Asks(m, key) {
      var i :| OpenSince(all, key, i);
      assert all[|ms|] == m;
      forall j | i < j < |ms| ensures !Answers(ms[j], key) {
        assert all[j] == ms[j];
      }
      assert OpenSince(ms, key, i);
    }
  }

  /** The pending map is exactly the requests of each side that the other side did not answer, 256 at most. */
  lemma {:induction false} PendingIsOutstanding(ms: seq<Sent>)
    requires TrackAll(ms).Some?
    ensures |TrackAll(ms).value| <= MAX_PENDING
    ensures forall key :: key in TrackAll(ms).value <==> Outstanding(ms, key)
  {
    if ms != [] {
      var before, m := ms[..|ms| - 1], ms[|ms| - 1];
      PendingIsOutstanding(before);
      var pending := TrackAll(before).value;
      assert ms == before + [m];
      forall key ensures key in TrackAll(ms).value <==> Outstanding(ms, key) {
        OutstandingNext(before, m, key);
      }
      if m.rpc.id.Some? && !m.rpc.hasMethod && m.rpc.answers {
        FewerKeys(pending, {(!m.fromChild, m.rpc.id.value)});
      } else if m.rpc.id.Some? && m.rpc.hasMethod {
        var key := (m.fromChild, m.rpc.id.value);
        assert pending[key := m.at].Keys == pending.Keys + {key};
      }
    }
  }

  lemma FewerKeys(m: map<Key, nat>, gone: set<Key>)
    ensures |m - gone| <= |m|
  {
    SubsetSize((m - gone).Keys, m.Keys);
  }

  /** The next message ends the attachment exactly when it repeats an open request or finds 256 open ones. */
  lemma AbortsExactly(ms: seq<Sent>, m: Sent)
    requires TrackAll(ms).Some?
    ensures TrackAll(ms + [m]).None? <==>
            m.rpc.id.Some? && m.rpc.hasMethod
            && (Outstanding(ms, (m.fromChild, m.rpc.id.value)) || |TrackAll(ms).value| >= MAX_PENDING)
  {
    PendingIsOutstanding(ms);
    assert (ms + [m])[..|ms + [m]| - 1] == ms;
  }

  /** Every open request is kept with the time of the one message that asked it. */
  lemma {:induction false} TimesAreKept(ms: seq<Sent>, key: Key, i: int)
    requires TrackAll(ms).Some? && OpenSince(ms, key, i)
    ensures key in TrackAll(ms).value && TrackAll(ms).value[key] == ms[i].at
  {
    var before, m := ms[..|ms| - 1], ms[|ms| - 1];
    if i < |before| {
      assert OpenSince(before, key, i) by {
        assert forall j :: i <= j < |before| ==> before[j] == ms[j];
      }
      assert !Answers(m, key);
      TimesAreKept(before, key, i);
    }
  }

  /** Some open request waits for longer than `timeout`. */
  predicate Overdue(pending: map<Key, nat>, now: nat, timeout: nat) {
    exists key :: key in pending && pending[key] + timeout < now
  }

  /** The deadline passes exactly when a request that was asked before it is not answered by the other side. */
  lemma DeadlineIsExact(ms: seq<Sent>, now: nat, timeout: nat)
    requires TrackAll(ms).Some?
    ensures Overdue(TrackAll(ms).value, now, timeout) <==>
            exists key, i :: OpenSince(ms, key, i) && ms[i].at + timeout < now
  {
    var pending := TrackAll(ms).value;
    if Overdue(pending, now, timeout) {
      var key :| key in pending && pending[key] + timeout < now;
      PendingIsOutstanding(ms);
      assert Outstanding(ms, key);
      var i :| OpenSince(ms, key, i);
      TimesAreKept(ms, key, i);
    }
    if exists key, i :: OpenSince(ms, key, i) && ms[i].at + timeout < now {
      var key, i :| OpenSince(ms, key, i) && ms[i].at + timeout < now;
      TimesAreKept(ms, key, i);
    }
  }

  class ChildLoop {
    var pending: map<Key, nat>

    constructor ()
      ensures pending == map[]
    {
      pending := map[];
    }

    method Observe(m: Sent) returns (ok: bool)
      modifies this
      ensures (pending, ok) == Track(old(pending), m)
    {
      if m.rpc.id.None? {
        return true;
      }
      var id := m.rpc.id.value;
      if m.rpc.hasMethod {
        if |pending| >= MAX_PENDING {
          return false;
        }
        ok := (m.fromChild, id) !in pending;
        pending := pending[(m.fromChild, id) := m.at];
      } else {
        ok := true;
        if m.rpc.answers {
          pending := pending - {(!m.fromChild, id)};
        }
      }
    }

    /** The timer: whether the attachment is to end because a request waits too long. */
    method Expired(now: nat, timeout: nat) returns (yes: bool)
      ensures yes <==> Overdue(pending, now, timeout)
    {
      yes := Overdue(pending, now, timeout);
    }
  }
}
