/** Any number of attachments and native verbs recording in one log: each call starts and ends once. */
module CallRuns {
  import opened Wrappers
  import opened EventLog
  import opened CallTracker

  /** Who drew a call number and has not recorded its start yet. */
  datatype Draw = ForTable(attachment: nat, id: Id, name: Name) | ForVerb(name: Name)

  datatype Ledger = Ledger(
    next: nat,
    drawn: map<nat, Draw>,
    tables: map<nat, seq<Pending>>,
    verbs: map<nat, Name>,
    kinds: seq<Kind>)

  /** A start has two steps: a number is drawn, and then, maybe after others, the start is recorded. */
  datatype Action =
    | Open(attachment: nat)
    | Ask(attachment: nat, request: Request)
    | Reply(attachment: nat, response: Response)
    | Close(attachment: nat)
    | VerbDraws(name: Name)
    | Starts(call: nat)
    | VerbEnds(call: nat, outcome: Outcome)
    | Other(kind: nat)

  function TableOf(w: Ledger, a: nat): Table
    requires a in w.tables
  {
    Table(w.tables[a], w.kinds)
  }

  function Put(w: Ledger, a: nat, t: Table): Ledger {
    w.(tables := w.tables[a := t.pending], kinds := t.kinds)
  }

  /** The tracker of `a` is between the two steps of a start. */
  predicate Busy(w: Ledger, a: nat) {
    exists c :: c in w.drawn && w.drawn[c].ForTable? && w.drawn[c].attachment == a
  }

  predicate Enabled(w: Ledger, step: Action) {
    match step
    case Open(a) => a !in w.tables
    case Ask(a, _) => a in w.tables && !Busy(w, a)
    case Reply(a, _) => a in w.tables && !Busy(w, a)
    case Close(a) => a in w.tables && !Busy(w, a)
    case VerbDraws(_) => true
    case Starts(call) => call in w.drawn && (w.drawn[call].ForTable? ==> w.drawn[call].attachment in w.tables)
    case VerbEnds(call, _) => call in w.verbs
    case Other(_) => true
  }

  function Drawn(w: Ledger, draw: Draw): Ledger {
    w.(next := w.next + 1, drawn := w.drawn[w.next := draw])
  }

  function Apply(w: Ledger, step: Action): Ledger
    requires Enabled(w, step)
  {
    match step
    case Open(a) => w.(tables := w.tables[a := []])
    case Ask(a, request) =>
      match Tracked(request) {
        case None => w
        case Some(id) => Drawn(Put(w, a, MakeRoom(TableOf(w, a), id)), ForTable(a, id, Recordable(request.name)))
      }
    case Reply(a, response) => Put(w, a, Answer(TableOf(w, a), response))
    case Close(a) => w.(tables := w.tables - {a}, kinds := CloseAll(TableOf(w, a)).kinds)
    case VerbDraws(name) => Drawn(w, ForVerb(name))
    case Starts(call) =>
      var rest := w.(drawn := w.drawn - {call});
      match w.drawn[call] {
        case ForTable(a, id, name) => Put(rest, a, Start(TableOf(w, a), id, name, call))
        case ForVerb(name) => rest.(verbs := w.verbs[call := name], kinds := w.kinds + [CallStarted(call, name)])
      }
    case VerbEnds(call, outcome) =>
      w.(verbs := w.verbs - {call}, kinds := w.kinds + [CallFinished(call, w.verbs[call], outcome)])
    case Other(kind) => w.(kinds := w.kinds + [Note(kind)])
  }

  /** What a request does before it starts its own call. */
  function MakeRoom(t: Table, id: Id): Table {
    Evict(Replace(t, id))
  }

  /** With nothing of others between the two steps of a start, they are what the tracker does at once. */
  lemma AskAndStartIsObserve(w: Ledger, a: nat, request: Request)
    requires Enabled(w, Ask(a, request)) && Tracked(request).Some? && w.next !in w.drawn
    ensures var asked := Apply(w, Ask(a, request));
            && Enabled(asked, Starts(w.next))
            && Apply(asked, Starts(w.next)) ==
               Put(w, a, Observe(TableOf(w, a), request, w.next)).(next := w.next + 1)
  {
    var asked := Apply(w, Ask(a, request));
    assert asked.drawn - {w.next} == w.drawn;
    assert TableOf(asked, a) == MakeRoom(TableOf(w, a), Tracked(request).value);
    var started := Apply(asked, Starts(w.next));
    assert started.tables == Put(w, a, Observe(TableOf(w, a), request, w.next)).tables;
  }

  /** A run of the steps that are possible when they come up. */
  function Run(steps: seq<Action>): Ledger {
    if steps == [] then Ledger(1, map[], map[], map[], [])
    else
      var w := Run(steps[..|steps| - 1]);
      if Enabled(w, steps[|steps| - 1]) then Apply(w, steps[|steps| - 1]) else w
  }

  // --- Counting ---

  function StartsOf(kinds: seq<Kind>, call: nat): nat {
    if kinds == [] then 0
    else
      var last := kinds[|kinds| - 1];
      StartsOf(kinds[..|kinds| - 1], call) + if last.CallStarted? && last.call == call then 1 else 0
  }

  function EndsOf(kinds: seq<Kind>, call: nat): nat {
    if kinds == [] then 0
    else
      var last := kinds[|kinds| - 1];
      EndsOf(kinds[..|kinds| - 1], call) + if last.CallFinished? && last.call == call then 1 else 0
  }

  lemma CountLast(kinds: seq<Kind>, last: Kind, call: nat)
    ensures StartsOf(kinds + [last], call) ==
            StartsOf(kinds, call) + if last.CallStarted? && last.call == call then 1 else 0
    ensures EndsOf(kinds + [last], call) ==
            EndsOf(kinds, call) + if last.CallFinished? && last.call == call then 1 else 0
  {
    assert (kinds + [last])[..|kinds|] == kinds;
  }

  predicate Holds(pending: seq<Pending>, call: nat) {
    exists i :: 0 <= i < |pending| && pending[i].call == call
  }

  ghost predicate Live(w: Ledger, call: nat) {
    call in w.verbs || exists a :: a in w.tables && Holds(w.tables[a], call)
  }

  /** Oldest first by call number, at most 64, one call for an id. */
  ghost predicate Tidy(pending: seq<Pending>) {
    && |pending| <= PENDING_CAP
    && (forall i, j :: 0 <= i < j < |pending| ==> pending[i].call < pending[j].call && pending[i].id != pending[j].id)
  }

  ghost predicate Counted(w: Ledger) {
    && 1 <= w.next
    && (forall c: nat :: StartsOf(w.kinds, c) == if 1 <= c < w.next && c !in w.drawn then 1 else 0)
    && (forall c: nat :: EndsOf(w.kinds, c) + (if Live(w, c) then 1 else 0) == StartsOf(w.kinds, c))
  }

  ghost predicate Apart(w: Ledger) {
    && (forall a, b, c :: a in w.tables && b in w.tables && a != b && Holds(w.tables[a], c) ==> !Holds(w.tables[b], c))
    && (forall a, c :: a in w.tables && c in w.verbs ==> !Holds(w.tables[a], c))
    && (forall a :: a in w.tables ==> Tidy(w.tables[a]))
  }

  /** What is live was started under the name it will be ended with. */
  ghost predicate Named(w: Ledger) {
    && (forall a, p :: a in w.tables && p in w.tables[a] ==> CallStarted(p.call, p.name) in w.kinds)
    && (forall c :: c in w.verbs ==> CallStarted(c, w.verbs[c]) in w.kinds)
    && (forall i :: 0 <= i < |w.kinds| && w.kinds[i].CallFinished? ==>
          CallStarted(w.kinds[i].call, w.kinds[i].name) in w.kinds[..i])
  }

  /** Whoever drew a number for an attachment finds room for it, and its id free. */
  ghost predicate Roomy(w: Ledger) {
    && (forall c :: c in w.drawn ==> 1 <= c < w.next)
    && (forall c :: c in w.drawn && w.drawn[c].ForTable? ==>
          w.drawn[c].attachment in w.tables && HasRoom(w.tables[w.drawn[c].attachment], w.drawn[c].id, c))
    && (forall c, d :: c in w.drawn && d in w.drawn && SameTracker(w.drawn[c], w.drawn[d]) ==> c == d)
  }

  predicate SameTracker(a: Draw, b: Draw) {
    a.ForTable? && b.ForTable? && a.attachment == b.attachment
  }

  ghost predicate HasRoom(pending: seq<Pending>, id: Id, call: nat) {
    |pending| < PENDING_CAP && forall p :: p in pending ==> p.id != id && p.call < call
  }

  ghost predicate Sound(w: Ledger) {
    Counted(w) && Apart(w) && Named(w) && Roomy(w)
  }

  lemma NamedGrows(kinds: seq<Kind>, last: Kind)
    requires forall i :: 0 <= i < |kinds| && kinds[i].CallFinished? ==>
               CallStarted(kinds[i].call, kinds[i].name) in kinds[..i]
    requires last.CallFinished? ==> CallStarted(last.call, last.name) in kinds
    ensures forall i :: 0 <= i < |kinds| + 1 && (kinds + [last])[i].CallFinished? ==>
              CallStarted((kinds + [last])[i].call, (kinds + [last])[i].name) in (kinds + [last])[..i]
  {
    forall i | 0 <= i < |kinds| + 1 && (kinds + [last])[i].CallFinished?
      ensures CallStarted((kinds + [last])[i].call, (kinds + [last])[i].name) in (kinds + [last])[..i]
    {
      assert (kinds + [last])[..i] == kinds[..i];
      assert kinds[..|kinds|] == kinds;
    }
  }

  // --- Ending one call of an attachment ---

  lemma WithoutOne(pending: seq<Pending>, at: nat)
    requires Tidy(pending) && at < |pending|
    ensures Tidy(pending[..at] + pending[at + 1..])
    ensures forall c :: Holds(pending[..at] + pending[at + 1..], c) <==> Holds(pending, c) && c != pending[at].call
  {
    var rest := pending[..at] + pending[at + 1..];
    forall c | Holds(pending, c) && c != pending[at].call
      ensures Holds(rest, c)
    {
      var i :| 0 <= i < |pending| && pending[i].call == c;
      assert rest[if i < at then i else i - 1].call == c;
    }
  }

  lemma FinishKeepsCounted(w: Ledger, a: nat, at: nat, outcome: Outcome)
    requires Sound(w) && a in w.tables && at < |w.tables[a]|
    ensures Counted(Put(w, a, FinishAt(TableOf(w, a), at, outcome)))
  {
    var v := Put(w, a, FinishAt(TableOf(w, a), at, outcome));
    var ended := w.tables[a][at].call;
    WithoutOne(w.tables[a], at);
    assert Holds(w.tables[a], ended);
    forall c: nat
      ensures StartsOf(v.kinds, c) == StartsOf(w.kinds, c)
      ensures EndsOf(v.kinds, c) + (if Live(v, c) then 1 else 0) == StartsOf(v.kinds, c)
    {
      CountLast(w.kinds, CallFinished(ended, w.tables[a][at].name, outcome), c);
      assert Live(v, c) <==> Live(w, c) && c != ended by {
        if Live(w, c) && c !in w.verbs && c != ended {
          var b :| b in w.tables && Holds(w.tables[b], c);
          assert Holds(v.tables[b], c);
        }
      }
    }
  }

  lemma FinishKeepsRest(w: Ledger, a: nat, at: nat, outcome: Outcome)
    requires Sound(w) && a in w.tables && at < |w.tables[a]|
    ensures Apart(Put(w, a, FinishAt(TableOf(w, a), at, outcome)))
    ensures Named(Put(w, a, FinishAt(TableOf(w, a), at, outcome)))
  {
    WithoutOne(w.tables[a], at);
    assert w.tables[a][at] in w.tables[a];
    NamedGrows(w.kinds, CallFinished(w.tables[a][at].call, w.tables[a][at].name, outcome));
  }

  lemma FinishKeeps(w: Ledger, a: nat, at: nat, outcome: Outcome)
    requires Sound(w) && a in w.tables && at < |w.tables[a]|
    ensures Sound(Put(w, a, FinishAt(TableOf(w, a), at, outcome)))
  {
    FinishKeepsCounted(w, a, at, outcome);
    FinishKeepsRest(w, a, at, outcome);
    FinishKeepsRoomy(w, a, at, outcome);
  }

  /** An end only makes more room. */
  lemma FinishKeepsRoomy(w: Ledger, a: nat, at: nat, outcome: Outcome)
    requires Roomy(w) && a in w.tables && at < |w.tables[a]|
    ensures Roomy(Put(w, a, FinishAt(TableOf(w, a), at, outcome)))
  {
    var rest := w.tables[a][..at] + w.tables[a][at + 1..];
    assert forall p :: p in rest ==> p in w.tables[a];
  }

  // --- Starting a call ---

  /** A live call was started, so its number is below the next one and not waiting for its start. */
  lemma LiveIsStarted(w: Ledger, call: nat)
    requires Counted(w) && Live(w, call)
    ensures 1 <= call < w.next && call !in w.drawn
  {
    assert StartsOf(w.kinds, call) >= 1;
  }

  lemma CallsAreStarted(w: Ledger, a: nat, p: Pending)
    requires Counted(w) && a in w.tables && p in w.tables[a]
    ensures 1 <= p.call < w.next && p.call !in w.drawn
  {
    var i :| 0 <= i < |w.tables[a]| && w.tables[a][i] == p;
    assert Holds(w.tables[a], p.call);
    LiveIsStarted(w, p.call);
  }

  lemma DrawKeepsCounted(w: Ledger, draw: Draw)
    requires Counted(w) && Roomy(w)
    ensures Counted(Drawn(w, draw))
  {
    var v := Drawn(w, draw);
    forall c: nat
      ensures StartsOf(v.kinds, c) == if 1 <= c < v.next && c !in v.drawn then 1 else 0
      ensures Live(v, c) == Live(w, c)
    {
    }
  }

  /** Drawing a number changes nothing that is recorded. */
  lemma DrawKeeps(w: Ledger, draw: Draw)
    requires Sound(w)
    requires draw.ForTable? ==>
               && draw.attachment in w.tables && !Busy(w, draw.attachment)
               && HasRoom(w.tables[draw.attachment], draw.id, w.next)
    ensures Sound(Drawn(w, draw))
  {
    DrawKeepsCounted(w, draw);
  }

  lemma StartsCount(w: Ledger, v: Ledger, call: nat, name: Name)
    requires Counted(w) && Roomy(w) && call in w.drawn
    requires v.kinds == w.kinds + [CallStarted(call, name)] && v.next == w.next && v.drawn == w.drawn - {call}
    requires forall c: nat :: Live(v, c) <==> Live(w, c) || c == call
    ensures Counted(v)
  {
    assert !Live(w, call) by {
      if Live(w, call) {
        LiveIsStarted(w, call);
        assert false;
      }
    }
    forall c: nat
      ensures StartsOf(v.kinds, c) == if 1 <= c < v.next && c !in v.drawn then 1 else 0
      ensures EndsOf(v.kinds, c) + (if Live(v, c) then 1 else 0) == StartsOf(v.kinds, c)
    {
      CountLast(w.kinds, CallStarted(call, name), c);
    }
  }

  lemma HoldsOneMore(pending: seq<Pending>, p: Pending, c: nat)
    ensures Holds(pending + [p], c) <==> Holds(pending, c) || c == p.call
  {
    assert (pending + [p])[|pending|] == p;
    if Holds(pending, c) {
      var i :| 0 <= i < |pending| && pending[i].call == c;
      assert (pending + [p])[i].call == c;
    }
  }

  lemma OneMoreIsLive(w: Ledger, a: nat, p: Pending, v: Ledger, c: nat)
    requires a in w.tables && v.verbs == w.verbs && v.tables == w.tables[a := w.tables[a] + [p]]
    ensures Live(v, c) <==> Live(w, c) || c == p.call
  {
    HoldsOneMore(w.tables[a], p, c);
    if Live(w, c) && c !in w.verbs {
      var b :| b in w.tables && Holds(w.tables[b], c);
      assert Holds(v.tables[b], c);
    }
    assert c == p.call ==> Holds(v.tables[a], c);
  }

  lemma TableStartKeepsCounted(w: Ledger, call: nat)
    requires Sound(w) && Enabled(w, Starts(call)) && w.drawn[call].ForTable?
    ensures Counted(Apply(w, Starts(call)))
  {
    var v, d := Apply(w, Starts(call)), w.drawn[call];
    forall c: nat ensures Live(v, c) <==> Live(w, c) || c == call {
      OneMoreIsLive(w, d.attachment, Pending(d.id, call, d.name), v, c);
    }
    StartsCount(w, v, call, d.name);
  }

  lemma TidyOneMore(pending: seq<Pending>, p: Pending)
    requires Tidy(pending) && HasRoom(pending, p.id, p.call)
    ensures Tidy(pending + [p])
  {
    assert forall i :: 0 <= i < |pending| ==> pending[i] in pending;
  }

  /** A number that waits for its start is nobody's. */
  lemma DrawnIsFree(w: Ledger, call: nat)
    requires Counted(w) && call in w.drawn
    ensures call !in w.verbs && forall a :: a in w.tables ==> !Holds(w.tables[a], call)
  {
    if Live(w, call) {
      LiveIsStarted(w, call);
      assert false;
    }
  }

  lemma TableStartKeepsApart(w: Ledger, call: nat)
    requires Sound(w) && Enabled(w, Starts(call)) && w.drawn[call].ForTable?
    ensures Apart(Apply(w, Starts(call)))
  {
    var v, d := Apply(w, Starts(call)), w.drawn[call];
    TidyOneMore(w.tables[d.attachment], Pending(d.id, call, d.name));
    DrawnIsFree(w, call);
    forall c: nat ensures Holds(v.tables[d.attachment], c) <==> Holds(w.tables[d.attachment], c) || c == call {
      HoldsOneMore(w.tables[d.attachment], Pending(d.id, call, d.name), c);
    }
  }

  lemma TableStartKeepsNamed(w: Ledger, call: nat)
    requires Named(w) && Enabled(w, Starts(call)) && w.drawn[call].ForTable?
    ensures Named(Apply(w, Starts(call)))
  {
    NamedGrows(w.kinds, CallStarted(call, w.drawn[call].name));
  }

  lemma TableStartKeepsRoomy(w: Ledger, call: nat)
    requires Roomy(w) && Enabled(w, Starts(call)) && w.drawn[call].ForTable?
    ensures Roomy(Apply(w, Starts(call)))
  {
  }

  lemma VerbStartKeepsCounted(w: Ledger, call: nat)
    requires Sound(w) && Enabled(w, Starts(call)) && w.drawn[call].ForVerb?
    ensures Counted(Apply(w, Starts(call)))
  {
    var v := Apply(w, Starts(call));
    assert forall c: nat :: Live(v, c) <==> Live(w, c) || c == call;
    StartsCount(w, v, call, w.drawn[call].name);
  }

  lemma VerbStartKeeps(w: Ledger, call: nat)
    requires Sound(w) && Enabled(w, Starts(call)) && w.drawn[call].ForVerb?
    ensures Sound(Apply(w, Starts(call)))
  {
    VerbStartKeepsCounted(w, call);
    NamedGrows(w.kinds, CallStarted(call, w.drawn[call].name));
    DrawnIsFree(w, call);
  }

  // --- The compound operations ---

  lemma PutTwice(w: Ledger, a: nat, t: Table, u: Table)
    ensures Put(Put(w, a, t), a, u) == Put(w, a, u)
  {
    assert w.tables[a := t.pending][a := u.pending] == w.tables[a := u.pending];
  }

  lemma PutSame(w: Ledger, a: nat)
    requires a in w.tables
    ensures Put(w, a, TableOf(w, a)) == w
  {
    assert w.tables[a := w.tables[a]] == w.tables;
  }

  lemma ReplaceKeeps(w: Ledger, a: nat, id: Id)
    requires Sound(w) && a in w.tables
    ensures Sound(Put(w, a, Replace(TableOf(w, a), id)))
    ensures forall p :: p in Replace(TableOf(w, a), id).pending ==> p.id != id
  {
    var at := Position(w.tables[a], id);
    if at.Some? {
      FinishKeeps(w, a, at.value, NoReply);
    } else {
      PutSame(w, a);
    }
  }

  lemma EvictKeeps(w: Ledger, a: nat)
    requires Sound(w) && a in w.tables
    ensures Sound(Put(w, a, Evict(TableOf(w, a))))
    ensures |Evict(TableOf(w, a)).pending| < PENDING_CAP
    ensures forall p :: p in Evict(TableOf(w, a)).pending ==> p in w.tables[a]
  {
    if |w.tables[a]| >= PENDING_CAP {
      FinishKeeps(w, a, 0, NoReply);
    } else {
      PutSame(w, a);
    }
  }

  lemma MakingRoomKeeps(w: Ledger, a: nat, id: Id)
    requires Sound(w) && a in w.tables
    ensures var v := Put(w, a, MakeRoom(TableOf(w, a), id));
            Sound(v) && HasRoom(v.tables[a], id, v.next) && v.drawn == w.drawn
  {
    var replaced := Replace(TableOf(w, a), id);
    ReplaceKeeps(w, a, id);
    var v := Put(w, a, replaced);
    assert TableOf(v, a) == replaced;
    EvictKeeps(v, a);
    PutTwice(w, a, replaced, Evict(replaced));
    var u := Put(w, a, MakeRoom(TableOf(w, a), id));
    forall p | p in u.tables[a] ensures p.call < u.next {
      CallsAreStarted(u, a, p);
    }
  }

  lemma AskKeeps(w: Ledger, a: nat, request: Request)
    requires Sound(w) && Enabled(w, Ask(a, request))
    ensures Sound(Apply(w, Ask(a, request)))
  {
    if Tracked(request).Some? {
      var id := Tracked(request).value;
      MakingRoomKeeps(w, a, id);
      DrawKeeps(Put(w, a, MakeRoom(TableOf(w, a), id)), ForTable(a, id, Recordable(request.name)));
    }
  }

  lemma StartKeeps(w: Ledger, call: nat)
    requires Sound(w) && Enabled(w, Starts(call))
    ensures Sound(Apply(w, Starts(call)))
  {
    if w.drawn[call].ForTable? {
      TableStartKeepsCounted(w, call);
      TableStartKeepsApart(w, call);
      TableStartKeepsNamed(w, call);
      TableStartKeepsRoomy(w, call);
    } else {
      VerbStartKeeps(w, call);
    }
  }

  lemma AnswerKeeps(w: Ledger, a: nat, response: Response)
    requires Sound(w) && Enabled(w, Reply(a, response))
    ensures Sound(Apply(w, Reply(a, response)))
  {
    PutSame(w, a);
    match Answered(response) {
      case None =>
      case Some((id, outcome)) =>
        var at := Position(w.tables[a], id);
        if at.Some? {
          FinishKeeps(w, a, at.value, outcome);
        }
    }
  }

  lemma {:induction false} CloseKeeps(w: Ledger, a: nat)
    requires Sound(w) && a in w.tables
    ensures CloseAll(TableOf(w, a)).pending == []
    ensures Sound(Put(w, a, CloseAll(TableOf(w, a))))
    decreases |w.tables[a]|
  {
    if w.tables[a] == [] {
      PutSame(w, a);
    } else {
      var t := FinishAt(TableOf(w, a), 0, NoReply);
      FinishKeeps(w, a, 0, NoReply);
      var v := Put(w, a, t);
      assert TableOf(v, a) == t;
      CloseKeeps(v, a);
      PutTwice(w, a, t, CloseAll(t));
    }
  }

  lemma EmptyTableIsIdle(w: Ledger, a: nat, c: nat)
    requires a in w.tables && w.tables[a] == []
    ensures Live(w.(tables := w.tables - {a}), c) == Live(w, c)
  {
    var v := w.(tables := w.tables - {a});
    if Live(w, c) && c !in w.verbs {
      var b :| b in w.tables && Holds(w.tables[b], c);
      assert b in v.tables && Holds(v.tables[b], c);
    }
  }

  lemma RemoveKeeps(w: Ledger, a: nat)
    requires Sound(w) && a in w.tables && w.tables[a] == [] && !Busy(w, a)
    ensures Sound(w.(tables := w.tables - {a}))
  {
    forall c: nat ensures Live(w.(tables := w.tables - {a}), c) == Live(w, c) {
      EmptyTableIsIdle(w, a, c);
    }
  }

  lemma VerbIsGone(w: Ledger, call: nat, c: nat)
    requires Apart(w) && call in w.verbs
    ensures Live(w.(verbs := w.verbs - {call}), c) <==> Live(w, c) && c != call
  {
  }

  lemma VerbEndKeepsCounted(w: Ledger, call: nat, outcome: Outcome)
    requires Sound(w) && call in w.verbs
    ensures Counted(Apply(w, VerbEnds(call, outcome)))
  {
    var v := Apply(w, VerbEnds(call, outcome));
    assert Live(w, call);
    forall c: nat
      ensures StartsOf(v.kinds, c) == StartsOf(w.kinds, c)
      ensures EndsOf(v.kinds, c) + (if Live(v, c) then 1 else 0) == StartsOf(v.kinds, c)
    {
      CountLast(w.kinds, CallFinished(call, w.verbs[call], outcome), c);
      VerbIsGone(w, call, c);
      assert Live(v, c) == Live(w.(verbs := w.verbs - {call}), c);
    }
  }

  lemma VerbEndKeeps(w: Ledger, call: nat, outcome: Outcome)
    requires Sound(w) && call in w.verbs
    ensures Sound(Apply(w, VerbEnds(call, outcome)))
  {
    VerbEndKeepsCounted(w, call, outcome);
    NamedGrows(w.kinds, CallFinished(call, w.verbs[call], outcome));
  }

  lemma OpenKeeps(w: Ledger, a: nat)
    requires Sound(w) && a !in w.tables
    ensures Sound(Apply(w, Open(a)))
  {
    var v := Apply(w, Open(a));
    assert v.tables - {a} == w.tables;
    forall c: nat ensures Live(v, c) == Live(w, c) {
      EmptyTableIsIdle(v, a, c);
    }
  }

  lemma OtherKeeps(w: Ledger, kind: nat)
    requires Sound(w)
    ensures Sound(Apply(w, Other(kind)))
  {
    var v := Apply(w, Other(kind));
    NamedGrows(w.kinds, Note(kind));
    forall c: nat
      ensures StartsOf(v.kinds, c) == StartsOf(w.kinds, c) && EndsOf(v.kinds, c) == EndsOf(w.kinds, c)
      ensures Live(v, c) == Live(w, c)
    {
      CountLast(w.kinds, Note(kind), c);
    }
  }

  lemma StepKeeps(w: Ledger, action: Action)
    requires Sound(w) && Enabled(w, action)
    ensures Sound(Apply(w, action))
  {
    match action {
      case Ask(a, request) => AskKeeps(w, a, request);
      case Reply(a, response) => AnswerKeeps(w, a, response);
      case Close(a) =>
        var v := Put(w, a, CloseAll(TableOf(w, a)));
        CloseKeeps(w, a);
        RemoveKeeps(v, a);
        assert v.tables - {a} == w.tables - {a};
      case VerbDraws(name) => DrawKeeps(w, ForVerb(name));
      case Starts(call) => StartKeeps(w, call);
      case VerbEnds(call, outcome) => VerbEndKeeps(w, call, outcome);
      case Open(a) => OpenKeeps(w, a);
      case Other(kind) => OtherKeeps(w, kind);
    }
  }

  lemma {:induction false} RunIsSound(actions: seq<Action>)
    ensures Sound(Run(actions))
  {
    if actions != [] {
      RunIsSound(actions[..|actions| - 1]);
      var w := Run(actions[..|actions| - 1]);
      if Enabled(w, actions[|actions| - 1]) {
        StepKeeps(w, actions[|actions| - 1]);
      }
    }
  }

  // --- Main results ---

  /**
   At every point of every run each call number handed out waits for its start, or was started once and
   is ended once or still open; an end comes after the start and carries its name; once nothing waits
   or is open, all are ended.
   */
  lemma EveryCallEndsOnce(actions: seq<Action>, call: nat)
    ensures var w := Run(actions);
            && StartsOf(w.kinds, call) == (if 1 <= call < w.next && call !in w.drawn then 1 else 0)
            && EndsOf(w.kinds, call) <= StartsOf(w.kinds, call)
            && (EndsOf(w.kinds, call) < StartsOf(w.kinds, call) <==> Live(w, call))
            && (w.drawn == map[] && w.tables == map[] && w.verbs == map[] && 1 <= call < w.next ==>
                  StartsOf(w.kinds, call) == 1 == EndsOf(w.kinds, call))
    ensures var kinds := Run(actions).kinds;
            forall i :: 0 <= i < |kinds| && kinds[i].CallFinished? ==>
              CallStarted(kinds[i].call, kinds[i].name) in kinds[..i]
  {
    RunIsSound(actions);
  }

  /** A verb that ends is recorded under the number and name it was started with, with its own outcome. */
  lemma VerbsEndAsTheyStarted(actions: seq<Action>, call: nat, outcome: Outcome)
    requires call in Run(actions).verbs
    ensures var kinds := Run(actions + [VerbEnds(call, outcome)]).kinds;
            && kinds[..|kinds| - 1] == Run(actions).kinds && kinds != []
            && var last := kinds[|kinds| - 1];
               last.CallFinished? && last.call == call && last.outcome == outcome
               && CallStarted(call, last.name) in Run(actions).kinds
  {
    assert (actions + [VerbEnds(call, outcome)])[..|actions|] == actions;
    RunIsSound(actions);
  }

  /** Whatever was drawn can be started: its attachment is still there. */
  lemma DrawnCanStart(actions: seq<Action>, call: nat)
    requires call in Run(actions).drawn
    ensures Enabled(Run(actions), Starts(call))
  {
    RunIsSound(actions);
  }

  /** No attachment ever has two open calls with one id, or more than 64. */
  lemma {:induction false} PendingStaysTidy(actions: seq<Action>, attachment: nat)
    ensures var w := Run(actions);
            attachment in w.tables ==>
              && |w.tables[attachment]| <= 64
              && forall i, j :: 0 <= i < j < |w.tables[attachment]| ==>
                   w.tables[attachment][i].id != w.tables[attachment][j].id
  {
    RunIsSound(actions);
  }

  // --- The table as a map from ids to calls ---

  function Find(pending: seq<Pending>, id: Id): Option<Pending> {
    match Position(pending, id)
    case None => None
    case Some(at) => Some(pending[at])
  }

  lemma FindByContent(pending: seq<Pending>, id: Id, p: Pending)
    requires Tidy(pending)
    ensures Find(pending, id) == Some(p) <==> p in pending && p.id == id
  {
  }

  lemma FindWithoutOne(pending: seq<Pending>, at: nat, id: Id)
    requires Tidy(pending) && at < |pending|
    ensures Find(pending[..at] + pending[at + 1..], id) == if id == pending[at].id then None else Find(pending, id)
  {
    var rest := pending[..at] + pending[at + 1..];
    WithoutOne(pending, at);
    var found := Find(pending, id);
    if found.Some? && id != pending[at].id {
      var i := Position(pending, id).value;
      assert rest[if i < at then i else i - 1] == found.value;
      FindByContent(rest, id, found.value);
    }
  }

  lemma FindOneMore(pending: seq<Pending>, p: Pending, id: Id)
    requires Tidy(pending + [p])
    ensures Find(pending + [p], id) == if id == p.id then Some(p) else Find(pending, id)
  {
    assert (pending + [p])[|pending|] == p;
    assert Tidy(pending) by {
      assert forall i :: 0 <= i < |pending| ==> (pending + [p])[i] == pending[i];
    }
    if id == p.id {
      FindByContent(pending + [p], id, p);
    } else if Find(pending, id).Some? {
      FindByContent(pending, id, Find(pending, id).value);
      FindByContent(pending + [p], id, Find(pending, id).value);
    }
  }

  /** A message that answers the id: it has no method, this id, and a result or an error. */
  predicate Replies(response: Response, id: Id) {
    && response.Response? && !response.hasMethod && response.id == Some(id)
    && (response.result.Some? || response.error.Some?)
  }

  /** What an answer says of its call: an error member, or a result that is flagged as one. */
  function Verdict(response: Response): Outcome
    requires response.Response?
  {
    if response.error.Some? || response.result == Some(true) then Error else Outcome.Ok
  }

  /**
   An answer to an open id ends its call, as an error exactly if it has an error member or its result is
   flagged, and removes the id: a second answer changes nothing.
   */
  lemma {:induction false} OnlyTheFirstAnswerCounts(t: Table, response: Response, id: Id)
    requires Tidy(t.pending) && Replies(response, id)
    ensures forall other ::
              Find(Answer(t, response).pending, other) == if other == id then None else Find(t.pending, other)
    ensures match Find(t.pending, id)
            case None => Answer(t, response) == t
            case Some(p) => Answer(t, response).kinds == t.kinds + [CallFinished(p.call, p.name, Verdict(response))]
    ensures forall again :: Replies(again, id) ==> Answer(Answer(t, response), again) == Answer(t, response)
  {
    var at := Position(t.pending, id);
    if at.Some? {
      forall other
        ensures Find(Answer(t, response).pending, other) == if other == id then None else Find(t.pending, other)
      {
        FindWithoutOne(t.pending, at.value, other);
      }
    }
    assert Find(Answer(t, response).pending, id).None?;
  }

  /** A message ends a call exactly if it answers an open id. */
  lemma AnswersEndExactly(t: Table, response: Response)
    ensures Answer(t, response) != t <==> exists p :: p in t.pending && Replies(response, p.id)
    ensures Answer(t, response) != t ==>
              exists p ::
                p in t.pending && Replies(response, p.id)
                && Answer(t, response).kinds == t.kinds + [CallFinished(p.call, p.name, Verdict(response))]
  {
    if response.Response? && response.id.Some? {
      var at := Position(t.pending, response.id.value);
      if at.Some? && Replies(response, response.id.value) {
        assert t.pending[at.value] in t.pending;
        assert |Answer(t, response).pending| < |t.pending|;
      }
    }
  }

  /** The ends of `pending` without an answer, oldest first. */
  function GivenUp(pending: seq<Pending>): seq<Kind> {
    seq(|pending|, i requires 0 <= i < |pending| => CallFinished(pending[i].call, pending[i].name, NoReply))
  }

  /** The end of an attachment ends all its open calls without an answer, oldest first. */
  lemma {:induction false} CloseGivesUpInOrder(t: Table)
    ensures CloseAll(t) == Table([], t.kinds + GivenUp(t.pending))
    decreases |t.pending|
  {
    if t.pending == [] {
      assert t.kinds + GivenUp(t.pending) == t.kinds;
    } else {
      var first := FinishAt(t, 0, NoReply);
      CloseGivesUpInOrder(first);
      assert first.pending == t.pending[1..];
      assert t.kinds + GivenUp(t.pending) == first.kinds + GivenUp(first.pending);
    }
  }

  /** What is in `more` and not in `kinds` ends calls without an answer. */
  ghost predicate OnlyGivesUp(kinds: seq<Kind>, more: seq<Kind>) {
    kinds <= more && forall k :: k in more[|kinds|..] ==> k.CallFinished? && k.outcome == NoReply
  }

  lemma WithoutOneContent(pending: seq<Pending>, at: nat)
    requires Tidy(pending) && at < |pending|
    ensures forall p :: p in pending[..at] + pending[at + 1..] <==> p in pending && p.id != pending[at].id
  {
    var rest := pending[..at] + pending[at + 1..];
    forall p | p in pending && p.id != pending[at].id
      ensures p in rest
    {
      var i :| 0 <= i < |pending| && pending[i] == p;
      assert rest[if i < at then i else i - 1] == p;
    }
  }

  lemma ReplaceAsMap(t: Table, id: Id)
    requires Tidy(t.pending)
    ensures var kept := Replace(t, id);
            && Tidy(kept.pending) && OnlyGivesUp(t.kinds, kept.kinds)
            && (forall p :: p in kept.pending <==> p in t.pending && p.id != id)
            && |kept.pending| == |t.pending| - (if Find(t.pending, id).Some? then 1 else 0)
            && (Find(t.pending, id).None? ==> kept == t)
  {
    var at := Position(t.pending, id);
    if at.Some? {
      WithoutOne(t.pending, at.value);
      WithoutOneContent(t.pending, at.value);
    }
  }

  lemma ReplaceFinds(t: Table, id: Id, other: Id)
    requires Tidy(t.pending)
    ensures Find(Replace(t, id).pending, other) == if other == id then None else Find(t.pending, other)
  {
    var at := Position(t.pending, id);
    if at.Some? {
      FindWithoutOne(t.pending, at.value, other);
    }
  }

  lemma EvictAsMap(t: Table)
    requires Tidy(t.pending)
    ensures var room := Evict(t);
            && Tidy(room.pending) && |room.pending| < PENDING_CAP && OnlyGivesUp(t.kinds, room.kinds)
            && forall p :: p in room.pending ==> p in t.pending
  {
    if |t.pending| == PENDING_CAP {
      WithoutOne(t.pending, 0);
    }
  }

  lemma EvictFinds(t: Table, other: Id)
    requires Tidy(t.pending)
    ensures Find(Evict(t).pending, other) ==
            if |t.pending| == PENDING_CAP && other == t.pending[0].id then None else Find(t.pending, other)
  {
    if |t.pending| == PENDING_CAP {
      FindWithoutOne(t.pending, 0, other);
    }
  }

  /** Making room for `id`: what is given up is recorded, and nothing keeps the id. */
  lemma RoomForId(t: Table, id: Id)
    requires Tidy(t.pending)
    ensures var room := Evict(Replace(t, id));
            && Tidy(room.pending) && |room.pending| < PENDING_CAP && OnlyGivesUp(t.kinds, room.kinds)
            && forall p :: p in room.pending ==> p in t.pending && p.id != id
  {
    ReplaceAsMap(t, id);
    EvictAsMap(Replace(t, id));
    var first, second := t.kinds, Replace(t, id).kinds;
    var third := Evict(Replace(t, id)).kinds;
    assert third[|first|..] == second[|first|..] + third[|second|..];
  }

  /** Which other ids keep their call while room is made for `id`. */
  lemma RoomFinds(t: Table, id: Id, other: Id)
    requires Tidy(t.pending) && other != id
    ensures Find(Evict(Replace(t, id)).pending, other) ==
            if |t.pending| == PENDING_CAP && Find(t.pending, id).None? && other == t.pending[0].id then None
            else Find(t.pending, other)
  {
    ReplaceAsMap(t, id);
    ReplaceFinds(t, id, other);
    EvictFinds(Replace(t, id), other);
  }

  /** A request that is to be tracked under `id`: a tool call with a string or a number as its id. */
  predicate Calls(request: Request, id: Id) {
    request.Request? && request.toolCall && request.id == Some(id) && !id.Structured?
  }

  /** Everything else opens nothing. */
  lemma OnlyCallsOpen(t: Table, request: Request, call: nat)
    ensures Observe(t, request, call) == t <==> forall id :: !Calls(request, id)
  {
    if forall id :: !Calls(request, id) {
      assert request.Request? && request.id.Some? ==> !Calls(request, request.id.value);
    } else {
      var id :| Calls(request, id);
      var room := Evict(Replace(t, id));
      assert |room.kinds| >= |t.kinds|;
    }
  }

  /**
   A tracked request opens its id under the new number. Besides the call it replaces, only a full
   table loses one, the longest open one, and nobody loses an answer to it.
   */
  lemma RequestOpensItsId(t: Table, request: Request, id: Id, call: nat)
    requires Tidy(t.pending) && Calls(request, id)
    requires forall p :: p in t.pending ==> p.call < call
    ensures var u := Observe(t, request, call);
            && Tidy(u.pending)
            && Find(u.pending, id) == Some(Pending(id, call, Recordable(request.name)))
            && (forall other :: other != id ==>
                  Find(u.pending, other) ==
                  if |t.pending| == 64 && Find(t.pending, id).None? && other == t.pending[0].id then None
                  else Find(t.pending, other))
            && OnlyGivesUp(t.kinds, u.kinds[..|u.kinds| - 1])
            && u.kinds[|u.kinds| - 1] == CallStarted(call, Recordable(request.name))
  {
    var room := Evict(Replace(t, id));
    RoomForId(t, id);
    var p := Pending(id, call, Recordable(request.name));
    assert Tidy(room.pending + [p]);
    FindOneMore(room.pending, p, id);
    forall other | other != id
      ensures Find(room.pending + [p], other) ==
              if |t.pending| == PENDING_CAP && Find(t.pending, id).None? && other == t.pending[0].id then None
              else Find(t.pending, other)
    {
      FindOneMore(room.pending, p, other);
      RoomFinds(t, id, other);
    }
    var u := Observe(t, request, call);
    assert u.kinds[..|u.kinds| - 1] == room.kinds;
  }
}
