/** Following queued sends: one poller at most, no wake-up lost, and the positions shown in the queue
    (askqueue.go). Each step is one section under the tracker's lock, or one publication outside it. */
module SendTracker {
  import opened Messages

  // An agent-deck send record, as far as it is read.
  datatype Record = Record(state: string, settled: bool, reason: string)

  datatype UiState = UiState(state: string, final: bool, retryable: bool)

  function MapState(r: Record): (ui: UiState)
    ensures ui.state == "delivered" <==> r.state == "landed" || (r.state == "submitted" && r.settled)
    ensures ui.state == "unconfirmed" <==> r.state == "typed" && r.settled
    ensures ui.state == "delivering" <==> r.state == "typing" || (r.state in {"submitted", "typed"} && !r.settled)
    ensures ui.state == "failed" <==> r.state == "failed"
    ensures ui.state == "queued" <==> r.state !in {"landed", "failed", "submitted", "typed", "typing"}
    ensures ui.final <==> ui.state in {"delivered", "unconfirmed", "failed"}
    ensures ui.retryable <==> ui.state == "failed"
  {
    match r.state
    case "landed" => UiState("delivered", true, false)
    case "failed" => UiState("failed", true, true)
    case "submitted" => if r.settled then UiState("delivered", true, false) else UiState("delivering", false, false)
    case "typed" => if r.settled then UiState("unconfirmed", true, false) else UiState("delivering", false, false)
    case "typing" => UiState("delivering", false, false)
    case _ => UiState("queued", false, false)
  }

  // shown is the state and position last observed; at first there is none.
  class TrackedSend {
    const request: string
    const session: string
    const send: string
    var shown: (string, nat)

    constructor (request: string, session: string, send: string)
      ensures this.request == request && this.session == session && this.send == send && shown == ("", 0)
    {
      this.request, this.session, this.send := request, session, send;
      shown := ("", 0);
    }
  }

  type Items = map<string, TrackedSend>  // by request id

  // ------------------------------------------------------------------ order of send ids

  predicate Less(a: string, b: string) {
    b != "" && (a == "" || a[0] < b[0] || (a[0] == b[0] && Less(a[1..], b[1..])))
  }

  lemma {:induction false} LessIsStrict(a: string, b: string)
    ensures !(Less(a, b) && Less(b, a)) && !Less(a, a)
    decreases |a|
  {
    if a != "" {
      LessIsStrict(a[1..], if b != "" then b[1..] else "");
    }
  }

  lemma {:induction false} LessIsTotal(a: string, b: string)
    requires a != b
    ensures Less(a, b) || Less(b, a)
    decreases |a|
  {
    if a != "" && b != "" && a[0] == b[0] {
      assert a == [a[0]] + a[1..] && b == [b[0]] + b[1..];
      LessIsTotal(a[1..], b[1..]);
    }
  }

  lemma {:induction false} LessIsTransitive(a: string, b: string, c: string)
    requires Less(a, b) && Less(b, c)
    ensures Less(a, c)
    decreases |a|
  {
    if a != "" && a[0] == b[0] == c[0] {
      LessIsTransitive(a[1..], b[1..], c[1..]);
    }
  }

  // ------------------------------------------------------------------ positions

  function Peers(items: Items, session: string): set<string> {
    set r | r in items && items[r].session == session
  }

  // The session's open sends before it.
  function Ahead(items: Items, it: TrackedSend): set<string> {
    AheadAmong(items, items.Keys, it)
  }

  function AheadAmong(items: Items, among: set<string>, it: TrackedSend): set<string> {
    set r | r in among && r in items && items[r].session == it.session && Less(items[r].send, it.send)
  }

  lemma {:induction false} OneMoreAhead(items: Items, done: set<string>, it: TrackedSend, r: string)
    requires r in items && r !in done
    ensures |AheadAmong(items, done + {r}, it)|
         == |AheadAmong(items, done, it)| + if items[r].session == it.session && Less(items[r].send, it.send) then 1 else 0
  {
    var before, after := AheadAmong(items, done, it), AheadAmong(items, done + {r}, it);
    if items[r].session == it.session && Less(items[r].send, it.send) {
      assert after == before + {r};
    } else {
      assert after == before;
    }
  }

  function Position(items: Items, it: TrackedSend): nat {
    1 + |Ahead(items, it)|
  }

  predicate DistinctSends(items: Items, session: string) {
    forall r, q :: r in Peers(items, session) && q in Peers(items, session) && r != q ==> items[r].send != items[q].send
  }

  lemma {:induction false} SubsetSize<T>(a: set<T>, b: set<T>)
    requires a <= b
    ensures |a| <= |b|
    ensures a != b ==> |a| < |b|
  {
    assert b == a + (b - a);
    if a != b {
      var x :| x in b - a;
      assert |b - a| > 0;
    }
  }

  // An earlier send is shown before a later one.
  lemma {:induction false} EarlierIsAhead(items: Items, r: string, q: string)
    requires r in items && q in items && items[r].session == items[q].session && Less(items[r].send, items[q].send)
    ensures Position(items, items[r]) < Position(items, items[q])
  {
    var a, b := Ahead(items, items[r]), Ahead(items, items[q]);
    forall x | x in a ensures x in b {
      LessIsTransitive(items[x].send, items[r].send, items[q].send);
    }
    LessIsStrict(items[r].send, items[r].send);
    assert r in b && r !in a;
    SubsetSize(a, b);
  }

  lemma {:induction false} PositionInRange(items: Items, r: string)
    requires r in items
    ensures 1 <= Position(items, items[r]) <= |Peers(items, items[r].session)|
  {
    var a, p := Ahead(items, items[r]), Peers(items, items[r].session);
    LessIsStrict(items[r].send, items[r].send);
    assert r in p && r !in a && a <= p;
    SubsetSize(a, p);
  }

  function Places(items: Items, rs: set<string>): set<nat>
    requires rs <= items.Keys
  {
    set r | r in rs :: Position(items, items[r])
  }

  // Different sends have different positions, so a set of them has as many.
  lemma {:induction false} PlacesDiffer(items: Items, session: string, rs: set<string>)
    requires DistinctSends(items, session) && rs <= Peers(items, session)
    ensures |Places(items, rs)| == |rs|
    decreases |rs|
  {
    hide Position;
    if rs == {} {
      assert Places(items, rs) == {};
    } else {
      var r :| r in rs;
      var rest := rs - {r};
      PlacesDiffer(items, session, rest);
      forall q | q in rest ensures Position(items, items[q]) != Position(items, items[r]) {
        LessIsTotal(items[q].send, items[r].send);
        if Less(items[q].send, items[r].send) {
          EarlierIsAhead(items, q, r);
        } else {
          EarlierIsAhead(items, r, q);
        }
      }
      assert Places(items, rs) == Places(items, rest) + {Position(items, items[r])};
    }
  }

  function OneTo(n: nat): set<nat> {
    if n == 0 then {} else OneTo(n - 1) + {n}
  }

  lemma {:induction false} OneToHolds(n: nat)
    ensures |OneTo(n)| == n && forall p :: p in OneTo(n) <==> 1 <= p <= n
    decreases n
  {
    if n > 0 {
      OneToHolds(n - 1);
    }
  }

  /** The positions of a session's open sends are exactly 1..n, each once, in send-id order. */
  lemma {:induction false} PositionsAreABijection(items: Items, session: string)
    requires DistinctSends(items, session)
    ensures var peers := Peers(items, session);
            && Places(items, peers) == OneTo(|peers|)
            && (forall r, q :: r in peers && q in peers ==>
                  (Position(items, items[r]) < Position(items, items[q]) <==> Less(items[r].send, items[q].send)))
            && (forall r, q :: r in peers && q in peers && r != q ==> Position(items, items[r]) != Position(items, items[q]))
  {
    var peers := Peers(items, session);
    forall r, q | r in peers && q in peers && r != q
      ensures Position(items, items[r]) < Position(items, items[q]) <==> Less(items[r].send, items[q].send)
      ensures Position(items, items[r]) != Position(items, items[q])
    {
      LessIsTotal(items[r].send, items[q].send);
      LessIsStrict(items[r].send, items[q].send);
      if Less(items[r].send, items[q].send) {
        EarlierIsAhead(items, r, q);
      } else {
        EarlierIsAhead(items, q, r);
      }
    }
    forall r | r in peers ensures !Less(items[r].send, items[r].send) {
      LessIsStrict(items[r].send, items[r].send);
    }
    PlacesDiffer(items, session, peers);
    forall p | p in Places(items, peers) ensures 1 <= p <= |peers| {
      var r :| r in peers && Position(items, items[r]) == p;
      PositionInRange(items, r);
    }
    Fills(Places(items, peers), |peers|);
  }

  lemma {:induction false} Fills(places: set<nat>, n: nat)
    requires (forall p :: p in places ==> 1 <= p <= n) && |places| == n
    ensures places == OneTo(n)
  {
    OneToHolds(n);
    SubsetSize(places, OneTo(n));
  }

  // Two sends with one id share a position.
  lemma {:induction false} SameIdSamePosition(items: Items, r: string, q: string)
    requires r in items && q in items && items[r].session == items[q].session && items[r].send == items[q].send
    ensures Position(items, items[r]) == Position(items, items[q])
  {
    assert Ahead(items, items[r]) == Ahead(items, items[q]);
  }

  // ------------------------------------------------------------------ looks at one send

  // What one observation shows of a send: its state, and its place while it is queued.
  datatype Look = Look(shown: (string, nat), final: bool)

  function LookOf(items: Items, it: TrackedSend, rec: Record): Look {
    var ui := MapState(rec);
    Look((ui.state, if ui.state == "queued" then Position(items, it) else 0), ui.final)
  }

  function LastShown(looks: seq<Look>): (string, nat) {
    if looks == [] then ("", 0) else looks[|looks| - 1].shown
  }

  predicate Ended(looks: seq<Look>) {
    looks != [] && (Ended(looks[..|looks| - 1]) || looks[|looks| - 1].final)
  }

  // How many come behind the first final one.
  function Behind(looks: seq<Look>): nat {
    if looks == [] || !Ended(looks[..|looks| - 1]) then 0 else Behind(looks[..|looks| - 1]) + 1
  }

  // The looks that show something else than the one before.
  function Changes(looks: seq<Look>): seq<Look> {
    if looks == [] then []
    else
      var front, last := looks[..|looks| - 1], looks[|looks| - 1];
      Changes(front) + if last.shown == LastShown(front) then [] else [last]
  }

  lemma {:induction false} LooksSnoc(looks: seq<Look>, look: Look)
    ensures Ended(looks + [look]) <==> Ended(looks) || look.final
    ensures Behind(looks + [look]) == if Ended(looks) then Behind(looks) + 1 else 0
    ensures Changes(looks + [look]) == Changes(looks) + if look.shown == LastShown(looks) then [] else [look]
    ensures LastShown(looks + [look]) == look.shown
  {
    assert (looks + [look])[..|looks|] == looks;
  }

  // ------------------------------------------------------------------ the interleavings

  // Who looks at a send and then publishes what has changed, outside the lock: the call that tracks it,
  // once, or the poller.
  datatype Observer = Own(it: TrackedSend) | Poller

  // Who starts the poller: the call that tracks a send, or the resuming of an earlier process's sends.
  datatype Call = Of(it: TrackedSend) | Resume

  datatype Event = Event(it: TrackedSend, look: Look)

  datatype State = State(
    items: Items,
    running: bool,
    pollers: nat,                              // the live poll loops
    starting: set<Call>,                       // calls that have yet to ask for a poller
    own: set<TrackedSend>,                     // tracked by a call that has yet to look
    round: Option<set<TrackedSend>>,           // what the poller's round has yet to look at
    held: map<Observer, Event>,                // changes noticed but not yet published
    looks: map<TrackedSend, seq<Look>>,        // all looks at each send, in order
    out: map<TrackedSend, seq<Look>>)          // what was published of it, in order

  const INITIAL := State(map[], false, 0, {}, {}, None, map[], map[], map[])

  datatype Action =
    | Track(it: TrackedSend)                   // trackSend registers a new send
    | Load(it: TrackedSend)                    // a send that an earlier process left open
    | Observe(who: Observer, it: TrackedSend, rec: Record)
    | Publish(who: Observer)
    | Start(call: Call)                        // startSendPoller
    | BeginRound                               // pollSendsOnce copies the open sends
    | Skip(it: TrackedSend)                    // the record could not be read
    | EndRound

  // Neither the send nor its request id was there before.
  predicate New(st: State, it: TrackedSend) {
    it !in st.looks && forall o :: o in st.looks ==> o.request != it.request
  }

  function Registered(st: State, it: TrackedSend): State {
    st.(items := st.items[it.request := it], looks := st.looks[it := []], out := st.out[it := []])
  }

  predicate InRound(st: State, it: TrackedSend) {
    st.round.Some? && it in st.round.value
  }

  predicate MayLook(st: State, who: Observer, it: TrackedSend) {
    it in st.looks && match who case Own(o) => o == it && it in st.own case Poller => InRound(st, it) && Poller !in st.held
  }

  function Observed(st: State, who: Observer, it: TrackedSend, rec: Record): State
    requires it in st.looks
  {
    var look, was := LookOf(st.items, it, rec), st.looks[it];
    st.(items := if look.final then st.items - {it.request} else st.items,
        own := if who.Own? then st.own - {it} else st.own,
        round := if who.Poller? && st.round.Some? then Some(st.round.value - {it}) else st.round,
        held := if look.shown != LastShown(was) then st.held[who := Event(it, look)] else st.held,
        looks := st.looks[it := was + [look]])
  }

  function Sent(st: State, who: Observer): State {
    if who in st.held && st.held[who].it in st.out then
      var e := st.held[who];
      st.(held := st.held - {who}, out := st.out[e.it := st.out[e.it] + [e.look]])
    else st
  }

  function Do(st: State, a: Action): State {
    match a
    case Track(it) =>
      if New(st, it) then Registered(st, it).(starting := st.starting + {Of(it)}, own := st.own + {it}) else st
    case Load(it) => if New(st, it) then Registered(st, it).(starting := st.starting + {Resume}) else st
    case Observe(who, it, rec) => if MayLook(st, who, it) then Observed(st, who, it, rec) else st
    case Publish(who) => Sent(st, who)
    case Start(call) =>
      if call !in st.starting || (call.Of? && (call.it in st.own || Own(call.it) in st.held)) then st
      else if st.running || st.items == map[] then st.(starting := st.starting - {call})
      else st.(running := true, pollers := st.pollers + 1, starting := st.starting - {call})
    case BeginRound => if st.pollers > 0 && st.round.None? then st.(round := Some(st.items.Values)) else st
    case Skip(it) =>
      if InRound(st, it) && Poller !in st.held then st.(round := Some(st.round.value - {it})) else st
    case EndRound =>
      if st.round != Some({}) || Poller in st.held then st
      else if st.items == map[] then st.(running := false, pollers := if st.pollers > 0 then st.pollers - 1 else 0, round := None)
      else st.(round := None)
  }

  function Run(as_: seq<Action>): State {
    if as_ == [] then INITIAL else Do(Run(as_[..|as_| - 1]), as_[|as_| - 1])
  }

  // ------------------------------------------------------------------ the poller

  ghost predicate Polled(st: State) {
    && st.pollers <= 1
    && (st.running <==> st.pollers == 1)
    && (st.items != map[] && st.pollers == 0 ==> st.starting != {})
    && (st.round.Some? ==> st.pollers == 1)
  }

  lemma {:induction false} StepKeepsPolled(st: State, a: Action)
    requires Polled(st)
    ensures Polled(Do(st, a))
  {
    hide LookOf, LastShown;
    match a
    case Track(it) => assert New(st, it) ==> Of(it) in Do(st, a).starting;
    case Load(it) => assert New(st, it) ==> Resume in Do(st, a).starting;
    case _ =>
  }

  /** In every interleaving at most one poller is alive, `running` says so exactly, and open sends are
      without one only while some call is still about to start it. */
  lemma {:induction false} NoWakeUpIsLost(as_: seq<Action>)
    ensures var st := Run(as_);
            && st.pollers <= 1 && (st.running <==> st.pollers == 1)
            && (st.items != map[] && st.starting == {} ==> st.pollers == 1)
    ensures Polled(Run(as_))
    decreases |as_|
  {
    hide Do;
    if as_ != [] {
      NoWakeUpIsLost(as_[..|as_| - 1]);
      StepKeepsPolled(Run(as_[..|as_| - 1]), as_[|as_| - 1]);
    }
  }

  // ------------------------------------------------------------------ what is published of a send

  predicate Tracked(st: State, it: TrackedSend) {
    it.request in st.items && st.items[it.request] == it
  }

  predicate Holds(st: State, who: Observer, it: TrackedSend) {
    who in st.held && st.held[who].it == it
  }

  // 1 while the observer may still look at the send, or publish what it saw.
  function OwnLeft(st: State, it: TrackedSend): nat {
    if it in st.own || Holds(st, Own(it), it) then 1 else 0
  }

  function PollerLeft(st: State, it: TrackedSend): nat {
    if InRound(st, it) || Holds(st, Poller, it) then 1 else 0
  }

  // The changes of the send still to be published.
  function Pending(st: State, it: TrackedSend): seq<Look> {
    (if Holds(st, Own(it), it) then [st.held[Own(it)].look] else [])
    + if Holds(st, Poller, it) then [st.held[Poller].look] else []
  }

  // Each change of the send is out or held.
  ghost predicate Conserved(st: State, it: TrackedSend)
    requires it in st.looks && it in st.out
  {
    multiset(st.out[it]) + multiset(Pending(st, it)) == multiset(Changes(st.looks[it]))
  }

  // It is tracked until its first final look; and once a final one is out, at most one observer has
  // anything left to add.
  ghost predicate Settling(st: State, it: TrackedSend)
    requires it in st.looks && it in st.out
  {
    && (Tracked(st, it) <==> !Ended(st.looks[it]))
    && (Holds(st, Own(it), it) ==> it !in st.own && (st.held[Own(it)].look.final ==> Ended(st.looks[it])))
    && (Holds(st, Poller, it) ==> !InRound(st, it) && (st.held[Poller].look.final ==> Ended(st.looks[it])))
    && (Ended(st.out[it]) ==> Ended(st.looks[it]) && Behind(st.out[it]) + OwnLeft(st, it) + PollerLeft(st, it) <= 1)
  }

  ghost predicate Followed(st: State, it: TrackedSend)
    requires it in st.looks && it in st.out
  {
    Conserved(st, it) && Settling(st, it)
  }

  ghost predicate Sound(st: State) {
    && st.out.Keys == st.looks.Keys
    && (forall a, b :: a in st.looks && b in st.looks && a.request == b.request ==> a == b)
    && (forall r :: r in st.items ==> st.items[r].request == r && st.items[r] in st.looks)
    && st.own <= st.looks.Keys
    && (st.round.Some? ==> st.round.value <= st.looks.Keys) && (Poller in st.held ==> st.round.Some?)
    && (forall who :: who in st.held ==> st.held[who].it in st.looks && (who.Own? ==> who.it == st.held[who].it))
  }

  ghost predicate Inv(st: State) {
    Sound(st) && Polled(st) && forall it :: it in st.looks ==> Followed(st, it)
  }

  lemma {:induction false} StepKeepsSound(st: State, a: Action)
    requires Sound(st)
    ensures Sound(Do(st, a))
  {
    hide Sound, Registered, Observed, MayLook, New, Sent;
    match a {
      case Track(it) => TrackKeepsSound(st, it);
      case Load(it) => LoadKeepsSound(st, it);
      case Observe(who, it, rec) =>
        if MayLook(st, who, it) {
          ObserveKeepsSound(st, who, it, rec);
        }
      case Publish(who) => PublishKeepsSound(st, who);
      case _ => RestKeepsSound(st, a);
    }
  }

  lemma {:induction false} PublishKeepsSound(st: State, who: Observer)
    requires Sound(st)
    ensures Sound(Sent(st, who))
  {
  }

  lemma {:induction false} RestKeepsSound(st: State, a: Action)
    requires Sound(st) && (a.Start? || a.BeginRound? || a.Skip? || a.EndRound?)
    ensures Sound(Do(st, a))
  {
  }

  lemma {:induction false} TrackKeepsSound(st: State, it: TrackedSend)
    requires Sound(st)
    ensures Sound(Do(st, Track(it)))
  {
  }

  lemma {:induction false} LoadKeepsSound(st: State, it: TrackedSend)
    requires Sound(st)
    ensures Sound(Do(st, Load(it)))
  {
  }

  lemma {:induction false} ObserveKeepsSound(st: State, who: Observer, it: TrackedSend, rec: Record)
    requires Sound(st) && MayLook(st, who, it)
    ensures Sound(Observed(st, who, it, rec))
  {
    hide LookOf, LastShown;
  }

  // What the fate of one send depends on.
  ghost predicate Alike(st: State, to: State, it: TrackedSend)
    requires it in st.looks && it in st.out && it in to.looks && it in to.out
  {
    && st.looks[it] == to.looks[it] && st.out[it] == to.out[it]
    && (Tracked(st, it) <==> Tracked(to, it)) && (it in st.own <==> it in to.own) && (InRound(st, it) <==> InRound(to, it))
    && Pending(st, it) == Pending(to, it)
    && HeldAlike(st, to, Own(it), it) && HeldAlike(st, to, Poller, it)
  }

  predicate HeldAlike(st: State, to: State, who: Observer, it: TrackedSend) {
    (Holds(st, who, it) <==> Holds(to, who, it)) && (Holds(st, who, it) ==> st.held[who] == to.held[who])
  }

  lemma {:induction false} AlikeFollowed(st: State, to: State, it: TrackedSend)
    requires it in st.looks && it in st.out && it in to.looks && it in to.out && Alike(st, to, it) && Followed(st, it)
    ensures Followed(to, it)
  {
    hide Tracked, InRound, Pending;
  }

  // The send that a step is about.
  predicate About(st: State, a: Action, it: TrackedSend) {
    match a
    case Track(o) => o == it
    case Load(o) => o == it
    case Observe(who, o, rec) => o == it
    case Publish(who) => Holds(st, who, it)
    case Start(call) => false
    case BeginRound => Tracked(st, it)
    case Skip(o) => o == it
    case EndRound => false
  }

  lemma {:induction false} OthersStay(st: State, a: Action, it: TrackedSend)
    requires Sound(st) && it in st.looks && !About(st, a, it)
    ensures it in Do(st, a).looks && it in Do(st, a).out && Alike(st, Do(st, a), it)
  {
    HasOut(st, it);
    hide Do, Alike, Pending, Holds, Tracked, Sound;
    match a {
      case Track(o) => TrackOthers(st, o, it);
      case Load(o) => LoadOthers(st, o, it);
      case Observe(who, o, rec) => ObserveOthers(st, who, o, rec, it);
      case Publish(who) => PublishOthers(st, who, it);
      case Start(call) => RestOthers(st, a, it);
      case BeginRound => BeginOthers(st, it);
      case Skip(o) => RestOthers(st, a, it);
      case EndRound => RestOthers(st, a, it);
    }
  }

  lemma {:induction false} RestOthers(st: State, a: Action, it: TrackedSend)
    requires it in st.looks && it in st.out && (a.Start? || a.EndRound? || (a.Skip? && a.it != it))
    ensures it in Do(st, a).looks && it in Do(st, a).out && Alike(st, Do(st, a), it)
  {
    SameAlike(st, Do(st, a), it);
    hide Alike;
  }

  lemma {:induction false} HasOut(st: State, it: TrackedSend)
    requires Sound(st) && it in st.looks
    ensures it in st.out
  {
  }

  lemma {:induction false} BeginOthers(st: State, it: TrackedSend)
    requires Sound(st) && it in st.looks && it in st.out && !Tracked(st, it)
    ensures Alike(st, Do(st, BeginRound), it)
  {
    hide Alike;
    SameAlike(st, Do(st, BeginRound), it);
  }

  lemma {:induction false} TrackOthers(st: State, o: TrackedSend, it: TrackedSend)
    requires Sound(st) && it in st.looks && o != it
    ensures var to := Do(st, Track(o)); it in to.looks && it in to.out && Alike(st, to, it)
  {
    assert New(st, o) ==> o.request != it.request;
    hide Sound;
  }

  lemma {:induction false} LoadOthers(st: State, o: TrackedSend, it: TrackedSend)
    requires Sound(st) && it in st.looks && o != it
    ensures var to := Do(st, Load(o)); it in to.looks && it in to.out && Alike(st, to, it)
  {
    assert New(st, o) ==> o.request != it.request;
    hide Sound;
  }

  lemma {:induction false} SameAlike(st: State, to: State, it: TrackedSend)
    requires it in st.looks && it in st.out
    requires to.items == st.items && to.looks == st.looks && to.out == st.out && to.own == st.own && to.held == st.held
    requires InRound(st, it) <==> InRound(to, it)
    ensures Alike(st, to, it)
  {
  }

  lemma {:induction false} PublishOthers(st: State, who: Observer, it: TrackedSend)
    requires Sound(st) && it in st.looks && !Holds(st, who, it)
    ensures var to := Do(st, Publish(who)); it in to.looks && it in to.out && Alike(st, to, it)
  {
  }

  lemma {:induction false} ObserveOthers(st: State, who: Observer, o: TrackedSend, rec: Record, it: TrackedSend)
    requires Sound(st) && it in st.looks && o != it
    ensures var to := Do(st, Observe(who, o, rec)); it in to.looks && it in to.out && Alike(st, to, it)
  {
    hide LookOf, LastShown;
    assert MayLook(st, who, o) ==> o.request != it.request;
  }

  lemma {:induction false} NewIsFollowed(st: State, a: Action, it: TrackedSend)
    requires Sound(st) && New(st, it) && (a == Track(it) || a == Load(it))
    ensures Followed(Do(st, a), it)
  {
    assert Pending(Do(st, a), it) == [];
  }

  // An observation of the send itself: what moves.
  lemma {:induction false} ObserveMoves(st: State, who: Observer, it: TrackedSend, rec: Record)
    requires MayLook(st, who, it) && it in st.out && !Holds(st, who, it) && (Tracked(st, it) || it.request !in st.items)
    ensures var to, look := Observed(st, who, it, rec), LookOf(st.items, it, rec);
            && it in to.looks && to.looks[it] == st.looks[it] + [look] && to.out == st.out
            && (Tracked(to, it) <==> Tracked(st, it) && !look.final)
            && (it in to.own <==> it in st.own && who.Poller?) && (InRound(to, it) <==> InRound(st, it) && who.Own?)
  {
    hide LookOf, LastShown;
  }

  lemma {:induction false} ObserveHolds(st: State, who: Observer, it: TrackedSend, rec: Record)
    requires MayLook(st, who, it) && !Holds(st, who, it)
    ensures var to, look := Observed(st, who, it, rec), LookOf(st.items, it, rec);
            var changed := look.shown != LastShown(st.looks[it]);
            && (if changed then Holds(to, who, it) && to.held[who].look == look else !Holds(to, who, it))
            && (who.Own? ==> HeldAlike(st, to, Poller, it)) && (who.Poller? ==> HeldAlike(st, to, Own(it), it))
            && Pending(to, it) == (if !changed then Pending(st, it)
                                   else if who.Own? then [look] + Pending(st, it) else Pending(st, it) + [look])
  {
    hide LookOf, LastShown;
  }

  lemma {:induction false} MoveOne(a: seq<Look>, look: Look, b: seq<Look>)
    ensures multiset([look] + b) == multiset(b + [look]) == multiset(b) + multiset{look}
    ensures multiset(a + [look]) + multiset(b) == multiset(a) + multiset([look] + b)
    ensures forall l :: l in [look] + b <==> l == look || l in b
    ensures forall l :: l in b + [look] <==> l == look || l in b
  {
  }

  lemma {:induction false} ObserveConserves(st: State, who: Observer, it: TrackedSend, rec: Record)
    requires MayLook(st, who, it) && it in st.out && Conserved(st, it) && !Holds(st, who, it)
    ensures it in Observed(st, who, it, rec).looks && Conserved(Observed(st, who, it, rec), it)
  {
    var look := LookOf(st.items, it, rec);
    ObserveHolds(st, who, it, rec);
    LooksSnoc(st.looks[it], look);
    MoveOne([], look, Pending(st, it));
    hide LookOf, InRound, Holds, Pending, Ended, Behind, Changes, LastShown;
  }

  lemma {:induction false} ObserveSettles(st: State, who: Observer, it: TrackedSend, rec: Record)
    requires MayLook(st, who, it) && it in st.out && Settling(st, it) && (Tracked(st, it) || it.request !in st.items)
    ensures var to := Observed(st, who, it, rec); it in to.looks && it in to.out && Settling(to, it)
  {
    assert !Holds(st, who, it);
    ObserveMoves(st, who, it, rec);
    ObserveHolds(st, who, it, rec);
    LooksSnoc(st.looks[it], LookOf(st.items, it, rec));
    hide Observed, LookOf, Tracked, InRound, Holds, Pending, Ended, Behind, Changes, LastShown;
  }

  // Publishing what was held of it: what moves.
  lemma {:induction false} PublishMoves(st: State, who: Observer, it: TrackedSend)
    requires Holds(st, who, it) && it in st.looks && it in st.out && (who.Own? ==> who.it == it)
    ensures var to, look := Sent(st, who), st.held[who].look;
            && to.looks == st.looks && it in to.out && to.out[it] == st.out[it] + [look]
            && (Tracked(to, it) <==> Tracked(st, it)) && to.own == st.own && (InRound(to, it) <==> InRound(st, it))
            && !Holds(to, who, it)
            && (who.Own? ==> HeldAlike(st, to, Poller, it)) && (who.Poller? ==> HeldAlike(st, to, Own(it), it))
            && Pending(st, it) == if who.Own? then [look] + Pending(to, it) else Pending(to, it) + [look]
  {
  }

  lemma {:induction false} PublishConserves(st: State, who: Observer, it: TrackedSend)
    requires Holds(st, who, it) && it in st.looks && it in st.out && Conserved(st, it) && (who.Own? ==> who.it == it)
    ensures it in Sent(st, who).out && Conserved(Sent(st, who), it)
  {
    PublishMoves(st, who, it);
    MoveOne(st.out[it], st.held[who].look, Pending(Sent(st, who), it));
    hide Sent, InRound, Holds, Pending, Changes;
  }

  lemma {:induction false} PublishSettles(st: State, who: Observer, it: TrackedSend)
    requires Holds(st, who, it) && it in st.looks && it in st.out && Settling(st, it) && (who.Own? ==> who.it == it)
    ensures it in Sent(st, who).out && Settling(Sent(st, who), it)
  {
    PublishMoves(st, who, it);
    LooksSnoc(st.out[it], st.held[who].look);
    hide Sent, Tracked, InRound, Holds, Pending, Ended, Behind, Changes, LastShown;
  }

  // A round begins with a send that is tracked, or passes one over.
  lemma {:induction false} RoundFollowed(st: State, a: Action, it: TrackedSend)
    requires Sound(st) && it in st.looks && it in st.out && Followed(st, it)
    requires (a.BeginRound? && Tracked(st, it)) || a == Skip(it)
    ensures Do(st, a).looks == st.looks && it in Do(st, a).out && Followed(Do(st, a), it)
  {
    hide Followed, Sound, Tracked;
    PollerApart(st, it);
    RoundMoves(st, Do(st, a).round, it);
  }

  lemma {:induction false} PollerApart(st: State, it: TrackedSend)
    requires Sound(st) && it in st.looks && it in st.out && Followed(st, it)
    ensures Poller in st.held ==> st.round.Some?
    ensures Holds(st, Poller, it) ==> !InRound(st, it)
  {
    hide Ended, Behind, Changes, Conserved;
  }

  lemma {:induction false} RoundMoves(st: State, round: Option<set<TrackedSend>>, it: TrackedSend)
    requires it in st.looks && it in st.out && Followed(st, it)
    requires round.Some? && it in round.value ==> !Holds(st, Poller, it) && (InRound(st, it) || Tracked(st, it))
    ensures Followed(st.(round := round), it)
  {
    hide Ended, Behind, Changes;
    assert Pending(st.(round := round), it) == Pending(st, it);
  }

  lemma {:induction false} AboutFollowed(st: State, a: Action, it: TrackedSend)
    requires Sound(st) && it in st.looks && it in st.out && Followed(st, it) && About(st, a, it)
    ensures it in Do(st, a).looks && it in Do(st, a).out && Followed(Do(st, a), it)
  {
    assert Tracked(st, it) || it.request !in st.items;
    hide Sound, Settling, Conserved, Tracked, InRound, Sent, Observed;
    match a {
      case Observe(who, o, rec) =>
        if MayLook(st, who, it) {
          HoldsNot(st, who, it);
          ObserveConserves(st, who, it, rec);
          ObserveSettles(st, who, it, rec);
        }
      case Publish(who) =>
        OwnHolds(st, who, it);
        PublishConserves(st, who, it);
        PublishSettles(st, who, it);
      case BeginRound => RoundFollowed(st, a, it);
      case Skip(o) => RoundFollowed(st, a, it);
      case Track(o) => assert !New(st, it);
      case Load(o) =>
      case Start(call) => assert false;
      case EndRound => assert false;
    }
  }

  lemma {:induction false} HoldsNot(st: State, who: Observer, it: TrackedSend)
    requires MayLook(st, who, it) && it in st.out && Settling(st, it)
    ensures !Holds(st, who, it)
  {
    hide Ended, Behind;
  }

  lemma {:induction false} OwnHolds(st: State, who: Observer, it: TrackedSend)
    requires Sound(st) && Holds(st, who, it)
    ensures who.Own? ==> who.it == it
  {
  }

  lemma {:induction false} StepKeepsInv(st: State, a: Action)
    requires Inv(st)
    ensures Inv(Do(st, a))
  {
    StepKeepsSound(st, a);
    StepKeepsPolled(st, a);
    var to := Do(st, a);
    forall it | it in to.looks ensures it in to.out && Followed(to, it) {
      SendKeeps(st, a, it);
    }
    hide Do, Sound, Polled, Followed;
  }

  lemma {:induction false} SendKeeps(st: State, a: Action, it: TrackedSend)
    requires Inv(st) && it in Do(st, a).looks
    ensures it in Do(st, a).out && Followed(Do(st, a), it)
  {
    if it in st.looks {
      HasOut(st, it);
      hide Sound, Followed, About, Alike, Do;
      if About(st, a, it) {
        AboutFollowed(st, a, it);
      } else {
        OthersStay(st, a, it);
        AlikeFollowed(st, Do(st, a), it);
      }
    } else {
      OnlyNew(st, a, it);
      NewIsFollowed(st, a, it);
    }
  }

  lemma {:induction false} OnlyNew(st: State, a: Action, it: TrackedSend)
    requires it !in st.looks && it in Do(st, a).looks
    ensures New(st, it) && (a == Track(it) || a == Load(it))
  {
    hide LookOf, LastShown;
  }

  /** In every interleaving: a send is tracked until its first final look, each of its changes is
      published or about to be, and at most one is published behind a final one. */
  lemma {:induction false} AnyStepsFollow(as_: seq<Action>)
    ensures var st := Run(as_);
            Inv(st) && forall it :: it in st.looks ==>
              && it in st.out && (Tracked(st, it) <==> !Ended(st.looks[it])) && Conserved(st, it)
              && (Ended(st.out[it]) ==> Behind(st.out[it]) + |Pending(st, it)| <= 1)
    decreases |as_|
  {
    if as_ != [] {
      AnyStepsFollow(as_[..|as_| - 1]);
      StepKeepsInv(Run(as_[..|as_| - 1]), as_[|as_| - 1]);
    }
    var st := Run(as_);
    hide Run, Do, Sound;
    assert Inv(st);
    forall it | it in st.looks
      ensures it in st.out && (Tracked(st, it) <==> !Ended(st.looks[it])) && Conserved(st, it)
      ensures Ended(st.out[it]) ==> Behind(st.out[it]) + |Pending(st, it)| <= 1
    {
      assert Followed(st, it);
    }
  }

  // One change is published, or about to be, behind a final one.
  ghost predicate Trails(st: State, it: TrackedSend) {
    it in st.out && Ended(st.out[it]) && Behind(st.out[it]) + |Pending(st, it)| == 1
  }

  // What puts it there: a final change is published while the other observer still holds one, or someone
  // looks at the send after that and sees something else.
  ghost predicate Leaves(st: State, a: Action, it: TrackedSend) {
    it in st.looks && it in st.out && match a
      case Publish(who) =>
        && Holds(st, who, it) && st.held[who].look.final && !Ended(st.out[it])
        && Holds(st, if who.Own? then Poller else Own(it), it)
      case Observe(who, o, rec) =>
        o == it && MayLook(st, who, it) && Ended(st.out[it]) && LookOf(st.items, it, rec).shown != LastShown(st.looks[it])
      case _ => false
  }

  lemma {:induction false} LeaveStep(st: State, a: Action, it: TrackedSend)
    requires Inv(st) && it in st.looks
    ensures Trails(Do(st, a), it) <==> Trails(st, it) || Leaves(st, a, it)
  {
    HasOut(st, it);
    assert Followed(st, it);
    if !About(st, a, it) {
      OthersStay(st, a, it);
      hide Do, Inv, Sound, Ended, Behind, Pending, Followed;
    } else {
      AboutLeaves(st, a, it);
    }
  }

  lemma {:induction false} AboutLeaves(st: State, a: Action, it: TrackedSend)
    requires Sound(st) && it in st.looks && it in st.out && Settling(st, it) && About(st, a, it)
    ensures Trails(Do(st, a), it) <==> Trails(st, it) || Leaves(st, a, it)
  {
    assert Tracked(st, it) || it.request !in st.items;
    match a {
      case Observe(who, o, rec) => ObserveLeaves(st, who, it, rec);
      case Publish(who) =>
        OwnHolds(st, who, it);
        PublishLeaves(st, who, it);
      case BeginRound => assert Pending(Do(st, a), it) == Pending(st, it);
      case Skip(o) => assert Pending(Do(st, a), it) == Pending(st, it);
      case _ =>
    }
    hide Sound, Settling, Ended, Behind, Pending, Tracked, Sent, Observed;
  }

  lemma {:induction false} ObserveLeaves(st: State, who: Observer, it: TrackedSend, rec: Record)
    requires it in st.looks && it in st.out && Settling(st, it) && (Tracked(st, it) || it.request !in st.items)
    ensures var a := Observe(who, it, rec); Trails(Do(st, a), it) <==> Trails(st, it) || Leaves(st, a, it)
  {
    hide LookOf, LastShown, Ended, Behind;
    if MayLook(st, who, it) {
      assert !Holds(st, who, it);
      ObserveMoves(st, who, it, rec);
      ObserveHolds(st, who, it, rec);
      assert OwnLeft(st, it) + PollerLeft(st, it) >= 1 + |Pending(st, it)|;
      hide Observed, Pending, Holds, Tracked;
    }
  }

  lemma {:induction false} PublishLeaves(st: State, who: Observer, it: TrackedSend)
    requires Holds(st, who, it) && it in st.looks && it in st.out && Settling(st, it) && (who.Own? ==> who.it == it)
    ensures Trails(Do(st, Publish(who)), it) <==> Trails(st, it) || Leaves(st, Publish(who), it)
  {
    PublishMoves(st, who, it);
    LooksSnoc(st.out[it], st.held[who].look);
    hide Sent, Ended, Behind, Tracked;
    var other := if who.Own? then Poller else Own(it);
    assert |Pending(st, it)| == 1 + if Holds(st, other, it) then 1 else 0;
  }

  ghost predicate LeftAt(as_: seq<Action>, n: nat, it: TrackedSend) {
    n < |as_| && Leaves(Run(as_[..n]), as_[n], it)
  }

  /** A change of a send goes out behind a final one exactly when, in some step, a final change is
      published while the other observer holds one, or the send is looked at after that and shows
      something else. */
  lemma {:induction false} BehindFinalIff(as_: seq<Action>, it: TrackedSend)
    ensures Trails(Run(as_), it) <==> exists n: nat :: LeftAt(as_, n, it)
    decreases |as_|
  {
    hide *;
    if as_ == [] {
      NothingLeft(it);
    } else {
      var front, a := as_[..|as_| - 1], as_[|as_| - 1];
      BehindFinalIff(front, it);
      AnyStepsFollow(front);
      LeftStep(as_, it);
      if it in Run(front).looks {
        LeaveStep(Run(front), a, it);
      } else {
        InvSound(Run(front));
        NotYet(Run(front), a, it);
      }
    }
  }

  lemma {:induction false} NothingLeft(it: TrackedSend)
    ensures !Trails(Run([]), it) && forall n: nat :: !LeftAt([], n, it)
  {
  }

  lemma {:induction false} InvSound(st: State)
    requires Inv(st)
    ensures Sound(st)
  {
  }

  lemma {:induction false} LeftStep(as_: seq<Action>, it: TrackedSend)
    requires as_ != []
    ensures var front, a := as_[..|as_| - 1], as_[|as_| - 1];
            && Run(as_) == Do(Run(front), a)
            && ((exists n: nat :: LeftAt(as_, n, it)) <==> (exists n: nat :: LeftAt(front, n, it)) || Leaves(Run(front), a, it))
  {
    hide Do, Leaves;
    var front := as_[..|as_| - 1];
    forall n: nat | n < |front| ensures LeftAt(front, n, it) <==> LeftAt(as_, n, it) {
      assert front[..n] == as_[..n];
    }
    assert LeftAt(as_, |front|, it) <==> Leaves(Run(front), as_[|as_| - 1], it);
    hide Run, LeftAt;
    if n: nat :| LeftAt(as_, n, it) {
      LeftInside(as_, n, it);
    }
    if n: nat :| LeftAt(front, n, it) {
      LeftInside(front, n, it);
    }
  }

  lemma {:induction false} LeftInside(as_: seq<Action>, n: nat, it: TrackedSend)
    requires LeftAt(as_, n, it)
    ensures n < |as_|
  {
    hide Leaves, Run;
  }

  lemma {:induction false} NotYet(st: State, a: Action, it: TrackedSend)
    requires Sound(st) && it !in st.looks
    ensures !Trails(Do(st, a), it) && !Leaves(st, a, it) && !Trails(st, it)
  {
    hide LookOf, LastShown;
  }

  /** So once a final state is out and nothing is held, the phone's last word on a send is that state
      exactly when no step left one behind it. */
  lemma {:induction false} LastWordIff(as_: seq<Action>, it: TrackedSend)
    requires it in Run(as_).out && Ended(Run(as_).out[it]) && Pending(Run(as_), it) == []
    ensures var out := Run(as_).out[it];
            (out[|out| - 1].final && !Ended(out[..|out| - 1])) <==> forall n: nat :: !LeftAt(as_, n, it)
  {
    BehindFinalIff(as_, it);
    AnyStepsFollow(as_);
    InvSound(Run(as_));
    assert it in Run(as_).looks;
    hide Run, LeftAt, Inv, Conserved, Tracked, Sound;
  }

  // ------------------------------------------------------------------ two runs that leave one behind

  const LANDED := Record("landed", true, "")
  const QUEUED := Record("queued", false, "")

  // A poller at work for another send starts its round just after the send was tracked.
  function Opening(x: TrackedSend, it: TrackedSend): seq<Action> {
    [Load(x), Start(Resume), Track(it), BeginRound]
  }

  function Opened(x: TrackedSend, it: TrackedSend): State {
    State(map[x.request := x, it.request := it], true, 1, {Of(it)}, {it}, Some({x, it}), map[],
          map[x := [], it := []], map[x := [], it := []])
  }

  lemma {:induction false} RunSnoc(as_: seq<Action>, a: Action)
    ensures Run(as_ + [a]) == Do(Run(as_), a)
  {
    assert (as_ + [a])[..|as_|] == as_;
  }

  lemma {:induction false} OpeningOpens(x: TrackedSend, it: TrackedSend)
    requires x.request != it.request
    ensures Run(Opening(x, it)) == Opened(x, it)
  {
    var one, two, three := [Load(x)], [Load(x)] + [Start(Resume)], [Load(x)] + [Start(Resume)] + [Track(it)];
    assert [] + [Load(x)] == one && three + [BeginRound] == Opening(x, it);
    RunSnoc([], Load(x));
    assert Run([]) == INITIAL;
    hide Run;
    RunSnoc(one, Start(Resume));
    RunSnoc(two, Track(it));
    RunSnoc(three, BeginRound);
    Loaded(x);
    Begun(x, it);
    hide Do, Opened;
  }

  lemma {:induction false} Loaded(x: TrackedSend)
    ensures var st := Do(Do(INITIAL, Load(x)), Start(Resume));
            st == State(map[x.request := x], true, 1, {}, {}, None, map[], map[x := []], map[x := []])
  {
    var st := Do(INITIAL, Load(x));
    assert st == State(map[x.request := x], false, 0, {Resume}, {}, None, map[], map[x := []], map[x := []]);
    assert x.request in st.items;
  }

  lemma {:induction false} Begun(x: TrackedSend, it: TrackedSend)
    requires x.request != it.request
    ensures var st := State(map[x.request := x], true, 1, {}, {}, None, map[], map[x := []], map[x := []]);
            Do(Do(st, Track(it)), BeginRound) == Opened(x, it)
  {
    var st := State(map[x.request := x], true, 1, {}, {}, None, map[], map[x := []], map[x := []]);
    assert Do(st, Track(it)) == Opened(x, it).(round := None);
    BothOpen(x, it);
  }

  lemma {:induction false} BothOpen(x: TrackedSend, it: TrackedSend)
    requires x.request != it.request
    ensures (map[x.request := x, it.request := it]).Values == {x, it}
  {
    var m := map[x.request := x, it.request := it];
    assert m[x.request] == x && m[it.request] == it;
  }

  // The poller sees it delivered, publishes that and drops it before the tracking call looks for the
  // first time: the phone shows it queued again.
  lemma {:induction false} LateFirstLook(x: TrackedSend, it: TrackedSend) returns (place: nat)
    requires x.request != it.request
    ensures var as_ := Opening(x, it) + [Observe(Poller, it, LANDED)] + [Publish(Poller)]
                       + [Observe(Own(it), it, QUEUED)] + [Publish(Own(it))];
            it in Run(as_).out && Run(as_).out[it] == [Look(("delivered", 0), true), Look(("queued", place), false)]
    ensures place >= 1
  {
    var a := Opening(x, it) + [Observe(Poller, it, LANDED)];
    var b := a + [Publish(Poller)];
    var c := b + [Observe(Own(it), it, QUEUED)];
    OpeningOpens(x, it);
    RunSnoc(Opening(x, it), Observe(Poller, it, LANDED));
    RunSnoc(a, Publish(Poller));
    RunSnoc(b, Observe(Own(it), it, QUEUED));
    RunSnoc(c, Publish(Own(it)));
    hide Run, Opening, Ahead;
    var landed, queued := Look(("delivered", 0), true), LookOf(Run(b).items, it, QUEUED);
    assert Run(a).held == map[Poller := Event(it, landed)] && Run(a).out[it] == [];
    assert Run(b).held == map[] && Run(b).out[it] == [landed] && Run(b).looks[it] == [landed] && Run(b).own == {it};
    assert Run(c).held == map[Own(it) := Event(it, queued)] && Run(c).out[it] == [landed];
    place := queued.shown.1;
  }

  // The call looks in time, but publishes what it saw only after the poller has published its own.
  lemma {:induction false} HeldFirstLook(x: TrackedSend, it: TrackedSend) returns (place: nat)
    requires x.request != it.request
    ensures var as_ := Opening(x, it) + [Observe(Own(it), it, QUEUED)] + [Observe(Poller, it, LANDED)]
                       + [Publish(Poller)] + [Publish(Own(it))];
            it in Run(as_).out && Run(as_).out[it] == [Look(("delivered", 0), true), Look(("queued", place), false)]
    ensures place >= 1
  {
    var a := Opening(x, it) + [Observe(Own(it), it, QUEUED)];
    var b := a + [Observe(Poller, it, LANDED)];
    var c := b + [Publish(Poller)];
    OpeningOpens(x, it);
    RunSnoc(Opening(x, it), Observe(Own(it), it, QUEUED));
    RunSnoc(a, Observe(Poller, it, LANDED));
    RunSnoc(b, Publish(Poller));
    RunSnoc(c, Publish(Own(it)));
    var landed, queued := Look(("delivered", 0), true), LookOf(Opened(x, it).items, it, QUEUED);
    BothLook(x, it);
    assert queued.shown.1 >= 1;
    hide Run, Opening, Opened, LookOf;
    assert Run(c).held == map[Own(it) := Event(it, queued)] && Run(c).out[it] == [landed];
    place := queued.shown.1;
    assert queued == Look(("queued", place), false);
  }

  lemma {:induction false} BothLook(x: TrackedSend, it: TrackedSend)
    requires x.request != it.request
    ensures var queued := LookOf(Opened(x, it).items, it, QUEUED);
            var to := Do(Do(Opened(x, it), Observe(Own(it), it, QUEUED)), Observe(Poller, it, LANDED));
            && queued.shown.0 == "queued" && !queued.final
            && to.held == map[Own(it) := Event(it, queued), Poller := Event(it, Look(("delivered", 0), true))]
            && it in to.out && to.out[it] == []
  {
    hide Position;
    var one, queued := Do(Opened(x, it), Observe(Own(it), it, QUEUED)), LookOf(Opened(x, it).items, it, QUEUED);
    assert one.held == map[Own(it) := Event(it, queued)] && one.looks[it] == [queued] && one.out[it] == [];
  }

  // ------------------------------------------------------------------ the tracker

  class Tracker {
    var items: Items
    var running: bool
    ghost var st: State   // with what is not kept: calls under way, looks, events

    ghost predicate Valid()
      reads this
    {
      Inv(st) && st.items == items && st.running == running
    }

    // The send holds what was last seen of it; only Observe changes either.
    ghost predicate Shows(it: TrackedSend)
      reads this, it
    {
      it in st.looks && it.shown == LastShown(st.looks[it])
    }

    constructor ()
      ensures Valid() && st == INITIAL
    {
      items, running, st := map[], false, INITIAL;
      new;
      AnyStepsFollow([]);
    }

    method Track(it: TrackedSend)
      requires Valid() && New(st, it) && it.shown == ("", 0)
      modifies this
      ensures Valid() && Shows(it) && st == Do(old(st), Action.Track(it))
    {
      hide Inv, Do, LastShown, LookOf, MapState, Position;
      ghost var a := Action.Track(it);
      StepKeepsInv(st, a);
      NewStep(st, it);
      st := Do(st, a);
      items := items[it.request := it];
    }

    method PositionOf(it: TrackedSend) returns (n: nat)
      ensures n == Position(items, it)
    {
      n := 1;
      var left := items.Keys;
      ghost var done: set<string> := {};
      while left != {}
        invariant done + left == items.Keys && done !! left
        invariant n == 1 + |AheadAmong(items, done, it)|
        decreases |left|
      {
        var r :| r in left;
        OneMoreAhead(items, done, it, r);
        if items[r].session == it.session && Less(items[r].send, it.send) {
          n := n + 1;
        }
        left, done := left - {r}, done + {r};
      }
      assert done == items.Keys;
    }

    // What to publish: the new state and position, when either changed. A final state ends the tracking,
    // which the other observer may have done before.
    method Observe(it: TrackedSend, rec: Record, ghost who: Observer) returns (event: Option<(string, nat)>)
      requires Valid() && Shows(it) && MayLook(st, who, it)
      modifies this, it`shown
      ensures Valid() && Shows(it) && st == Do(old(st), Action.Observe(who, it, rec))
      ensures it.shown == LookOf(old(items), it, rec).shown
      ensures event == if it.shown == old(it.shown) then None else Some(it.shown)
      ensures event.Some? <==> who in st.held
    {
      hide Inv, Do, LastShown, LookOf, MapState, Position;
      ghost var a := Action.Observe(who, it, rec);
      StepKeepsInv(st, a);
      NotHolding(st, who, it);
      LookStep(st, who, it, rec);
      var ui := MapState(rec);
      var pos := 0;
      if ui.state == "queued" {
        pos := PositionOf(it);
      }
      var changed := (ui.state, pos) != it.shown;
      st := Do(st, a);
      it.shown := (ui.state, pos);
      if ui.final {
        items := items - {it.request};
      }
      event := if changed then Some((ui.state, pos)) else None;
    }

    // The event goes to the hub, outside the lock.
    ghost method Publish(who: Observer)
      requires Valid()
      modifies this`st
      ensures Valid() && st == Do(old(st), Action.Publish(who))
    {
      hide Inv, Do, LastShown, LookOf, MapState, Position;
      ghost var a := Action.Publish(who);
      StepKeepsInv(st, a);
      QuietStep(st, a);
      st := Do(st, a);
    }

    // Whether a poll loop is to be started.
    method StartPoller(ghost call: Call) returns (start: bool)
      requires Valid() && call in st.starting && (call.Of? ==> call.it !in st.own && Own(call.it) !in st.held)
      modifies this
      ensures Valid() && st == Do(old(st), Start(call)) && start == (st.pollers > old(st).pollers)
    {
      hide Inv, Do, LastShown, LookOf, MapState, Position;
      ghost var a := Start(call);
      StepKeepsInv(st, a);
      QuietStep(st, a);
      StartStep(st, call);
      st := Do(st, a);
      if running || items == map[] {
        return false;
      }
      running := true;
      return true;
    }

    // The sends to look at in this round.
    method RoundBegins() returns (open: set<TrackedSend>)
      requires Valid() && st.pollers > 0 && st.round.None?
      modifies this`st
      ensures Valid() && st == Do(old(st), BeginRound) && st.round == Some(open)
      ensures forall it :: it in open <==> it in st.looks && Tracked(st, it)
    {
      hide Inv, Do, Tracked;
      StepKeepsInv(st, BeginRound);
      QuietStep(st, BeginRound);
      BeginStep(st);
      st := Do(st, BeginRound);
      open := items.Values;
    }

    // Whether the poll loop goes on.
    method RoundEnds() returns (on: bool)
      requires Valid() && st.round == Some({}) && Poller !in st.held
      modifies this
      ensures Valid() && st == Do(old(st), EndRound) && on == (items != map[])
    {
      hide Inv, Do;
      StepKeepsInv(st, EndRound);
      QuietStep(st, EndRound);
      EndStep(st);
      st := Do(st, EndRound);
      if items == map[] {
        running := false;
        return false;
      }
      return true;
    }
  }

  // Steps at which nobody looks.
  lemma {:induction false} QuietStep(st: State, a: Action)
    requires a.Publish? || a.Start? || a.BeginRound? || a.Skip? || a.EndRound?
    ensures var to := Do(st, a);
            && to.items == st.items && to.looks == st.looks
            && (a.Publish? || a.BeginRound? || a.Skip? ==> to.running == st.running && to.pollers == st.pollers)
  {
  }

  lemma {:induction false} NewStep(st: State, it: TrackedSend)
    requires New(st, it)
    ensures var to := Do(st, Action.Track(it));
            && to.items == st.items[it.request := it] && to.running == st.running
            && it in to.looks && LastShown(to.looks[it]) == ("", 0)
  {
  }

  lemma {:induction false} LookStep(st: State, who: Observer, it: TrackedSend, rec: Record)
    requires MayLook(st, who, it) && who !in st.held
    ensures var to, look, ui := Do(st, Action.Observe(who, it, rec)), LookOf(st.items, it, rec), MapState(rec);
            && look.shown == (ui.state, if ui.state == "queued" then Position(st.items, it) else 0)
            && to.items == (if ui.final then st.items - {it.request} else st.items) && to.running == st.running
            && it in to.looks && LastShown(to.looks[it]) == look.shown
            && (who in to.held <==> look.shown != LastShown(st.looks[it]))
  {
    hide Position, MapState;
  }

  lemma {:induction false} StartStep(st: State, call: Call)
    requires call in st.starting && (call.Of? ==> call.it !in st.own && Own(call.it) !in st.held)
    ensures var to, start := Do(st, Start(call)), !st.running && st.items != map[];
            to.running == (st.running || start) && to.pollers == st.pollers + if start then 1 else 0
  {
  }

  lemma {:induction false} BeginStep(st: State)
    requires Inv(st) && st.pollers > 0 && st.round.None?
    ensures Do(st, BeginRound).round == Some(st.items.Values)
    ensures forall it :: it in st.items.Values <==> it in st.looks && Tracked(Do(st, BeginRound), it)
  {
    hide Followed, Polled;
  }

  lemma {:induction false} EndStep(st: State)
    requires st.round == Some({}) && Poller !in st.held
    ensures Do(st, EndRound).running == (st.running && st.items != map[])
  {
  }

  lemma {:induction false} NotHolding(st: State, who: Observer, it: TrackedSend)
    requires Inv(st) && MayLook(st, who, it)
    ensures who !in st.held
  {
    HasOut(st, it);
    assert Followed(st, it);
  }
}
