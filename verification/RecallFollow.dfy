/** The followers of open sessions as interleaved steps: a bounded pool of slots, replacement,
    cancellation and exit (recall_follow.go, and the store in recall.go).

    Every step is one section run under the session's lock, or one atomic access to the slot counter;
    the steps of different goroutines interleave freely. */
module RecallFollow {
  import Rows = RecallRows

  const MAX_FOLLOWERS: nat := 8

  // Session and follower objects, by allocation.
  type Sess = nat
  type Follower = nat

  // A loop: running its process; about to clear the cache after a resync; about to return; past its
  // deferred cleanup; past the release of its slot.
  datatype Phase = Running | Clearing | Leaving | Left | Gone

  datatype State = State(
    slots: int,                       // nFollowers
    fol: map<Sess, Follower>,         // the current follower of each session
    owner: map<Follower, Sess>,
    phase: map<Follower, Phase>,
    live: set<Follower>,              // a process is running
    cancelled: set<Follower>,
    due: set<Follower>,               // its watchdog found it idle and is about to cancel it
    probing: map<Sess, int>,          // inside acquireFollower, with the count last loaded
    pending: set<Sess>,               // slot taken, loop not started yet
    rows: map<Sess, seq<Rows.Row>>,   // absent: the cache is cleared
    cursor: set<Sess>,                // the sessions with a cursor to read on from
    next: Follower)

  const INITIAL := State(0, map[], map[], map[], {}, {}, {}, map[], {}, map[], {}, 0)

  datatype Action =
    | Probe(s: Sess)                       // ensureFollow: allowed to start, loads the counter
    | Swap(s: Sess)                        // compare-and-swap on the counter
    | Start(s: Sess)                       // sets the session's follower and starts its loop
    | Stop(s: Sess)                        // stopFollow
    | Reopen(s: Sess, tl: Rows.Timeline, cleared: bool)  // a fresh tail read, after a /clear or without: stop, start over
    | Poll(s: Sess, tl: Rows.Timeline)     // what came since the cursor
    | Page(s: Sess, older: seq<Rows.Row>)  // an older page
    | Clear(s: Sess)                       // a failed read: stop, forget the rows
    | GoLive(f: Follower)
    | Take(f: Follower, frame: Rows.Frame, moves: bool)  // one frame from the process, with a cursor or without
    | RunEnds(f: Follower, resync: bool)   // the process ended; the loop looks at its context
    | ClearCache(f: Follower)              // the loop's reaction to a resync
    | GiveUp(f: Follower)                  // cancelled, or the process keeps dying
    | Idle(f: Follower)                    // the watchdog lets go of an idle session's follower
    | Cancel(f: Follower)                  // ... and cancels it
    | Cleanup(f: Follower)                 // the loop's deferred cleanup
    | Release(f: Follower)                 // the loop gives its slot back

  predicate Current(st: State, f: Follower) {
    f in st.owner && st.owner[f] in st.fol && st.fol[st.owner[f]] == f
  }

  // Someone is inside ensureFollow and holds the session's lock.
  predicate Locked(st: State, s: Sess) {
    s in st.probing || s in st.pending
  }

  predicate In(st: State, f: Follower, p: Phase) {
    f in st.owner && f in st.phase && st.phase[f] == p
  }

  // stopFollow: the follower is cancelled and no longer current.
  function Stopped(st: State, s: Sess): State {
    if s in st.fol then st.(cancelled := st.cancelled + {st.fol[s]}, fol := st.fol - {s}) else st
  }

  // cancelFollowOf, up to the cancellation.
  function LetGone(st: State, f: Follower): State {
    if f !in st.owner || Locked(st, st.owner[f]) then st
    else st.(fol := if Current(st, f) then st.fol - {st.owner[f]} else st.fol, due := st.due + {f})
  }

  function Probed(st: State, s: Sess): State {
    if Locked(st, s) || s in st.fol || s !in st.cursor then st else st.(probing := st.probing[s := st.slots])
  }

  function Swapped(st: State, s: Sess): State {
    if s !in st.probing then st
    else if st.probing[s] >= MAX_FOLLOWERS then st.(probing := st.probing - {s})
    else if st.probing[s] == st.slots then
      st.(slots := st.slots + 1, probing := st.probing - {s}, pending := st.pending + {s})
    else st.(probing := st.probing[s := st.slots])
  }

  function Started(st: State, s: Sess): State {
    if s !in st.pending then st
    else
      st.(pending := st.pending - {s}, fol := st.fol[s := st.next], owner := st.owner[st.next := s],
          phase := st.phase[st.next := Running], next := st.next + 1)
  }

  function Taken(keep: Rows.Row -> bool, st: State, f: Follower, frame: Rows.Frame, moves: bool): State {
    if In(st, f, Running) && f in st.live && !Locked(st, st.owner[f]) && Current(st, f) then
      var s := st.owner[f];
      st.(rows := st.rows[s := Rows.ApplyFrame(keep, RowsOf(st, s), frame)],
          cursor := if moves && !frame.Resync? then st.cursor + {s} else st.cursor)
    else st
  }

  function Ended(st: State, f: Follower, resync: bool): State {
    if !In(st, f, Running) then st
    else
      st.(live := st.live - {f},
          phase := if f in st.cancelled then st.phase[f := Leaving] else if resync then st.phase[f := Clearing] else st.phase)
  }

  function Cleared(st: State, f: Follower): State {
    if !In(st, f, Clearing) || Locked(st, st.owner[f]) then st
    else st.(rows := st.rows - {st.owner[f]}, cursor := st.cursor - {st.owner[f]}, phase := st.phase[f := Leaving])
  }

  function CleanedUp(st: State, f: Follower): State {
    if !In(st, f, Leaving) || Locked(st, st.owner[f]) then st
    else
      st.(live := st.live - {f}, phase := st.phase[f := Left], fol := if Current(st, f) then st.fol - {st.owner[f]} else st.fol)
  }

  function Released(st: State, f: Follower): State {
    if In(st, f, Left) then st.(slots := st.slots - 1, phase := st.phase[f := Gone]) else st
  }

  function Reopened(keep: Rows.Row -> bool, st: State, s: Sess, tl: Rows.Timeline, cleared: bool): State {
    if Locked(st, s) then st
    else
      var kept := if cleared then st.cursor - {s} else st.cursor;
      Stopped(st, s).(rows := st.rows[s := Rows.Apply(keep, [], tl)], cursor := if tl.through != "" then kept + {s} else kept)
  }

  // What a step does; a step that is not possible does nothing.
  function Do(keep: Rows.Row -> bool, st: State, a: Action): State {
    match a
    case Probe(s) => Probed(st, s)
    case Swap(s) => Swapped(st, s)
    case Start(s) => Started(st, s)
    case Stop(s) => if Locked(st, s) then st else Stopped(st, s)
    case Reopen(s, tl, cleared) => Reopened(keep, st, s, tl, cleared)
    case Poll(s, tl) =>
      if Locked(st, s) || s !in st.cursor then st else st.(rows := st.rows[s := Rows.Apply(keep, RowsOf(st, s), tl)])
    case Page(s, older) =>
      if Locked(st, s) then st else st.(rows := st.rows[s := Rows.Older(keep, RowsOf(st, s), older) + RowsOf(st, s)])
    case Clear(s) => if Locked(st, s) then st else Stopped(st, s).(rows := st.rows - {s}, cursor := st.cursor - {s})
    case GoLive(f) => if In(st, f, Running) then st.(live := st.live + {f}) else st
    case Take(f, frame, moves) => Taken(keep, st, f, frame, moves)
    case RunEnds(f, resync) => Ended(st, f, resync)
    case ClearCache(f) => Cleared(st, f)
    case GiveUp(f) => if In(st, f, Running) && f !in st.live then st.(phase := st.phase[f := Leaving]) else st
    case Idle(f) => LetGone(st, f)
    case Cancel(f) => if f in st.due then st.(cancelled := st.cancelled + {f}, due := st.due - {f}) else st
    case Cleanup(f) => CleanedUp(st, f)
    case Release(f) => Released(st, f)
  }

  function RowsOf(st: State, s: Sess): seq<Rows.Row> {
    if s in st.rows then st.rows[s] else []
  }

  function Run(keep: Rows.Row -> bool, st: State, as_: seq<Action>): State {
    if as_ == [] then st else Do(keep, Run(keep, st, as_[..|as_| - 1]), as_[|as_| - 1])
  }

  // ------------------------------------------------------------------ slots

  // Loops that have not given their slot back.
  function Holding(phase: map<Follower, Phase>): set<Follower> {
    set f | f in phase && phase[f] != Gone
  }

  ghost predicate Slotted(slots: int, pending: set<Sess>, phase: map<Follower, Phase>) {
    slots == |pending| + |Holding(phase)| && slots <= MAX_FOLLOWERS
  }

  ghost predicate Numbered(owner: map<Follower, Sess>, phase: map<Follower, Phase>, next: Follower) {
    phase.Keys == owner.Keys && forall f :: f in owner ==> f < next
  }

  // A session's current follower is its own and has a loop that has not cleaned up.
  ghost predicate Attended(fol: map<Sess, Follower>, owner: map<Follower, Sess>, phase: map<Follower, Phase>) {
    forall s :: s in fol ==>
      fol[s] in owner && owner[fol[s]] == s && fol[s] in phase && phase[fol[s]] !in {Left, Gone}
  }

  ghost predicate Exclusive(probing: map<Sess, int>, pending: set<Sess>, fol: map<Sess, Follower>) {
    && (forall s :: s in probing ==> s !in pending && s !in fol)
    && (forall s :: s in pending ==> s !in fol)
  }

  ghost predicate Alive(live: set<Follower>, phase: map<Follower, Phase>) {
    forall f :: f in live ==> f in phase && phase[f] == Running
  }

  ghost predicate Inv(st: State) {
    && Slotted(st.slots, st.pending, st.phase) && Numbered(st.owner, st.phase, st.next)
    && Attended(st.fol, st.owner, st.phase) && Exclusive(st.probing, st.pending, st.fol) && Alive(st.live, st.phase)
  }

  lemma {:induction false} HoldingStep(phase: map<Follower, Phase>, f: Follower, p: Phase)
    ensures |Holding(phase[f := p])| == |Holding(phase)| - (if f in Holding(phase) then 1 else 0) + (if p == Gone then 0 else 1)
  {
    var before, after := Holding(phase), Holding(phase[f := p]);
    assert after == (before - {f}) + if p == Gone then {} else {f};
  }

  // A loop's phase moves on without touching anything else the slots depend on.
  lemma {:induction false} PhaseStep(st: State, f: Follower, p: Phase)
    requires Inv(st) && f in st.phase && st.phase[f] != Gone && p != Gone && (p == Left ==> !Current(st, f)) && f !in st.live
    ensures Inv(st.(phase := st.phase[f := p]))
  {
    HoldingStep(st.phase, f, p);
    assert f in Holding(st.phase);
    hide Holding;
  }

  // A follower is let go.
  lemma {:induction false} LetGo(st: State, s: Sess)
    requires Inv(st)
    ensures Inv(st.(fol := st.fol - {s}))
    ensures s in st.fol ==> !Current(st.(fol := st.fol - {s}), st.fol[s])
  {
    hide Slotted, Numbered, Alive;
  }

  // What does not concern slots, loops or current followers.
  lemma {:induction false} Indifferent(st: State, live: set<Follower>, cancelled: set<Follower>,
                                       rows: map<Sess, seq<Rows.Row>>, cursor: set<Sess>)
    requires Inv(st) && forall f :: f in live ==> f in st.phase && st.phase[f] == Running
    ensures Inv(st.(live := live, cancelled := cancelled, rows := rows, cursor := cursor))
  {
  }

  lemma {:induction false} DueIndifferent(st: State, due: set<Follower>)
    requires Inv(st)
    ensures Inv(st.(due := due))
  {
  }

  lemma {:induction false} IdleKeepsInv(st: State, f: Follower)
    requires Inv(st)
    ensures Inv(LetGone(st, f))
  {
    if f in st.owner {
      LetGo(st, st.owner[f]);
      DueIndifferent(st, st.due + {f});
      DueIndifferent(st.(fol := st.fol - {st.owner[f]}), st.due + {f});
    }
    hide Inv;
  }

  lemma {:induction false} ProbeKeepsInv(st: State, s: Sess)
    requires Inv(st)
    ensures Inv(Probed(st, s))
  {
    hide Slotted, Attended, Numbered, Alive;
  }

  lemma {:induction false} SwapExcludes(st: State, s: Sess)
    requires Exclusive(st.probing, st.pending, st.fol) && s in st.probing
    ensures s !in st.pending
    ensures Exclusive(st.probing - {s}, st.pending, st.fol) && Exclusive(st.probing - {s}, st.pending + {s}, st.fol)
    ensures Exclusive(st.probing[s := st.slots], st.pending, st.fol)
  {
  }

  lemma {:induction false} NotPending(st: State, s: Sess)
    requires Inv(st) && s in st.probing
    ensures s !in st.pending
  {
    hide Slotted, Numbered, Attended, Alive;
  }

  lemma {:induction false} SwapKeepsInv(st: State, s: Sess)
    requires Inv(st)
    ensures Inv(Swapped(st, s))
  {
    hide Attended, Numbered, Alive, Exclusive, Holding;
    if s in st.probing {
      SwapExcludes(st, s);
    }
  }

  lemma {:induction false} StartKeepsInv(st: State, s: Sess)
    requires Inv(st)
    ensures Inv(Started(st, s))
  {
    hide Holding, Attended, Exclusive, Alive;
    HoldingStep(st.phase, st.next, Running);
    NoneHolds(st.phase, st.next);
    if s in st.pending {
      StartAttends(st, s);
    }
  }

  lemma {:induction false} NoneHolds(phase: map<Follower, Phase>, f: Follower)
    requires f !in phase
    ensures f !in Holding(phase)
  {
  }

  lemma {:induction false} StartAttends(st: State, s: Sess)
    requires Numbered(st.owner, st.phase, st.next) && s in st.pending
    requires Attended(st.fol, st.owner, st.phase) && Exclusive(st.probing, st.pending, st.fol) && Alive(st.live, st.phase)
    ensures var to := Started(st, s);
            Attended(to.fol, to.owner, to.phase) && Exclusive(to.probing, to.pending, to.fol) && Alive(to.live, to.phase)
  {
  }

  lemma {:induction false} EndingsKeepInv(st: State, f: Follower, resync: bool)
    requires Inv(st)
    ensures Inv(Ended(st, f, resync)) && Inv(Cleared(st, f))
  {
    if In(st, f, Running) {
      var quiet := st.(live := st.live - {f});
      Indifferent(st, st.live - {f}, st.cancelled, st.rows, st.cursor);
      PhaseStep(quiet, f, Leaving);
      PhaseStep(quiet, f, Clearing);
    } else if In(st, f, Clearing) {
      assert f !in st.live;
      PhaseStep(st, f, Leaving);
      var cleared := st.(phase := st.phase[f := Leaving]);
      Indifferent(cleared, st.live, st.cancelled, st.rows - {st.owner[f]}, st.cursor - {st.owner[f]});
    }
    hide Inv;
  }

  lemma {:induction false} CleanupKeepsInv(st: State, f: Follower)
    requires Inv(st)
    ensures Inv(CleanedUp(st, f))
  {
    if In(st, f, Leaving) && !Locked(st, st.owner[f]) {
      var freed := if Current(st, f) then st.(fol := st.fol - {st.owner[f]}) else st;
      LetGo(st, st.owner[f]);
      assert !Current(freed, f) && f !in st.live;
      PhaseStep(freed, f, Left);
      assert st.live - {f} == st.live;
      hide Inv;
    }
  }

  lemma {:induction false} ReleaseKeepsInv(st: State, f: Follower)
    requires Inv(st)
    ensures Inv(Released(st, f))
  {
    HoldingStep(st.phase, f, Gone);
    hide Exclusive;
  }

  lemma {:induction false} StepKeepsInv(keep: Rows.Row -> bool, st: State, a: Action)
    requires Inv(st)
    ensures Inv(Do(keep, st, a))
  {
    hide Inv, Rows.ApplyFrame, Rows.Apply, Rows.Older, RowsOf, Probed, Swapped, Started, Taken, Reopened, Ended, Cleared, CleanedUp, Released;
    LiveRuns(st);
    match a {
      case Probe(s) => ProbeKeepsInv(st, s);
      case Swap(s) => SwapKeepsInv(st, s);
      case Start(s) => StartKeepsInv(st, s);
      case Stop(s) => StopKeepsInv(st, s, st.rows, st.cursor);
      case Reopen(s, tl, cleared) => ReopenKeepsInv(keep, st, s, tl, cleared);
      case Poll(s, tl) => Indifferent(st, st.live, st.cancelled, Do(keep, st, a).rows, st.cursor);
      case Page(s, older) => Indifferent(st, st.live, st.cancelled, Do(keep, st, a).rows, st.cursor);
      case Clear(s) => StopKeepsInv(st, s, st.rows - {s}, st.cursor - {s});
      case GoLive(f) =>
        if In(st, f, Running) {
          Indifferent(st, st.live + {f}, st.cancelled, st.rows, st.cursor);
        }
      case Take(f, frame, moves) => TakeKeepsInv(keep, st, f, frame, moves);
      case RunEnds(f, resync) => EndingsKeepInv(st, f, resync);
      case ClearCache(f) => EndingsKeepInv(st, f, false);
      case GiveUp(f) =>
        if In(st, f, Running) && f !in st.live {
          PhaseStep(st, f, Leaving);
        }
      case Idle(f) => IdleKeepsInv(st, f);
      case Cancel(f) =>
        Indifferent(st, st.live, st.cancelled + {f}, st.rows, st.cursor);
        DueIndifferent(st.(cancelled := st.cancelled + {f}), st.due - {f});
      case Cleanup(f) => CleanupKeepsInv(st, f);
      case Release(f) => ReleaseKeepsInv(st, f);
    }
  }

  lemma {:induction false} LiveRuns(st: State)
    requires Inv(st)
    ensures forall f :: f in st.live ==> f in st.phase && st.phase[f] == Running
  {
    hide Slotted, Numbered, Attended, Exclusive;
  }

  lemma {:induction false} ReopenKeepsInv(keep: Rows.Row -> bool, st: State, s: Sess, tl: Rows.Timeline, cleared: bool)
    requires Inv(st)
    ensures Inv(Reopened(keep, st, s, tl, cleared))
  {
    var after := Reopened(keep, st, s, tl, cleared);
    StopKeepsInv(st, s, after.rows, after.cursor);
    hide Inv, Rows.Apply;
  }

  lemma {:induction false} TakeKeepsInv(keep: Rows.Row -> bool, st: State, f: Follower, frame: Rows.Frame, moves: bool)
    requires Inv(st)
    ensures Inv(Taken(keep, st, f, frame, moves))
  {
    assert Alive(st.live, st.phase);
    var after := Taken(keep, st, f, frame, moves);
    Indifferent(st, st.live, st.cancelled, after.rows, after.cursor);
    hide Inv, Rows.ApplyFrame, RowsOf;
  }

  lemma {:induction false} StopKeepsInv(st: State, s: Sess, rows: map<Sess, seq<Rows.Row>>, cursor: set<Sess>)
    requires Inv(st)
    ensures Inv(Stopped(st, s).(rows := rows, cursor := cursor))
  {
    LetGo(st, s);
    var freed := if s in st.fol then st.(fol := st.fol - {s}) else st;
    Indifferent(freed, st.live, Stopped(st, s).cancelled, rows, cursor) by {
      assert Alive(st.live, st.phase);
    }
    hide Inv;
  }

  /** In every interleaving: the counter equals the loops that have not given their slot back plus the
      slots taken for loops about to start, it stays within 0..8, and every session with a current
      follower has a loop holding a slot. */
  lemma {:induction false} SlotsAreCounted(keep: Rows.Row -> bool, as_: seq<Action>)
    ensures var st := Run(keep, INITIAL, as_);
            && Inv(st)
            && st.slots == |st.pending| + |Holding(st.phase)| && 0 <= st.slots <= 8
            && (forall s :: s in st.fol ==> st.fol[s] in Holding(st.phase) && st.fol[s] in st.owner && st.owner[st.fol[s]] == s)
    decreases |as_|
  {
    hide Do;
    if as_ == [] {
      assert Holding(map[]) == {};
    } else {
      SlotsAreCounted(keep, as_[..|as_| - 1]);
      StepKeepsInv(keep, Run(keep, INITIAL, as_[..|as_| - 1]), as_[|as_| - 1]);
    }
  }

  // ------------------------------------------------------------------ whose rows

  // Started once, and not (or no longer) the current follower of its session.
  predicate Retired(st: State, f: Follower) {
    f in st.owner && !Current(st, f)
  }

  lemma {:induction false} OwnerStays(keep: Rows.Row -> bool, st: State, a: Action, f: Follower)
    requires Inv(st) && f in st.owner
    ensures var to := Do(keep, st, a);
            f in to.owner && to.owner[f] == st.owner[f] && st.cancelled <= to.cancelled
  {
    hide Slotted, Attended, Exclusive, Alive, Current, Locked, In, Rows.ApplyFrame, Rows.Apply, Rows.Older, RowsOf;
  }

  // Only a start makes a follower current, and only a new one.
  lemma {:induction false} NewIsCurrent(keep: Rows.Row -> bool, st: State, a: Action, s: Sess)
    requires s in Do(keep, st, a).fol
    ensures Do(keep, st, a).fol[s] == st.next || (s in st.fol && Do(keep, st, a).fol[s] == st.fol[s])
  {
    hide Locked, Current, In, Rows.ApplyFrame, Rows.Apply, Rows.Older, RowsOf;
  }

  lemma {:induction false} BelowNext(st: State, f: Follower)
    requires Inv(st) && f in st.owner
    ensures f < st.next
  {
    hide Slotted, Attended, Exclusive, Alive;
  }

  lemma {:induction false} RetiredStep(keep: Rows.Row -> bool, st: State, a: Action, f: Follower)
    requires Inv(st) && Retired(st, f)
    ensures Retired(Do(keep, st, a), f) && Do(keep, st, a).owner[f] == st.owner[f]
  {
    hide Do, Inv;
    OwnerStays(keep, st, a, f);
    BelowNext(st, f);
    var to, s := Do(keep, st, a), st.owner[f];
    if s in to.fol {
      NewIsCurrent(keep, st, a, s);
    }
  }

  /** A follower that was replaced, stopped or let go is never current again, so none of its frames is
      ever merged: not now and not after any further steps. */
  lemma {:induction false} RetiredForGood(keep: Rows.Row -> bool, st: State, as_: seq<Action>, f: Follower,
                                         frame: Rows.Frame, moves: bool)
    requires Inv(st) && Retired(st, f)
    ensures var later := Run(keep, st, as_);
            Inv(later) && Retired(later, f) && Do(keep, later, Take(f, frame, moves)) == later
    decreases |as_|
  {
    if as_ != [] {
      var front, a := as_[..|as_| - 1], as_[|as_| - 1];
      RetiredForGood(keep, st, front, f, frame, moves);
      RetiredStep(keep, Run(keep, st, front), a, f);
      StepKeepsInv(keep, Run(keep, st, front), a);
    }
    hide Do, Inv;
    TakeNeedsCurrent(keep, Run(keep, st, as_), f, frame, moves);
  }

  lemma {:induction false} TakeNeedsCurrent(keep: Rows.Row -> bool, st: State, f: Follower, frame: Rows.Frame, moves: bool)
    ensures !Current(st, f) ==> Do(keep, st, Take(f, frame, moves)) == st
  {
  }

  predicate MayTouch(st: State, a: Action, s: Sess) {
    match a
    case Take(f, frame, moves) => Current(st, f) && st.owner[f] == s
    case Reopen(t, tl, cleared) => t == s
    case Poll(t, tl) => t == s && s in st.cursor
    case Page(t, older) => t == s
    case Clear(t) => t == s
    case ClearCache(f) => In(st, f, Clearing) && st.owner[f] == s
    case _ => false
  }

  // The rows and the cursor of a session change only by its current follower's frames, its own reads and
  // a loop's reaction to a resync.
  lemma {:induction false} WhoTouchesRows(keep: Rows.Row -> bool, st: State, a: Action, s: Sess)
    ensures MayTouch(st, a, s)
            || ((s in st.cursor) == (s in Do(keep, st, a).cursor) && RowsOf(st, s) == RowsOf(Do(keep, st, a), s))
  {
    hide Holding, Rows.ApplyFrame, Rows.Apply, Rows.Older;
  }

  // The step is one of f's own: of its process, its loop or its watchdog.
  predicate StepOf(a: Action, f: Follower) {
    match a
    case GoLive(g) => g == f
    case Take(g, frame, moves) => g == f
    case RunEnds(g, resync) => g == f
    case ClearCache(g) => g == f
    case GiveUp(g) => g == f
    case Idle(g) => g == f
    case Cancel(g) => g == f
    case Cleanup(g) => g == f
    case Release(g) => g == f
    case _ => false
  }

  /** A follower that is not current changes what its session has cached in one case only: its loop
      reacts to a resync, and there is something to forget. */
  lemma {:induction false} RetiredTouchesIff(keep: Rows.Row -> bool, st: State, a: Action, f: Follower)
    requires Retired(st, f) && StepOf(a, f)
    ensures var s, after := st.owner[f], Do(keep, st, a);
            (RowsOf(after, s) != RowsOf(st, s) || (s in after.cursor) != (s in st.cursor))
            <==> a.ClearCache? && In(st, f, Clearing) && !Locked(st, s)
                 && (RowsOf(st, s) != [] || s in st.cursor)
  {
    hide Rows.ApplyFrame, Rows.Apply, Rows.Older;
  }

  // The reaction to a resync does not ask whether the follower is still current: whenever the session is
  // reopened between the end of the run and that reaction, the fresh rows are dropped.
  lemma {:induction false} LateClear(keep: Rows.Row -> bool, st: State, s: Sess, tl: Rows.Timeline, cleared: bool)
    requires s in st.fol && Current(st, st.fol[s]) && st.owner[st.fol[s]] == s && In(st, st.fol[s], Running)
    requires !Locked(st, s) && st.fol[s] !in st.cancelled
    ensures var f := st.fol[s];
            var reopened := Do(keep, Do(keep, st, RunEnds(f, true)), Reopen(s, tl, cleared));
            var late := Do(keep, reopened, ClearCache(f));
            && Retired(reopened, f) && RowsOf(reopened, s) == Rows.Apply(keep, [], tl) && (tl.through != "" ==> s in reopened.cursor)
            && RowsOf(late, s) == [] && s !in late.cursor
  {
    hide Rows.ApplyFrame, Rows.Apply, Rows.Older;
    var f := st.fol[s];
    var ended := Do(keep, st, RunEnds(f, true));
    assert ended.phase[f] == Clearing && ended.fol == st.fol && ended.owner == st.owner && !Locked(ended, s);
    var reopened := Do(keep, ended, Reopen(s, tl, cleared));
    assert reopened.phase == ended.phase && reopened.owner == st.owner && s !in reopened.fol && !Locked(reopened, s);
  }

  // What a session's own reads leave, its lock being free.
  lemma {:induction false} ReadsLeave(keep: Rows.Row -> bool, st: State, s: Sess, tl: Rows.Timeline, older: seq<Rows.Row>, cleared: bool)
    requires !Locked(st, s)
    ensures var to := Do(keep, st, Clear(s)); RowsOf(to, s) == [] && s !in to.cursor && s !in to.fol
    ensures var to := Do(keep, st, Reopen(s, tl, cleared));
            RowsOf(to, s) == Rows.Apply(keep, [], tl) && s !in to.fol
            && (s in to.cursor <==> tl.through != "" || (s in st.cursor && !cleared))
    ensures s in st.cursor ==> RowsOf(Do(keep, st, Poll(s, tl)), s) == Rows.Apply(keep, RowsOf(st, s), tl)
    ensures RowsOf(Do(keep, st, Page(s, older)), s) == Rows.Older(keep, RowsOf(st, s), older) + RowsOf(st, s)
  {
    hide Rows.Apply, Rows.Older;
  }

  // ------------------------------------------------------------------ nothing runs on unminded

  // A loop that may still start a process belongs to its session's current follower, or is cancelled, or
  // its watchdog is about to cancel it.
  ghost predicate Minded(st: State) {
    forall f :: f in st.phase && st.phase[f] in {Running, Clearing} ==> Current(st, f) || f in st.cancelled || f in st.due
  }

  // What minding a loop takes: its session's current follower, its phase, and who is cancelled or about to be.
  lemma {:induction false} MindedAlike(st: State, to: State)
    requires Minded(st) && to.fol == st.fol && to.owner == st.owner && st.cancelled + st.due <= to.cancelled + to.due
    requires forall f :: f in to.phase && to.phase[f] in {Running, Clearing} ==> f in st.phase && st.phase[f] in {Running, Clearing}
    ensures Minded(to)
  {
    forall f | f in to.phase && to.phase[f] in {Running, Clearing} ensures Current(to, f) || f in to.cancelled || f in to.due {
      assert f in st.cancelled || f in st.due ==> f in st.cancelled + st.due;
    }
  }

  // The session's follower is let go, but cancelled, about to be, or past its last run.
  lemma {:induction false} MindedWithout(st: State, s: Sess, to: State)
    requires Minded(st) && to.fol == st.fol - {s} && to.owner == st.owner && to.phase == st.phase
    requires st.cancelled <= to.cancelled && st.due <= to.due
    requires s in st.fol ==> st.fol[s] in to.cancelled || st.fol[s] in to.due
    ensures Minded(to)
  {
  }

  lemma {:induction false} MindedStart(st: State, s: Sess)
    requires Inv(st) && Minded(st)
    ensures Minded(Started(st, s))
  {
    hide Slotted, Alive, Attended, Holding;
  }

  lemma {:induction false} MindedCleanup(st: State, f: Follower)
    requires Minded(st)
    ensures Minded(CleanedUp(st, f))
  {
    hide Locked;
  }

  lemma {:induction false} MindedStop(keep: Rows.Row -> bool, st: State, a: Action)
    requires Minded(st) && (a.Stop? || a.Reopen? || a.Clear?)
    ensures Minded(Do(keep, st, a))
  {
    hide Minded, Locked, Rows.Apply;
    if !Locked(st, a.s) {
      assert st.fol - {a.s} == if a.s in st.fol then st.fol - {a.s} else st.fol;
      MindedWithout(st, a.s, Do(keep, st, a));
    }
  }

  lemma {:induction false} MindedIdle(st: State, f: Follower)
    requires Minded(st)
    ensures Minded(LetGone(st, f))
  {
    hide Minded, Locked;
    if f in st.owner && !Locked(st, st.owner[f]) {
      if Current(st, f) {
        MindedWithout(st, st.owner[f], LetGone(st, f));
      } else {
        MindedAlike(st, LetGone(st, f));
      }
    }
  }

  lemma {:induction false} MindedSame(st: State, to: State)
    requires Minded(st) && to.fol == st.fol && to.owner == st.owner && to.phase == st.phase
    requires to.cancelled == st.cancelled && to.due == st.due
    ensures Minded(to)
  {
  }

  lemma {:induction false} MindedEnding(keep: Rows.Row -> bool, st: State, a: Action)
    requires Minded(st) && (a.RunEnds? || a.ClearCache? || a.GiveUp? || a.Release? || a.Cancel?)
    ensures Minded(Do(keep, st, a))
  {
    hide Minded, Locked, Current;
    MindedAlike(st, Do(keep, st, a));
  }

  lemma {:induction false} MindedSlots(st: State, s: Sess)
    requires Minded(st)
    ensures Minded(Probed(st, s)) && Minded(Swapped(st, s))
  {
    hide Minded, Locked;
    MindedSame(st, Probed(st, s));
    MindedSame(st, Swapped(st, s));
  }

  lemma {:induction false} MindedRows(st: State, rows: map<Sess, seq<Rows.Row>>, cursor: set<Sess>, live: set<Follower>)
    requires Minded(st)
    ensures Minded(st.(rows := rows, cursor := cursor, live := live))
  {
    MindedSame(st, st.(rows := rows, cursor := cursor, live := live));
  }

  lemma {:induction false} MindedStep(keep: Rows.Row -> bool, st: State, a: Action)
    requires Inv(st) && Minded(st)
    ensures Minded(Do(keep, st, a))
  {
    hide Inv, Minded, Started, Stopped, CleanedUp, LetGone, Probed, Swapped, Locked, Rows.ApplyFrame, Rows.Apply, Rows.Older, RowsOf;
    match a {
      case Start(s) => MindedStart(st, s);
      case Idle(f) => MindedIdle(st, f);
      case Cleanup(f) => MindedCleanup(st, f);
      case Stop(_) => MindedStop(keep, st, a);
      case Reopen(_, _, _) => MindedStop(keep, st, a);
      case Clear(_) => MindedStop(keep, st, a);
      case RunEnds(_, _) => MindedEnding(keep, st, a);
      case ClearCache(_) => MindedEnding(keep, st, a);
      case GiveUp(_) => MindedEnding(keep, st, a);
      case Cancel(_) => MindedEnding(keep, st, a);
      case Release(_) => MindedEnding(keep, st, a);
      case Probe(s) => MindedSlots(st, s);
      case Swap(s) => MindedSlots(st, s);
      case _ =>
        var to := Do(keep, st, a);
        MindedRows(st, to.rows, to.cursor, to.live);
    }
  }

  /** In every interleaving: a loop that may start a process again is that of its session's current
      follower, or it is cancelled, or its watchdog is about to cancel it. */
  lemma {:induction false} EveryLoopIsMinded(keep: Rows.Row -> bool, as_: seq<Action>, f: Follower)
    ensures var st := Run(keep, INITIAL, as_);
            In(st, f, Running) || In(st, f, Clearing)
            ==> (st.owner[f] in st.fol && st.fol[st.owner[f]] == f) || f in st.cancelled || f in st.due
  {
    AllMinded(keep, as_);
  }

  lemma {:induction false} AllMinded(keep: Rows.Row -> bool, as_: seq<Action>)
    ensures Inv(Run(keep, INITIAL, as_)) && Minded(Run(keep, INITIAL, as_))
    decreases |as_|
  {
    SlotsAreCounted(keep, as_);
    if as_ != [] {
      AllMinded(keep, as_[..|as_| - 1]);
      MindedStep(keep, Run(keep, INITIAL, as_[..|as_| - 1]), as_[|as_| - 1]);
    }
    hide Do, Inv, Minded;
  }

  // A step that takes a session's follower away: a stop, a reopening or a failed read.
  predicate Stops(a: Action, s: Sess) {
    match a
    case Stop(t) => t == s
    case Reopen(t, tl, cleared) => t == s
    case Clear(t) => t == s
    case _ => false
  }

  function Rank(p: Phase): nat {
    match p
    case Running => 0
    case Clearing => 1
    case Leaving => 2
    case Left => 3
    case Gone => 4
  }

  lemma {:induction false} PhaseAdvances(keep: Rows.Row -> bool, st: State, a: Action, f: Follower)
    requires Inv(st) && f in st.owner
    ensures var to := Do(keep, st, a);
            f in st.phase && f in to.phase && Rank(to.phase[f]) >= Rank(st.phase[f])
  {
    hide Slotted, Attended, Exclusive, Alive, Current, Locked, Rows.ApplyFrame, Rows.Apply, Rows.Older, RowsOf;
  }

  lemma {:induction false} CancelledStays(keep: Rows.Row -> bool, st: State, a: Action, f: Follower)
    requires Inv(st) && f in st.cancelled && f in st.owner
    ensures var to := Do(keep, st, a);
            && f in to.cancelled && f in to.owner && to.owner[f] == st.owner[f] && f in st.phase && f in to.phase
            && Rank(to.phase[f]) >= Rank(st.phase[f])
  {
    hide Do, Inv, Rank;
    OwnerStays(keep, st, a, f);
    PhaseAdvances(keep, st, a, f);
  }

  lemma {:induction false} CancelledForGood(keep: Rows.Row -> bool, st: State, as_: seq<Action>, f: Follower)
    requires Inv(st) && f in st.cancelled && f in st.owner
    ensures var later := Run(keep, st, as_);
            && Inv(later) && f in later.cancelled && f in later.owner && later.owner[f] == st.owner[f]
            && f in st.phase && f in later.phase && Rank(later.phase[f]) >= Rank(st.phase[f])
    decreases |as_|
  {
    if as_ != [] {
      var front, a := as_[..|as_| - 1], as_[|as_| - 1];
      CancelledForGood(keep, st, front, f);
      CancelledStays(keep, Run(keep, st, front), a, f);
      StepKeepsInv(keep, Run(keep, st, front), a);
    }
    hide Do, Slotted, Attended, Exclusive, Alive;
  }

  lemma {:induction false} StopCancels(keep: Rows.Row -> bool, st: State, a: Action, s: Sess)
    requires Inv(st) && s in st.fol && !Locked(st, s) && Stops(a, s)
    ensures var to := Do(keep, st, a);
            st.fol[s] in to.cancelled && st.fol[s] in to.owner && to.owner[st.fol[s]] == s && s !in to.fol && to.phase == st.phase
  {
    hide Slotted, Alive, Exclusive, Rows.ApplyFrame, Rows.Apply, Rows.Older, RowsOf;
  }

  // The end of a cancelled loop's run, its cleanup and its release.
  lemma {:induction false} CancelledLeaves(keep: Rows.Row -> bool, st: State, f: Follower, resync: bool)
    requires Inv(st) && f in st.cancelled && In(st, f, Running)
    ensures var to := Do(keep, st, RunEnds(f, resync)); In(to, f, Leaving) && f !in to.live && to.slots == st.slots
  {
    hide Inv;
  }

  lemma {:induction false} LeavingGivesBack(keep: Rows.Row -> bool, st: State, f: Follower)
    requires Inv(st) && In(st, f, Leaving) && !Locked(st, st.owner[f])
    ensures var left := Do(keep, st, Cleanup(f));
            In(left, f, Left) && var over := Do(keep, left, Release(f)); In(over, f, Gone) && over.slots == st.slots - 1
  {
    hide Inv;
  }

  /** A follower whose session is stopped, reopened or cleared is cancelled at once and stays so. Whatever
      happens in between, its run when it ends is its last, whether it asked for a resync or not, and after
      its cleanup and its release its slot is free again. */
  lemma {:induction false} StoppedGivesBack(keep: Rows.Row -> bool, st: State, a: Action, s: Sess, as_: seq<Action>, resync: bool)
    requires Inv(st) && s in st.fol && !Locked(st, s) && Stops(a, s)
    ensures var f, later := st.fol[s], Run(keep, Do(keep, st, a), as_);
            && s !in Do(keep, st, a).fol && f in later.cancelled && Retired(later, f)
            && (In(later, f, Running) ==>
                  var ended := Do(keep, later, RunEnds(f, resync));
                  && In(ended, f, Leaving) && f !in ended.live
                  && (!Locked(ended, s) ==>
                        var over := Do(keep, Do(keep, ended, Cleanup(f)), Release(f));
                        In(over, f, Gone) && over.slots == later.slots - 1))
  {
    hide Do, Inv;
    var f, to := st.fol[s], Do(keep, st, a);
    StopCancels(keep, st, a, s);
    StepKeepsInv(keep, st, a);
    CancelledForGood(keep, to, as_, f);
    RetiredForGood(keep, to, as_, f, Rows.Resync, false);
    var later := Run(keep, to, as_);
    if In(later, f, Running) {
      CancelledLeaves(keep, later, f, resync);
      var ended := Do(keep, later, RunEnds(f, resync));
      StepKeepsInv(keep, later, RunEnds(f, resync));
      CancelledStays(keep, later, RunEnds(f, resync), f);
      if !Locked(ended, s) {
        LeavingGivesBack(keep, ended, f);
      }
    }
  }

  lemma {:induction false} StartedRuns(st: State, s: Sess)
    requires s in st.pending
    ensures var to, f := Started(st, s), st.next; Current(to, f) && to.owner[f] == s && In(to, f, Running)
  {
  }

  // ------------------------------------------------------------------ the store

  class Store {
    const keep: Rows.Row -> bool
    var nFollowers: int
    var fol: map<Sess, Follower>
    var owner: map<Follower, Sess>
    var phase: map<Follower, Phase>
    var live: set<Follower>
    var cancelled: set<Follower>
    var due: set<Follower>
    var probing: map<Sess, int>
    var pending: set<Sess>
    var rows: map<Sess, seq<Rows.Row>>
    var cursor: set<Sess>
    var next: Follower

    ghost function View(): State
      reads this
    {
      State(nFollowers, fol, owner, phase, live, cancelled, due, probing, pending, rows, cursor, next)
    }

    ghost predicate Valid()
      reads this
    {
      Inv(View())
    }

    constructor (keep: Rows.Row -> bool)
      ensures Valid() && View() == INITIAL && this.keep == keep
    {
      this.keep := keep;
      nFollowers, fol, owner, phase, live, cancelled, due := 0, map[], map[], map[], {}, {}, {};
      probing, pending, rows, cursor, next := map[], {}, map[], {}, 0;
      new;
      SlotsAreCounted(keep, []);
    }

    // acquireFollower, up to the load of the counter.
    method Probe(s: Sess)
      requires Valid()
      modifies this`probing
      ensures Valid() && View() == Probed(old(View()), s)
      ensures s in probing <==> s in old(probing) || (s !in pending && s !in fol && s in cursor)
    {
      ProbeKeepsInv(View(), s);
      hide Inv;
      if !(s in probing || s in pending) && s !in fol && s in cursor {
        probing := probing[s := nFollowers];
      }
    }

    // One turn of acquireFollower's loop: the compare-and-swap, or the next load.
    method Swap(s: Sess) returns (done: bool, acquired: bool)
      requires Valid() && s in probing
      modifies this`nFollowers, this`probing, this`pending
      ensures Valid() && View() == Swapped(old(View()), s)
      ensures acquired == (s in pending && s !in old(pending)) && done == (s !in probing)
      ensures acquired ==> old(nFollowers) < 8
    {
      hide Inv, Exclusive;
      SwapKeepsInv(View(), s);
      NotPending(View(), s);
      var n := probing[s];
      if n >= MAX_FOLLOWERS {
        probing := probing - {s};
        return true, false;
      }
      if nFollowers == n {
        nFollowers, probing, pending := n + 1, probing - {s}, pending + {s};
        return true, true;
      }
      probing := probing[s := nFollowers];
      return false, false;
    }

    method Start(s: Sess) returns (f: Follower)
      requires Valid() && s in pending
      modifies this`fol, this`owner, this`phase, this`pending, this`next
      ensures Valid() && View() == Started(old(View()), s) && f == old(next)
      ensures s !in pending && fol == old(fol)[s := f] && Current(View(), f) && owner[f] == s && In(View(), f, Running)
    {
      hide Inv, Locked, Current, In;
      StartKeepsInv(View(), s);
      StartedRuns(View(), s);
      ghost var after := Started(View(), s);
      f := next;
      next := next + 1;
      pending := pending - {s};
      fol, owner, phase := fol[s := f], owner[f := s], phase[f := Running];
      assert View() == after;
    }

    method StopFollow(s: Sess)
      requires Valid() && !Locked(View(), s)
      modifies this`fol, this`cancelled
      ensures Valid() && View() == Stopped(old(View()), s)
      ensures fol == old(fol) - {s} && cancelled == old(cancelled) + if s in old(fol) then {old(fol)[s]} else {}
    {
      StopKeepsInv(View(), s, rows, cursor);
      hide Inv;
      if s in fol {
        cancelled := cancelled + {fol[s]};
        fol := fol - {s};
      }
    }

    // cancelFollowOf, in its two sections.
    method LetGo(f: Follower)
      requires Valid() && f in owner && !Locked(View(), owner[f])
      modifies this`fol, this`due
      ensures Valid() && View() == LetGone(old(View()), f)
      ensures owner[f] in fol ==> fol[owner[f]] != f
    {
      IdleKeepsInv(View(), f);
      hide Inv;
      var s := owner[f];
      if s in fol && fol[s] == f {
        fol := fol - {s};
      }
      due := due + {f};
    }

    method CancelDue(f: Follower)
      requires Valid() && f in due
      modifies this`cancelled, this`due
      ensures Valid() && View() == Do(keep, old(View()), Cancel(f)) && f in cancelled
    {
      StepKeepsInv(keep, View(), Cancel(f));
      hide Inv;
      cancelled := cancelled + {f};
      due := due - {f};
    }

    // One frame of f's process; a follower that is not current merges nothing.
    method TakeFrame(f: Follower, frame: Rows.Frame, moves: bool) returns (stale: bool, resync: bool)
      requires Valid() && In(View(), f, Running) && f in live && !Locked(View(), owner[f])
      modifies this`rows, this`cursor
      ensures Valid() && View() == Taken(keep, old(View()), f, frame, moves)
      ensures stale == !Current(old(View()), f) && resync == (!stale && frame.Resync?)
      ensures stale ==> rows == old(rows) && cursor == old(cursor)
      ensures var s := owner[f];
              !stale ==> rows == old(rows)[s := Rows.ApplyFrame(keep, RowsOf(old(View()), s), frame)]
                         && cursor == old(cursor) + if moves && !resync then {s} else {}
    {
      StepKeepsInv(keep, View(), Take(f, frame, moves));
      hide Inv, Rows.ApplyFrame;
      var s := owner[f];
      stale := s !in fol || fol[s] != f;
      resync := false;
      if !stale {
        rows := rows[s := Rows.ApplyFrame(keep, if s in rows then rows[s] else [], frame)];
        resync := frame.Resync?;
        if moves && !resync {
          cursor := cursor + {s};
        }
      }
    }

    // The run is over: what the loop does next.
    method RunEnded(f: Follower, resync: bool)
      requires Valid() && In(View(), f, Running)
      modifies this`live, this`phase
      ensures Valid() && View() == Ended(old(View()), f, resync)
      ensures f !in live && In(View(), f, if f in cancelled then Leaving else if resync then Clearing else Running)
    {
      EndingsKeepInv(View(), f, resync);
      hide Inv;
      live := live - {f};
      if f in cancelled {
        phase := phase[f := Leaving];
      } else if resync {
        phase := phase[f := Clearing];
      }
    }

    method DropCache(f: Follower)
      requires Valid() && In(View(), f, Clearing) && !Locked(View(), owner[f])
      modifies this`rows, this`cursor, this`phase
      ensures Valid() && View() == Cleared(old(View()), f)
      ensures rows == old(rows) - {owner[f]} && cursor == old(cursor) - {owner[f]} && In(View(), f, Leaving)
    {
      EndingsKeepInv(View(), f, false);
      hide Inv;
      rows, cursor := rows - {owner[f]}, cursor - {owner[f]};
      phase := phase[f := Leaving];
    }

    // The loop's deferred cleanup, and then its slot.
    method CleanUp(f: Follower)
      requires Valid() && In(View(), f, Leaving) && !Locked(View(), owner[f])
      modifies this`live, this`phase, this`fol
      ensures Valid() && View() == CleanedUp(old(View()), f)
      ensures In(View(), f, Left) && f !in live && !Current(View(), f)
      ensures forall s :: s in old(fol) && old(fol)[s] != f ==> s in fol && fol[s] == old(fol)[s]
    {
      CleanupKeepsInv(View(), f);
      hide Inv;
      var s := owner[f];
      live := live - {f};
      if s in fol && fol[s] == f {
        fol := fol - {s};
      }
      phase := phase[f := Left];
    }

    method ReleaseFollower(f: Follower)
      requires Valid() && In(View(), f, Left)
      modifies this`nFollowers, this`phase
      ensures Valid() && View() == Released(old(View()), f)
      ensures nFollowers == old(nFollowers) - 1 && In(View(), f, Gone)
    {
      ReleaseKeepsInv(View(), f);
      hide Inv;
      nFollowers := nFollowers - 1;
      phase := phase[f := Gone];
    }
  }

  // ------------------------------------------------------------------ restarts

  // Milliseconds. fast counts the quick exits in a row; a blocked loop has given up.
  datatype Restart = Restart(backoff: nat, fast: nat, blocked: bool)

  const FIRST := Restart(1000, 0, false)

  // A process that ended after running ms: how long the loop now waits, if it goes on.
  function AfterExit(r: Restart, ran: nat): (p: (Restart, nat)) {
    var q := if ran < 3000 then r.(fast := r.fast + 1) else Restart(1000, 0, false);
    if q.fast >= 3 then (q.(blocked := true), 0)
    else (q.(backoff := if q.backoff * 2 > 30000 then 30000 else q.backoff * 2), q.backoff)
  }

  function AfterExits(runs: seq<nat>): Restart {
    if runs == [] then FIRST
    else
      var r := AfterExits(runs[..|runs| - 1]);
      if r.blocked then r else AfterExit(r, runs[|runs| - 1]).0
  }

  // The last three processes all ended quickly.
  predicate KeepsDying(runs: seq<nat>) {
    |runs| >= 3 && runs[|runs| - 1] < 3000 && runs[|runs| - 2] < 3000 && runs[|runs| - 3] < 3000
  }

  ghost predicate EverDying(runs: seq<nat>) {
    exists n :: 0 <= n <= |runs| && KeepsDying(runs[..n])
  }

  lemma {:induction false} EverDyingStep(runs: seq<nat>)
    requires runs != []
    ensures EverDying(runs) <==> EverDying(runs[..|runs| - 1]) || KeepsDying(runs)
  {
    hide KeepsDying;
    var front := runs[..|runs| - 1];
    assert forall n :: 0 <= n <= |front| ==> front[..n] == runs[..n];
    assert runs[..|runs|] == runs;
    if n :| 0 <= n <= |front| && KeepsDying(front[..n]) {
      assert KeepsDying(runs[..n]);
    }
  }

  /** Over any run lengths: the loop gives up at the third quick exit in a row and never before, and no
      wait is longer than four seconds, so the thirty-second ceiling is out of reach. */
  lemma {:induction false} WaitsStayShort(runs: seq<nat>, ran: nat)
    ensures var r := AfterExits(runs);
            && (r.blocked <==> EverDying(runs))
            && (!r.blocked ==>
                  && r.fast <= 2 && r.backoff <= 8000
                  && (r.fast == 0 ==> r.backoff <= 2000) && (r.fast == 1 ==> r.backoff <= 4000)
                  && r.fast <= |runs| && (forall k :: |runs| - r.fast <= k < |runs| ==> runs[k] < 3000)
                  && (|runs| > r.fast ==> runs[|runs| - 1 - r.fast] >= 3000)
                  && AfterExit(r, ran).1 <= 4000)
    decreases |runs|
  {
    if runs == [] {
    } else {
      hide EverDying;
      var front := runs[..|runs| - 1];
      WaitsStayShort(front, ran);
      EverDyingStep(runs);
      var r := AfterExits(front);
      assert !r.blocked ==> (KeepsDying(runs) <==> r.fast == 2 && runs[|runs| - 1] < 3000);
    }
  }
}
