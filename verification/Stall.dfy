/** Stall detection over pane observations and the once-per-freeze notification latch
    (activitycache.go, watcher.go). Times are seconds; 0 is the zero time. */
module Stall {
  import opened Messages

  const NOTIFY_AFTER: nat := 300

  // One parsed pane. keySet: the stall key is given apart from the label.
  datatype Reading = Reading(working: bool, activity: string, tool: string, keySet: bool, key: string, replayed: bool, at: nat)

  // Every harness labels working panes only (activity.go parseActivity, codex_rollout.go project,
  // harness_pi.go activityAt, harness_opencode.go Snapshot).
  type Obs = r: Reading | r.working || r.activity == "" witness Reading(false, "", "", false, "", false, 0)

  datatype Act = Act(working: bool, activity: string, tool: string, stalled: bool, last: string, same: nat,
                     changedAt: nat, updatedAt: nat, observedAt: nat)

  const NOTHING := Act(false, "", "", false, "", 0, 0, 0, 0)

  function KeyOf(o: Obs): string {
    if o.keySet then o.key else o.activity
  }

  function StepStall(threshold: int, prev: Act, o: Obs): Act {
    var observedAt := if o.replayed then prev.observedAt else o.at;
    if !o.working then Act(false, o.activity, o.tool, false, o.activity, 0, o.at, o.at, observedAt)
    else
      var key := KeyOf(o);
      var unmoved := key != "" && key == prev.last;
      var same := if unmoved then prev.same + 1 else 1;
      var changedAt := if unmoved && prev.changedAt != 0 then prev.changedAt else o.at;
      Act(true, o.activity, o.tool, key != "" && same >= threshold, key, same, changedAt, o.at, observedAt)
  }

  function After(threshold: int, os: seq<Obs>): Act {
    if os == [] then NOTHING else StepStall(threshold, After(threshold, os[..|os| - 1]), os[|os| - 1])
  }

  // ------------------------------------------------------------------ frozen runs

  // The last n observations are working with one non-empty key.
  predicate Frozen(os: seq<Obs>, n: nat) {
    n <= |os| && (forall i :: |os| - n <= i < |os| ==> os[i].working && KeyOf(os[i]) == KeyOf(os[|os| - 1]) && KeyOf(os[i]) != "")
  }

  // The length of the longest such run.
  function RunLength(os: seq<Obs>): (n: nat)
    ensures n <= |os|
  {
    if os == [] || !os[|os| - 1].working || KeyOf(os[|os| - 1]) == "" then 0
    else
      var front := os[..|os| - 1];
      var n := RunLength(front);
      if n > 0 && KeyOf(front[|front| - 1]) == KeyOf(os[|os| - 1]) then n + 1 else 1
  }

  lemma {:induction false} RunIsLongest(os: seq<Obs>, n: nat)
    ensures Frozen(os, RunLength(os))
    ensures n > 0 && Frozen(os, n) ==> n <= RunLength(os)
    decreases |os|
  {
    if os != [] {
      var front, last := os[..|os| - 1], os[|os| - 1];
      RunIsLongest(front, if n > 0 then n - 1 else 0);
      assert forall i :: 0 <= i < |front| ==> front[i] == os[i];
      if n > 1 && Frozen(os, n) {
        assert front[|front| - 1] == os[|os| - 2];
        assert Frozen(front, n - 1);
      }
    }
  }

  predicate Timed(os: seq<Obs>) {
    forall i :: 0 <= i < |os| ==> os[i].at > 0
  }

  lemma {:induction false} CountIsRunLength(threshold: int, os: seq<Obs>)
    requires Timed(os)
    ensures var st := After(threshold, os);
            && (os != [] && os[|os| - 1].working ==>
                  st.last == KeyOf(os[|os| - 1]) && (st.last != "" ==> st.same == RunLength(os)) && (st.last == "" ==> RunLength(os) == 0))
            && (os != [] && !os[|os| - 1].working ==>
                  st.same == 0 && st.last == "" && RunLength(os) == 0)
            && (os != [] ==> st.changedAt > 0)
            && (RunLength(os) > 0 ==> st.changedAt == os[|os| - RunLength(os)].at)
    decreases |os|
  {
    if os != [] {
      CountIsRunLength(threshold, os[..|os| - 1]);
    }
  }

  function AtLeastOne(threshold: int): nat {
    if threshold < 1 then 1 else threshold
  }

  lemma {:induction false} StalledByRun(threshold: int, os: seq<Obs>)
    requires Timed(os)
    ensures After(threshold, os).stalled <==> RunLength(os) >= AtLeastOne(threshold)
  {
    CountIsRunLength(threshold, os);
    hide RunLength;
  }

  lemma {:induction false} FrozenShorter(os: seq<Obs>, r: nat, n: nat)
    requires n <= r && Frozen(os, r)
    ensures Frozen(os, n)
  {
  }

  /** A session is stalled exactly when its last max(1, threshold) observations were all working with
      one non-empty key. */
  lemma {:induction false} StalledIff(threshold: int, os: seq<Obs>)
    requires Timed(os)
    ensures After(threshold, os).stalled <==> Frozen(os, AtLeastOne(threshold))
  {
    hide After, RunLength, Frozen;
    var n := AtLeastOne(threshold);
    StalledByRun(threshold, os);
    RunIsLongest(os, n);
    if RunLength(os) >= n {
      FrozenShorter(os, RunLength(os), n);
    }
  }

  /** While the last n observations are frozen, and no longer run of them is, the time of the last
      change is that of the first of them. */
  lemma {:induction false} ChangeIsRunStart(threshold: int, os: seq<Obs>)
    requires Timed(os) && RunLength(os) > 0
    ensures After(threshold, os).changedAt == os[|os| - RunLength(os)].at
  {
    CountIsRunLength(threshold, os);
  }

  // ------------------------------------------------------------------ the latch

  // (push now, latch)
  function ShouldNotify(stalled: bool, isNew: bool, notified: bool, frozen: int): (bool, bool) {
    if !stalled then (false, false)
    else if isNew || notified then (false, true)
    else if frozen < NOTIFY_AFTER then (false, false)
    else (true, true)
  }

  // One sweep of a session: an observation, and whether anyone is to be notified, at its own time.
  datatype Poll = Poll(obs: Obs, watched: bool, at: nat)

  function Observations(ps: seq<Poll>): seq<Obs> {
    seq(|ps|, i requires 0 <= i < |ps| => ps[i].obs)
  }

  // The latch of the session's watch; None before the first watched sweep.
  function Latch(threshold: int, ps: seq<Poll>): Option<bool>
    decreases |ps|, 1
  {
    if ps == [] then None
    else
      var before, p := Latch(threshold, ps[..|ps| - 1]), ps[|ps| - 1];
      if !p.watched then before
      else Some(Decide(threshold, ps).1)
  }

  // What the last sweep decides.
  function Decide(threshold: int, ps: seq<Poll>): (bool, bool)
    requires ps != []
    decreases |ps|, 0
  {
    var before, p := Latch(threshold, ps[..|ps| - 1]), ps[|ps| - 1];
    var st := After(threshold, Observations(ps));
    ShouldNotify(st.stalled, before.None?, before == Some(true), p.at - st.changedAt)
  }

  predicate Pushes(threshold: int, ps: seq<Poll>) {
    ps != [] && ps[|ps| - 1].watched && Decide(threshold, ps).0
  }

  lemma {:induction false} ObservationsFront(ps: seq<Poll>, n: nat)
    requires n <= |ps|
    ensures Observations(ps[..n]) == Observations(ps)[..n]
  {
  }

  lemma {:induction false} LatchedWhileStalled(threshold: int, ps: seq<Poll>, m: nat)
    requires m <= |ps| && Latch(threshold, ps[..m]) == Some(true)
    requires forall k :: m < k <= |ps| ==> After(threshold, Observations(ps[..k])).stalled
    ensures Latch(threshold, ps) == Some(true)
    decreases |ps|
  {
    if m == |ps| {
      assert ps[..m] == ps;
    } else {
      var front := ps[..|ps| - 1];
      assert front[..m] == ps[..m];
      forall k | m < k <= |front| ensures After(threshold, Observations(front[..k])).stalled {
        assert front[..k] == ps[..k];
      }
      LatchedWhileStalled(threshold, front, m);
      assert ps[..|ps|] == ps;
    }
  }

  lemma {:induction false} TimedFront(ps: seq<Poll>, k: nat)
    requires k <= |ps| && Timed(Observations(ps))
    ensures Timed(Observations(ps[..k]))
  {
    assert forall i :: 0 <= i < k ==> Observations(ps[..k])[i] == Observations(ps)[i];
  }

  // Within one frozen run a session once stalled stays stalled.
  lemma {:induction false} RunStaysStalled(threshold: int, ps: seq<Poll>, m: nat, k: nat)
    requires Timed(Observations(ps)) && m <= k <= |ps| && k - m < RunLength(Observations(ps[..k]))
    requires After(threshold, Observations(ps[..m])).stalled
    ensures After(threshold, Observations(ps[..k])).stalled
  {
    hide *;
    assert ps[..k][..m] == ps[..m];
    TimedFront(ps, m);
    TimedFront(ps, k);
    ShorterRun(ps[..k], m);
    StalledByRun(threshold, Observations(ps[..m]));
    StalledByRun(threshold, Observations(ps[..k]));
    ObservationsLength(ps[..k]);
  }

  lemma {:induction false} ObservationsLength(ps: seq<Poll>)
    ensures |Observations(ps)| == |ps|
  {
  }

  lemma {:induction false} PushLatches(threshold: int, ps: seq<Poll>)
    requires Pushes(threshold, ps)
    ensures Latch(threshold, ps) == Some(true) && After(threshold, Observations(ps)).stalled
    ensures Latch(threshold, ps[..|ps| - 1]) == Some(false)
  {
    match Latch(threshold, ps[..|ps| - 1])
    case None =>
    case Some(latched) => assert !latched;
  }

  /** At most one push per frozen run: once pushed, no later sweep of the same run pushes again. */
  lemma {:induction false} OnePushPerRun(threshold: int, ps: seq<Poll>, m: nat)
    requires Timed(Observations(ps)) && 0 < m < |ps| && |ps| - m < RunLength(Observations(ps))
    requires Pushes(threshold, ps[..m])
    ensures !Pushes(threshold, ps)
  {
    hide After, RunLength, Pushes, Decide, Latch;
    PushLatches(threshold, ps[..m]);
    var front := ps[..|ps| - 1];
    assert front[..m] == ps[..m];
    forall k | m < k <= |front| ensures After(threshold, Observations(front[..k])).stalled {
      assert front[..k] == ps[..k];
      ShorterRun(ps, k);
      RunStaysStalled(threshold, ps, m, k);
    }
    LatchedWhileStalled(threshold, front, m);
    if Pushes(threshold, ps) {
      PushLatches(threshold, ps);
    }
  }

  lemma {:induction false} ShorterRun(ps: seq<Poll>, k: nat)
    requires k <= |ps| && |ps| - k < RunLength(Observations(ps))
    ensures RunLength(Observations(ps[..k])) == RunLength(Observations(ps)) - (|ps| - k)
    decreases |ps|
  {
    if k == |ps| {
      assert ps[..k] == ps;
    } else {
      var front := ps[..|ps| - 1];
      ObservationsFront(ps, |ps| - 1);
      assert front[..k] == ps[..k];
      ShorterRun(front, k);
    }
  }

  predicate AllWatched(ps: seq<Poll>) {
    forall i :: 0 <= i < |ps| ==> ps[i].watched
  }

  // One watched sweep that is not the first: what becomes of the latch.
  lemma {:induction false} LatchStep(threshold: int, ps: seq<Poll>)
    requires |ps| > 1 && AllWatched(ps)
    ensures var st, before := After(threshold, Observations(ps)), Latch(threshold, ps[..|ps| - 1]);
            && before.Some?
            && (!st.stalled ==> Latch(threshold, ps) == Some(false))
            && (Latch(threshold, ps) == Some(true) ==> before == Some(true) || Pushes(threshold, ps))
            && (st.stalled && before == Some(false) && ps[|ps| - 1].at - st.changedAt >= 300 ==> Pushes(threshold, ps))
  {
    assert ps[..|ps| - 1][|ps| - 2].watched;
  }

  // A latch set during a run whose start cleared it was set by a push of that run.
  lemma {:induction false} LatchedByPush(threshold: int, ps: seq<Poll>, from: nat) returns (m: nat)
    requires AllWatched(ps) && 0 < from <= |ps|
    requires Latch(threshold, ps[..from]) == Some(false) && Latch(threshold, ps) == Some(true)
    ensures from < m <= |ps| && Pushes(threshold, ps[..m])
    decreases |ps|
  {
    hide Latch, Pushes, After;
    assert ps[..|ps|] == ps;
    if Pushes(threshold, ps) {
      m := |ps|;
      assert ps[..from] == ps || from < |ps|;
    } else {
      var front := ps[..|ps| - 1];
      assert from < |ps|;
      assert front[..from] == ps[..from];
      LatchStep(threshold, ps);
      m := LatchedByPush(threshold, front, from);
      assert front[..m] == ps[..m];
    }
  }

  /** With every sweep watched and a threshold of at least two, a freeze that lasts five minutes is
      pushed, unless the session was first seen in it. */
  lemma {:induction false} LongFreezeIsPushed(threshold: int, ps: seq<Poll>) returns (m: nat)
    requires Timed(Observations(ps)) && AllWatched(ps) && threshold >= 2
    requires threshold <= RunLength(Observations(ps)) < |ps|
    requires ps[|ps| - 1].at >= After(threshold, Observations(ps)).changedAt + 300
    ensures |ps| - RunLength(Observations(ps)) < m <= |ps| && Pushes(threshold, ps[..m])
  {
    hide Latch, Pushes, After, RunLength, Observations;
    var from := |ps| - RunLength(Observations(ps)) + 1;
    var first := ps[..from];
    ObservationsLength(ps);
    ObservationsLength(first);
    ShorterRun(ps, from);
    TimedFront(ps, from);
    StalledByRun(threshold, Observations(first));
    LatchStep(threshold, first);
    StalledByRun(threshold, Observations(ps));
    LatchStep(threshold, ps);
    assert ps[..|ps|] == ps;
    if Pushes(threshold, ps) {
      m := |ps|;
    } else {
      var front := ps[..|ps| - 1];
      assert front[..from] == ps[..from];
      assert Latch(threshold, front).value;
      m := LatchedByPush(threshold, front, from);
      assert front[..m] == ps[..m];
    }
  }

  /** No push before the label has been frozen for five minutes, counted from the first observation of
      the run it is pushed in. */
  lemma {:induction false} PushAfterFiveMinutes(threshold: int, ps: seq<Poll>)
    requires Timed(Observations(ps)) && Pushes(threshold, ps)
    ensures var os := Observations(ps);
            var n := RunLength(os);
            n >= 1 && n >= threshold && ps[|ps| - 1].at >= os[|os| - n].at + 300
  {
    var os := Observations(ps);
    hide After, RunLength, Latch, Timed;
    StalledByRun(threshold, os);
    ChangeIsRunStart(threshold, os);
  }

  // ------------------------------------------------------------------ attention

  datatype Attention = Attention(pending: bool, id: string)

  // (notify, the id remembered)
  function StepAttention(remembered: string, isNew: bool, a: Attention): (bool, string) {
    if !a.pending then (false, "")
    else if remembered == a.id then (false, a.id)
    else (!isNew, a.id)
  }

  function Remembered(seen: seq<Attention>): string {
    if seen == [] then "" else StepAttention(Remembered(seen[..|seen| - 1]), false, seen[|seen| - 1]).1
  }

  // first: the watch was made on the sweep that saw the first of them.
  predicate Notifies(seen: seq<Attention>, first: bool) {
    seen != [] && StepAttention(Remembered(seen[..|seen| - 1]), first && |seen| == 1, seen[|seen| - 1]).0
  }

  /** A notification goes out exactly when a pending id differs from what the previous sweep showed
      pending, first sight of the session aside; so a prompt that stays up notifies once. */
  lemma {:induction false} NotifiesOnChange(seen: seq<Attention>, first: bool)
    requires forall i :: 0 <= i < |seen| && seen[i].pending ==> seen[i].id != ""
    ensures Notifies(seen, first) <==>
            && seen != [] && seen[|seen| - 1].pending
            && if |seen| == 1 then !first
               else !(seen[|seen| - 2].pending && seen[|seen| - 2].id == seen[|seen| - 1].id)
  {
    if |seen| > 1 {
      var front := seen[..|seen| - 1];
      assert front[|front| - 1] == seen[|seen| - 2];
      assert Remembered(front) == if front[|front| - 1].pending then front[|front| - 1].id else "";
    }
  }

  // ------------------------------------------------------------------ the cache and the watch

  class ActivityCache {
    const threshold: int
    var m: map<string, Act>

    constructor (threshold: int)
      ensures this.threshold == threshold && m == map[]
    {
      this.threshold := threshold;
      m := map[];
    }

    method Update(id: string, o: Obs) returns (next: Act)
      modifies this`m
      ensures next == StepStall(threshold, if id in old(m) then old(m)[id] else NOTHING, o)
      ensures m == old(m)[id := next]
    {
      var prev := if id in m then m[id] else NOTHING;
      next := Act(o.working, o.activity, o.tool, false, "", 0, 0, o.at, o.at);
      if o.replayed {
        next := next.(observedAt := prev.observedAt);
      }
      if !o.working {
        next := next.(last := o.activity, same := 0, changedAt := o.at);
        m := m[id := next];
        return;
      }
      var key := if o.keySet then o.key else o.activity;
      if key != "" && key == prev.last {
        next := next.(same := prev.same + 1, changedAt := prev.changedAt);
        if next.changedAt == 0 {
          next := next.(changedAt := o.at);
        }
      } else {
        next := next.(same := 1, changedAt := o.at);
      }
      next := next.(last := key);
      next := next.(stalled := key != "" && next.same >= threshold);
      m := m[id := next];
    }
  }

  // What is remembered of one session between sweeps; polls and seen are what the sweeps showed.
  class Watch {
    const threshold: int
    var stallNotified: bool
    var attentionID: string
    ghost var polls: seq<Poll>
    ghost var seen: seq<Attention>

    ghost predicate Valid()
      reads this
    {
      stallNotified == (Latch(threshold, polls) == Some(true)) && attentionID == Remembered(seen)
    }

    // The session was swept this often before it was first watched.
    constructor (threshold: int, ghost before: seq<Poll>)
      requires forall i :: 0 <= i < |before| ==> !before[i].watched
      ensures Valid() && this.threshold == threshold && polls == before && seen == []
      ensures Latch(threshold, before).None?
    {
      this.threshold := threshold;
      stallNotified, attentionID, polls, seen := false, "", before, [];
      new;
      NeverWatched(threshold, before);
    }

    // st is the state after the sweep's observation; isNew on the first watched sweep.
    method WatchStall(st: Act, isNew: bool, now: nat, ghost poll: Poll) returns (push: bool)
      requires Valid() && poll.watched && poll.at == now
      requires st == After(threshold, Observations(polls + [poll])) && isNew == Latch(threshold, polls).None?
      modifies this`stallNotified, this`polls
      ensures Valid() && polls == old(polls) + [poll] && Latch(threshold, polls).Some?
      ensures push == Pushes(threshold, polls)
      ensures push <==> st.stalled && !isNew && !old(stallNotified) && now >= st.changedAt + 300
    {
      hide After, Observations, Remembered;
      var frozen := now - st.changedAt;
      polls := polls + [poll];
      assert polls[..|polls| - 1] == old(polls);
      if !st.stalled {
        push, stallNotified := false, false;
      } else if isNew || stallNotified {
        push, stallNotified := false, true;
      } else if frozen < NOTIFY_AFTER {
        push, stallNotified := false, false;
      } else {
        push, stallNotified := true, true;
      }
      assert Decide(threshold, polls) == (push, stallNotified);
      assert Latch(threshold, polls) == Some(stallNotified);
    }

    // An observation of the session on a sweep that watches nothing.
    ghost method Skip(poll: Poll)
      requires Valid() && !poll.watched
      modifies this`polls
      ensures Valid() && polls == old(polls) + [poll]
      ensures Latch(threshold, polls) == Latch(threshold, old(polls))
    {
      hide Decide, Remembered;
      polls := polls + [poll];
      assert polls[..|polls| - 1] == old(polls);
    }

    method WatchAttention(a: Attention, isNew: bool) returns (notify: bool)
      requires Valid() && (isNew ==> seen == [])
      modifies this`attentionID, this`seen
      ensures Valid() && seen == old(seen) + [a]
      ensures notify == Notifies(seen, isNew)
    {
      seen := seen + [a];
      assert seen[..|seen| - 1] == old(seen);
      if !a.pending {
        attentionID := "";
        return false;
      }
      if attentionID == a.id {
        return false;
      }
      attentionID := a.id;
      notify := !isNew;
    }
  }

  lemma {:induction false} NeverWatched(threshold: int, ps: seq<Poll>)
    requires forall i :: 0 <= i < |ps| ==> !ps[i].watched
    ensures Latch(threshold, ps).None?
    decreases |ps|
  {
    hide Decide;
    if ps != [] {
      NeverWatched(threshold, ps[..|ps| - 1]);
    }
  }
}
