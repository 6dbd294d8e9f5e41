/** Pacing of tmux execs: a sweep lane, an operator lane and a fault backoff (tmuxbudget.go).

    Times are milliseconds; 0 is the zero time, before every clock reading. */
module TmuxBudget {
  import opened Messages

  const MAX_WAIT: nat := 30000
  const OPERATOR_INTERVAL: nat := 40
  const BACKOFF_MIN: nat := 1000
  const BACKOFF_MAX: nat := 30000

  datatype Gate = Gate(next: nat, opNext: nat, backoff: nat, until: nat)

  const IDLE := Gate(0, 0, 0, 0)

  function Later(a: nat, b: nat): nat {
    if a < b then b else a
  }

  // The slot a sweep caller gets, None when it would start after its limit.
  function SweepSlot(g: Gate, now: nat, deadline: Option<nat>): Option<nat> {
    var slot := Later(Later(now, g.next), g.until);
    var limit := if deadline.Some? && deadline.value < now + MAX_WAIT then deadline.value else now + MAX_WAIT;
    if slot > limit then None else Some(slot)
  }

  function OperatorSlot(g: Gate, now: nat, deadline: Option<nat>): Option<nat> {
    var slot := Later(Later(now, g.opNext), g.until);
    if deadline.Some? && slot > deadline.value then None else Some(slot)
  }

  function AfterFault(g: Gate, now: nat): Gate {
    var backoff := if g.backoff == 0 then BACKOFF_MIN else if g.backoff * 2 > BACKOFF_MAX then BACKOFF_MAX else g.backoff * 2;
    g.(backoff := backoff, until := now + backoff)
  }

  // ------------------------------------------------------------------ runs

  datatype Event =
    | Sweep(now: nat, deadline: Option<nat>)
    | Operator(now: nat, deadline: Option<nat>)
    | Fault(now: nat)
    | Success(now: nat)

  // The gate and the slots granted so far in each lane.
  datatype Run = Run(gate: Gate, sweeps: seq<nat>, operators: seq<nat>)

  function Do(interval: nat, r: Run, e: Event): Run {
    match e
    case Sweep(now, deadline) =>
      (match SweepSlot(r.gate, now, deadline)
       case None => r
       case Some(slot) => r.(gate := r.gate.(next := slot + interval), sweeps := r.sweeps + [slot]))
    case Operator(now, deadline) =>
      (match OperatorSlot(r.gate, now, deadline)
       case None => r
       case Some(slot) => r.(gate := r.gate.(opNext := slot + OPERATOR_INTERVAL), operators := r.operators + [slot]))
    case Fault(now) => r.(gate := AfterFault(r.gate, now))
    case Success(_) => r.(gate := r.gate.(backoff := 0, until := 0))
  }

  function DoAll(interval: nat, es: seq<Event>): Run {
    if es == [] then Run(IDLE, [], []) else Do(interval, DoAll(interval, es[..|es| - 1]), es[|es| - 1])
  }

  // Slots at least interval apart, the next one no earlier than `next`.
  ghost predicate Spaced(slots: seq<nat>, interval: nat, next: nat) {
    && (forall i :: 0 <= i < |slots| - 1 ==> slots[i] + interval <= slots[i + 1])
    && (slots != [] ==> slots[|slots| - 1] + interval <= next)
  }

  lemma {:induction false} SpacedSnoc(slots: seq<nat>, interval: nat, next: nat, slot: nat)
    requires Spaced(slots, interval, next) && slot >= next
    ensures Spaced(slots + [slot], interval, slot + interval)
  {
  }

  lemma {:induction false} LanesAreSpaced(interval: nat, es: seq<Event>)
    ensures var r := DoAll(interval, es);
            Spaced(r.sweeps, interval, r.gate.next) && Spaced(r.operators, OPERATOR_INTERVAL, r.gate.opNext)
    decreases |es|
  {
    if es != [] {
      LanesAreSpaced(interval, es[..|es| - 1]);
      var before, e := DoAll(interval, es[..|es| - 1]), es[|es| - 1];
      if e.Sweep? && SweepSlot(before.gate, e.now, e.deadline).Some? {
        SpacedSnoc(before.sweeps, interval, before.gate.next, SweepSlot(before.gate, e.now, e.deadline).value);
      }
      if e.Operator? && OperatorSlot(before.gate, e.now, e.deadline).Some? {
        SpacedSnoc(before.operators, OPERATOR_INTERVAL, before.gate.opNext, OperatorSlot(before.gate, e.now, e.deadline).value);
      }
      hide Spaced;
    }
  }

  // How many slots start within the window [lo, hi].
  function Within(slots: seq<nat>, lo: nat, hi: nat): nat {
    if slots == [] then 0
    else Within(slots[..|slots| - 1], lo, hi) + if lo <= slots[|slots| - 1] <= hi then 1 else 0
  }

  // n slots in the window, the last of them at least (n - 1) intervals after its start.
  lemma {:induction false} WindowFills(slots: seq<nat>, interval: nat, next: nat, lo: nat, hi: nat)
    requires Spaced(slots, interval, next)
    ensures var n := Within(slots, lo, hi);
            n > 0 ==> (n - 1) * interval <= hi - lo && (slots[|slots| - 1] <= hi ==> lo + (n - 1) * interval <= slots[|slots| - 1])
    decreases |slots|
  {
    if slots != [] {
      var front, last := slots[..|slots| - 1], slots[|slots| - 1];
      if front != [] {
        assert front[|front| - 1] == slots[|slots| - 2];
        WindowFills(front, interval, last, lo, hi);
        var m := Within(front, lo, hi);
        assert m > 0 ==> m * interval == (m - 1) * interval + interval;
      } else {
        assert Within(front, lo, hi) == 0;
      }
    }
  }

  lemma {:induction false} WindowBound(n: nat, interval: nat, width: nat)
    requires interval > 0 && (n > 0 ==> (n - 1) * interval <= width)
    ensures n <= width / interval + 1
  {
    var q := width / interval;
    assert (q + 1) * interval > width;
    Times(q + 1, n - 1, interval);
  }

  lemma {:induction false} Times(a: int, b: int, c: nat)
    ensures a <= b ==> a * c <= b * c
  {
  }

  /** Whatever the callers do: any window of width hi - lo holds at most (hi - lo) / interval + 1 sweep
      slots, and (hi - lo) / 40 + 1 operator slots. */
  lemma {:induction false} RateIsBounded(interval: nat, es: seq<Event>, lo: nat, hi: nat)
    requires interval > 0 && lo <= hi
    ensures var r := DoAll(interval, es);
            && Within(r.sweeps, lo, hi) <= (hi - lo) / interval + 1
            && Within(r.operators, lo, hi) <= (hi - lo) / 40 + 1
  {
    var r := DoAll(interval, es);
    LanesAreSpaced(interval, es);
    WindowFills(r.sweeps, interval, r.gate.next, lo, hi);
    WindowFills(r.operators, OPERATOR_INTERVAL, r.gate.opNext, lo, hi);
    WindowBound(Within(r.sweeps, lo, hi), interval, hi - lo);
    WindowBound(Within(r.operators, lo, hi), OPERATOR_INTERVAL, hi - lo);
  }

  // ------------------------------------------------------------------ backoff

  function At(e: Event): nat {
    e.now
  }

  predicate InTime(es: seq<Event>) {
    forall i, j :: 0 <= i < j < |es| ==> At(es[i]) <= At(es[j])
  }

  // Faults since the last success.
  function FaultStreak(es: seq<Event>): nat {
    if es == [] then 0
    else match es[|es| - 1]
      case Fault(_) => FaultStreak(es[..|es| - 1]) + 1
      case Success(_) => 0
      case _ => FaultStreak(es[..|es| - 1])
  }

  function Pow2(n: nat): nat {
    if n == 0 then 1 else 2 * Pow2(n - 1)
  }

  function Capped(ms: nat): nat {
    if ms > BACKOFF_MAX then BACKOFF_MAX else ms
  }

  /** After k faults without a success in between the backoff is min(30 s, 2^(k-1) s). */
  lemma {:induction false} BackoffDoubles(interval: nat, es: seq<Event>)
    ensures var k := FaultStreak(es);
            DoAll(interval, es).gate.backoff == if k == 0 then 0 else Capped(1000 * Pow2(k - 1))
    ensures FaultStreak(es) > 0 && 1000 * Pow2(FaultStreak(es) - 1) >= 30000 ==> DoAll(interval, es).gate.backoff == 30000
    decreases |es|
  {
    if es != [] {
      BackoffDoubles(interval, es[..|es| - 1]);
      Pow2Positive(FaultStreak(es[..|es| - 1]));
    }
  }

  lemma {:induction false} Pow2Positive(n: nat)
    ensures Pow2(n) >= 1
    decreases n
  {
    if n > 0 {
      Pow2Positive(n - 1);
    }
  }

  // The i-th event is a fault no success has followed.
  predicate InForce(es: seq<Event>, i: nat) {
    i < |es| && es[i].Fault? && forall j :: i < j < |es| ==> !es[j].Success?
  }

  // The backoff after the first n events.
  function BackoffAt(interval: nat, es: seq<Event>, n: nat): nat
    requires n <= |es|
  {
    DoAll(interval, es[..n]).gate.backoff
  }

  // A backoff of at least ms, in force until at least until, stays so over any step but a success.
  lemma {:induction false} UntilStep(interval: nat, r: Run, e: Event, until: nat, ms: nat)
    requires ms <= r.gate.backoff <= BACKOFF_MAX && until <= r.gate.until && until <= At(e) + ms && !e.Success?
    ensures var g := Do(interval, r, e).gate; ms <= g.backoff && until <= g.until
  {
    hide SweepSlot, OperatorSlot;
  }

  lemma {:induction false} UntilHolds(interval: nat, es: seq<Event>, i: nat)
    requires InTime(es) && InForce(es, i)
    ensures DoAll(interval, es).gate.until >= At(es[i]) + BackoffAt(interval, es, i + 1)
    ensures DoAll(interval, es).gate.backoff >= BackoffAt(interval, es, i + 1)
    decreases |es|
  {
    hide Do;
    var front, e := es[..|es| - 1], es[|es| - 1];
    if i == |es| - 1 {
      assert es[..i + 1] == es;
      FaultStep(interval, DoAll(interval, front), e);
    } else {
      assert front[..i + 1] == es[..i + 1];
      UntilHolds(interval, front, i);
      BackoffBounded(interval, front);
      var ms := BackoffAt(interval, es, i + 1);
      assert BackoffAt(interval, front, i + 1) == ms;
      UntilStep(interval, DoAll(interval, front), e, At(es[i]) + ms, ms);
    }
  }

  lemma {:induction false} FaultStep(interval: nat, r: Run, e: Event)
    requires e.Fault?
    ensures var g := Do(interval, r, e).gate; g.until == At(e) + g.backoff
  {
  }

  lemma {:induction false} BackoffBounded(interval: nat, es: seq<Event>)
    ensures DoAll(interval, es).gate.backoff <= BACKOFF_MAX
    decreases |es|
  {
    if es != [] {
      BackoffBounded(interval, es[..|es| - 1]);
    }
  }

  /** While a fault's backoff is in force neither lane grants a slot before it ends. */
  lemma {:induction false} NoSlotDuringBackoff(interval: nat, es: seq<Event>, i: nat, now: nat, deadline: Option<nat>)
    requires InTime(es) && InForce(es, i)
    ensures var g := DoAll(interval, es).gate;
            var end := At(es[i]) + BackoffAt(interval, es, i + 1);
            && (SweepSlot(g, now, deadline).Some? ==> SweepSlot(g, now, deadline).value >= end)
            && (OperatorSlot(g, now, deadline).Some? ==> OperatorSlot(g, now, deadline).value >= end)
  {
    UntilHolds(interval, es, i);
    hide DoAll;
  }

  // Of the later slots, those that start before end are exactly those already granted that do.
  ghost predicate KeptUntil(granted: seq<nat>, later: seq<nat>, end: nat) {
    granted <= later && forall k :: 0 <= k < |later| ==> (later[k] < end <==> k < |granted| && granted[k] < end)
  }

  lemma {:induction false} KeptMore(granted: seq<nat>, later: seq<nat>, end: nat, slot: nat)
    requires KeptUntil(granted, later, end) && slot >= end
    ensures KeptUntil(granted, later + [slot], end)
  {
  }

  /** Over any run: no slot once granted is taken back, and while a fault's backoff is in force the
      slots inside it are exactly those that were granted before the fault. */
  lemma {:induction false} ReservedSlotsOutliveFaults(interval: nat, es: seq<Event>, i: nat)
    requires InTime(es) && InForce(es, i)
    ensures var before, r := DoAll(interval, es[..i]), DoAll(interval, es);
            var end := At(es[i]) + BackoffAt(interval, es, i + 1);
            KeptUntil(before.sweeps, r.sweeps, end) && KeptUntil(before.operators, r.operators, end)
    decreases |es|
  {
    var front, e := es[..|es| - 1], es[|es| - 1];
    if i < |es| - 1 {
      assert front[..i] == es[..i] && front[..i + 1] == es[..i + 1];
      ReservedSlotsOutliveFaults(interval, front, i);
      hide InTime, KeptUntil, SweepSlot, OperatorSlot, AfterFault, InForce;
      assert BackoffAt(interval, front, i + 1) == BackoffAt(interval, es, i + 1);
      var before, r := DoAll(interval, es[..i]), DoAll(interval, front);
      var end := At(es[i]) + BackoffAt(interval, es, i + 1);
      if e.Sweep? && SweepSlot(r.gate, e.now, e.deadline).Some? {
        NoSlotDuringBackoff(interval, front, i, e.now, e.deadline);
        KeptMore(before.sweeps, r.sweeps, end, SweepSlot(r.gate, e.now, e.deadline).value);
      }
      if e.Operator? && OperatorSlot(r.gate, e.now, e.deadline).Some? {
        NoSlotDuringBackoff(interval, front, i, e.now, e.deadline);
        KeptMore(before.operators, r.operators, end, OperatorSlot(r.gate, e.now, e.deadline).value);
      }
    }
  }

  // A sweep slot 499 ms into a backoff.
  lemma {:induction false} SlotInsideBackoff()
    ensures var es := [Sweep(1000, None), Sweep(1000, None), Fault(1001)];
            var r := DoAll(500, es);
            InTime(es) && InForce(es, 2) && r.sweeps == [1000, 1500] && r.gate.until == 2001
  {
    var es := [Sweep(1000, None), Sweep(1000, None), Fault(1001)];
    assert es[..2] == [Sweep(1000, None), Sweep(1000, None)] && es[..2][..1] == [Sweep(1000, None)] && es[..2][..1][..0] == [];
    assert DoAll(500, es[..2][..1][..0]) == Run(IDLE, [], []);
    assert DoAll(500, es[..2][..1]) == Run(Gate(1500, 0, 0, 0), [1000], []);
    assert DoAll(500, es[..2]) == Run(Gate(2000, 0, 0, 0), [1000, 1500], []);
  }

  // ------------------------------------------------------------------ lanes do not disturb each other

  // The sweep lane's slots of a run.
  function SweepsOnly(es: seq<Event>): seq<Event> {
    if es == [] then []
    else SweepsOnly(es[..|es| - 1]) + if es[|es| - 1].Operator? then [] else [es[|es| - 1]]
  }

  /** Operator requests change nothing for the sweep: its slots are those of the run without them. */
  lemma {:induction false} OperatorsAreInvisible(interval: nat, es: seq<Event>)
    ensures DoAll(interval, SweepsOnly(es)).sweeps == DoAll(interval, es).sweeps
    ensures var (a, b) := (DoAll(interval, SweepsOnly(es)).gate, DoAll(interval, es).gate);
            a.next == b.next && a.backoff == b.backoff && a.until == b.until
    decreases |es|
  {
    hide Do;
    if es != [] {
      var front, e := es[..|es| - 1], es[|es| - 1];
      OperatorsAreInvisible(interval, front);
      SweepStep(interval, DoAll(interval, SweepsOnly(front)), DoAll(interval, front), e);
      DoAllSnoc(interval, SweepsOnly(front), e);
      assert SweepsOnly(front) + [] == SweepsOnly(front);
    }
  }

  lemma {:induction false} DoAllSnoc(interval: nat, es: seq<Event>, e: Event)
    ensures DoAll(interval, es + [e]) == Do(interval, DoAll(interval, es), e)
  {
    hide Do;
    assert (es + [e])[..|es|] == es;
  }

  // All of a run but its operator lane.
  predicate SweepsAlike(a: Run, b: Run) {
    a.sweeps == b.sweeps && a.gate.next == b.gate.next && a.gate.backoff == b.gate.backoff && a.gate.until == b.gate.until
  }

  lemma {:induction false} SweepStep(interval: nat, a: Run, b: Run, e: Event)
    requires SweepsAlike(a, b)
    ensures SweepsAlike(if e.Operator? then a else Do(interval, a, e), Do(interval, b, e))
  {
  }

  // ------------------------------------------------------------------ the budget

  class Budget {
    const interval: nat
    var next: nat
    var opNext: nat
    var backoff: nat
    var until: nat

    ghost function View(): Gate
      reads this
    {
      Gate(next, opNext, backoff, until)
    }

    constructor (interval: nat)
      ensures View() == IDLE && this.interval == interval
    {
      this.interval := interval;
      next, opNext, backoff, until := 0, 0, 0, 0;
    }

    // Reserves the next sweep slot; a refusal consumes nothing.
    method Acquire(now: nat, deadline: Option<nat>) returns (granted: Option<nat>)
      modifies this`next
      ensures granted == SweepSlot(old(View()), now, deadline)
      ensures View() == if granted.Some? then old(View()).(next := granted.value + interval) else old(View())
      ensures granted.Some? ==> granted.value >= now && granted.value >= old(next) && granted.value >= until
                                && granted.value in {now, old(next), until}
      ensures granted.None? <==> old(next) > now + 30000 || until > now + 30000
                                 || (deadline.Some? && var d := deadline.value; now > d || old(next) > d || until > d)
    {
      var slot := now;
      if next > slot {
        slot := next;
      }
      if until > slot {
        slot := until;
      }
      var limit := now + MAX_WAIT;
      if deadline.Some? && deadline.value < limit {
        limit := deadline.value;
      }
      if slot > limit {
        return None;
      }
      next := slot + interval;
      granted := Some(slot);
    }

    method AcquireOperator(now: nat, deadline: Option<nat>) returns (granted: Option<nat>)
      modifies this`opNext
      ensures granted == OperatorSlot(old(View()), now, deadline)
      ensures View() == if granted.Some? then old(View()).(opNext := granted.value + 40) else old(View())
      ensures granted.Some? ==> granted.value >= now && granted.value >= old(opNext) && granted.value >= until
                                && granted.value in {now, old(opNext), until}
      ensures granted.None? <==> deadline.Some? && var d := deadline.value; now > d || old(opNext) > d || until > d
    {
      var slot := now;
      if opNext > slot {
        slot := opNext;
      }
      if until > slot {
        slot := until;
      }
      if deadline.Some? && slot > deadline.value {
        return None;
      }
      opNext := slot + OPERATOR_INTERVAL;
      granted := Some(slot);
    }

    method NoteFault(now: nat)
      modifies this`backoff, this`until
      ensures View() == AfterFault(old(View()), now)
    {
      if backoff == 0 {
        backoff := BACKOFF_MIN;
      } else {
        backoff := backoff * 2;
        if backoff > BACKOFF_MAX {
          backoff := BACKOFF_MAX;
        }
      }
      until := now + backoff;
    }

    method NoteSuccess()
      modifies this`backoff, this`until
      ensures View() == old(View()).(backoff := 0, until := 0)
    {
      backoff, until := 0, 0;
    }
  }
}
