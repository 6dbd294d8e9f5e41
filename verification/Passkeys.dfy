/** Rate windows, enrol codes, pairing grants and one-shot challenges of the passkey hub (passkeys.go).
    Times are seconds. Each step is one section under the hub's lock. */
module Passkeys {
  import opened Messages
  import Lines

  const RATE_MAX: nat := 10
  const RATE_WINDOW: nat := 60
  const CODE_TTL: nat := 300
  const MAX_FAILS: nat := 3
  const GRANT_TTL: nat := 300
  const CHALLENGE_TTL: nat := 60

  // ------------------------------------------------------------------ the sliding window

  // The hits of the last minute.
  function Recent(hits: seq<nat>, now: nat): (r: seq<nat>)
    ensures |r| <= |hits|
  {
    if hits == [] then []
    else
      var t := hits[|hits| - 1];
      Recent(hits[..|hits| - 1], now) + if now < t + RATE_WINDOW then [t] else []
  }

  function Allowed(hits: seq<nat>, now: nat): bool {
    |Recent(hits, now)| < RATE_MAX
  }

  function AfterCall(hits: seq<nat>, now: nat): seq<nat> {
    Recent(hits, now) + if Allowed(hits, now) then [now] else []
  }

  // The bucket after calls at the given times, and the calls that were let through.
  function Bucket(calls: seq<nat>): seq<nat> {
    if calls == [] then [] else AfterCall(Bucket(calls[..|calls| - 1]), calls[|calls| - 1])
  }

  function Granted(calls: seq<nat>): seq<nat> {
    if calls == [] then []
    else
      var front, now := calls[..|calls| - 1], calls[|calls| - 1];
      Granted(front) + if Allowed(Bucket(front), now) then [now] else []
  }

  ghost predicate Sorted(s: seq<nat>) {
    forall i, j :: 0 <= i < j < |s| ==> s[i] <= s[j]
  }

  lemma {:induction false} RecentTwice(hits: seq<nat>, a: nat, b: nat)
    requires a <= b
    ensures Recent(Recent(hits, a), b) == Recent(hits, b)
    decreases |hits|
  {
    if hits != [] {
      var front, t := hits[..|hits| - 1], hits[|hits| - 1];
      assert hits == front + [t];
      RecentTwice(front, a, b);
      RecentSnoc(front, t, a);
      RecentSnoc(front, t, b);
      RecentSnoc(Recent(front, a), t, b);
      hide Recent;
      assert Recent(front, a) + [] == Recent(front, a) && Recent(front, b) + [] == Recent(front, b);
    }
  }

  lemma {:induction false} RecentSnoc(hits: seq<nat>, t: nat, now: nat)
    ensures Recent(hits + [t], now) == Recent(hits, now) + if now < t + RATE_WINDOW then [t] else []
  {
    assert (hits + [t])[..|hits|] == hits;
  }

  lemma {:induction false} BucketStep(hits: seq<nat>, grants: seq<nat>, t: nat, now: nat)
    requires t <= now && Recent(hits, t) == Recent(grants, t)
    ensures Recent(AfterCall(hits, t), now) == Recent(grants + if Allowed(hits, t) then [t] else [], now)
  {
    RecentTwice(hits, t, now);
    RecentTwice(grants, t, now);
    RecentSnoc(Recent(hits, t), t, now);
    RecentSnoc(grants, t, now);
    hide Recent;
    assert Recent(hits, t) + [] == Recent(hits, t) && grants + [] == grants;
  }

  // The pruned bucket forgets only what no later call counts.
  lemma {:induction false} BucketIsRecentGrants(calls: seq<nat>, now: nat)
    requires Sorted(calls) && (calls != [] ==> calls[|calls| - 1] <= now)
    ensures Recent(Bucket(calls), now) == Recent(Granted(calls), now)
    decreases |calls|
  {
    if calls != [] {
      var front, t := calls[..|calls| - 1], calls[|calls| - 1];
      BucketIsRecentGrants(front, t);
      BucketStep(Bucket(front), Granted(front), t, now);
      hide Recent, Allowed;
    }
  }

  // Where the hits of the last minute stand.
  ghost function YoungAt(s: seq<nat>, now: nat): set<nat> {
    set i: nat | i < |s| && now < s[i] + 60
  }

  lemma {:induction false} RecentCounts(s: seq<nat>, now: nat)
    ensures |Recent(s, now)| == |YoungAt(s, now)|
    decreases |s|
  {
    if s != [] {
      var front, t := s[..|s| - 1], s[|s| - 1];
      RecentCounts(front, now);
      assert YoungAt(s, now) == YoungAt(front, now) + if now < t + 60 then {|front|} else {};
    }
  }

  /** A call is let through exactly when fewer than ten were let through in the minute before it:
      refused calls do not count. */
  lemma {:induction false} AllowedIff(calls: seq<nat>, now: nat)
    requires Sorted(calls + [now])
    ensures |Recent(Granted(calls), now)| == |YoungAt(Granted(calls), now)|
    ensures Allowed(Bucket(calls), now) <==> |YoungAt(Granted(calls), now)| < 10
  {
    assert forall i :: 0 <= i < |calls| ==> (calls + [now])[i] == calls[i];
    assert calls != [] ==> (calls + [now])[|calls| - 1] <= (calls + [now])[|calls|];
    BucketIsRecentGrants(calls, now);
    RecentCounts(Granted(calls), now);
    hide Recent, Bucket, Granted, YoungAt;
  }

  // How many fall in the window of a minute starting at lo.
  function Within(s: seq<nat>, lo: nat): nat {
    if s == [] then 0 else Within(s[..|s| - 1], lo) + if lo <= s[|s| - 1] < lo + 60 then 1 else 0
  }

  lemma {:induction false} WithinRecent(s: seq<nat>, lo: nat, now: nat)
    requires lo <= now < lo + RATE_WINDOW
    ensures Within(s, lo) <= |Recent(s, now)|
    decreases |s|
  {
    if s != [] {
      WithinRecent(s[..|s| - 1], lo, now);
    }
  }

  /** Any window of one minute holds at most ten calls that were let through. */
  lemma {:induction false} AtMostTenAMinute(calls: seq<nat>, lo: nat)
    requires Sorted(calls)
    ensures Within(Granted(calls), lo) <= 10
    decreases |calls|
  {
    hide Recent, Within, YoungAt, Bucket, Allowed;
    NothingWithin(lo);
    if calls != [] {
      var front, now := calls[..|calls| - 1], calls[|calls| - 1];
      AtMostTenAMinute(front, lo);
      assert calls == front + [now];
      AllowedIff(front, now);
      WithinSnoc(Granted(front), now, lo);
      if lo <= now < lo + RATE_WINDOW {
        WithinRecent(Granted(front), lo, now);
      }
      assert Granted(front) + [] == Granted(front);
    }
  }

  lemma {:induction false} NothingWithin(lo: nat)
    ensures Within([], lo) == 0
  {
  }

  lemma {:induction false} WithinSnoc(s: seq<nat>, t: nat, lo: nat)
    ensures Within(s + [t], lo) == Within(s, lo) + if lo <= t < lo + RATE_WINDOW then 1 else 0
  {
    assert (s + [t])[..|s|] == s;
  }

  // ------------------------------------------------------------------ enrolment

  // no numbers the codes issued; device "" is not bound yet.
  datatype Code = Code(no: nat, secret: string, exp: nat, fails: nat, device: string)

  datatype Passkey = Passkey(device: string, cred: string)

  // tickets: requests whose code or grant was spent and whose credential is not stored yet.
  // The rest below the line counts what happened: codes issued and grants given, spent ones,
  // credentials stored, failures per code and the device each code was accepted from.
  datatype Hub = Hub(code: Option<Code>, pairs: map<string, nat>, recs: seq<Passkey>, tickets: map<nat, string>,
                     issued: nat, granted: nat, spent: nat, stored: nat, failures: map<nat, nat>, users: map<nat, string>)

  const FRESH := Hub(None, map[], [], map[], 0, 0, 0, 0, map[], map[])

  datatype Verdict = Accepted | NoCode | CodeExpired | Wrong | Voided | NoGrant | GrantExpired

  function Digits(s: string): string {
    if s == "" then "" else Digits(s[..|s| - 1]) + if '0' <= s[|s| - 1] <= '9' then [s[|s| - 1]] else ""
  }

  function FailuresOf(h: Hub, no: nat): nat {
    if no in h.failures then h.failures[no] else 0
  }

  // A correct code from a second device counts as wrong: someone else saw it.
  predicate Right(c: Code, presented: string, device: string) {
    |Digits(presented)| == 6 && Digits(presented) == c.secret && (c.device == "" || c.device == device)
  }

  function CheckCode(h: Hub, presented: string, device: string, now: nat, consume: bool): (Hub, Verdict) {
    if h.code.None? then (h, NoCode)
    else
      var c := h.code.value;
      if now >= c.exp then (h.(code := None), CodeExpired)
      else if !Right(c, presented, device) then
        var h' := h.(failures := h.failures[c.no := FailuresOf(h, c.no) + 1]);
        if c.fails + 1 >= MAX_FAILS then (h'.(code := None), Voided)
        else (h'.(code := Some(c.(fails := c.fails + 1))), Wrong)
      else
        var h' := h.(users := if device == "" then h.users else h.users[c.no := device]);
        (if consume then h'.(code := None, spent := h.spent + 1) else h'.(code := Some(c.(device := device))), Accepted)
  }

  function CheckGrant(h: Hub, device: string, now: nat, consume: bool): (Hub, Verdict) {
    if device !in h.pairs then (h, NoGrant)
    else if now >= h.pairs[device] then (h.(pairs := h.pairs - {device}), GrantExpired)
    else (if consume then h.(pairs := h.pairs - {device}, spent := h.spent + 1) else h, Accepted)
  }

  // An empty code asks for the device's pairing grant.
  function CheckEnrol(h: Hub, presented: string, device: string, now: nat, consume: bool): (Hub, Verdict) {
    if !Lines.Blank(presented) then CheckCode(h, presented, device, now, consume) else CheckGrant(h, device, now, consume)
  }

  function Known(recs: seq<Passkey>, cred: string): bool {
    exists i :: 0 <= i < |recs| && recs[i].cred == cred
  }

  function Without(recs: seq<Passkey>, device: string): seq<Passkey> {
    if recs == [] then []
    else
      var last := recs[|recs| - 1];
      Without(recs[..|recs| - 1], device) + if last.device == device then [] else [last]
  }

  datatype Action =
    | Issue(secret: string, now: nat, written: bool)
    | Expire(no: nat)                                                      // the code's own timer
    | Grant(device: string, now: nat)
    | Peek(presented: string, device: string, now: nat)
    | Spend(request: nat, presented: string, device: string, now: nat)
    | Store(request: nat, cred: string, saved: bool)
    | Revoke(device: string)

  function Do(h: Hub, a: Action): Hub {
    match a
    case Issue(secret, now, written) =>
      if written then h.(code := Some(Code(h.issued, secret, now + CODE_TTL, 0, "")), issued := h.issued + 1)
      else h.(code := None)
    case Expire(no) => if h.code.Some? && h.code.value.no == no then h.(code := None) else h
    case Grant(device, now) => h.(pairs := h.pairs[device := now + GRANT_TTL], granted := h.granted + 1)
    case Peek(presented, device, now) => CheckEnrol(h, presented, device, now, false).0
    case Spend(r, presented, device, now) =>
      if r in h.tickets then h
      else
        var (h', verdict) := CheckEnrol(h, presented, device, now, true);
        if verdict == Accepted then h'.(tickets := h'.tickets[r := device]) else h'
    case Store(r, cred, saved) =>
      if r !in h.tickets then h
      else
        var h' := h.(tickets := h.tickets - {r});
        if Known(h.recs, cred) || !saved then h'
        else h'.(recs := h.recs + [Passkey(h.tickets[r], cred)], stored := h.stored + 1)
    case Revoke(device) =>
      h.(recs := Without(h.recs, device),
         code := if h.code.Some? && h.code.value.device == device then None else h.code)
  }

  function Run(h: Hub, as_: seq<Action>): Hub {
    if as_ == [] then h else Do(Run(h, as_[..|as_| - 1]), as_[|as_| - 1])
  }

  // ------------------------------------------------------------------ conservation

  ghost predicate Paid(h: Hub) {
    && |h.recs| <= h.stored
    && h.stored + |h.tickets| <= h.spent
    && h.spent + (if h.code.Some? then 1 else 0) + |h.pairs| <= h.issued + h.granted
  }

  ghost predicate Counted(h: Hub) {
    && (forall no :: no in h.failures ==> no < h.issued && h.failures[no] <= MAX_FAILS)
    && (forall no :: no in h.users ==> no < h.issued)
    && (h.code.Some? ==>
          var c := h.code.value;
          c.no < h.issued && c.fails == FailuresOf(h, c.no) && c.fails < MAX_FAILS
          && (c.device != "" ==> c.no in h.users && h.users[c.no] == c.device)
          && (c.no in h.users ==> c.device == h.users[c.no] || c.device == ""))
  }

  ghost predicate Different(recs: seq<Passkey>) {
    forall i, j :: 0 <= i < j < |recs| ==> recs[i].cred != recs[j].cred
  }

  ghost predicate Inv(h: Hub) {
    Paid(h) && Counted(h) && Different(h.recs)
  }

  lemma {:induction false} WithoutParts(recs: seq<Passkey>, device: string)
    requires Different(recs)
    ensures Different(Without(recs, device)) && |Without(recs, device)| <= |recs|
    ensures forall r :: r in Without(recs, device) ==> r in recs && r.device != device
    decreases |recs|
  {
    if recs != [] {
      var front, last := recs[..|recs| - 1], recs[|recs| - 1];
      WithoutParts(front, device);
      assert recs == front + [last];
      var kept := Without(front, device);
      forall i | 0 <= i < |kept| ensures kept[i].cred != last.cred {
        assert kept[i] in front;
        var j :| 0 <= j < |front| && front[j] == kept[i];
        assert recs[j].cred != recs[|front|].cred;
      }
    }
  }

  // Revoking takes exactly the device's credentials.
  lemma {:induction false} OthersStay(recs: seq<Passkey>, device: string, p: Passkey)
    ensures multiset(Without(recs, device))[p] == if p.device == device then 0 else multiset(recs)[p]
    decreases |recs|
  {
    if recs != [] {
      OthersStay(recs[..|recs| - 1], device, p);
      assert recs == recs[..|recs| - 1] + [recs[|recs| - 1]];
    }
  }

  lemma {:induction false} MapSize<K, V>(m: map<K, V>, k: K, v: V)
    ensures |m[k := v]| <= |m| + 1
    ensures k !in m ==> |m[k := v]| == |m| + 1
    ensures k in m ==> |m - {k}| == |m| - 1
    ensures |m - {k}| <= |m|
  {
    assert m[k := v].Keys == m.Keys + {k};
    assert (m - {k}).Keys == m.Keys - {k};
  }

  lemma {:induction false} CheckCodeCounted(h: Hub, presented: string, device: string, now: nat, consume: bool)
    requires Counted(h)
    ensures Counted(CheckCode(h, presented, device, now, consume).0)
  {
    NoCodeCounted(h);
    if h.code.Some? {
      MissCounted(h);
      HitCounted(h, device, h.code.value.device == "" || h.code.value.device == device);
    }
    hide Counted, Digits, FailuresOf;
  }

  lemma {:induction false} NoCodeCounted(h: Hub)
    requires Counted(h)
    ensures Counted(h.(code := None))
  {
  }

  lemma {:induction false} MissCounted(h: Hub)
    requires Counted(h) && h.code.Some?
    ensures var c := h.code.value;
            var h' := h.(failures := h.failures[c.no := FailuresOf(h, c.no) + 1]);
            Counted(h'.(code := None)) && (c.fails + 1 < MAX_FAILS ==> Counted(h'.(code := Some(c.(fails := c.fails + 1)))))
  {
  }

  lemma {:induction false} HitCounted(h: Hub, device: string, mine: bool)
    requires Counted(h) && h.code.Some? && mine == (h.code.value.device == "" || h.code.value.device == device)
    ensures var c := h.code.value;
            var h' := h.(users := if device == "" then h.users else h.users[c.no := device]);
            mine ==> Counted(h'.(code := None, spent := h.spent + 1)) && Counted(h'.(code := Some(c.(device := device))))
  {
  }

  lemma {:induction false} CheckCodeKeeps(h: Hub, presented: string, device: string, now: nat, consume: bool)
    ensures var p := CheckCode(h, presented, device, now, consume);
            && p.0 == h.(code := p.0.code, failures := p.0.failures, users := p.0.users, spent := p.0.spent)
            && p.0.spent + (if p.0.code.Some? then 1 else 0) <= h.spent + (if h.code.Some? then 1 else 0)
            && p.0.spent == h.spent + if consume && p.1 == Accepted then 1 else 0
  {
    hide Right, Digits, FailuresOf;
  }

  lemma {:induction false} CheckGrantKeeps(h: Hub, device: string, now: nat, consume: bool)
    ensures var p := CheckGrant(h, device, now, consume);
            && p.0 == h.(pairs := p.0.pairs, spent := p.0.spent)
            && p.0.spent + |p.0.pairs| <= h.spent + |h.pairs|
            && p.0.spent == h.spent + if consume && p.1 == Accepted then 1 else 0
  {
    MapSize(h.pairs, device, 0);
  }

  lemma {:induction false} CheckKeeps(h: Hub, presented: string, device: string, now: nat, consume: bool)
    requires Inv(h)
    ensures var p := CheckEnrol(h, presented, device, now, consume);
            Inv(p.0) && p.0.tickets == h.tickets && p.0.stored == h.stored
            && p.0.spent == h.spent + if consume && p.1 == Accepted then 1 else 0
  {
    if !Lines.Blank(presented) {
      CheckCodeKeeps(h, presented, device, now, consume);
      CheckCodeCounted(h, presented, device, now, consume);
    } else {
      CheckGrantKeeps(h, device, now, consume);
    }
    hide CheckCode, CheckGrant, Different, Lines.Blank;
  }

  lemma {:induction false} CodesKeepInv(h: Hub, secret: string, now: nat, written: bool, no: nat)
    requires Inv(h)
    ensures Inv(Do(h, Issue(secret, now, written))) && Inv(Do(h, Expire(no)))
  {
    hide Different;
  }

  lemma {:induction false} DifferentSnoc(recs: seq<Passkey>, p: Passkey)
    requires Different(recs) && !Known(recs, p.cred)
    ensures Different(recs + [p])
  {
  }

  lemma {:induction false} TicketUsed(h: Hub, r: nat)
    requires Inv(h) && r in h.tickets
    ensures var h' := h.(tickets := h.tickets - {r}); Inv(h') && h'.stored + |h'.tickets| < h'.spent
  {
    MapSize(h.tickets, r, "");
    CountedDepends(h, h.(tickets := h.tickets - {r}));
    hide Counted, Different;
  }

  lemma {:induction false} StoredKeepsInv(h: Hub, p: Passkey)
    requires Inv(h) && h.stored + |h.tickets| < h.spent && !Known(h.recs, p.cred)
    ensures Inv(h.(recs := h.recs + [p], stored := h.stored + 1))
  {
    CountedDepends(h, h.(recs := h.recs + [p], stored := h.stored + 1));
    DifferentSnoc(h.recs, p);
    hide Counted, Different, Known;
  }

  lemma {:induction false} StoreKeepsInv(h: Hub, r: nat, cred: string, saved: bool)
    requires Inv(h)
    ensures Inv(Do(h, Store(r, cred, saved)))
  {
    hide Inv, Known;
    if r in h.tickets {
      TicketUsed(h, r);
      if !Known(h.recs, cred) && saved {
        StoredKeepsInv(h.(tickets := h.tickets - {r}), Passkey(h.tickets[r], cred));
      }
    }
  }

  lemma {:induction false} StoreEffect(h: Hub, r: nat, cred: string, saved: bool)
    requires r in h.tickets
    ensures var to := Do(h, Store(r, cred, saved));
            && to.recs == (if Known(h.recs, cred) || !saved then h.recs else h.recs + [Passkey(h.tickets[r], cred)])
            && to.code == h.code && to.pairs == h.pairs && to.issued == h.issued
  {
  }

  // The challenges of all other devices.
  function OthersChals(chals: map<string, Challenge>, device: string): map<string, Challenge> {
    map k | k in chals && chals[k].device != device :: chals[k]
  }

  lemma {:induction false} RevokeFields(h: Hub, device: string)
    ensures var to := Do(h, Revoke(device));
            && to.recs == Without(h.recs, device) && to.issued == h.issued && to.pairs == h.pairs
            && to.code == if h.code.Some? && h.code.value.device == device then None else h.code
  {
    hide Without;
  }

  lemma {:induction false} IssueFields(h: Hub, secret: string, now: nat, written: bool)
    ensures var to := Do(h, Issue(secret, now, written));
            && to.recs == h.recs && to.pairs == h.pairs && to.issued == h.issued + (if written then 1 else 0)
            && to.code == if written then Some(Code(h.issued, secret, now + CODE_TTL, 0, "")) else None
  {
  }

  lemma {:induction false} LogDiffers(h: Hub)
    requires Inv(h)
    ensures Different(h.recs)
  {
    hide Different;
  }

  lemma {:induction false} RevokeKeepsInv(h: Hub, device: string)
    requires Inv(h)
    ensures Inv(Do(h, Revoke(device)))
  {
    WithoutParts(h.recs, device);
    hide Different, Without;
  }

  lemma {:induction false} GrantKeepsInv(h: Hub, device: string, now: nat)
    requires Inv(h)
    ensures Inv(Do(h, Grant(device, now)))
  {
    MapSize(h.pairs, device, now + GRANT_TTL);
    CountedDepends(h, Do(h, Grant(device, now)));
    hide Counted, Different;
  }

  lemma {:induction false} SpendKeepsInv(h: Hub, r: nat, presented: string, device: string, now: nat)
    requires Inv(h)
    ensures Inv(Do(h, Spend(r, presented, device, now)))
  {
    CheckKeeps(h, presented, device, now, true);
    hide CheckEnrol, Counted, Different;
    var h' := CheckEnrol(h, presented, device, now, true).0;
    CountedDepends(h', h'.(tickets := h'.tickets[r := device]));
    MapSize(h.tickets, r, device);
  }

  lemma {:induction false} StepKeepsInv(h: Hub, a: Action)
    requires Inv(h)
    ensures Inv(Do(h, a))
  {
    match a {
      case Issue(secret, now, written) => CodesKeepInv(h, secret, now, written, 0);
      case Expire(no) => CodesKeepInv(h, "", 0, false, no);
      case Grant(device, now) => GrantKeepsInv(h, device, now);
      case Peek(presented, device, now) => CheckKeeps(h, presented, device, now, false);
      case Spend(r, presented, device, now) => SpendKeepsInv(h, r, presented, device, now);
      case Store(r, cred, saved) => StoreKeepsInv(h, r, cred, saved);
      case Revoke(device) => RevokeKeepsInv(h, device);
    }
    hide CheckEnrol, Inv;
  }

  lemma {:induction false} CountedDepends(a: Hub, b: Hub)
    requires a.code == b.code && a.failures == b.failures && a.users == b.users && a.issued == b.issued
    ensures Counted(a) <==> Counted(b)
  {
  }

  lemma {:induction false} RunKeepsInv(as_: seq<Action>)
    ensures Inv(Run(FRESH, as_))
    decreases |as_|
  {
    hide Do;
    if as_ != [] {
      RunKeepsInv(as_[..|as_| - 1]);
      StepKeepsInv(Run(FRESH, as_[..|as_| - 1]), as_[|as_| - 1]);
    }
  }

  /** In every interleaving of requests each stored passkey has spent a code or a pairing grant of its
      own: stored credentials never exceed codes issued plus grants given, and no code is tried wrongly
      more than three times. */
  lemma {:induction false} PasskeysArePaidFor(as_: seq<Action>)
    ensures var h := Run(FRESH, as_);
            && |h.recs| <= h.stored <= h.spent <= h.issued + h.granted
            && (forall no :: FailuresOf(h, no) <= 3)
            && Different(h.recs)
  {
    RunKeepsInv(as_);
  }

  // A code once accepted from a device is never accepted from another.
  lemma {:induction false} OneDevicePerCode(h: Hub, presented: string, device: string, now: nat, consume: bool)
    requires Inv(h) && h.code.Some? && h.code.value.device != "" && device != h.code.value.device
    ensures CheckCode(h, presented, device, now, consume).1 != Accepted
  {
  }

  // In the state: live, unexpired, right, and at most two wrong tries before.
  lemma {:induction false} AcceptedIff(h: Hub, presented: string, device: string, now: nat, consume: bool)
    requires Inv(h)
    ensures CheckCode(h, presented, device, now, consume).1 == Accepted
            <==> h.code.Some? && now < h.code.value.exp && Right(h.code.value, presented, device)
    ensures CheckCode(h, presented, device, now, consume).1 == Accepted ==> FailuresOf(h, h.code.value.no) <= 2
    ensures CheckCode(h, presented, device, now, consume).1 == Voided ==> FailuresOf(h, h.code.value.no) == 2
  {
    hide Digits;
  }

  // ------------------------------------------------------------------ when a code is accepted, over runs

  // d is the subsequence of s at the places `at`: its digits, and all of them.
  ghost predicate SpelledAt(s: string, d: string, at: seq<nat>) {
    && |at| == |d|
    && (forall k :: 0 <= k < |at| ==> at[k] < |s| && d[k] == s[at[k]] && '0' <= d[k] <= '9')
    && (forall j, k :: 0 <= j < k < |at| ==> at[j] < at[k])
    && (forall i: nat :: i < |s| && '0' <= s[i] <= '9' ==> i in at)
  }

  ghost predicate Spells(s: string, d: string) {
    exists at :: SpelledAt(s, d, at)
  }

  lemma {:induction false} SpelledSnoc(s: string, d: string, at: seq<nat>)
    requires s != [] && SpelledAt(s[..|s| - 1], d, at)
    ensures var c := s[|s| - 1];
            if '0' <= c <= '9' then SpelledAt(s, d + [c], at + [|s| - 1]) else SpelledAt(s, d, at)
  {
    var front, c := s[..|s| - 1], s[|s| - 1];
    if '0' <= c <= '9' {
      var more := at + [|front|];
      forall i: nat | i < |s| && '0' <= s[i] <= '9' ensures i in more {
        if i < |front| {
          assert front[i] == s[i] && i in at;
          var k :| 0 <= k < |at| && at[k] == i;
          assert more[k] == i;
        } else {
          assert more[|at|] == i;
        }
      }
    } else {
      forall i: nat | i < |s| && '0' <= s[i] <= '9' ensures i in at {
        assert i < |front| && front[i] == s[i];
      }
    }
  }

  lemma {:induction false} DigitsSpell(s: string) returns (at: seq<nat>)
    ensures SpelledAt(s, Digits(s), at)
    decreases |s|
  {
    hide SpelledAt;
    if s == "" {
      at := [];
      NothingSpelled();
    } else {
      at := DigitsSpell(s[..|s| - 1]);
      SpelledSnoc(s, Digits(s[..|s| - 1]), at);
      assert Digits(s[..|s| - 1]) + "" == Digits(s[..|s| - 1]);
      if '0' <= s[|s| - 1] <= '9' {
        at := at + [|s| - 1];
      }
    }
  }

  lemma {:induction false} NothingSpelled()
    ensures SpelledAt("", "", [])
  {
  }

  // The places are those of the digits, so there is one way to spell them.
  lemma {:induction false} SpelledOnce(s: string, d: string, at: seq<nat>, e: string, bt: seq<nat>)
    requires SpelledAt(s, d, at) && SpelledAt(s, e, bt)
    ensures at == bt && d == e
  {
    forall i: nat | i in at ensures i in bt {
      SamePlaces(s, d, at, e, bt, i);
    }
    forall i: nat | i in bt ensures i in at {
      SamePlaces(s, e, bt, d, at, i);
    }
    Ascending(at, bt);
    forall k | 0 <= k < |d| ensures d[k] == e[k] {
      assert d[k] == s[at[k]];
    }
  }

  lemma {:induction false} SamePlaces(s: string, d: string, at: seq<nat>, e: string, bt: seq<nat>, i: nat)
    requires SpelledAt(s, d, at) && SpelledAt(s, e, bt) && i in at
    ensures i in bt
  {
    var k :| 0 <= k < |at| && at[k] == i;
    assert d[k] == s[at[k]];
  }

  lemma {:induction false} SomeInBoth(a: seq<nat>, b: seq<nat>)
    requires b != [] && forall i: nat :: i in a <==> i in b
    ensures a != []
  {
    assert b[0] in b;
  }

  // Two ascending lists of the same numbers are one.
  lemma {:induction false} Ascending(a: seq<nat>, b: seq<nat>)
    requires forall j, k :: 0 <= j < k < |a| ==> a[j] < a[k]
    requires forall j, k :: 0 <= j < k < |b| ==> b[j] < b[k]
    requires forall i: nat :: i in a <==> i in b
    ensures a == b
    decreases |a|
  {
    if a == [] {
      if b != [] {
        SomeInBoth(a, b);
        assert false;
      }
    } else {
      assert a[|a| - 1] in b;
      var x, y := a[|a| - 1], b[|b| - 1];
      assert y in a;
      assert x == y;
      var a', b' := a[..|a| - 1], b[..|b| - 1];
      assert a == a' + [x] && b == b' + [y];
      forall i: nat ensures i in a' <==> i in b' {
        InFront(a, i);
        InFront(b, i);
      }
      Ascending(a', b');
    }
  }

  lemma {:induction false} InFront(s: seq<nat>, i: nat)
    requires s != [] && forall j, k :: 0 <= j < k < |s| ==> s[j] < s[k]
    ensures i in s[..|s| - 1] <==> i in s && i != s[|s| - 1]
  {
    assert s == s[..|s| - 1] + [s[|s| - 1]];
  }

  lemma {:induction false} SpellsDigits(s: string, d: string)
    ensures Spells(s, d) <==> Digits(s) == d
  {
    hide SpelledAt;
    var at := DigitsSpell(s);
    if Spells(s, d) {
      var bt :| SpelledAt(s, d, bt);
      SpelledOnce(s, Digits(s), at, d, bt);
    }
  }

  // a tries a code, in a request that holds no ticket yet.
  ghost predicate Tries(before: seq<Action>, a: Action) {
    match a
    case Peek(presented, _, _) => !Lines.Blank(presented)
    case Spend(r, presented, _, _) => !Lines.Blank(presented) && r !in Run(FRESH, before).tickets
    case _ => false
  }

  // The hub accepted what a presents.
  ghost predicate Passed(before: seq<Action>, a: Action)
    requires a.Peek? || a.Spend?
  {
    CheckEnrol(Run(FRESH, before), a.presented, a.device, a.now, a.Spend?).1 == Accepted
  }

  // Codes written so far, failed tries since the issue at i, and the device last accepted since.
  ghost function Written(as_: seq<Action>): nat {
    if as_ == [] then 0
    else
      var a := as_[|as_| - 1];
      Written(as_[..|as_| - 1]) + if a.Issue? && a.written then 1 else 0
  }

  ghost function Failed(as_: seq<Action>, i: nat): nat {
    if |as_| <= i + 1 then 0
    else
      var front, a := as_[..|as_| - 1], as_[|as_| - 1];
      Failed(front, i) + if Tries(front, a) && !Passed(front, a) then 1 else 0
  }

  ghost function Bound(as_: seq<Action>, i: nat): string {
    if |as_| <= i + 1 then ""
    else
      var front, a := as_[..|as_| - 1], as_[|as_| - 1];
      if Tries(front, a) && Passed(front, a) then a.device else Bound(front, i)
  }

  // a ends the code issued at i: a new one is asked for, its timer runs out or a try comes too late,
  // it is spent, or its device is revoked.
  ghost predicate Ends(before: seq<Action>, i: nat, a: Action)
    requires i < |before| && before[i].Issue?
  {
    match a
    case Issue(_, _, _) => true
    case Expire(no) => no == Written(before[..i])
    case Peek(_, _, now) => Tries(before, a) && now >= before[i].now + 300
    case Spend(_, _, _, now) => Tries(before, a) && (now >= before[i].now + 300 || Passed(before, a))
    case Revoke(device) => device == Bound(before, i)
    case _ => false
  }

  // The code issued at i is written, has failed at most twice and nothing has ended it.
  ghost predicate Stands(as_: seq<Action>, i: nat) {
    && i < |as_| && as_[i].Issue? && as_[i].written
    && Failed(as_, i) < 3
    && forall j :: i < j < |as_| ==> !Ends(as_[..j], i, as_[j])
  }

  ghost predicate CodeOf(as_: seq<Action>, i: nat, code: Option<Code>)
    requires i < |as_| && as_[i].Issue?
  {
    code == Some(Code(Written(as_[..i]), as_[i].secret, as_[i].now + 300, Failed(as_, i), Bound(as_, i)))
  }

  lemma {:induction false} StandsStep(as_: seq<Action>, i: nat)
    requires i + 1 < |as_|
    ensures var front, a := as_[..|as_| - 1], as_[|as_| - 1];
            Stands(as_, i) <==> Stands(front, i) && !Ends(front, i, a) && Failed(as_, i) < 3
  {
    hide Ends;
    var front, a := as_[..|as_| - 1], as_[|as_| - 1];
    assert forall j: nat :: j <= |front| ==> front[..j] == as_[..j];
    assert as_[..|front|] == front && Failed(front, i) <= Failed(as_, i);
    if Stands(as_, i) {
      forall j | i < j < |front| ensures !Ends(front[..j], i, front[j]) {
        assert !Ends(as_[..j], i, as_[j]);
      }
      assert !Ends(as_[..|front|], i, as_[|front|]);
    }
    if Stands(front, i) && !Ends(front, i, a) {
      forall j | i < j < |as_| ensures !Ends(as_[..j], i, as_[j]) {
        if j < |front| {
          assert !Ends(front[..j], i, front[j]);
        }
      }
    }
  }

  lemma {:induction false} WrittenCounts(as_: seq<Action>)
    ensures Run(FRESH, as_).issued == Written(as_)
    decreases |as_|
  {
    hide Inv, CheckCode, CheckGrant, Without, Known, Lines.Blank;
    if as_ != [] {
      var h := Run(FRESH, as_[..|as_| - 1]);
      WrittenCounts(as_[..|as_| - 1]);
      match as_[|as_| - 1] {
        case Peek(p, d, now) => CheckSame(h, p, d, now, false);
        case Spend(_, p, d, now) => CheckSame(h, p, d, now, true);
        case _ =>
      }
    }
  }

  // A check moves code, grants and what is spent; which of them, the text decides.
  lemma {:induction false} CheckSame(h: Hub, p: string, d: string, now: nat, consume: bool)
    ensures var to := CheckEnrol(h, p, d, now, consume).0;
            to.issued == h.issued && to.tickets == h.tickets && if Lines.Blank(p) then to.code == h.code else to.pairs == h.pairs
  {
    CheckCodeKeeps(h, p, d, now, consume);
    CheckGrantKeeps(h, d, now, consume);
    hide CheckCode, CheckGrant, Lines.Blank;
  }

  // What a try makes of a live code.
  lemma {:induction false} CodeFate(h: Hub, p: string, d: string, now: nat, consume: bool)
    requires h.code.Some? && !Lines.Blank(p)
    ensures var (to, v) := CheckEnrol(h, p, d, now, consume);
            var c := h.code.value;
            && (now >= c.exp ==> v != Accepted && to.code == None)
            && (now < c.exp ==>
                  to.code == if v != Accepted then (if c.fails + 1 >= 3 then None else Some(c.(fails := c.fails + 1)))
                             else if consume then None else Some(c.(device := d)))
  {
    hide Right, Lines.Blank, FailuresOf, Inv;
  }

  lemma {:induction false} TryStep(front: seq<Action>, a: Action, i: nat)
    requires i < |front| && front[i].Issue? && Tries(front, a) && CodeOf(front, i, Run(FRESH, front).code)
    requires Failed(front, i) < 3
    ensures var to := Run(FRESH, front + [a]).code;
            && (Ends(front, i, a) || Failed(front + [a], i) >= 3 ==> to == None)
            && (!Ends(front, i, a) && Failed(front + [a], i) < 3 ==> CodeOf(front + [a], i, to))
  {
    hide Inv, CheckEnrol, Lines.Blank;
    var h := Run(FRESH, front);
    assert (front + [a])[..|front|] == front && (front + [a])[..i] == front[..i];
    CodeFate(h, a.presented, a.device, a.now, a.Spend?);
  }

  lemma {:induction false} OtherStep(front: seq<Action>, a: Action, i: nat)
    requires i < |front| && front[i].Issue? && !Tries(front, a) && CodeOf(front, i, Run(FRESH, front).code)
    requires !(a.Issue? && a.written)
    ensures var to := Run(FRESH, front + [a]).code;
            && Failed(front + [a], i) == Failed(front, i)
            && (Ends(front, i, a) ==> to == None)
            && (!Ends(front, i, a) ==> CodeOf(front + [a], i, to))
  {
    hide Inv, CheckEnrol, Lines.Blank, Known, Without;
    var h := Run(FRESH, front);
    assert (front + [a])[..|front|] == front && (front + [a])[..i] == front[..i];
    if a.Peek? || a.Spend? {
      CheckSame(h, a.presented, a.device, a.now, a.Spend?);
    }
  }

  lemma {:induction false} CodeStep(as_: seq<Action>, i: nat)
    requires i + 1 < |as_|
    requires var front, a := as_[..|as_| - 1], as_[|as_| - 1];
             Stands(front, i) && CodeOf(front, i, Run(FRESH, front).code) && !(a.Issue? && a.written)
    ensures if Stands(as_, i) then CodeOf(as_, i, Run(FRESH, as_).code) else Run(FRESH, as_).code == None
  {
    var front, a := as_[..|as_| - 1], as_[|as_| - 1];
    assert as_ == front + [a];
    if Tries(front, a) {
      TryStep(front, a, i);
    } else {
      OtherStep(front, a, i);
      assert Failed(front, i) < 3;
    }
    StandsStep(as_, i);
    hide Ends, CodeOf, Run, Failed, Tries, Stands;
  }

  lemma {:induction false} NewEndsOld(as_: seq<Action>, i: nat)
    requires i + 1 < |as_| && as_[|as_| - 1].Issue?
    ensures !Stands(as_, i)
  {
    StandsStep(as_, i);
  }

  lemma {:induction false} NewStands(as_: seq<Action>)
    requires as_ != [] && as_[|as_| - 1].Issue? && as_[|as_| - 1].written
    ensures Stands(as_, |as_| - 1) && CodeOf(as_, |as_| - 1, Run(FRESH, as_).code)
    ensures forall i: nat :: Stands(as_, i) ==> i == |as_| - 1
  {
    hide Inv;
    var front, a := as_[..|as_| - 1], as_[|as_| - 1];
    WrittenCounts(front);
    IssueFields(Run(FRESH, front), a.secret, a.now, true);
    forall i: nat | Stands(as_, i) ensures i == |as_| - 1 {
      if i < |as_| - 1 {
        NewEndsOld(as_, i);
        assert false;
      }
    }
  }

  lemma {:induction false} NoneStays(h: Hub, a: Action)
    requires h.code.None? && !(a.Issue? && a.written)
    ensures Do(h, a).code.None?
  {
    hide Inv, Known, Without, Lines.Blank;
    if a.Peek? || a.Spend? {
      CheckSame(h, a.presented, a.device, a.now, a.Spend?);
    }
  }

  // The hub's code is that of the issue that stands.
  lemma {:induction false} CodeStands(as_: seq<Action>)
    ensures forall i: nat :: Stands(as_, i) ==> CodeOf(as_, i, Run(FRESH, as_).code)
    ensures Run(FRESH, as_).code.Some? ==> exists i: nat :: Stands(as_, i)
    decreases |as_|
  {
    if as_ != [] {
      var front, a := as_[..|as_| - 1], as_[|as_| - 1];
      CodeStands(front);
      if a.Issue? && a.written {
        NewStands(as_);
      } else {
        OldStands(as_);
      }
    }
    hide Do, CodeOf, Ends;
  }

  lemma {:induction false} OldStands(as_: seq<Action>)
    requires as_ != [] && !(as_[|as_| - 1].Issue? && as_[|as_| - 1].written)
    requires var front := as_[..|as_| - 1];
             && (forall i: nat :: Stands(front, i) ==> CodeOf(front, i, Run(FRESH, front).code))
             && (Run(FRESH, front).code.Some? ==> exists i: nat :: Stands(front, i))
    ensures forall i: nat :: Stands(as_, i) ==> CodeOf(as_, i, Run(FRESH, as_).code)
    ensures Run(FRESH, as_).code.Some? ==> exists i: nat :: Stands(as_, i)
  {
    hide Do, CodeOf, Ends, Failed;
    var front, a := as_[..|as_| - 1], as_[|as_| - 1];
    forall i: nat | Stands(as_, i) ensures CodeOf(as_, i, Run(FRESH, as_).code) {
      assert i + 1 < |as_|;
      StandsStep(as_, i);
      CodeStep(as_, i);
    }
    if Run(FRESH, as_).code.Some? {
      if Run(FRESH, front).code.None? {
        NoneStays(Run(FRESH, front), a);
      }
      var i: nat :| Stands(front, i);
      CodeStep(as_, i);
    }
  }

  // Since its issue the code was accepted from no device but this one, or from nameless ones.
  ghost predicate OnlyFrom(as_: seq<Action>, i: nat, device: string) {
    forall j :: i < j < |as_| && Tries(as_[..j], as_[j]) && Passed(as_[..j], as_[j]) ==> as_[j].device in {"", device}
  }

  lemma {:induction false} OnlyFromStep(as_: seq<Action>, i: nat, device: string)
    requires i + 1 < |as_|
    ensures var front, a := as_[..|as_| - 1], as_[|as_| - 1];
            OnlyFrom(as_, i, device) <==>
            OnlyFrom(front, i, device) && (Tries(front, a) && Passed(front, a) ==> a.device in {"", device})
  {
    hide Tries, Passed;
    var front := as_[..|as_| - 1];
    assert forall j: nat :: j <= |front| ==> front[..j] == as_[..j];
    assert forall j: nat :: j < |front| ==> front[j] == as_[j];
    assert as_[..|front|] == front;
  }

  // Acceptance asks for a live code that is right, for a device it may be used from.
  lemma {:induction false} AcceptedNeeds(h: Hub, p: string, d: string, now: nat, consume: bool)
    ensures CheckCode(h, p, d, now, consume).1 == Accepted
            <==> h.code.Some? && now < h.code.value.exp && |h.code.value.secret| == 6
                 && Spells(p, h.code.value.secret) && h.code.value.device in {"", d}
  {
    hide Spells, Digits, FailuresOf;
    if h.code.Some? {
      SpellsDigits(p, h.code.value.secret);
    }
  }

  lemma {:induction false} BoundIsOnly(as_: seq<Action>, i: nat, device: string)
    requires Stands(as_, i)
    ensures Bound(as_, i) in {"", device} <==> OnlyFrom(as_, i, device)
    decreases |as_|
  {
    hide Ends, Lines.Blank, CheckCode, Inv;
    if i + 1 < |as_| {
      var front, a := as_[..|as_| - 1], as_[|as_| - 1];
      StandsStep(as_, i);
      BoundIsOnly(front, i, device);
      OnlyFromStep(as_, i, device);
      CodeStands(front);
      if Tries(front, a) && Passed(front, a) {
        AcceptedNeeds(Run(FRESH, front), a.presented, a.device, a.now, a.Spend?);
      }
    }
    hide Stands, Passed;
  }

  /** Over every run: a code is accepted exactly while the last issue stands, within five minutes of it,
      when the digits typed are its six and no other device's try was accepted before. */
  lemma {:induction false} CodeAcceptedIff(as_: seq<Action>, p: string, d: string, now: nat, consume: bool)
    ensures CheckCode(Run(FRESH, as_), p, d, now, consume).1 == Accepted
            <==> exists i: nat :: Stands(as_, i) && now < as_[i].now + 300 && |as_[i].secret| == 6
                             && Spells(p, as_[i].secret) && OnlyFrom(as_, i, d)
  {
    hide Stands, Spells, OnlyFrom, Inv, CheckCode;
    CodeStands(as_);
    AcceptedNeeds(Run(FRESH, as_), p, d, now, consume);
    forall i: nat | Stands(as_, i) ensures i < |as_| && as_[i].Issue? && CodeOf(as_, i, Run(FRESH, as_).code) {
      StandsIsIssue(as_, i);
    }
    forall i: nat | Stands(as_, i) ensures Bound(as_, i) in {"", d} <==> OnlyFrom(as_, i, d) {
      BoundIsOnly(as_, i, d);
    }
  }

  lemma {:induction false} StandsIsIssue(as_: seq<Action>, i: nat)
    requires Stands(as_, i)
    ensures i < |as_| && as_[i].Issue?
  {
  }

  // The grant to d at i: not renewed, not spent, and no late try has dropped it.
  ghost predicate GrantEnds(before: seq<Action>, given: Action, a: Action)
    requires given.Grant?
  {
    match a
    case Grant(d, _) => d == given.device
    case Peek(p, d, now) => Lines.Blank(p) && d == given.device && now >= given.now + 300
    case Spend(r, p, d, _) => Lines.Blank(p) && d == given.device && r !in Run(FRESH, before).tickets
    case _ => false
  }

  ghost predicate GrantStands(as_: seq<Action>, i: nat, d: string) {
    && i < |as_| && as_[i].Grant? && as_[i].device == d
    && forall j :: i < j < |as_| ==> !GrantEnds(as_[..j], as_[i], as_[j])
  }

  lemma {:induction false} GrantStandsStep(as_: seq<Action>, i: nat, d: string)
    requires i + 1 < |as_| && as_[i].Grant?
    ensures var front, a := as_[..|as_| - 1], as_[|as_| - 1];
            GrantStands(as_, i, d) <==> GrantStands(front, i, d) && !GrantEnds(front, as_[i], a)
  {
    hide GrantEnds;
    var front, a := as_[..|as_| - 1], as_[|as_| - 1];
    assert forall j: nat :: j <= |front| ==> front[..j] == as_[..j];
    assert as_[..|front|] == front;
    if GrantStands(as_, i, d) {
      forall j | i < j < |front| ensures !GrantEnds(front[..j], front[i], front[j]) {
        assert !GrantEnds(as_[..j], as_[i], as_[j]);
      }
      assert !GrantEnds(as_[..|front|], as_[i], as_[|front|]);
    }
    if GrantStands(front, i, d) && !GrantEnds(front, as_[i], a) {
      forall j | i < j < |as_| ensures !GrantEnds(as_[..j], as_[i], as_[j]) {
        if j < |front| {
          assert !GrantEnds(front[..j], front[i], front[j]);
        }
      }
    }
  }

  // What a try with an empty code makes of one device's grant.
  lemma {:induction false} GrantTried(h: Hub, e: string, d: string, now: nat, consume: bool)
    requires d in h.pairs
    ensures var pairs := CheckGrant(h, e, now, consume).0.pairs;
            if e == d && (consume || now >= h.pairs[d]) then d !in pairs else d in pairs && pairs[d] == h.pairs[d]
  {
  }

  // What a step makes of one device's grant.
  lemma {:induction false} GrantFate(front: seq<Action>, a: Action, given: Action)
    requires given.Grant? && given.device in Run(FRESH, front).pairs
             && Run(FRESH, front).pairs[given.device] == given.now + 300
    ensures var pairs := Do(Run(FRESH, front), a).pairs;
            if GrantEnds(front, given, a) then given.device in pairs ==> a.Grant? && a.device == given.device
            else given.device in pairs && pairs[given.device] == given.now + 300
  {
    hide Inv, CheckCode, CheckGrant, Lines.Blank, Known, Without, Run;
    var h := Run(FRESH, front);
    if a.Peek? || a.Spend? {
      CheckSame(h, a.presented, a.device, a.now, a.Spend?);
      GrantTried(h, a.device, given.device, a.now, a.Spend?);
    }
  }

  lemma {:induction false} NoGrantStays(h: Hub, a: Action, d: string)
    requires d !in h.pairs && !(a.Grant? && a.device == d)
    ensures d !in Do(h, a).pairs
  {
    hide Inv, CheckCode, Lines.Blank, Known, Without;
    if a.Peek? || a.Spend? {
      CheckSame(h, a.presented, a.device, a.now, a.Spend?);
    }
  }

  lemma {:induction false} GrantOf(as_: seq<Action>, d: string)
    ensures var pairs := Run(FRESH, as_).pairs;
            && (forall i: nat :: GrantStands(as_, i, d) ==> d in pairs && pairs[d] == as_[i].now + 300)
            && (d in pairs ==> exists i: nat :: GrantStands(as_, i, d))
    decreases |as_|
  {
    if as_ != [] {
      var front, a := as_[..|as_| - 1], as_[|as_| - 1];
      GrantOf(front, d);
      GrantOfStep(as_, d);
    }
    hide Do, GrantEnds;
  }

  lemma {:induction false} GrantOfStep(as_: seq<Action>, d: string)
    requires as_ != []
    requires var front := as_[..|as_| - 1];
             var pairs := Run(FRESH, front).pairs;
             && (forall i: nat :: GrantStands(front, i, d) ==> d in pairs && pairs[d] == front[i].now + 300)
             && (d in pairs ==> exists i: nat :: GrantStands(front, i, d))
    ensures var pairs := Run(FRESH, as_).pairs;
            && (forall i: nat :: GrantStands(as_, i, d) ==> d in pairs && pairs[d] == as_[i].now + 300)
            && (d in pairs ==> exists i: nat :: GrantStands(as_, i, d))
  {
    hide CheckEnrol, Inv, Lines.Blank, Known, Without;
    var front, a := as_[..|as_| - 1], as_[|as_| - 1];
    var h := Run(FRESH, front);
    forall i: nat | GrantStands(as_, i, d) && i < |front|
      ensures GrantStands(front, i, d) && d in Run(FRESH, as_).pairs && Run(FRESH, as_).pairs[d] == as_[i].now + 300
    {
      GrantStandsStep(as_, i, d);
      GrantFate(front, a, as_[i]);
    }
    if a.Grant? && a.device == d {
      assert GrantStands(as_, |front|, d);
    } else if d in Run(FRESH, as_).pairs {
      if d !in h.pairs {
        NoGrantStays(h, a, d);
      }
      var i: nat :| GrantStands(front, i, d);
      GrantFate(front, a, as_[i]);
      GrantStandsStep(as_, i, d);
    }
  }

  /** Over every run: an empty code is accepted exactly while the device's last grant is unspent and
      younger than five minutes. */
  lemma {:induction false} GrantAcceptedIff(as_: seq<Action>, d: string, now: nat, consume: bool)
    ensures CheckGrant(Run(FRESH, as_), d, now, consume).1 == Accepted
            <==> exists i: nat :: GrantStands(as_, i, d) && now < as_[i].now + 300
  {
    hide GrantStands, Inv, Do;
    GrantOf(as_, d);
  }

  // ------------------------------------------------------------------ challenges

  // What one assertion may authorise, told apart by id; exp set when stored.
  datatype Challenge = Challenge(id: nat, device: string, exp: nat)

  function Live(chals: map<string, Challenge>, now: nat): map<string, Challenge> {
    map k | k in chals && now < chals[k].exp :: chals[k]
  }

  // Secrets are drawn afresh: a key stored once is not stored again.
  datatype Vault = Vault(chals: map<string, Challenge>, drawn: set<string>, used: seq<string>)

  datatype Turn = Keep(key: string, ch: Challenge, now: nat) | Present(key: string, now: nat)

  function Step(v: Vault, t: Turn): Vault {
    match t
    case Keep(key, ch, now) =>
      if key in v.drawn then v
      else v.(chals := Live(v.chals, now)[key := ch.(exp := now + CHALLENGE_TTL)], drawn := v.drawn + {key})
    case Present(key, now) =>
      var found := key in v.chals && now < v.chals[key].exp;
      v.(chals := v.chals - {key}, used := if found then v.used + [key] else v.used)
  }

  function Turns(ts: seq<Turn>): Vault {
    if ts == [] then Vault(map[], {}, []) else Step(Turns(ts[..|ts| - 1]), ts[|ts| - 1])
  }

  /** A presented challenge is spent whatever the outcome: none is accepted twice. */
  lemma {:induction false} ChallengesAreSingleUse(ts: seq<Turn>)
    ensures var v := Turns(ts);
            && (forall i, j :: 0 <= i < j < |v.used| ==> v.used[i] != v.used[j])
            && (forall i :: 0 <= i < |v.used| ==> v.used[i] in v.drawn && v.used[i] !in v.chals)
            && v.chals.Keys <= v.drawn
    decreases |ts|
  {
    if ts != [] {
      ChallengesAreSingleUse(ts[..|ts| - 1]);
    }
  }

  // The key is first kept at i, is not presented since, and no later challenge was kept after its minute.
  ghost predicate Waits(ts: seq<Turn>, i: nat, key: string) {
    && i < |ts| && ts[i].Keep? && ts[i].key == key && Fresh(ts[..i], key)
    && forall j :: i < j < |ts| ==> !Drops(ts[..j], ts[i], ts[j])
  }

  ghost predicate Fresh(ts: seq<Turn>, key: string) {
    forall i :: 0 <= i < |ts| && ts[i].Keep? ==> ts[i].key != key
  }

  ghost predicate Drops(before: seq<Turn>, kept: Turn, t: Turn)
    requires kept.Keep?
  {
    match t
    case Keep(key, _, now) => key != kept.key && Fresh(before, key) && now >= kept.now + 60
    case Present(key, _) => key == kept.key
  }

  lemma {:induction false} WaitsStep(ts: seq<Turn>, i: nat, key: string)
    requires i + 1 < |ts|
    ensures var front, t := ts[..|ts| - 1], ts[|ts| - 1];
            Waits(ts, i, key) <==> Waits(front, i, key) && !Drops(front, ts[i], t)
  {
    hide Drops, Fresh;
    var front, t := ts[..|ts| - 1], ts[|ts| - 1];
    assert forall j: nat :: j <= |front| ==> front[..j] == ts[..j];
    assert ts[..|front|] == front;
    if Waits(ts, i, key) {
      forall j | i < j < |front| ensures !Drops(front[..j], front[i], front[j]) {
        assert !Drops(ts[..j], ts[i], ts[j]);
      }
      assert !Drops(ts[..|front|], ts[i], ts[|front|]);
    }
    if Waits(front, i, key) && !Drops(front, ts[i], t) {
      forall j | i < j < |ts| ensures !Drops(ts[..j], ts[i], ts[j]) {
        if j < |front| {
          assert !Drops(front[..j], front[i], front[j]);
        }
      }
    }
  }

  lemma {:induction false} DrawnIffKept(ts: seq<Turn>, key: string)
    ensures key !in Turns(ts).drawn <==> Fresh(ts, key)
    decreases |ts|
  {
    if ts != [] {
      var front := ts[..|ts| - 1];
      DrawnIffKept(front, key);
      assert ts == front + [ts[|ts| - 1]];
      assert Fresh(ts, key) <==> Fresh(front, key) && (ts[|ts| - 1].Keep? ==> ts[|ts| - 1].key != key);
    }
  }

  // The challenge a waiting key stands for.
  ghost predicate Found(ts: seq<Turn>, i: nat, key: string, chals: map<string, Challenge>)
    requires i < |ts| && ts[i].Keep?
  {
    key in chals && chals[key] == ts[i].ch.(exp := ts[i].now + 60)
  }

  lemma {:induction false} FoundStep(ts: seq<Turn>, i: nat, key: string)
    requires i + 1 < |ts| && Waits(ts[..|ts| - 1], i, key) && Found(ts[..|ts| - 1], i, key, Turns(ts[..|ts| - 1]).chals)
    ensures if Waits(ts, i, key) then Found(ts, i, key, Turns(ts).chals) else key !in Turns(ts).chals
  {
    var front, t := ts[..|ts| - 1], ts[|ts| - 1];
    assert Turns(ts) == Step(Turns(front), t);
    WaitsStep(ts, i, key);
    if t.Keep? {
      DrawnIffKept(front, t.key);
      DrawnIffKept(front, key);
      assert front[i].Keep? && front[i].key == key;
    }
    hide Waits, Fresh, Turns;
  }

  lemma {:induction false} WaitingIsFound(ts: seq<Turn>, key: string)
    ensures forall i: nat :: Waits(ts, i, key) ==> Found(ts, i, key, Turns(ts).chals)
    ensures key in Turns(ts).chals ==> exists i: nat :: Waits(ts, i, key)
    decreases |ts|
  {
    if ts != [] {
      WaitingIsFound(ts[..|ts| - 1], key);
      WaitingStep(ts, key);
    }
  }

  lemma {:induction false} WaitingStep(ts: seq<Turn>, key: string)
    requires ts != []
    requires var front := ts[..|ts| - 1];
             && (forall i: nat :: Waits(front, i, key) ==> Found(front, i, key, Turns(front).chals))
             && (key in Turns(front).chals ==> exists i: nat :: Waits(front, i, key))
    ensures forall i: nat :: Waits(ts, i, key) ==> Found(ts, i, key, Turns(ts).chals)
    ensures key in Turns(ts).chals ==> exists i: nat :: Waits(ts, i, key)
  {
    var front, t := ts[..|ts| - 1], ts[|ts| - 1];
    DrawnIffKept(front, key);
    assert ts[..|front|] == front;
    forall i: nat | Waits(ts, i, key) ensures Found(ts, i, key, Turns(ts).chals) {
      if i < |front| {
        WaitsStep(ts, i, key);
        FoundStep(ts, i, key);
      }
    }
    if key in Turns(ts).chals {
      if t.Keep? && t.key == key && Fresh(front, key) {
        assert Waits(ts, |front|, key);
      } else {
        var i: nat :| Waits(front, i, key);
        FoundStep(ts, i, key);
      }
    }
    hide Drops, Waits;
  }

  /** Over every run: a challenge is accepted exactly when it was kept, is younger than a minute, was not
      presented before and no other was kept after that minute. */
  lemma {:induction false} ChallengeAcceptedIff(ts: seq<Turn>, key: string, now: nat)
    ensures |Step(Turns(ts), Present(key, now)).used| > |Turns(ts).used|
            <==> exists i: nat :: Waits(ts, i, key) && now < ts[i].now + 60
  {
    hide Waits, Turns;
    WaitingIsFound(ts, key);
    forall i: nat | Waits(ts, i, key) ensures i < |ts| && ts[i].Keep? && Found(ts, i, key, Turns(ts).chals) {
      WaitsIsKept(ts, i, key);
    }
  }

  lemma {:induction false} WaitsIsKept(ts: seq<Turn>, i: nat, key: string)
    requires Waits(ts, i, key)
    ensures i < |ts| && ts[i].Keep?
  {
  }

  // A challenge is accepted only within its minute.
  lemma {:induction false} AcceptedInTime(ts: seq<Turn>, key: string, now: nat)
    requires |Step(Turns(ts), Present(key, now)).used| > |Turns(ts).used|
    ensures exists i :: 0 <= i < |ts| && ts[i].Keep? && ts[i].key == key && now < ts[i].now + 60
    decreases |ts|
  {
    if ts != [] {
      var front, t := ts[..|ts| - 1], ts[|ts| - 1];
      var v := Turns(front);
      if t.Keep? && t.key == key && key !in v.drawn {
        assert ts[|ts| - 1].Keep?;
      } else {
        AcceptedInTime(front, key, now);
        var i :| 0 <= i < |front| && front[i].Keep? && front[i].key == key && now < front[i].now + CHALLENGE_TTL;
        assert ts[i] == front[i];
      }
    }
  }

  // ------------------------------------------------------------------ the hub

  class KeyHub {
    var code: Option<Code>
    var codes: nat  // tells the codes apart
    var pairs: map<string, nat>
    var recs: seq<Passkey>
    var hits: map<string, seq<nat>>
    var chals: map<string, Challenge>
    ghost var log: Hub  // the same, with what happened so far

    ghost predicate Valid()
      reads this
    {
      Inv(log) && log.code == code && log.issued == codes && log.pairs == pairs && log.recs == recs
    }

    constructor ()
      ensures Valid() && log == FRESH && hits == map[] && chals == map[]
    {
      code, codes, pairs, recs, hits, chals, log := None, 0, map[], [], map[], map[], FRESH;
      new;
      RunKeepsInv([]);
    }

    // A sliding window per bucket; a refused call is not counted.
    method Allow(bucket: string, now: nat) returns (ok: bool)
      modifies this`hits
      ensures var was := if bucket in old(hits) then old(hits)[bucket] else [];
              ok == Allowed(was, now) && hits == old(hits)[bucket := AfterCall(was, now)]
    {
      var was := if bucket in hits then hits[bucket] else [];
      var recent: seq<nat> := [];
      for i := 0 to |was|
        invariant hits == old(hits) && recent == Recent(was[..i], now)
      {
        assert was[..i + 1][..i] == was[..i];
        if now < was[i] + RATE_WINDOW {
          recent := recent + [was[i]];
        }
      }
      assert was[..|was|] == was;
      if |recent| >= RATE_MAX {
        assert recent + [] == recent;
        hits := hits[bucket := recent];
        return false;
      }
      hits := hits[bucket := recent + [now]];
      return true;
    }

    // written: whether the code file could be written. replaced: a live code was.
    method IssueCode(secret: string, now: nat, written: bool) returns (replaced: bool)
      requires Valid()
      modifies this`code, this`codes, this`log
      ensures Valid() && log == Do(old(log), Issue(secret, now, written))
      ensures replaced == (old(code).Some? && now < old(code).value.exp)
    {
      hide Inv, Do;
      CodesKeepInv(log, secret, now, written, 0);
      IssueFields(log, secret, now, written);
      replaced := code.Some? && now < code.value.exp;
      log := Do(log, Issue(secret, now, written));
      code := None;
      if written {
        code, codes := Some(Code(codes, secret, now + CODE_TTL, 0, "")), codes + 1;
      }
    }

    method CheckEnrolCode(presented: string, device: string, now: nat, consume: bool) returns (verdict: Verdict)
      requires Valid()
      modifies this`code, this`log
      ensures Valid() && (log, verdict) == CheckCode(old(log), presented, device, now, consume)
    {
      CheckCodeCounted(log, presented, device, now, consume);
      CheckCodeKeeps(log, presented, device, now, consume);
      ghost var after := CheckCode(log, presented, device, now, consume);
      hide Digits, FailuresOf, Counted, Different;
      if code.None? {
        return NoCode;
      }
      var c := code.value;
      if now >= c.exp {
        code, log := None, after.0;
        return CodeExpired;
      }
      var cleaned := Digits(presented);
      var ok := |cleaned| == 6 && cleaned == c.secret;
      if ok && c.device != "" && c.device != device {
        ok := false;
      }
      assert ok == Right(c, presented, device);
      if !ok {
        c := c.(fails := c.fails + 1);
        code, log := Some(c), after.0;
        if c.fails >= MAX_FAILS {
          code := None;
          return Voided;
        }
        return Wrong;
      }
      c := c.(device := device);
      code, log := Some(c), after.0;
      if consume {
        code := None;
      }
      return Accepted;
    }

    method GrantPair(device: string, now: nat)
      requires Valid()
      modifies this`pairs, this`log
      ensures Valid() && log == Do(old(log), Grant(device, now))
    {
      GrantKeepsInv(log, device, now);
      hide Inv;
      pairs := pairs[device := now + GRANT_TTL];
      log := Do(log, Grant(device, now));
    }

    method CheckEnrolment(presented: string, device: string, now: nat, consume: bool) returns (verdict: Verdict)
      requires Valid()
      modifies this`code, this`pairs, this`log
      ensures Valid() && (log, verdict) == CheckEnrol(old(log), presented, device, now, consume)
    {
      CheckKeeps(log, presented, device, now, consume);
      hide Inv, CheckCode, Lines.Blank;
      if !Lines.Blank(presented) {
        verdict := CheckEnrolCode(presented, device, now, consume);
        return;
      }
      ghost var after := CheckGrant(log, device, now, consume).0;
      if device !in pairs {
        return NoGrant;
      }
      if now >= pairs[device] {
        pairs, log := pairs - {device}, after;
        return GrantExpired;
      }
      if consume {
        pairs := pairs - {device};
      }
      log := after;
      return Accepted;
    }

    // The consuming check of a registration: on success request r holds what it spent.
    method SpendEnrolment(ghost r: nat, presented: string, device: string, now: nat) returns (verdict: Verdict)
      requires Valid() && r !in log.tickets
      modifies this`code, this`pairs, this`log
      ensures Valid() && log == Do(old(log), Spend(r, presented, device, now))
      ensures verdict == CheckEnrol(old(log), presented, device, now, true).1
      ensures verdict == Accepted ==> r in log.tickets && log.tickets[r] == device
    {
      SpendKeepsInv(log, r, presented, device, now);
      hide Inv, CheckEnrol;
      verdict := CheckEnrolment(presented, device, now, true);
      if verdict == Accepted {
        log := log.(tickets := log.tickets[r := device]);
      }
    }

    // Stores the credential request r has paid for, unless it is known; saved: whether it could be written.
    method StorePasskey(ghost r: nat, device: string, cred: string, saved: bool) returns (ok: bool)
      requires Valid() && r in log.tickets && log.tickets[r] == device
      modifies this`recs, this`log
      ensures Valid() && log == Do(old(log), Store(r, cred, saved))
      ensures ok == (saved && !Known(old(recs), cred))
      ensures recs == if ok then old(recs) + [Passkey(device, cred)] else old(recs)
    {
      StoreKeepsInv(log, r, cred, saved);
      var known := IsKnown(cred);
      StoreEffect(log, r, cred, saved);
      hide Inv, Do, Known;
      log := Do(log, Store(r, cred, saved));
      if known {
        return false;
      }
      recs := recs + [Passkey(device, cred)];
      if !saved {
        recs := recs[..|recs| - 1];
      }
      ok := saved;
    }

    method IsKnown(cred: string) returns (known: bool)
      ensures known == Known(recs, cred)
    {
      for i := 0 to |recs|
        invariant forall j :: 0 <= j < i ==> recs[j].cred != cred
      {
        if recs[i].cred == cred {
          return true;
        }
      }
      return false;
    }

    // The device's credentials, its code and its challenges go with its token.
    method RevokeDevice(device: string) returns (removed: nat)
      requires Valid()
      modifies this`recs, this`code, this`chals, this`log
      ensures Valid() && log == Do(old(log), Revoke(device))
      ensures removed == |old(recs)| - |recs|
      ensures forall p :: multiset(recs)[p] == if p.device == device then 0 else multiset(old(recs))[p]
      ensures chals == OthersChals(old(chals), device)
    {
      hide Inv, Different, Without, Do, OthersChals;
      LogDiffers(log);
      RevokeKeepsInv(log, device);
      RevokeFields(log, device);
      WithoutParts(recs, device);
      forall p ensures multiset(Without(recs, device))[p] == if p.device == device then 0 else multiset(recs)[p] {
        OthersStay(recs, device, p);
      }
      var kept := OthersThan(device);
      log := Do(log, Revoke(device));
      removed := |recs| - |kept|;
      recs := kept;
      if code.Some? && code.value.device == device {
        code := None;
      }
      chals := OthersChals(chals, device);
    }

    method OthersThan(device: string) returns (kept: seq<Passkey>)
      ensures kept == Without(recs, device)
    {
      kept := [];
      for i := 0 to |recs|
        invariant kept == Without(recs[..i], device)
      {
        assert recs[..i + 1][..i] == recs[..i];
        if recs[i].device != device {
          kept := kept + [recs[i]];
        }
      }
      assert recs[..|recs|] == recs;
    }

    // Drops the expired challenges and records ch under a fresh one.
    method StoreChallenge(key: string, ch: Challenge, now: nat) returns (kept: Challenge)
      modifies this`chals
      ensures kept == ch.(exp := now + CHALLENGE_TTL) && chals == Live(old(chals), now)[key := kept]
    {
      kept := ch.(exp := now + CHALLENGE_TTL);
      var left := chals.Keys;
      while left != {}
        invariant left <= old(chals).Keys && chals.Keys <= old(chals).Keys
        invariant forall k :: k in chals ==> chals[k] == old(chals)[k]
        invariant forall k :: k in left ==> k in chals
        invariant forall k :: k in old(chals) && k !in left ==> (k in chals <==> now < old(chals)[k].exp)
        decreases |left|
      {
        var k :| k in left;
        left := left - {k};
        if now >= chals[k].exp {
          chals := chals - {k};
        }
      }
      chals := chals[key := kept];
    }

    // Single use: a presented challenge is spent whatever the outcome.
    method SpendChallenge(key: string, now: nat) returns (found: Option<Challenge>)
      modifies this`chals
      ensures chals == old(chals) - {key}
      ensures found == if key in old(chals) && now < old(chals)[key].exp then Some(old(chals)[key]) else None
    {
      if key !in chals {
        return None;
      }
      var ch := chals[key];
      chals := chals - {key};
      found := if now < ch.exp then Some(ch) else None;
    }
  }
}
