/** Pairing offers as one-shot resources: made, taken by a redeemer, put back, minted or lost, in any
    interleaving (pair.go). Each step is one section under the hub's lock. */
module Pairing {
  import opened Messages

  const TTL: nat := 180          // seconds an offer lives
  const MAX_LIVE: nat := 4

  // id stands for the hash of the offer's secret code: fresh and never repeated.
  datatype Offer = Offer(id: nat, name: string, caps: seq<string>, exp: nat)

  // ------------------------------------------------------------------ the list of live offers

  function Unexpired(offers: seq<Offer>, now: nat): seq<Offer> {
    if offers == [] then []
    else
      var last := offers[|offers| - 1];
      Unexpired(offers[..|offers| - 1], now) + if now < last.exp then [last] else []
  }

  function WithOffer(offers: seq<Offer>, o: Offer, now: nat): seq<Offer> {
    var all := Unexpired(offers, now) + [o];
    if |all| > MAX_LIVE then all[|all| - MAX_LIVE..] else all
  }

  // The last offer with the id, -1 when there is none.
  function Find(offers: seq<Offer>, id: nat): (i: int)
    ensures -1 <= i < |offers|
    ensures i >= 0 ==> offers[i].id == id
    ensures forall j :: i < j < |offers| ==> offers[j].id != id
  {
    if offers == [] then -1
    else if offers[|offers| - 1].id == id then |offers| - 1
    else Find(offers[..|offers| - 1], id)
  }

  // ------------------------------------------------------------------ steps

  // hands: the offer each redeemer holds between taking it and putting it back or minting.
  datatype State = State(live: seq<Offer>, hands: map<nat, Offer>, made: seq<Offer>, minted: seq<Offer>)

  const INITIAL := State([], map[], [], [])

  datatype Action =
    | Make(name: string, caps: seq<string>, now: nat)
    | Take(redeemer: nat, code: Option<nat>, now: nat)  // None: an empty code
    | PutBack(redeemer: nat)                            // refused for identity or rate
    | Mint(redeemer: nat)
    | MintFails(redeemer: nat)

  function Do(st: State, a: Action): State {
    match a
    case Make(name, caps, now) =>
      var o := Offer(|st.made|, name, caps, now + TTL);
      st.(live := WithOffer(st.live, o, now), made := st.made + [o])
    case Take(r, code, now) =>
      if r in st.hands || code.None? then st
      else
        var i := Find(st.live, code.value);
        if i < 0 then st.(live := Unexpired(st.live, now))
        else
          var rest := st.live[..i] + st.live[i + 1..];
          if now >= st.live[i].exp then st.(live := rest)
          else st.(live := rest, hands := st.hands[r := st.live[i]])
    case PutBack(r) =>
      if r in st.hands then st.(live := st.live + [st.hands[r]], hands := st.hands - {r}) else st
    case Mint(r) =>
      if r in st.hands then st.(minted := st.minted + [st.hands[r]], hands := st.hands - {r}) else st
    case MintFails(r) => if r in st.hands then st.(hands := st.hands - {r}) else st
  }

  function Run(st: State, as_: seq<Action>): State {
    if as_ == [] then st else Do(Run(st, as_[..|as_| - 1]), as_[|as_| - 1])
  }

  // ------------------------------------------------------------------ one place per offer

  predicate Among(offers: seq<Offer>, id: nat) {
    exists i :: 0 <= i < |offers| && offers[i].id == id
  }

  predicate Held(hands: map<nat, Offer>, id: nat) {
    exists r :: r in hands && hands[r].id == id
  }

  ghost predicate Once(offers: seq<Offer>) {
    forall i, j :: 0 <= i < j < |offers| ==> offers[i].id != offers[j].id
  }

  // Every offer is as it was made.
  ghost predicate AsMade(offers: seq<Offer>, made: seq<Offer>) {
    forall i :: 0 <= i < |offers| ==> offers[i].id < |made| && offers[i] == made[offers[i].id]
  }

  ghost predicate HandsAsMade(hands: map<nat, Offer>, made: seq<Offer>) {
    && (forall r :: r in hands ==> hands[r].id < |made| && hands[r] == made[hands[r].id])
    && (forall r, q :: r in hands && q in hands && r != q ==> hands[r].id != hands[q].id)
  }

  ghost predicate Apart(st: State) {
    forall id :: !(Among(st.live, id) && Held(st.hands, id)) && !(Among(st.live, id) && Among(st.minted, id))
                 && !(Held(st.hands, id) && Among(st.minted, id))
  }

  ghost predicate Inv(st: State) {
    && Once(st.live) && Once(st.minted) && Apart(st)
    && AsMade(st.live, st.made) && AsMade(st.minted, st.made) && HandsAsMade(st.hands, st.made)
    && (forall i :: 0 <= i < |st.made| ==> st.made[i].id == i)
  }

  lemma {:induction false} UnexpiredOf(offers: seq<Offer>, now: nat, made: seq<Offer>)
    requires Once(offers) && AsMade(offers, made)
    ensures var kept := Unexpired(offers, now); Once(kept) && AsMade(kept, made) && |kept| <= |offers|
    ensures forall id :: Among(Unexpired(offers, now), id) ==> Among(offers, id)
    decreases |offers|
  {
    if offers != [] {
      var front, last := offers[..|offers| - 1], offers[|offers| - 1];
      UnexpiredOf(front, now, made);
      assert offers == front + [last];
      var kept := Unexpired(front, now);
      Parts(front, last);
      if now < last.exp {
        assert !Among(kept, last.id);
        OneMore(kept, last, made);
      }
      hide Once, AsMade, Among;
    }
  }

  lemma {:induction false} Parts(front: seq<Offer>, last: Offer)
    ensures Once(front + [last]) ==> !Among(front, last.id)
    ensures forall id :: Among(front, id) ==> Among(front + [last], id)
    ensures Among(front + [last], last.id)
  {
    var all := front + [last];
    assert all[|front|] == last;
    if Once(all) {
      forall i | 0 <= i < |front| ensures front[i].id != last.id {
        assert all[i].id != all[|front|].id;
      }
    }
    forall id | Among(front, id) ensures Among(all, id) {
      var i :| 0 <= i < |front| && front[i].id == id;
      assert all[i].id == id;
    }
  }

  // A part of a list without repeats.
  lemma {:induction false} PartOf(offers: seq<Offer>, part: seq<Offer>, made: seq<Offer>, lo: nat, hi: nat)
    requires Once(offers) && AsMade(offers, made) && lo <= hi <= |offers| && part == offers[..lo] + offers[hi..]
    ensures Once(part) && AsMade(part, made) && forall id :: Among(part, id) ==> Among(offers, id)
    ensures forall k :: lo <= k < hi ==> !Among(part, offers[k].id)
  {
    assert forall i :: 0 <= i < |part| ==> part[i] == offers[if i < lo then i else i + hi - lo];
  }

  // One more offer, not there yet.
  lemma {:induction false} OneMore(offers: seq<Offer>, o: Offer, made: seq<Offer>)
    requires Once(offers) && AsMade(offers, made) && !Among(offers, o.id) && o.id < |made| && o == made[o.id]
    ensures Once(offers + [o]) && AsMade(offers + [o], made)
    ensures forall id :: Among(offers + [o], id) <==> Among(offers, id) || id == o.id
  {
    var all := offers + [o];
    forall id | Among(offers, id) ensures Among(all, id) {
      var i :| 0 <= i < |offers| && offers[i].id == id;
      assert all[i].id == id;
    }
    assert all[|offers|] == o;
    forall i | 0 <= i < |offers| ensures offers[i].id != o.id {
      assert Among(offers, offers[i].id);
    }
  }

  lemma {:induction false} MadeGrows(offers: seq<Offer>, hands: map<nat, Offer>, made: seq<Offer>, o: Offer)
    requires AsMade(offers, made) && HandsAsMade(hands, made)
    ensures AsMade(offers, made + [o]) && HandsAsMade(hands, made + [o])
    ensures !Among(offers, |made|) && !Held(hands, |made|)
  {
  }

  lemma {:induction false} WithOfferOf(live: seq<Offer>, o: Offer, now: nat, made: seq<Offer>)
    requires Once(live) && AsMade(live, made) && o.id == |made|
    ensures var all := WithOffer(live, o, now); Once(all) && AsMade(all, made + [o])
    ensures forall id :: Among(WithOffer(live, o, now), id) ==> Among(live, id) || id == |made|
  {
    hide Once, AsMade, Among, Unexpired;
    var kept := Unexpired(live, now);
    var all := kept + [o];
    var drop := if |all| > MAX_LIVE then |all| - MAX_LIVE else 0;
    UnexpiredOf(live, now, made);
    NoHands(made);
    MadeGrows(kept, map[], made, o);
    OneMore(kept, o, made + [o]);
    assert all[..0] + all[drop..] == all[drop..] && all[0..] == all;
    PartOf(all, all[drop..], made + [o], 0, drop);
  }

  lemma {:induction false} NoHands(made: seq<Offer>)
    ensures HandsAsMade(map[], made)
  {
  }

  lemma {:induction false} MakeKeepsInv(st: State, name: string, caps: seq<string>, now: nat)
    requires Inv(st)
    ensures Inv(Do(st, Make(name, caps, now)))
  {
    hide Once, AsMade, HandsAsMade, Among, Held, WithOffer;
    var o := Offer(|st.made|, name, caps, now + TTL);
    WithOfferOf(st.live, o, now, st.made);
    MadeGrows(st.live, st.hands, st.made, o);
    MadeGrows(st.minted, st.hands, st.made, o);
  }

  lemma {:induction false} TakeKeepsInv(st: State, r: nat, code: Option<nat>, now: nat)
    requires Inv(st)
    ensures Inv(Do(st, Take(r, code, now)))
  {
    if !(r in st.hands || code.None?) {
      hide Inv, Once, AsMade, HandsAsMade, Among, Held, Unexpired, Apart;
      var i := Find(st.live, code.value);
      if i < 0 {
        PruneKeepsInv(st, now);
      } else {
        GrabKeepsInv(st, r, i);
      }
    }
  }

  lemma {:induction false} PruneKeepsInv(st: State, now: nat)
    requires Inv(st)
    ensures Inv(st.(live := Unexpired(st.live, now)))
  {
    hide Once, AsMade, HandsAsMade, Among, Held, Unexpired;
    UnexpiredOf(st.live, now, st.made);
  }

  lemma {:induction false} GrabKeepsInv(st: State, r: nat, i: nat)
    requires Inv(st) && i < |st.live| && r !in st.hands
    ensures var rest := st.live[..i] + st.live[i + 1..];
            Inv(st.(live := rest)) && Inv(st.(live := rest, hands := st.hands[r := st.live[i]]))
  {
    MadeAt(st.live, st.made, i);
    hide Once, AsMade, HandsAsMade, Among, Held;
    PartOf(st.live, st.live[..i] + st.live[i + 1..], st.made, i, i + 1);
    TakeInHand(st.hands, r, st.live[i], st.made);
  }

  lemma {:induction false} MadeAt(offers: seq<Offer>, made: seq<Offer>, i: nat)
    requires AsMade(offers, made) && i < |offers|
    ensures offers[i].id < |made| && offers[i] == made[offers[i].id] && Among(offers, offers[i].id)
  {
  }

  lemma {:induction false} TakeInHand(hands: map<nat, Offer>, r: nat, o: Offer, made: seq<Offer>)
    requires HandsAsMade(hands, made) && o.id < |made| && o == made[o.id] && r !in hands
    ensures !Held(hands, o.id) ==> HandsAsMade(hands[r := o], made)
    ensures forall id :: Held(hands[r := o], id) <==> Held(hands, id) || id == o.id
  {
    var after := hands[r := o];
    forall id | Held(hands, id) ensures Held(after, id) {
      var q :| q in hands && hands[q].id == id;
      assert q in after && after[q].id == id;
    }
    assert after[r] == o;
  }

  lemma {:induction false} LetGo(hands: map<nat, Offer>, r: nat, made: seq<Offer>)
    requires HandsAsMade(hands, made) && r in hands
    ensures HandsAsMade(hands - {r}, made) && !Held(hands - {r}, hands[r].id) && Held(hands, hands[r].id)
    ensures forall id :: Held(hands - {r}, id) ==> Held(hands, id)
  {
  }

  lemma {:induction false} HandKeepsInv(st: State, r: nat)
    requires Inv(st)
    ensures Inv(Do(st, PutBack(r))) && Inv(Do(st, Mint(r))) && Inv(Do(st, MintFails(r)))
  {
    if r in st.hands {
      LetGo(st.hands, r, st.made);
      assert !Among(st.live, st.hands[r].id) && !Among(st.minted, st.hands[r].id);
      OneMore(st.live, st.hands[r], st.made);
      OneMore(st.minted, st.hands[r], st.made);
      hide Once, AsMade, HandsAsMade, Among, Held;
    }
  }

  lemma {:induction false} StepKeepsInv(st: State, a: Action)
    requires Inv(st)
    ensures Inv(Do(st, a))
  {
    match a {
      case Make(name, caps, now) => MakeKeepsInv(st, name, caps, now);
      case Take(r, code, now) => TakeKeepsInv(st, r, code, now);
      case PutBack(r) => HandKeepsInv(st, r);
      case Mint(r) => HandKeepsInv(st, r);
      case MintFails(r) => HandKeepsInv(st, r);
    }
  }

  /** In every interleaving each offer is in exactly one place: live, in one redeemer's hand, or gone;
      so it mints at most one token, with the name and rights it was made with. */
  lemma {:induction false} OffersAreOneShot(as_: seq<Action>)
    ensures Inv(Run(INITIAL, as_))
    decreases |as_|
  {
    if as_ != [] {
      OffersAreOneShot(as_[..|as_| - 1]);
      StepKeepsInv(Run(INITIAL, as_[..|as_| - 1]), as_[|as_| - 1]);
    }
  }

  predicate Gone(st: State, id: nat) {
    id < |st.made| && !Among(st.live, id) && !Held(st.hands, id)
  }

  lemma {:induction false} GoneStep(st: State, a: Action, id: nat)
    requires Inv(st) && Gone(st, id)
    ensures Gone(Do(st, a), id)
    ensures Among(Do(st, a).minted, id) <==> Among(st.minted, id)
  {
    hide Once, AsMade, HandsAsMade, Among, Held, Unexpired, WithOffer;
    match a {
      case Make(name, caps, now) => WithOfferOf(st.live, Offer(|st.made|, name, caps, now + TTL), now, st.made);
      case Take(r, code, now) =>
        UnexpiredOf(st.live, now, st.made);
        if code.Some? && Find(st.live, code.value) >= 0 {
          var i := Find(st.live, code.value);
          PartOf(st.live, st.live[..i] + st.live[i + 1..], st.made, i, i + 1);
          IsAmong(st.live, i);
          if r !in st.hands {
            TakeInHand(st.hands, r, st.live[i], st.made);
          }
        }
      case PutBack(r) => HandedOn(st, r);
      case Mint(r) => HandedOn(st, r);
      case MintFails(r) => HandedOn(st, r);
    }
  }

  lemma {:induction false} IsAmong(offers: seq<Offer>, i: nat)
    requires i < |offers|
    ensures Among(offers, offers[i].id)
    ensures forall made :: AsMade(offers, made) ==> offers[i].id < |made| && offers[i] == made[offers[i].id]
  {
  }

  lemma {:induction false} HandedOn(st: State, r: nat)
    requires Inv(st)
    ensures r in st.hands ==>
              var o := st.hands[r];
              && Held(st.hands, o.id) && (forall id :: Held(st.hands - {r}, id) ==> Held(st.hands, id))
              && (forall id :: Among(st.live + [o], id) <==> Among(st.live, id) || id == o.id)
              && (forall id :: Among(st.minted + [o], id) <==> Among(st.minted, id) || id == o.id)
  {
    if r in st.hands {
      LetGo(st.hands, r, st.made);
      OneMore(st.live, st.hands[r], st.made);
      OneMore(st.minted, st.hands[r], st.made);
    }
  }

  /** A lost or minted offer never comes back and mints no further token. */
  lemma {:induction false} GoneForGood(st: State, as_: seq<Action>, id: nat)
    requires Inv(st) && Gone(st, id)
    ensures var later := Run(st, as_);
            Inv(later) && Gone(later, id) && (Among(later.minted, id) <==> Among(st.minted, id))
    decreases |as_|
  {
    hide Gone, Inv, Among, Do;
    if as_ != [] {
      GoneForGood(st, as_[..|as_| - 1], id);
      StepKeepsInv(Run(st, as_[..|as_| - 1]), as_[|as_| - 1]);
      GoneStep(Run(st, as_[..|as_| - 1]), as_[|as_| - 1], id);
    }
  }

  // ------------------------------------------------------------------ how many are live

  // Only redeemers below r take part.
  predicate Few(as_: seq<Action>, r: nat) {
    forall i :: 0 <= i < |as_| && as_[i].Take? ==> as_[i].redeemer < r
  }

  lemma {:induction false} UnexpiredShrinks(offers: seq<Offer>, now: nat)
    ensures |Unexpired(offers, now)| <= |offers|
    decreases |offers|
  {
    if offers != [] {
      UnexpiredShrinks(offers[..|offers| - 1], now);
    }
  }

  lemma {:induction false} Below(s: set<nat>, r: nat)
    requires forall q :: q in s ==> q < r
    ensures |s| <= r
    decreases r
  {
    if r == 0 {
      assert s == {};
    } else {
      Below(s - {r - 1}, r - 1);
    }
  }

  lemma {:induction false} FewHands(hands: map<nat, Offer>, r: nat)
    requires forall q :: q in hands ==> q < r
    ensures |hands| <= r
  {
    Below(hands.Keys, r);
    assert |hands| == |hands.Keys|;
  }

  lemma {:induction false} HandStep(hands: map<nat, Offer>, r: nat, o: Offer)
    ensures r in hands ==> |hands - {r}| == |hands| - 1
    ensures r !in hands ==> |hands[r := o]| == |hands| + 1
  {
    if r in hands {
      assert hands.Keys == (hands - {r}).Keys + {r};
    } else {
      assert hands[r := o].Keys == hands.Keys + {r};
    }
  }

  lemma {:induction false} LiveStep(st: State, a: Action, r: nat)
    requires (forall q :: q in st.hands ==> q < r) && |st.live| + |st.hands| <= MAX_LIVE + r
    requires a.Take? ==> a.redeemer < r
    ensures var to := Do(st, a);
            (forall q :: q in to.hands ==> q < r) && |to.live| + |to.hands| <= MAX_LIVE + r
  {
    FewHands(st.hands, r);
    if a.Make? {
      hide Unexpired;
    } else if a.Take? {
      TakeCount(st, a.redeemer, a.code, a.now);
      hide Do;
    } else {
      HandCount(st, a);
      hide Do;
    }
  }

  lemma {:induction false} TakeCount(st: State, q: nat, code: Option<nat>, now: nat)
    ensures var to := Do(st, Take(q, code, now));
            |to.live| + |to.hands| <= |st.live| + |st.hands| && to.hands.Keys <= st.hands.Keys + {q}
  {
    UnexpiredShrinks(st.live, now);
    hide Unexpired;
    if code.Some? && Find(st.live, code.value) >= 0 {
      HandStep(st.hands, q, st.live[Find(st.live, code.value)]);
    }
  }

  lemma {:induction false} HandCount(st: State, a: Action)
    requires a.PutBack? || a.Mint? || a.MintFails?
    ensures var to := Do(st, a);
            |to.live| + |to.hands| <= |st.live| + |st.hands| && to.hands.Keys <= st.hands.Keys
  {
    HandStep(st.hands, a.redeemer, Offer(0, "", [], 0));
  }

  /** With r concurrent redeemers never more than 4 + r offers are out, live or in hand. */
  lemma {:induction false} OffersOut(as_: seq<Action>, r: nat)
    requires Few(as_, r)
    ensures var st := Run(INITIAL, as_);
            (forall q :: q in st.hands ==> q < r) && |st.live| + |st.hands| <= MAX_LIVE + r
    decreases |as_|
  {
    hide Do;
    if as_ != [] {
      OffersOut(as_[..|as_| - 1], r);
      LiveStep(Run(INITIAL, as_[..|as_| - 1]), as_[|as_| - 1], r);
    }
  }

  // The cap on live offers holds when one is made, not when one is put back.
  lemma {:induction false} PutBackExceedsCap(st: State, name: string, caps: seq<string>, now: nat)
    requires Inv(st) && |st.live| == MAX_LIVE && (forall i :: 0 <= i < MAX_LIVE ==> now < st.live[i].exp) && 0 !in st.hands
    ensures var taken := Do(st, Take(0, Some(st.live[0].id), now));
            var made := Do(taken, Make(name, caps, now));
            |made.live| == MAX_LIVE && |Do(made, PutBack(0)).live| == MAX_LIVE + 1
  {
    var i := Find(st.live, st.live[0].id);
    assert i == 0;
    var rest := st.live[1..];
    assert st.live[..0] + st.live[1..] == rest;
    AllUnexpired(rest, now);
  }

  // The step that breaks the cap.
  predicate Overfills(st: State, a: Action) {
    a.PutBack? && a.redeemer in st.hands && |st.live| == MAX_LIVE
  }

  /** From a list within the cap, one step leaves it exactly when an offer in hand is put back while four
      are live. */
  lemma {:induction false} CapStep(st: State, a: Action)
    requires |st.live| <= MAX_LIVE
    ensures |Do(st, a).live| <= 4 <==> !Overfills(st, a)
  {
    hide Find;
    match a
    case Take(q, code, now) => UnexpiredShrinks(st.live, now);
    case _ =>
  }

  ghost predicate WithinCap(as_: seq<Action>) {
    forall n :: 0 <= n <= |as_| ==> |Run(INITIAL, as_[..n]).live| <= MAX_LIVE
  }

  ghost predicate Overfilled(as_: seq<Action>) {
    exists n :: 0 <= n < |as_| && Overfills(Run(INITIAL, as_[..n]), as_[n])
  }

  /** Over any run at most four offers are live throughout exactly when none is put back at four. */
  lemma {:induction false} CapHoldsIff(as_: seq<Action>)
    ensures WithinCap(as_) <==> !Overfilled(as_)
    decreases |as_|
  {
    hide Do, Overfills, WithinCap, Overfilled, Run;
    if as_ == [] {
      NoSteps();
    } else {
      var front := as_[..|as_| - 1];
      CapHoldsIff(front);
      CapSnoc(front, as_[|as_| - 1]);
      assert as_ == front + [as_[|as_| - 1]];
      if WithinCap(front) {
        LastWithin(front);
        CapStep(Run(INITIAL, front), as_[|as_| - 1]);
      }
    }
  }

  lemma {:induction false} NoSteps()
    ensures WithinCap([]) && !Overfilled([])
  {
  }

  lemma {:induction false} LastWithin(as_: seq<Action>)
    requires WithinCap(as_)
    ensures |Run(INITIAL, as_).live| <= MAX_LIVE
  {
    hide Run;
    assert as_[..|as_|] == as_;
  }

  lemma {:induction false} CapSnoc(front: seq<Action>, a: Action)
    ensures var as_ := front + [a];
            && (WithinCap(as_) <==> WithinCap(front) && |Do(Run(INITIAL, front), a).live| <= MAX_LIVE)
            && (Overfilled(as_) <==> Overfilled(front) || Overfills(Run(INITIAL, front), a))
  {
    var as_ := front + [a];
    RunSnoc(INITIAL, front, a);
    hide Do, Run, Overfills;
    assert as_[..|as_|] == as_ && as_[..|front|] == front && as_[|front|] == a;
    forall n | 0 <= n <= |front| ensures as_[..n] == front[..n] {
    }
    if n :| 0 <= n < |front| && Overfills(Run(INITIAL, front[..n]), front[n]) {
      assert Overfills(Run(INITIAL, as_[..n]), as_[n]);
    }
    if WithinCap(as_) {
      assert |Run(INITIAL, as_[..|as_|]).live| <= MAX_LIVE;
      forall n | 0 <= n <= |front| ensures |Run(INITIAL, front[..n]).live| <= MAX_LIVE {
        assert |Run(INITIAL, as_[..n]).live| <= MAX_LIVE;
      }
    }
  }

  lemma {:induction false} RunSnoc(st: State, as_: seq<Action>, a: Action)
    ensures Run(st, as_ + [a]) == Do(Run(st, as_), a)
  {
    assert (as_ + [a])[..|as_|] == as_;
  }

  // Four offers, and then r redeemers who each take the newest before another is made.
  function Grabs(r: nat): seq<Action> {
    if r == 0 then [Make("", [], 0), Make("", [], 0), Make("", [], 0), Make("", [], 0)]
    else Grabs(r - 1) + [Take(r - 1, Some(r + 2), 0)] + [Make("", [], 0)]
  }

  // All of them are refused.
  function PutBacks(r: nat): seq<Action> {
    if r == 0 then [] else PutBacks(r - 1) + [PutBack(r - 1)]
  }

  function Nth(id: nat): Offer {
    Offer(id, "", [], TTL)
  }

  ghost predicate Grabbed(st: State, r: nat) {
    && st.live == [Nth(0), Nth(1), Nth(2), Nth(r + 3)] && |st.made| == r + 4
    && (forall q: nat :: q in st.hands <==> q < r) && forall q: nat :: q < r ==> st.hands[q] == Nth(q + 3)
  }

  lemma {:induction false} MakeOne(st: State)
    requires |st.live| < MAX_LIVE && forall i :: 0 <= i < |st.live| ==> 0 < st.live[i].exp
    ensures Do(st, Make("", [], 0)) == st.(live := st.live + [Nth(|st.made|)], made := st.made + [Nth(|st.made|)])
  {
    AllUnexpired(st.live, 0);
    hide Unexpired;
  }

  // The first n offers, nobody holding any.
  function Made(n: nat): State {
    var offers := seq(n, i requires 0 <= i < n => Nth(i));
    State(offers, map[], offers, [])
  }

  lemma {:induction false} MakeNext(as_: seq<Action>, n: nat)
    requires n < MAX_LIVE && Run(INITIAL, as_) == Made(n)
    ensures Run(INITIAL, as_ + [Make("", [], 0)]) == Made(n + 1)
  {
    hide Run, Do;
    RunSnoc(INITIAL, as_, Make("", [], 0));
    MakeOne(Made(n));
    assert Made(n + 1).live == Made(n).live + [Nth(n)];
  }

  lemma {:induction false} FourMade()
    ensures Grabbed(Run(INITIAL, Grabs(0)), 0)
  {
    var make := Make("", [], 0);
    var one, two, three := [make], [make] + [make], [make] + [make] + [make];
    assert [] + [make] == one && three + [make] == Grabs(0);
    assert Run(INITIAL, []) == Made(0);
    hide Run, Do, Grabbed;
    MakeNext([], 0);
    MakeNext(one, 1);
    MakeNext(two, 2);
    MakeNext(three, 3);
    FourGrabbed();
  }

  lemma {:induction false} FourGrabbed()
    ensures Grabbed(Made(MAX_LIVE), 0)
  {
    var st := Made(4);
    assert st.live == [Nth(0), Nth(1), Nth(2), Nth(3)];
    assert |st.made| == 4;
  }

  lemma {:induction false} GrabStep(st: State, r: nat)
    requires Grabbed(st, r)
    ensures Grabbed(Do(Do(st, Take(r, Some(r + 3), 0)), Make("", [], 0)), r + 1)
  {
    assert Find(st.live, r + 3) == 3;
    var three := [Nth(0), Nth(1), Nth(2)];
    assert st.live[..3] + st.live[3 + 1..] == three;
    AllUnexpired(three, 0);
    hide Find, Unexpired;
  }

  lemma {:induction false} GrabsGrab(r: nat)
    ensures Grabbed(Run(INITIAL, Grabs(r)), r)
    decreases r
  {
    hide Run, Do, Grabbed;
    if r == 0 {
      FourMade();
    } else {
      GrabsGrab(r - 1);
      GrabStep(Run(INITIAL, Grabs(r - 1)), r - 1);
      RunSnoc(INITIAL, Grabs(r - 1), Take(r - 1, Some(r + 2), 0));
      RunSnoc(INITIAL, Grabs(r - 1) + [Take(r - 1, Some(r + 2), 0)], Make("", [], 0));
    }
  }

  lemma {:induction false} PutBacksReturn(as_: seq<Action>, r: nat, k: nat)
    requires k <= r && Grabbed(Run(INITIAL, as_), r)
    ensures var st := Run(INITIAL, as_ + PutBacks(k));
            |st.live| == 4 + k && forall q :: k <= q < r ==> q in st.hands
    decreases k
  {
    hide Run, Do;
    if k == 0 {
      assert as_ + PutBacks(0) == as_;
    } else {
      PutBacksReturn(as_, r, k - 1);
      assert as_ + PutBacks(k) == (as_ + PutBacks(k - 1)) + [PutBack(k - 1)];
      RunSnoc(INITIAL, as_ + PutBacks(k - 1), PutBack(k - 1));
      Returned(Run(INITIAL, as_ + PutBacks(k - 1)), k - 1);
    }
  }

  lemma {:induction false} Returned(st: State, q: nat)
    requires q in st.hands
    ensures var to := Do(st, PutBack(q)); |to.live| == |st.live| + 1 && to.hands == st.hands - {q}
  {
  }

  lemma {:induction false} FewPutBacks(as_: seq<Action>, r: nat, k: nat)
    requires Few(as_, r)
    ensures Few(as_ + PutBacks(k), r)
    decreases k
  {
    if k > 0 {
      FewPutBacks(as_, r, k - 1);
      assert as_ + PutBacks(k) == (as_ + PutBacks(k - 1)) + [PutBack(k - 1)];
    }
  }

  lemma {:induction false} FewGrabs(r: nat)
    ensures Few(Grabs(r), r)
    decreases r
  {
    if r > 0 {
      FewGrabs(r - 1);
    }
  }

  /** The bound of OffersOut is reached: for every r some run with r redeemers ends with 4 + r live. */
  lemma {:induction false} BoundIsReached(r: nat)
    ensures var as_ := Grabs(r) + PutBacks(r); Few(as_, r) && |Run(INITIAL, as_).live| == 4 + r
  {
    hide *;
    GrabsGrab(r);
    PutBacksReturn(Grabs(r), r, r);
    FewGrabs(r);
    FewPutBacks(Grabs(r), r, r);
  }

  lemma {:induction false} AllUnexpired(offers: seq<Offer>, now: nat)
    requires forall i :: 0 <= i < |offers| ==> now < offers[i].exp
    ensures Unexpired(offers, now) == offers
    decreases |offers|
  {
    if offers != [] {
      AllUnexpired(offers[..|offers| - 1], now);
    }
  }

  // ------------------------------------------------------------------ expiry

  predicate StillGood(offers: seq<Offer>, now: nat, i: nat) {
    i < |offers| && now < offers[i].exp
  }

  // Pruning keeps exactly the offers whose time has not come, in their order.
  lemma {:induction false} UnexpiredInOrder(offers: seq<Offer>, now: nat) returns (at: seq<nat>)
    ensures |at| == |Unexpired(offers, now)|
    ensures forall k :: 0 <= k < |at| ==> at[k] < |offers| && Unexpired(offers, now)[k] == offers[at[k]]
    ensures forall j, k :: 0 <= j < k < |at| ==> at[j] < at[k]
    ensures forall i: nat :: i in at <==> StillGood(offers, now, i)
    decreases |offers|
  {
    hide StillGood;
    if offers == [] {
      at := [];
      NoneGood(now);
    } else {
      var front, o := offers[..|offers| - 1], offers[|offers| - 1];
      at := UnexpiredInOrder(front, now);
      assert offers == front + [o];
      GoodSnoc(front, o, now);
      if now < o.exp {
        InSnoc(at, |front|);
        at := at + [|front|];
      }
    }
  }

  lemma {:induction false} NoneGood(now: nat)
    ensures forall i: nat :: !StillGood([], now, i)
  {
  }

  lemma {:induction false} GoodSnoc(front: seq<Offer>, o: Offer, now: nat)
    ensures forall i: nat :: StillGood(front + [o], now, i) <==> StillGood(front, now, i) || (i == |front| && now < o.exp)
  {
  }

  lemma {:induction false} InSnoc(at: seq<nat>, n: nat)
    ensures forall i: nat :: i in at + [n] <==> i in at || i == n
  {
  }

  // Some step made the offer, to live three minutes.
  ghost predicate OfferedAt(as_: seq<Action>, o: Offer, i: nat) {
    i < |as_| && as_[i].Make? && as_[i].name == o.name && as_[i].caps == o.caps && o.exp == as_[i].now + 180
  }

  ghost predicate WasMade(as_: seq<Action>, o: Offer) {
    exists i: nat :: OfferedAt(as_, o, i)
  }

  // ... and a later one took it by its code within them.
  ghost predicate TakenInTime(as_: seq<Action>, o: Offer) {
    exists i: nat, j: nat :: TakenAt(as_, o, i, j)
  }

  ghost predicate TakenAt(as_: seq<Action>, o: Offer, i: nat, j: nat) {
    OfferedAt(as_, o, i) && i < j < |as_| && as_[j].Take? && as_[j].code == Some(o.id) && as_[j].now < as_[i].now + 180
  }

  ghost predicate AllWereMade(as_: seq<Action>, offers: seq<Offer>) {
    forall k :: 0 <= k < |offers| ==> WasMade(as_, offers[k])
  }

  ghost predicate InTime(as_: seq<Action>, st: State) {
    && AllWereMade(as_, st.live)
    && (forall r :: r in st.hands ==> TakenInTime(as_, st.hands[r]))
    && (forall k :: 0 <= k < |st.minted| ==> TakenInTime(as_, st.minted[k]))
  }

  lemma {:induction false} MadeLonger(front: seq<Action>, a: Action, o: Offer)
    ensures WasMade(front, o) ==> WasMade(front + [a], o)
    ensures TakenInTime(front, o) ==> TakenInTime(front + [a], o) && WasMade(front, o)
  {
    if i: nat :| OfferedAt(front, o, i) {
      assert OfferedAt(front + [a], o, i);
    }
    if i: nat, j: nat :| TakenAt(front, o, i, j) {
      assert TakenAt(front + [a], o, i, j) && OfferedAt(front, o, i);
    }
  }

  lemma {:induction false} InTimeLonger(front: seq<Action>, a: Action, st: State)
    requires InTime(front, st)
    ensures InTime(front + [a], st)
  {
    hide WasMade, TakenInTime;
    forall k | 0 <= k < |st.live| ensures WasMade(front + [a], st.live[k]) {
      MadeLonger(front, a, st.live[k]);
    }
    forall r | r in st.hands ensures TakenInTime(front + [a], st.hands[r]) {
      MadeLonger(front, a, st.hands[r]);
    }
    forall k | 0 <= k < |st.minted| ensures TakenInTime(front + [a], st.minted[k]) {
      MadeLonger(front, a, st.minted[k]);
    }
  }

  lemma {:induction false} UnexpiredWereMade(as_: seq<Action>, offers: seq<Offer>, now: nat)
    requires AllWereMade(as_, offers)
    ensures AllWereMade(as_, Unexpired(offers, now))
  {
    hide WasMade;
    var at := UnexpiredInOrder(offers, now);
  }

  lemma {:induction false} TakeInTime(front: seq<Action>, st: State, r: nat, code: Option<nat>, now: nat)
    requires InTime(front, st)
    ensures InTime(front + [Take(r, code, now)], Do(st, Take(r, code, now)))
  {
    var a := Take(r, code, now);
    InTimeLonger(front, a, st);
    hide Unexpired, Find, TakenInTime, WasMade;
    if r !in st.hands && code.Some? {
      var i := Find(st.live, code.value);
      if i < 0 {
        UnexpiredWereMade(front + [a], st.live, now);
      } else {
        TakenNow(front, a, st.live[i]);
        OneLess(front + [a], st.live, i);
        MadeLonger(front, a, st.live[i]);
      }
    }
    hide AllWereMade;
  }

  lemma {:induction false} OneLess(as_: seq<Action>, offers: seq<Offer>, i: nat)
    requires AllWereMade(as_, offers) && i < |offers|
    ensures AllWereMade(as_, offers[..i] + offers[i + 1..])
  {
    hide WasMade;
  }

  lemma {:induction false} TakenNow(front: seq<Action>, a: Action, o: Offer)
    requires WasMade(front, o) && a.Take? && a.code == Some(o.id)
    ensures a.now < o.exp ==> TakenInTime(front + [a], o)
  {
    var i: nat :| OfferedAt(front, o, i);
    assert a.now < o.exp ==> TakenAt(front + [a], o, i, |front|);
  }

  lemma {:induction false} MakeInTime(front: seq<Action>, st: State, name: string, caps: seq<string>, now: nat)
    requires InTime(front, st)
    ensures InTime(front + [Make(name, caps, now)], Do(st, Make(name, caps, now)))
  {
    var a := Make(name, caps, now);
    InTimeLonger(front, a, st);
    var o := Offer(|st.made|, name, caps, now + TTL);
    assert OfferedAt(front + [a], o, |front|);
    UnexpiredWereMade(front + [a], st.live, now);
    hide Unexpired, TakenInTime, OfferedAt;
    assert AllWereMade(front + [a], Unexpired(st.live, now) + [o]);
  }

  lemma {:induction false} RestInTime(front: seq<Action>, st: State, a: Action)
    requires InTime(front, st) && (a.PutBack? || a.Mint? || a.MintFails?)
    ensures InTime(front + [a], Do(st, a))
  {
    InTimeLonger(front, a, st);
    hide TakenInTime, WasMade;
    if a.redeemer in st.hands {
      MadeLonger(front + [a], a, st.hands[a.redeemer]);
    }
  }

  /** Over every run: what is held or minted was taken by its code within three minutes of being made. */
  lemma {:induction false} RedeemedInTime(as_: seq<Action>)
    ensures InTime(as_, Run(INITIAL, as_))
    decreases |as_|
  {
    hide Do, InTime;
    if as_ == [] {
      NothingInTime();
    } else {
      var front, a := as_[..|as_| - 1], as_[|as_| - 1];
      RedeemedInTime(front);
      var st := Run(INITIAL, front);
      assert as_ == front + [a];
      match a {
        case Make(name, caps, now) => MakeInTime(front, st, name, caps, now);
        case Take(r, code, now) => TakeInTime(front, st, r, code, now);
        case _ => RestInTime(front, st, a);
      }
    }
  }

  lemma {:induction false} NothingInTime()
    ensures InTime([], INITIAL)
  {
  }

  // ------------------------------------------------------------------ the hub

  class Hub {
    var offers: seq<Offer>
    ghost var hands: map<nat, Offer>
    ghost var made: seq<Offer>
    ghost var minted: seq<Offer>

    ghost function View(): State
      reads this
    {
      State(offers, hands, made, minted)
    }

    constructor ()
      ensures View() == INITIAL
    {
      offers, hands, made, minted := [], map[], [], [];
    }

    method Prune(now: nat)
      modifies this`offers
      ensures offers == Unexpired(old(offers), now)
    {
      var live: seq<Offer> := [];
      for i := 0 to |offers|
        invariant offers == old(offers) && live == Unexpired(offers[..i], now)
      {
        assert offers[..i + 1][..i] == offers[..i];
        if now < offers[i].exp {
          live := live + [offers[i]];
        }
      }
      assert offers[..|offers|] == offers;
      offers := live;
    }

    method Add(o: Offer, now: nat)
      modifies this`offers
      ensures offers == WithOffer(old(offers), o, now) && |offers| <= 4 && offers != [] && offers[|offers| - 1] == o
    {
      Prune(now);
      offers := offers + [o];
      if |offers| > MAX_LIVE {
        offers := offers[|offers| - MAX_LIVE..];
      }
    }

    // Spends the offer with the code; every candidate is compared. expired: it is spent all the same.
    method TakeOffer(code: nat, now: nat) returns (o: Option<Offer>, expired: bool)
      modifies this`offers
      ensures var i := Find(old(offers), code);
              if i < 0 then o.None? && !expired && offers == Unexpired(old(offers), now)
              else o == Some(old(offers)[i]) && expired == (now >= old(offers)[i].exp)
                   && offers == old(offers)[..i] + old(offers)[i + 1..]
    {
      var idx := -1;
      for i := 0 to |offers|
        invariant offers == old(offers) && -1 <= idx < i && (idx >= 0 ==> offers[idx].id == code)
        invariant forall j :: idx < j < i ==> offers[j].id != code
      {
        if offers[i].id == code {
          idx := i;
        }
      }
      if idx < 0 {
        Prune(now);
        return None, false;
      }
      o := Some(offers[idx]);
      offers := offers[..idx] + offers[idx + 1..];
      expired := now >= o.value.exp;
    }

    // Redeems a code, uninterrupted, as redeemer q: eligible is the identity rule for an offer's rights,
    // allowed the rate budget, mints whether a token can be made.
    method Redeem(ghost q: nat, code: Option<nat>, now: nat, eligible: seq<string> -> bool, allowed: bool, mints: bool)
      returns (r: Redemption)
      requires q !in hands
      modifies this
      ensures View() == AfterRedemption(old(View()), q, code, now, r)
      ensures r.Refused? <==> code.None? || var i := Find(old(offers), code.value); i < 0 || now >= old(offers)[i].exp
      ensures !r.Refused? ==> r.offer == old(offers)[Find(old(offers), code.value)]
      ensures !r.Refused? ==> (r.Returned? <==> !(eligible(r.offer.caps) && allowed)) && (r.Minted? ==> mints) && (r.Lost? ==> !mints)
    {
      if code.None? {
        return Refused;
      }
      var o, expired := TakeOffer(code.value, now);
      if o.None? || expired {
        return Refused;
      }
      assert hands - {q} == hands;
      assert hands[q := o.value] - {q} == hands;
      if !eligible(o.value.caps) || !allowed {
        offers := offers + [o.value];
        return Returned(o.value);
      }
      if !mints {
        return Lost(o.value);
      }
      minted := minted + [o.value];
      return Minted(o.value);
    }
  }

  // How a redemption ends; a refused one found no live offer.
  datatype Redemption = Refused | Returned(offer: Offer) | Minted(offer: Offer) | Lost(offer: Offer)

  // Its steps.
  function AfterRedemption(st: State, q: nat, code: Option<nat>, now: nat, r: Redemption): State {
    var taken := Do(st, Take(q, code, now));
    match r
    case Refused => taken
    case Returned(_) => Do(taken, PutBack(q))
    case Minted(_) => Do(taken, Mint(q))
    case Lost(_) => Do(taken, MintFails(q))
  }
}
