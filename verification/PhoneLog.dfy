/** Claiming a session's peer rows that are echoes of the phone's own sends (phonelog.go). */
module PhoneLog {
  import opened Messages
  import Text

  const KEEP := 512
  const WINDOW := 3 * 3600
  const SKEW := 120

  // A text the phone sent, normalised, and when (unix seconds).
  datatype Sent = Sent(session: string, text: string, at: int)

  // Only a peer row without a sender session can be an echo.
  predicate Unclaimed(m: HistMsg) {
    m.role == "peer" && m.sender == "" && (m.origin == "peer:" || m.origin == "peer:unknown")
  }

  predicate Fits(e: Sent, m: HistMsg) {
    e.text == Text.Norm(m.content) && e.at - SKEW <= m.ts <= e.at + WINDOW
  }

  predicate CanClaim(sent: seq<Sent>, used: set<nat>, m: HistMsg, j: nat) {
    j < |sent| && j !in used && Fits(sent[j], m)
  }

  // The oldest send that is still free and fits m.
  predicate Oldest(sent: seq<Sent>, used: set<nat>, m: HistMsg, j: nat) {
    CanClaim(sent, used, m, j) && forall k: nat :: k < j ==> !CanClaim(sent, used, m, k)
  }

  // The sends claimed by the rows from i on, oldest send first: row index to send index.
  function Claims(sent: seq<Sent>, msgs: seq<HistMsg>, i: nat, used: set<nat>): map<nat, nat>
    requires i <= |msgs|
    decreases |msgs| - i
  {
    if i == |msgs| then map[]
    else if j: nat :| j < |sent| && Unclaimed(msgs[i]) && Oldest(sent, used, msgs[i], j) then
      Claims(sent, msgs, i + 1, used + {j})[i := j]
    else Claims(sent, msgs, i + 1, used)
  }

  // Any one-to-one assignment of free sends to fitting rows from i on.
  ghost predicate Matching(sent: seq<Sent>, msgs: seq<HistMsg>, i: nat, used: set<nat>, m: map<nat, nat>) {
    && (forall r :: r in m ==> i <= r < |msgs| && Unclaimed(msgs[r]) && CanClaim(sent, used, msgs[r], m[r]))
    && (forall r, s :: r in m && s in m && r != s ==> m[r] != m[s])
  }

  // Two rows that the same send could be claimed for.
  predicate Rivals(m: HistMsg, n: HistMsg) {
    Unclaimed(m) && Unclaimed(n) && Text.Norm(m.content) == Text.Norm(n.content)
  }

  // Sends of one text, and rows of one text that could be claimed, stand in time order.
  ghost predicate InTimeOrder(sent: seq<Sent>, msgs: seq<HistMsg>) {
    && (forall j, k :: 0 <= j < k < |sent| && sent[j].text == sent[k].text ==> sent[j].at <= sent[k].at)
    && (forall r, s :: 0 <= r < s < |msgs| && Rivals(msgs[r], msgs[s]) ==> msgs[r].ts <= msgs[s].ts)
  }

  lemma OldestExists(sent: seq<Sent>, used: set<nat>, m: HistMsg, j: nat) returns (first: nat)
    requires CanClaim(sent, used, m, j)
    ensures Oldest(sent, used, m, first)
    decreases j
  {
    if k: nat :| k < j && CanClaim(sent, used, m, k) {
      first := OldestExists(sent, used, m, k);
    } else {
      first := j;
    }
  }

  /** The claims are one-to-one and respect text and window. */
  lemma {:induction false} ClaimsAreMatching(sent: seq<Sent>, msgs: seq<HistMsg>, i: nat, used: set<nat>)
    requires i <= |msgs|
    ensures Matching(sent, msgs, i, used, Claims(sent, msgs, i, used))
    decreases |msgs| - i
  {
    if i < |msgs| {
      if j: nat :| j < |sent| && Unclaimed(msgs[i]) && Oldest(sent, used, msgs[i], j) {
        ClaimsAreMatching(sent, msgs, i + 1, used + {j});
      } else {
        ClaimsAreMatching(sent, msgs, i + 1, used);
      }
    }
  }

  // Row i's send can go to a later row k that holds the oldest fitting send j.
  lemma Handover(sent: seq<Sent>, msgs: seq<HistMsg>, i: nat, used: set<nat>, j: nat, m: map<nat, nat>, k: nat)
    requires InTimeOrder(sent, msgs) && i < |msgs| && Unclaimed(msgs[i]) && Oldest(sent, used, msgs[i], j)
    requires Matching(sent, msgs, i, used, m) && i in m && k in m && k != i && m[k] == j
    ensures m[i] != j && CanClaim(sent, used + {j}, msgs[k], m[i])
  {
    hide Text.Norm;
    assert CanClaim(sent, used, msgs[i], m[i]) && CanClaim(sent, used, msgs[k], j);
    assert j < m[i];
    assert msgs[i].ts <= msgs[k].ts && sent[j].at <= sent[m[i]].at;
  }

  // A matching that leaves row i and send j alone is one of the later rows and other sends.
  lemma Narrow(sent: seq<Sent>, msgs: seq<HistMsg>, i: nat, used: set<nat>, j: nat, m: map<nat, nat>)
    requires Matching(sent, msgs, i, used, m) && i !in m && forall r :: r in m ==> m[r] != j
    ensures Matching(sent, msgs, i + 1, used + {j}, m)
  {
    hide Text.Norm, Fits, Unclaimed;
  }

  lemma SwapKeys(m: map<nat, nat>, i: nat, k: nat)
    requires i in m && k in m && k != i && forall r, s :: r in m && s in m && r != s ==> m[r] != m[s]
    ensures var m' := (m - {i})[k := m[i]];
            && i !in m' && |m'| + 1 == |m| && (forall r :: r in m' ==> r in m && m'[r] == m[if r == k then i else r] && m'[r] != m[k])
            && forall r, s :: r in m' && s in m' && r != s ==> m'[r] != m'[s]
  {
    var m' := (m - {i})[k := m[i]];
    assert m'.Keys == m.Keys - {i};
  }

  lemma SwapFits(sent: seq<Sent>, msgs: seq<HistMsg>, i: nat, used: set<nat>, m: map<nat, nat>, k: nat)
    requires Matching(sent, msgs, i, used, m) && i in m && k in m && k != i && CanClaim(sent, used, msgs[k], m[i])
    ensures var m' := (m - {i})[k := m[i]];
            Matching(sent, msgs, i, used, m') && i !in m' && |m'| + 1 == |m| && forall r :: r in m' ==> m'[r] != m[k]
  {
    hide CanClaim, Unclaimed;
    SwapKeys(m, i, k);
    var m' := (m - {i})[k := m[i]];
    forall r | r in m' ensures i <= r < |msgs| && Unclaimed(msgs[r]) && CanClaim(sent, used, msgs[r], m'[r]) {
      assert r in m;
    }
  }

  lemma Swap(sent: seq<Sent>, msgs: seq<HistMsg>, i: nat, used: set<nat>, j: nat, m: map<nat, nat>, k: nat)
    returns (m': map<nat, nat>)
    requires InTimeOrder(sent, msgs) && i < |msgs| && Unclaimed(msgs[i]) && Oldest(sent, used, msgs[i], j)
    requires Matching(sent, msgs, i, used, m) && i in m && k in m && k != i && m[k] == j
    ensures Matching(sent, msgs, i + 1, used + {j}, m') && |m'| + 1 == |m|
  {
    MatchedRow(sent, msgs, i, used, m, k);
    hide CanClaim, Unclaimed, InTimeOrder, Oldest, Matching;
    Handover(sent, msgs, i, used, j, m, k);
    UsedLess(sent, used, j, msgs[k], m[i]);
    SwapFits(sent, msgs, i, used, m, k);
    m' := (m - {i})[k := m[i]];
    Narrow(sent, msgs, i, used, j, m');
  }

  lemma MatchedRow(sent: seq<Sent>, msgs: seq<HistMsg>, i: nat, used: set<nat>, m: map<nat, nat>, k: nat)
    requires Matching(sent, msgs, i, used, m) && k in m
    ensures k < |msgs|
  {
  }

  lemma UsedLess(sent: seq<Sent>, used: set<nat>, j: nat, m: HistMsg, k: nat)
    requires CanClaim(sent, used + {j}, m, k)
    ensures CanClaim(sent, used, m, k)
  {
    hide Fits;
  }

  // Giving the oldest fitting send j to row i costs any matching at most one pair: the row that
  // holds j gives it up, taking over row i's send if it has one.
  lemma Exchange(sent: seq<Sent>, msgs: seq<HistMsg>, i: nat, used: set<nat>, j: nat, m: map<nat, nat>)
    returns (m': map<nat, nat>)
    requires InTimeOrder(sent, msgs) && i < |msgs| && Unclaimed(msgs[i]) && Oldest(sent, used, msgs[i], j)
    requires Matching(sent, msgs, i, used, m)
    ensures Matching(sent, msgs, i + 1, used + {j}, m') && |m'| + 1 >= |m|
  {
    hide Text.Norm, Fits, Unclaimed, CanClaim, InTimeOrder, Oldest;
    if k :| k in m && m[k] == j && k != i {
      if i in m {
        m' := Swap(sent, msgs, i, used, j, m, k);
      } else {
        m' := m - {k};
        assert m'.Keys == m.Keys - {k};
        Narrow(sent, msgs, i, used, j, m');
      }
    } else {
      m' := m - {i};
      assert m'.Keys == m.Keys - {i};
      Narrow(sent, msgs, i, used, j, m');
    }
  }

  lemma ClaimsGrowByOne(sent: seq<Sent>, msgs: seq<HistMsg>, i: nat, used: set<nat>, j: nat)
    requires i < |msgs| && Unclaimed(msgs[i]) && Oldest(sent, used, msgs[i], j)
    ensures Claims(sent, msgs, i, used) == Claims(sent, msgs, i + 1, used + {j})[i := j]
    ensures |Claims(sent, msgs, i, used)| == |Claims(sent, msgs, i + 1, used + {j})| + 1
    ensures i !in Claims(sent, msgs, i + 1, used + {j})
  {
    hide Text.Norm, Fits;
    var rest := Claims(sent, msgs, i + 1, used + {j});
    ClaimsAreMatching(sent, msgs, i + 1, used + {j});
    assert i !in rest;
    assert rest[i := j].Keys == rest.Keys + {i};
  }

  /** Oldest-first claiming is optimal: with the sends and the rows of each text in time order, no
      one-to-one assignment that respects text and window claims more rows. */
  lemma {:induction false} ClaimsAreMaximum(sent: seq<Sent>, msgs: seq<HistMsg>, i: nat, used: set<nat>, m: map<nat, nat>)
    requires InTimeOrder(sent, msgs) && i <= |msgs| && Matching(sent, msgs, i, used, m)
    ensures |m| <= |Claims(sent, msgs, i, used)|
    decreases |msgs| - i
  {
    hide Text.Norm, Fits, InTimeOrder, CanClaim, Unclaimed, Oldest, Matching;
    if i == |msgs| {
      NothingMatched(sent, msgs, used, m);
    } else if j: nat :| j < |sent| && Unclaimed(msgs[i]) && Oldest(sent, used, msgs[i], j) {
      var m' := Exchange(sent, msgs, i, used, j, m);
      ClaimsAreMaximum(sent, msgs, i + 1, used + {j}, m');
      ClaimsGrowByOne(sent, msgs, i, used, j);
    } else {
      Unmatched(sent, msgs, i, used, m);
      ClaimsAreMaximum(sent, msgs, i + 1, used, m);
    }
  }

  lemma NothingMatched(sent: seq<Sent>, msgs: seq<HistMsg>, used: set<nat>, m: map<nat, nat>)
    requires Matching(sent, msgs, |msgs|, used, m)
    ensures |m| == 0
  {
    assert m.Keys == {};
  }

  // A row that has no oldest fitting send is in no matching.
  lemma Unmatched(sent: seq<Sent>, msgs: seq<HistMsg>, i: nat, used: set<nat>, m: map<nat, nat>)
    requires i < |msgs| && Matching(sent, msgs, i, used, m)
    requires !exists j: nat :: j < |sent| && Unclaimed(msgs[i]) && Oldest(sent, used, msgs[i], j)
    ensures Matching(sent, msgs, i + 1, used, m)
  {
    hide Text.Norm, Fits, Unclaimed;
    if i in m {
      var first := OldestExists(sent, used, msgs[i], m[i]);
    }
  }

  lemma {:induction false} OneWord()
    ensures Text.Norm("x") == "x"
  {
  }

  // Out of time order it need not be: the early row, listed last, finds its only send taken.
  lemma OrderMatters()
    ensures exists sent: seq<Sent>, msgs: seq<HistMsg>, m: map<nat, nat> ::
              Matching(sent, msgs, 0, {}, m) && |m| > |Claims(sent, msgs, 0, {})|
  {
    var sent := [Sent("s", "x", 0), Sent("s", "x", 10000)];
    OneWord();
    hide Text.Norm;
    var late := HistMsg("peer", "x", 10000, "", "", "", 0, "", "", false, "peer:", 0, "");
    var early := late.(ts := 0);
    var msgs := [late, early];
    var m: map<nat, nat> := map[0 := 1, 1 := 0];
    assert Matching(sent, msgs, 0, {}, m);
    assert Oldest(sent, {}, late, 0);
    ClaimsGrowByOne(sent, msgs, 0, {}, 0);
    assert forall j: nat :: !CanClaim(sent, {} + {0}, early, j);
    assert Claims(sent, msgs, 1, {} + {0}) == map[];
    assert |m| == 2 by {
      assert m.Keys == {0, 1};
    }
  }

  // The rows as the phone shows them: claimed ones become the operator's.
  function Relabelled(msgs: seq<HistMsg>, claims: map<nat, nat>): seq<HistMsg> {
    seq(|msgs|, r requires 0 <= r < |msgs| =>
      if r in claims then msgs[r].(role := "user", kind := "user", origin := "phone") else msgs[r])
  }

  lemma RelabelOne(msgs: seq<HistMsg>, claims: map<nat, nat>, i: nat, j: nat)
    requires i < |msgs| && i !in claims
    ensures |Relabelled(msgs, claims)| == |Relabelled(msgs, claims[i := j])| == |msgs|
    ensures Relabelled(msgs, claims[i := j])
            == Relabelled(msgs, claims)[i := Relabelled(msgs, claims)[i].(role := "user", kind := "user", origin := "phone")]
  {
  }

  lemma NothingClaimed(sent: seq<Sent>, msgs: seq<HistMsg>, used: seq<bool>)
    requires forall j :: 0 <= j < |used| ==> !used[j]
    ensures |Relabelled(msgs, map[])| == |msgs| && Relabelled(msgs, map[]) == msgs
    ensures DoneUpTo(sent, msgs, 0, used, map[])
  {
    assert Taken(used) == {};
    assert map[] + Claims(sent, msgs, 0, {}) == Claims(sent, msgs, 0, {});
  }

  // The claims of the rows before i, and what is left to claim after them.
  ghost predicate DoneUpTo(sent: seq<Sent>, msgs: seq<HistMsg>, i: nat, used: seq<bool>, done: map<nat, nat>) {
    && i <= |msgs|
    && (forall r :: r in done ==> r < i)
    && done + Claims(sent, msgs, i, Taken(used)) == Claims(sent, msgs, 0, {})
  }

  function Taken(used: seq<bool>): set<nat> {
    set j: nat | j < |used| && used[j]
  }

  lemma TakenMore(used: seq<bool>, j: nat)
    requires j < |used|
    ensures Taken(used[j := true]) == Taken(used) + {j}
  {
  }

  lemma Shift(done: map<nat, nat>, rest: map<nat, nat>, i: nat, j: nat)
    requires i !in rest
    ensures done[i := j] + rest == done + rest[i := j]
  {
  }

  lemma DoneMore(sent: seq<Sent>, msgs: seq<HistMsg>, i: nat, used: seq<bool>, done: map<nat, nat>, j: nat)
    requires DoneUpTo(sent, msgs, i, used, done) && i < |msgs| && j < |used|
    requires Unclaimed(msgs[i]) && Oldest(sent, Taken(used), msgs[i], j)
    ensures DoneUpTo(sent, msgs, i + 1, used[j := true], done[i := j]) && i !in done
  {
    TakenMore(used, j);
    hide Unclaimed, Oldest, Claims, CanClaim, Taken;
    ClaimsGrowByOne(sent, msgs, i, Taken(used), j);
    Shift(done, Claims(sent, msgs, i + 1, Taken(used) + {j}), i, j);
  }

  lemma DoneSame(sent: seq<Sent>, msgs: seq<HistMsg>, i: nat, used: seq<bool>, done: map<nat, nat>)
    requires DoneUpTo(sent, msgs, i, used, done) && i < |msgs|
    requires Unclaimed(msgs[i]) ==> forall k: nat :: !CanClaim(sent, Taken(used), msgs[i], k)
    ensures DoneUpTo(sent, msgs, i + 1, used, done)
  {
    NothingToClaim(sent, msgs, i, Taken(used));
  }

  lemma DoneAll(sent: seq<Sent>, msgs: seq<HistMsg>, used: seq<bool>, done: map<nat, nat>)
    requires DoneUpTo(sent, msgs, |msgs|, used, done)
    ensures done == Claims(sent, msgs, 0, {})
  {
    assert Claims(sent, msgs, |msgs|, Taken(used)) == map[];
  }

  lemma NothingToClaim(sent: seq<Sent>, msgs: seq<HistMsg>, i: nat, used: set<nat>)
    requires i < |msgs| && (Unclaimed(msgs[i]) ==> forall k: nat :: !CanClaim(sent, used, msgs[i], k))
    ensures Claims(sent, msgs, i, used) == Claims(sent, msgs, i + 1, used)
  {
  }

  function OfSession(sent: seq<Sent>, session: string): seq<Sent> {
    if sent == [] then []
    else OfSession(sent[..|sent| - 1], session)
         + if sent[|sent| - 1].session == session then [sent[|sent| - 1]] else []
  }

  // mine are the sends of the session, at[k] for the k-th, in order.
  ghost predicate SendsAt(sent: seq<Sent>, session: string, mine: seq<Sent>, at: seq<nat>) {
    && |at| == |mine|
    && (forall k :: 0 <= k < |at| ==> at[k] < |sent| && mine[k] == sent[at[k]])
    && (forall j, k :: 0 <= j < k < |at| ==> at[j] < at[k])
    && AllAt(sent, session, at)
  }

  ghost predicate AllAt(sent: seq<Sent>, session: string, at: seq<nat>) {
    forall i: nat :: i in at <==> i < |sent| && sent[i].session == session
  }

  lemma {:induction false} OfSessionAt(sent: seq<Sent>, session: string) returns (at: seq<nat>)
    ensures SendsAt(sent, session, OfSession(sent, session), at)
  {
    at := OfSessionPlaces(sent, session);
    hide OfSession;
  }

  lemma {:induction false} OfSessionPlaces(sent: seq<Sent>, session: string) returns (at: seq<nat>)
    ensures |at| == |OfSession(sent, session)|
    ensures forall k :: 0 <= k < |at| ==> at[k] < |sent| && OfSession(sent, session)[k] == sent[at[k]]
    ensures forall j, k :: 0 <= j < k < |at| ==> at[j] < at[k]
    ensures forall i: nat :: i in at <==> i < |sent| && sent[i].session == session
    decreases |sent|
  {
    if sent == [] {
      at := [];
    } else {
      at := OfSessionPlaces(sent[..|sent| - 1], session);
      if sent[|sent| - 1].session == session {
        at := at + [|sent| - 1];
      }
    }
  }

  // A fitting send that a row is not given is used, or went to an earlier row.
  ghost predicate Spoken(sent: seq<Sent>, msgs: seq<HistMsg>, i: nat, used: set<nat>, claims: map<nat, nat>, r: nat, k: nat) {
    i <= r < |msgs| && k < |sent| && Unclaimed(msgs[r]) && Fits(sent[k], msgs[r]) && (r in claims ==> k < claims[r])
    ==> k in used || exists q :: i <= q < r && q in claims && claims[q] == k
  }

  lemma {:induction false} ClaimsAreGreedy(sent: seq<Sent>, msgs: seq<HistMsg>, i: nat, used: set<nat>, r: nat, k: nat)
    requires i <= |msgs|
    ensures Spoken(sent, msgs, i, used, Claims(sent, msgs, i, used), r, k)
    decreases |msgs| - i
  {
    hide Text.Norm, Fits, Unclaimed;
    if i < |msgs| {
      if j: nat :| j < |sent| && Unclaimed(msgs[i]) && Oldest(sent, used, msgs[i], j) {
        ClaimsAreGreedy(sent, msgs, i + 1, used + {j}, r, k);
        ClaimsGrowByOne(sent, msgs, i, used, j);
        SpokenBehind(sent, msgs, i, used, j, Claims(sent, msgs, i + 1, used + {j}), r, k);
      } else {
        ClaimsAreGreedy(sent, msgs, i + 1, used, r, k);
        ClaimsAreMatching(sent, msgs, i + 1, used);
        if r == i && k < |sent| && CanClaim(sent, used, msgs[i], k) && Unclaimed(msgs[i]) {
          var first := OldestExists(sent, used, msgs[i], k);
        }
      }
    }
  }

  lemma {:induction false} SpokenBehind(sent: seq<Sent>, msgs: seq<HistMsg>, i: nat, used: set<nat>, j: nat,
                                        rest: map<nat, nat>, r: nat, k: nat)
    requires i < |msgs| && Unclaimed(msgs[i]) && Oldest(sent, used, msgs[i], j) && i !in rest
    requires Spoken(sent, msgs, i + 1, used + {j}, rest, r, k)
    ensures Spoken(sent, msgs, i, used, rest[i := j], r, k)
  {
    hide Text.Norm, Fits, Unclaimed;
    var all := rest[i := j];
    if r > i {
      if k == j {
        assert i in all && all[i] == k;
      } else if q :| i + 1 <= q < r && q in rest && rest[q] == k {
        assert q in all && all[q] == k;
      }
    } else if r == i && k < j {
      assert !CanClaim(sent, used, msgs[i], k);
    }
  }

  // The row shows what the session's send e said, and could have been sent then.
  predicate Echoes(e: Sent, session: string, m: HistMsg) {
    && m.role == "peer" && m.sender == "" && (m.origin == "peer:" || m.origin == "peer:unknown")
    && e.session == session && e.text == Text.Norm(m.content) && e.at - 120 <= m.ts <= e.at + 10800
  }

  lemma {:induction false} ClaimIsEcho(sent: seq<Sent>, session: string, msgs: seq<HistMsg>, mine: seq<Sent>, at: seq<nat>,
                                       claims: map<nat, nat>, r: nat)
    requires SendsAt(sent, session, mine, at) && Matching(mine, msgs, 0, {}, claims) && r in claims
    ensures r < |msgs| && claims[r] < |at| && at[claims[r]] < |sent| && Echoes(sent[at[claims[r]]], session, msgs[r])
  {
    hide Text.Norm;
    assert at[claims[r]] in at;
  }

  lemma {:induction false} ClaimsDiffer(sent: seq<Sent>, session: string, msgs: seq<HistMsg>, mine: seq<Sent>, at: seq<nat>,
                                        claims: map<nat, nat>, r: nat, s: nat)
    requires SendsAt(sent, session, mine, at) && Matching(mine, msgs, 0, {}, claims) && r in claims && s in claims && r != s
    ensures claims[r] < |at| && claims[s] < |at| && at[claims[r]] != at[claims[s]]
  {
    hide Fits, Unclaimed;
    assert CanClaim(mine, {}, msgs[r], claims[r]) && CanClaim(mine, {}, msgs[s], claims[s]);
    var a, b := claims[r], claims[s];
    assert a < b || b < a;
  }

  lemma {:induction false} EchoSpoken(sent: seq<Sent>, session: string, msgs: seq<HistMsg>, mine: seq<Sent>, at: seq<nat>,
                                      claims: map<nat, nat>, r: nat, k: nat) returns (n: nat)
    requires SendsAt(sent, session, mine, at) && Matching(mine, msgs, 0, {}, claims)
    requires r < |msgs| && k < |sent| && Echoes(sent[k], session, msgs[r])
    ensures n < |at| && at[n] == k && Unclaimed(msgs[r]) && Fits(mine[n], msgs[r])
    ensures r in claims ==> claims[r] < |at| && (k < at[claims[r]] ==> n < claims[r])
  {
    hide Text.Norm;
    assert k in at;
    n :| 0 <= n < |at| && at[n] == k;
    assert mine[n] == sent[k];
    if r in claims {
      assert CanClaim(mine, {}, msgs[r], claims[r]);
    }
  }

  /** The rows relabelled, each with the place in the log of the one send of the session it echoes: no
      two rows have the same, and each has the oldest that no earlier row has; a row left alone echoes
      none but those. */
  lemma {:induction false} EchoesAreSends(sent: seq<Sent>, session: string, msgs: seq<HistMsg>) returns (of: map<nat, nat>)
    ensures of.Keys == Claims(OfSession(sent, session), msgs, 0, {}).Keys
    ensures forall r :: r in of ==> r < |msgs| && of[r] < |sent| && Echoes(sent[of[r]], session, msgs[r])
    ensures forall r, s :: r in of && s in of && r != s ==> of[r] != of[s]
    ensures forall r: nat, k: nat :: r < |msgs| && k < |sent| && Echoes(sent[k], session, msgs[r]) && (r in of ==> k < of[r])
                                     ==> exists q :: 0 <= q < r && q in of && of[q] == k
  {
    hide Text.Norm, Claims, OfSession, SendsAt, Matching, Echoes, Spoken, Fits, Unclaimed;
    var mine := OfSession(sent, session);
    var at := OfSessionAt(sent, session);
    var claims := Claims(mine, msgs, 0, {});
    ClaimsAreMatching(mine, msgs, 0, {});
    forall r | r in claims
      ensures r < |msgs| && claims[r] < |at| && at[claims[r]] < |sent| && Echoes(sent[at[claims[r]]], session, msgs[r])
    {
      ClaimIsEcho(sent, session, msgs, mine, at, claims, r);
    }
    of := map r | r in claims :: at[claims[r]];
    forall r, s | r in of && s in of && r != s ensures of[r] != of[s] {
      ClaimsDiffer(sent, session, msgs, mine, at, claims, r, s);
    }
    forall r: nat, k: nat | r < |msgs| && k < |sent| && Echoes(sent[k], session, msgs[r]) && (r in of ==> k < of[r])
      ensures exists q :: 0 <= q < r && q in of && of[q] == k
    {
      EchoTaken(sent, session, msgs, at, of, r, k);
    }
  }

  lemma {:induction false} EchoTaken(sent: seq<Sent>, session: string, msgs: seq<HistMsg>, at: seq<nat>, of: map<nat, nat>, r: nat, k: nat)
    requires var mine := OfSession(sent, session);
             var claims := Claims(mine, msgs, 0, {});
             && SendsAt(sent, session, mine, at) && of.Keys == claims.Keys
             && forall q :: q in claims ==> claims[q] < |at| && of[q] == at[claims[q]]
    requires r < |msgs| && k < |sent| && Echoes(sent[k], session, msgs[r]) && (r in of ==> k < of[r])
    ensures exists q :: 0 <= q < r && q in of && of[q] == k
  {
    hide Text.Norm, Claims, OfSession, SendsAt, Matching, Echoes, Spoken, Fits, Unclaimed;
    var mine := OfSession(sent, session);
    var claims := Claims(mine, msgs, 0, {});
    ClaimsAreMatching(mine, msgs, 0, {});
    var n := EchoSpoken(sent, session, msgs, mine, at, claims, r, k);
    assert |mine| == |at| by {
      SendsCount(sent, session, mine, at);
    }
    var q := EarlierClaim(mine, msgs, r, n, claims);
    assert q in of && of[q] == k;
  }

  lemma {:induction false} SendsCount(sent: seq<Sent>, session: string, mine: seq<Sent>, at: seq<nat>)
    requires SendsAt(sent, session, mine, at)
    ensures |mine| == |at|
  {
  }

  lemma {:induction false} EarlierClaim(mine: seq<Sent>, msgs: seq<HistMsg>, r: nat, n: nat, claims: map<nat, nat>) returns (q: nat)
    requires claims == Claims(mine, msgs, 0, {}) && r < |msgs| && n < |mine| && Unclaimed(msgs[r]) && Fits(mine[n], msgs[r])
    requires r in claims ==> n < claims[r]
    ensures q < r && q in claims && claims[q] == n
  {
    hide Claims, Fits, Unclaimed;
    ClaimsAreGreedy(mine, msgs, 0, {}, r, n);
    q :| 0 <= q < r && q in claims && claims[q] == n;
  }

  // The latest KEEP entries.
  function Bounded(sent: seq<Sent>): seq<Sent> {
    if |sent| > KEEP then sent[|sent| - KEEP..] else sent
  }

  class Log {
    const enabled: bool
    var sent: seq<Sent>

    constructor (enabled: bool)
      ensures this.enabled == enabled && sent == []
    {
      this.enabled, sent := enabled, [];
    }

    method Remember(session: string, text: string, at: int)
      modifies this`sent
      ensures sent == Bounded(old(sent) + [Sent(session, Text.Norm(text), at)])
      ensures |sent| == (if |old(sent)| >= 512 then 512 else |old(sent)| + 1) && sent[|sent| - 1].at == at
    {
      sent := sent + [Sent(session, Text.Norm(text), at)];
      var n := |sent| - KEEP;
      if n > 0 {
        sent := sent[n..];
      }
    }

    method SendsOf(session: string) returns (mine: seq<Sent>)
      ensures mine == OfSession(sent, session)
    {
      mine := [];
      for k := 0 to |sent|
        invariant mine == OfSession(sent[..k], session)
      {
        assert sent[..k + 1][..k] == sent[..k];
        if sent[k].session == session {
          mine := mine + [sent[k]];
        }
      }
      assert sent[..|sent|] == sent;
    }

    method FindOldest(mine: seq<Sent>, used: array<bool>, m: HistMsg) returns (j: nat)
      requires used.Length == |mine|
      ensures j <= |mine|
      ensures if j < |mine| then Oldest(mine, Taken(used[..]), m, j)
              else forall k: nat :: !CanClaim(mine, Taken(used[..]), m, k)
    {
      j := 0;
      while j < |mine| && (used[j] || !Fits(mine[j], m))
        invariant 0 <= j <= |mine|
        invariant forall k: nat :: k < j ==> !CanClaim(mine, Taken(used[..]), m, k)
      {
        j := j + 1;
      }
    }

    // Relabels row i, in a copy if none has been made yet.
    static method Relabel(out: array<HistMsg>, msgs: array<HistMsg>, i: nat) returns (copy: array<HistMsg>)
      requires i < out.Length
      modifies if out == msgs then {} else {out}
      ensures copy != msgs && if out == msgs then fresh(copy) else copy == out
      ensures copy[..] == old(out[..])[i := old(out[i]).(role := "user", kind := "user", origin := "phone")]
    {
      copy := out;
      if out == msgs {
        copy := new HistMsg[out.Length](k requires 0 <= k < out.Length reads out => out[k]);
      }
      copy[i] := copy[i].(role := "user", kind := "user", origin := "phone");
    }

    /** The caller's rows are never changed: without a claim they are handed back as they are, with
        one the claims are made in a copy. */
    method ClaimEchoes(session: string, msgs: array<HistMsg>) returns (out: array<HistMsg>)
      ensures msgs[..] == old(msgs[..])
      ensures enabled ==> out[..] == Relabelled(msgs[..], Claims(OfSession(sent, session), msgs[..], 0, {}))
      ensures out == msgs || fresh(out)
      ensures out == msgs <==> !enabled || Claims(OfSession(sent, session), msgs[..], 0, {}) == map[]
    {
      hide *;
      out := msgs;
      if !enabled {
        return;
      }
      var mine := SendsOf(session);
      var used := new bool[|mine|](_ => false);
      ghost var rows := msgs[..];
      ghost var claimed: map<nat, nat> := map[];
      NothingClaimed(mine, rows, used[..]);
      for i := 0 to msgs.Length
        invariant msgs[..] == rows && (out == msgs || fresh(out))
        invariant DoneUpTo(mine, rows, i, used[..], claimed)
        invariant out == msgs <==> claimed == map[]
        invariant out[..] == Relabelled(rows, claimed) && |Relabelled(rows, claimed)| == |rows|
      {
        var j := |mine|;
        if Unclaimed(msgs[i]) {
          j := FindOldest(mine, used, msgs[i]);
        }
        if j < |mine| {
          DoneMore(mine, rows, i, used[..], claimed, j);
          used[j] := true;
          out := Relabel(out, msgs, i);
          RelabelOne(rows, claimed, i, j);
          claimed := claimed[i := j];
        } else {
          DoneSame(mine, rows, i, used[..], claimed);
        }
      }
      DoneAll(mine, rows, used[..], claimed);
    }
  }
}
