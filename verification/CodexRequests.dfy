/** Binding delivered requests to the rollout's user events, and those to their replies
    (codex_requests.go). */
module CodexRequests {
  import opened Messages
  import Text

  // turn "" means not bound to a task yet; userSeq 0 means bound to no user event.
  datatype Request = Request(id: string, text: string, baseline: nat, turn: string, userSeq: int)

  datatype Reply = Reply(id: string, message: HistMsg)

  predicate SameTypedText(a: string, b: string) {
    Text.Join(Text.Fields(a), "") == Text.Join(Text.Fields(b), "")
  }

  /** The comparison ignores whitespace and nothing else. */
  lemma SameTypedIgnoresSpaces(a: string, b: string)
    ensures SameTypedText(a, b) <==> Text.NonSpace(a) == Text.NonSpace(b)
  {
    Text.JoinedFieldsDropSpaces(a);
    Text.JoinedFieldsDropSpaces(b);
  }

  // ------------------------------------------------------------------ binding

  predicate Candidate(req: Request, m: HistMsg, used: set<int>) {
    m.role == "user" && m.seqNo > req.baseline && SameTypedText(m.content, req.text) && m.seqNo !in used
  }

  // The first message from k on that req can bind to; |msgs| when there is none.
  function FirstCandidate(req: Request, msgs: seq<HistMsg>, used: set<int>, k: nat): (c: nat)
    requires k <= |msgs|
    ensures k <= c <= |msgs|
    ensures c < |msgs| ==> Candidate(req, msgs[c], used)
    ensures forall j :: k <= j < c ==> !Candidate(req, msgs[j], used)
    decreases |msgs| - k
  {
    if k == |msgs| || Candidate(req, msgs[k], used) then k else FirstCandidate(req, msgs, used, k + 1)
  }

  // The message one request binds to in this call; |msgs| for none.
  function Choice(req: Request, msgs: seq<HistMsg>, used: set<int>): (c: nat)
    ensures c <= |msgs|
  {
    if req.turn != "" then |msgs| else FirstCandidate(req, msgs, used, 0)
  }

  function Bound(req: Request, msgs: seq<HistMsg>, c: nat): Request {
    if c < |msgs| then req.(turn := msgs[c].turn, userSeq := msgs[c].seqNo) else req
  }

  function UsedBy(msgs: seq<HistMsg>, c: nat): set<int> {
    if c < |msgs| then {msgs[c].seqNo} else {}
  }

  // The choices of all requests, in list order: each takes its event away from the later ones.
  function Choices(reqs: seq<Request>, msgs: seq<HistMsg>, used: set<int>): (cs: seq<nat>)
    ensures |cs| == |reqs|
    ensures forall i :: 0 <= i < |cs| ==> cs[i] <= |msgs|
  {
    if reqs == [] then []
    else
      var c := Choice(reqs[0], msgs, used);
      [c] + Choices(reqs[1..], msgs, used + UsedBy(msgs, c))
  }

  function BindAll(reqs: seq<Request>, msgs: seq<HistMsg>, used: set<int>): (bound: seq<Request>)
    ensures |bound| == |reqs|
  {
    if reqs == [] then []
    else
      var c := Choice(reqs[0], msgs, used);
      [Bound(reqs[0], msgs, c)] + BindAll(reqs[1..], msgs, used + UsedBy(msgs, c))
  }

  function Events(reqs: seq<Request>): set<int> {
    set i | 0 <= i < |reqs| && reqs[i].userSeq > 0 :: reqs[i].userSeq
  }

  lemma {:induction false} BindIsChoice(reqs: seq<Request>, msgs: seq<HistMsg>, used: set<int>, i: nat)
    requires i < |reqs|
    ensures BindAll(reqs, msgs, used)[i] == Bound(reqs[i], msgs, Choices(reqs, msgs, used)[i])
    ensures reqs[i].turn != "" ==> Choices(reqs, msgs, used)[i] == |msgs|
    decreases i
  {
    if i > 0 {
      BindIsChoice(reqs[1..], msgs, used + UsedBy(msgs, Choice(reqs[0], msgs, used)), i - 1);
    }
  }

  // The i-th choice is a candidate that was free when it was made.
  lemma {:induction false} ChoiceIsFree(reqs: seq<Request>, msgs: seq<HistMsg>, used: set<int>, i: nat)
    requires i < |reqs| && Choices(reqs, msgs, used)[i] < |msgs|
    ensures Candidate(reqs[i], msgs[Choices(reqs, msgs, used)[i]], used)
    ensures reqs[i].turn == ""
    decreases i
  {
    if i > 0 {
      ChoiceIsFree(reqs[1..], msgs, used + UsedBy(msgs, Choice(reqs[0], msgs, used)), i - 1);
    }
  }

  // Two requests never choose the same user event in one call.
  lemma {:induction false} ChoicesDiffer(reqs: seq<Request>, msgs: seq<HistMsg>, used: set<int>, i: nat, j: nat)
    requires i < j < |reqs|
    requires Choices(reqs, msgs, used)[i] < |msgs| && Choices(reqs, msgs, used)[j] < |msgs|
    ensures msgs[Choices(reqs, msgs, used)[i]].seqNo != msgs[Choices(reqs, msgs, used)[j]].seqNo
    decreases i
  {
    var rest := used + UsedBy(msgs, Choice(reqs[0], msgs, used));
    if i > 0 {
      ChoicesDiffer(reqs[1..], msgs, rest, i - 1, j - 1);
    } else {
      ChoiceIsFree(reqs[1..], msgs, rest, j - 1);
    }
  }

  /** Within one call, requests with the same text and non-decreasing baselines bind in order: the
      later one only if the earlier one did, and then to a later message. */
  lemma {:induction false} EqualTextsBindInOrder(reqs: seq<Request>, msgs: seq<HistMsg>, used: set<int>, i: nat, j: nat)
    requires i < j < |reqs| && reqs[i].turn == ""
    requires SameTypedText(reqs[i].text, reqs[j].text) && reqs[i].baseline <= reqs[j].baseline
    requires Choices(reqs, msgs, used)[j] < |msgs|
    ensures Choices(reqs, msgs, used)[i] < Choices(reqs, msgs, used)[j]
    decreases i
  {
    hide SameTypedText;
    var c := Choice(reqs[0], msgs, used);
    var rest := used + UsedBy(msgs, c);
    if i > 0 {
      EqualTextsBindInOrder(reqs[1..], msgs, rest, i - 1, j - 1);
    } else {
      var later := Choices(reqs, msgs, used)[j];
      ChoiceIsFree(reqs[1..], msgs, rest, j - 1);
      SameTypedTransitive(msgs[later].content, reqs[j].text, reqs[0].text);
      assert Candidate(reqs[0], msgs[later], used);
      assert c <= later;
    }
  }

  lemma SameTypedTransitive(a: string, b: string, c: string)
    requires SameTypedText(a, b) && SameTypedText(c, b)
    ensures SameTypedText(a, c)
  {
  }

  // ------------------------------------------------------------------ invariant of a pending list

  ghost predicate Consistent(reqs: seq<Request>) {
    && (forall i :: 0 <= i < |reqs| ==> reqs[i].userSeq == 0 || reqs[i].userSeq > reqs[i].baseline)
    && (forall i, j :: 0 <= i < j < |reqs| && reqs[i].userSeq > 0 ==> reqs[i].userSeq != reqs[j].userSeq)
  }

  /** Binding keeps the list's ids, texts and baselines, puts every bound event above its baseline,
      and no two pending requests share a user event. */
  lemma BindKeepsConsistent(reqs: seq<Request>, msgs: seq<HistMsg>)
    requires Consistent(reqs)
    ensures Consistent(BindAll(reqs, msgs, Events(reqs)))
  {
    var used := Events(reqs);
    var cs, bound := Choices(reqs, msgs, used), BindAll(reqs, msgs, used);
    forall i | 0 <= i < |reqs|
      ensures bound[i].userSeq == 0 || bound[i].userSeq > bound[i].baseline
      ensures cs[i] < |msgs| ==> bound[i].userSeq == msgs[cs[i]].seqNo && bound[i].userSeq !in used
      ensures cs[i] == |msgs| ==> bound[i] == reqs[i]
    {
      BindIsChoice(reqs, msgs, used, i);
      if cs[i] < |msgs| {
        ChoiceIsFree(reqs, msgs, used, i);
      }
    }
    forall i, j | 0 <= i < j < |reqs| && bound[i].userSeq > 0 ensures bound[i].userSeq != bound[j].userSeq {
      if cs[i] < |msgs| && cs[j] < |msgs| {
        ChoicesDiffer(reqs, msgs, used, i, j);
      }
      assert reqs[i].userSeq > 0 ==> reqs[i].userSeq in used;
      assert reqs[j].userSeq > 0 ==> reqs[j].userSeq in used;
    }
  }

  // Some request before the i-th takes this very event in this call.
  predicate TakenBefore(bound: seq<Request>, i: nat, m: HistMsg)
    requires i <= |bound|
  {
    exists j :: 0 <= j < i && bound[j].userSeq == m.seqNo
  }

  // The i-th request finds no event: it is bound to a turn, or all that fit it go to earlier ones.
  predicate NothingLeft(reqs: seq<Request>, msgs: seq<HistMsg>, used: set<int>, bound: seq<Request>, i: nat)
    requires i < |reqs| && i <= |bound|
  {
    reqs[i].turn != "" || forall c :: 0 <= c < |msgs| && Candidate(reqs[i], msgs[c], used) ==> TakenBefore(bound, i, msgs[c])
  }

  lemma {:induction false} NoChoiceIff(reqs: seq<Request>, msgs: seq<HistMsg>, used: set<int>, i: nat)
    requires i < |reqs|
    ensures Choices(reqs, msgs, used)[i] == |msgs| <==>
            reqs[i].turn != "" || forall c :: 0 <= c < |msgs| && Candidate(reqs[i], msgs[c], used) ==> Chosen(reqs, msgs, used, i, c)
    decreases i
  {
    hide SameTypedText;
    if i > 0 {
      var first := Choice(reqs[0], msgs, used);
      var rest := used + UsedBy(msgs, first);
      NoChoiceIff(reqs[1..], msgs, rest, i - 1);
      forall c | 0 <= c < |msgs| && Candidate(reqs[i], msgs[c], used)
        ensures Chosen(reqs, msgs, used, i, c)
                <==> !Candidate(reqs[i], msgs[c], rest) || Chosen(reqs[1..], msgs, rest, i - 1, c)
      {
        ChosenStep(reqs, msgs, used, i, c);
      }
    }
  }

  // One of the first i requests chooses an event numbered like msgs[c].
  predicate Chosen(reqs: seq<Request>, msgs: seq<HistMsg>, used: set<int>, i: nat, c: nat)
    requires i <= |reqs| && c < |msgs|
  {
    exists j :: 0 <= j < i && Choices(reqs, msgs, used)[j] < |msgs| && msgs[Choices(reqs, msgs, used)[j]].seqNo == msgs[c].seqNo
  }

  lemma {:induction false} ChosenStep(reqs: seq<Request>, msgs: seq<HistMsg>, used: set<int>, i: nat, c: nat)
    requires 0 < i <= |reqs| && c < |msgs|
    ensures var first := Choice(reqs[0], msgs, used);
            Chosen(reqs, msgs, used, i, c)
            <==> msgs[c].seqNo in UsedBy(msgs, first) || Chosen(reqs[1..], msgs, used + UsedBy(msgs, first), i - 1, c)
  {
    var first := Choice(reqs[0], msgs, used);
    var cs, tail := Choices(reqs, msgs, used), Choices(reqs[1..], msgs, used + UsedBy(msgs, first));
    assert cs[0] == first && cs == [first] + tail;
    hide Choices, Choice, UsedBy;
    forall j | 0 <= j < i - 1 ensures cs[j + 1] == tail[j] {
    }
    if Chosen(reqs[1..], msgs, used + UsedBy(msgs, first), i - 1, c) {
      var j :| 0 <= j < i - 1 && tail[j] < |msgs| && msgs[tail[j]].seqNo == msgs[c].seqNo;
      assert cs[j + 1] == tail[j];
    }
    if Chosen(reqs, msgs, used, i, c) {
      var j :| 0 <= j < i && cs[j] < |msgs| && msgs[cs[j]].seqNo == msgs[c].seqNo;
      assert j > 0 ==> cs[j] == tail[j - 1];
    }
  }

  /** What makes a binding final is the event's turn id: a request bound to an event without one moves
      on as soon as another free event fits that no request before it takes. */
  lemma {:induction false} BindingIsFinalIff(reqs: seq<Request>, msgs: seq<HistMsg>, i: nat)
    requires i < |reqs| && reqs[i].userSeq > 0
    ensures var bound := BindAll(reqs, msgs, Events(reqs));
            bound[i] == reqs[i] <==> NothingLeft(reqs, msgs, Events(reqs), bound, i)
  {
    var used := Events(reqs);
    var cs, bound := Choices(reqs, msgs, used), BindAll(reqs, msgs, used);
    BindIsChoice(reqs, msgs, used, i);
    if cs[i] < |msgs| {
      ChoiceIsFree(reqs, msgs, used, i);
      assert reqs[i].userSeq in used;
    }
    NoChoiceIff(reqs, msgs, used, i);
    forall c | 0 <= c < |msgs| && Candidate(reqs[i], msgs[c], used)
      ensures Chosen(reqs, msgs, used, i, c) <==> TakenBefore(bound, i, msgs[c])
    {
      ChosenIsTaken(reqs, msgs, i, c);
    }
  }

  lemma {:induction false} ChosenIsTaken(reqs: seq<Request>, msgs: seq<HistMsg>, i: nat, c: nat)
    requires i < |reqs| && c < |msgs| && Candidate(reqs[i], msgs[c], Events(reqs))
    ensures Chosen(reqs, msgs, Events(reqs), i, c) <==> TakenBefore(BindAll(reqs, msgs, Events(reqs)), i, msgs[c])
  {
    hide SameTypedText, BindAll, Choices;
    var used := Events(reqs);
    var cs, bound := Choices(reqs, msgs, used), BindAll(reqs, msgs, used);
    forall j | 0 <= j < i
      ensures bound[j].userSeq == msgs[c].seqNo <==> cs[j] < |msgs| && msgs[cs[j]].seqNo == msgs[c].seqNo
    {
      BindIsChoice(reqs, msgs, used, j);
      assert reqs[j].userSeq > 0 ==> reqs[j].userSeq in used;
    }
  }

  /** With no earlier request of its text still without a turn, the messages alone decide. Their
      numbers differ, as CodexRollout.AnyRecordsKeep has it. */
  lemma {:induction false} FinalWithoutRivals(reqs: seq<Request>, msgs: seq<HistMsg>, i: nat)
    requires i < |reqs| && reqs[i].userSeq > 0
    requires forall j :: 0 <= j < i ==> reqs[j].turn != "" || !SameTypedText(reqs[j].text, reqs[i].text)
    requires forall c, d :: 0 <= c < d < |msgs| ==> msgs[c].seqNo != msgs[d].seqNo
    ensures BindAll(reqs, msgs, Events(reqs))[i] == reqs[i]
            <==> reqs[i].turn != "" || forall c :: 0 <= c < |msgs| ==> !Candidate(reqs[i], msgs[c], Events(reqs))
  {
    hide BindAll, Choices, Text.Join, Text.Fields;
    var used := Events(reqs);
    var bound := BindAll(reqs, msgs, used);
    BindingIsFinalIff(reqs, msgs, i);
    forall c | 0 <= c < |msgs| && Candidate(reqs[i], msgs[c], used) ensures !TakenBefore(bound, i, msgs[c]) {
      forall j | 0 <= j < i ensures bound[j].userSeq != msgs[c].seqNo {
        BindIsChoice(reqs, msgs, used, j);
        assert reqs[j].userSeq > 0 ==> reqs[j].userSeq in used;
        var d := Choices(reqs, msgs, used)[j];
        if d < |msgs| && msgs[d].seqNo == msgs[c].seqNo {
          ChoiceIsFree(reqs, msgs, used, j);
        }
      }
    }
  }

  // A request bound to event 1, which has no turn id yet, is bound to event 2 by the next call.
  lemma BindingMovesOn(req: Request, one: HistMsg, two: HistMsg)
    requires req.turn == "" && req.userSeq == 1 && req.baseline == 0
    requires one.role == two.role == "user" && one.content == two.content == req.text && one.seqNo == 1 && two.seqNo == 2
    ensures BindAll([req], [one, two], Events([req])) == [req.(turn := two.turn, userSeq := 2)]
  {
    var used := Events([req]);
    assert [req][0].userSeq in used;
    assert !Candidate(req, one, used) && Candidate(req, two, used);
    assert FirstCandidate(req, [one, two], used, 1) == 1;
    assert Choice(req, [one, two], used) == 1;
    assert [req][1..] == [];
  }

  // The choice is the first candidate that no earlier request chooses.
  lemma {:induction false} ChoiceIsFirst(reqs: seq<Request>, msgs: seq<HistMsg>, used: set<int>, i: nat, c: nat)
    requires i < |reqs| && reqs[i].turn == "" && c < |msgs| && c <= Choices(reqs, msgs, used)[i]
    ensures c == Choices(reqs, msgs, used)[i] <==> Candidate(reqs[i], msgs[c], used) && !Chosen(reqs, msgs, used, i, c)
    decreases i
  {
    hide SameTypedText;
    if i > 0 {
      var first := Choice(reqs[0], msgs, used);
      var rest := used + UsedBy(msgs, first);
      ChosenStep(reqs, msgs, used, i, c);
      ChoiceIsFirst(reqs[1..], msgs, rest, i - 1, c);
    }
  }

  lemma {:induction false} ChoiceInRange(reqs: seq<Request>, msgs: seq<HistMsg>, used: set<int>, i: nat)
    requires i < |reqs|
    ensures Choices(reqs, msgs, used)[i] <= |msgs|
  {
  }

  // A user message behind the baseline with the same text, blanks aside, that no pending request was
  // bound to and no earlier one is bound to now.
  ghost predicate Free(reqs: seq<Request>, msgs: seq<HistMsg>, bound: seq<Request>, i: nat, c: nat)
    requires i < |reqs| && i <= |bound| && c < |msgs|
  {
    && msgs[c].role == "user" && msgs[c].seqNo > reqs[i].baseline
    && Text.NonSpace(msgs[c].content) == Text.NonSpace(reqs[i].text)
    && (forall j :: 0 <= j < |reqs| ==> reqs[j].userSeq <= 0 || reqs[j].userSeq != msgs[c].seqNo)
    && (forall j :: 0 <= j < i ==> bound[j].userSeq != msgs[c].seqNo)
  }

  ghost predicate FirstFree(reqs: seq<Request>, msgs: seq<HistMsg>, bound: seq<Request>, i: nat, c: nat)
    requires i < |reqs| && i <= |bound|
  {
    c < |msgs| && Free(reqs, msgs, bound, i, c) && forall d: nat :: d < c ==> !Free(reqs, msgs, bound, i, d)
  }

  lemma {:induction false} FreeIff(reqs: seq<Request>, msgs: seq<HistMsg>, i: nat, c: nat)
    requires i < |reqs| && c < |msgs|
    ensures Free(reqs, msgs, BindAll(reqs, msgs, Events(reqs)), i, c)
            <==> Candidate(reqs[i], msgs[c], Events(reqs)) && !Chosen(reqs, msgs, Events(reqs), i, c)
  {
    hide Choices, BindAll, SameTypedText, Text.NonSpace;
    SameTypedIgnoresSpaces(msgs[c].content, reqs[i].text);
    EventsAre(reqs, msgs[c].seqNo);
    if Candidate(reqs[i], msgs[c], Events(reqs)) {
      ChosenIsTaken(reqs, msgs, i, c);
    }
    hide Chosen, Events;
  }

  lemma {:induction false} EventsAre(reqs: seq<Request>, seqNo: int)
    ensures seqNo !in Events(reqs) <==> forall j :: 0 <= j < |reqs| ==> reqs[j].userSeq <= 0 || reqs[j].userSeq != seqNo
  {
  }

  /** A request that is bound to no turn is bound to the first user event free for it, and to its turn;
      without one, or with a turn, it stays as it is. */
  lemma {:induction false} BindsFirstFree(reqs: seq<Request>, msgs: seq<HistMsg>, i: nat)
    requires i < |reqs|
    ensures var bound := BindAll(reqs, msgs, Events(reqs));
            && (reqs[i].turn == "" ==>
                  && (forall c: nat :: FirstFree(reqs, msgs, bound, i, c) ==>
                        bound[i] == reqs[i].(turn := msgs[c].turn, userSeq := msgs[c].seqNo))
                  && ((forall c: nat :: c < |msgs| ==> !Free(reqs, msgs, bound, i, c)) ==> bound[i] == reqs[i]))
            && (reqs[i].turn != "" ==> bound[i] == reqs[i])
  {
    hide Choices, BindAll, Events, Candidate, Chosen, Free;
    var used := Events(reqs);
    var bound, choice := BindAll(reqs, msgs, used), Choices(reqs, msgs, used)[i];
    BindIsChoice(reqs, msgs, used, i);
    if reqs[i].turn == "" {
      forall c: nat | c < |msgs| && c <= choice ensures c == choice <==> Free(reqs, msgs, bound, i, c) {
        ChoiceIsFirst(reqs, msgs, used, i, c);
        FreeIff(reqs, msgs, i, c);
      }
      ChoiceInRange(reqs, msgs, used, i);
      assert choice < |msgs| ==> FirstFree(reqs, msgs, bound, i, choice);
      forall c: nat | FirstFree(reqs, msgs, bound, i, c) ensures c == choice {
        assert c <= choice;
      }
    }
  }

  // ------------------------------------------------------------------ replies

  predicate Answers(req: Request, m: HistMsg) {
    m.role == "reply" && m.seqNo > req.userSeq && m.turn == req.turn
  }

  function FirstAnswer(req: Request, msgs: seq<HistMsg>, k: nat): (c: nat)
    requires k <= |msgs|
    ensures k <= c <= |msgs|
    ensures c < |msgs| ==> Answers(req, msgs[c])
    ensures forall j :: k <= j < c ==> !Answers(req, msgs[j])
    decreases |msgs| - k
  {
    if k == |msgs| || Answers(req, msgs[k]) then k else FirstAnswer(req, msgs, k + 1)
  }

  predicate Replied(req: Request, msgs: seq<HistMsg>) {
    req.userSeq > 0 && FirstAnswer(req, msgs, 0) < |msgs|
  }

  // The first reply of the bound turn behind the bound event.
  ghost predicate FirstReply(req: Request, msgs: seq<HistMsg>, c: nat) {
    && c < |msgs| && msgs[c].role == "reply" && msgs[c].seqNo > req.userSeq && msgs[c].turn == req.turn
    && forall d :: 0 <= d < c ==> !(msgs[d].role == "reply" && msgs[d].seqNo > req.userSeq && msgs[d].turn == req.turn)
  }

  lemma {:induction false} RepliedIff(req: Request, msgs: seq<HistMsg>)
    ensures Replied(req, msgs) <==> req.userSeq > 0 && exists c: nat :: FirstReply(req, msgs, c)
    ensures forall c: nat :: FirstReply(req, msgs, c) ==> FirstAnswer(req, msgs, 0) == c
  {
    var a := FirstAnswer(req, msgs, 0);
    hide FirstAnswer;
    if a < |msgs| {
      assert FirstReply(req, msgs, a);
    }
    forall c: nat | FirstReply(req, msgs, c) ensures a == c {
      assert Answers(req, msgs[c]);
    }
  }

  function Kept(reqs: seq<Request>, msgs: seq<HistMsg>): seq<Request> {
    if reqs == [] then []
    else
      var last := reqs[|reqs| - 1];
      Kept(reqs[..|reqs| - 1], msgs) + if Replied(last, msgs) then [] else [last]
  }

  function Replies(reqs: seq<Request>, msgs: seq<HistMsg>): seq<Reply> {
    if reqs == [] then []
    else
      var last := reqs[|reqs| - 1];
      Replies(reqs[..|reqs| - 1], msgs)
      + if Replied(last, msgs) then [Reply(last.id, msgs[FirstAnswer(last, msgs, 0)])] else []
  }

  /** Every bound request that has a reply gets the first one; one that has none is kept. */
  lemma {:induction false} EveryAnswerIsGiven(reqs: seq<Request>, msgs: seq<HistMsg>, i: nat)
    requires i < |reqs|
    ensures reqs[i].userSeq > 0 ==> forall c: nat :: FirstReply(reqs[i], msgs, c) ==> Reply(reqs[i].id, msgs[c]) in Replies(reqs, msgs)
    ensures reqs[i].userSeq <= 0 || (forall c: nat :: !FirstReply(reqs[i], msgs, c)) ==> reqs[i] in Kept(reqs, msgs)
    decreases |reqs|
  {
    hide FirstAnswer, FirstReply, Replied;
    var front, last := reqs[..|reqs| - 1], reqs[|reqs| - 1];
    RepliedIff(reqs[i], msgs);
    RepliedFirst(reqs[i], msgs);
    if i < |front| {
      EveryAnswerIsGiven(front, msgs, i);
    }
  }

  lemma {:induction false} RepliedFirst(req: Request, msgs: seq<HistMsg>)
    ensures Replied(req, msgs) ==> FirstAnswer(req, msgs, 0) < |msgs|
  {
  }

  function Ids(reqs: seq<Request>): seq<string> {
    seq(|reqs|, i requires 0 <= i < |reqs| => reqs[i].id)
  }

  function ReplyIds(replies: seq<Reply>): seq<string> {
    seq(|replies|, i requires 0 <= i < |replies| => replies[i].id)
  }

  lemma IdsSnoc(reqs: seq<Request>, replies: seq<Reply>, req: Request, reply: Reply)
    ensures Ids(reqs + [req]) == Ids(reqs) + [req.id]
    ensures ReplyIds(replies + [reply]) == ReplyIds(replies) + [reply.id]
  {
  }

  /** Nothing is lost or doubled: the pending requests are the kept ones and the replied ones. */
  lemma {:induction false} RequestsConserved(reqs: seq<Request>, msgs: seq<HistMsg>)
    ensures multiset(Ids(reqs)) == multiset(Ids(Kept(reqs, msgs))) + multiset(ReplyIds(Replies(reqs, msgs)))
    decreases |reqs|
  {
    if reqs != [] {
      var front, last := reqs[..|reqs| - 1], reqs[|reqs| - 1];
      RequestsConserved(front, msgs);
      assert reqs == front + [last];
      var reply := if Replied(last, msgs) then msgs[FirstAnswer(last, msgs, 0)] else HistMsg("", "", 0, "", "", "", 0, "", "", false, "", 0, "");
      var r := Reply(last.id, reply);
      IdsSnoc(front, Replies(front, msgs), last, r);
      IdsSnoc(Kept(front, msgs), Replies(front, msgs), last, r);
      hide Ids, ReplyIds;
      assert Kept(reqs, msgs) == if Replied(last, msgs) then Kept(front, msgs) else Kept(front, msgs) + [last];
      assert Replies(reqs, msgs) == if Replied(last, msgs) then Replies(front, msgs) + [r] else Replies(front, msgs);
    }
  }

  // kept lists, in order, the requests of reqs at the places `at`: those not replied to.
  ghost predicate Picks(reqs: seq<Request>, msgs: seq<HistMsg>, kept: seq<Request>, at: seq<nat>) {
    && |at| == |kept|
    && (forall k :: 0 <= k < |at| ==> at[k] < |reqs| && kept[k] == reqs[at[k]] && !Replied(kept[k], msgs))
    && (forall j, k :: 0 <= j < k < |at| ==> at[j] < at[k])
    && (forall i :: 0 <= i < |reqs| && !Replied(reqs[i], msgs) ==> i in at)
  }

  lemma {:induction false} PicksSkip(front: seq<Request>, last: Request, msgs: seq<HistMsg>, kept: seq<Request>, at: seq<nat>)
    requires Picks(front, msgs, kept, at) && Replied(last, msgs)
    ensures Picks(front + [last], msgs, kept, at)
  {
    hide Replied;
    var reqs := front + [last];
    assert reqs[|front|] == last && forall i :: 0 <= i < |front| ==> reqs[i] == front[i];
  }

  lemma {:induction false} PicksTake(front: seq<Request>, last: Request, msgs: seq<HistMsg>, kept: seq<Request>, at: seq<nat>)
    requires Picks(front, msgs, kept, at) && !Replied(last, msgs)
    ensures Picks(front + [last], msgs, kept + [last], at + [|front|])
  {
    hide Replied;
    var reqs, more, all := front + [last], at + [|front|], kept + [last];
    assert reqs[|front|] == last && forall i :: 0 <= i < |front| ==> reqs[i] == front[i];
    forall k | 0 <= k < |more| ensures more[k] < |reqs| && all[k] == reqs[more[k]] && !Replied(all[k], msgs) {
      assert k < |at| ==> more[k] == at[k] && all[k] == kept[k];
    }
    forall j, k | 0 <= j < k < |more| ensures more[j] < more[k] {
      assert more[j] == at[j];
    }
    forall i | 0 <= i < |reqs| && !Replied(reqs[i], msgs) ensures i in more {
      if i < |front| {
        var k :| 0 <= k < |at| && at[k] == i;
        assert more[k] == i;
      } else {
        assert more[|more| - 1] == i;
      }
    }
  }

  // The i-th kept request is the at[i]-th of the old list: a subsequence, in the old order.
  lemma {:induction false} KeptIsSubsequence(reqs: seq<Request>, msgs: seq<HistMsg>) returns (at: seq<nat>)
    ensures Picks(reqs, msgs, Kept(reqs, msgs), at)
    decreases |reqs|
  {
    if reqs == [] {
      at := [];
    } else {
      var front, last := reqs[..|reqs| - 1], reqs[|reqs| - 1];
      at := KeptIsSubsequence(front, msgs);
      assert reqs == front + [last];
      assert Kept(front, msgs) + [] == Kept(front, msgs);
      hide Picks, Replied;
      if Replied(last, msgs) {
        PicksSkip(front, last, msgs, Kept(front, msgs), at);
      } else {
        PicksTake(front, last, msgs, Kept(front, msgs), at);
        at := at + [|front|];
      }
    }
  }

  lemma KeepingKeepsConsistent(reqs: seq<Request>, msgs: seq<HistMsg>)
    requires Consistent(reqs)
    ensures Consistent(Kept(reqs, msgs))
  {
    var at := KeptIsSubsequence(reqs, msgs);
    forall i, j | 0 <= i < j < |at| && reqs[at[i]].userSeq > 0 ensures reqs[at[i]].userSeq != reqs[at[j]].userSeq {
    }
  }

  /** Every reply is a final answer of the turn its request is bound to, after the user event,
      which itself comes after the request's baseline. */
  lemma {:induction false} RepliesBelong(reqs: seq<Request>, msgs: seq<HistMsg>, k: nat) returns (i: nat)
    requires Consistent(reqs) && k < |Replies(reqs, msgs)|
    ensures i < |reqs| && Replies(reqs, msgs)[k].id == reqs[i].id && Replied(reqs[i], msgs)
    ensures var m := Replies(reqs, msgs)[k].message;
            m in msgs && m.role == "reply" && m.turn == reqs[i].turn && m.seqNo > reqs[i].userSeq > reqs[i].baseline
    decreases |reqs|
  {
    var front := reqs[..|reqs| - 1];
    if k < |Replies(front, msgs)| {
      i := RepliesBelong(front, msgs, k);
    } else {
      i := |reqs| - 1;
    }
  }

  // ------------------------------------------------------------------ the tracker

  class Tracker {
    var pending: map<string, seq<Request>>

    ghost predicate Valid()
      reads this
    {
      forall s :: s in pending ==> pending[s] != [] && Consistent(pending[s])
    }

    ghost function Of(session: string): seq<Request>
      reads this
    {
      if session in pending then pending[session] else []
    }

    constructor ()
      ensures Valid() && pending == map[]
    {
      pending := map[];
    }

    method Add(session: string, id: string, text: string, baseline: nat)
      requires Valid()
      modifies this
      ensures Valid()
      ensures pending == old(pending)[session := old(Of(session)) + [Request(id, text, baseline, "", 0)]]
    {
      var req := Request(id, text, baseline, "", 0);
      pending := pending[session := (if session in pending then pending[session] else []) + [req]];
    }

    static method FindCandidate(req: Request, msgs: seq<HistMsg>, used: set<int>) returns (c: nat)
      ensures c == FirstCandidate(req, msgs, used, 0)
    {
      hide SameTypedText, Candidate;
      c := 0;
      while c < |msgs| && !Candidate(req, msgs[c], used)
        invariant c <= |msgs|
        invariant FirstCandidate(req, msgs, used, c) == FirstCandidate(req, msgs, used, 0)
      {
        c := c + 1;
      }
    }

    static method FindAnswer(req: Request, msgs: seq<HistMsg>) returns (c: nat)
      ensures c == FirstAnswer(req, msgs, 0)
    {
      c := 0;
      while c < |msgs| && !Answers(req, msgs[c])
        invariant c <= |msgs|
        invariant FirstAnswer(req, msgs, c) == FirstAnswer(req, msgs, 0)
      {
        c := c + 1;
      }
    }

    static method CollectUsed(reqs: array<Request>) returns (used: set<int>)
      ensures used == Events(reqs[..])
    {
      used := {};
      for i := 0 to reqs.Length
        invariant used == Events(reqs[..i])
      {
        EventsSnoc(reqs[..], i);
        assert reqs[..][..i] == reqs[..i] && reqs[..][..i + 1] == reqs[..i + 1];
        if reqs[i].userSeq > 0 {
          used := used + {reqs[i].userSeq};
        }
      }
      assert reqs[..reqs.Length] == reqs[..];
    }

    // Binds in place: the array plays the slice that the loops rewrite.
    static method BindInPlace(reqs: array<Request>, msgs: seq<HistMsg>)
      modifies reqs
      ensures reqs[..] == BindAll(old(reqs[..]), msgs, Events(old(reqs[..])))
    {
      hide SameTypedText, Candidate, FirstCandidate, BindAll, Events, Choices, Consistent;
      ghost var was := reqs[..];
      var used := CollectUsed(reqs);
      ghost var all := BindAll(was, msgs, used);
      assert was[0..] == was;
      for i := 0 to reqs.Length
        invariant reqs[i..] == was[i..]
        invariant reqs[..i] + BindAll(was[i..], msgs, used) == all
      {
        assert reqs[i] == reqs[i..][0] == was[i];
        var c := |msgs|;
        if reqs[i].turn == "" {
          c := FindCandidate(reqs[i], msgs, used);
        }
        BindStep(was, msgs, used, i, c);
        ghost var done := reqs[..i];
        Regroup(done, [Bound(was[i], msgs, c)], BindAll(was[i + 1..], msgs, used + UsedBy(msgs, c)));
        if c < |msgs| {
          reqs[i] := reqs[i].(turn := msgs[c].turn, userSeq := msgs[c].seqNo);
          used := used + {msgs[c].seqNo};
        }
        assert used == used + UsedBy(msgs, c);
        assert reqs[..i + 1] == done + [Bound(was[i], msgs, c)];
      }
      BindNone(msgs, used);
      assert was[reqs.Length..] == [];
    }

    // Filters in place: the kept requests are written over the front of the slice being read.
    static method KeepInPlace(reqs: array<Request>, msgs: seq<HistMsg>) returns (kept: nat, replies: seq<Reply>)
      modifies reqs
      ensures kept <= reqs.Length && reqs[..kept] == Kept(old(reqs[..]), msgs)
      ensures replies == Replies(old(reqs[..]), msgs)
    {
      hide Answers, Kept, Replies, FirstAnswer;
      ghost var was := reqs[..];
      NothingKept(msgs);
      kept, replies := 0, [];
      for i := 0 to reqs.Length
        invariant kept <= i && reqs[i..] == was[i..]
        invariant reqs[..kept] == Kept(was[..i], msgs)
        invariant replies == Replies(was[..i], msgs)
      {
        assert reqs[i] == reqs[i..][0] == was[i];
        KeptStep(was, msgs, i);
        var req := reqs[i];
        var c := |msgs|;
        if req.userSeq > 0 {
          c := FindAnswer(req, msgs);
        }
        if c < |msgs| {
          replies := replies + [Reply(req.id, msgs[c])];
        } else {
          reqs[kept] := req;
          kept := kept + 1;
        }
      }
      assert was[..|was|] == was;
    }

    static method Answered(was: seq<Request>, msgs: seq<HistMsg>) returns (kept: seq<Request>, replies: seq<Reply>)
      ensures kept == Kept(BindAll(was, msgs, Events(was)), msgs)
      ensures replies == Replies(BindAll(was, msgs, Events(was)), msgs)
    {
      hide *;
      var reqs := new Request[|was|](i requires 0 <= i < |was| => was[i]);
      assert reqs[..] == was;
      BindInPlace(reqs, msgs);
      var n;
      n, replies := KeepInPlace(reqs, msgs);
      kept := reqs[..n];
    }

    method Reconcile(session: string, msgs: seq<HistMsg>) returns (replies: seq<Reply>)
      requires Valid()
      modifies this
      ensures Valid()
      ensures var bound := BindAll(old(Of(session)), msgs, Events(old(Of(session))));
              && Of(session) == Kept(bound, msgs)
              && replies == Replies(bound, msgs)
      ensures forall s :: s != session ==> Of(s) == old(Of(s))
    {
      if session !in pending {
        return [];
      }
      hide Consistent, BindAll, Kept, Replies, Events, SameTypedText, Candidate;
      var was := pending[session];
      BindKeepsConsistent(was, msgs);
      KeepingKeepsConsistent(BindAll(was, msgs, Events(was)), msgs);
      var kept;
      kept, replies := Answered(was, msgs);
      if kept == [] {
        pending := pending - {session};
      } else {
        pending := pending[session := kept];
      }
    }
  }

  lemma EventsSnoc(reqs: seq<Request>, i: nat)
    requires i < |reqs|
    ensures Events(reqs[..i + 1]) == Events(reqs[..i]) + if reqs[i].userSeq > 0 then {reqs[i].userSeq} else {}
  {
    var a, b := reqs[..i], reqs[..i + 1];
    assert forall k :: 0 <= k < i ==> a[k] == b[k];
    forall e | e in Events(b) ensures e in Events(a) || (reqs[i].userSeq > 0 && e == reqs[i].userSeq) {
      var k :| 0 <= k < |b| && b[k].userSeq > 0 && b[k].userSeq == e;
      assert k < i ==> a[k].userSeq == e;
    }
    forall e | e in Events(a) ensures e in Events(b) {
      var k :| 0 <= k < |a| && a[k].userSeq > 0 && a[k].userSeq == e;
      assert b[k].userSeq == e;
    }
    assert b[i] == reqs[i];
  }

  lemma {:induction false} NothingKept(msgs: seq<HistMsg>)
    ensures Kept([], msgs) == [] && Replies([], msgs) == []
  {
  }

  lemma {:induction false} KeptStep(reqs: seq<Request>, msgs: seq<HistMsg>, i: nat)
    requires i < |reqs|
    ensures Kept(reqs[..i + 1], msgs) == Kept(reqs[..i], msgs) + if Replied(reqs[i], msgs) then [] else [reqs[i]]
    ensures Replies(reqs[..i + 1], msgs)
         == Replies(reqs[..i], msgs)
            + if Replied(reqs[i], msgs) then [Reply(reqs[i].id, msgs[FirstAnswer(reqs[i], msgs, 0)])] else []
  {
    hide Answers;
    assert reqs[..i + 1][..i] == reqs[..i];
  }

  lemma BindNone(msgs: seq<HistMsg>, used: set<int>)
    ensures BindAll([], msgs, used) == []
  {
  }

  lemma Regroup<T>(a: seq<T>, b: seq<T>, c: seq<T>)
    ensures a + (b + c) == (a + b) + c
  {
  }

  lemma BindStep(reqs: seq<Request>, msgs: seq<HistMsg>, used: set<int>, i: nat, c: nat)
    requires i < |reqs| && c == Choice(reqs[i], msgs, used)
    ensures BindAll(reqs[i..], msgs, used) == [Bound(reqs[i], msgs, c)] + BindAll(reqs[i + 1..], msgs, used + UsedBy(msgs, c))
  {
    assert reqs[i..][1..] == reqs[i + 1..];
  }
}
