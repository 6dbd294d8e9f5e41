/** Incremental reading of Codex rollout segments and the mirror deduplication of their messages
    (codex_rollout.go). */
module CodexRollout {
  import opened Messages
  import Lines
  import Text

  // The records in which one message may be mirrored.
  datatype Source = EventMsg | ItemCompleted | ResponseItem | TaskComplete

  // A decoded record. An empty turn stands for the current one.
  datatype Event =
    | Meta(version: string)
    | Started(turn: string)
    | Completed(turn: string, reply: string, ts: int)
    | Aborted
    | Says(msg: HistMsg, source: Source)
    | ToolCall(id: string, name: string, asks: bool)
    | ToolOutput(id: string)
    | Other

  // What identifies a message across its mirrors.
  datatype Key = Key(turn: string, role: string, images: nat, text: string)

  type Counts = map<Source, nat>

  datatype Rollout = Rollout(
    seqNo: nat,
    version: string,
    state: string,
    working: bool,
    turn: string,
    lastComment: string,
    toolCalls: map<string, (string, nat)>,
    attention: Option<string>,
    ids: set<string>,
    mirrors: map<Key, Counts>,
    messages: seq<HistMsg>,
    lastReply: string)

  const START := Rollout(0, "", "idle", false, "", "", map[], None, {}, map[], [], "")

  // ------------------------------------------------------------------ adding a message

  function TrimLeft(s: string): (t: string)
    ensures |t| <= |s|
  {
    if s != "" && Text.IsSpace(s[0]) then TrimLeft(s[1..]) else s
  }

  function TrimRight(s: string): string {
    if s != "" && Text.IsSpace(s[|s| - 1]) then TrimRight(s[..|s| - 1]) else s
  }

  function Trim(s: string): string {
    TrimRight(TrimLeft(s))
  }

  function KeyOf(m: HistMsg): Key {
    Key(m.turn, m.role, m.images, m.content)
  }

  function CountsOf(mirrors: map<Key, Counts>, key: Key): Counts {
    if key in mirrors then mirrors[key] else map[]
  }

  function Count(c: Counts, s: Source): nat {
    if s in c then c[s] else 0
  }

  function Larger(a: nat, b: nat): nat {
    if a < b then b else a
  }

  lemma OneOfFour(s: Source)
    ensures s == EventMsg || s == ItemCompleted || s == ResponseItem || s == TaskComplete
  {
  }

  function MaxCount(c: Counts): (max: nat)
    ensures forall s :: Count(c, s) <= max
    ensures exists s :: Count(c, s) == max
  {
    var max := Larger(Larger(Count(c, EventMsg), Count(c, ItemCompleted)), Larger(Count(c, ResponseItem), Count(c, TaskComplete)));
    assert forall s :: Count(c, s) <= max by {
      forall s ensures Count(c, s) <= max {
        OneOfFour(s);
      }
    }
    assert Count(c, EventMsg) == max || Count(c, ItemCompleted) == max || Count(c, ResponseItem) == max || Count(c, TaskComplete) == max;
    max
  }

  // Neither empty nor, by its id, one that was taken before.
  predicate Passes(ids: set<string>, m: HistMsg) {
    (m.content != "" || m.images > 0) && (m.id == "" || m.id !in ids)
  }

  function Preview(s: string): string {
    var t := Trim(seq(|s|, i requires 0 <= i < |s| => if s[i] == '\n' then ' ' else s[i]));
    if |t| > 180 then t[..180] + "…" else t
  }

  function AddMessage(st: Rollout, raw: HistMsg, source: Source): Rollout {
    var m := raw.(content := Trim(raw.content));
    if !Passes(st.ids, m) then st
    else
      var counts := CountsOf(st.mirrors, KeyOf(m));
      var n := Count(counts, source) + 1;
      var st' := st.(ids := if m.id == "" then st.ids else st.ids + {m.id},
                     mirrors := st.mirrors[KeyOf(m) := counts[source := n]]);
      if n <= MaxCount(counts) then st'
      else
        st'.(messages := st.messages + [m.(seqNo := st.seqNo)],
             lastReply := if m.role == "reply" then m.content else st.lastReply,
             lastComment := if m.role == "commentary" then Preview(m.content) else st.lastComment)
  }

  // ------------------------------------------------------------------ records

  function Turn(own: string, current: string): string {
    if own != "" then own else current
  }

  function ReplyMsg(text: string, ts: int, turn: string): HistMsg {
    HistMsg("reply", text, ts, "", "", turn, 0, "", "", false, "", 0, "")
  }

  function Apply(was: Rollout, e: Event): Rollout {
    var st := was.(seqNo := was.seqNo + 1);
    match e
    case Meta(version) => st.(version := version)
    case Started(turn) =>
      st.(working := true, state := "working", turn := turn, lastComment := "", toolCalls := map[], attention := None)
    case Completed(turn, reply, ts) =>
      var st := if reply != "" then AddMessage(st, ReplyMsg(reply, ts, Turn(turn, st.turn)), TaskComplete) else st;
      st.(working := false, state := "completed", toolCalls := map[], attention := None)
    case Aborted => st.(working := false, state := "interrupted", toolCalls := map[], attention := None)
    case Says(msg, source) => AddMessage(st, msg.(turn := Turn(msg.turn, st.turn)), source)
    case ToolCall(id, name, asks) =>
      if id == "" then st
      else st.(toolCalls := st.toolCalls[id := (name, st.seqNo)], attention := if asks then Some(id) else st.attention)
    case ToolOutput(id) =>
      st.(toolCalls := st.toolCalls - {id}, attention := if st.attention == Some(id) then None else st.attention)
    case Other => st
  }

  function ApplyAll(st: Rollout, es: seq<Event>): Rollout {
    if es == [] then st else Apply(ApplyAll(st, es[..|es| - 1]), es[|es| - 1])
  }

  lemma {:induction false} ApplyInTurn(st: Rollout, a: seq<Event>, b: seq<Event>)
    ensures ApplyAll(st, a + b) == ApplyAll(ApplyAll(st, a), b)
    decreases |b|
  {
    hide Apply;
    if b == [] {
      assert a + b == a;
    } else {
      assert (a + b)[..|a + b| - 1] == a + b[..|b| - 1];
      ApplyInTurn(st, a, b[..|b| - 1]);
    }
  }

  // ------------------------------------------------------------------ what every record keeps

  function Emitted(msgs: seq<HistMsg>, key: Key): nat {
    if msgs == [] then 0 else Emitted(msgs[..|msgs| - 1], key) + if KeyOf(msgs[|msgs| - 1]) == key then 1 else 0
  }

  ghost predicate Level(messages: seq<HistMsg>, mirrors: map<Key, Counts>, key: Key) {
    Emitted(messages, key) == MaxCount(CountsOf(mirrors, key))
  }

  ghost predicate Balanced(st: Rollout) {
    forall key :: Level(st.messages, st.mirrors, key)
  }

  ghost predicate Ascending(st: Rollout) {
    && (forall i :: 0 <= i < |st.messages| ==> st.messages[i].seqNo <= st.seqNo)
    && (forall i, j :: 0 <= i < j < |st.messages| ==> st.messages[i].seqNo < st.messages[j].seqNo)
  }

  lemma {:induction false} MaxCountOf(c: Counts, n: nat)
    requires (forall s :: Count(c, s) <= n) && (exists s :: Count(c, s) == n)
    ensures MaxCount(c) == n
  {
    var s :| Count(c, s) == n;
    var t :| Count(c, t) == MaxCount(c);
  }

  // Counting one more occurrence raises the maximum exactly when its source led.
  lemma {:induction false} CountOneMore(c: Counts, source: Source)
    ensures var n := Count(c, source) + 1;
            MaxCount(c[source := n]) == Larger(MaxCount(c), n)
  {
    var n := Count(c, source) + 1;
    var after := c[source := n];
    forall s ensures Count(after, s) == if s == source then n else Count(c, s) {
    }
    var top :| Count(c, top) == MaxCount(c);
    assert Count(after, source) == n && Count(after, top) == if top == source then n else MaxCount(c);
    hide MaxCount, Count;
    MaxCountOf(after, Larger(MaxCount(c), n));
  }

  lemma {:induction false} EmittedSnoc(msgs: seq<HistMsg>, m: HistMsg, key: Key)
    ensures Emitted(msgs + [m], key) == Emitted(msgs, key) + if KeyOf(m) == key then 1 else 0
  {
    assert (msgs + [m])[..|msgs|] == msgs;
  }

  // What adding a message changes.
  lemma {:induction false} AddEffect(st: Rollout, raw: HistMsg, source: Source)
    ensures var m, after := raw.(content := Trim(raw.content)), AddMessage(st, raw, source);
            var counts := CountsOf(st.mirrors, KeyOf(m));
            var n := Count(counts, source) + 1;
            if !Passes(st.ids, m) then after == st
            else
              && after.seqNo == st.seqNo
              && after.ids == (if m.id == "" then st.ids else st.ids + {m.id})
              && after.mirrors == st.mirrors[KeyOf(m) := counts[source := n]]
              && after.messages == if n <= MaxCount(counts) then st.messages else st.messages + [m.(seqNo := st.seqNo)]
  {
    hide Trim, Passes, MaxCount, Count, CountsOf;
  }

  lemma {:induction false} AddKeepsBalance(st: Rollout, raw: HistMsg, source: Source)
    requires Balanced(st)
    ensures Balanced(AddMessage(st, raw, source))
  {
    hide AddMessage, Trim, Passes, Level;
    var m := raw.(content := Trim(raw.content));
    var after := AddMessage(st, raw, source);
    AddEffect(st, raw, source);
    if Passes(st.ids, m) {
      forall key ensures Level(after.messages, after.mirrors, key) {
        assert Level(st.messages, st.mirrors, key);
        LevelStep(st.messages, st.mirrors, m.(seqNo := st.seqNo), source, key);
      }
    }
  }

  lemma {:induction false} LevelStep(messages: seq<HistMsg>, mirrors: map<Key, Counts>, m: HistMsg, source: Source, key: Key)
    requires Level(messages, mirrors, key)
    ensures var counts := CountsOf(mirrors, KeyOf(m));
            var n := Count(counts, source) + 1;
            Level(if n <= MaxCount(counts) then messages else messages + [m], mirrors[KeyOf(m) := counts[source := n]], key)
  {
    hide Emitted, MaxCount, Count;
    CountOneMore(CountsOf(mirrors, KeyOf(m)), source);
    EmittedSnoc(messages, m, key);
  }

  lemma {:induction false} AddKeepsOrder(st: Rollout, raw: HistMsg, source: Source)
    requires Ascending(st) && forall i :: 0 <= i < |st.messages| ==> st.messages[i].seqNo < st.seqNo
    ensures Ascending(AddMessage(st, raw, source)) && AddMessage(st, raw, source).seqNo == st.seqNo
  {
    hide AddMessage, Trim, Passes, MaxCount, Count, CountsOf;
    AddEffect(st, raw, source);
  }

  lemma {:induction false} ApplyKeeps(st: Rollout, e: Event)
    requires Balanced(st) && Ascending(st)
    ensures Balanced(Apply(st, e)) && Ascending(Apply(st, e)) && Apply(st, e).seqNo == st.seqNo + 1
  {
    var next := st.(seqNo := st.seqNo + 1);
    var added := Added(next, e);
    var base := if added.Some? then AddMessage(next, added.value.0, added.value.1) else next;
    ApplyAdds(st, e);
    hide Apply, AddMessage, Added, Level;
    assert Balanced(next);
    if added.Some? {
      AddKeepsBalance(next, added.value.0, added.value.1);
      AddKeepsOrder(next, added.value.0, added.value.1);
    }
  }

  // A record touches messages and mirrors only by the message it adds.
  lemma {:induction false} ApplyAdds(st: Rollout, e: Event)
    ensures var next, after := st.(seqNo := st.seqNo + 1), Apply(st, e);
            var added := Added(next, e);
            var base := if added.Some? then AddMessage(next, added.value.0, added.value.1) else next;
            after.messages == base.messages && after.mirrors == base.mirrors && after.seqNo == base.seqNo
  {
    hide AddMessage;
  }

  // The message a record offers, if any.
  function Added(st: Rollout, e: Event): Option<(HistMsg, Source)> {
    match e
    case Completed(turn, reply, ts) => if reply != "" then Some((ReplyMsg(reply, ts, Turn(turn, st.turn)), TaskComplete)) else None
    case Says(msg, source) => Some((msg.(turn := Turn(msg.turn, st.turn)), source))
    case _ => None
  }

  lemma {:induction false} NothingIsBalanced()
    ensures Balanced(START)
  {
    forall key ensures Level(START.messages, START.mirrors, key) {
      MaxCountOf(map[], 0) by {
        assert Count(map[], EventMsg) == 0;
      }
    }
  }

  /** After any records: as many messages per key as the most any source counted, their sequence
      numbers strictly increasing, and one number used per record. */
  lemma {:induction false} AnyRecordsKeep(es: seq<Event>)
    ensures var st := ApplyAll(START, es); Balanced(st) && Ascending(st) && st.seqNo == |es|
    decreases |es|
  {
    if es != [] {
      AnyRecordsKeep(es[..|es| - 1]);
      ApplyKeeps(ApplyAll(START, es[..|es| - 1]), es[|es| - 1]);
    } else {
      NothingIsBalanced();
    }
  }

  // ------------------------------------------------------------------ mirrors in any order

  datatype Offer = Offer(msg: HistMsg, source: Source)

  function AddAll(st: Rollout, offers: seq<Offer>): Rollout {
    if offers == [] then st
    else AddMessage(AddAll(st, offers[..|offers| - 1]), offers[|offers| - 1].msg, offers[|offers| - 1].source)
  }

  // The offers a list of records makes, an empty turn standing for the one then current.
  function OffersOf(turn: string, es: seq<Event>): seq<Offer> {
    if es == [] then [] else OffersOf(turn, es[..|es| - 1]) + OfferOf(TurnAfter(turn, es[..|es| - 1]), es[|es| - 1])
  }

  function OfferOf(turn: string, e: Event): seq<Offer> {
    match e
    case Completed(own, reply, ts) => if reply != "" then [Offer(ReplyMsg(reply, ts, Turn(own, turn)), TaskComplete)] else []
    case Says(msg, source) => [Offer(msg.(turn := Turn(msg.turn, turn)), source)]
    case _ => []
  }

  // The turn current behind them: that of the last task started.
  function TurnAfter(turn: string, es: seq<Event>): string {
    if es == [] then turn
    else if es[|es| - 1].Started? then es[|es| - 1].turn
    else TurnAfter(turn, es[..|es| - 1])
  }

  ghost predicate LastStarted(es: seq<Event>, i: nat) {
    i < |es| && es[i].Started? && forall j :: i < j < |es| ==> !es[j].Started?
  }

  lemma {:induction false} LastStartedSnoc(front: seq<Event>, e: Event, i: nat)
    requires LastStarted(front + [e], i)
    ensures if i == |front| then e.Started? else LastStarted(front, i) && !e.Started? && (front + [e])[i] == front[i]
  {
    assert (front + [e])[|front|] == e;
    assert forall j :: 0 <= j < |front| ==> (front + [e])[j] == front[j];
  }

  // The turn current is that of the last record that starts a task.
  lemma {:induction false} TurnIsLast(turn: string, es: seq<Event>)
    ensures forall i: nat :: LastStarted(es, i) ==> TurnAfter(turn, es) == es[i].turn
    ensures (forall i :: 0 <= i < |es| ==> !es[i].Started?) ==> TurnAfter(turn, es) == turn
    decreases |es|
  {
    if es != [] {
      var front, e := es[..|es| - 1], es[|es| - 1];
      TurnIsLast(turn, front);
      assert es == front + [e];
      forall i: nat | LastStarted(es, i) ensures TurnAfter(turn, es) == es[i].turn {
        LastStartedSnoc(front, e, i);
      }
      hide LastStarted;
    }
  }

  // The same messages, whatever their numbers.
  ghost predicate SameMessages(a: seq<HistMsg>, b: seq<HistMsg>) {
    |a| == |b| && forall i :: 0 <= i < |a| ==> a[i].(seqNo := 0) == b[i].(seqNo := 0)
  }

  // Two rollouts that add a message alike.
  ghost predicate AddsAlike(st: Rollout, to: Rollout) {
    st.ids == to.ids && st.mirrors == to.mirrors && SameMessages(st.messages, to.messages)
  }

  lemma {:induction false} AddAlike(st: Rollout, to: Rollout, raw: HistMsg, source: Source)
    requires AddsAlike(st, to)
    ensures AddsAlike(AddMessage(st, raw, source), AddMessage(to, raw, source))
  {
    hide AddMessage, Trim, Passes, MaxCount, Count, CountsOf;
    AddEffect(st, raw, source);
    AddEffect(to, raw, source);
  }

  lemma {:induction false} ApplyOffers(st: Rollout, e: Event)
    ensures var offers, after := OfferOf(st.turn, e), Apply(st, e);
            && after.turn == TurnAfter(st.turn, [e]) && |offers| <= 1
            && AddsAlike(after, if offers == [] then st else AddMessage(st.(seqNo := st.seqNo + 1), offers[0].msg, offers[0].source))
  {
    AddKeepsTurn(st, e);
    hide AddMessage;
  }

  lemma {:induction false} AddKeepsTurn(st: Rollout, e: Event)
    ensures Apply(st, e).turn == if e.Started? then e.turn else st.turn
    ensures TurnAfter(st.turn, [e]) == if e.Started? then e.turn else st.turn
  {
    hide Trim, Passes, MaxCount, Count, CountsOf, Preview;
    assert [e][..0] == [];
  }

  /** A list of records leaves the messages that its offers, added one by one, leave: apart from the
      record numbers they carry. */
  lemma {:induction false} RecordsOffer(es: seq<Event>)
    ensures var st := ApplyAll(START, es);
            && st.turn == TurnAfter("", es) && AddsAlike(st, AddAll(START, OffersOf("", es)))
    decreases |es|
  {
    hide Apply, AddMessage, OfferOf, AddsAlike;
    if es == [] {
      assert AddsAlike(START, START) by {
        SameRollout(START);
      }
    } else {
      var front, e := es[..|es| - 1], es[|es| - 1];
      RecordsOffer(front);
      var st, to := ApplyAll(START, front), AddAll(START, OffersOf("", front));
      OneMoreRecord(st, to, e);
      assert [e][..0] == [];
      var offers := OfferOf(st.turn, e);
      if offers == [] {
        assert OffersOf("", front) + [] == OffersOf("", front);
      } else {
        AddAllSnoc(START, OffersOf("", front), offers[0]);
        assert offers == [offers[0]];
      }
    }
  }

  lemma {:induction false} SameRollout(st: Rollout)
    ensures AddsAlike(st, st)
  {
  }

  lemma {:induction false} AddAllSnoc(st: Rollout, offers: seq<Offer>, o: Offer)
    ensures AddAll(st, offers + [o]) == AddMessage(AddAll(st, offers), o.msg, o.source)
  {
    hide AddMessage;
    assert (offers + [o])[..|offers|] == offers;
  }

  lemma {:induction false} OneMoreRecord(st: Rollout, to: Rollout, e: Event)
    requires AddsAlike(st, to)
    ensures var offers, after := OfferOf(st.turn, e), Apply(st, e);
            && after.turn == (if e.Started? then e.turn else st.turn) && |offers| <= 1
            && AddsAlike(after, if offers == [] then to else AddMessage(to, offers[0].msg, offers[0].source))
  {
    hide Apply, AddMessage, OfferOf;
    ApplyOffers(st, e);
    AddKeepsTurn(st, e);
    var offers := OfferOf(st.turn, e);
    if offers != [] {
      AddAlike(st.(seqNo := st.seqNo + 1), to, offers[0].msg, offers[0].source);
    }
  }

  lemma {:induction false} AlikeEmitted(a: seq<HistMsg>, b: seq<HistMsg>, key: Key)
    requires SameMessages(a, b)
    ensures Emitted(a, key) == Emitted(b, key)
    decreases |a|
  {
    if a != [] {
      var x, y := a[|a| - 1], b[|b| - 1];
      assert x.(seqNo := 0) == y.(seqNo := 0);
      AlikeEmitted(a[..|a| - 1], b[..|b| - 1], key);
    }
  }

  // The offers that pass the id filter, trimmed.
  function Passing(offers: seq<Offer>): seq<Offer> {
    if offers == [] then []
    else
      var front := Passing(offers[..|offers| - 1]);
      var last := offers[|offers| - 1];
      var m := last.msg.(content := Trim(last.msg.content));
      if Passes(Ids(front), m) then front + [Offer(m, last.source)] else front
  }

  function Ids(offers: seq<Offer>): set<string> {
    set i | 0 <= i < |offers| && offers[i].msg.id != "" :: offers[i].msg.id
  }

  function Occurrences(offers: seq<Offer>, key: Key, s: Source): nat {
    if offers == [] then 0
    else
      var last := offers[|offers| - 1];
      Occurrences(offers[..|offers| - 1], key, s) + if KeyOf(last.msg) == key && last.source == s then 1 else 0
  }

  lemma {:induction false} IdsSnoc(offers: seq<Offer>, o: Offer)
    ensures Ids(offers + [o]) == Ids(offers) + if o.msg.id == "" then {} else {o.msg.id}
  {
    var all := offers + [o];
    forall id | id in Ids(offers) ensures id in Ids(all) {
      var i :| 0 <= i < |offers| && offers[i].msg.id != "" && offers[i].msg.id == id;
      assert all[i].msg.id == id;
    }
    assert all[|offers|] == o;
    forall id | id in Ids(all) && !(o.msg.id != "" && id == o.msg.id) ensures id in Ids(offers) {
      var i :| 0 <= i < |all| && all[i].msg.id != "" && all[i].msg.id == id;
      assert offers[i].msg.id == id;
    }
  }

  lemma {:induction false} OccurrencesSnoc(offers: seq<Offer>, o: Offer, key: Key, s: Source)
    ensures Occurrences(offers + [o], key, s) == Occurrences(offers, key, s) + if KeyOf(o.msg) == key && o.source == s then 1 else 0
  {
    assert (offers + [o])[..|offers|] == offers;
  }

  // The mirror counters count, per source, the offers that passed.
  lemma {:induction false} CountersCount(offers: seq<Offer>, key: Key, s: Source)
    ensures var st := AddAll(START, offers);
            && st.ids == Ids(Passing(offers))
            && Count(CountsOf(st.mirrors, key), s) == Occurrences(Passing(offers), key, s)
    decreases |offers|
  {
    if offers == [] {
    } else {
      var front, last := offers[..|offers| - 1], offers[|offers| - 1];
      CountersCount(front, key, s);
      var m := last.msg.(content := Trim(last.msg.content));
      IdsSnoc(Passing(front), Offer(m, last.source));
      OccurrencesSnoc(Passing(front), Offer(m, last.source), key, s);
      AddEffect(AddAll(START, front), last.msg, last.source);
      hide AddMessage, Trim, Ids, Occurrences, MaxCount;
    }
  }

  lemma {:induction false} AddAllBalanced(offers: seq<Offer>)
    ensures Balanced(AddAll(START, offers))
    decreases |offers|
  {
    if offers == [] {
      NothingIsBalanced();
    } else {
      AddAllBalanced(offers[..|offers| - 1]);
      AddKeepsBalance(AddAll(START, offers[..|offers| - 1]), offers[|offers| - 1].msg, offers[|offers| - 1].source);
    }
  }

  // n is the largest number of occurrences of the key within one source.
  ghost predicate LargestShare(offers: seq<Offer>, key: Key, n: nat) {
    (forall s :: Occurrences(offers, key, s) <= n) && (exists s :: Occurrences(offers, key, s) == n)
  }

  /** Of each message as many copies appear as the source that repeats it most holds: mirrors collapse,
      repeats within one source never do. */
  lemma {:induction false} MirrorsCollapse(offers: seq<Offer>, key: Key)
    ensures LargestShare(Passing(offers), key, Emitted(AddAll(START, offers).messages, key))
  {
    AddAllBalanced(offers);
    var st := AddAll(START, offers);
    var counts := CountsOf(st.mirrors, key);
    assert Level(st.messages, st.mirrors, key);
    var n := MaxCount(counts);
    var top :| Count(counts, top) == n;
    hide AddAll, Passing, MaxCount, Emitted, Occurrences;
    CountersCount(offers, key, top);
    forall s ensures Occurrences(Passing(offers), key, s) <= n {
      CountersCount(offers, key, s);
      assert Count(counts, s) <= n;
    }
  }

  /** So it is of any list of records. */
  lemma {:induction false} RecordsCollapse(es: seq<Event>, key: Key)
    ensures LargestShare(Passing(OffersOf("", es)), key, Emitted(ApplyAll(START, es).messages, key))
  {
    hide *;
    RecordsOffer(es);
    AlikeMessages(ApplyAll(START, es), AddAll(START, OffersOf("", es)));
    AlikeEmitted(ApplyAll(START, es).messages, AddAll(START, OffersOf("", es)).messages, key);
    MirrorsCollapse(OffersOf("", es), key);
  }

  lemma {:induction false} AlikeMessages(st: Rollout, to: Rollout)
    requires AddsAlike(st, to)
    ensures SameMessages(st.messages, to.messages)
  {
  }

  // The last of one sequence, found in a permutation of it.
  lemma {:induction false} FindLast<T>(a: seq<T>, b: seq<T>) returns (i: nat)
    requires a != [] && multiset(a) == multiset(b)
    ensures i < |b| && b[i] == a[|a| - 1]
    ensures multiset(a[..|a| - 1]) == multiset(b[..i] + b[i + 1..])
  {
    var front, last := a[..|a| - 1], a[|a| - 1];
    assert a == front + [last];
    assert multiset(a) == multiset(front) + multiset{last};
    assert last in multiset(b);
    i :| 0 <= i < |b| && b[i] == last;
    TakeOut(b, i);
  }

  // The offers of key from s, picked out of a multiset.
  lemma {:induction false} OccurrencesOfPermutation(a: seq<Offer>, b: seq<Offer>, key: Key, s: Source)
    requires multiset(a) == multiset(b)
    ensures Occurrences(a, key, s) == Occurrences(b, key, s)
    decreases |a|
  {
    if a == [] {
      assert |multiset(b)| == 0;
    } else {
      hide Occurrences;
      var front, last := a[..|a| - 1], a[|a| - 1];
      var i := FindLast(a, b);
      var before, after := b[..i], b[i + 1..];
      OccurrencesOfPermutation(front, before + after, key, s);
      assert b == before + [last] + after && a == front + [last] && [last] == [] + [last];
      OccurrencesApart(before, after, last, key, s);
      OccurrencesSnoc(front, last, key, s);
      OccurrencesSnoc([], last, key, s);
      NoOccurrences(key, s);
    }
  }

  lemma {:induction false} NoOccurrences(key: Key, s: Source)
    ensures Occurrences([], key, s) == 0
  {
  }

  lemma {:induction false} TakeOut<T>(b: seq<T>, i: nat)
    requires i < |b|
    ensures multiset(b[..i] + b[i + 1..]) == multiset(b) - multiset{b[i]}
    ensures multiset(b) == multiset(b[..i] + b[i + 1..]) + multiset{b[i]}
  {
    assert b == b[..i] + [b[i]] + b[i + 1..];
  }

  lemma {:induction false} OccurrencesApart(a: seq<Offer>, b: seq<Offer>, o: Offer, key: Key, s: Source)
    ensures Occurrences(a + [o] + b, key, s) == Occurrences(a + b, key, s) + Occurrences([o], key, s)
    decreases |b|
  {
    if b == [] {
      assert a + b == a && a + [o] + b == a + [o];
      OccurrencesSnoc(a, o, key, s);
      assert [o] == [] + [o];
      OccurrencesSnoc([], o, key, s);
    } else {
      var front, last := b[..|b| - 1], b[|b| - 1];
      assert a + [o] + b == (a + [o] + front) + [last] && a + b == (a + front) + [last];
      OccurrencesApart(a, front, o, key, s);
      OccurrencesSnoc(a + [o] + front, last, key, s);
      OccurrencesSnoc(a + front, last, key, s);
    }
  }

  /** How the sources interleave does not matter: the same offers in another order leave the same
      number of each message, as long as the same ones pass the id filter. */
  lemma {:induction false} InterleavingDoesNotMatter(a: seq<Offer>, b: seq<Offer>, key: Key)
    requires multiset(Passing(a)) == multiset(Passing(b))
    ensures Emitted(AddAll(START, a).messages, key) == Emitted(AddAll(START, b).messages, key)
  {
    hide *;
    MirrorsCollapse(a, key);
    MirrorsCollapse(b, key);
    forall s ensures Occurrences(Passing(a), key, s) == Occurrences(Passing(b), key, s) {
      OccurrencesOfPermutation(Passing(a), Passing(b), key, s);
    }
    SharesAgree(Passing(a), Passing(b), key, Emitted(AddAll(START, a).messages, key), Emitted(AddAll(START, b).messages, key));
  }

  lemma {:induction false} SharesAgree(a: seq<Offer>, b: seq<Offer>, key: Key, m: nat, n: nat)
    requires LargestShare(a, key, m) && LargestShare(b, key, n)
    requires forall s :: Occurrences(a, key, s) == Occurrences(b, key, s)
    ensures m == n
  {
    hide Occurrences;
    var s :| Occurrences(a, key, s) == m;
    var t :| Occurrences(b, key, t) == n;
    assert Occurrences(a, key, t) <= m && Occurrences(b, key, s) <= n;
  }

  /** So the records themselves can come interleaved in any way that leaves the same offers to pass. */
  lemma {:induction false} RecordsInterleave(a: seq<Event>, b: seq<Event>, key: Key)
    requires multiset(Passing(OffersOf("", a))) == multiset(Passing(OffersOf("", b)))
    ensures Emitted(ApplyAll(START, a).messages, key) == Emitted(ApplyAll(START, b).messages, key)
  {
    hide *;
    RecordsOffer(a);
    RecordsOffer(b);
    AlikeMessages(ApplyAll(START, a), AddAll(START, OffersOf("", a)));
    AlikeMessages(ApplyAll(START, b), AddAll(START, OffersOf("", b)));
    AlikeEmitted(ApplyAll(START, a).messages, AddAll(START, OffersOf("", a)).messages, key);
    AlikeEmitted(ApplyAll(START, b).messages, AddAll(START, OffersOf("", b)).messages, key);
    InterleavingDoesNotMatter(OffersOf("", a), OffersOf("", b), key);
  }

  // ------------------------------------------------------------------ the id filter, over the offers

  // s without the blanks around it.
  lemma {:induction false} TrimIs(s: string) returns (a: string, b: string)
    ensures s == a + Trim(s) + b && Lines.Blank(a) && Lines.Blank(b)
    ensures Trim(s) != "" ==> !Text.IsSpace(Trim(s)[0]) && !Text.IsSpace(Trim(s)[|Trim(s)| - 1])
  {
    hide TrimLeft, TrimRight;
    a := LeftIs(s);
    b := RightIs(TrimLeft(s));
    assert s == a + (Trim(s) + b) == a + Trim(s) + b;
  }

  lemma {:induction false} OneBlank(c: char)
    ensures Lines.Blank([c]) <==> Text.IsSpace(c)
    ensures Lines.Blank("")
  {
    assert [c][0] == c;
  }

  lemma {:induction false} LeftIs(s: string) returns (a: string)
    ensures s == a + TrimLeft(s) && Lines.Blank(a) && (TrimLeft(s) != "" ==> !Text.IsSpace(TrimLeft(s)[0]))
    decreases |s|
  {
    hide Lines.Blank, Text.IsSpace;
    OneBlank(' ');
    if s != "" && Text.IsSpace(s[0]) {
      var rest := LeftIs(s[1..]);
      a := [s[0]] + rest;
      assert s == [s[0]] + s[1..];
      OneBlank(s[0]);
      Lines.JoinBlanks([s[0]], rest);
    } else {
      a := "";
    }
  }

  lemma {:induction false} RightIs(s: string) returns (b: string)
    ensures s == TrimRight(s) + b && Lines.Blank(b)
    ensures TrimRight(s) != "" ==> TrimRight(s)[0] == s[0] && !Text.IsSpace(TrimRight(s)[|TrimRight(s)| - 1])
    decreases |s|
  {
    hide Lines.Blank, Text.IsSpace;
    OneBlank(' ');
    if s != "" && Text.IsSpace(s[|s| - 1]) {
      var rest := RightIs(s[..|s| - 1]);
      b := rest + [s[|s| - 1]];
      assert s == s[..|s| - 1] + [s[|s| - 1]];
      OneBlank(s[|s| - 1]);
      Lines.JoinBlanks(rest, [s[|s| - 1]]);
    } else {
      b := "";
    }
  }

  predicate SaysSomething(m: HistMsg) {
    Trim(m.content) != "" || m.images > 0
  }

  // No earlier offer that says something has the id.
  ghost predicate Taken(offers: seq<Offer>, i: nat) {
    && i < |offers| && SaysSomething(offers[i].msg)
    && (offers[i].msg.id == "" || NewId(offers[..i], offers[i].msg.id))
  }

  ghost predicate NewId(offers: seq<Offer>, id: string) {
    forall j :: 0 <= j < |offers| && SaysSomething(offers[j].msg) ==> offers[j].msg.id != id
  }

  lemma {:induction false} PassingIds(offers: seq<Offer>, id: string)
    requires id != ""
    ensures id !in Ids(Passing(offers)) <==> NewId(offers, id)
    decreases |offers|
  {
    hide Trim, Ids;
    if offers == [] {
      NoIds();
    } else {
      var front, last := offers[..|offers| - 1], offers[|offers| - 1];
      PassingIds(front, id);
      IdsSnoc(Passing(front), Offer(last.msg.(content := Trim(last.msg.content)), last.source));
      assert offers == front + [last];
      assert NewId(offers, id) <==> NewId(front, id) && (SaysSomething(last.msg) ==> last.msg.id != id);
    }
  }

  lemma {:induction false} NoIds()
    ensures Ids([]) == {}
  {
  }

  // The offers that pass, at[k] for the k-th, in order.
  ghost predicate PassedAt(passed: seq<Offer>, offers: seq<Offer>, at: seq<nat>) {
    && |at| == |passed|
    && (forall k :: 0 <= k < |at| ==>
          at[k] < |offers| && passed[k] == offers[at[k]].(msg := offers[at[k]].msg.(content := Trim(offers[at[k]].msg.content))))
    && (forall j, k :: 0 <= j < k < |at| ==> at[j] < at[k])
  }

  /** An offer passes exactly when it says something and carries no id of an earlier one that does. */
  lemma {:induction false} PassingIff(offers: seq<Offer>) returns (at: seq<nat>)
    ensures PassedAt(Passing(offers), offers, at)
    ensures forall i: nat :: i in at <==> Taken(offers, i)
    decreases |offers|
  {
    hide Trim, Ids, Taken, Passes;
    if offers == [] {
      at := [];
      NothingTaken();
    } else {
      var front, last := offers[..|offers| - 1], offers[|offers| - 1];
      at := PassingIff(front);
      TakenSnoc(front, last);
      assert offers == front + [last];
      if Taken(offers, |front|) {
        InSnoc(at, |front|);
        at := at + [|front|];
      }
    }
  }

  lemma {:induction false} NothingTaken()
    ensures forall i: nat :: !Taken([], i)
  {
  }

  lemma {:induction false} InSnoc(at: seq<nat>, n: nat)
    ensures forall i: nat :: i in at + [n] <==> i in at || i == n
  {
  }

  lemma {:induction false} TakenSnoc(front: seq<Offer>, last: Offer)
    ensures var offers := front + [last];
            && (forall i: nat :: Taken(offers, i) <==> Taken(front, i) || (i == |front| && Taken(offers, i)))
            && (Taken(offers, |front|) <==> Passes(Ids(Passing(front)), last.msg.(content := Trim(last.msg.content))))
  {
    hide Trim, Ids, SaysSomething, NewId, Passing, Passes;
    var offers := front + [last];
    if last.msg.id != "" {
      PassingIds(front, last.msg.id);
    }
    SomethingPasses(Ids(Passing(front)), last.msg);
    forall i: nat | i < |front| ensures Taken(offers, i) <==> Taken(front, i) {
      assert front[..i] == offers[..i] && front[i] == offers[i];
    }
    assert offers[..|front|] == front && offers[|front|] == last;
  }

  lemma {:induction false} SomethingPasses(ids: set<string>, m: HistMsg)
    ensures Passes(ids, m.(content := Trim(m.content))) <==> SaysSomething(m) && (m.id == "" || m.id !in ids)
  {
    hide Trim;
  }

  // ------------------------------------------------------------------ the activity, over the records

  predicate Bounds(e: Event) {
    e.Started? || e.Completed? || e.Aborted?
  }

  ghost predicate LastBound(es: seq<Event>, i: nat) {
    i < |es| && Bounds(es[i]) && forall j :: i < j < |es| ==> !Bounds(es[j])
  }

  // The last record that starts or ends a task says whether the agent works, and how the last one ended.
  ghost predicate ActivityOf(st: Rollout, es: seq<Event>) {
    && (forall i: nat :: LastBound(es, i) ==>
          && (st.working <==> es[i].Started?)
          && st.state == match es[i] case Started(_) => "working" case Completed(_, _, _) => "completed" case _ => "interrupted")
    && ((forall i :: 0 <= i < |es| ==> !Bounds(es[i])) ==> !st.working && st.state == "idle")
  }

  // The call at i is open: no task has started or ended since and it has no output.
  ghost predicate OpenCall(es: seq<Event>, i: nat) {
    && i < |es| && es[i].ToolCall? && es[i].id != ""
    && forall j :: i < j < |es| ==> !Bounds(es[j]) && !(es[j].ToolOutput? && es[j].id == es[i].id)
  }

  // ... and no later call has the id.
  ghost predicate LastOpenCall(es: seq<Event>, i: nat) {
    OpenCall(es, i) && forall j :: i < j < |es| ==> !(es[j].ToolCall? && es[j].id == es[i].id)
  }

  // The question at i stands: it is open and no other was asked since.
  ghost predicate Asked(es: seq<Event>, i: nat) {
    OpenCall(es, i) && es[i].asks && forall j :: i < j < |es| ==> !(es[j].ToolCall? && es[j].id != "" && es[j].asks)
  }

  ghost predicate CallsOf(st: Rollout, es: seq<Event>) {
    && (forall i: nat :: LastOpenCall(es, i) ==> es[i].id in st.toolCalls && st.toolCalls[es[i].id] == (es[i].name, i + 1))
    && (forall id :: id in st.toolCalls ==> exists i: nat :: LastOpenCall(es, i) && es[i].id == id)
  }

  ghost predicate QuestionOf(st: Rollout, es: seq<Event>) {
    && (forall i: nat :: Asked(es, i) ==> st.attention == Some(es[i].id))
    && (st.attention.Some? ==> exists i: nat :: Asked(es, i) && es[i].id == st.attention.value)
  }

  lemma {:induction false} OpenCallSnoc(front: seq<Event>, e: Event, i: nat)
    requires i < |front|
    ensures var es := front + [e];
            && (OpenCall(es, i) <==> OpenCall(front, i) && !Bounds(e) && !(e.ToolOutput? && e.id == front[i].id))
            && (LastOpenCall(es, i) <==> LastOpenCall(front, i) && OpenCall(es, i) && !(e.ToolCall? && e.id == front[i].id))
            && (Asked(es, i) <==> Asked(front, i) && OpenCall(es, i) && !(e.ToolCall? && e.id != "" && e.asks))
            && (LastBound(es, i) <==> LastBound(front, i) && !Bounds(e))
  {
    var es := front + [e];
    assert es[|front|] == e;
    assert forall j :: 0 <= j < |front| ==> es[j] == front[j];
  }

  lemma {:induction false} NewestCall(front: seq<Event>, e: Event)
    ensures var es, i := front + [e], |front|;
            && (OpenCall(es, i) <==> e.ToolCall? && e.id != "") && (LastOpenCall(es, i) <==> OpenCall(es, i))
            && (Asked(es, i) <==> OpenCall(es, i) && e.asks) && (LastBound(es, i) <==> Bounds(e))
  {
  }

  // What a record does to these fields, whatever message it adds.
  lemma {:induction false} ApplyFields(st: Rollout, e: Event)
    ensures var to := Apply(st, e);
            && to.working == (if Bounds(e) then e.Started? else st.working)
            && to.state == (match e case Started(_) => "working" case Completed(_, _, _) => "completed"
                                    case Aborted => "interrupted" case _ => st.state)
            && to.toolCalls == (if Bounds(e) then map[]
                                else if e.ToolCall? && e.id != "" then st.toolCalls[e.id := (e.name, st.seqNo + 1)]
                                else if e.ToolOutput? then st.toolCalls - {e.id} else st.toolCalls)
            && to.attention == (if Bounds(e) then None
                                else if e.ToolCall? && e.id != "" && e.asks then Some(e.id)
                                else if e.ToolOutput? && st.attention == Some(e.id) then None else st.attention)
  {
    hide Trim, Passes, MaxCount, Count, CountsOf, Preview;
  }

  lemma {:induction false} ActivityStep(st: Rollout, front: seq<Event>, e: Event)
    requires ActivityOf(st, front)
    ensures ActivityOf(Apply(st, e), front + [e])
  {
    hide Apply;
    ApplyFields(st, e);
    NewestCall(front, e);
    var es := front + [e];
    forall i: nat | LastBound(es, i) && i < |front| ensures LastBound(front, i) && !Bounds(e) && es[i] == front[i] {
      OpenCallSnoc(front, e, i);
    }
    assert es[|front|] == e;
    if forall i :: 0 <= i < |es| ==> !Bounds(es[i]) {
      assert forall i :: 0 <= i < |front| ==> front[i] == es[i];
    }
  }

  lemma {:induction false} CallsStep(st: Rollout, front: seq<Event>, e: Event)
    requires CallsOf(st, front) && st.seqNo == |front|
    ensures CallsOf(Apply(st, e), front + [e])
  {
    hide Apply, LastOpenCall, OpenCall;
    ApplyFields(st, e);
    NewestCall(front, e);
    var es, to := front + [e], Apply(st, e);
    assert es[|front|] == e;
    OpenCallsBelong(front);
    OpenCallsBelong(es);
    forall i: nat | i < |es| && LastOpenCall(es, i)
      ensures es[i].ToolCall? && es[i].id in to.toolCalls && to.toolCalls[es[i].id] == (es[i].name, i + 1)
    {
      if i < |front| {
        OpenCallSnoc(front, e, i);
      }
    }
    forall id | id in to.toolCalls ensures exists i: nat :: LastOpenCall(es, i) && es[i].id == id {
      if e.ToolCall? && e.id == id && id != "" {
        assert LastOpenCall(es, |front|);
      } else {
        var i: nat :| LastOpenCall(front, i) && front[i].id == id;
        OpenCallSnoc(front, e, i);
        assert es[i] == front[i];
      }
    }
  }

  lemma {:induction false} OpenCallsBelong(es: seq<Event>)
    ensures forall i: nat :: LastOpenCall(es, i) ==> i < |es| && es[i].ToolCall? && es[i].id != "" && OpenCall(es, i)
    ensures forall i: nat :: Asked(es, i) ==> i < |es| && es[i].ToolCall? && OpenCall(es, i)
  {
  }

  lemma {:induction false} QuestionStep(st: Rollout, front: seq<Event>, e: Event)
    requires QuestionOf(st, front)
    ensures QuestionOf(Apply(st, e), front + [e])
  {
    hide Apply, Asked, OpenCall;
    ApplyFields(st, e);
    NewestCall(front, e);
    var es, to := front + [e], Apply(st, e);
    assert es[|front|] == e;
    OpenCallsBelong(front);
    OpenCallsBelong(es);
    forall i: nat | i < |es| && Asked(es, i) ensures es[i].ToolCall? && to.attention == Some(es[i].id) {
      if i < |front| {
        OpenCallSnoc(front, e, i);
      }
    }
    if to.attention.Some? {
      if e.ToolCall? && e.id != "" && e.asks {
        assert Asked(es, |front|);
      } else {
        var i: nat :| Asked(front, i) && front[i].id == to.attention.value;
        OpenCallSnoc(front, e, i);
        assert es[i] == front[i];
      }
    }
  }

  /** What a list of records leaves: whether the agent works and how its last task ended, the calls
      still open, each with the name and number of its last record, and the question still asked. */
  lemma {:induction false} RecordsLeave(es: seq<Event>)
    ensures var st := ApplyAll(START, es); ActivityOf(st, es) && CallsOf(st, es) && QuestionOf(st, es)
    decreases |es|
  {
    hide Apply, ActivityOf, CallsOf, QuestionOf;
    if es == [] {
      NothingLeft();
    } else {
      var front, e := es[..|es| - 1], es[|es| - 1];
      RecordsLeave(front);
      AnyRecordsKeep(front);
      assert es == front + [e];
      ActivityStep(ApplyAll(START, front), front, e);
      CallsStep(ApplyAll(START, front), front, e);
      QuestionStep(ApplyAll(START, front), front, e);
    }
  }

  lemma {:induction false} NothingLeft()
    ensures ActivityOf(START, []) && CallsOf(START, []) && QuestionOf(START, [])
  {
  }

  // ------------------------------------------------------------------ the messages, over the records

  // The message carries the number of the record that offered it, and what that record says.
  ghost predicate Offered(m: HistMsg, es: seq<Event>) {
    1 <= m.seqNo <= |es| &&
    var offers := OfferOf(TurnAfter("", es[..m.seqNo - 1]), es[m.seqNo - 1]);
    |offers| == 1 && m == offers[0].msg.(content := Trim(offers[0].msg.content), seqNo := m.seqNo)
  }

  ghost predicate LastWith(msgs: seq<HistMsg>, role: string, k: nat) {
    k < |msgs| && msgs[k].role == role && forall j :: k < j < |msgs| ==> msgs[j].role != role
  }

  // reply is the last reply among the messages, "" if there is none.
  ghost predicate RepliedLast(msgs: seq<HistMsg>, reply: string) {
    && (forall k: nat :: LastWith(msgs, "reply", k) ==> reply == msgs[k].content)
    && ((forall k :: 0 <= k < |msgs| ==> msgs[k].role != "reply") ==> reply == "")
  }

  lemma {:induction false} OfferedLonger(m: HistMsg, front: seq<Event>, e: Event)
    requires Offered(m, front)
    ensures Offered(m, front + [e])
  {
    hide Trim, OfferOf;
    assert (front + [e])[..m.seqNo - 1] == front[..m.seqNo - 1];
  }

  lemma {:induction false} RepliedSnoc(msgs: seq<HistMsg>, m: HistMsg, reply: string)
    requires RepliedLast(msgs, reply)
    ensures RepliedLast(msgs + [m], if m.role == "reply" then m.content else reply)
  {
    var more := msgs + [m];
    assert more[|msgs|] == m;
    assert forall k :: 0 <= k < |msgs| ==> more[k] == msgs[k];
    forall k: nat | LastWith(more, "reply", k) ensures (if m.role == "reply" then m.content else reply) == more[k].content {
      if k < |msgs| {
        assert LastWith(msgs, "reply", k);
      }
    }
  }

  // A record adds nothing, or the one message it offers.
  lemma {:induction false} ApplySays(st: Rollout, e: Event)
    ensures var offers, to := OfferOf(st.turn, e), Apply(st, e);
            || (to.messages == st.messages && to.lastReply == st.lastReply)
            || (|offers| == 1 &&
                var m := offers[0].msg.(content := Trim(offers[0].msg.content), seqNo := st.seqNo + 1);
                && to.messages == st.messages + [m]
                && to.lastReply == if m.role == "reply" then m.content else st.lastReply)
  {
    hide Trim, Passes, MaxCount, Count, CountsOf, Preview;
  }

  /** Every message shown is what some record offered, under that record's number; the last reply is the
      last of them that is a reply. */
  lemma {:induction false} MessagesAreOffers(es: seq<Event>)
    ensures var st := ApplyAll(START, es);
            (forall k :: 0 <= k < |st.messages| ==> Offered(st.messages[k], es)) && RepliedLast(st.messages, st.lastReply)
    decreases |es|
  {
    hide Apply, OfferOf, Offered, RepliedLast;
    if es == [] {
      NothingReplied();
    } else {
      var front, e := es[..|es| - 1], es[|es| - 1];
      var st := ApplyAll(START, front);
      MessagesAreOffers(front);
      AnyRecordsKeep(front);
      RecordsOffer(front);
      assert es == front + [e];
      ApplySays(st, e);
      forall k | 0 <= k < |st.messages| ensures Offered(st.messages[k], es) {
        OfferedLonger(st.messages[k], front, e);
      }
      var to := Apply(st, e);
      if to.messages != st.messages {
        var m := to.messages[|st.messages|];
        assert to.messages == st.messages + [m];
        RepliedSnoc(st.messages, m, st.lastReply);
        NewestOffer(front, e, m);
      }
    }
    hide Balanced, Ascending, AddsAlike;
  }

  lemma {:induction false} NewestOffer(front: seq<Event>, e: Event, m: HistMsg)
    ensures var offers := OfferOf(TurnAfter("", front), e);
            |offers| == 1 && m == offers[0].msg.(content := Trim(offers[0].msg.content), seqNo := |front| + 1) ==> Offered(m, front + [e])
  {
    hide Trim, OfferOf;
    assert (front + [e])[..|front|] == front && (front + [e])[|front|] == e;
  }

  // The number of the record that last started a task.
  ghost function LastStart(es: seq<Event>): nat {
    if es == [] then 0 else if es[|es| - 1].Started? then |es| else LastStart(es[..|es| - 1])
  }

  // comment previews the last commentary numbered above from, "" if there is none.
  ghost predicate CommentedLast(msgs: seq<HistMsg>, from: nat, comment: string) {
    && (forall k: nat :: LastWith(msgs, "commentary", k) && msgs[k].seqNo > from ==> comment == Preview(msgs[k].content))
    && ((forall k :: 0 <= k < |msgs| && msgs[k].seqNo > from ==> msgs[k].role != "commentary") ==> comment == "")
  }

  lemma {:induction false} CommentedSnoc(msgs: seq<HistMsg>, m: HistMsg, from: nat, comment: string)
    requires CommentedLast(msgs, from, comment) && m.seqNo > from
    ensures CommentedLast(msgs + [m], from, if m.role == "commentary" then Preview(m.content) else comment)
  {
    hide Preview;
    var more := msgs + [m];
    assert more[|msgs|] == m;
    assert forall k :: 0 <= k < |msgs| ==> more[k] == msgs[k];
    forall k: nat | LastWith(more, "commentary", k) && more[k].seqNo > from
      ensures (if m.role == "commentary" then Preview(m.content) else comment) == Preview(more[k].content)
    {
      if k < |msgs| {
        assert LastWith(msgs, "commentary", k);
      }
    }
  }

  lemma {:induction false} ApplyComments(st: Rollout, e: Event)
    ensures var to := Apply(st, e);
            if e.Started? then to.messages == st.messages && to.lastComment == ""
            else
              || (to.messages == st.messages && to.lastComment == st.lastComment)
              || (exists m :: to.messages == st.messages + [m] && m.seqNo == st.seqNo + 1
                              && to.lastComment == if m.role == "commentary" then Preview(m.content) else st.lastComment)
  {
    hide Trim, Passes, MaxCount, Count, CountsOf, Preview;
  }

  // While a task runs its last commentary is shown; a new task starts without.
  lemma {:induction false} CommentIsLast(es: seq<Event>)
    ensures var st := ApplyAll(START, es); CommentedLast(st.messages, LastStart(es), st.lastComment) && LastStart(es) <= |es|
    decreases |es|
  {
    hide Apply, CommentedLast, Balanced;
    if es == [] {
      NothingCommented();
    } else {
      var front, e := es[..|es| - 1], es[|es| - 1];
      var st, to := ApplyAll(START, front), ApplyAll(START, es);
      CommentIsLast(front);
      AnyRecordsKeep(front);
      ApplyComments(st, e);
      if e.Started? {
        NoneAbove(st.messages, |es|);
      } else if to.messages != st.messages {
        var m :| to.messages == st.messages + [m] && m.seqNo == st.seqNo + 1
                 && to.lastComment == if m.role == "commentary" then Preview(m.content) else st.lastComment;
        CommentedSnoc(st.messages, m, LastStart(front), st.lastComment);
      } else {
        assert |st.messages| == |to.messages|;
      }
    }
  }

  lemma {:induction false} NoneAbove(msgs: seq<HistMsg>, from: nat)
    requires forall k :: 0 <= k < |msgs| ==> msgs[k].seqNo <= from
    ensures CommentedLast(msgs, from, "")
  {
    hide Preview;
  }

  lemma {:induction false} NothingCommented()
    ensures CommentedLast([], 0, "")
  {
  }

  lemma {:induction false} NothingReplied()
    ensures RepliedLast([], "")
  {
  }
}
