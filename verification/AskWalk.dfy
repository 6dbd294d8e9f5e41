/** The guarded answer walk (askmenu.go): keys pressed in a live menu that anyone may change. */
module AskWalk {
  import opened Messages
  import opened AskMenu
  import Multi = AskMulti
  import Review = AskReview
  import NormText = Text

  // The parser reports a lone question only under a single header line, never as a review.
  predicate FromParser(p: Pane) {
    p.single ==> |p.tabs| == 1 && !p.review
  }

  type ParsedPane = p: Pane | FromParser(p) witness Multi.BLANK

  // What one capture gives: no answer from tmux, no live menu, or a menu.
  datatype Capture = Failed | Blank | Menu(pane: ParsedPane)

  datatype Event = Looked(capture: Capture) | Pressed(key: Key, landed: bool)

  datatype AskError = Lost | Changed | Unanswerable

  datatype ReadResult = Got(pane: ParsedPane) | Unread(error: AskError)

  datatype Wait = Seen(pane: ParsedPane) | Gone | TimedOut | Broken(error: AskError)

  // What the walk was asked to do. fold and lower stand for alnumKey and strings.ToLower.
  datatype AnyJob = Job(fold: string -> string, lower: string -> string, ask: seq<Question>, picks: seq<Pick>)

  predicate ValidPick(q: Question, p: Pick) {
    && 1 <= |q.labels| <= 8
    && if q.multiSelect then ValidMultiPick(q, p)
       else 0 <= p.option <= |q.labels| && !(p.option == 0 && p.text == "")
  }

  predicate ValidPicks(ask: seq<Question>, picks: seq<Pick>) {
    |picks| == |ask| && forall i :: 0 <= i < |ask| ==> ValidPick(ask[i], picks[i])
  }

  type Job = j: AnyJob | ValidPicks(j.ask, j.picks) witness Job(s => s, s => s, [], [])

  const PLACEHOLDER := "type something."

  // ------------------------------------------------------------------ reading a trace

  ghost function Keys(ev: seq<Event>): seq<Key> {
    if ev == [] then []
    else
      var last := ev[|ev| - 1];
      Keys(ev[..|ev| - 1]) + if last.Pressed? then [last.key] else []
  }

  // The latest capture.
  ghost function LastLook(ev: seq<Event>): Capture {
    if ev == [] then Blank
    else
      var last := ev[|ev| - 1];
      if last.Looked? then last.capture else LastLook(ev[..|ev| - 1])
  }

  ghost predicate OnlyLooks(ev: seq<Event>) {
    forall k :: 0 <= k < |ev| ==> ev[k].Looked?
  }

  lemma KeysSnoc(ev: seq<Event>, e: Event)
    ensures Keys(ev + [e]) == Keys(ev) + if e.Pressed? then [e.key] else []
    ensures LastLook(ev + [e]) == if e.Looked? then e.capture else LastLook(ev)
  {
    assert (ev + [e])[..|ev|] == ev;
  }

  lemma {:induction false} KeysOfLooks(ev: seq<Event>, looks: seq<Event>)
    requires OnlyLooks(looks)
    ensures Keys(ev + looks) == Keys(ev)
    decreases |looks|
  {
    if looks == [] {
      assert ev + looks == ev;
    } else {
      var front := looks[..|looks| - 1];
      KeysOfLooks(ev, front);
      assert ev + looks == (ev + front) + [looks[|looks| - 1]];
      KeysSnoc(ev + front, looks[|looks| - 1]);
    }
  }

  // ------------------------------------------------------------------ answer steps

  // A page on which question i may be answered.
  predicate Ready(job: Job, p: Pane, i: nat) {
    && i < |job.ask|
    && HeadersMatch(job.fold, p, job.ask)
    && !p.editing
    && Focus(job.fold, p, job.ask) == i
    && OptionsMatch(job.fold, p, job.ask[i])
  }

  // The pressed keys are the first ones of plan, in order; the j-th is allowed by the latest
  // capture, and the last argument says whether that capture came right before it.
  ghost predicate Obeys(ev: seq<Event>, plan: seq<Key>, allowed: (nat, Capture, bool) -> bool) {
    ev == [] || (
      var front, last := ev[..|ev| - 1], ev[|ev| - 1];
      && Obeys(front, plan, allowed)
      && (last.Pressed? ==>
            && |Keys(front)| < |plan| && plan[|Keys(front)|] == last.key
            && allowed(|Keys(front)|, LastLook(front), front != [] && front[|front| - 1].Looked?)))
  }

  lemma ObeysLook(ev: seq<Event>, c: Capture, plan: seq<Key>, allowed: (nat, Capture, bool) -> bool)
    requires Obeys(ev, plan, allowed)
    ensures Obeys(ev + [Looked(c)], plan, allowed)
    ensures Keys(ev + [Looked(c)]) == Keys(ev) && LastLook(ev + [Looked(c)]) == c
  {
    assert (ev + [Looked(c)])[..|ev|] == ev;
  }

  lemma {:induction false} ObeysLooks(ev: seq<Event>, looks: seq<Event>, plan: seq<Key>, allowed: (nat, Capture, bool) -> bool)
    requires Obeys(ev, plan, allowed) && OnlyLooks(looks)
    ensures Obeys(ev + looks, plan, allowed) && Keys(ev + looks) == Keys(ev)
    ensures looks != [] ==> LastLook(ev + looks) == looks[|looks| - 1].capture
    decreases |looks|
  {
    if looks == [] {
      assert ev + looks == ev;
    } else {
      var front := looks[..|looks| - 1];
      ObeysLooks(ev, front, plan, allowed);
      ObeysLook(ev + front, looks[|looks| - 1].capture, plan, allowed);
      assert ev + looks == (ev + front) + [looks[|looks| - 1]];
    }
  }

  lemma ObeysPress(ev: seq<Event>, key: Key, landed: bool, plan: seq<Key>, allowed: (nat, Capture, bool) -> bool)
    requires Obeys(ev, plan, allowed) && |Keys(ev)| < |plan| && plan[|Keys(ev)|] == key
    requires allowed(|Keys(ev)|, LastLook(ev), ev != [] && ev[|ev| - 1].Looked?)
    ensures Obeys(ev + [Pressed(key, landed)], plan, allowed)
    ensures Keys(ev + [Pressed(key, landed)]) == Keys(ev) + [key]
    ensures LastLook(ev + [Pressed(key, landed)]) == LastLook(ev)
  {
    assert (ev + [Pressed(key, landed)])[..|ev|] == ev;
  }

  // Spelled out: the keys are a prefix of the plan, and every one of them was allowed.
  lemma {:induction false} ObeysPrefix(ev: seq<Event>, plan: seq<Key>, allowed: (nat, Capture, bool) -> bool)
    requires Obeys(ev, plan, allowed)
    ensures Keys(ev) <= plan
    decreases |ev|
  {
    if ev != [] {
      ObeysPrefix(ev[..|ev| - 1], plan, allowed);
    }
  }

  lemma {:induction false} ObeysAt(ev: seq<Event>, plan: seq<Key>, allowed: (nat, Capture, bool) -> bool, k: nat)
    requires Obeys(ev, plan, allowed) && k < |ev| && ev[k].Pressed?
    ensures |Keys(ev[..k])| < |plan| && plan[|Keys(ev[..k])|] == ev[k].key
    ensures allowed(|Keys(ev[..k])|, LastLook(ev[..k]), k > 0 && ev[k - 1].Looked?)
    decreases |ev|
  {
    var front := ev[..|ev| - 1];
    if k < |front| {
      assert front[k] == ev[k] && front[..k] == ev[..k];
      assert k > 0 ==> front[k - 1] == ev[k - 1];
      ObeysAt(front, plan, allowed, k);
    } else {
      assert ev[..k] == front;
      assert k > 0 ==> front[k - 1] == ev[k - 1];
    }
  }

  // The latest capture allows the keys from..to of the plan, all of them key, in one go.
  ghost predicate RunAllowed(c: Capture, from: nat, to: nat, key: Key, plan: seq<Key>, allowed: (nat, Capture, bool) -> bool) {
    to <= |plan| && forall j :: from <= j < to ==> plan[j] == key && allowed(j, c, true) && allowed(j, c, false)
  }

  function PlanKeys(plan: seq<Multi.MultiKey>): seq<Key> {
    seq(|plan|, j requires 0 <= j < |plan| => plan[j].key)
  }

  // Every planned key comes right after a capture of exactly the predicted menu.
  ghost function Predicted(p: Pane, plan: seq<Multi.MultiKey>): (nat, Capture, bool) -> bool {
    (j: nat, c: Capture, justSeen: bool) => justSeen && c.Menu? && j <= |plan| && c.pane == Multi.End(p, plan[..j])
  }

  // The free-text row has the cursor.
  predicate EditingRow(job: Job, p: Pane, i: nat, row: int) {
    p.editing && !p.review && Focus(job.fold, p, job.ask) == i && p.cursor == row
  }

  // The row holds the typed text, or its first line when it wraps.
  predicate ShowsTyped(job: Job, p: Pane, row: nat, text: string) {
    && row < |p.options|
    && var got, want := job.fold(p.options[row]), job.fold(text);
       got == want || (|got| >= 40 && got <= want)
  }

  // How a free-text answer is opened: a fresh row by its digit, a used one by moving to it and
  // erasing what it holds.
  function Opening(job: Job, p: Pane, row: nat): seq<Key>
    requires row < |p.options| && row < 9
  {
    if job.lower(p.options[row]) == PLACEHOLDER then [Text(Digit(row + 1))]
    else
      seq(if p.cursor < row then row - p.cursor else 0, _ => DOWN)
      + seq(|p.options[row]|, _ => BSPACE)
  }

  function TypingKeys(job: Job, p: Pane, row: nat, text: string): seq<Key>
    requires row < |p.options| && row < 9
  {
    Opening(job, p, row) + [Text(text), Enter]
  }

  // The row is opened from the page the step began on, erased and typed into only while it has
  // the cursor, and confirmed only once it shows the text.
  ghost function TypingGuard(job: Job, p: Pane, i: nat, row: nat, text: string): (nat, Capture, bool) -> bool
    requires row < |p.options| && row < 9
  {
    (j: nat, c: Capture, justSeen: bool) =>
      var plan := TypingKeys(job, p, row, text);
      && c.Menu? && j < |plan|
      && if j == |plan| - 1 then justSeen && EditingRow(job, c.pane, i, row) && ShowsTyped(job, c.pane, row, text)
         else if j == |plan| - 2 then justSeen && EditingRow(job, c.pane, i, row)
         else if plan[j] == BSPACE then EditingRow(job, c.pane, i, row)
         else c.pane == p
  }

  // One answer step: it opens on a capture of question i's own page and presses that answer's keys.
  ghost predicate Answers(job: Job, ev: seq<Event>, i: nat, complete: bool)
  {
    && i < |job.ask|
    && ev != [] && ev[0].Looked? && ev[0].capture.Menu?
    && var p, q, pick := ev[0].capture.pane, job.ask[i], job.picks[i];
    && Ready(job, p, i)
    && if q.multiSelect then
         if Multi.Plannable(job.fold, job.ask, i, p, pick) then
           var plan := Multi.Plan(p, i, |q.labels|, pick);
           Obeys(ev, PlanKeys(plan), Predicted(p, plan)) && (complete ==> |Keys(ev)| == |plan|)
         else Keys(ev) == [] && !complete
       else if pick.option > 0 then
         Keys(ev) == [Text(Digit(pick.option))] && |ev| == 2
       else
         var plan := TypingKeys(job, p, |q.labels|, pick.text);
         && Obeys(ev, plan, TypingGuard(job, p, i, |q.labels|, pick.text))
         && (complete ==> Keys(ev) == plan)
  }

  // ------------------------------------------------------------------ why a walk stops

  // A key did not arrive, the pane could not be read, or the request was cut off.
  ghost predicate Cut(trace: seq<Event>, cutOff: nat -> bool) {
    trace != [] &&
    var e := trace[|trace| - 1];
    (e.Pressed? && !e.landed) || e == Looked(Failed) || cutOff(|trace|)
  }

  // The capture is no menu of these questions that meets cond.
  ghost predicate Missing(job: Job, c: Capture, cond: Pane -> bool) {
    !(c.Menu? && HeadersMatch(job.fold, c.pane, job.ask) && cond(c.pane))
  }

  // The latest event is a capture that does not allow the next key of the plan.
  ghost predicate Stopped(job: Job, ev: seq<Event>, plan: seq<Key>, allowed: (nat, Capture, bool) -> bool) {
    && ev != [] && ev[|ev| - 1].Looked? && |Keys(ev)| < |plan|
    && !(LastLook(ev).Menu? && HeadersMatch(job.fold, LastLook(ev).pane, job.ask) && allowed(|Keys(ev)|, LastLook(ev), true))
  }

  // A used free-text row that cannot be reached or holds too much to erase.
  predicate Unreachable(job: Job, p: Pane, row: nat)
    requires row < |p.options|
  {
    job.lower(p.options[row]) != PLACEHOLDER && (p.cursor < 0 || p.cursor > row || |p.options[row]| > 200)
  }

  // Why an answer step ended early, a cut aside: the menu cannot be used for the answer, the text says
  // nothing, or the latest capture does not allow the next key.
  ghost predicate Halted(job: Job, ev: seq<Event>, i: nat, err: AskError)
    requires i < |job.ask| && ev != [] && ev[0].Looked? && ev[0].capture.Menu? && Ready(job, ev[0].capture.pane, i)
  {
    var p, q, pick := ev[0].capture.pane, job.ask[i], job.picks[i];
    match err
    case Lost => true
    case Unanswerable => !q.multiSelect && pick.option == 0 && job.fold(pick.text) == ""
    case Changed =>
      if q.multiSelect then
        if Multi.Plannable(job.fold, job.ask, i, p, pick) then
          var plan := Multi.Plan(p, i, |q.labels|, pick);
          Stopped(job, ev, PlanKeys(plan), Predicted(p, plan))
        else true
      else
        pick.option == 0 &&
        (Unreachable(job, p, |q.labels|)
         || Stopped(job, ev, TypingKeys(job, p, |q.labels|, pick.text), TypingGuard(job, p, i, |q.labels|, pick.text)))
  }

  // ------------------------------------------------------------------ a whole walk

  // question's answer step is the events from..to of the trace.
  datatype Step = Step(question: nat, from: nat, to: nat, complete: bool)

  // Where the parts of a walk lie in its trace: the way back to the first tab, over back tabs, ends
  // at nav; walking says that it got that far; the first question answered is start; submit is the submitting key (-1 for none).
  datatype Log = Log(walking: bool, nav: nat, back: nat, start: nat, steps: seq<Step>, submit: int)

  // The k-th capture is a menu, and the same as the capture right before it.
  ghost predicate Confirmed(trace: seq<Event>, k: int) {
    0 < k < |trace| && trace[k].Looked? && trace[k].capture.Menu? && trace[k - 1] == trace[k]
  }

  ghost predicate EndsOn(trace: seq<Event>, page: Pane) {
    trace != [] && var e := trace[|trace| - 1]; e.Looked? && e.capture.Menu? && e.capture.pane == page
  }

  // The same capture again: it confirms the one before it.
  lemma LookedAgain(trace: seq<Event>, page: Pane, look: Event)
    requires EndsOn(trace, page) && look.Looked?
    ensures look == trace[|trace| - 1] <==> look.capture.Menu? && look.capture.pane == page
    ensures look == trace[|trace| - 1] ==> Confirmed(trace + [look], |trace|)
  {
  }

  ghost predicate ConfirmedKeys(ev: seq<Event>) {
    forall k :: 0 <= k < |ev| && ev[k].Pressed? ==> Confirmed(ev, k - 1)
  }

  // Going back presses only Left, at most back times: the j-th on the page back - j tabs after the
  // first, looked at twice.
  ghost predicate Navigates(job: Job, ev: seq<Event>, back: nat) {
    Obeys(ev, Lefts(back), SeenBack(job, back)) && ConfirmedKeys(ev)
  }

  function Lefts(back: nat): seq<Key> {
    seq(back, _ => LEFT)
  }

  ghost function SeenBack(job: Job, back: nat): (nat, Capture, bool) -> bool {
    (j: nat, c: Capture, justSeen: bool) =>
      justSeen && c.Menu? && !c.pane.editing && Focus(job.fold, c.pane, job.ask) == back - j
  }

  lemma ConfirmedGrows(ev: seq<Event>, more: seq<Event>)
    requires ConfirmedKeys(ev) && OnlyLooks(more)
    ensures ConfirmedKeys(ev + more)
  {
    var all := ev + more;
    forall k | 0 <= k < |all| && all[k].Pressed? ensures Confirmed(all, k - 1) {
      assert k < |ev|;
      assert ev[k] == all[k];
      assert Confirmed(ev, k - 1);
    }
  }

  lemma ConfirmedPress(ev: seq<Event>, e: Event)
    requires ConfirmedKeys(ev) && Confirmed(ev, |ev| - 1)
    ensures ConfirmedKeys(ev + [e])
  {
    var all := ev + [e];
    forall k | 0 <= k < |all| && all[k].Pressed? ensures Confirmed(all, k - 1) {
      if k < |ev| {
        assert ev[k] == all[k];
        assert Confirmed(ev, k - 1);
      } else {
        assert all[k - 1] == ev[k - 1] && all[k - 2] == ev[k - 2];
      }
    }
  }

  lemma ConfirmedStays(trace: seq<Event>, more: seq<Event>, k: int)
    requires Confirmed(trace, k)
    ensures Confirmed(trace + more, k)
  {
  }

  ghost predicate ReviewAgrees(job: Job, p: Pane)
  {
    && p.review && |p.answers| == |job.ask|
    && forall i :: 0 <= i < |job.ask| ==> AnswerAgrees(job, p.answers[i], i)
  }

  function PickKey(job: Job, i: nat): string
    requires i < |job.ask|
  {
    if job.picks[i].option > 0 then job.fold(job.ask[i].labels[job.picks[i].option - 1])
    else job.fold(job.picks[i].text)
  }

  ghost predicate AnswerAgrees(job: Job, answer: string, i: nat)
    requires i < |job.ask|
  {
    if job.ask[i].multiSelect then
      Review.Reads(NormText.Norm(answer), Review.Chosen(job.ask[i], job.picks[i]))
    else job.fold(answer) == PickKey(job, i)
  }

  ghost predicate StepOk(job: Job, trace: seq<Event>, step: Step)
  {
    step.from <= step.to <= |trace| && Answers(job, trace[step.from..step.to], step.question, step.complete)
  }

  ghost predicate InStep(steps: seq<Step>, k: nat) {
    exists j :: 0 <= j < |steps| && steps[j].from <= k < steps[j].to
  }

  // The steps answer questions start, start+1, … one after the other, each but the last complete.
  ghost predicate StepsOk(job: Job, trace: seq<Event>, log: Log)
  {
    && (forall j :: 0 <= j < |log.steps| ==>
          && log.steps[j].question == log.start + j
          && StepOk(job, trace, log.steps[j])
          && Confirmed(trace, log.steps[j].from)
          && log.nav <= log.steps[j].from)
    && (forall j :: 0 <= j < |log.steps| - 1 ==> log.steps[j].complete && log.steps[j].to <= log.steps[j + 1].from)
  }

  // The submitting "1" comes last, all questions answered, right after a capture of the review
  // screen that agrees with every pick.
  ghost predicate SubmitOk(job: Job, trace: seq<Event>, log: Log)
  {
    && log.nav < log.submit < |trace|
    && trace[log.submit].Pressed? && trace[log.submit].key == Text("1")
    && Confirmed(trace, log.submit - 1)
    && ReviewAgrees(job, trace[log.submit - 1].capture.pane)
    && log.start + |log.steps| == |job.ask|
    && (forall j :: 0 <= j < |log.steps| ==> log.steps[j].complete && log.steps[j].to < log.submit)
  }

  ghost predicate SafeWalk(job: Job, trace: seq<Event>, log: Log)
  {
    && log.nav <= |trace| && Navigates(job, trace[..log.nav], log.back)
    && StepsOk(job, trace, log)
    && (forall k :: log.nav <= k < |trace| && trace[k].Pressed? ==> k == log.submit || InStep(log.steps, k))
    && (log.submit == -1 || SubmitOk(job, trace, log))
  }

  lemma SafeGrows(job: Job, trace: seq<Event>, looks: seq<Event>, log: Log)
    requires SafeWalk(job, trace, log) && OnlyLooks(looks)
    ensures SafeWalk(job, trace + looks, log)
  {
    var all := trace + looks;
    assert all[..log.nav] == trace[..log.nav];
    StepsGrow(job, trace, looks, log);
  }

  lemma StepsGrow(job: Job, trace: seq<Event>, more: seq<Event>, log: Log)
    requires StepsOk(job, trace, log)
    ensures StepsOk(job, trace + more, log)
  {
    forall j | 0 <= j < |log.steps|
      ensures StepOk(job, trace + more, log.steps[j]) && Confirmed(trace + more, log.steps[j].from)
    {
      var step := log.steps[j];
      assert StepOk(job, trace, step);
      ConfirmedStays(trace, more, step.from);
      assert (trace + more)[step.from..step.to] == trace[step.from..step.to];
    }
  }

  lemma SafeStep(job: Job, trace: seq<Event>, ev: seq<Event>, log: Log, complete: bool)
    requires SafeWalk(job, trace, log) && log.submit == -1
    requires forall j :: 0 <= j < |log.steps| ==> log.steps[j].complete
    requires Answers(job, ev, log.start + |log.steps|, complete) && trace != [] && trace[|trace| - 1] == ev[0]
    ensures SafeWalk(job, trace + ev, log.(steps := log.steps + [Step(log.start + |log.steps|, |trace|, |trace + ev|, complete)]))
  {
    var all := trace + ev;
    var step := Step(log.start + |log.steps|, |trace|, |all|, complete);
    var next := log.(steps := log.steps + [step]);
    assert all[..log.nav] == trace[..log.nav];
    StepJoins(job, trace, ev, log, complete);
    hide Answers, StepsOk;
    forall k | next.nav <= k < |all| && all[k].Pressed? ensures InStep(next.steps, k) {
      PressInStep(log.steps, step, |trace|, k);
    }
  }

  lemma PressInStep(steps: seq<Step>, step: Step, from: nat, k: nat)
    requires step.from == from && (k >= from ==> k < step.to)
    requires k < from ==> InStep(steps, k)
    ensures InStep(steps + [step], k)
  {
    var all := steps + [step];
    if k < from {
      var j :| 0 <= j < |steps| && steps[j].from <= k < steps[j].to;
      assert all[j] == steps[j];
    } else {
      assert all[|steps|] == step;
    }
  }

  lemma AnswersOpen(job: Job, ev: seq<Event>, i: nat, complete: bool)
    requires Answers(job, ev, i, complete)
    ensures ev != [] && ev[0].Looked? && ev[0].capture.Menu?
  {
  }

  lemma NewStep(job: Job, trace: seq<Event>, ev: seq<Event>, i: nat, complete: bool)
    requires Answers(job, ev, i, complete) && trace != [] && trace[|trace| - 1] == ev[0]
    ensures StepOk(job, trace + ev, Step(i, |trace|, |trace + ev|, complete)) && Confirmed(trace + ev, |trace|)
  {
    AnswersOpen(job, ev, i, complete);
    hide Answers;
    assert (trace + ev)[|trace|..|trace + ev|] == ev;
  }

  lemma StepInRange(job: Job, trace: seq<Event>, step: Step)
    requires StepOk(job, trace, step)
    ensures step.to <= |trace|
  {
  }

  lemma StepJoins(job: Job, trace: seq<Event>, ev: seq<Event>, log: Log, complete: bool)
    requires StepsOk(job, trace, log) && log.nav <= |trace|
    requires forall j :: 0 <= j < |log.steps| ==> log.steps[j].complete
    requires Answers(job, ev, log.start + |log.steps|, complete) && trace != [] && trace[|trace| - 1] == ev[0]
    ensures StepsOk(job, trace + ev, log.(steps := log.steps + [Step(log.start + |log.steps|, |trace|, |trace + ev|, complete)]))
  {
    hide Answers, StepOk, Confirmed;
    var all := trace + ev;
    var step := Step(log.start + |log.steps|, |trace|, |all|, complete);
    var steps := log.steps + [step];
    StepsGrow(job, trace, ev, log);
    NewStep(job, trace, ev, log.start + |log.steps|, complete);
    forall j | 0 <= j < |steps|
      ensures steps[j].question == log.start + j && StepOk(job, all, steps[j]) && log.nav <= steps[j].from
      ensures Confirmed(all, steps[j].from)
    {
      assert steps[j] == if j < |log.steps| then log.steps[j] else step;
    }
    forall j | 0 <= j < |steps| - 1
      ensures steps[j].complete && steps[j].to <= steps[j + 1].from
    {
      assert steps[j] == log.steps[j];
      StepInRange(job, trace, log.steps[j]);
    }
  }

  lemma SafeSubmit(job: Job, trace: seq<Event>, p: ParsedPane, landed: bool, log: Log)
    requires SafeWalk(job, trace, log) && log.submit == -1
    requires forall j :: 0 <= j < |log.steps| ==> log.steps[j].complete
    requires log.start + |log.steps| == |job.ask| && ReviewAgrees(job, p)
    requires trace != [] && trace[|trace| - 1] == Looked(Menu(p))
    ensures SafeWalk(job, trace + [Looked(Menu(p)), Pressed(Text("1"), landed)], log.(submit := |trace| + 1))
  {
    var end := [Looked(Menu(p)), Pressed(Text("1"), landed)];
    var all := trace + end;
    var next := log.(submit := |trace| + 1);
    assert all[..log.nav] == trace[..log.nav];
    StepsGrow(job, trace, end, log);
    assert StepsOk(job, all, next);
    forall j | 0 <= j < |log.steps| ensures log.steps[j].to < next.submit {
      assert StepOk(job, trace, log.steps[j]);
    }
    assert all[next.submit] == end[1] && all[next.submit - 1] == end[0];
    assert SubmitOk(job, all, next);
    forall k | next.nav <= k < |all| && all[k].Pressed? ensures k == next.submit || InStep(next.steps, k) {
      if k < |trace| {
        assert InStep(log.steps, k);
      } else {
        assert k == |trace| || k == |trace| + 1;
      }
    }
  }

  // A step's events begin with the capture it was decided on.
  lemma Opened(page: ParsedPane, plan: seq<Key>, allowed: (nat, Capture, bool) -> bool) returns (ev: seq<Event>)
    ensures ev == [Looked(Menu(page))] && Obeys(ev, plan, allowed) && Keys(ev) == [] && LastLook(ev) == Menu(page)
  {
    ObeysLook([], Menu(page), plan, allowed);
    ev := [Looked(Menu(page))];
    assert [] + ev == ev;
  }

  lemma NotYetBack(job: Job, page: ParsedPane, f: nat) returns (ev: seq<Event>)
    ensures ev == [Looked(Menu(page))] && Navigates(job, ev, f) && Keys(ev) == []
  {
    ev := Opened(page, Lefts(f), SeenBack(job, f));
  }

  lemma Pressing(page: ParsedPane, key: Key, landed: bool) returns (ev: seq<Event>)
    ensures ev == [Looked(Menu(page))] + [Pressed(key, landed)] && Keys(ev) == [key]
  {
    ev := [Looked(Menu(page))] + [Pressed(key, landed)];
    KeysSnoc([Looked(Menu(page))], Pressed(key, landed));
    KeysSnoc([], Looked(Menu(page)));
    assert [] + [Looked(Menu(page))] == [Looked(Menu(page))];
  }

  ghost predicate AllComplete(log: Log) {
    forall j :: 0 <= j < |log.steps| ==> log.steps[j].complete
  }

  // The answer steps that were carried through.
  ghost function Completed(log: Log): nat {
    if log.steps == [] then 0
    else |log.steps| - if log.steps[|log.steps| - 1].complete then 0 else 1
  }

  // The stated exception: a lone question drawn without a review screen is submitted by its own
  // answer.
  ghost predicate SubmittedAlone(job: Job, trace: seq<Event>, log: Log) {
    && |job.ask| == |log.steps| == 1 && log.start == 0 && log.steps[0].complete
    && StepOk(job, trace, log.steps[0])
    && trace[log.steps[0].from].capture.pane.single
  }

  lemma AloneGrows(job: Job, trace: seq<Event>, longer: seq<Event>, log: Log)
    requires SubmittedAlone(job, trace, log) && trace <= longer
    ensures SubmittedAlone(job, longer, log)
  {
    var step := log.steps[0];
    assert longer[step.from..step.to] == trace[step.from..step.to];
  }

  // An answer step added to a safe walk; a lone page must have been the only question's.
  lemma AddStep(job: Job, before: seq<Event>, ev: seq<Event>, log0: Log, complete: bool) returns (log: Log)
    requires SafeWalk(job, before, log0) && log0.submit == -1 && AllComplete(log0)
    requires Answers(job, ev, log0.start + |log0.steps|, complete) && before != [] && before[|before| - 1] == ev[0]
    ensures SafeWalk(job, before + ev, log)
    ensures log == log0.(steps := log0.steps + [Step(log0.start + |log0.steps|, |before|, |before + ev|, complete)])
    ensures complete ==> AllComplete(log)
    ensures Completed(log) == |log0.steps| + if complete then 1 else 0
    ensures complete && ev[0].capture.pane.single ==> SubmittedAlone(job, before + ev, log)
  {
    SafeStep(job, before, ev, log0, complete);
    var step := Step(log0.start + |log0.steps|, |before|, |before + ev|, complete);
    log := log0.(steps := log0.steps + [step]);
    assert (before + ev)[step.from..step.to] == ev;
    assert (before + ev)[step.from] == ev[0];
  }

  // Tabs 0..f-1 all show as answered.
  predicate AnsweredBefore(ap: Pane, f: nat) {
    forall k :: 0 <= k < f && k < |ap.tabs| ==> ap.tabs[k].answered
  }

  // What the first capture must be for any key to be pressed: the menu the phone showed, not being
  // typed into, on a known page; a lone question only when it is the one asked.
  predicate Opens(job: Job, card: Option<Pane>, c: Capture) {
    && c.Menu? && HeadersMatch(job.fold, c.pane, job.ask)
    && (card.Some? ==> c.pane == card.value)
    && !c.pane.editing && Focus(job.fold, c.pane, job.ask) >= 0
    && (c.pane.single ==> |job.ask| == 1 && Focus(job.fold, c.pane, job.ask) == 0)
  }

  // The tabs before the f-th, and only those, are answered already: an earlier walk was cut off.
  predicate CutShort(job: Job, ap: Pane, f: nat) {
    && f > 0 && !ap.single
    && (forall k :: 0 <= k < f && k < |ap.tabs| ==> ap.tabs[k].answered)
    && (f == |job.ask| || (f < |ap.tabs| && !ap.tabs[f].answered))
  }

  // The first capture decides: on any other nothing follows it; else the walk starts on the page showing,
  // if an earlier one was cut off there, and on the first tab otherwise.
  ghost predicate Begins(job: Job, card: Option<Pane>, trace: seq<Event>, log: Log) {
    && trace != [] && trace[0].Looked?
    && if Opens(job, card, trace[0].capture) then
         var f := Focus(job.fold, trace[0].capture.pane, job.ask);
         && log.start == (if CutShort(job, trace[0].capture.pane, f) then f else 0)
         && log.back == f - log.start && log.nav <= |trace|
         && (log.walking ==> |Keys(trace[..log.nav])| == log.back)
       else |trace| == 1
  }

  // A walk that stopped before the questions, and one that reached them.
  lemma Unstarted(job: Job, trace: seq<Event>, start: nat, back: nat, walking: bool) returns (log: Log)
    requires |trace| == 1 && trace[0].Looked?
    ensures log == Log(walking, 1, back, start, [], -1) && SafeWalk(job, trace, log) && Keys(trace[..1]) == []
  {
    ObeysLook([], trace[0].capture, Lefts(back), SeenBack(job, back));
    assert [] + [Looked(trace[0].capture)] == trace[..1] == trace;
    log := Log(walking, 1, back, start, [], -1);
  }

  lemma Arrived(job: Job, trace: seq<Event>, back: nat, walking: bool, start: nat) returns (log: Log)
    requires |trace| > 0 && Navigates(job, trace, back)
    ensures log == Log(walking, |trace|, back, start, [], -1) && SafeWalk(job, trace, log) && trace[..log.nav] == trace
  {
    assert trace[..|trace|] == trace;
    log := Log(walking, |trace|, back, start, [], -1);
  }

  lemma BeginsStays(job: Job, card: Option<Pane>, trace: seq<Event>, longer: seq<Event>, log0: Log, log: Log)
    requires Begins(job, card, trace, log0) && trace <= longer && Opens(job, card, trace[0].capture)
    requires log == log0.(steps := log.steps, submit := log.submit)
    ensures Begins(job, card, longer, log)
  {
    assert longer[..log.nav] == trace[..log.nav];
  }

  lemma DownsAllowed(job: Job, page: ParsedPane, i: nat, row: nat, text: string)
    requires row < |page.options| && row < 9 && job.lower(page.options[row]) != PLACEHOLDER && page.cursor <= row
    ensures RunAllowed(Menu(page), 0, row - page.cursor, DOWN, TypingKeys(job, page, row, text), TypingGuard(job, page, i, row, text))
  {
  }

  lemma ErasesAllowed(job: Job, page: ParsedPane, i: nat, row: nat, text: string, c: Capture)
    requires row < |page.options| && row < 9 && job.lower(page.options[row]) != PLACEHOLDER && page.cursor <= row
    requires c.Menu? && EditingRow(job, c.pane, i, row)
    ensures RunAllowed(c, row - page.cursor, row - page.cursor + |page.options[row]|, BSPACE,
                       TypingKeys(job, page, row, text), TypingGuard(job, page, i, row, text))
  {
  }

  // On the way back: the page awaited does not show, or the one left changed between two looks.
  ghost predicate Astray(job: Job, ev: seq<Event>, back: nat) {
    && |ev| > 1 && ev[|ev| - 1].Looked?
    && (ev[|ev| - 2] != ev[|ev| - 1]
        || Missing(job, LastLook(ev), (p: Pane) => !p.editing && Focus(job.fold, p, job.ask) == back - |Keys(ev)|))
  }

  // Between the questions: the page of the next one, or the agreeing review, does not show, or it
  // changed between two looks.
  ghost predicate Unmet(job: Job, trace: seq<Event>, next: nat) {
    && |trace| > 1 && trace[|trace| - 1].Looked?
    && (trace[|trace| - 2] != trace[|trace| - 1]
        || Missing(job, trace[|trace| - 1].capture,
                   (p: Pane) => if next < |job.ask| then Ready(job, p, next) else !p.editing && ReviewAgrees(job, p)))
  }

  // The reason in the trace for a walk that ended in an error.
  ghost predicate Explained(job: Job, cutOff: nat -> bool, trace: seq<Event>, log: Log, err: AskError) {
    if err == Lost then Cut(trace, cutOff)
    else if |trace| == 1 then err == Changed
    else if !log.walking then err == Changed && Astray(job, trace, log.back)
    else if AllComplete(log) then err == Changed && Unmet(job, trace, log.start + |log.steps|)
    else
      var step := log.steps[|log.steps| - 1];
      && StepOk(job, trace, step) && step.to == |trace| && Halted(job, trace[step.from..], step.question, err)
  }

  lemma StepHalted(job: Job, cutOff: nat -> bool, before: seq<Event>, ev: seq<Event>, log0: Log, log: Log, err: AskError)
    requires Answers(job, ev, log0.start + |log0.steps|, false) && before != []
    requires log == log0.(steps := log0.steps + [Step(log0.start + |log0.steps|, |before|, |before + ev|, false)])
    requires Halted(job, ev, log0.start + |log0.steps|, err) && (err == Lost ==> Cut(before + ev, cutOff))
    ensures log.walking ==> Explained(job, cutOff, before + ev, log, err)
  {
    hide Answers, Halted, Cut;
    var trace := before + ev;
    var step := log.steps[|log0.steps|];
    assert trace[step.from..step.to] == ev == trace[step.from..];
    AnswersOpen(job, ev, step.question, false);
  }

  lemma AllCompleted(log: Log)
    requires AllComplete(log)
    ensures Completed(log) == |log.steps|
  {
  }

  // One capture between the questions: unless it is the page expected and the next question's, or the
  // agreeing review, stopping there is explained.
  lemma TurnUnmet(job: Job, cutOff: nat -> bool, before: seq<Event>, look: Event, expected: Pane, log: Log, next: nat)
    requires EndsOn(before, expected) && look.Looked? && AllComplete(log) && next == log.start + |log.steps|
    ensures before != [] && (look == before[|before| - 1] <==> look.capture.Menu? && look.capture.pane == expected)
    ensures log.walking && Cut(before + [look], cutOff) ==> Explained(job, cutOff, before + [look], log, Lost)
    ensures log.walking && !(look == before[|before| - 1] && HeadersMatch(job.fold, expected, job.ask)
                             && if next < |job.ask| then Ready(job, expected, next) else ReviewAgrees(job, expected))
            ==> Explained(job, cutOff, before + [look], log, Changed)
    ensures Ready(job, expected, next) ==> HeadersMatch(job.fold, expected, job.ask)
  {
    hide HeadersMatch, ReviewAgrees, OptionsMatch, Focus, Cut, AllComplete;
    LookedAgain(before, expected, look);
  }

  lemma LostExplained(job: Job, cutOff: nat -> bool, trace: seq<Event>, log: Log)
    ensures trace != [] && trace[|trace| - 1].Pressed? && !trace[|trace| - 1].landed ==> Explained(job, cutOff, trace, log, Lost)
  {
  }

  // A wait between the questions that did not end on the page awaited.
  lemma WaitExplained(job: Job, cutOff: nat -> bool, trace: seq<Event>, log: Log, next: nat, w: Wait)
    requires |trace| > 1 && trace[|trace| - 1].Looked? && AllComplete(log)
    requires next == log.start + |log.steps| <= |job.ask|
    requires w.Broken? ==> if w.error == Lost then Cut(trace, cutOff)
                           else w.error == Changed && Missing(job, trace[|trace| - 1].capture, p => true)
    ensures w.Broken? && log.walking ==> Explained(job, cutOff, trace, log, w.error)
    ensures log.walking && Missing(job, trace[|trace| - 1].capture, (p: Pane) => !p.editing && Focus(job.fold, p, job.ask) == next)
            ==> Explained(job, cutOff, trace, log, Changed)
  {
    hide HeadersMatch, OptionsMatch, Cut, AllComplete, AnswerAgrees;
  }

  // ------------------------------------------------------------------ the walk itself

  /** The pane and key access of one walk. Nothing is known about the terminal: what each capture
      shows, whether a key is delivered, how long a wait may poll and whether the request has been
      cut off are given by arbitrary functions of the point the walk has reached. */
  class Terminal {
    const job: Job
    const card: Option<Pane>       // the menu the phone showed, checked again before any key
    const screens: nat -> Capture
    const lands: nat -> bool
    const polls: nat -> nat
    const cutOff: nat -> bool
    var trace: seq<Event>

    constructor (job: Job, card: Option<Pane>, screens: nat -> Capture, lands: nat -> bool,
                 polls: nat -> nat, cutOff: nat -> bool)
      ensures this.job == job && this.card == card && this.screens == screens && this.lands == lands
      ensures this.polls == polls && this.cutOff == cutOff && trace == []
    {
      this.job, this.card, this.screens, this.lands, this.polls, this.cutOff := job, card, screens, lands, polls, cutOff;
      trace := [];
    }

    method Look() returns (c: Capture)
      modifies this`trace
      ensures c == screens(|old(trace)|) && trace == old(trace) + [Looked(c)]
    {
      c := screens(|trace|);
      trace := trace + [Looked(c)];
    }

    method Press(key: Key) returns (landed: bool)
      modifies this`trace
      ensures landed == lands(|old(trace)|) && trace == old(trace) + [Pressed(key, landed)]
    {
      landed := lands(|trace|);
      trace := trace + [Pressed(key, landed)];
    }

    method Read() returns (r: ReadResult)
      modifies this`trace
      ensures |trace| == |old(trace)| + 1 && old(trace) <= trace && trace[|old(trace)|].Looked?
      ensures r.Got? ==> trace == old(trace) + [Looked(Menu(r.pane))] && HeadersMatch(job.fold, r.pane, job.ask)
      ensures r.Unread? ==>
                var c := trace[|old(trace)|].capture;
                r.error == (if c.Failed? then Lost else Changed) && !(c.Menu? && HeadersMatch(job.fold, c.pane, job.ask))
    {
      var c := Look();
      match c
      case Failed => r := Unread(Lost);
      case Blank => r := Unread(Changed);
      case Menu(p) => r := if HeadersMatch(job.fold, p, job.ask) then Got(p) else Unread(Changed);
    }

    // A capture on which a wait goes on.
    ghost predicate Inconclusive(goneOk: bool, cond: Pane -> bool, e: Event)
      requires e.Looked?
    {
      match e.capture
      case Failed => false
      case Blank => !goneOk
      case Menu(p) => HeadersMatch(job.fold, p, job.ask) && !cond(p)
    }

    // Polls until cond holds of the menu (or it is gone, when goneOk): at least one capture.
    method Until(goneOk: bool, cond: Pane -> bool) returns (w: Wait, ghost looks: seq<Event>)
      modifies this`trace
      ensures trace == old(trace) + looks && OnlyLooks(looks) && looks != []
      ensures w.Seen? ==> looks[|looks| - 1] == Looked(Menu(w.pane)) && HeadersMatch(job.fold, w.pane, job.ask) && cond(w.pane)
      ensures w.Gone? ==> goneOk && looks[|looks| - 1] == Looked(Blank)
      ensures forall k :: 0 <= k < |looks| - 1 ==> Inconclusive(goneOk, cond, looks[k])
      ensures w.TimedOut? ==> |looks| == (if polls(|old(trace)|) == 0 then 1 else polls(|old(trace)|))
                              && Inconclusive(goneOk, cond, looks[|looks| - 1])
      ensures w.Broken? ==>
                var c := looks[|looks| - 1].capture;
                || (w.error == Lost && (c.Failed? || cutOff(|trace|)))
                || (w.error == Changed && c.Menu? && !HeadersMatch(job.fold, c.pane, job.ask))
    {
      var limit := polls(|trace|);
      looks := [];
      var i := 0;
      while i == 0 || i < limit
        invariant trace == old(trace) + looks && OnlyLooks(looks) && |looks| == i <= (if limit == 0 then 1 else limit)
        invariant forall k :: 0 <= k < |looks| ==> Inconclusive(goneOk, cond, looks[k])
        decreases limit as int - i
      {
        if i > 0 && cutOff(|trace|) {
          return Broken(Lost), looks;
        }
        var c := Look();
        looks := looks + [Looked(c)];
        match c {
          case Failed =>
            return Broken(Lost), looks;
          case Blank =>
            if goneOk {
              return Gone, looks;
            }
          case Menu(p) =>
            if !HeadersMatch(job.fold, p, job.ask) {
              return Broken(Changed), looks;
            }
            if cond(p) {
              return Seen(p), looks;
            }
        }
        i := i + 1;
      }
      return TimedOut, looks;
    }

    // Presses the next key of a plan, as the latest capture allows.
    method Send(key: Key, ghost before: seq<Event>, ghost ev: seq<Event>,
                ghost plan: seq<Key>, ghost allowed: (nat, Capture, bool) -> bool)
      returns (err: Option<AskError>, ghost next: seq<Event>)
      requires trace == before + ev && Obeys(ev, plan, allowed)
      requires |Keys(ev)| < |plan| && plan[|Keys(ev)|] == key
      requires allowed(|Keys(ev)|, LastLook(ev), ev != [] && ev[|ev| - 1].Looked?)
      modifies this`trace
      ensures trace == before + next && ev <= next && Obeys(next, plan, allowed)
      ensures |Keys(next)| == |Keys(ev)| + 1 && LastLook(next) == LastLook(ev)
      ensures |next| == |ev| + 1 && next[|ev|].Pressed?
      ensures err.Some? ==> err == Some(Lost) && Cut(trace, cutOff)
    {
      var landed := Press(key);
      ObeysPress(ev, key, landed, plan, allowed);
      next := ev + [Pressed(key, landed)];
      err := if landed then None else Some(Lost);
    }

    method SendAll(key: Key, n: nat, ghost before: seq<Event>, ghost ev: seq<Event>,
                   ghost plan: seq<Key>, ghost allowed: (nat, Capture, bool) -> bool)
      returns (err: Option<AskError>, ghost next: seq<Event>)
      requires trace == before + ev && Obeys(ev, plan, allowed)
      requires RunAllowed(LastLook(ev), |Keys(ev)|, |Keys(ev)| + n, key, plan, allowed)
      modifies this`trace
      ensures trace == before + next && ev <= next && Obeys(next, plan, allowed)
      ensures err.None? ==> |Keys(next)| == |Keys(ev)| + n && LastLook(next) == LastLook(ev)
      ensures err.Some? ==> err == Some(Lost) && Cut(trace, cutOff)
    {
      next := ev;
      for k := 0 to n
        invariant trace == before + next && ev <= next && Obeys(next, plan, allowed)
        invariant |Keys(next)| == |Keys(ev)| + k && LastLook(next) == LastLook(ev)
      {
        assert plan[|Keys(ev)| + k] == key;
        err, next := Send(key, before, next, plan, allowed);
        if err.Some? {
          return;
        }
      }
      err := None;
    }

    // Waits for a page; orChanged of the source turns a wait that ran out into a changed menu.
    method Await(cond: Pane -> bool, ghost before: seq<Event>, ghost ev: seq<Event>,
                 ghost plan: seq<Key>, ghost allowed: (nat, Capture, bool) -> bool)
      returns (err: Option<AskError>, seen: ParsedPane, ghost next: seq<Event>)
      requires trace == before + ev && Obeys(ev, plan, allowed)
      modifies this`trace
      ensures trace == before + next && ev <= next && Obeys(next, plan, allowed) && Keys(next) == Keys(ev)
      ensures err.None? ==> next != [] && next[|next| - 1].Looked? && LastLook(next) == Menu(seen) && cond(seen)
      ensures OnlyLooks(next[|ev|..]) && |next| > |ev|
      ensures err.Some? ==> if err == Some(Lost) then Cut(trace, cutOff)
                            else err == Some(Changed) && next[|next| - 1].Looked? && Missing(job, LastLook(next), cond)
    {
      var w, looks := Until(false, cond);
      ObeysLooks(ev, looks, plan, allowed);
      next := ev + looks;
      seen := if w.Seen? then w.pane else Multi.BLANK;
      err := match w case Seen(_) => None case Broken(e) => Some(e) case _ => Some(Changed);
    }

    // Reads the menu again and stops unless it is exactly the expected one.
    method Recheck(expected: Pane, ghost before: seq<Event>, ghost ev: seq<Event>,
                   ghost plan: seq<Key>, ghost allowed: (nat, Capture, bool) -> bool)
      returns (err: Option<AskError>, ghost next: seq<Event>)
      requires trace == before + ev && Obeys(ev, plan, allowed)
      modifies this`trace
      ensures trace == before + next && ev <= next && Obeys(next, plan, allowed) && Keys(next) == Keys(ev)
      ensures err.None? ==> next != [] && next[|next| - 1].Looked? && LastLook(next).Menu? && LastLook(next).pane == expected
      ensures |next| == |ev| + 1 && next[|ev|].Looked?
      ensures err.Some? ==> if err == Some(Lost) then Cut(trace, cutOff)
                            else err == Some(Changed) && Missing(job, LastLook(next), p => p == expected)
    {
      var live := Read();
      ghost var sight := trace[|before + ev|];
      ObeysLook(ev, sight.capture, plan, allowed);
      next := ev + [sight];
      err := if live.Unread? then Some(live.error) else if live.pane != expected then Some(Changed) else None;
    }

    // Sends a plan's keys, each only while the screen is exactly the predicted one.
    method SendPlan(page: ParsedPane, plan: seq<Multi.MultiKey>, ghost before: seq<Event>)
      returns (err: Option<AskError>, ghost ev: seq<Event>)
      requires trace == before + [Looked(Menu(page))]
      modifies this`trace
      ensures trace == before + ev && [Looked(Menu(page))] <= ev
      ensures Obeys(ev, PlanKeys(plan), Predicted(page, plan))
      ensures err.None? ==> |Keys(ev)| == |plan|
      ensures err.Some? ==> if err == Some(Lost) then Cut(trace, cutOff)
                            else err == Some(Changed) && Stopped(job, ev, PlanKeys(plan), Predicted(page, plan))
    {
      hide HeadersMatch, Cut;
      ghost var keys, allowed := PlanKeys(plan), Predicted(page, plan);
      ev := Opened(page, keys, allowed);
      var ap: Pane, seen := page, page;
      for j := 0 to |plan|
        invariant trace == before + ev && [Looked(Menu(page))] <= ev
        invariant Obeys(ev, keys, allowed) && |Keys(ev)| == j
        invariant j < |plan| ==> ap == Multi.End(page, plan[..j])
      {
        err, ev := Recheck(ap, before, ev, keys, allowed);
        if err.Some? {
          return;
        }
        err, ev := Send(plan[j].key, before, ev, keys, allowed);
        if err.Some? {
          return;
        }
        if j == |plan| - 1 {
          break; // the caller checks the page reached
        }
        ap := plan[j].after;
        var expected := ap;
        err, seen, ev := Await(p => p == expected, before, ev, keys, allowed);
        if err.Some? {
          return;
        }
      }
      err := None;
    }

    method MultiSelect(i: nat, page: ParsedPane, ghost before: seq<Event>)
      returns (err: Option<AskError>, ghost ev: seq<Event>)
      requires Ready(job, page, i) && job.ask[i].multiSelect
      requires trace == before + [Looked(Menu(page))]
      modifies this`trace
      ensures trace == before + ev && [Looked(Menu(page))] <= ev && Answers(job, ev, i, err.None?)
      ensures err.Some? ==> Halted(job, ev, i, err.value) && (err == Some(Lost) ==> Cut(trace, cutOff))
    {
      ev := [Looked(Menu(page))];
      var r := Multi.MultiSelectKeys(job.fold, job.ask, i, page, job.picks[i]);
      if r.Refused? {
        return Some(Changed), ev;
      }
      err, ev := SendPlan(page, r.keys, before);
    }

    // Opens the free-text row: a fresh one by its digit; a used one is reached, and emptied only
    // once it has the cursor.
    method OpenRow(i: nat, page: ParsedPane, row: nat, text: string, ghost before: seq<Event>)
      returns (err: Option<AskError>, ghost ev: seq<Event>)
      requires row < |page.options| && row < 9
      requires trace == before + [Looked(Menu(page))]
      modifies this`trace
      ensures trace == before + ev && [Looked(Menu(page))] <= ev
      ensures Obeys(ev, TypingKeys(job, page, row, text), TypingGuard(job, page, i, row, text))
      ensures err.None? ==> |Keys(ev)| == |Opening(job, page, row)|
      ensures err.Some? ==> if err == Some(Lost) then Cut(trace, cutOff)
                            else err == Some(Changed)
                                 && (Unreachable(job, page, row)
                                     || Stopped(job, ev, TypingKeys(job, page, row, text), TypingGuard(job, page, i, row, text)))
    {
      ghost var keys, allowed := TypingKeys(job, page, row, text), TypingGuard(job, page, i, row, text);
      ev := Opened(page, keys, allowed);
      var prior := page.options[row];
      if job.lower(prior) == PLACEHOLDER {
        err, ev := Send(Text(Digit(row + 1)), before, ev, keys, allowed);
        return;
      }
      if page.cursor < 0 || page.cursor > row || |prior| > MAX_ERASE {
        return Some(Changed), ev;
      }
      DownsAllowed(job, page, i, row, text);
      err, ev := SendAll(DOWN, row - page.cursor, before, ev, keys, allowed);
      if err.Some? {
        return;
      }
      var theJob := job;
      var seen;
      err, seen, ev := Await(p => EditingRow(theJob, p, i, row), before, ev, keys, allowed);
      if err.Some? {
        return;
      }
      ErasesAllowed(job, page, i, row, text, LastLook(ev));
      err, ev := SendAll(BSPACE, |prior|, before, ev, keys, allowed);
    }

    // A typed answer: Enter is sent only once the row shows the text.
    method TypeText(i: nat, page: ParsedPane, row: nat, text: string, ghost before: seq<Event>)
      returns (err: Option<AskError>, ghost ev: seq<Event>)
      requires row < |page.options| && row < 9
      requires trace == before + [Looked(Menu(page))]
      modifies this`trace
      ensures trace == before + ev && [Looked(Menu(page))] <= ev
      ensures Obeys(ev, TypingKeys(job, page, row, text), TypingGuard(job, page, i, row, text))
      ensures err.None? ==> Keys(ev) == TypingKeys(job, page, row, text)
      ensures err == Some(Lost) ==> Cut(trace, cutOff)
      ensures err == Some(Unanswerable) ==> job.fold(text) == ""
      ensures err == Some(Changed) ==>
                Unreachable(job, page, row)
                || Stopped(job, ev, TypingKeys(job, page, row, text), TypingGuard(job, page, i, row, text))
    {
      hide Opening, Focus, HeadersMatch, Cut, Unreachable, EditingRow, ShowsTyped;
      ghost var keys, allowed := TypingKeys(job, page, row, text), TypingGuard(job, page, i, row, text);
      if job.fold(text) == "" {
        ev := Opened(page, keys, allowed);
        return Some(Unanswerable), ev;
      }
      err, ev := OpenRow(i, page, row, text, before);
      if err.Some? {
        return;
      }
      var theJob := job;
      var seen;
      err, seen, ev := Await(p => EditingRow(theJob, p, i, row), before, ev, keys, allowed);
      if err.Some? {
        return;
      }
      err, ev := Send(Text(text), before, ev, keys, allowed);
      if err.Some? {
        return;
      }
      err, seen, ev := Await(p => EditingRow(theJob, p, i, row) && ShowsTyped(theJob, p, row, text), before, ev, keys, allowed);
      if err.Some? {
        return;
      }
      err, ev := Send(Enter, before, ev, keys, allowed);
      ObeysPrefix(ev, keys, allowed);
    }

    method FreeText(i: nat, page: ParsedPane, ghost before: seq<Event>)
      returns (err: Option<AskError>, ghost ev: seq<Event>)
      requires Ready(job, page, i) && !job.ask[i].multiSelect && job.picks[i].option == 0
      requires trace == before + [Looked(Menu(page))]
      modifies this`trace
      ensures trace == before + ev && [Looked(Menu(page))] <= ev && Answers(job, ev, i, err.None?)
      ensures err.Some? ==> Halted(job, ev, i, err.value) && (err == Some(Lost) ==> Cut(trace, cutOff))
    {
      err, ev := TypeText(i, page, |job.ask[i].labels|, job.picks[i].text, before);
    }

    method AnswerOne(i: nat, page: ParsedPane, ghost before: seq<Event>)
      returns (err: Option<AskError>, ghost ev: seq<Event>)
      requires Ready(job, page, i)
      requires trace == before + [Looked(Menu(page))]
      modifies this`trace
      ensures trace == before + ev && [Looked(Menu(page))] <= ev && Answers(job, ev, i, err.None?)
      ensures err.Some? ==> Halted(job, ev, i, err.value) && (err == Some(Lost) ==> Cut(trace, cutOff))
    {
      if job.ask[i].multiSelect {
        err, ev := MultiSelect(i, page, before);
      } else if job.picks[i].option > 0 {
        var key := Text(Digit(job.picks[i].option));
        var landed := Press(key);
        ev := Pressing(page, key, landed);
        err := if landed then None else Some(Lost);
      } else {
        err, ev := FreeText(i, page, before);
      }
    }

    // One verified step back, from the page target + 1 tabs after the first.
    method StepBack(page: ParsedPane, f: nat, target: nat, ghost before: seq<Event>, ghost ev: seq<Event>)
      returns (err: Option<AskError>, ap: ParsedPane, ghost next: seq<Event>)
      requires trace == before + ev && Navigates(job, ev, f) && EndsOn(ev, page)
      requires |Keys(ev)| == f - target - 1 && !page.editing && Focus(job.fold, page, job.ask) == target + 1
      modifies this`trace
      ensures trace == before + next && ev <= next && |next| > |ev| && Navigates(job, next, f)
      ensures err.None? ==> |Keys(next)| == f - target && next[|next| - 1] == Looked(Menu(ap))
      ensures err.None? ==> !ap.editing && Focus(job.fold, ap, job.ask) == target
      ensures err.Some? ==> if err == Some(Lost) then Cut(trace, cutOff) else err == Some(Changed) && Astray(job, next, f)
    {
      hide ConfirmedKeys, Focus, Keys;
      ghost var keys, allowed := Lefts(f), SeenBack(job, f);
      ap := page;
      err, next := Recheck(page, before, ev, keys, allowed);
      ghost var look := next[|ev|];
      assert next == ev + [look];
      LookedAgain(ev, page, look);
      ConfirmedGrows(ev, [look]);
      if err.Some? {
        return;
      }
      ghost var checked := next;
      err, next := Send(LEFT, before, checked, keys, allowed);
      assert next == checked + [next[|checked|]];
      ConfirmedPress(checked, next[|checked|]);
      if err.Some? {
        return;
      }
      ghost var pressed := next;
      var theJob := job;
      err, ap, next := Await((p: Pane) => !p.review && !p.editing && Focus(theJob.fold, p, theJob.ask) == target,
                             before, pressed, keys, allowed);
      assert next == pressed + next[|pressed|..];
      ConfirmedGrows(pressed, next[|pressed|..]);
    }

    // Back to the first tab, one step at a time.
    method ToFirst(page: ParsedPane, f: nat, ghost before: seq<Event>)
      returns (err: Option<AskError>, ap: ParsedPane, ghost ev: seq<Event>)
      requires trace == before + [Looked(Menu(page))] && !page.editing && Focus(job.fold, page, job.ask) == f
      modifies this`trace
      ensures trace == before + ev && [Looked(Menu(page))] <= ev && Navigates(job, ev, f)
      ensures f > 0 ==> |ev| > 1
      ensures err.None? ==> |Keys(ev)| == f && ev[|ev| - 1] == Looked(Menu(ap))
      ensures err.Some? ==> if err == Some(Lost) then Cut(trace, cutOff) else err == Some(Changed) && Astray(job, ev, f)
    {
      ap := page;
      hide Navigates, Focus, Keys;
      ev := NotYetBack(job, page, f);
      for target := f downto 0
        invariant trace == before + ev && [Looked(Menu(page))] <= ev && Navigates(job, ev, f)
        invariant |Keys(ev)| == f - target && ev[|ev| - 1] == Looked(Menu(ap)) && (target < f ==> |ev| > 1)
        invariant !ap.editing && Focus(job.fold, ap, job.ask) == target
      {
        err, ap, ev := StepBack(ap, f, target, before, ev);
        if err.Some? {
          return;
        }
      }
      err := None;
    }

    // The same accesses seen from the whole walk: looking never makes it unsafe.
    method WalkRead(ghost log: Log) returns (r: ReadResult, ghost look: Event)
      requires SafeWalk(job, trace, log)
      modifies this`trace
      ensures trace == old(trace) + [look] && SafeWalk(job, trace, log)
      ensures r.Got? ==> look == Looked(Menu(r.pane)) && HeadersMatch(job.fold, r.pane, job.ask)
      ensures look.Looked? && (r.Unread? ==> !(look.capture.Menu? && HeadersMatch(job.fold, look.capture.pane, job.ask)))
      ensures r.Unread? ==> if r.error == Lost then Cut(trace, cutOff) else r.error == Changed
    {
      ghost var before := trace;
      r := Read();
      look := trace[|before|];
      SafeGrows(job, before, [look], log);
      assert trace == before + [look];
    }

    method WalkWait(goneOk: bool, cond: Pane -> bool, ghost log: Log) returns (w: Wait)
      requires SafeWalk(job, trace, log)
      modifies this`trace
      ensures SafeWalk(job, trace, log) && old(trace) <= trace && |trace| > |old(trace)| && trace[|trace| - 1].Looked?
      ensures w.Seen? ==> trace[|trace| - 1] == Looked(Menu(w.pane)) && cond(w.pane)
      ensures w.Gone? ==> goneOk && trace[|trace| - 1] == Looked(Blank)
      ensures w.TimedOut? ==> Inconclusive(goneOk, cond, trace[|trace| - 1])
      ensures w.Broken? ==> if w.error == Lost then Cut(trace, cutOff)
                            else w.error == Changed && Missing(job, trace[|trace| - 1].capture, p => true)
    {
      ghost var before := trace;
      ghost var looks;
      w, looks := Until(goneOk, cond);
      SafeGrows(job, before, looks, log);
    }

    method CheckAnswer(answer: string, i: nat) returns (agrees: bool)
      requires i < |job.ask|
      ensures agrees == AnswerAgrees(job, answer, i)
    {
      agrees := job.fold(answer) == PickKey(job, i);
      if job.ask[i].multiSelect {
        agrees := Review.MultiReviewMatches(answer, job.ask[i], job.picks[i]);
      }
    }

    method CheckReview(ap: ParsedPane) returns (agrees: bool)
      ensures agrees == ReviewAgrees(job, ap)
    {
      hide AnswerAgrees;
      if !ap.review || |ap.answers| != |job.ask| {
        return false;
      }
      for i := 0 to |job.ask|
        invariant forall j :: 0 <= j < i ==> AnswerAgrees(job, ap.answers[j], j)
      {
        agrees := CheckAnswer(ap.answers[i], i);
        if !agrees {
          return;
        }
      }
      return true;
    }

    // Compares the review screen with the picks and submits only when every answer agrees.
    method Submit(expected: Pane, ghost log: Log) returns (cleared: bool, err: Option<AskError>, ghost end: Log)
      requires SafeWalk(job, trace, log) && log.submit == -1 && log.start + |log.steps| == |job.ask| && AllComplete(log)
      requires EndsOn(trace, expected)
      modifies this`trace
      ensures SafeWalk(job, trace, end) && old(trace) <= trace && |trace| > |old(trace)| && end == log.(submit := end.submit)
      ensures end.submit >= 0 <==> trace[|old(trace)|] == trace[|old(trace)| - 1]
                                   && HeadersMatch(job.fold, expected, job.ask) && ReviewAgrees(job, expected)
      ensures err.None? ==> end.submit >= 0
      ensures cleared <==> err.None? && trace[|trace| - 1] == Looked(Blank)
      ensures err.Some? && log.walking ==> Explained(job, cutOff, trace, end, err.value)
    {
      hide SafeWalk, Explained, ReviewAgrees, EndsOn, Cut, HeadersMatch;
      ghost var before := trace;
      ghost var look;
      var live;
      live, look := WalkRead(log);
      TurnUnmet(job, cutOff, before, look, expected, log, |job.ask|);
      end := log;
      if live.Unread? {
        return false, Some(live.error), end;
      }
      var ap := live.pane;
      if ap != expected {
        return false, Some(Changed), end;
      }
      var agrees := CheckReview(ap);
      if !agrees {
        return false, Some(Changed), end;
      }
      var landed := Press(Text("1"));
      SafeSubmit(job, before, ap, landed, log);
      end := log.(submit := |before| + 1);
      assert trace == before + [Looked(Menu(ap)), Pressed(Text("1"), landed)];
      if !landed {
        LostExplained(job, cutOff, trace, end);
        return false, Some(Lost), end;
      }
      var w := WalkWait(true, p => false, end);
      WaitExplained(job, cutOff, trace, end, |job.ask|, w);
      return w.Gone?, if w.Broken? then Some(w.error) else None, end;
    }

    method AnswerPage(i: nat, ap: ParsedPane, ghost before: seq<Event>, ghost log0: Log)
      returns (err: Option<AskError>, ghost log: Log)
      requires trace == before + [Looked(Menu(ap))] && Ready(job, ap, i)
      requires SafeWalk(job, before, log0) && log0.submit == -1 && AllComplete(log0) && i == log0.start + |log0.steps|
      requires before != [] && before[|before| - 1] == Looked(Menu(ap))
      modifies this`trace
      ensures SafeWalk(job, trace, log) && old(trace) <= trace && log == log0.(steps := log.steps) && |log.steps| == |log0.steps| + 1
      ensures err.None? ==> AllComplete(log)
      ensures Completed(log) == |log0.steps| + if err.None? then 1 else 0
      ensures err.None? && ap.single ==> SubmittedAlone(job, trace, log)
      ensures err.Some? && log.walking ==> Explained(job, cutOff, trace, log, err.value)
    {
      hide SafeWalk, Answers, Halted, Explained, SubmittedAlone, Ready, Cut, Completed, AllComplete;
      ghost var ev;
      err, ev := AnswerOne(i, ap, before);
      log := AddStep(job, before, ev, log0, err.None?);
      if err.Some? {
        StepHalted(job, cutOff, before, ev, log0, log, err.value);
      }
    }

    // One turn of the loop over the questions, up to the answer itself.
    method AnswerNext(i: nat, expected: Pane, ghost log0: Log)
      returns (alone: bool, err: Option<AskError>, ghost log: Log)
      requires SafeWalk(job, trace, log0) && log0.submit == -1 && AllComplete(log0)
      requires i == log0.start + |log0.steps| < |job.ask|
      requires EndsOn(trace, expected)
      modifies this`trace
      ensures SafeWalk(job, trace, log) && old(trace) <= trace && |trace| > |old(trace)| && log == log0.(steps := log.steps)
      ensures |log.steps| > |log0.steps| <==> trace[|old(trace)|] == trace[|old(trace)| - 1] && Ready(job, expected, i)
      ensures err.None? ==> AllComplete(log) && |log.steps| == |log0.steps| + 1
      ensures Completed(log) == |log0.steps| + if err.None? then 1 else 0
      ensures err.None? && alone ==> SubmittedAlone(job, trace, log)
      ensures err.Some? && log.walking ==> Explained(job, cutOff, trace, log, err.value)
    {
      hide SafeWalk, SubmittedAlone, Explained, Ready, EndsOn, AllComplete, Completed, Cut, HeadersMatch;
      ghost var before := trace;
      AllCompleted(log0);
      ghost var look;
      var live;
      live, look := WalkRead(log0);
      TurnUnmet(job, cutOff, before, look, expected, log0, i);
      if live.Unread? {
        return false, Some(live.error), log0;
      }
      if live.pane != expected || !Ready(job, live.pane, i) {
        return false, Some(Changed), log0;
      }
      alone := live.pane.single;
      err, log := AnswerPage(i, live.pane, before, log0);
    }

    // Answers the questions from start on, each once its own page shows.
    method AnswerAll(page: Pane, start: nat, ghost log0: Log)
      returns (done: nat, alone: bool, expected: Pane, cleared: bool, err: Option<AskError>, ghost log: Log)
      requires SafeWalk(job, trace, log0) && log0.steps == [] && log0.submit == -1 && log0.start == start <= |job.ask|
      requires EndsOn(trace, page)
      modifies this`trace
      ensures SafeWalk(job, trace, log) && old(trace) <= trace && log == log0.(steps := log.steps)
      ensures done == log.start + Completed(log) <= |job.ask|
      ensures err.None? ==> done == |job.ask| && AllComplete(log)
      ensures alone ==> SubmittedAlone(job, trace, log)
      ensures start < |job.ask| || err.Some? || alone ==> |trace| > |old(trace)|
      ensures cleared ==> alone
      ensures alone ==> (cleared <==> err.None? && trace[|trace| - 1] == Looked(Blank))
      ensures err.None? && !alone ==> EndsOn(trace, expected)
      ensures err.Some? && log.walking ==> Explained(job, cutOff, trace, log, err.value)
    {
      hide SafeWalk, SubmittedAlone, Explained, Cut, HeadersMatch, Focus, Ready;
      log, done, alone, expected, cleared := log0, start, false, page, false;
      while done < |job.ask|
        invariant SafeWalk(job, trace, log) && old(trace) <= trace && log == log0.(steps := log.steps) && AllComplete(log)
        invariant done == log.start + |log.steps| <= |job.ask|
        invariant !alone && (done > start ==> |trace| > |old(trace)|)
        invariant EndsOn(trace, expected)
      {
        var single;
        single, err, log := AnswerNext(done, expected, log);
        if err.Some? {
          return;
        }
        done := done + 1;
        if single { // no review screen: the press submitted it
          ghost var before := trace;
          var w := WalkWait(true, p => false, log);
          AloneGrows(job, before, trace, log);
          WaitExplained(job, cutOff, trace, log, done, w);
          alone, cleared := true, w.Gone?;
          err := if w.Broken? then Some(w.error) else None;
          return;
        }
        var theJob, next := job, done;
        var w := WalkWait(false, (p: Pane) => !p.editing && Focus(theJob.fold, p, theJob.ask) == next, log);
        WaitExplained(job, cutOff, trace, log, done, w);
        if !w.Seen? {
          err := Some(if w.Broken? then w.error else Changed);
          return;
        }
        expected := w.pane;
      }
      err := None;
    }

    // The first capture decides where to start: on the first tab, or, when an earlier walk was cut
    // off, on the first tab still unanswered. No tab is answered twice.
    method Begin() returns (err: Option<AskError>, ap: ParsedPane, f: nat, start: nat)
      requires trace == []
      modifies this`trace
      ensures |trace| == 1 && trace[0].Looked? && start <= f
      ensures err.None? <==> Opens(job, card, trace[0].capture)
      ensures err.Some? ==> if err == Some(Lost) then Cut(trace, cutOff) else err == Some(Changed)
      ensures err.None? ==> trace == [Looked(Menu(ap))] && !ap.editing && f <= |job.ask| && f == Focus(job.fold, ap, job.ask)
                            && start == if CutShort(job, ap, f) then f else 0
    {
      start, f, ap := 0, 0, Multi.BLANK;
      var live := Read();
      if live.Unread? {
        return Some(live.error), ap, f, start;
      }
      ap := live.pane;
      if (card.Some? && ap != card.value) || ap.editing || Focus(job.fold, ap, job.ask) < 0 {
        return Some(Changed), ap, f, start;
      }
      f := Focus(job.fold, ap, job.ask);
      if ap.single && (|job.ask| != 1 || f != 0) {
        return Some(Changed), ap, f, start;
      }
      if f > 0 && !ap.single && AnsweredBefore(ap, f) && (f == |job.ask| || !ap.tabs[f].answered) {
        start := f;
      }
      err := None;
    }

    // Everything before the questions: the first capture and, if needed, the way back to the
    // first tab.
    method Approach() returns (err: Option<AskError>, ap: ParsedPane, start: nat, ghost log: Log)
      requires trace == []
      modifies this`trace
      ensures SafeWalk(job, trace, log) && Begins(job, card, trace, log)
      ensures log.steps == [] && log.submit == -1
      ensures if err.None? then log.walking && log.start == start <= |job.ask| else !log.walking
      ensures trace != [] && trace[0].Looked? && (err.None? ==> Opens(job, card, trace[0].capture) && EndsOn(trace, ap))
      ensures if Opens(job, card, trace[0].capture) then err.Some? ==> |trace| > 1 else |trace| == 1
      ensures err.Some? ==> Explained(job, cutOff, trace, log, err.value)
    {
      hide SafeWalk, Opens, CutShort, HeadersMatch, Navigates, Cut, Astray, Focus;
      var f;
      err, ap, f, start := Begin();
      log := Unstarted(job, trace, start, f - start, err.None?);
      if err.Some? {
        return;
      }
      if start == 0 && f != 0 {
        ghost var ev;
        err, ap, ev := ToFirst(ap, f, []);
        assert trace == ev;
        log := Arrived(job, trace, f, err.None?, start);
      }
    }

    /** answerAsk, for a valid job. */
    method Walk() returns (done: nat, cleared: bool, err: Option<AskError>, ghost log: Log)
      requires trace == []
      modifies this`trace
      ensures SafeWalk(job, trace, log) && Begins(job, card, trace, log)
      ensures |trace| > 1 <==> Opens(job, card, trace[0].capture)
      ensures done == if log.walking then log.start + Completed(log) else 0
      ensures err.None? ==> done == |job.ask| && (log.submit >= 0 || SubmittedAlone(job, trace, log))
      ensures cleared <==> err.None? && trace[|trace| - 1] == Looked(Blank)
      ensures err.Some? ==> Explained(job, cutOff, trace, log, err.value)
    {
      hide SafeWalk, Begins, Explained, SubmittedAlone, Opens, EndsOn;
      var ap, start, alone, expected;
      done, cleared := 0, false;
      err, ap, start, log := Approach();
      if err.Some? {
        return;
      }
      ghost var arrived, log0 := trace, log;
      done, alone, expected, cleared, err, log := AnswerAll(ap, start, log);
      BeginsStays(job, card, arrived, trace, log0, log);
      if err.Some? || alone {
        return;
      }
      ghost var answered, log1 := trace, log;
      cleared, err, log := Submit(expected, log);
      BeginsStays(job, card, answered, trace, log1, log);
    }
  }

  /** Answers the pending question menu: nothing is pressed for picks that do not fit it, and for
      all others every trace of captures and keys is a safe one. */
  method AnswerAsk(fold: string -> string, lower: string -> string, ask: seq<Question>, picks: seq<Pick>,
                   card: Option<Pane>, screens: nat -> Capture, lands: nat -> bool, polls: nat -> nat, cutOff: nat -> bool)
    returns (done: nat, cleared: bool, err: Option<AskError>, trace: seq<Event>, ghost log: Log)
    ensures !ValidPicks(ask, picks) ==> err == Some(Unanswerable) && done == 0 && trace == []
    ensures ValidPicks(ask, picks) ==>
              var job := Job(fold, lower, ask, picks);
              && SafeWalk(job, trace, log) && Begins(job, card, trace, log)
              && (|trace| > 1 <==> Opens(job, card, trace[0].capture))
              && done == (if log.walking then log.start + Completed(log) else 0)
              && (err.None? ==> done == |ask| && (log.submit >= 0 || SubmittedAlone(job, trace, log)))
              && (cleared <==> err.None? && trace[|trace| - 1] == Looked(Blank))
              && (err.Some? ==> Explained(job, cutOff, trace, log, err.value))
              && (card.Some? && (exists k :: 0 <= k < |trace| && trace[k].Pressed?) ==>
                    trace[0].Looked? && trace[0].capture.Menu? && trace[0].capture.pane == card.value)
  {
    log := Log(false, 0, 0, 0, [], -1);
    var valid := CheckPicks(ask, picks);
    if !valid {
      return 0, false, Some(Unanswerable), [], log;
    }
    var terminal := new Terminal(Job(fold, lower, ask, picks), card, screens, lands, polls, cutOff);
    done, cleared, err, log := terminal.Walk();
    trace := terminal.trace;
  }

  method CheckPicks(ask: seq<Question>, picks: seq<Pick>) returns (valid: bool)
    ensures valid == ValidPicks(ask, picks)
    ensures valid <==> |picks| == |ask| && forall i :: 0 <= i < |ask| ==>
                         var q, p := ask[i], picks[i];
                         1 <= |q.labels| <= 8
                         && if q.multiSelect then ValidMultiPick(q, p) else 1 <= p.option <= |q.labels| || (p.option == 0 && p.text != "")
  {
    if |picks| != |ask| {
      return false;
    }
    for i := 0 to |ask|
      invariant forall j :: 0 <= j < i ==> ValidPick(ask[j], picks[j])
    {
      if |ask[i].labels| < 1 || |ask[i].labels| + 1 > 9 {
        return false;
      }
      if ask[i].multiSelect {
        valid := ValidateMultiPick(ask[i], picks[i]);
        if !valid {
          return;
        }
      } else if picks[i].option < 0 || picks[i].option > |ask[i].labels| || (picks[i].option == 0 && picks[i].text == "") {
        return false;
      }
    }
    return true;
  }

  // ------------------------------------------------------------------ what a safe walk means

  lemma {:induction false} LastLookInside(a: seq<Event>, b: seq<Event>)
    requires b != [] && b[0].Looked?
    ensures LastLook(a + b) == LastLook(b)
    decreases |b|
  {
    var front := b[..|b| - 1];
    assert (a + b)[..|a + b| - 1] == a + front;
    if !b[|b| - 1].Looked? {
      LastLookInside(a, front);
    }
  }

  // Every key of an answer step follows a capture of that question's page.
  lemma StepStaysOnPage(job: Job, ev: seq<Event>, i: nat, complete: bool, k: nat)
    requires Answers(job, ev, i, complete) && k < |ev| && ev[k].Pressed?
    ensures LastLook(ev[..k]).Menu? && Focus(job.fold, LastLook(ev[..k]).pane, job.ask) == i
  {
    var p, q, pick := ev[0].capture.pane, job.ask[i], job.picks[i];
    if q.multiSelect {
      if Multi.Plannable(job.fold, job.ask, i, p, pick) {
        var plan := Multi.Plan(p, i, |q.labels|, pick);
        ObeysAt(ev, PlanKeys(plan), Predicted(p, plan), k);
        Multi.PlanKeepsPage(p, i, |q.labels|, pick, |Keys(ev[..k])|);
      } else {
        NoKeys(ev, k);
      }
    } else if pick.option > 0 {
      assert ev[..k] == [] + [ev[0]];
      KeysSnoc([], ev[0]);
    } else {
      TypingStaysOnPage(job, ev, p, i, |q.labels|, pick.text, k);
    }
  }

  lemma TypingStaysOnPage(job: Job, ev: seq<Event>, p: Pane, i: nat, row: nat, text: string, k: nat)
    requires row < |p.options| && row < 9 && k < |ev| && ev[k].Pressed? && i < |job.ask|
    requires Obeys(ev, TypingKeys(job, p, row, text), TypingGuard(job, p, i, row, text))
    requires Focus(job.fold, p, job.ask) == i
    ensures LastLook(ev[..k]).Menu? && Focus(job.fold, LastLook(ev[..k]).pane, job.ask) == i
  {
    ObeysAt(ev, TypingKeys(job, p, row, text), TypingGuard(job, p, i, row, text), k);
    var j, c, justSeen := |Keys(ev[..k])|, LastLook(ev[..k]), k > 0 && ev[k - 1].Looked?;
    assert TypingGuard(job, p, i, row, text)(j, c, justSeen);
    assert c.pane == p || EditingRow(job, c.pane, i, row);
  }

  lemma {:induction false} NoKeys(ev: seq<Event>, k: nat)
    requires k < |ev| && ev[k].Pressed?
    ensures Keys(ev) != []
    decreases |ev|
  {
    if k < |ev| - 1 {
      NoKeys(ev[..|ev| - 1], k);
    }
  }

  lemma NothingAfterSubmit(job: Job, trace: seq<Event>, log: Log)
    requires SafeWalk(job, trace, log) && log.submit >= 0
    ensures OnlyLooks(trace[log.submit + 1..])
  {
    hide Answers, ReviewAgrees;
    forall m | log.submit < m < |trace| ensures trace[m].Looked? {
      assert trace[m].Pressed? ==> InStep(log.steps, m);
    }
  }

  /** Whatever the terminal showed: once the latest capture is a review screen, the walk presses
      nothing but Left on its way back, or the submitting "1" when that screen agrees with every
      pick; and then nothing else. */
  lemma ReviewIsRespected(job: Job, trace: seq<Event>, log: Log, k: nat)
    requires SafeWalk(job, trace, log) && k < |trace| && trace[k].Pressed?
    requires LastLook(trace[..k]).Menu? && LastLook(trace[..k]).pane.review
    ensures trace[k].key == LEFT
            || (trace[k].key == Text("1") && ReviewAgrees(job, LastLook(trace[..k]).pane) && OnlyLooks(trace[k + 1..]))
  {
    hide Answers, ReviewAgrees;
    if k < log.nav {
      ObeysAt(trace[..log.nav], Lefts(log.back), SeenBack(job, log.back), k);
    } else if k == log.submit {
      assert trace[..k] == trace[..k - 1] + [trace[k - 1]];
      KeysSnoc(trace[..k - 1], trace[k - 1]);
      NothingAfterSubmit(job, trace, log);
    } else {
      assert InStep(log.steps, k);
      var j :| 0 <= j < |log.steps| && log.steps[j].from <= k < log.steps[j].to;
      StepPage(job, trace, log.steps[j], k);
    }
  }

  lemma StepPage(job: Job, trace: seq<Event>, step: Step, k: nat)
    requires StepOk(job, trace, step) && step.from <= k < step.to && trace[k].Pressed?
    ensures LastLook(trace[..k]).Menu? && Focus(job.fold, LastLook(trace[..k]).pane, job.ask) == step.question < |job.ask|
  {
    var ev := trace[step.from..step.to];
    var n := k - step.from;
    StepStaysOnPage(job, ev, step.question, step.complete, n);
    assert n > 0;
    assert trace[..k] == trace[..step.from] + ev[..n];
    LastLookInside(trace[..step.from], ev[..n]);
  }

  /** Every key that is neither a step back nor the submission belongs to the one answer step of
      the question the latest capture shows. */
  lemma KeysGoToTheirQuestion(job: Job, trace: seq<Event>, log: Log, k: nat) returns (j: nat)
    requires SafeWalk(job, trace, log) && log.nav <= k < |trace| && trace[k].Pressed? && k != log.submit
    ensures j < |log.steps| && log.steps[j].from <= k < log.steps[j].to
    ensures LastLook(trace[..k]).Menu? && Focus(job.fold, LastLook(trace[..k]).pane, job.ask) == log.start + j
    ensures forall m :: 0 <= m < |log.steps| && m != j ==> log.steps[m].question != log.start + j
  {
    assert InStep(log.steps, k);
    j :| j < |log.steps| && log.steps[j].from <= k < log.steps[j].to;
    StepPage(job, trace, log.steps[j], k);
  }

  /** Every answer step opens on a page looked at twice: the question's own headers, text, option rows
      and kind, nobody typing. */
  lemma StepOpensOnItsPage(job: Job, trace: seq<Event>, log: Log, j: nat)
    requires SafeWalk(job, trace, log) && j < |log.steps|
    ensures var k, i := log.steps[j].from, log.start + j;
            && 0 < k < |trace| && i < |job.ask| && trace[k - 1] == trace[k] && trace[k].Looked? && trace[k].capture.Menu?
            && var p, q := trace[k].capture.pane, job.ask[i];
            && !p.review && !p.editing && p.multiSelect == q.multiSelect && |p.options| > |q.labels|
            && |p.tabs| == |job.ask| && (forall t :: 0 <= t < |job.ask| ==> job.fold(p.tabs[t].header) == job.fold(job.ask[t].header))
            && (forall o :: 0 <= o < |q.labels| ==> job.fold(p.options[o]) == job.fold(q.labels[o]))
            && job.fold(p.question) != ""
            && (forall t :: 0 <= t < |job.ask| ==>
                  var shown, asked := job.fold(p.question), job.fold(job.ask[t].text);
                  asked == shown || (|shown| > 24 && (shown <= asked || asked <= shown)) <==> t == i)
            && (!q.multiSelect && job.picks[i].option > 0 ==>
                  Keys(trace[k..log.steps[j].to]) == [Text(Digit(job.picks[i].option))])
  {
    var step := log.steps[j];
    assert StepOk(job, trace, step);
    var ev := trace[step.from..step.to];
    assert ev[0] == trace[step.from];
    ReadyShows(job, ev[0].capture.pane, step.question);
    hide Obeys, HeadersMatch, OptionsMatch, Focus, Multi.Plannable, Multi.Plan, TypingKeys, TypingGuard, Predicted;
  }

  lemma ReadyShows(job: Job, p: Pane, i: nat)
    requires Ready(job, p, i)
    ensures var q := job.ask[i];
            && !p.review && !p.editing && p.multiSelect == q.multiSelect && |p.options| > |q.labels|
            && |p.tabs| == |job.ask| && (forall t :: 0 <= t < |job.ask| ==> job.fold(p.tabs[t].header) == job.fold(job.ask[t].header))
            && (forall o :: 0 <= o < |q.labels| ==> job.fold(p.options[o]) == job.fold(q.labels[o]))
            && job.fold(p.question) != ""
            && (forall t :: 0 <= t < |job.ask| ==>
                  var shown, asked := job.fold(p.question), job.fold(job.ask[t].text);
                  asked == shown || (|shown| > 24 && (shown <= asked || asked <= shown)) <==> t == i)
  {
    assert OnlyShows(job.fold, p.question, job.ask, i);
    forall t | 0 <= t < |job.ask| ensures Shows(job.fold, p.question, job.ask[t]) <==> t == i {
    }
  }

  // A typed answer is opened, emptied, typed and confirmed; each key, and the page it was pressed on.
  lemma TypedAnswer(job: Job, ev: seq<Event>, i: nat, complete: bool, k: nat)
    requires Answers(job, ev, i, complete) && !job.ask[i].multiSelect && job.picks[i].option == 0
    requires k < |ev| && ev[k].Pressed?
    ensures var row, text, c := |job.ask[i].labels|, job.picks[i].text, LastLook(ev[..k]);
            && c.Menu?
            && (ev[k].key == Enter ==>
                  && k > 0 && ev[k - 1] == Looked(c) && c.pane.editing && !c.pane.review && c.pane.cursor == row
                  && Focus(job.fold, c.pane, job.ask) == i && row < |c.pane.options|
                  && var got, want := job.fold(c.pane.options[row]), job.fold(text);
                     got == want || (|got| >= 40 && got <= want))
            && (ev[k].key == BSPACE ==> c.pane.editing && c.pane.cursor == row && Focus(job.fold, c.pane, job.ask) == i)
            && ev[k].key in {Text(Digit(row + 1)), DOWN, BSPACE, Text(text), Enter}
    ensures complete ==> |Keys(ev)| >= 2 && Keys(ev)[|Keys(ev)| - 2..] == [Text(job.picks[i].text), Enter]
  {
    hide Obeys, Keys, Opening, Focus, Ready, Predicted, EditingRow, ShowsTyped;
    var p, row, text := ev[0].capture.pane, |job.ask[i].labels|, job.picks[i].text;
    AnswersTyped(job, ev, i, complete);
    ObeysAt(ev, TypingKeys(job, p, row, text), TypingGuard(job, p, i, row, text), k);
    TypingAt(job, p, i, row, text, |Keys(ev[..k])|, LastLook(ev[..k]), k > 0 && ev[k - 1].Looked?);
    EditingSpelled(job, LastLook(ev[..k]), i, row, text);
    if k > 0 && ev[k - 1].Looked? {
      assert ev[..k][..k - 1] == ev[..k - 1];
    }
  }

  lemma AnswersTyped(job: Job, ev: seq<Event>, i: nat, complete: bool)
    requires Answers(job, ev, i, complete) && !job.ask[i].multiSelect && job.picks[i].option == 0
    ensures var p, row, text := ev[0].capture.pane, |job.ask[i].labels|, job.picks[i].text;
            && row < |p.options| && row < 9
            && Obeys(ev, TypingKeys(job, p, row, text), TypingGuard(job, p, i, row, text))
            && (complete ==> Keys(ev) == Opening(job, p, row) + [Text(text), Enter])
  {
    hide Obeys, Keys, Opening, Focus;
  }

  lemma EditingSpelled(job: Job, c: Capture, i: nat, row: nat, text: string)
    ensures c.Menu? && EditingRow(job, c.pane, i, row) ==>
              c.pane.editing && !c.pane.review && c.pane.cursor == row && Focus(job.fold, c.pane, job.ask) == i
    ensures c.Menu? && ShowsTyped(job, c.pane, row, text) ==>
              row < |c.pane.options| && var got, want := job.fold(c.pane.options[row]), job.fold(text);
              got == want || (|got| >= 40 && got <= want)
  {
    hide Focus;
  }

  lemma TypingAt(job: Job, p: Pane, i: nat, row: nat, text: string, j: nat, c: Capture, justSeen: bool)
    requires row < |p.options| && row < 9 && TypingGuard(job, p, i, row, text)(j, c, justSeen)
    ensures c.Menu? && j < |TypingKeys(job, p, row, text)|
    ensures var key := TypingKeys(job, p, row, text)[j];
            && (key == Enter ==> justSeen && EditingRow(job, c.pane, i, row) && ShowsTyped(job, c.pane, row, text))
            && (key == BSPACE ==> EditingRow(job, c.pane, i, row))
            && key in {Text(Digit(row + 1)), DOWN, BSPACE, Text(text), Enter}
  {
    hide Opening, EditingRow, ShowsTyped;
    OpeningKeys(job, p, row);
    var plan, front := TypingKeys(job, p, row, text), Opening(job, p, row);
    assert j < |front| ==> plan[j] == front[j] && front[j] in front;
  }

  lemma OpeningKeys(job: Job, p: Pane, row: nat)
    requires row < |p.options| && row < 9
    ensures forall key :: key in Opening(job, p, row) ==> key in {Text(Digit(row + 1)), DOWN, BSPACE}
  {
  }

  /** What a submitted review said: for every question with one answer the chosen option's label or the
      typed text, for the others the chosen labels and the typed text, each once, in some order. */
  lemma SubmittedAnswers(job: Job, trace: seq<Event>, log: Log, i: nat)
    requires SafeWalk(job, trace, log) && log.submit >= 0 && i < |job.ask|
    ensures var c, q, pick := trace[log.submit - 1].capture, job.ask[i], job.picks[i];
            && trace[log.submit - 2] == trace[log.submit - 1] == Looked(c) && c.Menu?
            && c.pane.review && |c.pane.answers| == |job.ask|
            && (!q.multiSelect && pick.option > 0 ==> job.fold(c.pane.answers[i]) == job.fold(q.labels[pick.option - 1]))
            && (!q.multiSelect && pick.option == 0 ==> job.fold(c.pane.answers[i]) == job.fold(pick.text))
            && (q.multiSelect ==>
                  exists order :: NormText.Join(order, ", ") == NormText.Norm(c.pane.answers[i])
                                  && multiset(order) == multiset(Review.Picked(q, pick.rows)
                                                                 + if pick.text != "" then [NormText.Norm(pick.text)] else []))
  {
    var c, q, pick := trace[log.submit - 1].capture, job.ask[i], job.picks[i];
    assert AnswerAgrees(job, c.pane.answers[i], i);
    hide StepsOk, Navigates, InStep;
    if q.multiSelect {
      assert Review.Chosen(q, pick) == Review.Picked(q, pick.rows) + if pick.text != "" then [NormText.Norm(pick.text)] else [];
      var order :| Review.Rearranges(order, Review.Chosen(q, pick)) && NormText.Join(order, Review.SEP) == NormText.Norm(c.pane.answers[i]);
      assert NormText.Join(order, ", ") == NormText.Norm(c.pane.answers[i]);
    }
  }
}
