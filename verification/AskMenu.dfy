/** The tabbed question menu as the transcript and the pane describe it (askmenu.go). */
module AskMenu {

  datatype Question = Question(header: string, text: string, multiSelect: bool, labels: seq<string>)

  datatype Tab = Tab(header: string, answered: bool)

  // What the parser reads off one capture of the pane.
  datatype Pane = Pane(
    multiSelect: bool,
    checked: seq<bool>,      // options and Other, without the chat row
    continueRow: string,     // the unnumbered Next/Submit row
    continueFocused: bool,
    tabs: seq<Tab>,
    single: bool,
    review: bool,
    editing: bool,
    question: string,
    options: seq<string>,
    cursor: int,
    answers: seq<string>)

  // One question's answer: the 1-based row to press (0 for none), typed text, and the
  // rows of a multi-select question.
  datatype Pick = Pick(option: int, text: string, rows: seq<int>)

  datatype Key = Text(s: string) | Named(name: string) | Enter

  const LEFT := Named("Left")
  const RIGHT := Named("Right")
  const UP := Named("Up")
  const DOWN := Named("Down")
  const BSPACE := Named("BSpace")

  const MAX_ERASE := 200

  function Digit(d: nat): (s: string)
    requires d < 10
    ensures |s| == 1 && s[0] as int == '0' as int + d
  {
    [('0' as int + d) as char]
  }

  // fold stands for alnumKey: text reduced to lower-case letters and digits.
  predicate HeadersMatch(fold: string -> string, ap: Pane, ask: seq<Question>) {
    && |ap.tabs| == |ask|
    && forall i :: 0 <= i < |ask| ==> fold(ap.tabs[i].header) == fold(ask[i].header)
  }

  // A page's text is question q's: the same, or (when long enough to be cut or continued by the
  // pane) one a prefix of the other.
  predicate Shows(fold: string -> string, shown: string, q: Question) {
    var key, qk := fold(shown), fold(q.text);
    qk == key || (|key| > 24 && (key <= qk || qk <= key))
  }

  predicate OnlyShows(fold: string -> string, shown: string, ask: seq<Question>, i: nat) {
    && i < |ask|
    && Shows(fold, shown, ask[i])
    && forall j :: 0 <= j < |ask| && j != i ==> !Shows(fold, shown, ask[j])
  }

  // The one question a page's text belongs to, -1 when unknown or ambiguous.
  function QuestionShown(fold: string -> string, shown: string, ask: seq<Question>): (f: int)
    ensures -1 <= f < |ask|
  {
    if fold(shown) == "" then -1
    else if i: nat :| i < |ask| && OnlyShows(fold, shown, ask, i) then i
    else -1
  }

  // The page shown: a question's index, |ask| for the review screen.
  function Focus(fold: string -> string, ap: Pane, ask: seq<Question>): (f: int)
    ensures -1 <= f <= |ask|
    ensures f == |ask| <==> ap.review
  {
    if ap.review then |ask| else QuestionShown(fold, ap.question, ask)
  }

  // The loop of focus finds exactly that page.
  method FindFocus(fold: string -> string, ap: Pane, ask: seq<Question>) returns (hit: int)
    ensures hit == Focus(fold, ap, ask)
  {
    if ap.review {
      return |ask|;
    }
    if fold(ap.question) == "" {
      return -1;
    }
    hit := -1;
    for i := 0 to |ask|
      invariant -1 <= hit < i
      invariant hit == -1 ==> forall j :: 0 <= j < i ==> !Shows(fold, ap.question, ask[j])
      invariant hit >= 0 ==> Shows(fold, ap.question, ask[hit])
                             && forall j :: 0 <= j < i && j != hit ==> !Shows(fold, ap.question, ask[j])
    {
      if Shows(fold, ap.question, ask[i]) {
        if hit >= 0 {
          return -1;
        }
        hit := i;
      }
    }
    assert hit >= 0 ==> OnlyShows(fold, ap.question, ask, hit);
  }

  // The rows shown are the question's options followed by the menu's own rows.
  predicate OptionsMatch(fold: string -> string, ap: Pane, q: Question) {
    && ap.multiSelect == q.multiSelect
    && (q.multiSelect ==> !ap.single && |ap.checked| == |q.labels| + 1 && ap.continueRow != "")
    && |ap.options| >= |q.labels| + 1
    && forall i :: 0 <= i < |q.labels| ==> fold(ap.options[i]) == fold(q.labels[i])
  }

  // unicode.IsControl.
  predicate IsControl(c: char) {
    c < ' ' || '\U{7F}' <= c <= '\U{9F}'
  }

  predicate ValidMultiPick(q: Question, p: Pick) {
    && p.option == 0
    && (p.rows != [] || p.text != "")
    && (forall k :: 0 <= k < |p.rows| ==> 1 <= p.rows[k] <= |q.labels|)
    && (forall j, k :: 0 <= j < k < |p.rows| ==> p.rows[j] != p.rows[k])
    && |p.text| <= MAX_ERASE
    && (forall k :: 0 <= k < |p.text| ==> !IsControl(p.text[k]))
  }

  method ValidateMultiPick(q: Question, p: Pick) returns (ok: bool)
    ensures ok == ValidMultiPick(q, p)
  {
    if p.option != 0 || (p.rows == [] && p.text == "") {
      return false;
    }
    var seen: set<int> := {};
    for k := 0 to |p.rows|
      invariant seen == set j | 0 <= j < k :: p.rows[j]
      invariant forall j :: 0 <= j < k ==> 1 <= p.rows[j] <= |q.labels|
      invariant forall i, j :: 0 <= i < j < k ==> p.rows[i] != p.rows[j]
    {
      if p.rows[k] < 1 || p.rows[k] > |q.labels| || p.rows[k] in seen {
        assert p.rows[k] in seen ==> exists j :: 0 <= j < k && p.rows[j] == p.rows[k];
        return false;
      }
      seen := seen + {p.rows[k]};
    }
    return |p.text| <= MAX_ERASE && forall k :: 0 <= k < |p.text| ==> !IsControl(p.text[k]);
  }
}
