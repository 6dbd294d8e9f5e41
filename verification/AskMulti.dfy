/** Planning the keys of one multi-select question (askmenu_multi.go). */
module AskMulti {
  import opened AskMenu

  // A planned key and the menu the sender expects on screen once it has landed.
  datatype MultiKey = MultiKey(key: Key, after: Pane)

  datatype PlanResult = Planned(keys: seq<MultiKey>) | Refused

  const PLACEHOLDER := "Type something"

  function Any(checked: seq<bool>): bool {
    exists k :: 0 <= k < |checked| && checked[k]
  }

  // The tab's mark follows the boxes.
  function Remark(ap: Pane, i: nat): (r: Pane)
    requires i < |ap.tabs|
    ensures |r.tabs| == |ap.tabs| && r == ap.(tabs := r.tabs)
  {
    ap.(tabs := ap.tabs[i := ap.tabs[i].(answered := Any(ap.checked))])
  }

  // ------------------------------------------------------------------ the menu itself

  /** The menu as it behaves, from the recorded transitions (testdata/claude/askq-multi-semantics.md):
      the rows are the options, Other, the Next/Submit row and the chat row, in this order. The
      screen shows field, the text typed into Other, as a placeholder while it is empty. */
  datatype Menu = Menu(pane: Pane, field: string)

  function Shown(field: string): string {
    if field == "" then PLACEHOLDER else field
  }

  // pane is question i's page, with n options, of a menu whose Other row holds field.
  ghost predicate Rendered(m: Menu, i: nat, n: nat) {
    && i < |m.pane.tabs|
    && |m.pane.checked| == n + 1
    && |m.pane.options| >= n + 1
    && m.pane.options[n] == Shown(m.field)
    && m.pane.editing == (m.pane.cursor == n)
    && 0 <= m.pane.cursor <= n + 1
    && (m.pane.continueFocused ==> m.pane.cursor == n + 1)
  }

  // The capture gives the chat row the index of the Next/Submit row above it.
  predicate OnChat(ap: Pane, n: nat) {
    ap.cursor == n + 1 && !ap.continueFocused
  }

  function Moved(ap: Pane, n: nat, cursor: int, onContinue: bool): Pane {
    ap.(cursor := cursor, continueFocused := onContinue, editing := cursor == n)
  }

  function Edited(m: Menu, i: nat, n: nat, field: string, other: bool): Menu
    requires i < |m.pane.tabs| && n < |m.pane.checked| && n < |m.pane.options|
  {
    Menu(
      Remark(m.pane.(options := m.pane.options[n := Shown(field)], checked := m.pane.checked[n := other]), i),
      field)
  }

  function Toggled(ap: Pane, i: nat, row: nat): (r: Pane)
    requires i < |ap.tabs| && row < |ap.checked|
    ensures |r.tabs| == |ap.tabs| && r == ap.(checked := r.checked, tabs := r.tabs)
    ensures r.checked == ap.checked[row := !ap.checked[row]]
  {
    Remark(ap.(checked := ap.checked[row := !ap.checked[row]]), i)
  }

  predicate IsRow(s: string, n: nat) {
    |s| == 1 && '1' <= s[0] <= '9' && s[0] as int - '1' as int <= n
  }

  // A digit toggles its row and leaves the cursor; in the editor, typing appends and
  // checks Other.
  function PressText(m: Menu, i: nat, n: nat, s: string): (r: Menu)
    requires i < |m.pane.tabs| && |m.pane.checked| == n + 1 && |m.pane.options| >= n + 1
    ensures SameSize(m, r)
  {
    if m.pane.editing then Edited(m, i, n, m.field + s, true)
    else if IsRow(s, n) then m.(pane := Toggled(m.pane, i, s[0] as int - '1' as int))
    else m
  }

  function PressUp(ap: Pane, i: nat, n: nat): (r: Pane)
    requires i < |ap.tabs|
    ensures |r.tabs| == |ap.tabs| && r.checked == ap.checked && r.options == ap.options
  {
    if OnChat(ap, n) then Remark(Moved(ap, n, n + 1, true), i)
    else if ap.cursor > 0 then Remark(Moved(ap, n, ap.cursor - 1, false), i)
    else ap
  }

  function PressDown(ap: Pane, i: nat, n: nat): (r: Pane)
    requires i < |ap.tabs|
    ensures |r.tabs| == |ap.tabs| && r.checked == ap.checked && r.options == ap.options
  {
    if ap.cursor <= n then Remark(Moved(ap, n, ap.cursor + 1, ap.cursor == n), i)
    else Remark(Moved(ap, n, n + 1, false), i)
  }

  // Erasing the last character left unchecks Other.
  function PressErase(m: Menu, i: nat, n: nat): (r: Menu)
    requires i < |m.pane.tabs| && |m.pane.checked| == n + 1 && |m.pane.options| >= n + 1
    ensures SameSize(m, r)
  {
    if m.pane.editing && m.field != "" then Edited(m, i, n, m.field[..|m.field| - 1], |m.field| > 1) else m
  }

  predicate SameSize(m: Menu, r: Menu) {
    |r.pane.tabs| == |m.pane.tabs| && |r.pane.checked| == |m.pane.checked| && |r.pane.options| == |m.pane.options|
  }

  // What one key does to question i's page.
  function Press(m: Menu, i: nat, n: nat, key: Key): (r: Menu)
    requires i < |m.pane.tabs| && |m.pane.checked| == n + 1 && |m.pane.options| >= n + 1
    ensures SameSize(m, r)
  {
    match key
    case Text(s) => PressText(m, i, n, s)
    case Named(name) =>
      if name == "Up" then m.(pane := PressUp(m.pane, i, n))
      else if name == "Down" then m.(pane := PressDown(m.pane, i, n))
      else if name == "BSpace" then PressErase(m, i, n)
      else m
    case Enter => m
  }

  ghost predicate Runs(m: Menu, i: nat, n: nat, keys: seq<MultiKey>)
    requires i < |m.pane.tabs| && |m.pane.checked| == n + 1 && |m.pane.options| >= n + 1
    decreases |keys|
  {
    // Every key leaves exactly the screen the plan predicts for it.
    keys == [] || (
      var next := Press(m, i, n, keys[0].key);
      next.pane == keys[0].after && Runs(next, i, n, keys[1..]))
  }

  // ------------------------------------------------------------------ the plan

  // The planner's guard against a stale or unsupported menu.
  predicate Fresh(fold: string -> string, ask: seq<Question>, i: nat, ap: Pane, p: Pick) {
    && i < |ask|
    && ValidMultiPick(ask[i], p)
    && ask[i].multiSelect
    && |ask[i].labels| + 1 <= 9
    && HeadersMatch(fold, ap, ask)
    && Focus(fold, ap, ask) == i
    && OptionsMatch(fold, ap, ask[i])
    && !ap.editing
    && 0 <= ap.cursor <= |ask[i].labels| + 1
  }

  // Refusing leaves the terminal untouched.
  predicate Plannable(fold: string -> string, ask: seq<Question>, i: nat, ap: Pane, p: Pick) {
    && Fresh(fold, ask, i, ap, p)
    && !(Typing(ap, |ask[i].labels|, p) && |Prior(ap, |ask[i].labels|)| > MAX_ERASE)
  }

  function Want(n: nat, p: Pick): (want: seq<bool>)
    ensures |want| == n + 1
  {
    seq(n + 1, row requires 0 <= row <= n => if row < n then row + 1 in p.rows else p.text != "")
  }

  // Other is retyped, not toggled.
  predicate Typing(ap: Pane, n: nat, p: Pick)
    requires |ap.options| > n
  {
    p.text != "" && ap.options[n] != p.text
  }

  function Prior(ap: Pane, n: nat): string
    requires |ap.options| > n
  {
    if ap.options[n] == PLACEHOLDER then "" else ap.options[n]
  }

  // The digits still to press from row on.
  function Toggles(ap: Pane, i: nat, want: seq<bool>, skipOther: bool, row: nat): seq<MultiKey>
    requires i < |ap.tabs| && row <= |ap.checked| == |want| <= 9
    decreases |want| - row
  {
    if row == |want| then []
    else if (skipOther && row == |want| - 1) || ap.checked[row] == want[row] then
      Toggles(ap, i, want, skipOther, row + 1)
    else
      [MultiKey(Text(Digit(row + 1)), Toggled(ap, i, row))] + Toggles(Toggled(ap, i, row), i, want, skipOther, row + 1)
  }

  function Step(ap: Pane, i: nat, n: nat): Pane
    requires i < |ap.tabs|
  {
    Remark(Moved(ap, n, if ap.cursor > n then ap.cursor - 1 else ap.cursor + 1, false), i)
  }

  function Distance(ap: Pane, n: nat): nat {
    if ap.cursor > n then ap.cursor - n else n - ap.cursor
  }

  // The cursor keys still to press to reach Other.
  function Moves(ap: Pane, i: nat, n: nat): seq<MultiKey>
    requires i < |ap.tabs|
    decreases Distance(ap, n)
  {
    if ap.cursor == n then []
    else [MultiKey(if ap.cursor > n then UP else DOWN, Step(ap, i, n))] + Moves(Step(ap, i, n), i, n)
  }

  function Erased(ap: Pane, i: nat, n: nat, left: string): Pane
    requires i < |ap.tabs| && n < |ap.checked| && n < |ap.options|
  {
    Remark(ap.(options := ap.options[n := Shown(left)], checked := ap.checked[n := left != ""]), i)
  }

  // The erasures still to press while Other holds left.
  function Erases(ap: Pane, i: nat, n: nat, left: string): seq<MultiKey>
    requires i < |ap.tabs| && n < |ap.checked| && n < |ap.options|
    decreases |left|
  {
    if left == "" then []
    else
      var shorter := left[..|left| - 1];
      [MultiKey(BSPACE, Erased(ap, i, n, shorter))] + Erases(Erased(ap, i, n, shorter), i, n, shorter)
  }

  function Typed(ap: Pane, i: nat, n: nat, text: string): Pane
    requires i < |ap.tabs| && n < |ap.checked| && n < |ap.options|
  {
    Remark(ap.(options := ap.options[n := text], checked := ap.checked[n := true]), i)
  }

  function Left(ap: Pane, i: nat): Pane
    requires i < |ap.tabs|
  {
    Remark(ap.(cursor := ap.cursor - 1, editing := false), i)
  }

  function Retypes(ap: Pane, i: nat, n: nat, text: string): seq<MultiKey>
    requires i < |ap.tabs| && n < |ap.checked| && n < |ap.options|
  {
    [MultiKey(Text(text), Typed(ap, i, n, text)), MultiKey(UP, Left(Typed(ap, i, n, text), i))]
  }

  // Where a run of predicted keys ends.
  function End(ap: Pane, keys: seq<MultiKey>): Pane {
    if keys == [] then ap else keys[|keys| - 1].after
  }

  lemma EndOfCons(ap: Pane, key: MultiKey, rest: seq<MultiKey>)
    ensures End(ap, [key] + rest) == End(key.after, rest)
  {
  }

  predicate Sized(ap: Pane, i: nat, n: nat) {
    i < |ap.tabs| && |ap.checked| == n + 1 <= 9 && |ap.options| >= n + 1
  }

  // Retyping Other: reach it, empty it, type, leave upwards.
  function TypingPart(a: Pane, i: nat, n: nat, text: string): seq<MultiKey>
    requires Sized(a, i, n)
  {
    var moves := Moves(a, i, n);
    MovesKeepSize(a, i, n);
    var b := End(a, moves);
    var erases := Erases(b, i, n, Prior(b, n));
    ErasesKeepSize(b, i, n, Prior(b, n));
    moves + erases + Retypes(End(b, erases), i, n, text)
  }

  // Everything the plan does before it leaves the page.
  function Edits(ap: Pane, i: nat, n: nat, p: Pick): seq<MultiKey>
    requires Sized(ap, i, n)
  {
    var typing := Typing(ap, n, p);
    var toggles := Toggles(ap, i, Want(n, p), typing, 0);
    TogglesKeepSize(ap, i, Want(n, p), typing, 0);
    if typing then toggles + TypingPart(End(ap, toggles), i, n, p.text) else toggles
  }

  // After the digits from row on, those rows are as wanted; the earlier ones, Other when it
  // is to be retyped, and everything but the boxes and the tab marks are as before.
  ghost predicate ToggledFrom(ap: Pane, e: Pane, want: seq<bool>, skipOther: bool, row: nat)
    requires |ap.checked| == |want|
  {
    && |e.tabs| == |ap.tabs|
    && |e.checked| == |want|
    && e == ap.(checked := e.checked, tabs := e.tabs)
    && (forall k {:trigger e.checked[k]} :: 0 <= k < |want| ==>
          e.checked[k] == if k < row || (skipOther && k == |want| - 1) then ap.checked[k] else want[k])
  }

  lemma ToggledFromStep(ap: Pane, i: nat, e: Pane, want: seq<bool>, skipOther: bool, row: nat)
    requires i < |ap.tabs| && row < |ap.checked| == |want|
    requires !(skipOther && row == |want| - 1) && ap.checked[row] != want[row]
    requires ToggledFrom(Toggled(ap, i, row), e, want, skipOther, row + 1)
    ensures ToggledFrom(ap, e, want, skipOther, row)
  {
    assert Toggled(ap, i, row).checked[row] == want[row];
  }

  lemma {:induction false} TogglesKeepSize(ap: Pane, i: nat, want: seq<bool>, skipOther: bool, row: nat)
    requires i < |ap.tabs| && row <= |ap.checked| == |want| <= 9
    ensures ToggledFrom(ap, End(ap, Toggles(ap, i, want, skipOther, row)), want, skipOther, row)
    decreases |want| - row
  {
    if row == |want| {
    } else if (skipOther && row == |want| - 1) || ap.checked[row] == want[row] {
      TogglesKeepSize(ap, i, want, skipOther, row + 1);
    } else {
      var t := Toggled(ap, i, row);
      var rest := Toggles(t, i, want, skipOther, row + 1);
      TogglesKeepSize(t, i, want, skipOther, row + 1);
      EndOfCons(ap, MultiKey(Text(Digit(row + 1)), t), rest);
      ToggledFromStep(ap, i, End(t, rest), want, skipOther, row);
    }
  }

  lemma {:induction false} MovesKeepSize(ap: Pane, i: nat, n: nat)
    requires i < |ap.tabs|
    ensures var e := End(ap, Moves(ap, i, n));
            && |e.tabs| == |ap.tabs| && e.cursor == n
            && e == ap.(cursor := n, tabs := e.tabs, editing := e.editing, continueFocused := e.continueFocused)
            && (ap.cursor != n ==> e.editing && !e.continueFocused)
            && (ap.cursor == n ==> e == ap)
    ensures |Moves(ap, i, n)| == Distance(ap, n)
    decreases Distance(ap, n)
  {
    if ap.cursor != n {
      MovesKeepSize(Step(ap, i, n), i, n);
      assert End(ap, Moves(ap, i, n)) == End(Step(ap, i, n), Moves(Step(ap, i, n), i, n));
    }
  }

  lemma {:induction false} ErasesKeepSize(ap: Pane, i: nat, n: nat, left: string)
    requires i < |ap.tabs| && n < |ap.checked| && n < |ap.options|
    ensures var e := End(ap, Erases(ap, i, n, left));
            && |e.tabs| == |ap.tabs| && |e.checked| == |ap.checked| && |e.options| == |ap.options|
            && e == ap.(checked := e.checked, options := e.options, tabs := e.tabs)
            && (forall k :: 0 <= k < |ap.checked| && k != n ==> e.checked[k] == ap.checked[k])
    ensures |Erases(ap, i, n, left)| == |left|
    decreases |left|
  {
    if left != "" {
      var shorter := left[..|left| - 1];
      ErasesKeepSize(Erased(ap, i, n, shorter), i, n, shorter);
      assert End(ap, Erases(ap, i, n, left)) == End(Erased(ap, i, n, shorter), Erases(Erased(ap, i, n, shorter), i, n, shorter));
    }
  }

  // ------------------------------------------------------------------ the plan against the menu

  ghost function RunEnd(m: Menu, i: nat, n: nat, keys: seq<MultiKey>): (e: Menu)
    requires Sized(m.pane, i, n)
    ensures SameSize(m, e)
    decreases |keys|
  {
    if keys == [] then m else RunEnd(Press(m, i, n, keys[0].key), i, n, keys[1..])
  }

  lemma {:induction false} RunsInParts(m: Menu, i: nat, n: nat, a: seq<MultiKey>, b: seq<MultiKey>)
    requires Sized(m.pane, i, n)
    ensures Runs(m, i, n, a + b) <==> Runs(m, i, n, a) && Runs(RunEnd(m, i, n, a), i, n, b)
    ensures RunEnd(m, i, n, a + b) == RunEnd(RunEnd(m, i, n, a), i, n, b)
    decreases |a|
  {
    if a == [] {
      assert a + b == b;
    } else {
      assert (a + b)[1..] == a[1..] + b;
      RunsInParts(Press(m, i, n, a[0].key), i, n, a[1..], b);
    }
  }

  lemma {:induction false} TogglesRun(m: Menu, i: nat, n: nat, want: seq<bool>, skipOther: bool, row: nat)
    requires Rendered(m, i, n) && n + 1 <= 9 && !m.pane.editing && row <= |want| == n + 1
    ensures var keys := Toggles(m.pane, i, want, skipOther, row);
            Runs(m, i, n, keys) && RunEnd(m, i, n, keys) == m.(pane := End(m.pane, keys))
    decreases |want| - row
  {
    var ap := m.pane;
    if row == |want| {
    } else if (skipOther && row == |want| - 1) || ap.checked[row] == want[row] {
      TogglesRun(m, i, n, want, skipOther, row + 1);
    } else {
      var next := m.(pane := Toggled(ap, i, row));
      var rest := Toggles(next.pane, i, want, skipOther, row + 1);
      var key := MultiKey(Text(Digit(row + 1)), next.pane);
      assert Press(m, i, n, key.key) == next;
      TogglesRun(next, i, n, want, skipOther, row + 1);
      EndOfCons(ap, key, rest);
      assert ([key] + rest)[1..] == rest;
    }
  }

  lemma {:induction false} MovesRun(m: Menu, i: nat, n: nat)
    requires Rendered(m, i, n) && n + 1 <= 9 && !OnChat(m.pane, n)
    ensures var keys := Moves(m.pane, i, n);
            && Runs(m, i, n, keys) && RunEnd(m, i, n, keys) == m.(pane := End(m.pane, keys))
            && Rendered(RunEnd(m, i, n, keys), i, n)
    decreases Distance(m.pane, n)
  {
    var ap := m.pane;
    if ap.cursor != n {
      var next := m.(pane := Step(ap, i, n));
      var key := MultiKey(if ap.cursor > n then UP else DOWN, next.pane);
      assert Press(m, i, n, key.key) == next;
      MovesRun(next, i, n);
      var rest := Moves(next.pane, i, n);
      EndOfCons(ap, key, rest);
      assert ([key] + rest)[1..] == rest;
    }
  }

  lemma {:induction false} ErasesRun(m: Menu, i: nat, n: nat)
    requires Rendered(m, i, n) && n + 1 <= 9 && m.pane.editing
    ensures var keys := Erases(m.pane, i, n, m.field);
            && Runs(m, i, n, keys) && RunEnd(m, i, n, keys) == Menu(End(m.pane, keys), "")
            && Rendered(RunEnd(m, i, n, keys), i, n)
    decreases |m.field|
  {
    var ap := m.pane;
    if m.field != "" {
      var shorter := m.field[..|m.field| - 1];
      var next := Menu(Erased(ap, i, n, shorter), shorter);
      var key := MultiKey(BSPACE, next.pane);
      assert Press(m, i, n, BSPACE) == next;
      ErasesRun(next, i, n);
      var rest := Erases(next.pane, i, n, shorter);
      EndOfCons(ap, key, rest);
      assert ([key] + rest)[1..] == rest;
    }
  }

  // Typing into the editor and leaving it upwards does what the plan says just when the
  // editor was empty.
  lemma RetypesRun(m: Menu, i: nat, n: nat, text: string)
    requires Rendered(m, i, n) && 1 <= n <= 8 && m.pane.editing && text != ""
    ensures m.field == "" <==> Runs(m, i, n, Retypes(m.pane, i, n, text))
    ensures m.field == "" ==>
              RunEnd(m, i, n, Retypes(m.pane, i, n, text)) == Menu(Left(Typed(m.pane, i, n, text), i), text)
  {
    var keys := Retypes(m.pane, i, n, text);
    var typed := Press(m, i, n, Text(text));
    assert typed == Edited(m, i, n, m.field + text, true);
    assert keys[0].key == Text(text) && keys[0].after == Typed(m.pane, i, n, text);
    assert typed.pane.options[n] == Shown(m.field + text);
    assert keys[0].after.options[n] == text;
    if m.field == "" {
      assert m.field + text == text;
      assert typed == Menu(Typed(m.pane, i, n, text), text);
      assert !typed.pane.continueFocused;
      var left := Press(typed, i, n, UP);
      assert left == Menu(Left(typed.pane, i), text);
      var last := keys[1..];
      assert last == [MultiKey(UP, left.pane)];
      assert last[1..] == [];
      assert RunEnd(typed, i, n, last) == RunEnd(left, i, n, []);
      assert Runs(typed, i, n, last);
    }
  }

  // The two situations in which the screen hides what the keys will do: the chat row, which a
  // capture cannot tell from a row it may leave for Other in one step, and typed text that
  // looks like the empty field.
  predicate Misleading(m: Menu, n: nat, p: Pick)
    requires |m.pane.options| > n
  {
    Typing(m.pane, n, p) && (OnChat(m.pane, n) || m.field == PLACEHOLDER)
  }

  /** The plan predicts every screen exactly when the menu is not Misleading. */
  lemma PlanSimulatesMenu(m: Menu, i: nat, n: nat, p: Pick)
    requires Rendered(m, i, n) && 1 <= n <= 8 && !m.pane.editing
    ensures Runs(m, i, n, Edits(m.pane, i, n, p)) <==> !Misleading(m, n, p)
    ensures !Misleading(m, n, p) && Typing(m.pane, n, p) ==> RunEnd(m, i, n, Edits(m.pane, i, n, p)).field == p.text
    ensures !Typing(m.pane, n, p) ==> RunEnd(m, i, n, Edits(m.pane, i, n, p)).field == m.field
    ensures !Misleading(m, n, p) ==>
              RunEnd(m, i, n, Edits(m.pane, i, n, p)).pane == End(m.pane, Edits(m.pane, i, n, p))
  {
    var typing := Typing(m.pane, n, p);
    var toggles := Toggles(m.pane, i, Want(n, p), typing, 0);
    TogglesRun(m, i, n, Want(n, p), typing, 0);
    TogglesKeepSize(m.pane, i, Want(n, p), typing, 0);
    if typing {
      TypingPartRuns(m.(pane := End(m.pane, toggles)), i, n, p);
      var a := End(m.pane, toggles);
      RunsInParts(m, i, n, toggles, TypingPart(a, i, n, p.text));
      assert Edits(m.pane, i, n, p) == toggles + TypingPart(a, i, n, p.text);
      assert TypingPart(a, i, n, p.text) != [];
    }
  }

  /** And then it leaves the wanted text in Other, unless that text is the placeholder and Other is empty:
      the menu looks as if it held it, so nothing is typed. */
  lemma PlanLeavesTextIff(m: Menu, i: nat, n: nat, p: Pick)
    requires Rendered(m, i, n) && 1 <= n <= 8 && !m.pane.editing
    requires p.text != "" && !Misleading(m, n, p)
    ensures RunEnd(m, i, n, Edits(m.pane, i, n, p)).field == p.text <==> !(m.field == "" && p.text == PLACEHOLDER)
  {
    hide Edits, RunEnd, Misleading;
    PlanSimulatesMenu(m, i, n, p);
  }

  lemma TypingPartRuns(m: Menu, i: nat, n: nat, p: Pick)
    requires Rendered(m, i, n) && 1 <= n <= 8 && !m.pane.editing && Typing(m.pane, n, p)
    ensures Runs(m, i, n, TypingPart(m.pane, i, n, p.text)) <==> !Misleading(m, n, p)
    ensures !Misleading(m, n, p) ==>
              RunEnd(m, i, n, TypingPart(m.pane, i, n, p.text))
              == Menu(End(m.pane, TypingPart(m.pane, i, n, p.text)), p.text)
  {
    var moves := Moves(m.pane, i, n);
    MovesKeepSize(m.pane, i, n);
    var b := End(m.pane, moves);
    var erases := Erases(b, i, n, Prior(b, n));
    ErasesKeepSize(b, i, n, Prior(b, n));
    var retypes := Retypes(End(b, erases), i, n, p.text);
    assert TypingPart(m.pane, i, n, p.text) == moves + (erases + retypes);
    RunsInParts(m, i, n, moves, erases + retypes);
    if OnChat(m.pane, n) {
      assert moves[0].key == UP && moves[0].after.cursor == n;
      assert Press(m, i, n, UP).pane.cursor == n + 1;
      assert !Runs(m, i, n, moves);
    } else {
      MovesRun(m, i, n);
      var mb := m.(pane := b);
      RunsInParts(mb, i, n, erases, retypes);
      if m.field == PLACEHOLDER {
        assert erases == [];
        RetypesRun(mb, i, n, p.text);
      } else {
        assert Prior(b, n) == m.field;
        ErasesRun(mb, i, n);
        RetypesRun(Menu(End(b, erases), ""), i, n, p.text);
      }
    }
  }

  // The rows whose box differs from the wanted one and that a digit sets right.
  function Differing(checked: seq<bool>, want: seq<bool>, skipOther: bool, row: nat): set<int>
    requires |checked| == |want|
  {
    set k: int | row <= k < |want| && Differs(checked, want, skipOther, k)
  }

  predicate Differs(checked: seq<bool>, want: seq<bool>, skipOther: bool, k: int)
    requires 0 <= k < |checked| == |want|
  {
    checked[k] != want[k] && !(skipOther && k == |want| - 1)
  }

  lemma DifferingStep(checked: seq<bool>, want: seq<bool>, skipOther: bool, row: nat)
    requires row < |checked| == |want|
    ensures var d := Differing(checked, want, skipOther, row);
            var rest := Differing(checked, want, skipOther, row + 1);
            d == if Differs(checked, want, skipOther, row) then {row} + rest else rest
    ensures Differing(checked, want, skipOther, row + 1) == Differing(checked[row := want[row]], want, skipOther, row + 1)
  {
    var d := Differing(checked, want, skipOther, row);
    var rest := Differing(checked, want, skipOther, row + 1);
    if Differs(checked, want, skipOther, row) {
      assert d == {row} + rest;
    } else {
      assert d == rest;
    }
  }

  predicate KeysOf(keys: seq<MultiKey>, rows: seq<nat>) {
    |keys| == |rows| && forall j :: 0 <= j < |rows| ==> rows[j] < 9 && keys[j].key == Text(Digit(rows[j] + 1))
  }

  predicate Rising(rows: seq<nat>) {
    forall j, k :: 0 <= j < k < |rows| ==> rows[j] < rows[k]
  }

  ghost predicate RowsOf(rows: seq<nat>, differing: set<int>) {
    forall r: nat :: r in rows <==> r in differing
  }

  // The keys are the digits of the rows, top to bottom, and the rows those that differ.
  ghost predicate DigitsOf(keys: seq<MultiKey>, rows: seq<nat>, differing: set<int>) {
    KeysOf(keys, rows) && |rows| == |differing| && Rising(rows) && RowsOf(rows, differing)
  }

  lemma {:induction false} MoreDigits(key: MultiKey, keys: seq<MultiKey>, row: nat, rows: seq<nat>, less: set<int>, more: set<int>)
    requires DigitsOf(keys, rows, less) && row < 9 && key.key == Text(Digit(row + 1))
    requires row !in less && more == {row} + less && forall r :: r in less ==> r > row
    ensures DigitsOf([key] + keys, [row] + rows, more)
  {
    hide Digit, KeysOf, RowsOf, Rising;
    MoreKeys(key, keys, row, rows);
    MoreRows(row, rows, less);
    forall j | 0 <= j < |rows| ensures rows[j] > row {
      InRows(rows, less, j);
    }
    MoreRising(row, rows);
  }

  lemma {:induction false} InRows(rows: seq<nat>, differing: set<int>, j: nat)
    requires RowsOf(rows, differing) && j < |rows|
    ensures rows[j] in differing
  {
  }

  lemma {:induction false} MoreKeys(key: MultiKey, keys: seq<MultiKey>, row: nat, rows: seq<nat>)
    requires KeysOf(keys, rows) && row < 9 && key.key == Text(Digit(row + 1))
    ensures KeysOf([key] + keys, [row] + rows)
  {
    hide Digit;
  }

  lemma {:induction false} MoreRows(row: nat, rows: seq<nat>, less: set<int>)
    requires RowsOf(rows, less)
    ensures RowsOf([row] + rows, {row} + less)
  {
  }

  lemma {:induction false} MoreRising(row: nat, rows: seq<nat>)
    requires Rising(rows) && forall j :: 0 <= j < |rows| ==> rows[j] > row
    ensures Rising([row] + rows)
  {
  }

  lemma {:induction false} OneDigitPerRow(ap: Pane, i: nat, want: seq<bool>, skipOther: bool, row: nat) returns (rows: seq<nat>)
    requires i < |ap.tabs| && row <= |ap.checked| == |want| <= 9
    ensures DigitsOf(Toggles(ap, i, want, skipOther, row), rows, Differing(ap.checked, want, skipOther, row))
    decreases |want| - row
  {
    if row == |want| {
      rows := [];
      assert Differing(ap.checked, want, skipOther, row) == {};
    } else {
      DifferingStep(ap.checked, want, skipOther, row);
      if (skipOther && row == |want| - 1) || ap.checked[row] == want[row] {
        rows := OneDigitPerRow(ap, i, want, skipOther, row + 1);
      } else {
        assert want[row] == !ap.checked[row];
        var next := Toggled(ap, i, row);
        rows := OneDigitPerRow(next, i, want, skipOther, row + 1);
        MoreDigits(MultiKey(Text(Digit(row + 1)), next), Toggles(next, i, want, skipOther, row + 1), row, rows,
                   Differing(ap.checked, want, skipOther, row + 1), Differing(ap.checked, want, skipOther, row));
        rows := [row] + rows;
      }
    }
  }

  /** The plan's length: one digit per box to change, and when Other is retyped the way to it,
      one erasure per character it holds, the text and the way out; then Right. */
  lemma PlanLength(ap: Pane, i: nat, n: nat, p: Pick)
    requires Sized(ap, i, n)
    ensures |Edits(ap, i, n, p)|
            == |Differing(ap.checked, Want(n, p), Typing(ap, n, p), 0)|
               + if Typing(ap, n, p) then Distance(ap, n) + |Prior(ap, n)| + 2 else 0
  {
    hide Any, Remark, Digit, Toggles, Differing, Moves, Erases;
    var typing := Typing(ap, n, p);
    var rows := OneDigitPerRow(ap, i, Want(n, p), typing, 0);
    TogglesKeepSize(ap, i, Want(n, p), typing, 0);
    if typing {
      var a := End(ap, Toggles(ap, i, Want(n, p), typing, 0));
      MovesKeepSize(a, i, n);
      var b := End(a, Moves(a, i, n));
      ErasesKeepSize(b, i, n, Prior(b, n));
    }
  }

  // Exactly the rows picked are checked, and Other exactly with a text.
  predicate Holds(checked: seq<bool>, n: nat, p: Pick) {
    && |checked| == n + 1
    && (forall row :: 1 <= row <= n ==> (checked[row - 1] <==> row in p.rows))
    && (checked[n] <==> p.text != "")
  }

  lemma WantHolds(n: nat, p: Pick)
    ensures Holds(Want(n, p), n, p)
  {
  }

  /** The plan ends with exactly the rows picked checked, Other exactly with a text, and showing it. */
  lemma PlanReachesPick(ap: Pane, i: nat, n: nat, p: Pick)
    requires Sized(ap, i, n)
    ensures var e := End(ap, Edits(ap, i, n, p));
            && |e.checked| == n + 1
            && (forall row :: 1 <= row <= n ==> (e.checked[row - 1] <==> row in p.rows))
            && (e.checked[n] <==> p.text != "")
            && |e.options| == |ap.options|
            && (p.text != "" ==> e.options[n] == p.text)
            && e.options[..n] == ap.options[..n]
  {
    hide Edits, End, Want;
    PlanReachesWant(ap, i, n, p);
    WantHolds(n, p);
  }

  /** Played on the menu itself, the plan leaves exactly the rows picked checked, and Other exactly when
      there is a text. */
  lemma MenuHoldsPick(m: Menu, i: nat, n: nat, p: Pick)
    requires Rendered(m, i, n) && 1 <= n <= 8 && !m.pane.editing && !Misleading(m, n, p)
    ensures Holds(RunEnd(m, i, n, Edits(m.pane, i, n, p)).pane.checked, n, p)
  {
    hide Edits, RunEnd, Misleading, End;
    PlanSimulatesMenu(m, i, n, p);
    PlanReachesPick(m.pane, i, n, p);
  }

  lemma PlanReachesWant(ap: Pane, i: nat, n: nat, p: Pick)
    requires Sized(ap, i, n)
    ensures var e := End(ap, Edits(ap, i, n, p));
            && e.checked == Want(n, p)
            && |e.options| == |ap.options|
            && (p.text != "" ==> e.options[n] == p.text)
            && e.options[..n] == ap.options[..n]
  {
    hide Any, Remark, Toggles, Moves, Erases, Erased, Digit, Distance;
    var typing := Typing(ap, n, p);
    var toggles := Toggles(ap, i, Want(n, p), typing, 0);
    TogglesKeepSize(ap, i, Want(n, p), typing, 0);
    if typing {
      var a := End(ap, toggles);
      MovesKeepSize(a, i, n);
      var b := End(a, Moves(a, i, n));
      ErasesKeepSize(b, i, n, Prior(b, n));
      var c := End(b, Erases(b, i, n, Prior(b, n)));
      ErasesKeepOptions(b, i, n, Prior(b, n));
      assert forall k :: 0 <= k < n ==> c.checked[k] == Want(n, p)[k];
      LeftTyped(c, i, n, p);
    }
  }

  // Typing the text and leaving the row.
  lemma LeftTyped(c: Pane, i: nat, n: nat, p: Pick)
    requires Sized(c, i, n) && p.text != "" && forall k :: 0 <= k < n ==> c.checked[k] == Want(n, p)[k]
    ensures var e := Left(Typed(c, i, n, p.text), i);
            e.checked == Want(n, p) && |e.options| == |c.options| && e.options[n] == p.text && e.options[..n] == c.options[..n]
  {
    hide Any;
  }

  lemma {:induction false} ErasesKeepOptions(ap: Pane, i: nat, n: nat, left: string)
    requires i < |ap.tabs| && n < |ap.checked| && n < |ap.options|
    ensures |End(ap, Erases(ap, i, n, left)).options| == |ap.options|
    ensures End(ap, Erases(ap, i, n, left)).options[..n] == ap.options[..n]
    decreases |left|
  {
    ErasesKeepSize(ap, i, n, left);
    if left != "" {
      var shorter := left[..|left| - 1];
      var next := Erased(ap, i, n, shorter);
      ErasesKeepOptions(next, i, n, shorter);
      EndOfCons(ap, MultiKey(BSPACE, next), Erases(next, i, n, shorter));
    }
  }

  // The same question's page: only boxes, tabs, cursor and the text of row n can differ.
  predicate KeepsPage(ap: Pane, n: nat, e: Pane) {
    && e.review == ap.review && e.question == ap.question && |e.options| == |ap.options|
    && forall k :: 0 <= k < |e.options| && k != n ==> e.options[k] == ap.options[k]
  }

  ghost predicate SamePage(ap: Pane, n: nat, keys: seq<MultiKey>) {
    forall j :: 0 <= j < |keys| ==> KeepsPage(ap, n, keys[j].after)
  }

  lemma NoPages(ap: Pane, n: nat)
    ensures SamePage(ap, n, [])
  {
  }

  lemma MorePages(ap: Pane, n: nat, key: MultiKey, keys: seq<MultiKey>)
    requires KeepsPage(ap, n, key.after) && SamePage(key.after, n, keys)
    ensures SamePage(ap, n, [key] + keys)
  {
  }

  lemma {:induction false} TogglesKeepPage(ap: Pane, i: nat, n: nat, want: seq<bool>, skipOther: bool, row: nat)
    requires i < |ap.tabs| && row <= |ap.checked| == |want| <= 9
    ensures SamePage(ap, n, Toggles(ap, i, want, skipOther, row))
    decreases |want| - row
  {
    hide Any, Remark, Digit, SamePage;
    if row == |want| {
      NoPages(ap, n);
    } else if (skipOther && row == |want| - 1) || ap.checked[row] == want[row] {
      TogglesKeepPage(ap, i, n, want, skipOther, row + 1);
    } else {
      var next := Toggled(ap, i, row);
      TogglesKeepPage(next, i, n, want, skipOther, row + 1);
      MorePages(ap, n, MultiKey(Text(Digit(row + 1)), next), Toggles(next, i, want, skipOther, row + 1));
    }
  }

  lemma {:induction false} MovesKeepPage(ap: Pane, i: nat, n: nat)
    requires i < |ap.tabs|
    ensures SamePage(ap, n, Moves(ap, i, n))
    decreases Distance(ap, n)
  {
    if ap.cursor != n {
      MovesKeepPage(Step(ap, i, n), i, n);
    }
  }

  lemma {:induction false} ErasesKeepPage(ap: Pane, i: nat, n: nat, left: string)
    requires i < |ap.tabs| && n < |ap.checked| && n < |ap.options|
    ensures SamePage(ap, n, Erases(ap, i, n, left))
    decreases |left|
  {
    if left != "" {
      var shorter := left[..|left| - 1];
      ErasesKeepPage(Erased(ap, i, n, shorter), i, n, shorter);
    }
  }

  // Every predicted menu is still the same page.
  lemma EditsKeepPage(ap: Pane, i: nat, n: nat, p: Pick)
    requires Sized(ap, i, n)
    ensures SamePage(ap, n, Edits(ap, i, n, p))
  {
    hide Any, Toggles, Moves, Erases;
    var typing := Typing(ap, n, p);
    TogglesKeepPage(ap, i, n, Want(n, p), typing, 0);
    TogglesKeepSize(ap, i, Want(n, p), typing, 0);
    if typing {
      var a := End(ap, Toggles(ap, i, Want(n, p), typing, 0));
      MovesKeepPage(a, i, n);
      MovesKeepSize(a, i, n);
      var b := End(a, Moves(a, i, n));
      ErasesKeepPage(b, i, n, Prior(b, n));
      ErasesKeepSize(b, i, n, Prior(b, n));
    }
  }

  lemma PlanKeepsPage(ap: Pane, i: nat, n: nat, p: Pick, j: nat)
    requires Sized(ap, i, n) && j < |Plan(ap, i, n, p)|
    ensures KeepsPage(ap, n, End(ap, Plan(ap, i, n, p)[..j]))
  {
    hide Edits;
    EditsKeepPage(ap, i, n, p);
    assert j > 0 ==> Plan(ap, i, n, p)[..j][j - 1] == Edits(ap, i, n, p)[j - 1];
  }

  // The last key carries no prediction: the caller checks the page it reaches.
  const BLANK := Pane(false, [], "", false, [], false, false, false, "", [], 0, [])

  function Plan(ap: Pane, i: nat, n: nat, p: Pick): seq<MultiKey>
    requires Sized(ap, i, n)
  {
    Edits(ap, i, n, p) + [MultiKey(RIGHT, BLANK)]
  }

  // No key but Right leaves a multi-select page.
  ghost predicate Stays(keys: seq<MultiKey>) {
    forall k :: 0 <= k < |keys| ==> keys[k].key !in {LEFT, RIGHT, Enter}
  }

  lemma {:induction false} TogglesStay(ap: Pane, i: nat, want: seq<bool>, skipOther: bool, row: nat)
    requires i < |ap.tabs| && row <= |ap.checked| == |want| <= 9
    ensures Stays(Toggles(ap, i, want, skipOther, row))
    decreases |want| - row
  {
    if row < |want| {
      TogglesStay(ap, i, want, skipOther, row + 1);
      TogglesStay(Toggled(ap, i, row), i, want, skipOther, row + 1);
    }
  }

  lemma {:induction false} MovesStay(ap: Pane, i: nat, n: nat)
    requires i < |ap.tabs|
    ensures Stays(Moves(ap, i, n))
    decreases Distance(ap, n)
  {
    if ap.cursor != n {
      MovesStay(Step(ap, i, n), i, n);
    }
  }

  lemma {:induction false} ErasesStay(ap: Pane, i: nat, n: nat, left: string)
    requires i < |ap.tabs| && n < |ap.checked| && n < |ap.options|
    ensures Stays(Erases(ap, i, n, left))
    decreases |left|
  {
    if left != "" {
      ErasesStay(Erased(ap, i, n, left[..|left| - 1]), i, n, left[..|left| - 1]);
    }
  }

  // The plan ends with the one key that leaves the page.
  lemma PlanLeavesLast(ap: Pane, i: nat, n: nat, p: Pick, k: nat)
    requires Sized(ap, i, n) && k < |Plan(ap, i, n, p)|
    ensures Plan(ap, i, n, p)[k].key == RIGHT <==> k == |Plan(ap, i, n, p)| - 1
    ensures Plan(ap, i, n, p)[k].key !in {LEFT, Enter}
  {
    hide Toggles, Moves, Erases, Want, Prior, End;
    var typing := Typing(ap, n, p);
    TogglesStay(ap, i, Want(n, p), typing, 0);
    TogglesKeepSize(ap, i, Want(n, p), typing, 0);
    if typing {
      var a := End(ap, Toggles(ap, i, Want(n, p), typing, 0));
      MovesKeepSize(a, i, n);
      MovesStay(a, i, n);
      var b := End(a, Moves(a, i, n));
      ErasesStay(b, i, n, Prior(b, n));
      ErasesKeepSize(b, i, n, Prior(b, n));
    }
    assert Stays(Edits(ap, i, n, p));
  }

  lemma Regroup(done: seq<MultiKey>, key: MultiKey, rest: seq<MultiKey>)
    ensures done + ([key] + rest) == (done + [key]) + rest
  {
  }

  // The three loops of the planner, each continuing keys from the copy ap of the menu.
  method ToggleRows(ap0: Pane, i: nat, want: seq<bool>, typing: bool, keys0: seq<MultiKey>)
    returns (ap: Pane, keys: seq<MultiKey>)
    requires i < |ap0.tabs| && |ap0.checked| == |want| <= 9 && want != []
    ensures keys == keys0 + Toggles(ap0, i, want, typing, 0)
    ensures ap == End(ap0, Toggles(ap0, i, want, typing, 0))
  {
    ap, keys := ap0, keys0;
    ghost var done: seq<MultiKey> := [];
    for row := 0 to |want|
      invariant i < |ap.tabs| && |ap.checked| == |want|
      invariant ap == End(ap0, done) && keys == keys0 + done
      invariant done + Toggles(ap, i, want, typing, row) == Toggles(ap0, i, want, typing, 0)
    {
      if row == |want| - 1 && typing {
        continue;
      }
      if ap.checked[row] != want[row] {
        ghost var before := ap;
        ap := Remark(ap.(checked := ap.checked[row := want[row]]), i);
        assert ap == Toggled(before, i, row);
        Regroup(done, MultiKey(Text(Digit(row + 1)), ap), Toggles(ap, i, want, typing, row + 1));
        keys := keys + [MultiKey(Text(Digit(row + 1)), ap)];
        done := done + [MultiKey(Text(Digit(row + 1)), ap)];
      }
    }
  }

  method MoveToOther(ap0: Pane, i: nat, n: nat, keys0: seq<MultiKey>) returns (ap: Pane, keys: seq<MultiKey>)
    requires i < |ap0.tabs|
    ensures keys == keys0 + Moves(ap0, i, n)
    ensures ap == End(ap0, Moves(ap0, i, n))
  {
    hide Any, Remark;
    ap, keys := ap0, keys0;
    ghost var done: seq<MultiKey> := [];
    while ap.cursor != n
      invariant i < |ap.tabs| && ap == End(ap0, done) && keys == keys0 + done
      invariant done + Moves(ap, i, n) == Moves(ap0, i, n)
      decreases Distance(ap, n)
    {
      ghost var before := ap;
      var key := DOWN;
      var cursor := ap.cursor + 1;
      if ap.cursor > n {
        key := UP;
        cursor := ap.cursor - 1;
      }
      ap := Remark(ap.(cursor := cursor, continueFocused := false, editing := cursor == n), i);
      assert ap == Step(before, i, n);
      Regroup(done, MultiKey(key, ap), Moves(ap, i, n));
      keys := keys + [MultiKey(key, ap)];
      done := done + [MultiKey(key, ap)];
    }
  }

  lemma ErasesStep(ap: Pane, i: nat, n: nat, left: string)
    requires Sized(ap, i, n)
    ensures left == "" ==> Erases(ap, i, n, left) == []
    ensures left != "" ==>
              var shorter := left[..|left| - 1];
              var next := Erased(ap, i, n, shorter);
              Erases(ap, i, n, left) == [MultiKey(BSPACE, next)] + Erases(next, i, n, shorter)
  {
    hide Any, Remark;
  }

  method EraseOther(ap0: Pane, i: nat, n: nat, prior: string, keys0: seq<MultiKey>)
    returns (ap: Pane, keys: seq<MultiKey>)
    requires Sized(ap0, i, n)
    ensures keys == keys0 + Erases(ap0, i, n, prior)
    ensures ap == End(ap0, Erases(ap0, i, n, prior))
  {
    hide Any, Remark, Erases;
    ap, keys := ap0, keys0;
    ghost var done: seq<MultiKey> := [];
    var left := prior;
    while left != ""
      invariant Sized(ap, i, n) && ap == End(ap0, done) && keys == keys0 + done
      invariant done + Erases(ap, i, n, left) == Erases(ap0, i, n, prior)
      decreases |left|
    {
      ghost var before := ap;
      ErasesStep(ap, i, n, left);
      left := left[..|left| - 1];
      ap := ap.(options := ap.options[n := left], checked := ap.checked[n := left != ""]);
      if left == "" {
        ap := ap.(options := ap.options[n := PLACEHOLDER]);
      }
      assert ap.options == before.options[n := Shown(left)];
      ap := Remark(ap, i);
      assert ap == Erased(before, i, n, left);
      Regroup(done, MultiKey(BSPACE, ap), Erases(ap, i, n, left));
      keys := keys + [MultiKey(BSPACE, ap)];
      done := done + [MultiKey(BSPACE, ap)];
    }
    ErasesStep(ap, i, n, left);
  }

  method RetypeOther(ap0: Pane, i: nat, n: nat, text: string, prior: string, keys0: seq<MultiKey>)
    returns (keys: seq<MultiKey>)
    requires Sized(ap0, i, n) && prior == Prior(ap0, n)
    ensures keys == keys0 + TypingPart(ap0, i, n, text)
  {
    hide Any, Remark, Moves, Erases;
    MovesKeepSize(ap0, i, n);
    var ap;
    ap, keys := MoveToOther(ap0, i, n, keys0);
    ErasesKeepSize(ap, i, n, prior);
    ghost var moves, erases := Moves(ap0, i, n), Erases(ap, i, n, prior);
    ap, keys := EraseOther(ap, i, n, prior, keys);
    assert keys == keys0 + (moves + erases);
    ghost var retypes := Retypes(ap, i, n, text);
    ap := Remark(ap.(options := ap.options[n := text], checked := ap.checked[n := true]), i);
    var typed := MultiKey(Text(text), ap);
    ap := Remark(ap.(cursor := ap.cursor - 1, editing := false), i);
    keys := keys + [typed, MultiKey(UP, ap)];
    assert retypes == [typed, MultiKey(UP, ap)];
    assert TypingPart(ap0, i, n, text) == (moves + erases) + retypes;
  }

  method MultiSelectKeys(fold: string -> string, ask: seq<Question>, i: nat, live: Pane, p: Pick)
    returns (r: PlanResult)
    ensures r.Planned? <==> Plannable(fold, ask, i, live, p)
    ensures r.Planned? ==> r.keys == Plan(live, i, |ask[i].labels|, p)
    ensures r.Planned? ==> ValidMultiPick(ask[i], p) && live.multiSelect && !live.editing && Focus(fold, live, ask) == i
                           && 0 <= live.cursor <= |ask[i].labels| + 1
                           && var held := live.options[|ask[i].labels|];
                           (p.text == "" || held == p.text || |held| <= 200)
  {
    if !Fresh(fold, ask, i, live, p) {
      return Refused;
    }
    var n := |ask[i].labels|;
    var typing := p.text != "" && live.options[n] != p.text;
    TogglesKeepSize(live, i, Want(n, p), typing, 0);
    var ap, keys := ToggleRows(live, i, Want(n, p), typing, []);
    assert keys == Toggles(live, i, Want(n, p), typing, 0);
    if typing {
      var prior := if ap.options[n] == PLACEHOLDER then "" else ap.options[n];
      if |prior| > MAX_ERASE {
        return Refused;
      }
      keys := RetypeOther(ap, i, n, p.text, prior, keys);
    }
    return Planned(keys + [MultiKey(RIGHT, BLANK)]);
  }
}
