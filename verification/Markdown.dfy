/** The escape-first markdown of agent replies: escaping, nested lists, and the blocks of prose
    (web/markdown.js). */
module Markdown {
  import opened Messages

  // ------------------------------------------------------------------ escaping

  function EscChar(c: char): string {
    match c
    case '&' => "&amp;"
    case '<' => "&lt;"
    case '>' => "&gt;"
    case '"' => "&quot;"
    case '\'' => "&#39;"
    case _ => [c]
  }

  function Esc(s: string): string {
    if s == "" then "" else EscChar(s[0]) + Esc(s[1..])
  }

  // Reads the references back.
  function Unesc(t: string): string
    decreases |t|
  {
    if t == "" then ""
    else if "&amp;" <= t then "&" + Unesc(t[5..])
    else if "&lt;" <= t then "<" + Unesc(t[4..])
    else if "&gt;" <= t then ">" + Unesc(t[4..])
    else if "&quot;" <= t then "\"" + Unesc(t[6..])
    else if "&#39;" <= t then "'" + Unesc(t[5..])
    else [t[0]] + Unesc(t[1..])
  }

  lemma {:induction false} UnescHead(c: char, t: string)
    ensures Unesc(EscChar(c) + t) == [c] + Unesc(t)
  {
    var e := EscChar(c);
    assert (e + t)[|e|..] == t && e <= e + t;
    if c == '<' || c == '>' || c == '"' || c == '\'' {
      assert (e + t)[1] == e[1];
      Differs("&amp;", e + t, 1);
      if c != '<' {
        Differs("&lt;", e + t, 1);
        if c != '>' {
          Differs("&gt;", e + t, 1);
          if c != '"' {
            Differs("&quot;", e + t, 1);
          }
        }
      }
    } else if c != '&' {
      assert (e + t)[0] == c;
      Differs("&amp;", e + t, 0);
      Differs("&lt;", e + t, 0);
      Differs("&gt;", e + t, 0);
      Differs("&quot;", e + t, 0);
      Differs("&#39;", e + t, 0);
    }
  }

  lemma {:induction false} Differs(p: string, t: string, i: nat)
    requires i < |p| && (i < |t| ==> p[i] != t[i])
    ensures !(p <= t)
  {
  }

  // Escaped text holds no character that could open a tag or end an attribute.
  predicate Inert(t: string) {
    forall i :: 0 <= i < |t| ==> t[i] != '<' && t[i] != '>' && t[i] != '"' && t[i] != '\''
  }

  lemma {:induction false} InertHead(c: char, t: string)
    requires Inert(t)
    ensures Inert(EscChar(c) + t)
  {
    assert Inert(EscChar(c));
  }

  /** Escaping is reversible, so no two texts look alike, and what it yields carries no markup. */
  lemma {:induction false} EscapingIsSafe(s: string)
    ensures Unesc(Esc(s)) == s && Inert(Esc(s))
    decreases |s|
  {
    if s != "" {
      hide Unesc, Inert;
      EscapingIsSafe(s[1..]);
      UnescHead(s[0], Esc(s[1..]));
      InertHead(s[0], Esc(s[1..]));
      assert [s[0]] + s[1..] == s;
    } else {
      assert Unesc("") == "";
    }
  }

  // ------------------------------------------------------------------ lists

  datatype Tag = Ul | Ol

  datatype Item = Item(indent: nat, tag: Tag, text: string)

  // The pieces of a list's HTML; the text of an item stands for its inline form.
  datatype Tok = Open(tag: Tag) | Close(tag: Tag) | OpenLi | CloseLi | Words(text: string)

  // An open list: its indent and tag.
  datatype Level = Level(indent: nat, tag: Tag)

  predicate Fits(l: Level, it: Item) {
    !(it.indent < l.indent || (it.indent == l.indent && it.tag != l.tag))
  }

  // The list as a machine with an explicit stack of open lists, innermost last. Next: an item was just
  // written and its <li> is open; Settle: that <li> has its child list, if any, and is to be closed;
  // Items: between two items of the innermost list.
  function Next(items: seq<Item>, pos: nat, open: seq<Level>, prev: nat): seq<Tok>
    requires pos <= |items| && open != []
    decreases |items| - pos, |open|, 2
  {
    if pos < |items| && items[pos].indent > prev then
      var it := items[pos];
      [Open(it.tag), OpenLi, Words(it.text)] + Next(items, pos + 1, open + [Level(it.indent, it.tag)], it.indent)
    else Settle(items, pos, open)
  }

  function Settle(items: seq<Item>, pos: nat, open: seq<Level>): seq<Tok>
    requires pos <= |items| && open != []
    decreases |items| - pos, |open|, 1
  {
    [CloseLi] + Items(items, pos, open)
  }

  function Items(items: seq<Item>, pos: nat, open: seq<Level>): seq<Tok>
    requires pos <= |items| && open != []
    decreases |items| - pos, |open|, 0
  {
    var inner := open[|open| - 1];
    if pos < |items| && Fits(inner, items[pos]) then
      [OpenLi, Words(items[pos].text)] + Next(items, pos + 1, open, items[pos].indent)
    else
      [Close(inner.tag)] + Outside(items, pos, open[..|open| - 1])
  }

  // A list was closed: on with the list around it, or with a new one.
  function Outside(items: seq<Item>, pos: nat, open: seq<Level>): seq<Tok>
    requires pos <= |items|
    decreases |items| - pos, |open|, 3
  {
    if open != [] then Settle(items, pos, open)
    else if pos == |items| then []
    else
      var it := items[pos];
      [Open(it.tag), OpenLi, Words(it.text)] + Next(items, pos + 1, [Level(it.indent, it.tag)], it.indent)
  }

  function Clamped(items: seq<Item>): seq<Item>
    requires items != []
  {
    seq(|items|, i requires 0 <= i < |items| =>
      if items[i].indent < items[0].indent then items[i].(indent := items[0].indent) else items[i])
  }

  function ListTokens(items: seq<Item>): seq<Tok>
    requires items != []
  {
    Outside(Clamped(items), 0, [])
  }

  // ------------------------------------------------------------------ what the output looks like

  // What is open: a list, or one of its items.
  datatype Frame = InList(tag: Tag) | InItem

  // Reading tokens against a stack of open elements: lists sit at the root or in an item, items in a
  // list, words in an item, and everything closes in order. None: badly nested.
  function Read(toks: seq<Tok>, stack: seq<Frame>): Option<seq<Frame>>
    decreases |toks|
  {
    if toks == [] then Some(stack)
    else
      var rest := toks[1..];
      match toks[0]
      case Open(tag) =>
        if stack == [] || stack[|stack| - 1].InItem? then Read(rest, stack + [InList(tag)]) else None
      case Close(tag) =>
        if stack != [] && stack[|stack| - 1] == InList(tag) then Read(rest, stack[..|stack| - 1]) else None
      case OpenLi =>
        if stack != [] && stack[|stack| - 1].InList? then Read(rest, stack + [InItem]) else None
      case CloseLi =>
        if stack != [] && stack[|stack| - 1].InItem? then Read(rest, stack[..|stack| - 1]) else None
      case Words(_) => if stack != [] && stack[|stack| - 1].InItem? then Read(rest, stack) else None
  }

  predicate WellNested(toks: seq<Tok>) {
    Read(toks, []) == Some([])
  }

  // The texts of the items, in the order they open; a list item that does not start with its words has none.
  function Texts(toks: seq<Tok>): seq<string> {
    if toks == [] then []
    else (if |toks| > 1 && toks[0].OpenLi? && toks[1].Words? then [toks[1].text] else []) + Texts(toks[1..])
  }

  function CountLi(toks: seq<Tok>): nat {
    if toks == [] then 0 else (if toks[0].OpenLi? then 1 else 0) + CountLi(toks[1..])
  }

  function TextsOf(items: seq<Item>): seq<string> {
    seq(|items|, i requires 0 <= i < |items| => items[i].text)
  }

  // The stack of elements while the innermost list's last item is open (inItem) or not.
  function Stack(open: seq<Level>, inItem: bool): seq<Frame> {
    if open == [] then []
    else Stack(open[..|open| - 1], true) + [InList(open[|open| - 1].tag)] + if inItem then [InItem] else []
  }

  ghost predicate Good(toks: seq<Tok>, stack: seq<Frame>, texts: seq<string>) {
    Read(toks, stack) == Some([]) && Texts(toks) == texts && CountLi(toks) == |texts|
  }

  lemma {:induction false} StackTop(open: seq<Level>)
    requires open != []
    ensures var inner, outer := open[|open| - 1], open[..|open| - 1];
            && Stack(open, false) == Stack(outer, true) + [InList(inner.tag)]
            && Stack(open, true) == Stack(open, false) + [InItem]
            && (outer == [] || Stack(outer, true)[|Stack(outer, true)| - 1] == InItem)
            && (outer == [] ==> Stack(outer, true) == [])
  {
  }

  lemma {:induction false} CloseLiStep(open: seq<Level>, rest: seq<Tok>, texts: seq<string>)
    requires open != [] && Good(rest, Stack(open, false), texts)
    ensures Good([CloseLi] + rest, Stack(open, true), texts)
  {
    StackTop(open);
    var toks := [CloseLi] + rest;
    assert toks[1..] == rest;
    hide Stack;
    assert Stack(open, true)[..|Stack(open, true)| - 1] == Stack(open, false);
  }

  lemma {:induction false} CloseListStep(open: seq<Level>, rest: seq<Tok>, texts: seq<string>)
    requires open != [] && Good(rest, Stack(open[..|open| - 1], true), texts)
    ensures Good([Close(open[|open| - 1].tag)] + rest, Stack(open, false), texts)
  {
    StackTop(open);
    var toks := [Close(open[|open| - 1].tag)] + rest;
    assert toks[1..] == rest;
    hide Stack;
    assert Stack(open, false)[..|Stack(open, false)| - 1] == Stack(open[..|open| - 1], true);
  }

  lemma {:induction false} ItemStep(open: seq<Level>, text: string, rest: seq<Tok>, texts: seq<string>)
    requires open != [] && Good(rest, Stack(open, true), texts)
    ensures Good([OpenLi, Words(text)] + rest, Stack(open, false), [text] + texts)
  {
    StackTop(open);
    var toks := [OpenLi, Words(text)] + rest;
    assert toks[1..] == [Words(text)] + rest && toks[1..][1..] == rest;
    hide Stack;
    assert toks[0] == OpenLi && toks[1] == Words(text) && toks[1..][0] == Words(text);
    assert Read(toks[1..], Stack(open, true)) == Read(rest, Stack(open, true));
    assert Texts(toks[1..]) == Texts(rest) && CountLi(toks[1..]) == CountLi(rest);
  }

  lemma {:induction false} OpenListStep(open: seq<Level>, l: Level, rest: seq<Tok>, texts: seq<string>)
    requires Good(rest, Stack(open + [l], false), texts)
    ensures Good([Open(l.tag)] + rest, Stack(open, true), texts)
  {
    var more := open + [l];
    assert more[..|more| - 1] == open;
    StackTop(more);
    var toks := [Open(l.tag)] + rest;
    assert toks[1..] == rest;
    hide Stack;
  }

  lemma {:induction false} TextsFrom(items: seq<Item>, pos: nat)
    requires pos < |items|
    ensures TextsOf(items[pos..]) == [items[pos].text] + TextsOf(items[pos + 1..])
  {
  }

  // Opening a list and writing its first item.
  lemma {:induction false} FirstItem(open: seq<Level>, it: Item, rest: seq<Tok>, texts: seq<string>)
    requires Good(rest, Stack(open + [Level(it.indent, it.tag)], true), texts)
    ensures Good([Open(it.tag), OpenLi, Words(it.text)] + rest, Stack(open, true), [it.text] + texts)
  {
    var l := Level(it.indent, it.tag);
    ItemStep(open + [l], it.text, rest, texts);
    OpenListStep(open, l, [OpenLi, Words(it.text)] + rest, [it.text] + texts);
    assert [Open(it.tag), OpenLi, Words(it.text)] + rest == [Open(it.tag)] + ([OpenLi, Words(it.text)] + rest);
    hide Good;
  }

  lemma {:induction false} NextIsGood(items: seq<Item>, pos: nat, open: seq<Level>, prev: nat)
    requires pos <= |items| && open != []
    ensures Good(Next(items, pos, open, prev), Stack(open, true), TextsOf(items[pos..]))
    decreases |items| - pos, |open|, 2
  {
    hide Good, Stack, TextsOf;
    if pos < |items| && items[pos].indent > prev {
      var it := items[pos];
      var more := open + [Level(it.indent, it.tag)];
      NextIsGood(items, pos + 1, more, it.indent);
      FirstItem(open, it, Next(items, pos + 1, more, it.indent), TextsOf(items[pos + 1..]));
      TextsFrom(items, pos);
    } else {
      SettleIsGood(items, pos, open);
    }
  }

  lemma {:induction false} SettleIsGood(items: seq<Item>, pos: nat, open: seq<Level>)
    requires pos <= |items| && open != []
    ensures Good(Settle(items, pos, open), Stack(open, true), TextsOf(items[pos..]))
    decreases |items| - pos, |open|, 1
  {
    hide Good, Stack, TextsOf, Items;
    ItemsIsGood(items, pos, open);
    CloseLiStep(open, Items(items, pos, open), TextsOf(items[pos..]));
  }

  lemma {:induction false} ItemsIsGood(items: seq<Item>, pos: nat, open: seq<Level>)
    requires pos <= |items| && open != []
    ensures Good(Items(items, pos, open), Stack(open, false), TextsOf(items[pos..]))
    decreases |items| - pos, |open|, 0
  {
    hide Good, Stack, TextsOf, Next, Outside;
    var inner := open[|open| - 1];
    if pos < |items| && Fits(inner, items[pos]) {
      var it := items[pos];
      NextIsGood(items, pos + 1, open, it.indent);
      ItemStep(open, it.text, Next(items, pos + 1, open, it.indent), TextsOf(items[pos + 1..]));
      TextsFrom(items, pos);
    } else {
      var outer := open[..|open| - 1];
      OutsideIsGood(items, pos, outer);
      CloseListStep(open, Outside(items, pos, outer), TextsOf(items[pos..]));
    }
  }

  lemma {:induction false} OutsideIsGood(items: seq<Item>, pos: nat, open: seq<Level>)
    requires pos <= |items|
    ensures Good(Outside(items, pos, open), Stack(open, true), TextsOf(items[pos..]))
    decreases |items| - pos, |open|, 3
  {
    if open != [] {
      hide Good, Stack, TextsOf, Settle;
      SettleIsGood(items, pos, open);
    } else if pos == |items| {
      assert items[pos..] == [];
    } else {
      hide Good, Stack, TextsOf, Next;
      var it := items[pos];
      var first := [Level(it.indent, it.tag)];
      assert [] + first == first;
      NextIsGood(items, pos + 1, first, it.indent);
      FirstItem([], it, Next(items, pos + 1, first, it.indent), TextsOf(items[pos + 1..]));
      TextsFrom(items, pos);
    }
  }

  /** For every item list, dedents below the first item and tag switches at any depth included, the
      output is well nested, with one <li> per item and the texts in source order. */
  lemma {:induction false} ListsAreWellNested(items: seq<Item>)
    requires items != []
    ensures var out := ListTokens(items);
            WellNested(out) && CountLi(out) == |items| && Texts(out) == TextsOf(items)
  {
    var clamped := Clamped(items);
    OutsideIsGood(clamped, 0, []);
    assert clamped[0..] == clamped;
    assert TextsOf(clamped) == TextsOf(items);
    assert Stack([], true) == [];
    hide Outside, Read, Texts, CountLi;
  }

  // ------------------------------------------------------------------ which list an item lands in

  // The tag of the innermost open list wherever an item opens.
  function ListTags(toks: seq<Tok>, stack: seq<Tag>): seq<Tag>
    decreases |toks|
  {
    if toks == [] then []
    else
      var rest := toks[1..];
      match toks[0]
      case Open(tag) => ListTags(rest, stack + [tag])
      case Close(_) => ListTags(rest, if stack == [] then [] else stack[..|stack| - 1])
      case OpenLi => (if stack == [] then [] else [stack[|stack| - 1]]) + ListTags(rest, stack)
      case _ => ListTags(rest, stack)
  }

  function LevelOf(it: Item): Level {
    Level(it.indent, it.tag)
  }

  // No item after the o-th, up to the k-th, ends a list that the o-th started.
  ghost predicate Lasts(items: seq<Item>, o: nat, k: nat)
    requires o <= k < |items|
  {
    forall m :: o < m <= k ==> Fits(LevelOf(items[o]), items[m])
  }

  // The k-th item starts a list: it is deeper than the item above it, or no list open there takes it.
  ghost predicate Opens(items: seq<Item>, k: nat)
    requires k < |items|
  {
    k == 0 || items[k].indent > items[k - 1].indent || forall o :: 0 <= o < k && Lasts(items, o, k) ==> !Opens(items, o)
  }

  // The o-th item started a list that the k-th has not ended.
  ghost predicate Holds(items: seq<Item>, o: nat, k: nat)
    requires o <= k < |items|
  {
    Opens(items, o) && Lasts(items, o, k)
  }

  // The item that started the list the k-th lands in: itself, or the last whose list takes it.
  ghost predicate IsHome(items: seq<Item>, o: nat, k: nat)
    requires k < |items|
  {
    if Opens(items, k) then o == k
    else o < k && Holds(items, o, k) && forall m :: o < m < k ==> !Holds(items, m, k)
  }

  lemma {:induction false} OnlyHome(items: seq<Item>, k: nat, a: nat, b: nat)
    requires k < |items| && IsHome(items, a, k) && IsHome(items, b, k)
    ensures a == b
  {
    hide Opens, Holds;
  }

  lemma {:induction false} HoldsStep(items: seq<Item>, o: nat, k: nat)
    requires o < k < |items|
    ensures Holds(items, o, k) <==> Holds(items, o, k - 1) && Fits(LevelOf(items[o]), items[k])
  {
    hide Opens, Fits;
  }

  lemma {:induction false} HoldsItself(items: seq<Item>, k: nat)
    requires k < |items|
    ensures Holds(items, k, k) <==> Opens(items, k)
  {
    hide Opens;
  }

  lemma {:induction false} HeldDeeper(items: seq<Item>, o: nat, k: nat)
    requires o <= k < |items| && Holds(items, o, k)
    ensures items[o].indent <= items[k].indent
  {
    hide Opens;
  }

  lemma {:induction false} OpensIff(items: seq<Item>, k: nat)
    requires k < |items|
    ensures Opens(items, k) <==>
            k == 0 || items[k].indent > items[k - 1].indent || forall o :: 0 <= o < k ==> !Holds(items, o, k)
  {
    hide Lasts;
    if Opens(items, k) && k > 0 && items[k].indent <= items[k - 1].indent {
      forall o | 0 <= o < k ensures !Holds(items, o, k) {
        assert Lasts(items, o, k) ==> !Opens(items, o);
      }
    } else if forall o :: 0 <= o < k ==> !Holds(items, o, k) {
      forall o | 0 <= o < k && Lasts(items, o, k) ensures !Opens(items, o) {
        assert !Holds(items, o, k);
      }
    }
  }

  // The starters of the open lists before the pos-th item is placed; the lists left out do not take it.
  ghost predicate Path(items: seq<Item>, pos: nat, os: seq<nat>)
    requires 0 < pos <= |items|
  {
    && (forall i :: 0 <= i < |os| ==> os[i] < pos && Holds(items, os[i], pos - 1))
    && (forall i, j :: 0 <= i < j < |os| ==> os[i] < os[j] && items[os[i]].indent < items[os[j]].indent)
    && (forall o :: 0 <= o < pos && Holds(items, o, pos - 1) && o !in os ==>
          pos < |items| && !Fits(LevelOf(items[o]), items[pos]))
  }

  // Every open list is on the path.
  ghost predicate FullPath(items: seq<Item>, pos: nat, os: seq<nat>)
    requires 0 < pos <= |items|
  {
    Path(items, pos, os) && forall o :: 0 <= o < pos && Holds(items, o, pos - 1) ==> o in os
  }

  function Levels(items: seq<Item>, os: seq<nat>): (open: seq<Level>)
    requires forall i :: 0 <= i < |os| ==> os[i] < |items|
    ensures |open| == |os|
  {
    seq(|os|, i requires 0 <= i < |os| => LevelOf(items[os[i]]))
  }

  function TagsOf(open: seq<Level>): seq<Tag> {
    seq(|open|, i requires 0 <= i < |open| => open[i].tag)
  }

  // A deeper item opens a list on top of all that are open.
  lemma {:induction false} Descend(items: seq<Item>, pos: nat, os: seq<nat>)
    requires 0 < pos < |items| && FullPath(items, pos, os) && items[pos].indent > items[pos - 1].indent
    ensures IsHome(items, pos, pos) && FullPath(items, pos + 1, os + [pos])
  {
    hide Opens, Holds;
    var more := os + [pos];
    OpensIff(items, pos);
    HoldsItself(items, pos);
    forall i | 0 <= i < |os| ensures items[os[i]].indent < items[pos].indent && Holds(items, os[i], pos) {
      HeldDeeper(items, os[i], pos - 1);
      HoldsStep(items, os[i], pos);
    }
    forall o | 0 <= o <= pos && Holds(items, o, pos) ensures o in more {
      if o < pos {
        HoldsStep(items, o, pos);
        assert o in os;
      }
    }
  }

  // An item that the innermost list left takes.
  lemma {:induction false} Join(items: seq<Item>, pos: nat, os: seq<nat>)
    requires 0 < pos < |items| && Path(items, pos, os) && os != []
    requires items[pos].indent <= items[pos - 1].indent && Fits(LevelOf(items[os[|os| - 1]]), items[pos])
    ensures IsHome(items, os[|os| - 1], pos) && FullPath(items, pos + 1, os)
  {
    hide Opens, Holds;
    var h := os[|os| - 1];
    HoldsStep(items, h, pos);
    OpensIff(items, pos);
    HoldsItself(items, pos);
    forall i | 0 <= i < |os| ensures Holds(items, os[i], pos) {
      HoldsStep(items, os[i], pos);
    }
    forall o | 0 <= o < pos && Holds(items, o, pos) ensures o in os {
      HoldsStep(items, o, pos);
    }
  }

  // A list that does not take the item is closed.
  lemma {:induction false} Leave(items: seq<Item>, pos: nat, os: seq<nat>)
    requires 0 < pos < |items| && Path(items, pos, os) && os != []
    requires !Fits(LevelOf(items[os[|os| - 1]]), items[pos])
    ensures Path(items, pos, os[..|os| - 1])
  {
    hide Opens, Holds;
    var left := os[..|os| - 1];
    forall o | o in os && o !in left ensures o == os[|os| - 1] {
    }
  }

  // No list takes the item.
  lemma {:induction false} Restart(items: seq<Item>, pos: nat)
    requires pos < |items| && (pos > 0 ==> Path(items, pos, []))
    ensures IsHome(items, pos, pos) && FullPath(items, pos + 1, [pos])
  {
    hide Opens, Holds;
    forall o | 0 <= o < pos ensures !Holds(items, o, pos) {
      HoldsStep(items, o, pos);
    }
    OpensIff(items, pos);
    HoldsItself(items, pos);
  }

  // The k-th item opens in the list it is at home in.
  ghost predicate HomeTag(items: seq<Item>, k: nat, t: Tag)
    requires k < |items|
  {
    exists o: nat :: IsHome(items, o, k) && t == items[o].tag
  }

  // So does every item from the pos-th on.
  ghost predicate AtHome(items: seq<Item>, pos: nat, tags: seq<Tag>) {
    pos + |tags| == |items| && forall i :: 0 <= i < |tags| ==> HomeTag(items, pos + i, tags[i])
  }

  lemma {:induction false} OneHome(items: seq<Item>, pos: nat, o: nat, tags: seq<Tag>)
    requires pos < |items| && IsHome(items, o, pos) && AtHome(items, pos + 1, tags)
    ensures AtHome(items, pos, [items[o].tag] + tags)
  {
    hide Opens, Holds, HomeTag;
    var all := [items[o].tag] + tags;
    HomeTagOf(items, pos, o);
    forall i | 0 < i < |all| ensures HomeTag(items, pos + i, all[i]) {
      assert all[i] == tags[i - 1] && HomeTag(items, pos + 1 + (i - 1), tags[i - 1]);
    }
  }

  lemma {:induction false} HomeTagOf(items: seq<Item>, k: nat, o: nat)
    requires k < |items| && IsHome(items, o, k)
    ensures HomeTag(items, k, items[o].tag)
  {
    hide Opens, Holds;
  }

  lemma {:induction false} TagOpenItem(t: Tag, text: string, rest: seq<Tok>, stack: seq<Tag>)
    ensures ListTags([Open(t), OpenLi, Words(text)] + rest, stack) == [t] + ListTags(rest, stack + [t])
  {
    var toks := [Open(t), OpenLi, Words(text)] + rest;
    assert toks[1..] == [OpenLi, Words(text)] + rest;
    assert ListTags(toks, stack) == ListTags(toks[1..], stack + [t]);
    TagItem(text, rest, stack + [t]);
  }

  lemma {:induction false} TagItem(text: string, rest: seq<Tok>, stack: seq<Tag>)
    requires stack != []
    ensures ListTags([OpenLi, Words(text)] + rest, stack) == [stack[|stack| - 1]] + ListTags(rest, stack)
  {
    var toks := [OpenLi, Words(text)] + rest;
    assert toks[1..] == [Words(text)] + rest && toks[1..][1..] == rest;
  }

  lemma {:induction false} TagClose(tok: Tok, rest: seq<Tok>, stack: seq<Tag>)
    requires stack != [] && (tok.CloseLi? || tok.Close?)
    ensures ListTags([tok] + rest, stack) == ListTags(rest, if tok.CloseLi? then stack else stack[..|stack| - 1])
  {
    assert ([tok] + rest)[1..] == rest;
  }

  lemma {:induction false} LevelsSnoc(items: seq<Item>, os: seq<nat>, o: nat)
    requires (forall i :: 0 <= i < |os| ==> os[i] < |items|) && o < |items|
    ensures Levels(items, os + [o]) == Levels(items, os) + [LevelOf(items[o])]
    ensures TagsOf(Levels(items, os + [o])) == TagsOf(Levels(items, os)) + [items[o].tag]
  {
  }

  lemma {:induction false} LevelsFront(items: seq<Item>, os: seq<nat>)
    requires (forall i :: 0 <= i < |os| ==> os[i] < |items|) && os != []
    ensures var open, last := Levels(items, os), |os| - 1;
            && |open| == |os| && open[..last] == Levels(items, os[..last]) && open[last] == LevelOf(items[os[last]])
            && |TagsOf(open)| == |os| && TagsOf(open)[..last] == TagsOf(open[..last]) && TagsOf(open)[last] == items[os[last]].tag
  {
  }

  lemma {:induction false} NextAtHome(items: seq<Item>, pos: nat, os: seq<nat>)
    requires 0 < pos <= |items| && os != [] && FullPath(items, pos, os)
    ensures var open := Levels(items, os);
            AtHome(items, pos, ListTags(Next(items, pos, open, items[pos - 1].indent), TagsOf(open)))
    decreases |items| - pos, |os|, 2
  {
    var open := Levels(items, os);
    if pos < |items| && items[pos].indent > items[pos - 1].indent {
      Descend(items, pos, os);
      LevelsSnoc(items, os, pos);
      NextAtHome(items, pos + 1, os + [pos]);
      hide *;
      NextDeeper(items, pos, open, items[pos - 1].indent);
      var rest := Next(items, pos + 1, Levels(items, os + [pos]), items[pos].indent);
      TagOpenItem(items[pos].tag, items[pos].text, rest, TagsOf(open));
      OneHome(items, pos, pos, ListTags(rest, TagsOf(open) + [items[pos].tag]));
    } else {
      hide ListTags, AtHome, Path;
      SettleAtHome(items, pos, os);
    }
  }

  lemma {:induction false} SettleAtHome(items: seq<Item>, pos: nat, os: seq<nat>)
    requires 0 < pos <= |items| && os != [] && Path(items, pos, os)
    requires pos < |items| ==> items[pos].indent <= items[pos - 1].indent
    ensures var open := Levels(items, os);
            AtHome(items, pos, ListTags(Settle(items, pos, open), TagsOf(open)))
    decreases |items| - pos, |os|, 1
  {
    var open := Levels(items, os);
    ItemsAtHome(items, pos, os);
    hide ListTags, AtHome, Path, Items;
    TagClose(CloseLi, Items(items, pos, open), TagsOf(open));
  }

  lemma {:induction false} ItemsAtHome(items: seq<Item>, pos: nat, os: seq<nat>)
    requires 0 < pos <= |items| && os != [] && Path(items, pos, os)
    requires pos < |items| ==> items[pos].indent <= items[pos - 1].indent
    ensures var open := Levels(items, os);
            AtHome(items, pos, ListTags(Items(items, pos, open), TagsOf(open)))
    decreases |items| - pos, |os|, 0
  {
    if pos < |items| && Fits(LevelOf(items[os[|os| - 1]]), items[pos]) {
      Join(items, pos, os);
      NextAtHome(items, pos + 1, os);
      JoinTokens(items, pos, os);
    } else if pos < |items| {
      Leave(items, pos, os);
      OutsideAtHome(items, pos, os[..|os| - 1]);
      LeaveTokens(items, pos, os);
    } else {
      OutsideAtEnd(items, Levels(items, os[..|os| - 1]));
      LeaveTokens(items, pos, os);
    }
  }

  // What one more item means for the tags.
  lemma {:induction false} JoinTokens(items: seq<Item>, pos: nat, os: seq<nat>)
    requires pos < |items| && os != [] && forall i :: 0 <= i < |os| ==> os[i] < |items|
    requires Fits(LevelOf(items[os[|os| - 1]]), items[pos]) && IsHome(items, os[|os| - 1], pos)
    requires var open := Levels(items, os);
             AtHome(items, pos + 1, ListTags(Next(items, pos + 1, open, items[pos].indent), TagsOf(open)))
    ensures var open := Levels(items, os); AtHome(items, pos, ListTags(Items(items, pos, open), TagsOf(open)))
  {
    var open := Levels(items, os);
    LevelsFront(items, os);
    ItemsStep(items, pos, open);
    hide *;
    var rest := Next(items, pos + 1, open, items[pos].indent);
    TagItem(items[pos].text, rest, TagsOf(open));
    OneHome(items, pos, os[|os| - 1], ListTags(rest, TagsOf(open)));
  }

  // What the end of a list means for them.
  lemma {:induction false} LeaveTokens(items: seq<Item>, pos: nat, os: seq<nat>)
    requires pos <= |items| && os != [] && forall i :: 0 <= i < |os| ==> os[i] < |items|
    requires pos < |items| ==> !Fits(LevelOf(items[os[|os| - 1]]), items[pos])
    requires var outer := Levels(items, os[..|os| - 1]);
             AtHome(items, pos, ListTags(Outside(items, pos, outer), TagsOf(outer)))
    ensures var open := Levels(items, os); AtHome(items, pos, ListTags(Items(items, pos, open), TagsOf(open)))
  {
    var open, last := Levels(items, os), |os| - 1;
    LevelsFront(items, os);
    ItemsEnd(items, pos, open);
    hide *;
    TagClose(Close(open[last].tag), Outside(items, pos, open[..last]), TagsOf(open));
  }

  // At the end the lists are closed one by one.
  lemma {:induction false} OutsideAtEnd(items: seq<Item>, open: seq<Level>)
    ensures AtHome(items, |items|, ListTags(Outside(items, |items|, open), TagsOf(open)))
    decreases |open|
  {
    if open != [] {
      var last := |open| - 1;
      OutsideAtEnd(items, open[..last]);
      var rest := [Close(open[last].tag)] + Outside(items, |items|, open[..last]);
      assert Settle(items, |items|, open) == [CloseLi] + rest;
      assert Outside(items, |items|, open) == [CloseLi] + rest;
      hide ListTags, Outside;
      TagClose(CloseLi, rest, TagsOf(open));
      TagClose(Close(open[last].tag), Outside(items, |items|, open[..last]), TagsOf(open));
      assert TagsOf(open)[..last] == TagsOf(open[..last]);
    }
  }

  lemma {:induction false} OutsideAtHome(items: seq<Item>, pos: nat, os: seq<nat>)
    requires pos < |items| && (forall i :: 0 <= i < |os| ==> os[i] < |items|)
    requires if pos == 0 then os == [] else Path(items, pos, os) && items[pos].indent <= items[pos - 1].indent
    ensures var open := Levels(items, os);
            AtHome(items, pos, ListTags(Outside(items, pos, open), TagsOf(open)))
    decreases |items| - pos, |os|, 3
  {
    hide *;
    if os != [] {
      SettleAtHome(items, pos, os);
      OutsideSettles(items, pos, Levels(items, os));
    } else {
      Restart(items, pos);
      NextAtHome(items, pos + 1, [pos]);
      RestartTokens(items, pos);
      assert os == [] && Levels(items, os) == [];
    }
  }

  lemma {:induction false} OutsideSettles(items: seq<Item>, pos: nat, open: seq<Level>)
    requires pos <= |items| && open != []
    ensures Outside(items, pos, open) == Settle(items, pos, open)
  {
    hide Settle;
  }

  // What a new list at the top level means for them.
  lemma {:induction false} RestartTokens(items: seq<Item>, pos: nat)
    requires pos < |items| && IsHome(items, pos, pos)
    requires var open := Levels(items, [pos]);
             AtHome(items, pos + 1, ListTags(Next(items, pos + 1, open, items[pos].indent), TagsOf(open)))
    ensures AtHome(items, pos, ListTags(Outside(items, pos, []), TagsOf([])))
  {
    var it := items[pos];
    OutsideStart(items, pos);
    assert Levels(items, [pos]) == [LevelOf(it)] && TagsOf([LevelOf(it)]) == [it.tag];
    assert TagsOf([]) == [] && [] + [it.tag] == [it.tag];
    hide ListTags, AtHome, IsHome, Outside, Next;
    var rest := Next(items, pos + 1, [LevelOf(it)], it.indent);
    TagOpenItem(it.tag, it.text, rest, []);
    OneHome(items, pos, pos, ListTags(rest, [it.tag]));
  }

  // The item keeps its marker unless it joins a list of smaller indent that has the other one.
  ghost predicate Strays(items: seq<Item>, k: nat)
    requires k < |items|
  {
    exists o: nat :: o < k && IsHome(items, o, k) && items[o].indent < items[k].indent && items[o].tag != items[k].tag
  }

  /** For every item list: each item opens in the list started by its home, and its marker is that
      list's own exactly when it does not stray. */
  lemma {:induction false} MarkersIff(items: seq<Item>)
    requires items != []
    ensures var all, tags := Clamped(items), ListTags(ListTokens(items), []);
            AtHome(all, 0, tags) && forall k :: 0 <= k < |items| ==> (tags[k] != items[k].tag <==> Strays(all, k))
  {
    var all, tags := Clamped(items), ListTags(ListTokens(items), []);
    assert Levels(all, []) == [] && TagsOf([]) == [];
    OutsideAtHome(all, 0, []);
    hide ListTags, Outside;
    forall k | 0 <= k < |items| ensures tags[k] != items[k].tag <==> Strays(all, k) {
      HomeMarker(all, k, tags);
    }
  }

  lemma {:induction false} HomeMarker(all: seq<Item>, k: nat, tags: seq<Tag>)
    requires k < |all| && AtHome(all, 0, tags)
    ensures tags[k] != all[k].tag <==> Strays(all, k)
  {
    assert HomeTag(all, 0 + k, tags[k]);
    hide Opens, Holds;
    var o: nat :| IsHome(all, o, k) && tags[k] == all[o].tag;
    if o < k {
      HoldsStep(all, o, k);
    }
    hide IsHome;
    forall h: nat | h < k && IsHome(all, h, k) ensures h == o {
      OnlyHome(all, k, h, o);
    }
  }

  // A change of marker below the top level, with or without a dedent, starts no list of its own: the
  // item joins the list around it.
  lemma {:induction false} InnerSwitchMovesOut(a: string, b: string, c: string, n: nat, m: nat)
    requires 0 < m <= n
    ensures ListTokens([Item(0, Ul, a), Item(n, Ul, b), Item(m, Ol, c)])
         == [Open(Ul), OpenLi, Words(a), Open(Ul), OpenLi, Words(b), CloseLi, Close(Ul), CloseLi, OpenLi, Words(c), CloseLi, Close(Ul)]
  {
    var items := [Item(0, Ul, a), Item(n, Ul, b), Item(m, Ol, c)];
    assert Clamped(items) == items;
    var outer, inner := [Level(0, Ul)], [Level(0, Ul)] + [Level(n, Ul)];
    assert inner[..1] == outer && outer[..0] == [];
    assert Items(items, 3, outer) == [Close(Ul)] + Outside(items, 3, []);
    assert Next(items, 3, outer, m) == [CloseLi, Close(Ul)];
    assert Items(items, 2, outer) == [OpenLi, Words(c)] + [CloseLi, Close(Ul)];
    assert inner[1] == Level(n, Ul) && !Fits(inner[1], items[2]);
    assert Outside(items, 2, outer) == [CloseLi] + Items(items, 2, outer);
    assert Items(items, 2, inner) == [Close(Ul)] + Outside(items, 2, inner[..1]);
    assert Items(items, 2, inner) == [Close(Ul)] + ([CloseLi] + ([OpenLi, Words(c)] + [CloseLi, Close(Ul)]));
    assert Next(items, 2, inner, n) == [CloseLi] + Items(items, 2, inner);
    assert Next(items, 1, outer, 0) == [Open(Ul), OpenLi, Words(b)] + Next(items, 2, inner, n);
  }

  // ------------------------------------------------------------------ the recursive renderer

  class Renderer {
    const items: array<Item>
    var pos: nat

    constructor (items: array<Item>)
      ensures this.items == items && pos == 0
    {
      this.items := items;
      pos := 0;
    }

    // One list at the indent of the item at pos, children included. around: the lists open around it.
    method List(ghost around: seq<Level>) returns (h: seq<Tok>)
      requires pos < items.Length
      modifies this
      ensures old(pos) < pos <= items.Length
      ensures var it := old(items[pos]);
              [Open(it.tag), OpenLi, Words(it.text)]
              + Next(items[..], old(pos) + 1, around + [Level(it.indent, it.tag)], it.indent)
              == h + Outside(items[..], pos, around)
      decreases items.Length - pos
    {
      hide *;
      var l := Level(items[pos].indent, items[pos].tag);
      ghost var all, open, start := items[..], around + [l], pos;
      assert open[..|open| - 1] == around && open[|open| - 1] == l;
      h := [Open(l.tag)];
      FirstFits(all, pos, open);
      ghost var whole := [Open(l.tag)] + Items(all, pos, open);
      while pos < items.Length && !(items[pos].indent < l.indent || (items[pos].indent == l.indent && items[pos].tag != l.tag))
        invariant start <= pos <= items.Length && items[..] == all
        invariant pos == start ==> !(items[pos].indent < l.indent || (items[pos].indent == l.indent && items[pos].tag != l.tag))
        invariant whole == h + Items(all, pos, open)
        decreases items.Length - pos
      {
        var it := items[pos];
        ghost var at := pos;
        pos := pos + 1;
        var li := [OpenLi, Words(it.text)];
        ItemsStep(all, at, open);
        if pos < items.Length && items[pos].indent > it.indent {
          NextDeeper(all, pos, open, it.indent);
          var child := List(open);
          OutsideList(all, pos, open);
          Glue3(h, li, child, [CloseLi], Items(all, pos, open));
          li := li + child;
        } else {
          NextSettles(all, pos, open, it.indent);
          Glue3(h, li, [], [CloseLi], Items(all, pos, open));
        }
        h := h + li + [CloseLi];
      }
      ItemsEnd(all, pos, open);
      Glue2(h, [Close(l.tag)], Outside(all, pos, around));
      h := h + [Close(l.tag)];
    }

    // Raises the indents below the first item's, then writes list after list.
    method Html() returns (out: seq<Tok>)
      requires items.Length > 0 && pos == 0
      modifies this, items
      ensures out == ListTokens(old(items[..])) && items[..] == Clamped(old(items[..]))
    {
      hide Outside;
      Clamp();
      ghost var all := items[..];
      out := [];
      while pos < items.Length
        invariant pos <= items.Length && items[..] == all
        invariant Outside(all, 0, []) == out + Outside(all, pos, [])
      {
        OutsideStart(all, pos);
        ghost var before := pos;
        var h := List([]);
        assert [] + [Level(all[before].indent, all[before].tag)] == [Level(all[before].indent, all[before].tag)];
        Glue2(out, h, Outside(all, pos, []));
        out := out + h;
      }
      OutsideEnd(all);
      assert out + [] == out;
    }

    method Clamp()
      requires items.Length > 0
      modifies items
      ensures items[..] == Clamped(old(items[..]))
      ensures forall i :: 0 <= i < items.Length ==>
                items[i] == old(items[i]).(indent := if old(items[i]).indent < old(items[0]).indent then old(items[0]).indent
                                                     else old(items[i]).indent)
    {
      var base := items[0].indent;
      for i := 0 to items.Length
        invariant forall j :: 0 <= j < items.Length ==>
          items[j] == if j < i then Clamped(old(items[..]))[j] else old(items[j])
      {
        if items[i].indent < base {
          items[i] := items[i].(indent := base);
        }
      }
    }
  }

  lemma {:induction false} FirstFits(items: seq<Item>, pos: nat, open: seq<Level>)
    requires pos < |items| && open != [] && open[|open| - 1] == Level(items[pos].indent, items[pos].tag)
    ensures [Open(items[pos].tag)] + Items(items, pos, open)
         == [Open(items[pos].tag), OpenLi, Words(items[pos].text)] + Next(items, pos + 1, open, items[pos].indent)
  {
    hide Next;
    assert Items(items, pos, open) == [OpenLi, Words(items[pos].text)] + Next(items, pos + 1, open, items[pos].indent);
  }

  lemma {:induction false} ItemsStep(items: seq<Item>, pos: nat, open: seq<Level>)
    requires pos < |items| && open != []
    requires var l := open[|open| - 1]; !(items[pos].indent < l.indent || (items[pos].indent == l.indent && items[pos].tag != l.tag))
    ensures Items(items, pos, open) == [OpenLi, Words(items[pos].text)] + Next(items, pos + 1, open, items[pos].indent)
  {
    hide Next;
  }

  lemma {:induction false} ItemsEnd(items: seq<Item>, pos: nat, open: seq<Level>)
    requires pos <= |items| && open != []
    requires var l := open[|open| - 1];
             pos == |items| || items[pos].indent < l.indent || (items[pos].indent == l.indent && items[pos].tag != l.tag)
    ensures Items(items, pos, open) == [Close(open[|open| - 1].tag)] + Outside(items, pos, open[..|open| - 1])
  {
    hide Outside;
  }

  lemma {:induction false} NextDeeper(items: seq<Item>, pos: nat, open: seq<Level>, prev: nat)
    requires pos < |items| && open != [] && items[pos].indent > prev
    ensures var it := items[pos];
            Next(items, pos, open, prev)
            == [Open(it.tag), OpenLi, Words(it.text)] + Next(items, pos + 1, open + [Level(it.indent, it.tag)], it.indent)
  {
  }

  lemma {:induction false} NextSettles(items: seq<Item>, pos: nat, open: seq<Level>, prev: nat)
    requires pos <= |items| && open != [] && (pos < |items| ==> items[pos].indent <= prev)
    ensures Next(items, pos, open, prev) == [CloseLi] + Items(items, pos, open)
  {
    hide Items;
  }

  lemma {:induction false} OutsideList(items: seq<Item>, pos: nat, open: seq<Level>)
    requires pos <= |items| && open != []
    ensures Outside(items, pos, open) == [CloseLi] + Items(items, pos, open)
  {
    hide Items;
  }

  lemma {:induction false} OutsideStart(items: seq<Item>, pos: nat)
    requires pos < |items|
    ensures var it := items[pos];
            Outside(items, pos, []) == [Open(it.tag), OpenLi, Words(it.text)] + Next(items, pos + 1, [Level(it.indent, it.tag)], it.indent)
  {
    hide Next;
  }

  lemma {:induction false} OutsideEnd(items: seq<Item>)
    ensures Outside(items, |items|, []) == []
  {
  }

  lemma {:induction false} Glue2<T>(a: seq<T>, b: seq<T>, c: seq<T>)
    ensures a + (b + c) == (a + b) + c
  {
  }

  lemma {:induction false} Glue3<T>(a: seq<T>, b: seq<T>, c: seq<T>, d: seq<T>, e: seq<T>)
    ensures a + (b + (c + (d + e))) == (a + (b + c) + d) + e
    ensures a + (b + (d + e)) == (a + b + d) + e
  {
  }

  // ------------------------------------------------------------------ blocks of prose

  datatype Kind = Blank | ListLine | Heading | Plain

  datatype Block = Para(lines: seq<string>) | Listed(lines: seq<string>) | Headed(line: string) | Table(lines: seq<string>)

  function LinesOf(blocks: seq<Block>): seq<string> {
    if blocks == [] then []
    else
      var b := blocks[|blocks| - 1];
      LinesOf(blocks[..|blocks| - 1]) + if b.Headed? then [b.line] else b.lines
  }

  function NonBlank(kind: string -> Kind, lines: seq<string>): seq<string> {
    if lines == [] then []
    else NonBlank(kind, lines[..|lines| - 1]) + if kind(lines[|lines| - 1]) == Blank then [] else [lines[|lines| - 1]]
  }

  lemma {:induction false} NonBlankInTurn(kind: string -> Kind, a: seq<string>, b: seq<string>)
    ensures NonBlank(kind, a + b) == NonBlank(kind, a) + NonBlank(kind, b)
    decreases |b|
  {
    if b == [] {
      assert a + b == a;
    } else {
      assert (a + b)[..|a + b| - 1] == a + b[..|b| - 1];
      NonBlankInTurn(kind, a, b[..|b| - 1]);
    }
  }

  lemma {:induction false} NonBlankOnly(kind: string -> Kind, lines: seq<string>)
    requires forall i :: 0 <= i < |lines| ==> kind(lines[i]) != Blank
    ensures NonBlank(kind, lines) == lines
    decreases |lines|
  {
    if lines != [] {
      NonBlankOnly(kind, lines[..|lines| - 1]);
      assert lines == lines[..|lines| - 1] + [lines[|lines| - 1]];
    }
  }

  lemma {:induction false} LinesOfSnoc(blocks: seq<Block>, b: Block)
    ensures LinesOf(blocks + [b]) == LinesOf(blocks) + if b.Headed? then [b.line] else b.lines
  {
    assert (blocks + [b])[..|blocks|] == blocks;
  }

  // What a block may hold: a paragraph plain lines, a list list lines, a table a line with a bar over a
  // rule and then lines with bars.
  predicate Fitting(kind: string -> Kind, bar: string -> bool, sep: string -> bool, b: Block) {
    match b
    case Para(lines) => lines != [] && AllOf(kind, lines, Plain)
    case Listed(lines) => lines != [] && AllOf(kind, lines, ListLine)
    case Headed(line) => kind(line) == Heading
    case Table(lines) => |lines| >= 2 && sep(lines[1]) && forall i :: 0 <= i < |lines| ==> bar(lines[i]) && kind(lines[i]) != Blank
  }

  predicate AllOf(kind: string -> Kind, lines: seq<string>, k: Kind) {
    forall i :: 0 <= i < |lines| ==> kind(lines[i]) == k
  }

  predicate AllFit(kind: string -> Kind, bar: string -> bool, sep: string -> bool, blocks: seq<Block>) {
    forall i :: 0 <= i < |blocks| ==> Fitting(kind, bar, sep, blocks[i])
  }

  lemma {:induction false} NothingFits(kind: string -> Kind, bar: string -> bool, sep: string -> bool)
    ensures AllFit(kind, bar, sep, []) && AllOf(kind, [], Plain) && AllOf(kind, [], ListLine)
  {
  }

  lemma {:induction false} FitSnoc(kind: string -> Kind, bar: string -> bool, sep: string -> bool, blocks: seq<Block>, b: Block)
    requires AllFit(kind, bar, sep, blocks) && Fitting(kind, bar, sep, b)
    ensures AllFit(kind, bar, sep, blocks + [b])
  {
    hide Fitting;
  }

  lemma {:induction false} FlushFits(kind: string -> Kind, bar: string -> bool, sep: string -> bool, blocks: seq<Block>,
                                     para: seq<string>, items: seq<string>)
    requires AllFit(kind, bar, sep, blocks) && AllOf(kind, para, Plain) && AllOf(kind, items, ListLine)
    ensures AllFit(kind, bar, sep, blocks + (if para == [] then [] else [Para(para)]) + if items == [] then [] else [Listed(items)])
    ensures AllFit(kind, bar, sep, blocks + (if para == [] then [] else [Para(para)]) + [])
    ensures AllFit(kind, bar, sep, blocks + [] + if items == [] then [] else [Listed(items)])
  {
    hide AllOf, AllFit;
    assert blocks + [] == blocks;
    var more := blocks + if para == [] then [] else [Para(para)];
    assert more + [] == more;
    if para != [] {
      FitSnoc(kind, bar, sep, blocks, Para(para));
    }
    if items != [] {
      FitSnoc(kind, bar, sep, blocks, Listed(items));
      FitSnoc(kind, bar, sep, more, Listed(items));
    }
  }

  // Flushes what has gathered; at most one of the two is not empty.
  method Flush(out: seq<Block>, para: seq<string>, items: seq<string>) returns (blocks: seq<Block>)
    requires para == [] || items == []
    ensures LinesOf(blocks) == LinesOf(out) + para + items
    ensures blocks == out + (if para == [] then [] else [Para(para)]) + if items == [] then [] else [Listed(items)]
  {
    blocks := out;
    if para != [] {
      LinesOfSnoc(blocks, Para(para));
      blocks := blocks + [Para(para)];
    }
    if items != [] {
      LinesOfSnoc(blocks, Listed(items));
      blocks := blocks + [Listed(items)];
    }
  }

  // The rows of a table starting at line k, up to the first line without a bar.
  method TableRows(kind: string -> Kind, bar: string -> bool, lines: seq<string>, from: nat) returns (k: nat)
    requires from <= |lines|
    ensures from <= k <= |lines| && forall i :: from <= i < k ==> kind(lines[i]) != Blank && bar(lines[i])
    ensures k < |lines| ==> kind(lines[k]) == Blank || !bar(lines[k])
  {
    k := from;
    while k < |lines| && kind(lines[k]) != Blank && bar(lines[k])
      invariant from <= k <= |lines|
      invariant forall i :: from <= i < k ==> kind(lines[i]) != Blank && bar(lines[i])
    {
      k := k + 1;
    }
  }

  // Puts one line of text where it belongs: into the list, the paragraph, or a heading of its own.
  method TakeLine(kind: string -> Kind, ghost bar: string -> bool, ghost sep: string -> bool,
                  out0: seq<Block>, para0: seq<string>, items0: seq<string>, line: string)
    returns (out: seq<Block>, para: seq<string>, items: seq<string>)
    requires para0 == [] || items0 == []
    requires AllFit(kind, bar, sep, out0) && AllOf(kind, para0, Plain) && AllOf(kind, items0, ListLine) && kind(line) != Blank
    ensures para == [] || items == []
    ensures LinesOf(out) + para + items == LinesOf(out0) + para0 + items0 + [line]
    ensures AllFit(kind, bar, sep, out) && AllOf(kind, para, Plain) && AllOf(kind, items, ListLine)
  {
    hide LinesOf, AllFit, AllOf;
    NothingFits(kind, bar, sep);
    FlushFits(kind, bar, sep, out0, para0, items0);
    AllOfSnocs(kind, para0, items0, line);
    if kind(line) == ListLine {
      out := Flush(out0, para0, []);
      para, items := [], items0 + [line];
      return;
    }
    out := Flush(out0, [], items0);
    para, items := para0, [];
    if kind(line) == Heading {
      FlushFits(kind, bar, sep, out, para0, []);
      out := Flush(out, para0, []);
      para := [];
      LinesOfSnoc(out, Headed(line));
      FitSnoc(kind, bar, sep, out, Headed(line));
      out := out + [Headed(line)];
    } else {
      para := para0 + [line];
    }
  }

  lemma {:induction false} AllOfSnocs(kind: string -> Kind, para: seq<string>, items: seq<string>, line: string)
    requires AllOf(kind, para, Plain) && AllOf(kind, items, ListLine)
    ensures kind(line) == Plain ==> AllOf(kind, para + [line], Plain)
    ensures kind(line) == ListLine ==> AllOf(kind, items + [line], ListLine)
  {
  }

  /** Every line that is not blank appears in exactly one block, and the blocks keep the lines' order. */
  method Prose(kind: string -> Kind, bar: string -> bool, sep: string -> bool, lines: seq<string>) returns (out: seq<Block>)
    requires forall s :: sep(s) ==> kind(s) != Blank
    ensures LinesOf(out) == NonBlank(kind, lines)
    ensures AllFit(kind, bar, sep, out)
  {
    hide LinesOf, NonBlank, AllFit, AllOf;
    NothingFits(kind, bar, sep);
    out := [];
    NothingYet(kind);
    var para: seq<string>, items: seq<string> := [], [];
    var n := 0;
    assert lines[..0] == [];
    while n < |lines|
      invariant n <= |lines| && (para == [] || items == [])
      invariant LinesOf(out) + para + items == NonBlank(kind, lines[..n])
      invariant AllOf(kind, para, Plain) && AllOf(kind, items, ListLine)
      invariant AllFit(kind, bar, sep, out)
      decreases |lines| - n
    {
      var line := lines[n];
      StepLines(kind, lines, n);
      FlushFits(kind, bar, sep, out, para, items);
      if kind(line) == Blank {
        out := Flush(out, para, items);
        para, items := [], [];
        n := n + 1;
      } else if bar(line) && n + 1 < |lines| && bar(lines[n + 1]) && sep(lines[n + 1]) {
        out := Flush(out, para, items);
        para, items := [], [];
        var k := TableRows(kind, bar, lines, n + 2);
        StepTable(kind, lines, n, k);
        LinesOfSnoc(out, Table(lines[n..k]));
        FitSnoc(kind, bar, sep, out, Table(lines[n..k]));
        out := out + [Table(lines[n..k])];
        n := k;
      } else {
        out, para, items := TakeLine(kind, bar, sep, out, para, items, line);
        n := n + 1;
      }
    }
    assert lines[..|lines|] == lines;
    FlushFits(kind, bar, sep, out, para, items);
    out := Flush(out, para, items);
  }

  lemma {:induction false} NothingYet(kind: string -> Kind)
    ensures LinesOf([]) == [] && NonBlank(kind, []) == []
  {
  }

  lemma {:induction false} StepLines(kind: string -> Kind, lines: seq<string>, n: nat)
    requires n < |lines|
    ensures NonBlank(kind, lines[..n + 1]) == NonBlank(kind, lines[..n]) + if kind(lines[n]) == Blank then [] else [lines[n]]
  {
    assert lines[..n + 1][..n] == lines[..n];
  }

  lemma {:induction false} StepTable(kind: string -> Kind, lines: seq<string>, n: nat, k: nat)
    requires n <= k <= |lines| && forall i :: n <= i < k ==> kind(lines[i]) != Blank
    ensures NonBlank(kind, lines[..k]) == NonBlank(kind, lines[..n]) + lines[n..k]
  {
    assert lines[..k] == lines[..n] + lines[n..k];
    NonBlankInTurn(kind, lines[..n], lines[n..k]);
    NonBlankOnly(kind, lines[n..k]);
  }
}
