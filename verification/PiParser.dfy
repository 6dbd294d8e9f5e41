/** The incremental parser of pi session files and the active branch it shows (harness_pi.go). */
module PiParser {
  import opened Messages
  import Lines

  // A longer line, its line break included, is dropped unread.
  const MAX_LINE: nat := 33554432
  // A longer file is first read from its header and its last TAIL characters only.
  const MAX_FILE: nat := 67108864
  const TAIL: nat := 16777216

  datatype Call = Call(id: string, title: string)

  datatype Message = Message(role: string, stop: string, error: string, toolCall: string, ts: int,
                             text: string, images: nat, calls: seq<Call>)

  // A decoded line: parent None is an explicit null, millis None a timestamp that does not parse.
  datatype Entry = Entry(kind: string, id: string, parent: Option<string>, millis: Option<int>, ts: int,
                         message: Option<Message>)

  datatype Node = Node(id: string, parent: string, rootless: bool, ts: int, seqNo: int, message: Option<Message>)

  datatype Parsed = Parsed(nodes: map<string, Node>, last: string, fileSeq: int, sawHeader: bool)

  const EMPTY := Parsed(map[], "", 0, false)

  // ------------------------------------------------------------------ entries

  function NextSeq(prev: int, millis: Option<int>): (next: int)
    ensures next > prev
    ensures millis.Some? ==> next >= millis.value
    ensures next == prev + 1 || millis == Some(next)
  {
    if millis.Some? && millis.value > prev + 1 then millis.value else prev + 1
  }

  function Ingest(p: Parsed, e: Entry): Parsed {
    if e.kind == "session" then p.(sawHeader := true)
    else if e.id == "" then p
    else
      var next := NextSeq(p.fileSeq, e.millis);
      var parent := if e.parent.Some? then e.parent.value else "";
      var node := Node(e.id, parent, e.parent.None?, e.ts, next, if e.kind == "message" then e.message else None);
      Parsed(p.nodes[e.id := node], e.id, next, p.sawHeader)
  }

  function IngestAll(p: Parsed, es: seq<Entry>): Parsed
    decreases |es|
  {
    if es == [] then p else IngestAll(Ingest(p, es[0]), es[1..])
  }

  lemma {:induction false} IngestInTurn(p: Parsed, a: seq<Entry>, b: seq<Entry>)
    ensures IngestAll(p, a + b) == IngestAll(IngestAll(p, a), b)
    decreases |a|
  {
    if a == [] {
      assert a + b == b;
    } else {
      assert (a + b)[1..] == a[1..] + b;
      IngestInTurn(Ingest(p, a[0]), a[1..], b);
    }
  }

  // Sequence numbers tell the nodes apart, and the last entry of the file has the highest.
  ghost predicate WellNumbered(p: Parsed) {
    && "" !in p.nodes
    && (forall id :: id in p.nodes ==> p.nodes[id].id == id && 0 < p.nodes[id].seqNo <= p.fileSeq)
    && (forall a, b :: a in p.nodes && b in p.nodes && a != b ==> p.nodes[a].seqNo != p.nodes[b].seqNo)
    && (if p.last == "" then p.nodes == map[] else p.last in p.nodes && p.nodes[p.last].seqNo == p.fileSeq)
    && p.fileSeq >= 0
  }

  lemma {:induction false} ParsingKeepsNumbers(p: Parsed, es: seq<Entry>)
    requires WellNumbered(p)
    ensures WellNumbered(IngestAll(p, es)) && IngestAll(p, es).fileSeq >= p.fileSeq
    decreases |es|
  {
    if es != [] {
      assert WellNumbered(Ingest(p, es[0]));
      ParsingKeepsNumbers(Ingest(p, es[0]), es[1..]);
    }
  }

  predicate Adds(e: Entry) {
    e.kind != "session" && e.id != ""
  }

  // No later entry has the id.
  ghost predicate LastOfId(es: seq<Entry>, i: nat) {
    i < |es| && Adds(es[i]) && forall j :: i < j < |es| && Adds(es[j]) ==> es[j].id != es[i].id
  }

  ghost predicate LastAdded(es: seq<Entry>, i: nat) {
    i < |es| && Adds(es[i]) && forall j :: i < j < |es| ==> !Adds(es[j])
  }

  ghost predicate Holds(p: Parsed, e: Entry) {
    e.id in p.nodes &&
    var n := p.nodes[e.id];
    && n.id == e.id && n.ts == e.ts && n.message == (if e.kind == "message" then e.message else None)
    && (if e.parent.None? then n.rootless else !n.rootless && n.parent == e.parent.value)
  }

  // The tree holds, for each id, what its last entry says.
  ghost predicate HoldsLasts(p: Parsed, es: seq<Entry>) {
    forall i: nat :: LastOfId(es, i) ==> Holds(p, es[i])
  }

  // The last entry is where the branch ends.
  ghost predicate EndsAtLast(p: Parsed, es: seq<Entry>) {
    && (forall i: nat :: LastAdded(es, i) ==> p.last == es[i].id)
    && ((forall i :: 0 <= i < |es| ==> !Adds(es[i])) ==> p.last == "")
  }

  // Nothing else is in the tree, and the header was seen if there is one.
  ghost predicate Sources(p: Parsed, es: seq<Entry>) {
    && (forall id :: id in p.nodes ==> exists i :: 0 <= i < |es| && Adds(es[i]) && es[i].id == id)
    && (p.sawHeader <==> exists i :: 0 <= i < |es| && es[i].kind == "session")
  }

  lemma {:induction false} HoldsStep(p: Parsed, e: Entry, old_: Entry)
    ensures Adds(e) ==> Holds(Ingest(p, e), e) && Ingest(p, e).last == e.id
    ensures Holds(p, old_) && !(Adds(e) && e.id == old_.id) ==> Holds(Ingest(p, e), old_)
    ensures !Adds(e) ==> Ingest(p, e).last == p.last && Ingest(p, e).nodes == p.nodes
    ensures Ingest(p, e).sawHeader <==> p.sawHeader || e.kind == "session"
    ensures Ingest(p, e).nodes.Keys == p.nodes.Keys + if Adds(e) then {e.id} else {}
  {
    assert p.nodes.Keys + {} == p.nodes.Keys;
  }

  lemma {:induction false} LastOfFront(es: seq<Entry>, i: nat)
    requires i + 1 < |es|
    ensures var front, e := es[..|es| - 1], es[|es| - 1];
            && (LastOfId(es, i) ==> LastOfId(front, i) && !(Adds(e) && e.id == es[i].id))
            && (LastAdded(es, i) ==> LastAdded(front, i) && !Adds(e))
  {
    hide Adds;
  }

  lemma {:induction false} HoldsLastsStep(p: Parsed, es: seq<Entry>)
    requires es != [] && HoldsLasts(p, es[..|es| - 1])
    ensures HoldsLasts(Ingest(p, es[|es| - 1]), es)
  {
    hide Ingest, Adds, Holds, LastOfId;
    forall i: nat | LastOfId(es, i) ensures i < |es| {
      LastOfIdAdds(es, i);
    }
    var front, e := es[..|es| - 1], es[|es| - 1];
    forall i: nat | i < |es| && LastOfId(es, i) ensures Holds(Ingest(p, e), es[i]) {
      LastOfIdAdds(es, i);
      if i < |front| {
        LastOfFront(es, i);
        HoldsStep(p, e, es[i]);
      } else {
        HoldsStep(p, e, e);
      }
    }
  }

  lemma {:induction false} LastOfIdAdds(es: seq<Entry>, i: nat)
    requires LastOfId(es, i)
    ensures i < |es| && Adds(es[i])
  {
  }

  lemma {:induction false} EndsAtLastStep(p: Parsed, es: seq<Entry>)
    requires es != [] && EndsAtLast(p, es[..|es| - 1])
    ensures EndsAtLast(Ingest(p, es[|es| - 1]), es)
  {
    hide Ingest, Adds, Holds;
    var front, e := es[..|es| - 1], es[|es| - 1];
    HoldsStep(p, e, e);
    forall i: nat | LastAdded(es, i) ensures Ingest(p, e).last == es[i].id {
      if i < |front| {
        LastOfFront(es, i);
      }
    }
    if forall i :: 0 <= i < |es| ==> !Adds(es[i]) {
      assert forall i :: 0 <= i < |front| ==> front[i] == es[i];
    }
  }

  lemma {:induction false} SourcesStep(p: Parsed, es: seq<Entry>)
    requires es != [] && Sources(p, es[..|es| - 1])
    ensures Sources(Ingest(p, es[|es| - 1]), es)
  {
    hide Ingest, Adds, Holds;
    var front, e := es[..|es| - 1], es[|es| - 1];
    HoldsStep(p, e, e);
    var to := Ingest(p, e);
    forall id | id in to.nodes ensures exists i :: 0 <= i < |es| && Adds(es[i]) && es[i].id == id {
      if id in p.nodes {
        var i :| 0 <= i < |front| && Adds(front[i]) && front[i].id == id;
        assert es[i] == front[i];
      } else {
        assert es[|front|].id == id;
      }
    }
    if p.sawHeader {
      var i :| 0 <= i < |front| && front[i].kind == "session";
      assert es[i].kind == "session";
    } else if e.kind == "session" {
      assert es[|front|].kind == "session";
    }
  }

  /** What parsing has in hand is what the entries say: per id its last entry, the last entry of all,
      and whether there is a header. */
  lemma {:induction false} ParsingRecords(es: seq<Entry>)
    ensures var p := IngestAll(EMPTY, es); HoldsLasts(p, es) && EndsAtLast(p, es) && Sources(p, es)
    decreases |es|
  {
    if es != [] {
      var front, e := es[..|es| - 1], es[|es| - 1];
      ParsingRecords(front);
      IngestInTurn(EMPTY, front, [e]);
      assert es == front + [e];
      HoldsLastsStep(IngestAll(EMPTY, front), es);
      EndsAtLastStep(IngestAll(EMPTY, front), es);
      SourcesStep(IngestAll(EMPTY, front), es);
      assert [e][1..] == [];
    }
    hide Ingest, HoldsLasts, EndsAtLast, Sources, Adds;
  }

  // ------------------------------------------------------------------ reading

  // The unterminated line is taken when it is blank or a record.
  predicate Eager(decode: string -> Option<Entry>, line: string) {
    Lines.Whole(decode)(line)
  }

  // One read from the offset on, with the size limit: the entries found and the bytes consumed.
  function PiScan(decode: string -> Option<Entry>, t: string): (p: (seq<Entry>, nat)) {
    var k := Lines.Break(t);
    if k < |t| then
      var rest := PiScan(decode, t[k + 1..]);
      ((if k + 1 > MAX_LINE then [] else Found(decode, t[..k])) + rest.0, k + 1 + rest.1)
    else if k > MAX_LINE then ([], k)
    else if Eager(decode, t) then (Found(decode, t), k)
    else ([], 0)
  }

  function Found(decode: string -> Option<Entry>, line: string): seq<Entry> {
    if Lines.Blank(line) then [] else Lines.Dec(decode, line)
  }

  predicate Fits(t: string) {
    var k := Lines.Break(t);
    k < MAX_LINE && (k < |t| ==> Fits(t[k + 1..]))
  }

  lemma {:induction false} FoundIsDec(decode: string -> Option<Entry>, line: string)
    requires Lines.JsonRules(decode)
    ensures Found(decode, line) == Lines.Dec(decode, line)
  {
    if Lines.Blank(line) {
      Lines.PaddingIsNothing(decode, line);
    }
  }

  lemma {:induction false} FittingScan(decode: string -> Option<Entry>, t: string)
    requires Lines.JsonRules(decode) && Fits(t)
    ensures PiScan(decode, t) == Lines.Scan(decode, Lines.Whole(decode), t)
    decreases |t|
  {
    hide *;
    var k := Lines.Break(t);
    PiLine(decode, t);
    FoundIsDec(decode, t[..k]);
    if k < |t| {
      FittingScan(decode, t[k + 1..]);
      Lines.ScanLine(decode, Lines.Whole(decode), t, k);
    } else {
      assert t[..k] == t;
      Lines.ScanLast(decode, Lines.Whole(decode), t);
      EmptyLine(decode);
    }
  }

  lemma {:induction false} PiLine(decode: string -> Option<Entry>, t: string)
    requires Fits(t)
    ensures var k := Lines.Break(t);
            if k < |t| then
              var q := PiScan(decode, t[k + 1..]);
              PiScan(decode, t) == (Found(decode, t[..k]) + q.0, k + 1 + q.1) && Fits(t[k + 1..])
            else
              PiScan(decode, t) == if Lines.Whole(decode)(t) then (Found(decode, t), k) else ([], 0)
  {
    hide Lines.Break, Lines.Whole, Found;
  }

  lemma {:induction false} FitsPart(t: string, n: nat, m: nat)
    requires Fits(t) && n <= m <= |t|
    ensures Fits(t[n..m])
    decreases |t|
  {
    hide *;
    var k := Lines.Break(t);
    FitsLine(t);
    if n > k {
      FitsPart(t[k + 1..], n - (k + 1), m - (k + 1));
      assert t[k + 1..][n - (k + 1)..m - (k + 1)] == t[n..m];
    } else if m <= k {
      Lines.BreakOf(t[n..m], m - n);
      FitsLine(t[n..m]);
    } else {
      Lines.BreakOf(t[n..m], k - n);
      FitsPart(t[k + 1..], 0, m - (k + 1));
      assert t[k + 1..][0..m - (k + 1)] == t[n..m][k - n + 1..];
      FitsLine(t[n..m]);
    }
  }

  lemma {:induction false} FitsLine(t: string)
    ensures var k := Lines.Break(t); Fits(t) <==> k < MAX_LINE && (k < |t| ==> Fits(t[k + 1..]))
  {
  }

  // The parser and offset after loading the file at each size in turn.
  function Loads(decode: string -> Option<Entry>, file: string, sizes: seq<nat>, from: nat, p: Parsed, off: nat): Parsed
    requires off <= from && Lines.Grows(sizes, from, |file|)
    decreases |sizes|
  {
    if sizes == [] then p
    else
      var found := PiScan(decode, file[off..sizes[0]]);
      ScanLength(decode, file[off..sizes[0]]);
      Loads(decode, file, sizes[1..], sizes[0], IngestAll(p, found.0), off + found.1)
  }

  lemma {:induction false} ScanLength(decode: string -> Option<Entry>, t: string)
    ensures PiScan(decode, t).1 <= |t|
    decreases |t|
  {
    var k := Lines.Break(t);
    if k < |t| {
      ScanLength(decode, t[k + 1..]);
    }
  }

  // The entries found by reading the file at each size in turn.
  function Reads(decode: string -> Option<Entry>, file: string, sizes: seq<nat>, from: nat, off: nat): seq<Entry>
    requires off <= from && Lines.Grows(sizes, from, |file|)
    decreases |sizes|
  {
    if sizes == [] then []
    else
      var found := PiScan(decode, file[off..sizes[0]]);
      ScanLength(decode, file[off..sizes[0]]);
      found.0 + Reads(decode, file, sizes[1..], sizes[0], off + found.1)
  }

  lemma {:induction false} ReadsAreRun(decode: string -> Option<Entry>, file: string, sizes: seq<nat>, from: nat, off: nat)
    requires Lines.JsonRules(decode) && off <= from && Lines.Grows(sizes, from, |file|) && Fits(file[off..])
    ensures Reads(decode, file, sizes, from, off) == Lines.Run(decode, Lines.Whole(decode), file, sizes, from, off)
    decreases |sizes|
  {
    hide *;
    if sizes == [] {
      NothingRead(decode, file, from, off);
    } else {
      Lines.GrowsStep(sizes, from, |file|);
      ReadsStep(decode, file, sizes, from, off);
      Lines.RunStep(decode, Lines.Whole(decode), file, sizes, from, off);
      var t := file[off..];
      assert file[off..sizes[0]] == t[0..sizes[0] - off];
      FitsPart(t, 0, sizes[0] - off);
      FittingScan(decode, file[off..sizes[0]]);
      ScanLength(decode, file[off..sizes[0]]);
      var n := PiScan(decode, file[off..sizes[0]]).1;
      FitsPart(t, n, |t|);
      assert t[n..|t|] == file[off + n..];
      ReadsAreRun(decode, file, sizes[1..], sizes[0], off + n);
    }
  }

  lemma {:induction false} NothingRead(decode: string -> Option<Entry>, file: string, from: nat, off: nat)
    requires off <= from && Lines.Grows([], from, |file|)
    ensures Reads(decode, file, [], from, off) == [] == Lines.Run(decode, Lines.Whole(decode), file, [], from, off)
  {
    hide Lines.Whole;
  }

  lemma {:induction false} ReadsStep(decode: string -> Option<Entry>, file: string, sizes: seq<nat>, from: nat, off: nat)
    requires sizes != [] && off <= from && Lines.Grows(sizes, from, |file|)
    ensures var found := PiScan(decode, file[off..sizes[0]]);
            found.1 <= sizes[0] - off
            && Reads(decode, file, sizes, from, off) == found.0 + Reads(decode, file, sizes[1..], sizes[0], off + found.1)
  {
    hide PiScan;
    ScanLength(decode, file[off..sizes[0]]);
  }

  lemma {:induction false} LoadsFold(decode: string -> Option<Entry>, file: string, sizes: seq<nat>, from: nat, p: Parsed, off: nat)
    requires off <= from && Lines.Grows(sizes, from, |file|)
    ensures Loads(decode, file, sizes, from, p, off) == IngestAll(p, Reads(decode, file, sizes, from, off))
    decreases |sizes|
  {
    hide PiScan;
    if sizes != [] {
      var found := PiScan(decode, file[off..sizes[0]]);
      ScanLength(decode, file[off..sizes[0]]);
      LoadsFold(decode, file, sizes[1..], sizes[0], IngestAll(p, found.0), off + found.1);
      IngestInTurn(p, found.0, Reads(decode, file, sizes[1..], sizes[0], off + found.1));
    }
  }

  /** However the file grows between reads, torn last lines included, the parser ends with the nodes,
      last id, sequence counter and header flag of one read of all of it: from the start, or from the
      line boundary at which a large file was entered. */
  lemma {:induction false} ParsingIgnoresGrowth(decode: string -> Option<Entry>, file: string, sizes: seq<nat>,
                                                from: nat, p: Parsed, off: nat)
    requires Lines.JsonRules(decode) && off <= from && sizes != [] && Lines.Grows(sizes, from, |file|)
    requires Fits(file[off..]) && Lines.AllTidy(decode, file[off..])
    ensures Loads(decode, file, sizes, from, p, off) == IngestAll(p, PiScan(decode, file[off..]).0)
  {
    hide *;
    Lines.GrowsStep(sizes, from, |file|);
    LoadsFold(decode, file, sizes, from, p, off);
    ReadsAreRun(decode, file, sizes, from, off);
    Lines.JsonIsSound(decode);
    Lines.AllTidyIsSafe(decode, file[off..]);
    Lines.AnyGrowthReadsTheSame(decode, Lines.Whole(decode), file, sizes, from, off);
    FittingScan(decode, file[off..]);
    Lines.ScanFindsRecords(decode, Lines.Whole(decode), file[off..]);
  }

  /** Exactly the files in which a record has nothing but JSON's own blanks around it on its line yield
      the same entries under every growth schedule. */
  lemma {:induction false} JunkIsTheOnlyTrouble(decode: string -> Option<Entry>, file: string)
    requires Lines.JsonRules(decode) && Fits(file)
    ensures (forall sizes :: sizes != [] && Lines.Grows(sizes, 0, |file|) ==>
               Reads(decode, file, sizes, 0, 0) == PiScan(decode, file).0)
            <==> Lines.AllTidy(decode, file)
  {
    hide *;
    Lines.JsonIsSound(decode);
    Lines.GrowthIndependentIff(decode, file);
    FittingScan(decode, file);
    Lines.ScanFindsRecords(decode, Lines.Whole(decode), file);
    forall sizes | sizes != [] && Lines.Grows(sizes, 0, |file|)
      ensures Reads(decode, file, sizes, 0, 0) == Lines.Run(decode, Lines.Whole(decode), file, sizes, 0, 0)
    {
      assert file[0..] == file;
      ReadsAreRun(decode, file, sizes, 0, 0);
    }
  }

  // ------------------------------------------------------------------ the active branch

  // From id towards the root: nodes still in the tree, each visited once.
  function Ancestry(nodes: map<string, Node>, id: string, seen: set<string>): (path: seq<Node>)
    decreases nodes.Keys - seen
  {
    if id == "" || id in seen || id !in nodes then []
    else
      var n := nodes[id];
      assert nodes.Keys - (seen + {id}) < nodes.Keys - seen by {
        assert id in nodes.Keys - seen;
      }
      [n] + if n.rootless then [] else Ancestry(nodes, n.parent, seen + {id})
  }

  ghost predicate InTree(nodes: map<string, Node>, seen: set<string>, path: seq<Node>) {
    forall i :: 0 <= i < |path| ==> path[i].id in nodes && path[i] == nodes[path[i].id] && path[i].id !in seen && path[i].id != ""
  }

  ghost predicate Distinct(path: seq<Node>) {
    forall i, j :: 0 <= i < j < |path| ==> path[i].id != path[j].id
  }

  ghost predicate Linked(path: seq<Node>) {
    forall i :: 0 <= i < |path| - 1 ==> !path[i].rootless && path[i + 1].id == path[i].parent
  }

  ghost predicate On(path: seq<Node>, id: string) {
    exists i :: 0 <= i < |path| && path[i].id == id
  }

  // Where the path starts, and that it stops only where the tree or an earlier visit stops it.
  ghost predicate Spans(nodes: map<string, Node>, id: string, seen: set<string>, path: seq<Node>) {
    if path == [] then id == "" || id in seen || id !in nodes
    else
      var top := path[|path| - 1];
      path[0].id == id && (top.rootless || top.parent == "" || top.parent in seen || top.parent !in nodes || On(path, top.parent))
  }

  // path leads from id along parent links, without repeats, as far as the tree goes.
  ghost predicate IsAncestry(nodes: map<string, Node>, id: string, seen: set<string>, path: seq<Node>) {
    InTree(nodes, seen, path) && Distinct(path) && Linked(path) && Spans(nodes, id, seen, path)
  }

  ghost predicate KeyedById(nodes: map<string, Node>) {
    forall id :: id in nodes ==> nodes[id].id == id
  }

  /** The walk stops: at a root, where a parent is missing, or where a cycle would close. */
  lemma {:induction false} AncestryIsAPath(nodes: map<string, Node>, id: string, seen: set<string>)
    requires KeyedById(nodes)
    ensures IsAncestry(nodes, id, seen, Ancestry(nodes, id, seen))
    decreases nodes.Keys - seen
  {
    hide Linked, Distinct, On;
    if id == "" || id in seen || id !in nodes {
      ShortPath([]);
    } else {
      var n := nodes[id];
      assert id in nodes.Keys - seen;
      if n.rootless {
        ShortPath([n]);
        assert Ancestry(nodes, id, seen) == [n];
      } else {
        var path := Ancestry(nodes, n.parent, seen + {id});
        AncestryIsAPath(nodes, n.parent, seen + {id});
        hide Ancestry, Spans;
        LongerPath(n, path, seen);
        LongerSpan(nodes, n, seen, path);
      }
    }
  }

  lemma {:induction false} ShortPath(path: seq<Node>)
    requires |path| <= 1
    ensures Distinct(path) && Linked(path)
  {
  }

  lemma {:induction false} LongerPath(n: Node, path: seq<Node>, seen: set<string>)
    requires Distinct(path) && Linked(path) && !n.rootless
    requires forall i :: 0 <= i < |path| ==> path[i].id !in seen + {n.id}
    requires path != [] ==> path[0].id == n.parent
    ensures Distinct([n] + path) && Linked([n] + path)
  {
    var whole := [n] + path;
    forall i | 0 <= i < |whole| - 1 ensures !whole[i].rootless && whole[i + 1].id == whole[i].parent {
      assert i > 0 ==> whole[i] == path[i - 1] && whole[i + 1] == path[i];
    }
  }

  lemma {:induction false} LongerSpan(nodes: map<string, Node>, n: Node, seen: set<string>, path: seq<Node>)
    requires n.id in nodes && n.id !in seen && n.id != "" && Spans(nodes, n.parent, seen + {n.id}, path)
    ensures Spans(nodes, n.id, seen, [n] + path)
  {
    var whole := [n] + path;
    var top := whole[|whole| - 1];
    assert whole[0] == n;
    if path == [] {
      assert top == n;
    } else {
      assert top == path[|path| - 1];
      if On(path, top.parent) {
        var i :| 0 <= i < |path| && path[i].id == top.parent;
        assert whole[i + 1].id == top.parent;
      }
    }
  }

  function Reverse<T>(s: seq<T>): seq<T> {
    seq(|s|, i requires 0 <= i < |s| => s[|s| - 1 - i])
  }

  // Root first: the branch ends at the last entry, each node follows its parent.
  lemma {:induction false} BranchIsRootFirst(nodes: map<string, Node>, last: string)
    requires KeyedById(nodes)
    ensures var branch := Reverse(Ancestry(nodes, last, {}));
            && (if branch == [] then last == "" || last !in nodes
                else last != "" && last in nodes && branch[|branch| - 1] == nodes[last])
            && (forall i :: 0 < i < |branch| ==> !branch[i].rootless && branch[i].parent == branch[i - 1].id)
            && (forall i :: 0 <= i < |branch| ==> branch[i].id in nodes && branch[i] == nodes[branch[i].id])
            && (branch != [] && !branch[0].rootless && branch[0].parent in nodes && branch[0].parent != "" ==>
                  exists i :: 0 <= i < |branch| && branch[i].id == branch[0].parent)
  {
    hide Ancestry;
    AncestryIsAPath(nodes, last, {});
    var path := Ancestry(nodes, last, {});
    var branch := Reverse(path);
    forall i | 0 < i < |branch| ensures !branch[i].rootless && branch[i].parent == branch[i - 1].id {
      var k := |path| - 1 - i;
      assert branch[i] == path[k] && branch[i - 1] == path[k + 1];
    }
    if branch != [] {
      assert branch[0] == path[|path| - 1] && branch[|branch| - 1] == path[0];
      if On(path, branch[0].parent) {
        var k :| 0 <= k < |path| && path[k].id == branch[0].parent;
        assert branch[|path| - 1 - k].id == branch[0].parent;
      }
    }
  }

  // ------------------------------------------------------------------ the snapshot

  // What the loop over the branch keeps, leaf last.
  datatype View = View(messages: seq<HistMsg>, turn: string, pending: map<string, string>, order: seq<string>,
                       role: string, stop: string, lastReply: string, lastActivity: int)

  const BLANK_VIEW := View([], "", map[], [], "", "", "", 0)

  function NoteCalls(pending: map<string, string>, calls: seq<Call>): map<string, string> {
    if calls == [] then pending
    else NoteCalls(pending, calls[..|calls| - 1])[calls[|calls| - 1].id := calls[|calls| - 1].title]
  }

  function CallIds(calls: seq<Call>): seq<string> {
    seq(|calls|, i requires 0 <= i < |calls| => calls[i].id)
  }

  function Shown(n: Node, m: Message, turn: string): seq<HistMsg> {
    var ts := if m.ts > 0 then m.ts else n.ts;
    if m.role == "user" then
      if m.text != "" || m.images > 0 then [Row("user", m.text, ts, turn, n, m.images)] else []
    else if m.role == "assistant" then
      var text := if m.stop == "error" && m.error != "" && m.text == "" then "⚠ " + m.error else m.text;
      if text != "" then [Row(if m.stop == "toolUse" then "commentary" else "reply", text, ts, turn, n, 0)] else []
    else []
  }

  function Row(role: string, text: string, ts: int, turn: string, n: Node, images: nat): HistMsg {
    HistMsg(role, text, ts, "", "", turn, n.seqNo, n.id, "", false, "", images, "")
  }

  function See(v: View, n: Node): View {
    var v := if n.ts > 0 then v.(lastActivity := n.ts) else v;
    if n.message.None? then v
    else
      var m := n.message.value;
      if m.role == "user" then
        v.(turn := n.id, pending := map[], order := [], messages := v.messages + Shown(n, m, n.id), role := m.role, stop := m.stop)
      else if m.role == "assistant" then
        var shown := Shown(n, m, v.turn);
        v.(pending := NoteCalls(v.pending, m.calls), order := v.order + CallIds(m.calls), messages := v.messages + shown,
           lastReply := if shown != [] && shown[0].role == "reply" then shown[0].content else v.lastReply,
           role := m.role, stop := m.stop)
      else if m.role == "toolResult" then
        v.(pending := v.pending - {m.toolCall}, role := m.role, stop := m.stop)
      else v
  }

  function SeeAll(branch: seq<Node>): View {
    if branch == [] then BLANK_VIEW else See(SeeAll(branch[..|branch| - 1]), branch[|branch| - 1])
  }

  predicate IsUser(n: Node) {
    n.message.Some? && n.message.value.role == "user"
  }

  // The id of the last user node, "" before the first.
  function TurnOf(branch: seq<Node>): string {
    if branch == [] then ""
    else if IsUser(branch[|branch| - 1]) then branch[|branch| - 1].id
    else TurnOf(branch[..|branch| - 1])
  }

  // A user node shows its text or its images, an assistant node its text or, failing that, its error.
  predicate HasRow(n: Node) {
    n.message.Some? &&
    var m := n.message.value;
    || (m.role == "user" && (m.text != "" || m.images > 0))
    || (m.role == "assistant" && (m.text != "" || (m.stop == "error" && m.error != "")))
  }

  predicate ShownAs(row: HistMsg, n: Node) {
    HasRow(n) &&
    var m := n.message.value;
    && row.role == (if m.role == "user" then "user" else if m.stop == "toolUse" then "commentary" else "reply")
    && row.content == (if m.text != "" || m.role == "user" then m.text else "⚠ " + m.error)
    && row.ts == (if m.ts > 0 then m.ts else n.ts)
    && row.images == (if m.role == "user" then m.images else 0)
  }

  lemma {:induction false} SeeStep(v: View, n: Node)
    ensures See(v, n).turn == if IsUser(n) then n.id else v.turn
    ensures var rows := See(v, n).messages;
            if HasRow(n) then
              rows != [] && rows[..|rows| - 1] == v.messages && ShownAs(rows[|rows| - 1], n)
              && rows[|rows| - 1].id == n.id && rows[|rows| - 1].seqNo == n.seqNo && rows[|rows| - 1].turn == See(v, n).turn
            else rows == v.messages
  {
    if n.message.Some? {
      var shown := Shown(n, n.message.value, See(v, n).turn);
      assert shown == [] || shown == [shown[0]];
    }
  }

  // The row shows the i-th node and carries the id of the user node that opened its turn.
  predicate StandsFor(m: HistMsg, branch: seq<Node>, i: nat) {
    i < |branch| && m.id == branch[i].id && m.seqNo == branch[i].seqNo && m.turn == TurnOf(branch[..i + 1])
    && ShownAs(m, branch[i])
  }

  lemma {:induction false} StandsForLonger(m: HistMsg, front: seq<Node>, n: Node, i: nat)
    requires StandsFor(m, front, i)
    ensures StandsFor(m, front + [n], i) && i < |front|
  {
    hide ShownAs, TurnOf;
    assert front[..i + 1] == (front + [n])[..i + 1];
  }

  // Each row stands for a node of the branch, at[k] for the k-th, in branch order, and every node that
  // has something to show has a row.
  ghost predicate Follows(rows: seq<HistMsg>, branch: seq<Node>, at: seq<nat>) {
    && |at| == |rows|
    && (forall k :: 0 <= k < |at| ==> StandsFor(rows[k], branch, at[k]))
    && (forall j, k :: 0 <= j < k < |at| ==> at[j] < at[k])
    && (forall i: nat :: i < |branch| && HasRow(branch[i]) ==> i in at)
  }

  lemma {:induction false} FollowsLonger(rows: seq<HistMsg>, front: seq<Node>, n: Node, at: seq<nat>)
    requires Follows(rows, front, at) && !HasRow(n)
    ensures Follows(rows, front + [n], at)
  {
    hide StandsFor, HasRow;
    forall k | 0 <= k < |at| ensures StandsFor(rows[k], front + [n], at[k]) {
      StandsForLonger(rows[k], front, n, at[k]);
    }
    forall i: nat | i < |front + [n]| && HasRow((front + [n])[i]) ensures i in at {
      assert i < |front| && HasRow(front[i]);
    }
  }

  lemma {:induction false} FollowsSnoc(rows: seq<HistMsg>, m: HistMsg, front: seq<Node>, n: Node, at: seq<nat>)
    requires Follows(rows, front, at) && StandsFor(m, front + [n], |front|)
    ensures Follows(rows + [m], front + [n], at + [|front|])
  {
    hide StandsFor, HasRow, ShownAs;
    var branch, all, more := front + [n], rows + [m], at + [|front|];
    forall k | 0 <= k < |at| ensures at[k] < |front| && StandsFor(rows[k], branch, at[k]) {
      StandsForLonger(rows[k], front, n, at[k]);
    }
    forall k | 0 <= k < |more| ensures StandsFor(all[k], branch, more[k]) {
      assert if k < |at| then more[k] == at[k] && all[k] == rows[k] else more[k] == |front| && all[k] == m;
    }
    forall i: nat | i < |branch| && HasRow(branch[i]) ensures i in more {
      if i < |front| {
        assert branch[i] == front[i] && i in at;
      } else {
        assert more[|at|] == i;
      }
    }
  }

  lemma {:induction false} RowsStep(front: seq<Node>, n: Node, at: seq<nat>)
    requires Follows(SeeAll(front).messages, front, at) && SeeAll(front).turn == TurnOf(front)
    ensures SeeAll(front + [n]).turn == TurnOf(front + [n])
    ensures Follows(SeeAll(front + [n]).messages, front + [n], if HasRow(n) then at + [|front|] else at)
  {
    hide See, Follows, HasRow, ShownAs;
    var branch := front + [n];
    SeeStep(SeeAll(front), n);
    assert branch[..|front|] == front && branch[..|front| + 1] == branch && branch[|front|] == n;
    var before, after := SeeAll(front).messages, SeeAll(branch).messages;
    if HasRow(n) {
      var m := after[|after| - 1];
      assert after == before + [m];
      FollowsSnoc(before, m, front, n, at);
    } else {
      FollowsLonger(before, front, n, at);
    }
  }

  /** The rows shown stand for the nodes of the branch that have something to show, each for one, in
      branch order, and carry the id of the user node that opened their turn. */
  lemma {:induction false} RowsFollowTheBranch(branch: seq<Node>) returns (at: seq<nat>)
    ensures SeeAll(branch).turn == TurnOf(branch)
    ensures Follows(SeeAll(branch).messages, branch, at)
    ensures forall i: nat :: i in at <==> i < |branch| && HasRow(branch[i])
    decreases |branch|
  {
    hide See, HasRow, StandsFor;
    if branch == [] {
      at := [];
    } else {
      var front, n := branch[..|branch| - 1], branch[|branch| - 1];
      at := RowsFollowTheBranch(front);
      RowsStep(front, n, at);
      assert branch == front + [n];
      at := if HasRow(n) then at + [|front|] else at;
    }
    OnlyTheirs(SeeAll(branch).messages, branch, at);
  }

  lemma {:induction false} OnlyTheirs(rows: seq<HistMsg>, branch: seq<Node>, at: seq<nat>)
    requires Follows(rows, branch, at)
    ensures forall i: nat :: i in at <==> i < |branch| && HasRow(branch[i])
  {
    hide HasRow;
    forall i: nat | i in at ensures i < |branch| && HasRow(branch[i]) {
      var k :| 0 <= k < |at| && at[k] == i;
      assert StandsFor(rows[k], branch, at[k]);
    }
  }

  ghost predicate LastReplyAt(rows: seq<HistMsg>, k: nat) {
    k < |rows| && rows[k].role == "reply" && forall j :: k < j < |rows| ==> rows[j].role != "reply"
  }

  // reply is the content of the last reply among the rows.
  ghost predicate IsLastReply(rows: seq<HistMsg>, reply: string) {
    && (forall k: nat :: LastReplyAt(rows, k) ==> reply == rows[k].content)
    && ((forall k :: 0 <= k < |rows| ==> rows[k].role != "reply") ==> reply == "")
  }

  lemma {:induction false} LastReplySnoc(rows: seq<HistMsg>, m: HistMsg, reply: string)
    requires IsLastReply(rows, reply)
    ensures IsLastReply(rows + [m], if m.role == "reply" then m.content else reply)
  {
    var more := rows + [m];
    assert more[|rows|] == m;
    assert forall k :: 0 <= k < |rows| ==> more[k] == rows[k];
    forall k: nat | LastReplyAt(more, k)
      ensures (if m.role == "reply" then m.content else reply) == more[k].content
    {
      if k < |rows| {
        assert LastReplyAt(rows, k);
      }
    }
  }

  lemma {:induction false} SeeReply(v: View, n: Node)
    ensures var rows := See(v, n).messages;
            See(v, n).lastReply == if HasRow(n) && rows != [] && rows[|rows| - 1].role == "reply"
                                   then rows[|rows| - 1].content else v.lastReply
  {
  }

  lemma {:induction false} ReplyIsLast(branch: seq<Node>)
    ensures IsLastReply(SeeAll(branch).messages, SeeAll(branch).lastReply)
    decreases |branch|
  {
    if branch != [] {
      var front, n := branch[..|branch| - 1], branch[|branch| - 1];
      ReplyIsLast(front);
      SeeStep(SeeAll(front), n);
      SeeReply(SeeAll(front), n);
      var before, after := SeeAll(front), SeeAll(branch);
      hide See, SeeAll, IsLastReply, HasRow, ShownAs;
      if HasRow(n) {
        var m := after.messages[|after.messages| - 1];
        assert after.messages == before.messages + [m];
        LastReplySnoc(before.messages, m, before.lastReply);
      }
    }
  }

  ghost predicate LastTimed(branch: seq<Node>, i: nat) {
    i < |branch| && branch[i].ts > 0 && forall j :: i < j < |branch| ==> branch[j].ts <= 0
  }

  // The time of the last node that has one.
  ghost predicate IsLastActivity(branch: seq<Node>, ts: int) {
    && (forall i: nat :: LastTimed(branch, i) ==> ts == branch[i].ts)
    && ((forall i :: 0 <= i < |branch| ==> branch[i].ts <= 0) ==> ts == 0)
  }

  lemma {:induction false} LastTimedSnoc(front: seq<Node>, n: Node, ts: int)
    requires IsLastActivity(front, ts)
    ensures IsLastActivity(front + [n], if n.ts > 0 then n.ts else ts)
  {
    var branch := front + [n];
    assert branch[|front|] == n;
    assert forall i :: 0 <= i < |front| ==> branch[i] == front[i];
    forall i: nat | LastTimed(branch, i) ensures (if n.ts > 0 then n.ts else ts) == branch[i].ts {
      if i < |front| {
        assert LastTimed(front, i);
      }
    }
  }

  lemma {:induction false} ActivityIsLast(branch: seq<Node>)
    ensures IsLastActivity(branch, SeeAll(branch).lastActivity)
    decreases |branch|
  {
    hide See, IsLastActivity;
    if branch == [] {
      NothingTimed();
    } else {
      var front, n := branch[..|branch| - 1], branch[|branch| - 1];
      ActivityIsLast(front);
      SeeActivity(SeeAll(front), n);
      LastTimedSnoc(front, n, SeeAll(front).lastActivity);
      assert branch == front + [n];
    }
  }

  lemma {:induction false} NothingTimed()
    ensures IsLastActivity([], 0) && IsLastTalk([], "", "")
  {
  }

  lemma {:induction false} SeeActivity(v: View, n: Node)
    ensures See(v, n).lastActivity == if n.ts > 0 then n.ts else v.lastActivity
  {
  }

  predicate Talks(n: Node) {
    n.message.Some? && n.message.value.role in {"user", "assistant", "toolResult"}
  }

  ghost predicate LastTalk(branch: seq<Node>, i: nat) {
    i < |branch| && Talks(branch[i]) && forall j :: i < j < |branch| ==> !Talks(branch[j])
  }

  // role and stop are those of the last node that talks.
  ghost predicate IsLastTalk(branch: seq<Node>, role: string, stop: string) {
    && (forall i: nat :: LastTalk(branch, i) ==> role == branch[i].message.value.role && stop == branch[i].message.value.stop)
    && ((forall i :: 0 <= i < |branch| ==> !Talks(branch[i])) ==> role == "" && stop == "")
  }

  lemma {:induction false} LastTalkSnoc(front: seq<Node>, n: Node, role: string, stop: string)
    requires IsLastTalk(front, role, stop)
    ensures if Talks(n) then IsLastTalk(front + [n], n.message.value.role, n.message.value.stop)
            else IsLastTalk(front + [n], role, stop)
  {
    var branch := front + [n];
    assert branch[|front|] == n;
    assert forall i :: 0 <= i < |front| ==> branch[i] == front[i];
    forall i: nat | LastTalk(branch, i) && i < |front| ensures LastTalk(front, i) && !Talks(n) {
    }
  }

  lemma {:induction false} RoleIsLast(branch: seq<Node>)
    ensures IsLastTalk(branch, SeeAll(branch).role, SeeAll(branch).stop)
    decreases |branch|
  {
    hide See, IsLastTalk, Talks;
    if branch == [] {
      NothingTimed();
    } else {
      var front, n := branch[..|branch| - 1], branch[|branch| - 1];
      RoleIsLast(front);
      SeeRole(SeeAll(front), n);
      LastTalkSnoc(front, n, SeeAll(front).role, SeeAll(front).stop);
      assert branch == front + [n];
    }
  }

  lemma {:induction false} SeeRole(v: View, n: Node)
    ensures if Talks(n) then See(v, n).role == n.message.value.role && See(v, n).stop == n.message.value.stop
            else See(v, n).role == v.role && See(v, n).stop == v.stop
  {
  }

  lemma {:induction false} SomeTalk(branch: seq<Node>, i: nat) returns (last: nat)
    requires i < |branch| && Talks(branch[i])
    ensures LastTalk(branch, last)
    decreases |branch| - i
  {
    if j :| i < j < |branch| && Talks(branch[j]) {
      last := SomeTalk(branch, j);
    } else {
      last := i;
    }
  }

  // No two rows share an id or a sequence number.
  lemma {:induction false} RowsDiffer(p: Parsed, branch: seq<Node>, j: nat, k: nat)
    requires WellNumbered(p) && branch == Reverse(Ancestry(p.nodes, p.last, {}))
    requires j < k < |SeeAll(branch).messages|
    ensures SeeAll(branch).messages[j].id != SeeAll(branch).messages[k].id
    ensures SeeAll(branch).messages[j].seqNo != SeeAll(branch).messages[k].seqNo
  {
    hide SeeAll, Ancestry, Reverse, WellNumbered;
    var at := RowsFollowTheBranch(branch);
    BranchDiffers(p, branch, at[j], at[k]);
  }

  lemma {:induction false} BranchDiffers(p: Parsed, branch: seq<Node>, i: nat, j: nat)
    requires WellNumbered(p) && branch == Reverse(Ancestry(p.nodes, p.last, {})) && i < j < |branch|
    ensures branch[i].id != branch[j].id && branch[i].seqNo != branch[j].seqNo
  {
    hide Ancestry, Linked, Spans, On;
    AncestryIsAPath(p.nodes, p.last, {});
    var path := Ancestry(p.nodes, p.last, {});
    var a, b := |path| - 1 - i, |path| - 1 - j;
    assert branch[i] == path[a] && branch[j] == path[b] && b < a;
    assert path[b].id != path[a].id;
  }

  // ------------------------------------------------------------------ open tool calls

  predicate Calls(n: Node, id: string) {
    n.message.Some? && n.message.value.role == "assistant"
    && exists c :: 0 <= c < |n.message.value.calls| && n.message.value.calls[c].id == id
  }

  // A user message abandons every call before it; a result closes its own.
  predicate Closes(n: Node, id: string) {
    n.message.Some? && (n.message.value.role == "user" || (n.message.value.role == "toolResult" && n.message.value.toolCall == id))
  }

  ghost predicate Unanswered(branch: seq<Node>, id: string) {
    exists i :: 0 <= i < |branch| && Calls(branch[i], id) && forall j :: i < j < |branch| ==> !Closes(branch[j], id)
  }

  lemma {:induction false} NotedCalls(pending: map<string, string>, calls: seq<Call>, id: string)
    ensures id in NoteCalls(pending, calls) <==> id in pending || exists c :: 0 <= c < |calls| && calls[c].id == id
    decreases |calls|
  {
    if calls != [] {
      var front := calls[..|calls| - 1];
      NotedCalls(pending, front, id);
      assert forall c :: 0 <= c < |front| ==> front[c] == calls[c];
    }
  }

  lemma {:induction false} UnansweredSnoc(front: seq<Node>, n: Node, id: string)
    ensures Unanswered(front + [n], id) <==> Calls(n, id) || (Unanswered(front, id) && !Closes(n, id))
  {
    var branch := front + [n];
    if Calls(n, id) {
      assert branch[|front|] == n;
    } else if Unanswered(front, id) && !Closes(n, id) {
      var i :| 0 <= i < |front| && Calls(front[i], id) && forall j :: i < j < |front| ==> !Closes(front[j], id);
      assert Calls(branch[i], id) && forall j :: i < j < |branch| ==> !Closes(branch[j], id);
    }
    if Unanswered(branch, id) {
      var i :| 0 <= i < |branch| && Calls(branch[i], id) && forall j :: i < j < |branch| ==> !Closes(branch[j], id);
      if i < |front| {
        assert !Closes(branch[|front|], id);
        assert forall j :: i < j < |front| ==> branch[j] == front[j];
        assert Calls(front[i], id);
      }
    }
  }

  /** The calls kept pending at the end of the branch are those made and not answered since the last
      user message. */
  lemma {:induction false} PendingIsUnanswered(branch: seq<Node>, id: string)
    ensures id in SeeAll(branch).pending <==> Unanswered(branch, id)
    decreases |branch|
  {
    if branch != [] {
      var front, n := branch[..|branch| - 1], branch[|branch| - 1];
      PendingIsUnanswered(front, id);
      assert branch == front + [n];
      UnansweredSnoc(front, n, id);
      if n.message.Some? && n.message.value.role == "assistant" {
        NotedCalls(SeeAll(front).pending, n.message.value.calls, id);
      }
      hide Unanswered;
    }
  }

  // The c-th call of the i-th node.
  datatype Place = Place(i: nat, c: nat)

  predicate IsCall(branch: seq<Node>, p: Place) {
    p.i < |branch| && branch[p.i].message.Some? && branch[p.i].message.value.role == "assistant"
    && p.c < |branch[p.i].message.value.calls|
  }

  function CallAt(branch: seq<Node>, p: Place): Call
    requires IsCall(branch, p)
  {
    branch[p.i].message.value.calls[p.c]
  }

  predicate Before(p: Place, q: Place) {
    p.i < q.i || (p.i == q.i && p.c < q.c)
  }

  // No user message follows.
  ghost predicate InTurn(branch: seq<Node>, p: Place) {
    forall j :: p.i < j < |branch| ==> !IsUser(branch[j])
  }

  // The last call of the branch whose id is unanswered.
  ghost predicate LastOpen(branch: seq<Node>, p: Place) {
    && IsCall(branch, p) && Unanswered(branch, CallAt(branch, p).id)
    && forall q :: IsCall(branch, q) && Before(p, q) ==> !Unanswered(branch, CallAt(branch, q).id)
  }

  // The calls since the last user message.
  ghost function Places(branch: seq<Node>): seq<Place> {
    if branch == [] then []
    else
      var front, n := branch[..|branch| - 1], branch[|branch| - 1];
      if IsUser(n) then []
      else Places(front) + if n.message.Some? && n.message.value.role == "assistant" then PlacesOf(|front|, n.message.value.calls) else []
  }

  ghost function PlacesOf(i: nat, calls: seq<Call>): seq<Place> {
    seq(|calls|, c requires 0 <= c < |calls| => Place(i, c))
  }

  ghost function TitlesOf(branch: seq<Node>, at: seq<Place>): seq<string>
    requires forall k :: 0 <= k < |at| ==> IsCall(branch, at[k])
  {
    seq(|at|, k requires 0 <= k < |at| => CallAt(branch, at[k]).title)
  }

  ghost predicate Ordered(branch: seq<Node>, at: seq<Place>) {
    && (forall k :: 0 <= k < |at| ==> IsCall(branch, at[k]) && InTurn(branch, at[k]))
    && (forall j, k :: 0 <= j < k < |at| ==> Before(at[j], at[k]))
  }

  lemma {:induction false} CallLonger(front: seq<Node>, n: Node, p: Place)
    requires IsCall(front, p)
    ensures IsCall(front + [n], p) && CallAt(front + [n], p) == CallAt(front, p)
    ensures InTurn(front + [n], p) <==> InTurn(front, p) && !IsUser(n)
  {
    var branch := front + [n];
    assert branch[|front|] == n;
    assert forall i :: 0 <= i < |front| ==> branch[i] == front[i];
  }

  lemma {:induction false} PlacesOrdered(branch: seq<Node>)
    ensures Ordered(branch, Places(branch))
    decreases |branch|
  {
    hide CallAt, InTurn, IsUser;
    if branch != [] {
      var front, n := branch[..|branch| - 1], branch[|branch| - 1];
      assert branch == front + [n];
      PlacesOrdered(front);
      var at, more := Places(front), Places(branch);
      if !IsUser(n) {
        forall k | 0 <= k < |at| ensures IsCall(branch, at[k]) && InTurn(branch, at[k]) && at[k].i < |front| {
          CallLonger(front, n, at[k]);
        }
        forall k | |at| <= k < |more| ensures more[k] == Place(|front|, k - |at|) && IsCall(branch, more[k]) && InTurn(branch, more[k]) {
          LastInTurn(branch, more[k]);
        }
      }
    }
  }

  lemma {:induction false} LastInTurn(branch: seq<Node>, p: Place)
    requires p.i == |branch| - 1
    ensures InTurn(branch, p)
  {
  }

  lemma {:induction false} PlacesComplete(branch: seq<Node>, p: Place)
    requires IsCall(branch, p) && InTurn(branch, p)
    ensures p in Places(branch)
    decreases |branch|
  {
    var front, n := branch[..|branch| - 1], branch[|branch| - 1];
    assert branch == front + [n];
    hide CallAt;
    if p.i < |front| {
      assert IsCall(front, p);
      CallLonger(front, n, p);
      PlacesComplete(front, p);
    } else {
      assert PlacesOf(|front|, n.message.value.calls)[p.c] == p;
    }
  }

  // A pending id has the title of its last call.
  ghost predicate Latest(order: seq<string>, titles: seq<string>, pending: map<string, string>) {
    && |titles| == |order|
    && (forall id :: id in pending ==> id in order)
    && (forall k :: 0 <= k < |order| && order[k] in pending && order[k] !in order[k + 1..] ==> pending[order[k]] == titles[k])
  }

  lemma {:induction false} LatestSnoc(order: seq<string>, titles: seq<string>, pending: map<string, string>, id: string, title: string)
    requires Latest(order, titles, pending)
    ensures Latest(order + [id], titles + [title], pending[id := title])
  {
    var more := order + [id];
    assert more[|order|] == id;
    forall k | 0 <= k < |more| && more[k] in pending[id := title] && more[k] !in more[k + 1..]
      ensures pending[id := title][more[k]] == (titles + [title])[k]
    {
      if k < |order| {
        assert more[k + 1..] == order[k + 1..] + [id];
        assert more[k] == order[k];
      }
    }
    forall x | x in pending[id := title] ensures x in more {
      assert x in order || x == id;
    }
  }

  function CallTitles(calls: seq<Call>): seq<string> {
    seq(|calls|, i requires 0 <= i < |calls| => calls[i].title)
  }

  lemma {:induction false} LatestNoted(order: seq<string>, titles: seq<string>, pending: map<string, string>, calls: seq<Call>)
    requires Latest(order, titles, pending)
    ensures Latest(order + CallIds(calls), titles + CallTitles(calls), NoteCalls(pending, calls))
    decreases |calls|
  {
    hide Latest;
    if calls == [] {
      assert order + [] == order && titles + [] == titles;
    } else {
      var front, c := calls[..|calls| - 1], calls[|calls| - 1];
      LatestNoted(order, titles, pending, front);
      LatestSnoc(order + CallIds(front), titles + CallTitles(front), NoteCalls(pending, front), c.id, c.title);
      assert order + CallIds(calls) == order + CallIds(front) + [c.id];
      assert titles + CallTitles(calls) == titles + CallTitles(front) + [c.title];
    }
  }

  lemma {:induction false} LatestFewer(order: seq<string>, titles: seq<string>, pending: map<string, string>, id: string)
    requires Latest(order, titles, pending)
    ensures Latest(order, titles, pending - {id})
  {
  }

  // The order and the pending titles are those of the calls since the last user message.
  ghost predicate Kept(branch: seq<Node>, v: View) {
    var at := Places(branch);
    && |v.order| == |at|
    && (forall k :: 0 <= k < |at| ==> IsCall(branch, at[k]) && CallAt(branch, at[k]).id == v.order[k])
    && Latest(v.order, TitlesOf(branch, at), v.pending)
  }

  lemma {:induction false} TitlesLonger(front: seq<Node>, n: Node, at: seq<Place>)
    requires forall k :: 0 <= k < |at| ==> IsCall(front, at[k])
    ensures forall k :: 0 <= k < |at| ==> IsCall(front + [n], at[k]) && CallAt(front + [n], at[k]) == CallAt(front, at[k])
    ensures TitlesOf(front + [n], at) == TitlesOf(front, at)
  {
    hide InTurn;
    forall k | 0 <= k < |at| ensures IsCall(front + [n], at[k]) && CallAt(front + [n], at[k]) == CallAt(front, at[k]) {
      CallLonger(front, n, at[k]);
    }
  }

  lemma {:induction false} AssistantKeeps(front: seq<Node>, n: Node, v: View)
    requires Kept(front, v) && n.message.Some? && n.message.value.role == "assistant"
    ensures Kept(front + [n], See(v, n))
  {
    hide Latest, Shown, NoteCalls, InTurn;
    var branch, calls := front + [n], n.message.value.calls;
    var at, new_ := Places(front), PlacesOf(|front|, calls);
    assert branch[..|front|] == front && branch[|front|] == n;
    TitlesLonger(front, n, at);
    assert Places(branch) == at + new_;
    LatestNoted(v.order, TitlesOf(front, at), v.pending, calls);
    forall k | 0 <= k < |new_| ensures IsCall(branch, new_[k]) && CallAt(branch, new_[k]) == calls[k] {
    }
    assert TitlesOf(branch, at + new_) == TitlesOf(front, at) + CallTitles(calls);
  }

  lemma {:induction false} OthersKeep(front: seq<Node>, n: Node, v: View)
    requires Kept(front, v) && !(n.message.Some? && n.message.value.role == "assistant")
    ensures Kept(front + [n], See(v, n))
  {
    hide Latest, Shown, NoteCalls, InTurn;
    var branch := front + [n];
    var at := Places(front);
    assert branch[..|front|] == front && branch[|front|] == n;
    if IsUser(n) {
      NothingLatest();
      assert TitlesOf(branch, []) == [];
    } else {
      TitlesLonger(front, n, at);
      assert at + [] == at;
      if n.message.Some? {
        LatestFewer(v.order, TitlesOf(front, at), v.pending, n.message.value.toolCall);
      }
    }
  }

  lemma {:induction false} NothingLatest()
    ensures Latest([], [], map[])
  {
  }

  lemma {:induction false} CallsAreKept(branch: seq<Node>)
    ensures Kept(branch, SeeAll(branch))
    decreases |branch|
  {
    hide See, Kept;
    if branch == [] {
      KeptAtFirst();
    } else {
      var front, n := branch[..|branch| - 1], branch[|branch| - 1];
      CallsAreKept(front);
      assert branch == front + [n];
      if n.message.Some? && n.message.value.role == "assistant" {
        AssistantKeeps(front, n, SeeAll(front));
      } else {
        OthersKeep(front, n, SeeAll(front));
      }
    }
  }

  lemma {:induction false} KeptAtFirst()
    ensures Kept([], BLANK_VIEW)
  {
    assert TitlesOf([], []) == [];
  }

  // ------------------------------------------------------------------ the parser

  datatype Tail = Tail(working: bool, currentTool: string)

  datatype Snapshot = Snapshot(messages: seq<HistMsg>, lastReply: string, lastActivity: int, sequence: int, state: string,
                               truncated: bool)

  // The title of the last call in order that is still open.
  function OpenTool(order: seq<string>, pending: map<string, string>): string {
    if order == [] then ""
    else
      var id := order[|order| - 1];
      if id in pending then pending[id] else OpenTool(order[..|order| - 1], pending)
  }

  ghost predicate LastPending(order: seq<string>, pending: map<string, string>, k: nat) {
    k < |order| && order[k] in pending && forall j :: k < j < |order| ==> order[j] !in pending
  }

  lemma {:induction false} OpenToolIsLast(order: seq<string>, pending: map<string, string>)
    returns (k: nat)
    ensures if k < |order| then LastPending(order, pending, k) && OpenTool(order, pending) == pending[order[k]]
            else (forall j :: 0 <= j < |order| ==> order[j] !in pending) && OpenTool(order, pending) == ""
    decreases |order|
  {
    if order == [] {
      k := 0;
    } else if order[|order| - 1] in pending {
      k := |order| - 1;
    } else {
      var front := order[..|order| - 1];
      k := OpenToolIsLast(front, pending);
      k := if k < |front| then k else |order|;
    }
  }

  // The tool shown is the last call of the branch that is still unanswered.
  lemma {:induction false} ToolIsLastOpen(branch: seq<Node>)
    ensures var v := SeeAll(branch);
            && (forall p :: LastOpen(branch, p) ==> OpenTool(v.order, v.pending) == CallAt(branch, p).title)
            && ((forall id :: !Unanswered(branch, id)) ==> OpenTool(v.order, v.pending) == "")
            && ((exists id :: Unanswered(branch, id)) ==> exists p :: LastOpen(branch, p))
  {
    hide SeeAll, Unanswered, OpenTool, Latest, Places;
    var v, at := SeeAll(branch), Places(branch);
    CallsAreKept(branch);
    PlacesOrdered(branch);
    forall id ensures id in v.pending <==> Unanswered(branch, id) {
      PendingIsUnanswered(branch, id);
    }
    var k := OpenToolIsLast(v.order, v.pending);
    if k < |at| {
      LastPlaceIsOpen(branch, v, k);
      forall p | LastOpen(branch, p) ensures p == at[k] {
        OneLastOpen(branch, p, at[k]);
      }
    } else {
      NoneIsOpen(branch, v);
    }
  }

  lemma {:induction false} OneLastOpen(branch: seq<Node>, p: Place, q: Place)
    requires LastOpen(branch, p) && LastOpen(branch, q)
    ensures p == q
  {
    hide Unanswered;
    assert Before(p, q) || Before(q, p) || p == q;
  }

  lemma {:induction false} LastPlaceIsOpen(branch: seq<Node>, v: View, k: nat)
    requires Kept(branch, v) && Ordered(branch, Places(branch)) && LastPending(v.order, v.pending, k)
    requires forall id :: id in v.pending <==> Unanswered(branch, id)
    ensures LastOpen(branch, Places(branch)[k]) && v.pending[v.order[k]] == CallAt(branch, Places(branch)[k]).title
  {
    hide Unanswered, Places;
    var at := Places(branch);
    forall q | IsCall(branch, q) && Before(at[k], q) ensures !Unanswered(branch, CallAt(branch, q).id) {
      assert InTurn(branch, at[k]);
      PlacesComplete(branch, q);
      var j :| 0 <= j < |at| && at[j] == q;
      assert j <= k ==> at[j] == at[k] || Before(at[j], at[k]);
      assert v.order[j] == CallAt(branch, q).id;
    }
    assert v.order[k] !in v.order[k + 1..];
    assert TitlesOf(branch, at)[k] == CallAt(branch, at[k]).title;
  }

  lemma {:induction false} NoneIsOpen(branch: seq<Node>, v: View)
    requires Kept(branch, v) && forall j :: 0 <= j < |v.order| ==> v.order[j] !in v.pending
    requires forall id :: id in v.pending <==> Unanswered(branch, id)
    ensures forall id :: !Unanswered(branch, id)
  {
    hide Unanswered, Places, TitlesOf;
    forall id ensures !Unanswered(branch, id) {
      if id in v.pending {
        assert false;
      }
    }
  }

  predicate MidTurn(v: View) {
    v.role == "user" || v.role == "toolResult" || (v.role == "assistant" && v.stop == "toolUse")
  }

  function Summary(v: View, sequence: int, truncated: bool): (Snapshot, Tail) {
    var state := if MidTurn(v) || v.role != "assistant" then "idle" else if v.stop == "aborted" then "interrupted" else "completed";
    (Snapshot(v.messages, v.lastReply, v.lastActivity, sequence, state, truncated),
     Tail(MidTurn(v), if MidTurn(v) then OpenTool(v.order, v.pending) else ""))
  }

  // What a parser holds: the entries, the offset reached and whether the start was skipped.
  datatype Held = Held(parsed: Parsed, offset: nat, truncated: bool)

  // The snapshot of what is held; none without a session header.
  function Built(h: Held): Option<(Snapshot, Tail)> {
    if !h.parsed.sawHeader then None
    else Some(Summary(SeeAll(Reverse(Ancestry(h.parsed.nodes, h.parsed.last, {}))), h.parsed.fileSeq, h.truncated))
  }

  // What the end of the branch says: whether the agent works, its state, and the tool it runs.
  ghost predicate EndsAs(branch: seq<Node>, state: string, tail: Tail) {
    && (forall i: nat :: LastTalk(branch, i) ==>
          var m := branch[i].message.value;
          && (tail.working <==> m.role != "assistant" || m.stop == "toolUse")
          && state == if m.role != "assistant" || m.stop == "toolUse" then "idle"
                      else if m.stop == "aborted" then "interrupted" else "completed")
    && ((forall i :: 0 <= i < |branch| ==> !Talks(branch[i])) ==> !tail.working && state == "idle")
    && (tail.working ==>
          && (forall p :: LastOpen(branch, p) ==> tail.currentTool == CallAt(branch, p).title)
          && ((forall id :: !Unanswered(branch, id)) ==> tail.currentTool == ""))
    && (!tail.working ==> tail.currentTool == "")
  }

  lemma {:induction false} SummaryEnds(branch: seq<Node>, sequence: int, truncated: bool)
    ensures var (s, tail) := Summary(SeeAll(branch), sequence, truncated); EndsAs(branch, s.state, tail)
  {
    hide SeeAll, OpenTool, Unanswered, IsCall, CallAt, LastOpen;
    RoleIsLast(branch);
    ToolIsLastOpen(branch);
  }

  /** The snapshot, said of the active branch: which nodes have rows and what the rows show, the last
      reply, the last activity, whether and at what the agent works; none without a header. */
  lemma {:induction false} SnapshotShowsTheBranch(h: Held) returns (branch: seq<Node>, at: seq<nat>)
    ensures Built(h).Some? <==> h.parsed.sawHeader
    ensures branch == Reverse(Ancestry(h.parsed.nodes, h.parsed.last, {}))
    ensures Built(h).Some? ==>
              var (s, tail) := Built(h).value;
              && Follows(s.messages, branch, at) && (forall i: nat :: i in at <==> i < |branch| && HasRow(branch[i]))
              && IsLastReply(s.messages, s.lastReply) && IsLastActivity(branch, s.lastActivity)
              && EndsAs(branch, s.state, tail) && s.sequence == h.parsed.fileSeq && s.truncated == h.truncated
  {
    hide SeeAll, Follows, HasRow, IsLastReply, IsLastActivity, EndsAs, Ancestry, Reverse, OpenTool;
    branch := Reverse(Ancestry(h.parsed.nodes, h.parsed.last, {}));
    at := RowsFollowTheBranch(branch);
    ReplyIsLast(branch);
    ActivityIsLast(branch);
    SummaryEnds(branch, h.parsed.fileSeq, h.truncated);
  }

  // Reading on from the offset.
  function ReadOn(decode: string -> Option<Entry>, h: Held, file: string): Held
    requires h.offset <= |file|
  {
    var found := PiScan(decode, file[h.offset..]);
    Held(IngestAll(h.parsed, found.0), h.offset + found.1, h.truncated)
  }

  // The length of the first line, its line break included.
  function LineSize(t: string): (n: nat)
    ensures n <= |t|
  {
    var k := Lines.Break(t);
    if k < |t| then k + 1 else k
  }

  // The first line boundary in the last TAIL characters.
  function TailStart(file: string): (start: nat)
    requires |file| > TAIL
    ensures |file| - TAIL <= start <= |file|
  {
    var from := |file| - TAIL - 1;
    var n := LineSize(file[from..]);
    assert n >= 1;
    from + n
  }

  // Reading a file for the first time.
  function ReadAll(decode: string -> Option<Entry>, file: string): Held {
    if |file| <= MAX_FILE then ReadOn(decode, Held(EMPTY, 0, false), file)
    else ReadOn(decode, Held(IngestAll(EMPTY, FirstLine(decode, file)), TailStart(file), true), file)
  }

  class Parser {
    const decode: string -> Option<Entry>
    var nodes: map<string, Node>
    var last: string
    var fileSeq: int
    var sawHeader: bool
    var truncated: bool
    var offset: nat

    ghost function State(): Parsed
      reads this
    {
      Parsed(nodes, last, fileSeq, sawHeader)
    }

    ghost function Content(): Held
      reads this
    {
      Held(State(), offset, truncated)
    }

    constructor (decode: string -> Option<Entry>)
      ensures this.decode == decode && Content() == Held(EMPTY, 0, false)
    {
      this.decode := decode;
      nodes, last, fileSeq, sawHeader, truncated, offset := map[], "", 0, false, false, 0;
    }

    // Reports whether the line was blank or a record.
    method IngestLine(line: string) returns (ok: bool)
      modifies this`nodes, this`last, this`fileSeq, this`sawHeader
      ensures ok == Eager(decode, line)
      ensures State() == IngestAll(old(State()), Found(decode, line))
    {
      hide Lines.Blank;
      if Lines.Blank(line) {
        return true;
      }
      match decode(line)
      case None =>
        return false;
      case Some(e) =>
        if e.kind == "session" {
          sawHeader := true;
        } else if e.id != "" {
          fileSeq := NextSeq(fileSeq, e.millis);
          var n := Node(e.id, if e.parent.Some? then e.parent.value else "", e.parent.None?, e.ts, fileSeq,
                        if e.kind == "message" then e.message else None);
          nodes := nodes[e.id := n];
          last := e.id;
        }
        return true;
    }

    // Reads the first line of rest: its length, and whether it ended in a line break.
    method FeedLine(rest: string) returns (n: nat, terminated: bool)
      requires rest != ""
      modifies this`nodes, this`last, this`fileSeq, this`sawHeader, this`offset
      ensures terminated == (Lines.Break(rest) < |rest|) && n == if terminated then Lines.Break(rest) + 1 else |rest|
      ensures offset == old(offset) + if terminated || n > MAX_LINE || Eager(decode, rest) then n else 0
      ensures State() == IngestAll(old(State()), FirstLine(decode, rest))
    {
      hide IngestAll, Eager, Found, Lines.Break;
      var k := Lines.Break(rest);
      terminated := k < |rest|;
      n := if terminated then k + 1 else k;
      var line := if n > MAX_LINE then "" else rest[..k];
      EmptyLine(decode);
      assert !terminated ==> rest[..k] == rest;
      var ok := IngestLine(line);
      // A complete line is consumed even when it is no record, an unterminated one only once it is.
      if ok || terminated {
        offset := offset + n;
      }
    }

    // Consumes what t holds, the text from the offset on.
    method Feed(t: string)
      modifies this`nodes, this`last, this`fileSeq, this`sawHeader, this`offset
      ensures offset == old(offset) + PiScan(decode, t).1
      ensures State() == IngestAll(old(State()), PiScan(decode, t).0)
    {
      hide *;
      var i, eof := 0, false;
      ghost var found: seq<Entry>, consumed := [], 0;
      ghost var was := State();
      IngestNone(was);
      EmptyLine(decode);
      assert t[0..] == t;
      while !eof && i < |t|
        invariant i <= |t| && State() == IngestAll(was, found) && offset == old(offset) + consumed
        invariant PiScan(decode, t).0 == found + if eof then [] else PiScan(decode, t[i..]).0
        invariant PiScan(decode, t).1 == consumed + if eof then 0 else PiScan(decode, t[i..]).1
      {
        var rest := t[i..];
        ghost var got := FirstLine(decode, rest);
        label Before:
        var n, terminated := FeedLine(rest);
        IngestInTurn(was, found, got);
        ScanStep(decode, rest, found);
        found, consumed := found + got, consumed + offset - old@Before(offset);
        Lines.Drop(t, i, n);
        i, eof := i + n, !terminated;
      }
      assert t[|t|..] == "";
      assert found + [] == found;
    }

    // The header line, then only the end of a file too large to parse whole.
    method FeedTail(file: string)
      requires |file| > MAX_FILE && Content() == Held(EMPTY, 0, false)
      modifies this
      ensures Content() == ReadAll(decode, file)
    {
      hide IngestAll, PiScan, FirstLine, LineSize;
      var n, terminated := FeedLine(file);
      var from := |file| - TAIL - 1;
      truncated := true;
      offset := from + LineSize(file[from..]);
      assert offset == TailStart(file);
      Feed(file[offset..]);
    }

    // The active branch, root first.
    method Branch() returns (path: seq<Node>)
      ensures path == Reverse(Ancestry(nodes, last, {}))
    {
      hide Reverse;
      path := [];
      var seen: set<string> := {};
      var id, more := last, true;
      while more && id != "" && id !in seen && id in nodes
        invariant Ancestry(nodes, last, {}) == path + if more then Ancestry(nodes, id, seen) else []
        decreases nodes.Keys - seen, more
      {
        var n := nodes[id];
        assert id in nodes.Keys - seen;
        seen := seen + {id};
        path := path + [n];
        if n.rootless {
          more := false;
        } else {
          id := n.parent;
        }
      }
      assert path == Ancestry(nodes, last, {});
      path := ReverseInPlace(path);
    }

    static method ReverseInPlace(was: seq<Node>) returns (path: seq<Node>)
      ensures path == Reverse(was)
    {
      path := was;
      var i, j := 0, |path| - 1;
      while i < j
        invariant 0 <= i <= j + 1 && j == |was| - 1 - i && |path| == |was|
        invariant Turned(was, path, i)
      {
        TurnedStep(was, path, i);
        path := path[i := path[j]][j := path[i]];
        i, j := i + 1, j - 1;
      }
    }

    method Build() returns (out: Option<(Snapshot, Tail)>)
      ensures out == Built(Content())
    {
      hide See, Reverse, Ancestry, Summary;
      if !sawHeader {
        return None;
      }
      var path := Branch();
      var v := BLANK_VIEW;
      for i := 0 to |path|
        invariant v == SeeAll(path[..i])
      {
        assert path[..i + 1][..i] == path[..i];
        v := See(v, path[i]);
      }
      assert path[..|path|] == path;
      out := Some(Summary(v, fileSeq, truncated));
    }
  }

  // The first i nodes have changed places with the last i.
  ghost predicate Turned<T(!new)>(was: seq<T>, path: seq<T>, i: nat) {
    && |path| == |was|
    && (forall k :: 0 <= k < |was| && (k < i || k >= |was| - i) ==> path[k] == was[|was| - 1 - k])
    && (forall k :: i <= k < |was| - i ==> path[k] == was[k])
  }

  lemma {:induction false} TurnedStep<T(!new)>(was: seq<T>, path: seq<T>, i: nat)
    requires Turned(was, path, i) && 2 * i < |was| - 1
    ensures var j := |was| - 1 - i; Turned(was, path[i := path[j]][j := path[i]], i + 1)
  {
  }

  // The cache entry of one session file.
  class Store {
    const decode: string -> Option<Entry>
    var parser: Parser?
    var size: nat

    ghost predicate Valid()
      reads this, parser
    {
      parser != null ==> parser.decode == decode && parser.sawHeader
    }

    constructor (decode: string -> Option<Entry>)
      ensures Valid() && this.decode == decode && parser == null
    {
      this.decode := decode;
      parser, size := null, 0;
    }

    // Growth is parsed from the offset; a file that is new or shrank is read again by a parser of its
    // own, which is kept only when it finds a header. touched: the modification time moved.
    method Load(file: string, touched: bool) returns (out: Option<(Snapshot, Tail)>)
      requires Valid()
      modifies this, parser
      ensures Valid()
      ensures old(parser) != null && old(size) == |file| && !touched ==>
                parser == old(parser) && size == old(size)
                && parser.Content() == old(parser.Content()) && out == Built(parser.Content())
      ensures !(old(parser) != null && old(size) == |file| && !touched) ==>
                var grown := old(parser) != null && old(parser.offset) <= |file|;
                var now := if grown then ReadOn(decode, old(parser.Content()), file) else ReadAll(decode, file);
                && out == Built(now)
                && (out.Some? ==> parser != null && parser.Content() == now && size == |file|)
                && (out.None? ==> parser == old(parser) && size == old(size))
    {
      hide Summary, SeeAll, Ancestry, IngestAll, PiScan, FirstLine, TailStart;
      if parser != null && size == |file| && !touched {
        out := parser.Build();
        return;
      }
      var p: Parser;
      if parser != null && parser.offset <= |file| {
        p := parser;
        HeaderStays(p.State(), PiScan(decode, file[p.offset..]).0);
        p.Feed(file[p.offset..]);
      } else {
        p := new Parser(decode);
        if |file| > MAX_FILE {
          p.FeedTail(file);
        } else {
          p.Feed(file);
          assert file[0..] == file;
        }
      }
      out := p.Build();
      if out.Some? {
        parser, size := p, |file|;
      }
    }
  }

  lemma {:induction false} HeaderStays(p: Parsed, es: seq<Entry>)
    requires p.sawHeader
    ensures IngestAll(p, es).sawHeader
    decreases |es|
  {
    if es != [] {
      HeaderStays(Ingest(p, es[0]), es[1..]);
    }
  }

  lemma {:induction false} IngestNone(p: Parsed)
    ensures IngestAll(p, []) == p
  {
  }

  lemma {:induction false} EmptyLine(decode: string -> Option<Entry>)
    ensures Found(decode, "") == [] && Eager(decode, "")
    ensures PiScan(decode, "") == ([], 0)
  {
  }

  // What the first line of a text contributes.
  function FirstLine(decode: string -> Option<Entry>, rest: string): seq<Entry> {
    var k := Lines.Break(rest);
    Found(decode, if (if k < |rest| then k + 1 else k) > MAX_LINE then "" else rest[..k])
  }

  lemma {:induction false} ScanStep(decode: string -> Option<Entry>, rest: string, found: seq<Entry>)
    requires rest != ""
    ensures var k, all, got := Lines.Break(rest), PiScan(decode, rest), FirstLine(decode, rest);
            if k < |rest| then
              var q := PiScan(decode, rest[k + 1..]);
              all.1 == k + 1 + q.1 && found + all.0 == (found + got) + q.0
            else
              all.0 == got && all.1 == if k > MAX_LINE || Eager(decode, rest) then k else 0
  {
    hide Lines.Break, Lines.Blank;
    EmptyLine(decode);
    var k := Lines.Break(rest);
    assert k == |rest| ==> rest[..k] == rest;
    if k < |rest| {
      Lines.Regroup(found, FirstLine(decode, rest), PiScan(decode, rest[k + 1..]).0);
    }
  }
}
