/** Claude transcripts: folding `!` shell output into its input, and the cached incremental parse
    (history.go). */
module History {
  import opened Messages
  import Lines

  // Only a shell entry carries output; every other row is plain.
  type PlainMsg = m: HistMsg | m.stdout == "" && m.stderr == ""
    witness HistMsg("", "", 0, "", "", "", 0, "", "", false, "", 0, "")

  // What one line of the transcript does to the message list; a line without effect decodes to None.
  datatype Effect =
    | Append(msg: PlainMsg)
    | BashIn(command: string, ts: int, id: string)
    | BashOut(stdout: string, stderr: string, ts: int, id: string)

  function BashRow(command: string, stdout: string, stderr: string, ts: int, id: string): HistMsg {
    HistMsg("bash", command, ts, stdout, stderr, "", 0, id, "", false, "", 0, "")
  }

  // A shell input still waiting for its output.
  predicate Open(m: HistMsg) {
    m.role == "bash" && m.content != "" && m.stdout == "" && m.stderr == ""
  }

  // A shell output whose input was not seen.
  predicate Orphan(m: HistMsg) {
    m.role == "bash" && m.content == "" && (m.stdout != "" || m.stderr != "")
  }

  predicate EndsOpen(msgs: seq<HistMsg>) {
    msgs != [] && Open(msgs[|msgs| - 1])
  }

  predicate StartsOrphan(msgs: seq<HistMsg>) {
    msgs != [] && Orphan(msgs[0])
  }

  function Fill(msgs: seq<HistMsg>, stdout: string, stderr: string): seq<HistMsg>
    requires msgs != []
  {
    msgs[|msgs| - 1 := msgs[|msgs| - 1].(stdout := stdout, stderr := stderr)]
  }

  function Add(msgs: seq<HistMsg>, e: Effect): seq<HistMsg> {
    match e
    case Append(m) => msgs + [m]
    case BashIn(command, ts, id) => msgs + [BashRow(command, "", "", ts, id)]
    case BashOut(stdout, stderr, ts, id) =>
      if EndsOpen(msgs) then Fill(msgs, stdout, stderr)
      else if stdout == "" && stderr == "" then msgs
      else msgs + [BashRow("", stdout, stderr, ts, id)]
  }

  function ParseFrom(msgs: seq<HistMsg>, es: seq<Effect>): seq<HistMsg> {
    if es == [] then msgs else Add(ParseFrom(msgs, es[..|es| - 1]), es[|es| - 1])
  }

  function Parse(es: seq<Effect>): seq<HistMsg> {
    ParseFrom([], es)
  }

  // ------------------------------------------------------------------ which entry each row shows

  predicate Silent(e: Effect) {
    e.BashOut? && e.stdout == "" && e.stderr == ""
  }

  // A shell input, or a row that reads like one.
  predicate Awaits(e: Effect) {
    (e.BashIn? && e.command != "") || (e.Append? && e.msg.role == "bash" && e.msg.content != "")
  }

  // Nothing but empty outputs came after the i-th entry.
  ghost predicate Waiting(es: seq<Effect>, i: nat) {
    i < |es| && Awaits(es[i]) && forall j :: i < j < |es| ==> Silent(es[j])
  }

  // The j-th entry is the output of the i-th.
  ghost predicate Fills(es: seq<Effect>, i: nat, j: nat) {
    j < |es| && es[j].BashOut? && !Silent(es[j]) && Waiting(es[..j], i)
  }

  // An input or message always has a row, an output only when it is not empty and fills no input.
  ghost predicate HasRow(es: seq<Effect>, i: nat) {
    i < |es| && !Silent(es[i]) && forall h: nat :: !Fills(es, h, i)
  }

  function Alone(e: Effect): HistMsg {
    match e
    case Append(m) => m
    case BashIn(command, ts, id) => HistMsg("bash", command, ts, "", "", "", 0, id, "", false, "", 0, "")
    case BashOut(stdout, stderr, ts, id) => HistMsg("bash", "", ts, stdout, stderr, "", 0, id, "", false, "", 0, "")
  }

  // The row shows the i-th entry with the output that fills it.
  ghost predicate RowIs(es: seq<Effect>, i: nat, row: HistMsg) {
    && i < |es|
    && (forall j: nat :: Fills(es, i, j) ==> row == Alone(es[i]).(stdout := es[j].stdout, stderr := es[j].stderr))
    && ((forall j: nat :: !Fills(es, i, j)) ==> row == Alone(es[i]))
  }

  // at[k] is the entry of the k-th row: rows in entry order, one for each entry that has one.
  ghost predicate Rows(es: seq<Effect>, msgs: seq<HistMsg>, at: seq<nat>) {
    && |at| == |msgs|
    && (forall k :: 0 <= k < |at| ==> HasRow(es, at[k]) && RowIs(es, at[k], msgs[k]))
    && (forall j, k :: 0 <= j < k < |at| ==> at[j] < at[k])
    && (forall i: nat :: HasRow(es, i) ==> i in at)
  }

  lemma {:induction false} FillsSnoc(front: seq<Effect>, e: Effect, i: nat, j: nat)
    ensures Fills(front + [e], i, j)
            <==> if j == |front| then e.BashOut? && !Silent(e) && Waiting(front, i) else Fills(front, i, j)
    ensures j <= |front| ==> (front + [e])[..j] == front[..j]
  {
    hide Waiting, Silent;
    assert j <= |front| ==> (front + [e])[..j] == front[..j];
  }

  lemma {:induction false} HasRowSnoc(front: seq<Effect>, e: Effect, i: nat)
    ensures i < |front| ==> (HasRow(front + [e], i) <==> HasRow(front, i))
    ensures i == |front| ==> (HasRow(front + [e], i) <==> !Silent(e) && (e.BashOut? ==> forall h: nat :: !Waiting(front, h)))
    ensures i > |front| ==> !HasRow(front + [e], i)
  {
    hide Waiting, Silent;
    forall h: nat ensures Fills(front + [e], h, i)
                          <==> if i == |front| then e.BashOut? && !Silent(e) && Waiting(front, h) else Fills(front, h, i) {
      FillsSnoc(front, e, h, i);
    }
    hide Fills;
  }

  // An entry's row stays as it is unless the new entry fills it.
  lemma {:induction false} RowSnoc(front: seq<Effect>, e: Effect, i: nat, row: HistMsg)
    requires RowIs(front, i, row) && !(e.BashOut? && !Silent(e) && Waiting(front, i))
    ensures RowIs(front + [e], i, row)
  {
    hide Waiting, Silent, Alone;
    forall j: nat ensures Fills(front + [e], i, j) <==> Fills(front, i, j) {
      FillsSnoc(front, e, i, j);
    }
    assert forall j: nat :: Fills(front, i, j) ==> j < |front|;
    hide Fills;
  }

  // The new entry fills the one that waits.
  lemma {:induction false} RowFilled(front: seq<Effect>, e: Effect, i: nat)
    requires e.BashOut? && !Silent(e) && Waiting(front, i)
    ensures RowIs(front + [e], i, Alone(front[i]).(stdout := e.stdout, stderr := e.stderr))
  {
    var es := front + [e];
    FillsSnoc(front, e, i, |front|);
    forall j: nat | Fills(es, i, j) ensures j == |front| {
      FillsSnoc(front, e, i, j);
      NotYetFilled(front, i, j);
    }
    hide Fills, Waiting, Silent, Alone;
  }

  lemma {:induction false} NotYetFilled(es: seq<Effect>, i: nat, j: nat)
    requires Waiting(es, i)
    ensures !Fills(es, i, j)
  {
  }

  lemma {:induction false} FilledIsShut(es: seq<Effect>, i: nat, row: HistMsg)
    requires RowIs(es, i, row) && Open(row)
    ensures Awaits(es[i]) && forall j: nat :: !Fills(es, i, j)
  {
    hide Waiting;
  }

  // What waits is the entry of the last row, and that row is open.
  lemma {:induction false} WaitingIsLast(es: seq<Effect>, msgs: seq<HistMsg>, at: seq<nat>, i: nat)
    requires Rows(es, msgs, at) && Waiting(es, i)
    ensures at != [] && at[|at| - 1] == i && EndsOpen(msgs)
  {
    WaitingHasRow(es, i);
    var k :| 0 <= k < |at| && at[k] == i;
    LastRow(es, msgs, at);
    var last := at[|at| - 1];
    assert HasRow(es, last);
    forall j: nat ensures !Fills(es, i, j) {
      NotYetFilled(es, i, j);
    }
    hide Fills;
  }

  lemma {:induction false} LastRow(es: seq<Effect>, msgs: seq<HistMsg>, at: seq<nat>)
    requires Rows(es, msgs, at)
    ensures forall i: nat :: HasRow(es, i) ==> at != [] && i <= at[|at| - 1]
  {
    hide HasRow, RowIs;
    forall i: nat | HasRow(es, i) ensures at != [] && i <= at[|at| - 1] {
      var k :| 0 <= k < |at| && at[k] == i;
    }
  }

  lemma {:induction false} BetweenIsSilent(es: seq<Effect>, h: nat, i: nat, j: nat)
    requires Fills(es, h, j) && h < i < j
    ensures Silent(es[i])
  {
    assert es[..j][i] == es[i];
  }

  lemma {:induction false} WaitingHasRow(es: seq<Effect>, i: nat)
    requires Waiting(es, i)
    ensures HasRow(es, i)
  {
  }

  lemma {:induction false} OpenIsWaiting(es: seq<Effect>, msgs: seq<HistMsg>, at: seq<nat>)
    requires Rows(es, msgs, at) && EndsOpen(msgs)
    ensures Waiting(es, at[|at| - 1])
  {
    hide Open, Alone, Fills;
    var i := at[|at| - 1];
    FilledIsShut(es, i, msgs[|msgs| - 1]);
    LastRow(es, msgs, at);
    forall j | i < j < |es| ensures Silent(es[j]) {
      assert !HasRow(es, j);
      if !Silent(es[j]) {
        var h: nat :| Fills(es, h, j);
        FillerIsLast(es, at, h, j);
      }
    }
  }

  lemma {:induction false} FillerIsLast(es: seq<Effect>, at: seq<nat>, h: nat, j: nat)
    requires at != [] && HasRow(es, at[|at| - 1]) && at[|at| - 1] < j && Fills(es, h, j)
    requires forall k: nat :: HasRow(es, k) ==> k <= at[|at| - 1]
    ensures Fills(es, at[|at| - 1], j)
  {
    var i := at[|at| - 1];
    assert HasRow(es, h) by {
      assert es[..j][h] == es[h];
    }
    if h < i {
      BetweenIsSilent(es, h, i, j);
    }
  }

  /** Every row shows one entry, in entry order, a shell input together with the output that fills it:
      the first that is not empty, when nothing but empty outputs came between. */
  lemma {:induction false} RowsShowEntries(es: seq<Effect>) returns (at: seq<nat>)
    ensures Rows(es, Parse(es), at)
    decreases |es|
  {
    hide Rows, Add;
    if es == [] {
      at := [];
      NoRows();
    } else {
      var front, e := es[..|es| - 1], es[|es| - 1];
      var was := RowsShowEntries(front);
      assert es == front + [e];
      at := AddRow(front, e, Parse(front), was);
    }
  }

  lemma {:induction false} NoRows()
    ensures Rows([], [], [])
  {
  }

  lemma {:induction false} AddRow(front: seq<Effect>, e: Effect, msgs: seq<HistMsg>, at: seq<nat>) returns (more: seq<nat>)
    requires Rows(front, msgs, at)
    ensures Rows(front + [e], Add(msgs, e), more)
  {
    hide Rows;
    more := at;
    if Silent(e) {
      SilentAdds(msgs, e);
      RowsStay(front, e, msgs, at);
    } else if e.BashOut? && EndsOpen(msgs) {
      RowsFill(front, e, msgs, at);
    } else {
      more := at + [|front|];
      RowsGrow(front, e, msgs, at);
    }
  }

  lemma {:induction false} SilentAdds(msgs: seq<HistMsg>, e: Effect)
    requires Silent(e)
    ensures Add(msgs, e) == msgs
  {
  }

  lemma {:induction false} RowsStay(front: seq<Effect>, e: Effect, msgs: seq<HistMsg>, at: seq<nat>)
    requires Rows(front, msgs, at) && Silent(e)
    ensures Rows(front + [e], msgs, at)
  {
    hide RowIs, HasRow, Silent;
    forall k | 0 <= k < |at| ensures HasRow(front + [e], at[k]) && RowIs(front + [e], at[k], msgs[k]) {
      RowInRange(front, at[k]);
      HasRowSnoc(front, e, at[k]);
      RowSnoc(front, e, at[k], msgs[k]);
    }
    forall i: nat | HasRow(front + [e], i) ensures i in at {
      HasRowSnoc(front, e, i);
    }
  }

  lemma {:induction false} RowInRange(es: seq<Effect>, i: nat)
    requires HasRow(es, i)
    ensures i < |es|
  {
  }

  lemma {:induction false} RowsFill(front: seq<Effect>, e: Effect, msgs: seq<HistMsg>, at: seq<nat>)
    requires Rows(front, msgs, at) && e.BashOut? && !Silent(e) && EndsOpen(msgs)
    ensures Rows(front + [e], Add(msgs, e), at)
  {
    OpenIsWaiting(front, msgs, at);
    var n := |at| - 1;
    LastRowAlone(front, msgs, at);
    RowFilled(front, e, at[n]);
    hide RowIs, HasRow, Silent, Waiting, Open;
    var after := Add(msgs, e);
    assert after == msgs[n := Alone(front[at[n]]).(stdout := e.stdout, stderr := e.stderr)];
    forall k | 0 <= k < |at| ensures HasRow(front + [e], at[k]) && RowIs(front + [e], at[k], after[k]) {
      RowInRange(front, at[k]);
      HasRowSnoc(front, e, at[k]);
      if k < n {
        OneWaits(front, at[k], at[n]);
        RowSnoc(front, e, at[k], msgs[k]);
      }
    }
    forall i: nat | HasRow(front + [e], i) ensures i in at {
      HasRowSnoc(front, e, i);
    }
  }

  lemma {:induction false} LastRowAlone(front: seq<Effect>, msgs: seq<HistMsg>, at: seq<nat>)
    requires Rows(front, msgs, at) && EndsOpen(msgs)
    ensures at[|at| - 1] < |front| && msgs[|at| - 1] == Alone(front[at[|at| - 1]])
  {
    hide Open, Alone, Fills;
    FilledIsShut(front, at[|at| - 1], msgs[|at| - 1]);
  }

  lemma {:induction false} OneWaits(es: seq<Effect>, i: nat, j: nat)
    requires Waiting(es, j) && i < j
    ensures !Waiting(es, i)
  {
  }

  lemma {:induction false} RowsGrow(front: seq<Effect>, e: Effect, msgs: seq<HistMsg>, at: seq<nat>)
    requires Rows(front, msgs, at) && !Silent(e) && !(e.BashOut? && EndsOpen(msgs))
    ensures Rows(front + [e], Add(msgs, e), at + [|front|])
  {
    var es, after, more := front + [e], Add(msgs, e), at + [|front|];
    if e.BashOut? {
      forall h: nat ensures !Waiting(front, h) {
        if Waiting(front, h) {
          WaitingIsLast(front, msgs, at, h);
        }
      }
    }
    NewRow(front, e);
    assert after == msgs + [Alone(e)];
    hide RowIs, HasRow, Silent, Waiting, EndsOpen, Add, Alone;
    HasRowSnoc(front, e, |front|);
    forall k | 0 <= k < |more| ensures HasRow(es, more[k]) && RowIs(es, more[k], after[k]) && (k < |at| ==> more[k] < |front|) {
      if k < |at| {
        RowInRange(front, at[k]);
        HasRowSnoc(front, e, at[k]);
        RowSnoc(front, e, at[k], msgs[k]);
      }
    }
    forall i: nat | HasRow(es, i) ensures i in more {
      HasRowSnoc(front, e, i);
      if i < |front| {
        assert i in at;
      } else {
        assert more[|at|] == i;
      }
    }
  }

  lemma {:induction false} NewRow(front: seq<Effect>, e: Effect)
    ensures RowIs(front + [e], |front|, Alone(e))
  {
    var es := front + [e];
    forall j: nat ensures !Fills(es, |front|, j) {
      FillsSnoc(front, e, |front|, j);
    }
  }

  // ------------------------------------------------------------------ joining two parses

  // Concatenation, with a leading orphan output of y attached to an open input ending x.
  function Join(x: seq<HistMsg>, y: seq<HistMsg>): seq<HistMsg> {
    if EndsOpen(x) && StartsOrphan(y) then Fill(x, y[0].stdout, y[0].stderr) + y[1..] else x + y
  }

  lemma {:induction false} AddToJoin(x: seq<HistMsg>, y: seq<HistMsg>, e: Effect)
    ensures Add(Join(x, y), e) == Join(x, Add(y, e))
  {
    if y == [] {
      AddToOne(x, e);
      assert x + [] == x;
    } else if EndsOpen(x) && StartsOrphan(y) {
      AddBehindOrphan(x, y, e);
    } else {
      AddBehind(x, y, e);
    }
    hide Add, Join, EndsOpen, StartsOrphan;
  }

  // Nothing read behind the boundary yet.
  lemma {:induction false} AddToOne(x: seq<HistMsg>, e: Effect)
    ensures Add(x, e) == Join(x, Add([], e))
  {
    if e.BashOut? && EndsOpen(x) {
      assert Fill(x, "", "") == x;
    }
  }

  // The boundary severs an output from its input.
  lemma {:induction false} AddBehindOrphan(x: seq<HistMsg>, y: seq<HistMsg>, e: Effect)
    requires y != [] && EndsOpen(x) && StartsOrphan(y)
    ensures Add(Join(x, y), e) == Join(x, Add(y, e))
  {
    var xy := Join(x, y);
    assert |y| == 1 ==> !EndsOpen(xy) && !EndsOpen(y);
    assert |y| > 1 ==> xy[|xy| - 1] == y[|y| - 1];
    assert Add(y, e)[0] == y[0];
    assert Add(xy, e) == Fill(x, y[0].stdout, y[0].stderr) + Add(y, e)[1..];
  }

  lemma {:induction false} AddBehind(x: seq<HistMsg>, y: seq<HistMsg>, e: Effect)
    requires y != [] && !(EndsOpen(x) && StartsOrphan(y))
    ensures Add(Join(x, y), e) == Join(x, Add(y, e))
  {
    var xy := x + y;
    assert xy[|xy| - 1] == y[|y| - 1];
    assert !EndsOpen(x) || !StartsOrphan(Add(y, e));
    assert Add(xy, e) == x + Add(y, e);
  }

  lemma {:induction false} ParseFromIsJoin(x: seq<HistMsg>, es: seq<Effect>)
    ensures ParseFrom(x, es) == Join(x, Parse(es))
    decreases |es|
  {
    hide Add, Join;
    if es == [] {
      JoinNothing(x);
    } else {
      ParseFromIsJoin(x, es[..|es| - 1]);
      AddToJoin(x, Parse(es[..|es| - 1]), es[|es| - 1]);
    }
  }

  lemma {:induction false} JoinNothing(x: seq<HistMsg>)
    ensures Join(x, []) == x && Join([], x) == x
  {
  }

  lemma {:induction false} ParseInTurn(x: seq<HistMsg>, a: seq<Effect>, b: seq<Effect>)
    ensures ParseFrom(x, a + b) == ParseFrom(ParseFrom(x, a), b)
    decreases |b|
  {
    hide Add;
    if b == [] {
      assert a + b == a;
    } else {
      var front := b[..|b| - 1];
      assert (a + b)[..|a + b| - 1] == a + front;
      ParseInTurn(x, a, front);
    }
  }

  /** Parsing is a homomorphism up to one join. */
  lemma {:induction false} ParsingJoins(a: seq<Effect>, b: seq<Effect>)
    ensures Parse(a + b) == Join(Parse(a), Parse(b))
  {
    ParseInTurn([], a, b);
    ParseFromIsJoin(Parse(a), b);
  }

  // ------------------------------------------------------------------ incremental reads

  function Flatten<T>(chunks: seq<seq<T>>): seq<T> {
    if chunks == [] then [] else Flatten(chunks[..|chunks| - 1]) + chunks[|chunks| - 1]
  }

  // The cached answer: each read's messages appended to those before.
  function Cached(chunks: seq<seq<Effect>>): seq<HistMsg> {
    if chunks == [] then [] else Cached(chunks[..|chunks| - 1]) + Parse(chunks[|chunks| - 1])
  }

  // Each read's messages joined to those before.
  function Joined(chunks: seq<seq<Effect>>): seq<HistMsg> {
    if chunks == [] then [] else Join(Joined(chunks[..|chunks| - 1]), Parse(chunks[|chunks| - 1]))
  }

  // The last read cut a shell output off from its input.
  predicate Severed(chunks: seq<seq<Effect>>) {
    chunks != [] && EndsOpen(Parse(Flatten(chunks[..|chunks| - 1]))) && StartsOrphan(Parse(chunks[|chunks| - 1]))
  }

  function SeveredReads(chunks: seq<seq<Effect>>): nat {
    if chunks == [] then 0 else SeveredReads(chunks[..|chunks| - 1]) + if Severed(chunks) then 1 else 0
  }

  /** Joining at every read boundary gives the parse of the whole transcript. */
  lemma {:induction false} JoinedIsFullParse(chunks: seq<seq<Effect>>)
    ensures Joined(chunks) == Parse(Flatten(chunks))
    decreases |chunks|
  {
    if chunks != [] {
      var front := chunks[..|chunks| - 1];
      JoinedIsFullParse(front);
      ParsingJoins(Flatten(front), chunks[|chunks| - 1]);
    }
  }

  // Each severed read costs the cache one row too many.
  lemma {:induction false} SeveredReadsSplitRows(chunks: seq<seq<Effect>>)
    ensures |Cached(chunks)| == |Parse(Flatten(chunks))| + SeveredReads(chunks)
    decreases |chunks|
  {
    if chunks != [] {
      var front := chunks[..|chunks| - 1];
      SeveredReadsSplitRows(front);
      ParsingJoins(Flatten(front), chunks[|chunks| - 1]);
      hide Parse;
    }
  }

  lemma {:induction false} UnseveredCache(chunks: seq<seq<Effect>>)
    requires SeveredReads(chunks) == 0
    ensures Cached(chunks) == Parse(Flatten(chunks))
    decreases |chunks|
  {
    if chunks != [] {
      var front := chunks[..|chunks| - 1];
      UnseveredCache(front);
      ParsingJoins(Flatten(front), chunks[|chunks| - 1]);
      hide Parse;
    }
  }

  /** The cached answer is the full parse exactly when no read severed an output from its input. */
  lemma {:induction false} CacheIsFullParseIff(chunks: seq<seq<Effect>>)
    ensures Cached(chunks) == Parse(Flatten(chunks)) <==> SeveredReads(chunks) == 0
  {
    SeveredReadsSplitRows(chunks);
    if SeveredReads(chunks) == 0 {
      UnseveredCache(chunks);
    }
  }

  // ------------------------------------------------------------------ the file grows

  // The cached entry of one transcript: None before the first read.
  datatype Entry = Entry(size: nat, off: nat, msgs: seq<HistMsg>)

  const FRESH := Entry(0, 0, [])

  // One read that found the file grown since the last.
  function Reread(decode: string -> Option<Effect>, valid: string -> bool, e: Entry, file: string): Entry
    requires e.off <= |file|
  {
    var found := Lines.Scan(decode, valid, file[e.off..]);
    Entry(|file|, e.off + found.1, e.msgs + Parse(found.0))
  }

  // The effects found by each read.
  function Reads(decode: string -> Option<Effect>, valid: string -> bool, file: string, sizes: seq<nat>,
                 from: nat, off: nat): seq<seq<Effect>>
    requires off <= from && Lines.Grows(sizes, from, |file|)
    decreases |sizes|
  {
    if sizes == [] then []
    else
      var found := Lines.Scan(decode, valid, file[off..sizes[0]]);
      [found.0] + Reads(decode, valid, file, sizes[1..], sizes[0], off + found.1)
  }

  // The entry after reading the file at each size in turn.
  function RereadAll(decode: string -> Option<Effect>, valid: string -> bool, file: string, sizes: seq<nat>,
                     from: nat, e: Entry): Entry
    requires e.off <= from && Lines.Grows(sizes, from, |file|)
    decreases |sizes|
  {
    if sizes == [] then e
    else
      assert file[..sizes[0]][e.off..] == file[e.off..sizes[0]];
      RereadAll(decode, valid, file, sizes[1..], sizes[0], Reread(decode, valid, e, file[..sizes[0]]))
  }

  lemma {:induction false} FlattenCons<T>(first: seq<T>, rest: seq<seq<T>>)
    ensures Flatten([first] + rest) == first + Flatten(rest)
    decreases |rest|
  {
    var all := [first] + rest;
    if rest == [] {
      assert all[..0] == [];
      assert Flatten(all[..0]) == [];
    } else {
      FlattenCons(first, rest[..|rest| - 1]);
      assert all[..|all| - 1] == [first] + rest[..|rest| - 1];
    }
  }

  lemma {:induction false} CachedCons(first: seq<Effect>, rest: seq<seq<Effect>>)
    ensures Cached([first] + rest) == Parse(first) + Cached(rest)
    decreases |rest|
  {
    hide Parse;
    var all := [first] + rest;
    if rest == [] {
      assert all[..0] == [];
      assert Cached(all[..0]) == [];
    } else {
      CachedCons(first, rest[..|rest| - 1]);
      assert all[..|all| - 1] == [first] + rest[..|rest| - 1];
    }
  }

  lemma {:induction false} ReadsFlatten(decode: string -> Option<Effect>, valid: string -> bool, file: string,
                                        sizes: seq<nat>, from: nat, off: nat)
    requires off <= from && Lines.Grows(sizes, from, |file|)
    ensures Flatten(Reads(decode, valid, file, sizes, from, off)) == Lines.Run(decode, valid, file, sizes, from, off)
    decreases |sizes|
  {
    hide *;
    if sizes == [] {
      NothingRead(decode, valid, file, from, off);
    } else {
      Lines.GrowsStep(sizes, from, |file|);
      var found := Lines.Scan(decode, valid, file[off..sizes[0]]);
      ReadsFlatten(decode, valid, file, sizes[1..], sizes[0], off + found.1);
      ReadsStep(decode, valid, file, sizes, from, off);
      FlattenCons(found.0, Reads(decode, valid, file, sizes[1..], sizes[0], off + found.1));
      Lines.RunStep(decode, valid, file, sizes, from, off);
    }
  }

  lemma {:induction false} NothingRead(decode: string -> Option<Effect>, valid: string -> bool, file: string, from: nat, off: nat)
    requires off <= from && Lines.Grows([], from, |file|)
    ensures Flatten(Reads(decode, valid, file, [], from, off)) == [] == Lines.Run(decode, valid, file, [], from, off)
  {
  }

  lemma {:induction false} ReadsStep(decode: string -> Option<Effect>, valid: string -> bool, file: string,
                                     sizes: seq<nat>, from: nat, off: nat)
    requires sizes != [] && off <= from && Lines.Grows(sizes, from, |file|)
    ensures var found := Lines.Scan(decode, valid, file[off..sizes[0]]);
            Reads(decode, valid, file, sizes, from, off)
            == [found.0] + Reads(decode, valid, file, sizes[1..], sizes[0], off + found.1)
  {
    hide Lines.Scan;
  }

  lemma {:induction false} RereadCaches(decode: string -> Option<Effect>, valid: string -> bool, file: string,
                                        sizes: seq<nat>, from: nat, e: Entry)
    requires e.off <= from && Lines.Grows(sizes, from, |file|)
    ensures RereadAll(decode, valid, file, sizes, from, e).msgs
         == e.msgs + Cached(Reads(decode, valid, file, sizes, from, e.off))
    decreases |sizes|
  {
    hide Lines.Scan, Parse;
    if sizes == [] {
    } else {
      var t := file[e.off..sizes[0]];
      assert file[..sizes[0]][e.off..] == t;
      var found := Lines.Scan(decode, valid, t);
      var next := Reread(decode, valid, e, file[..sizes[0]]);
      RereadCaches(decode, valid, file, sizes[1..], sizes[0], next);
      CachedCons(found.0, Reads(decode, valid, file, sizes[1..], sizes[0], next.off));
      Lines.Regroup(e.msgs, Parse(found.0), Cached(Reads(decode, valid, file, sizes[1..], sizes[0], next.off)));
    }
  }

  /** For every growth schedule of a clean transcript, torn last lines included: joined at the read
      boundaries the reads give the parse of the whole file, and the cached list is that parse exactly
      when no boundary severed an output from its input. */
  lemma {:induction false} GrowingTranscript(decode: string -> Option<Effect>, valid: string -> bool, file: string, sizes: seq<nat>)
    requires Lines.IgnoresBlanks(decode, valid) && Lines.Sound(decode, valid)
    requires Lines.AllClean(valid, file) && sizes != [] && Lines.Grows(sizes, 0, |file|)
    ensures var chunks := Reads(decode, valid, file, sizes, 0, 0);
            var full := Parse(Lines.Records(decode, file));
            && Joined(chunks) == full
            && (RereadAll(decode, valid, file, sizes, 0, FRESH).msgs == full <==> SeveredReads(chunks) == 0)
  {
    assert FRESH == Entry(0, 0, []);
    hide *;
    var chunks := Reads(decode, valid, file, sizes, 0, 0);
    ReadsFlatten(decode, valid, file, sizes, 0, 0);
    assert file[0..] == file;
    Lines.AllCleanIsSafe(decode, valid, file);
    Lines.AnyGrowthReadsTheSame(decode, valid, file, sizes, 0, 0);
    JoinedIsFullParse(chunks);
    CacheIsFullParseIff(chunks);
    RereadCaches(decode, valid, file, sizes, 0, FRESH);
    assert FRESH.msgs + Cached(chunks) == Cached(chunks);
  }

  // A read between a shell input and its output: the cache shows two rows where there is one.
  lemma {:induction false} SeveredExample()
    ensures var chunks := [[BashIn("ls", 1, "a")], [BashOut("x", "", 2, "b")]];
            && Parse(Flatten(chunks)) == [BashRow("ls", "x", "", 1, "a")]
            && Cached(chunks) == [BashRow("ls", "", "", 1, "a"), BashRow("", "x", "", 2, "b")]
  {
    var a, b := BashIn("ls", 1, "a"), BashOut("x", "", 2, "b");
    var chunks := [[a], [b]];
    assert chunks[..1] == [[a]] && chunks[..1][..0] == [];
    assert Flatten(chunks[..1][..0]) == [] && Cached(chunks[..1][..0]) == [];
    assert Flatten(chunks[..1]) == [a] && Flatten(chunks) == [a, b];
    assert [a, b][..1] == [a] && [a][..0] == [] && [b][..0] == [];
    assert ParseFrom([], []) == [];
    assert Parse([a]) == [BashRow("ls", "", "", 1, "a")];
    assert Parse([b]) == [BashRow("", "x", "", 2, "b")];
  }

  // ------------------------------------------------------------------ the parser and its cache

  class Transcript {
    const decode: string -> Option<Effect>
    const valid: string -> bool  // a complete JSON value, blanks around it aside
    var parsed: Option<Entry>

    ghost predicate Valid()
      reads this
    {
      parsed.Some? ==> parsed.value.off <= parsed.value.size && (parsed.value.off == 0 ==> parsed.value.msgs == [])
    }

    constructor (decode: string -> Option<Effect>, valid: string -> bool)
      ensures Valid() && parsed.None?
    {
      this.decode, this.valid := decode, valid;
      parsed := None;
    }

    static method AddBash(msgs: seq<HistMsg>, e: Effect) returns (out: seq<HistMsg>)
      requires !e.Append?
      ensures out == Add(msgs, e)
    {
      match e
      case BashIn(command, ts, id) =>
        return msgs + [BashRow(command, "", "", ts, id)];
      case BashOut(stdout, stderr, ts, id) =>
        var n := |msgs|;
        if n > 0 && msgs[n - 1].role == "bash" && msgs[n - 1].content != "" && msgs[n - 1].stdout == "" && msgs[n - 1].stderr == "" {
          return msgs[n - 1 := msgs[n - 1].(stdout := stdout, stderr := stderr)];
        }
        if stdout == "" && stderr == "" {
          return msgs;
        }
        return msgs + [BashRow("", stdout, stderr, ts, id)];
    }

    // The messages of the text t and how much of it was consumed.
    method ParseText(t: string) returns (msgs: seq<HistMsg>, consumed: nat)
      ensures consumed == Lines.Scan(decode, valid, t).1 && msgs == Parse(Lines.Scan(decode, valid, t).0)
    {
      hide *;
      msgs, consumed := [], 0;
      ghost var found: seq<Effect> := [];
      NothingParsed();
      ScanNothing(decode, valid);
      assert t[0..] == t;
      var i, eof := 0, false;
      while !eof && i < |t|
        invariant i <= |t| && msgs == Parse(found)
        invariant Lines.Scan(decode, valid, t).0 == found + if eof then [] else Lines.Scan(decode, valid, t[i..]).0
        invariant Lines.Scan(decode, valid, t).1 == consumed + if eof then 0 else Lines.Scan(decode, valid, t[i..]).1
      {
        var rest := t[i..];
        var k := Lines.Break(rest);
        var line := rest[..k];
        ScanFirst(decode, valid, rest, found);
        if k == |rest| && !valid(line) {
          eof := true;  // still being written: left for the next call
        } else {
          ghost var got := Lines.Dec(decode, line);
          msgs := AddLine(msgs, line, found);
          found := found + got;
          var n := if k < |rest| then k + 1 else k;
          consumed := consumed + n;
          Lines.Drop(t, i, n);
          i := i + n;
        }
      }
      assert t[|t|..] == "";
      assert found + [] == found;
    }

    method AddLine(msgs: seq<HistMsg>, line: string, ghost found: seq<Effect>) returns (out: seq<HistMsg>)
      requires msgs == Parse(found)
      ensures out == Parse(found + Lines.Dec(decode, line))
    {
      hide Add;
      match decode(line)
      case None =>
        assert found + [] == found;
        out := msgs;
      case Some(e) =>
        ParseSnoc(found, e);
        if e.Append? {
          AppendAdds(msgs, e);
          out := msgs + [e.msg];
        } else {
          out := AddBash(msgs, e);
        }
    }

    // Reads only what grew; a file that shrank, or changed in place, is read again from the start.
    method ParseFile(file: string, changed: bool) returns (msgs: seq<HistMsg>)
      requires Valid()
      modifies this
      ensures Valid() && parsed.Some? && msgs == parsed.value.msgs
      ensures match old(parsed)
              case None => parsed.value == Reread(decode, valid, FRESH, file)
              case Some(e) =>
                if |file| == e.size && !changed then parsed == old(parsed)
                else parsed.value == Reread(decode, valid, if |file| > e.size then e else FRESH, file)
    {
      hide Lines.Scan, Parse, Reread;
      if parsed.Some? && parsed.value.size == |file| && !changed {
        return parsed.value.msgs;
      }
      ghost var e := if parsed.Some? && |file| > parsed.value.size then parsed.value else FRESH;
      var base: seq<HistMsg>, from := [], 0;
      if parsed.Some? && |file| > parsed.value.size && parsed.value.off > 0 && parsed.value.off <= |file| {
        base, from := parsed.value.msgs, parsed.value.off;
      }
      ReadFrom(decode, valid, e, file);
      var add, n := ParseText(file[from..]);
      assert base == e.msgs && from == e.off;
      parsed := Some(Entry(|file|, from + n, base + add));
      msgs := parsed.value.msgs;
    }
  }

  lemma {:induction false} NothingParsed()
    ensures Parse([]) == []
  {
  }

  lemma {:induction false} ParseSnoc(found: seq<Effect>, e: Effect)
    ensures Parse(found + [e]) == Add(Parse(found), e)
  {
    assert (found + [e])[..|found|] == found;
  }

  lemma {:induction false} AppendAdds(msgs: seq<HistMsg>, e: Effect)
    requires e.Append?
    ensures Add(msgs, e) == msgs + [e.msg]
  {
  }

  lemma {:induction false} ScanNothing(decode: string -> Option<Effect>, valid: string -> bool)
    ensures Lines.Scan(decode, valid, "") == ([], 0)
  {
  }

  lemma {:induction false} NothingConsumed(decode: string -> Option<Effect>, valid: string -> bool, t: string)
    ensures var found := Lines.Scan(decode, valid, t);
            found.1 <= |t| && (found.1 == 0 ==> Parse(found.0) == [])
  {
  }

  // Reading on from where an entry ends, and that an entry at the start stays empty until it moves.
  lemma {:induction false} ReadFrom(decode: string -> Option<Effect>, valid: string -> bool, e: Entry, file: string)
    requires e.off <= |file|
    ensures var found, r := Lines.Scan(decode, valid, file[e.off..]), Reread(decode, valid, e, file);
            && r == Entry(|file|, e.off + found.1, e.msgs + Parse(found.0))
            && r.off <= |file| && (e.msgs == [] && r.off == 0 ==> r.msgs == [])
  {
    hide Lines.Scan, Parse;
    NothingConsumed(decode, valid, file[e.off..]);
  }

  lemma {:induction false} ScanFirst(decode: string -> Option<Effect>, valid: string -> bool, rest: string, found: seq<Effect>)
    requires rest != ""
    ensures var k, all := Lines.Break(rest), Lines.Scan(decode, valid, rest);
            var got := Lines.Dec(decode, rest[..k]);
            if k < |rest| then
              var q := Lines.Scan(decode, valid, rest[k + 1..]);
              all.1 == k + 1 + q.1 && found + all.0 == (found + got) + q.0
            else if valid(rest[..k]) then all == (got, |rest|)
            else all == ([], 0)
  {
    hide Lines.Break;
    var k := Lines.Break(rest);
    assert k == |rest| ==> rest[..k] == rest;
    if k < |rest| {
      Lines.Regroup(found, Lines.Dec(decode, rest[..k]), Lines.Scan(decode, valid, rest[k + 1..]).0);
    }
  }
}
