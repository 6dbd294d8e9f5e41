/** The cached rows of a session: merging timeline responses, follow frames and older pages
    (recall.go, recall_follow.go). */
module RecallRows {
  import opened Messages

  // rest stands for the fields no update touches.
  datatype Row = Row(id: string, kind: string, body: string, detail: string, ts: string, delivery: string,
                     queued: Option<bool>, isError: Option<bool>, rest: string)

  datatype Timeline = Timeline(turns: seq<Row>, updates: seq<Row>, removed: seq<string>, through: string)

  datatype Frame = RowFrame(row: Row) | UpdateFrame(row: Row) | RemoveFrame(id: string) | Resync | Status

  function Ids(rows: seq<Row>): (ids: seq<string>)
    ensures |ids| == |rows|
    ensures forall i :: 0 <= i < |rows| ==> ids[i] == rows[i].id
  {
    seq(|rows|, i requires 0 <= i < |rows| => rows[i].id)
  }

  predicate Distinct(ids: seq<string>) {
    forall i, j :: 0 <= i < j < |ids| ==> ids[i] != ids[j]
  }

  // ------------------------------------------------------------------ one step

  // The last row with the id, -1 when there is none.
  function Index(rows: seq<Row>, id: string): (i: int)
    ensures -1 <= i < |rows|
    ensures i >= 0 ==> rows[i].id == id
    ensures forall j :: i < j < |rows| ==> rows[j].id != id
  {
    if rows == [] then -1
    else if rows[|rows| - 1].id == id then |rows| - 1
    else Index(rows[..|rows| - 1], id)
  }

  function PutTurn(keep: Row -> bool, rows: seq<Row>, r: Row): seq<Row> {
    if !keep(r) then rows
    else
      var i := Index(rows, r.id);
      if i >= 0 then rows[i := r] else rows + [r]
  }

  function Merge(row: Row, u: Row): Row {
    row.(body := if u.body != "" then u.body else row.body,
         queued := if u.queued.Some? then u.queued else row.queued,
         detail := if u.detail != "" then u.detail else row.detail,
         isError := if u.isError.Some? then u.isError else row.isError,
         delivery := if u.delivery != "" then u.delivery else row.delivery,
         ts := if u.ts != "" then u.ts else row.ts)
  }

  // The queued message was taken up: it moves to the end.
  predicate Absorbs(u: Row) {
    u.queued == Some(false) && u.ts != ""
  }

  function PutUpdate(rows: seq<Row>, u: Row): seq<Row> {
    var i := Index(rows, u.id);
    if i < 0 then rows
    else
      var row := Merge(rows[i], u);
      if Absorbs(u) then rows[..i] + rows[i + 1..] + [row] else rows[i := row]
  }

  function Drop(rows: seq<Row>, id: string): seq<Row> {
    var i := Index(rows, id);
    if i < 0 then rows else rows[..i] + rows[i + 1..]
  }

  // ------------------------------------------------------------------ a whole response

  function PutTurns(keep: Row -> bool, rows: seq<Row>, turns: seq<Row>): seq<Row> {
    if turns == [] then rows
    else PutTurn(keep, PutTurns(keep, rows, turns[..|turns| - 1]), turns[|turns| - 1])
  }

  function PutUpdates(rows: seq<Row>, us: seq<Row>): seq<Row> {
    if us == [] then rows else PutUpdate(PutUpdates(rows, us[..|us| - 1]), us[|us| - 1])
  }

  function DropAll(rows: seq<Row>, removed: seq<string>): seq<Row> {
    if removed == [] then rows else Drop(DropAll(rows, removed[..|removed| - 1]), removed[|removed| - 1])
  }

  function Apply(keep: Row -> bool, rows: seq<Row>, tl: Timeline): seq<Row> {
    DropAll(PutUpdates(PutTurns(keep, rows, tl.turns), tl.updates), tl.removed)
  }

  // ------------------------------------------------------------------ sifting ids

  // The ids that are in t, or with false those that are not.
  function Sift(s: seq<string>, t: set<string>, inside: bool): seq<string> {
    if s == [] then []
    else
      var last := s[|s| - 1];
      Sift(s[..|s| - 1], t, inside) + if (last in t) == inside then [last] else []
  }

  lemma {:induction false} SiftMembers(s: seq<string>, t: set<string>, inside: bool, x: string)
    ensures x in Sift(s, t, inside) <==> x in s && (x in t) == inside
    decreases |s|
  {
    if s != [] {
      assert s == s[..|s| - 1] + [s[|s| - 1]];
      SiftMembers(s[..|s| - 1], t, inside, x);
    }
  }

  lemma {:induction false} SiftConcat(a: seq<string>, b: seq<string>, t: set<string>, inside: bool)
    ensures Sift(a + b, t, inside) == Sift(a, t, inside) + Sift(b, t, inside)
    decreases |b|
  {
    if b == [] {
      assert a + b == a;
    } else {
      assert (a + b)[..|a + b| - 1] == a + b[..|b| - 1];
      SiftConcat(a, b[..|b| - 1], t, inside);
    }
  }

  // Sifting by one set and then another, compared with another such pair.
  lemma {:induction false} SiftTwice(s: seq<string>, t: set<string>, p: bool, u: set<string>, q: bool,
                                     t': set<string>, p': bool, u': set<string>, q': bool)
    requires forall x :: x in s ==> ((x in t) == p && (x in u) == q <==> (x in t') == p' && (x in u') == q')
    ensures Sift(Sift(s, t, p), u, q) == Sift(Sift(s, t', p'), u', q')
    decreases |s|
  {
    if s != [] {
      var front, last := s[..|s| - 1], s[|s| - 1];
      SiftTwice(front, t, p, u, q, t', p', u', q');
      SiftConcat(Sift(front, t, p), if (last in t) == p then [last] else [], u, q);
      SiftConcat(Sift(front, t', p'), if (last in t') == p' then [last] else [], u', q');
      SiftOne(last, u, q);
      SiftOne(last, u', q');
      assert Sift(s, t, p) == Sift(front, t, p) + if (last in t) == p then [last] else [];
      assert Sift(s, t', p') == Sift(front, t', p') + if (last in t') == p' then [last] else [];
      hide Sift;
    }
  }

  lemma {:induction false} SiftOne(x: string, t: set<string>, inside: bool)
    ensures Sift([x], t, inside) == if (x in t) == inside then [x] else []
    ensures Sift([], t, inside) == []
  {
    assert [x][..0] == [];
  }

  lemma {:induction false} SiftAll(s: seq<string>, t: set<string>, inside: bool)
    ensures (forall x :: x in s ==> (x in t) == inside) ==> Sift(s, t, inside) == s
    ensures (forall x :: x in s ==> (x in t) != inside) ==> Sift(s, t, inside) == []
    decreases |s|
  {
    if s != [] {
      assert s == s[..|s| - 1] + [s[|s| - 1]];
      SiftAll(s[..|s| - 1], t, inside);
    }
  }

  lemma {:induction false} SiftDistinct(s: seq<string>, t: set<string>, inside: bool)
    requires Distinct(s)
    ensures Distinct(Sift(s, t, inside))
    decreases |s|
  {
    if s != [] {
      SiftDistinct(s[..|s| - 1], t, inside);
      SiftMembers(s[..|s| - 1], t, inside, s[|s| - 1]);
    }
  }

  function Without(s: seq<string>, x: string): seq<string> {
    Sift(s, {x}, false)
  }

  lemma {:induction false} WithoutAt(s: seq<string>, i: nat)
    requires Distinct(s) && i < |s|
    ensures Without(s, s[i]) == s[..i] + s[i + 1..]
  {
    var x, before, after := s[i], s[..i], s[i + 1..];
    assert s == before + [x] + after;
    assert forall y :: y in before ==> y != x;
    assert forall y :: y in after ==> y != x;
    hide Distinct;
    SiftAround(before, x, after);
  }

  lemma {:induction false} SiftAround(before: seq<string>, x: string, after: seq<string>)
    requires x !in before && x !in after
    ensures Sift(before + [x] + after, {x}, false) == before + after
  {
    hide Sift;
    SiftConcat(before + [x], after, {x}, false);
    SiftConcat(before, [x], {x}, false);
    SiftOne(x, {x}, false);
    SiftAll(before, {x}, false);
    SiftAll(after, {x}, false);
  }

  // ------------------------------------------------------------------ order and content

  function At(rows: seq<Row>, id: string): Option<Row> {
    var i := Index(rows, id);
    if i < 0 then None else Some(rows[i])
  }

  // With distinct ids, the order of ids and the row of each id are all there is.
  lemma {:induction false} SameRows(a: seq<Row>, b: seq<Row>)
    requires Distinct(Ids(a)) && Ids(a) == Ids(b)
    requires forall id :: At(a, id) == At(b, id)
    ensures a == b
  {
    forall i | 0 <= i < |a| ensures a[i] == b[i] {
      assert Ids(a)[i] == Ids(b)[i];
      IndexIs(a, i);
      IndexIs(b, i);
      assert At(a, a[i].id) == At(b, a[i].id);
    }
  }

  lemma {:induction false} IndexIs(rows: seq<Row>, i: nat)
    requires Distinct(Ids(rows)) && i < |rows|
    ensures Index(rows, rows[i].id) == i
  {
    var j := Index(rows, rows[i].id);
    assert Ids(rows)[i] == rows[i].id && (j >= 0 ==> Ids(rows)[j] == rows[i].id);
  }

  lemma {:induction false} AtMembers(rows: seq<Row>, id: string)
    ensures At(rows, id).Some? <==> id in Ids(rows)
    ensures At(rows, id).Some? ==> At(rows, id).value.id == id
  {
    var i := Index(rows, id);
    if i >= 0 {
      assert Ids(rows)[i] == id;
    }
  }

  lemma {:induction false} TurnStep(keep: Row -> bool, rows: seq<Row>, r: Row)
    requires Distinct(Ids(rows))
    ensures var after := PutTurn(keep, rows, r);
            && Distinct(Ids(after))
            && Ids(after) == Ids(rows) + (if keep(r) && r.id !in Ids(rows) then [r.id] else [])
            && forall id :: At(after, id) == if keep(r) && id == r.id then Some(r) else At(rows, id)
  {
    AtMembers(rows, r.id);
    if keep(r) {
      var i, after := Index(rows, r.id), PutTurn(keep, rows, r);
      var at := if i >= 0 then i else |rows|;
      PutAt(rows, at, r);
      OthersStay(rows, after, r);
      hide Index, Ids, Distinct, At, PutTurn;
    }
  }

  lemma {:induction false} OthersStay(rows: seq<Row>, after: seq<Row>, row: Row)
    requires Distinct(Ids(rows)) && Distinct(Ids(after)) && At(after, row.id) == Some(row)
    requires forall i :: 0 <= i < |rows| && rows[i].id != row.id ==> rows[i] in after
    requires forall i :: 0 <= i < |after| && after[i].id != row.id ==> after[i] in rows
    ensures forall id :: At(after, id) == if id == row.id then Some(row) else At(rows, id)
  {
    hide Ids, Distinct, At;
    forall id ensures At(after, id) == if id == row.id then Some(row) else At(rows, id) {
      RowsAgree(rows, after, id, row.id);
    }
  }

  // r set over its own row, or added behind rows without it.
  lemma {:induction false} PutAt(rows: seq<Row>, at: nat, r: Row)
    requires Distinct(Ids(rows)) && at <= |rows| && (if at < |rows| then rows[at].id == r.id else r.id !in Ids(rows))
    ensures var after := if at < |rows| then rows[at := r] else rows + [r];
            && Ids(after) == Ids(rows) + (if at < |rows| then [] else [r.id])
            && Distinct(Ids(after)) && At(after, r.id) == Some(r)
            && (forall k :: 0 <= k < |rows| && rows[k].id != r.id ==> rows[k] in after)
            && (forall k :: 0 <= k < |after| && after[k].id != r.id ==> after[k] in rows)
  {
    hide Index;
    var after := if at < |rows| then rows[at := r] else rows + [r];
    assert Ids(after) == Ids(rows) + (if at < |rows| then [] else [r.id]);
    forall k | 0 <= k < |rows| && rows[k].id != r.id ensures rows[k] in after {
      assert rows[k] == after[k];
    }
    forall k | 0 <= k < |after| && after[k].id != r.id ensures after[k] in rows {
      assert after[k] == rows[k];
    }
    assert after[at] == r;
    IndexIs(after, at);
  }

  // Rows other than x sit in `after` as in rows.
  lemma {:induction false} RowsAgree(rows: seq<Row>, after: seq<Row>, id: string, x: string)
    requires Distinct(Ids(rows)) && Distinct(Ids(after))
    requires forall i :: 0 <= i < |rows| && rows[i].id != x ==> rows[i] in after
    requires forall i :: 0 <= i < |after| && after[i].id != x ==> after[i] in rows
    ensures id != x ==> At(after, id) == At(rows, id)
  {
    if id != x {
      var i, j := Index(rows, id), Index(after, id);
      if i >= 0 {
        var k :| 0 <= k < |after| && after[k] == rows[i];
        IndexIs(after, k);
      }
      if j >= 0 {
        var k :| 0 <= k < |rows| && rows[k] == after[j];
        IndexIs(rows, k);
      }
    }
  }

  lemma {:induction false} MoveOut(rows: seq<Row>, i: nat, last: seq<Row>)
    requires Distinct(Ids(rows)) && i < |rows| && |last| <= 1 && forall k :: 0 <= k < |last| ==> last[k].id == rows[i].id
    ensures var after := rows[..i] + rows[i + 1..] + last;
            && Ids(after) == Without(Ids(rows), rows[i].id) + Ids(last)
            && Distinct(Ids(after))
            && (last == [] ==> rows[i].id !in Ids(after))
  {
    hide Sift, Index;
    WithoutAt(Ids(rows), i);
    assert Ids(rows)[i] == rows[i].id;
    var after := rows[..i] + rows[i + 1..] + last;
    assert Ids(after) == Ids(rows)[..i] + Ids(rows)[i + 1..] + Ids(last);
  }

  lemma {:induction false} MoveOutRows(rows: seq<Row>, i: nat, last: seq<Row>)
    requires Distinct(Ids(rows)) && i < |rows| && |last| <= 1 && forall k :: 0 <= k < |last| ==> last[k].id == rows[i].id
    ensures var after := rows[..i] + rows[i + 1..] + last;
            && (forall k :: 0 <= k < |rows| && rows[k].id != rows[i].id ==> rows[k] in after)
            && (forall k :: 0 <= k < |after| && after[k].id != rows[i].id ==> after[k] in rows)
  {
    var after := rows[..i] + rows[i + 1..] + last;
    forall k | 0 <= k < |rows| && rows[k].id != rows[i].id ensures rows[k] in after {
      assert rows[k] == after[if k < i then k else k - 1];
    }
  }

  lemma {:induction false} UpdateStep(rows: seq<Row>, u: Row)
    requires Distinct(Ids(rows))
    ensures var after := PutUpdate(rows, u);
            && Distinct(Ids(after))
            && Ids(after) == (if Absorbs(u) && u.id in Ids(rows) then Without(Ids(rows), u.id) + [u.id] else Ids(rows))
            && forall id :: At(after, id) == if id == u.id && At(rows, id).Some? then Some(Merge(At(rows, id).value, u)) else At(rows, id)
  {
    AtMembers(rows, u.id);
    var i := Index(rows, u.id);
    if i >= 0 {
      var row, after := Merge(rows[i], u), PutUpdate(rows, u);
      assert At(rows, u.id) == Some(rows[i]) && row.id == u.id;
      assert after == if Absorbs(u) then rows[..i] + rows[i + 1..] + [row] else rows[i := row];
      hide Index, Ids, Distinct, Without, Merge, At, PutUpdate;
      if Absorbs(u) {
        MovedRow(rows, i, row);
      } else {
        assert rows[i].id == row.id;
        PutAt(rows, i, row);
      }
      OthersStay(rows, after, row);
    }
  }

  // The i-th row taken out and put at the end in its new form.
  lemma {:induction false} MovedRow(rows: seq<Row>, i: nat, row: Row)
    requires Distinct(Ids(rows)) && i < |rows| && row.id == rows[i].id
    ensures var after := rows[..i] + rows[i + 1..] + [row];
            && Ids(after) == Without(Ids(rows), row.id) + [row.id]
            && Distinct(Ids(after)) && At(after, row.id) == Some(row)
            && (forall k :: 0 <= k < |rows| && rows[k].id != row.id ==> rows[k] in after)
            && (forall k :: 0 <= k < |after| && after[k].id != row.id ==> after[k] in rows)
  {
    hide Index, Without;
    var after := rows[..i] + rows[i + 1..] + [row];
    MoveOut(rows, i, [row]);
    MoveOutRows(rows, i, [row]);
    assert Ids([row]) == [row.id];
    assert after[|rows| - 1] == row;
    IndexIs(after, |rows| - 1);
  }

  lemma {:induction false} DropStep(rows: seq<Row>, x: string)
    requires Distinct(Ids(rows))
    ensures var after := Drop(rows, x);
            && Distinct(Ids(after)) && Ids(after) == Without(Ids(rows), x)
            && forall id :: At(after, id) == if id == x then None else At(rows, id)
  {
    AtMembers(rows, x);
    var i := Index(rows, x);
    var after := Drop(rows, x);
    if i >= 0 {
      MoveOut(rows, i, []);
      MoveOutRows(rows, i, []);
      assert after == rows[..i] + rows[i + 1..] + [];
      AtMembers(after, x);
      forall id ensures At(after, id) == if id == x then None else At(rows, id) {
        RowsAgree(rows, after, id, x);
      }
    } else {
      SiftAll(Ids(rows), {x}, false);
    }
  }

  // ------------------------------------------------------------------ closed form

  // Ids in the order they first appear, after those already there.
  function Extend(keep: Row -> bool, ids: seq<string>, turns: seq<Row>): seq<string> {
    if turns == [] then ids
    else
      var front, r := Extend(keep, ids, turns[..|turns| - 1]), turns[|turns| - 1];
      if keep(r) && r.id !in front then front + [r.id] else front
  }

  // The last kept turn of the id, else the row there was.
  function Latest(keep: Row -> bool, was: Option<Row>, turns: seq<Row>, id: string): Option<Row> {
    if turns == [] then was
    else
      var r := turns[|turns| - 1];
      if keep(r) && r.id == id then Some(r) else Latest(keep, was, turns[..|turns| - 1], id)
  }

  // The row with all its updates.
  function MergeAll(row: Row, us: seq<Row>, id: string): Row {
    if us == [] then row
    else
      var front, u := MergeAll(row, us[..|us| - 1], id), us[|us| - 1];
      if u.id == id then Merge(front, u) else front
  }

  // The absorbed ids, by their last absorbing update.
  function Absorbed(us: seq<Row>): seq<string> {
    if us == [] then []
    else
      var front, u := Absorbed(us[..|us| - 1]), us[|us| - 1];
      if Absorbs(u) then Without(front, u.id) + [u.id] else front
  }

  function AsSet(s: seq<string>): set<string> {
    set x | x in s
  }

  function Updated(was: Option<Row>, us: seq<Row>, id: string): Option<Row> {
    if was.None? then None else Some(MergeAll(was.value, us, id))
  }

  lemma {:induction false} TurnsForm(keep: Row -> bool, rows: seq<Row>, turns: seq<Row>)
    requires Distinct(Ids(rows))
    ensures var after := PutTurns(keep, rows, turns);
            && Distinct(Ids(after)) && Ids(after) == Extend(keep, Ids(rows), turns)
            && forall id :: At(after, id) == Latest(keep, At(rows, id), turns, id)
    decreases |turns|
  {
    if turns != [] {
      TurnsForm(keep, rows, turns[..|turns| - 1]);
      TurnStep(keep, PutTurns(keep, rows, turns[..|turns| - 1]), turns[|turns| - 1]);
      hide PutTurn, At, Ids, Distinct;
    }
  }

  lemma {:induction false} UpdatesForm(rows: seq<Row>, us: seq<Row>, id: string)
    requires Distinct(Ids(rows))
    ensures var after := PutUpdates(rows, us);
            && Distinct(Ids(after))
            && Ids(after) == Sift(Ids(rows), AsSet(Absorbed(us)), false) + Sift(Absorbed(us), AsSet(Ids(rows)), true)
            && At(after, id) == Updated(At(rows, id), us, id)
    decreases |us|
  {
    hide At, Ids, Distinct, Sift, Without, AsSet, PutUpdate;
    if us == [] {
      NothingAbsorbed(Ids(rows));
    } else {
      var front, u := us[..|us| - 1], us[|us| - 1];
      UpdatesForm(rows, front, id);
      UpdateStep(PutUpdates(rows, front), u);
      AbsorbStep(Ids(rows), Absorbed(front), u.id);
    }
  }

  lemma {:induction false} NothingAbsorbed(ids: seq<string>)
    ensures Sift(ids, AsSet([]), false) + Sift([], AsSet(ids), true) == ids
  {
    assert AsSet([]) == {};
    SiftAll(ids, {}, false);
  }

  // Moving x to the end, on ids already settled as staying ones and absorbed ones.
  lemma {:induction false} AbsorbStep(ids: seq<string>, absorbed: seq<string>, x: string)
    ensures var settled := Sift(ids, AsSet(absorbed), false) + Sift(absorbed, AsSet(ids), true);
            var more := Without(absorbed, x) + [x];
            (if x in settled then Without(settled, x) + [x] else settled)
            == Sift(ids, AsSet(more), false) + Sift(more, AsSet(ids), true)
  {
    var staying, moved := Sift(ids, AsSet(absorbed), false), Sift(absorbed, AsSet(ids), true);
    SiftMembers(ids, AsSet(absorbed), false, x);
    SiftMembers(absorbed, AsSet(ids), true, x);
    StayingStep(ids, absorbed, x);
    MovedStep(ids, absorbed, x);
    SiftConcat(staying, moved, {x}, false);
    if x !in ids {
      SiftAll(staying, {x}, false);
      SiftAll(moved, {x}, false);
    }
    hide Sift;
    Assoc(Without(staying, x), Without(moved, x), [x]);
  }

  lemma {:induction false} StayingStep(ids: seq<string>, absorbed: seq<string>, x: string)
    ensures Sift(ids, AsSet(Without(absorbed, x) + [x]), false) == Without(Sift(ids, AsSet(absorbed), false), x)
  {
    hide Sift;
    var more := Without(absorbed, x) + [x];
    forall y ensures y in AsSet(more) <==> y in AsSet(absorbed) || y == x {
      SiftMembers(absorbed, {x}, false, y);
    }
    SiftTwice(ids, AsSet(absorbed), false, {x}, false, AsSet(more), false, {}, false);
    SiftAll(Sift(ids, AsSet(more), false), {}, false);
  }

  lemma {:induction false} MovedStep(ids: seq<string>, absorbed: seq<string>, x: string)
    ensures Sift(Without(absorbed, x) + [x], AsSet(ids), true)
         == Without(Sift(absorbed, AsSet(ids), true), x) + if x in ids then [x] else []
  {
    hide Sift;
    SiftConcat(Without(absorbed, x), [x], AsSet(ids), true);
    SiftOne(x, AsSet(ids), true);
    SiftTwice(absorbed, AsSet(ids), true, {x}, false, {x}, false, AsSet(ids), true);
  }

  lemma {:induction false} Assoc<T>(a: seq<T>, b: seq<T>, c: seq<T>)
    ensures (a + b) + c == a + (b + c)
  {
  }

  lemma {:induction false} DropsForm(rows: seq<Row>, removed: seq<string>)
    requires Distinct(Ids(rows))
    ensures var after := DropAll(rows, removed);
            && Distinct(Ids(after)) && Ids(after) == Sift(Ids(rows), AsSet(removed), false)
            && forall id :: At(after, id) == if id in removed then None else At(rows, id)
    decreases |removed|
  {
    if removed == [] {
      assert AsSet(removed) == {};
      SiftAll(Ids(rows), {}, false);
    } else {
      var front, x := removed[..|removed| - 1], removed[|removed| - 1];
      assert removed == front + [x];
      DropsForm(rows, front);
      DropStep(DropAll(rows, front), x);
      SiftTwice(Ids(rows), AsSet(front), false, {x}, false, AsSet(removed), false, {}, false);
      SiftAll(Sift(Ids(rows), AsSet(removed), false), {}, false);
      hide Drop, At, Ids, Distinct, Sift;
    }
  }

  // The ids after a response: untouched and merged rows in order with the new ones behind them,
  // then the absorbed ones in update order, without the removed.
  function Order(keep: Row -> bool, ids: seq<string>, tl: Timeline): seq<string> {
    var all := Extend(keep, ids, tl.turns);
    var absorbed := Absorbed(tl.updates);
    Sift(Sift(all, AsSet(absorbed), false), AsSet(tl.removed), false)
    + Sift(Sift(absorbed, AsSet(all), true), AsSet(tl.removed), false)
  }

  // The row of one id after a response.
  function Content(keep: Row -> bool, was: Option<Row>, tl: Timeline, id: string): Option<Row> {
    if id in tl.removed then None else Updated(Latest(keep, was, tl.turns, id), tl.updates, id)
  }

  /** Closed form of merging a response into rows with distinct ids, which stay distinct. */
  lemma {:induction false} ApplyForm(keep: Row -> bool, rows: seq<Row>, tl: Timeline)
    requires Distinct(Ids(rows))
    ensures var after := Apply(keep, rows, tl);
            && Distinct(Ids(after)) && Ids(after) == Order(keep, Ids(rows), tl)
            && forall id :: At(after, id) == Content(keep, At(rows, id), tl, id)
  {
    var turned := PutTurns(keep, rows, tl.turns);
    TurnsForm(keep, rows, tl.turns);
    forall id ensures At(PutUpdates(turned, tl.updates), id) == Updated(At(turned, id), tl.updates, id) {
      UpdatesForm(turned, tl.updates, id);
    }
    UpdatesForm(turned, tl.updates, "");
    DropsForm(PutUpdates(turned, tl.updates), tl.removed);
    hide PutTurns, PutUpdates, DropAll, At, Ids, Distinct, Sift, Extend, Absorbed, AsSet, Latest, Updated;
    var all := Extend(keep, Ids(rows), tl.turns);
    SiftConcat(Sift(all, AsSet(Absorbed(tl.updates)), false), Sift(Absorbed(tl.updates), AsSet(all), true), AsSet(tl.removed), false);
  }

  // The fields an update may set.
  datatype Field = Body | Detail | Time | Delivery | Queued | IsError

  predicate Gives(u: Row, f: Field) {
    match f
    case Body => u.body != ""
    case Detail => u.detail != ""
    case Time => u.ts != ""
    case Delivery => u.delivery != ""
    case Queued => u.queued != None
    case IsError => u.isError != None
  }

  predicate Agree(a: Row, b: Row, f: Field) {
    match f
    case Body => a.body == b.body
    case Detail => a.detail == b.detail
    case Time => a.ts == b.ts
    case Delivery => a.delivery == b.delivery
    case Queued => a.queued == b.queued
    case IsError => a.isError == b.isError
  }

  // The last update of the id that gives the field a value.
  ghost predicate LastGives(us: seq<Row>, id: string, f: Field, k: nat) {
    k < |us| && us[k].id == id && Gives(us[k], f) && forall j :: k < j < |us| && us[j].id == id ==> !Gives(us[j], f)
  }

  lemma {:induction false} LastGivesSnoc(front: seq<Row>, u: Row, id: string, f: Field, k: nat)
    requires LastGives(front + [u], id, f, k)
    ensures if k == |front| then u.id == id && Gives(u, f)
            else k < |front| && LastGives(front, id, f, k) && (front + [u])[k] == front[k] && !(u.id == id && Gives(u, f))
  {
    hide Gives;
    var us := front + [u];
    assert us[|front|] == u;
    assert forall j :: 0 <= j < |front| ==> us[j] == front[j];
  }

  lemma {:induction false} MergeGives(row: Row, u: Row, f: Field)
    ensures Agree(Merge(row, u), if Gives(u, f) then u else row, f)
  {
  }

  /** Of all the updates to a row the last that gives a field a value sets it; without one the field
      stays, as do the fields no update sets. */
  lemma {:induction false} LastUpdateWins(row: Row, us: seq<Row>, id: string, f: Field)
    ensures var after := MergeAll(row, us, id);
            && (forall k: nat :: LastGives(us, id, f, k) ==> Agree(after, us[k], f))
            && ((forall k :: 0 <= k < |us| && us[k].id == id ==> !Gives(us[k], f)) ==> Agree(after, row, f))
            && after.id == row.id && after.kind == row.kind && after.rest == row.rest
    decreases |us|
  {
    hide Gives;
    if us != [] {
      var front, u := us[..|us| - 1], us[|us| - 1];
      LastUpdateWins(row, front, id, f);
      MergeGives(MergeAll(row, front, id), u, f);
      assert us == front + [u];
      assert forall j :: 0 <= j < |front| ==> us[j] == front[j];
      forall k: nat | LastGives(us, id, f, k) ensures Agree(MergeAll(row, us, id), us[k], f) {
        LastGivesSnoc(front, u, id, f, k);
      }
    }
  }

  ghost predicate LastTurn(keep: Row -> bool, turns: seq<Row>, id: string, k: nat) {
    k < |turns| && keep(turns[k]) && turns[k].id == id && forall j :: k < j < |turns| && keep(turns[j]) ==> turns[j].id != id
  }

  // The row is the last kept turn of its id, or without one what it was.
  lemma {:induction false} LastTurnStays(keep: Row -> bool, was: Option<Row>, turns: seq<Row>, id: string)
    ensures forall k: nat :: LastTurn(keep, turns, id, k) ==> Latest(keep, was, turns, id) == Some(turns[k])
    ensures (forall k :: 0 <= k < |turns| && keep(turns[k]) ==> turns[k].id != id) ==> Latest(keep, was, turns, id) == was
    decreases |turns|
  {
    if turns != [] {
      var front, r := turns[..|turns| - 1], turns[|turns| - 1];
      LastTurnStays(keep, was, front, id);
      assert forall k :: 0 <= k < |front| ==> front[k] == turns[k];
      forall k: nat | LastTurn(keep, turns, id, k) ensures Latest(keep, was, turns, id) == Some(turns[k]) {
        if k < |front| {
          assert LastTurn(keep, front, id, k);
          assert turns[|front|] == r;
        }
      }
    }
  }

  // The turn is kept, and the first with an id not there before.
  ghost predicate Brings(keep: Row -> bool, ids: seq<string>, turns: seq<Row>, k: nat) {
    k < |turns| && keep(turns[k]) && turns[k].id !in ids && forall j :: 0 <= j < k && keep(turns[j]) ==> turns[j].id != turns[k].id
  }

  /** New ids stand behind the old ones, each where its first kept turn puts it. */
  lemma {:induction false} NewIdsInOrder(keep: Row -> bool, ids: seq<string>, turns: seq<Row>) returns (at: seq<nat>)
    ensures |Extend(keep, ids, turns)| == |ids| + |at| && ids <= Extend(keep, ids, turns)
    ensures forall k :: 0 <= k < |at| ==> at[k] < |turns| && Extend(keep, ids, turns)[|ids| + k] == turns[at[k]].id
    ensures forall j, k :: 0 <= j < k < |at| ==> at[j] < at[k]
    ensures forall k: nat :: k in at <==> Brings(keep, ids, turns, k)
    decreases |turns|
  {
    if turns == [] {
      at := [];
    } else {
      var front, r := turns[..|turns| - 1], turns[|turns| - 1];
      at := NewIdsInOrder(keep, ids, front);
      ExtendMembers(keep, ids, front, r.id);
      hide Extend, Brings;
      BringsSnoc(keep, ids, front, r);
      assert turns == front + [r];
      ExtendSnoc(keep, ids, front, r);
      InSnoc(at, |front|);
      if keep(r) && r.id !in Extend(keep, ids, front) {
        at := at + [|front|];
      }
    }
  }

  lemma {:induction false} ExtendSnoc(keep: Row -> bool, ids: seq<string>, front: seq<Row>, r: Row)
    ensures var was := Extend(keep, ids, front);
            Extend(keep, ids, front + [r]) == if keep(r) && r.id !in was then was + [r.id] else was
  {
    assert (front + [r])[..|front|] == front;
  }

  lemma {:induction false} BringsSnoc(keep: Row -> bool, ids: seq<string>, front: seq<Row>, r: Row)
    ensures forall k: nat :: k < |front| ==> (Brings(keep, ids, front + [r], k) <==> Brings(keep, ids, front, k))
    ensures Brings(keep, ids, front + [r], |front|)
            <==> keep(r) && r.id !in ids && forall j :: 0 <= j < |front| && keep(front[j]) ==> front[j].id != r.id
  {
    var turns := front + [r];
    assert turns[|front|] == r;
    assert forall j :: 0 <= j < |front| ==> turns[j] == front[j];
  }

  // An id is absorbed iff some update absorbs it, and later in the list iff last absorbed later.
  function LastAbsorb(us: seq<Row>, id: string): (k: nat)
    ensures k <= |us| && (k > 0 ==> us[k - 1].id == id && Absorbs(us[k - 1]))
    ensures forall j :: k <= j < |us| ==> !(us[j].id == id && Absorbs(us[j]))
  {
    if us == [] then 0
    else if us[|us| - 1].id == id && Absorbs(us[|us| - 1]) then |us|
    else LastAbsorb(us[..|us| - 1], id)
  }

  lemma {:induction false} AbsorbedMembers(us: seq<Row>, id: string)
    ensures id in Absorbed(us) <==> LastAbsorb(us, id) > 0
    decreases |us|
  {
    hide Sift, Absorbs;
    if us != [] {
      var front, u := us[..|us| - 1], us[|us| - 1];
      AbsorbedMembers(front, id);
      SiftMembers(Absorbed(front), {u.id}, false, id);
    }
  }

  lemma {:induction false} LastAbsorbStep(us: seq<Row>, id: string)
    requires us != []
    ensures var u := us[|us| - 1];
            LastAbsorb(us, id) == if u.id == id && Absorbs(u) then |us| else LastAbsorb(us[..|us| - 1], id)
  {
  }

  lemma {:induction false} AbsorbedAscends(us: seq<Row>)
    ensures Ascending(us, Absorbed(us))
    decreases |us|
  {
    hide LastAbsorb, Sift, Absorbs;
    if us != [] {
      var front, u := us[..|us| - 1], us[|us| - 1];
      AbsorbedAscends(front);
      SiftAscending(front, Absorbed(front), {u.id}, false);
      if Absorbs(u) {
        AscendsOn(us, Without(Absorbed(front), u.id));
      } else {
        StillAscends(us, Absorbed(front));
      }
    }
  }

  lemma {:induction false} StillAscends(us: seq<Row>, s: seq<string>)
    requires us != [] && Ascending(us[..|us| - 1], s) && (Absorbs(us[|us| - 1]) ==> us[|us| - 1].id !in s)
    ensures Ascending(us, s)
  {
    hide LastAbsorb, Absorbs;
    forall i, j | 0 <= i < j < |s| ensures LastAbsorb(us, s[i]) < LastAbsorb(us, s[j]) {
      LastAbsorbStep(us, s[i]);
      LastAbsorbStep(us, s[j]);
    }
  }

  lemma {:induction false} AscendsOn(us: seq<Row>, rest: seq<string>)
    requires us != [] && Absorbs(us[|us| - 1])
    requires var front, u := us[..|us| - 1], us[|us| - 1];
             Ascending(front, rest) && rest == Without(Absorbed(front), u.id)
    ensures Ascending(us, rest + [us[|us| - 1].id])
  {
    hide Sift, Absorbs, Absorbed, Ascending;
    var front, u := us[..|us| - 1], us[|us| - 1];
    forall i | 0 <= i < |rest| ensures rest[i] != u.id && LastAbsorb(us, rest[i]) <= |front| {
      SiftMembers(Absorbed(front), {u.id}, false, rest[i]);
      LastAbsorbStep(us, rest[i]);
    }
    StillAscends(us, rest);
    LastAbsorbStep(us, u.id);
    hide LastAbsorb, Without;
    AscendingSnoc(us, rest, u.id);
  }

  lemma {:induction false} AscendingSnoc(us: seq<Row>, s: seq<string>, id: string)
    requires Ascending(us, s) && forall i :: 0 <= i < |s| ==> LastAbsorb(us, s[i]) < LastAbsorb(us, id)
    ensures Ascending(us, s + [id])
  {
    hide LastAbsorb;
  }

  lemma {:induction false} AbsorbedInOrder(us: seq<Row>)
    ensures forall id :: id in Absorbed(us) <==> LastAbsorb(us, id) > 0
    ensures forall i, j :: 0 <= i < j < |Absorbed(us)| ==> LastAbsorb(us, Absorbed(us)[i]) < LastAbsorb(us, Absorbed(us)[j])
  {
    hide LastAbsorb, Absorbed;
    forall id ensures id in Absorbed(us) <==> LastAbsorb(us, id) > 0 {
      AbsorbedMembers(us, id);
    }
    AbsorbedAscends(us);
  }

  ghost predicate Ascending(us: seq<Row>, s: seq<string>) {
    forall i, j :: 0 <= i < j < |s| ==> LastAbsorb(us, s[i]) < LastAbsorb(us, s[j])
  }

  lemma {:induction false} SiftAscending(us: seq<Row>, s: seq<string>, t: set<string>, inside: bool)
    requires Ascending(us, s)
    ensures Ascending(us, Sift(s, t, inside))
    decreases |s|
  {
    if s != [] {
      var front, last := s[..|s| - 1], s[|s| - 1];
      SiftAscending(us, front, t, inside);
      var sifted := Sift(front, t, inside);
      forall i | 0 <= i < |sifted| ensures LastAbsorb(us, sifted[i]) < LastAbsorb(us, last) {
        SiftMembers(front, t, inside, sifted[i]);
        var k :| 0 <= k < |front| && front[k] == sifted[i];
      }
    }
  }

  // ------------------------------------------------------------------ replay

  lemma {:induction false} MergeTwice(r: Row, a: Row, b: Row)
    ensures Merge(Merge(r, a), b) == Merge(r, Merge(a, b))
    ensures Merge(Merge(r, a), a) == Merge(r, a)
  {
  }

  function Neutral(id: string): Row {
    Row(id, "", "", "", "", "", None, None, "")
  }

  lemma {:induction false} MergeAllAtOnce(r: Row, us: seq<Row>, id: string)
    ensures MergeAll(r, us, id) == Merge(r, MergeAll(Neutral(id), us, id))
    decreases |us|
  {
    if us != [] {
      var front, u := us[..|us| - 1], us[|us| - 1];
      MergeAllAtOnce(r, front, id);
      MergeTwice(r, MergeAll(Neutral(id), front, id), u);
      hide Merge;
    }
  }

  lemma {:induction false} MergeAllTwice(r: Row, us: seq<Row>, id: string)
    ensures MergeAll(MergeAll(r, us, id), us, id) == MergeAll(r, us, id)
  {
    var all := MergeAll(Neutral(id), us, id);
    MergeAllAtOnce(r, us, id);
    MergeAllAtOnce(MergeAll(r, us, id), us, id);
    MergeTwice(r, all, all);
  }

  lemma {:induction false} LatestFrom(keep: Row -> bool, was: Option<Row>, other: Option<Row>, turns: seq<Row>, id: string)
    ensures (Latest(keep, was, turns, id) == was && Latest(keep, other, turns, id) == other)
            || Latest(keep, was, turns, id) == Latest(keep, other, turns, id)
    decreases |turns|
  {
    if turns != [] {
      LatestFrom(keep, was, other, turns[..|turns| - 1], id);
    }
  }

  lemma {:induction false} ContentTwice(keep: Row -> bool, was: Option<Row>, tl: Timeline, id: string)
    ensures Content(keep, Content(keep, was, tl, id), tl, id) == Content(keep, was, tl, id)
  {
    if id !in tl.removed {
      var next := Content(keep, was, tl, id);
      var first := Latest(keep, was, tl.turns, id);
      LatestFrom(keep, was, next, tl.turns, id);
      if first.Some? {
        MergeAllTwice(first.value, tl.updates, id);
      }
    }
  }

  lemma {:induction false} ExtendMembers(keep: Row -> bool, ids: seq<string>, turns: seq<Row>, id: string)
    ensures id in Extend(keep, ids, turns) <==> id in ids || exists i :: 0 <= i < |turns| && keep(turns[i]) && turns[i].id == id
    decreases |turns|
  {
    if turns != [] {
      var front := turns[..|turns| - 1];
      ExtendMembers(keep, ids, front, id);
      assert forall i :: 0 <= i < |front| ==> front[i] == turns[i];
    }
  }

  lemma {:induction false} ExtendAppends(keep: Row -> bool, ids: seq<string>, turns: seq<Row>) returns (added: seq<string>)
    ensures Extend(keep, ids, turns) == ids + added
    ensures forall id :: id in added ==> id !in ids
    decreases |turns|
  {
    if turns == [] {
      added := [];
    } else {
      added := ExtendAppends(keep, ids, turns[..|turns| - 1]);
      var r := turns[|turns| - 1];
      if keep(r) && r.id !in ids + added {
        Assoc(ids, added, [r.id]);
        added := added + [r.id];
      }
    }
  }

  // Replaying a response finds every id where it put it.
  lemma {:induction false} OrderTwice(keep: Row -> bool, ids: seq<string>, tl: Timeline)
    ensures Order(keep, Order(keep, ids, tl), tl) == Order(keep, ids, tl)
  {
    var all, absorbed := Extend(keep, ids, tl.turns), Absorbed(tl.updates);
    var a, r := AsSet(absorbed), AsSet(tl.removed);
    var x, y := Sift(Sift(all, a, false), r, false), Sift(Sift(absorbed, AsSet(all), true), r, false);
    var f := Order(keep, ids, tl);
    assert f == x + y;
    var added := ExtendAppends(keep, f, tl.turns);
    var all' := Extend(keep, f, tl.turns);
    hide Order, Extend, Absorbed, Sift;
    forall id ensures id in x <==> id in all && id !in a && id !in r {
      SiftMembers(Sift(all, a, false), r, false, id);
      SiftMembers(all, a, false, id);
    }
    forall id ensures id in y <==> id in a && id in all && id !in r {
      SiftMembers(Sift(absorbed, AsSet(all), true), r, false, id);
      SiftMembers(absorbed, AsSet(all), true, id);
    }
    forall id ensures id in all' ==> id in all {
      ExtendMembers(keep, ids, tl.turns, id);
      ExtendMembers(keep, f, tl.turns, id);
    }
    assert forall id :: id in added ==> id in all' && id in r;
    ReplaySifts(x, y, added, absorbed, all, all', r);
    Order'Is(keep, f, tl);
  }

  lemma {:induction false} Order'Is(keep: Row -> bool, ids: seq<string>, tl: Timeline)
    ensures var all, absorbed := Extend(keep, ids, tl.turns), Absorbed(tl.updates);
            Order(keep, ids, tl) == Sift(Sift(all, AsSet(absorbed), false), AsSet(tl.removed), false)
                                    + Sift(Sift(absorbed, AsSet(all), true), AsSet(tl.removed), false)
  {
  }

  lemma {:induction false} ReplaySifts(x: seq<string>, y: seq<string>, added: seq<string>, absorbed: seq<string>,
                                       all: seq<string>, all': seq<string>, r: set<string>)
    requires forall id :: id in x <==> id in all && id !in absorbed && id !in r
    requires forall id :: id in y <==> id in absorbed && id in all && id !in r
    requires y == Sift(Sift(absorbed, AsSet(all), true), r, false)
    requires all' == x + y + added && (forall id :: id in added ==> id in r) && forall id :: id in all' ==> id in all
    ensures Sift(Sift(all', AsSet(absorbed), false), r, false) + Sift(Sift(absorbed, AsSet(all'), true), r, false) == x + y
  {
    var a := AsSet(absorbed);
    hide Sift;
    SiftConcat(x + y, added, a, false);
    SiftConcat(x, y, a, false);
    SiftAll(x, a, false);
    SiftAll(y, a, false);
    assert Sift(all', a, false) == x + Sift(added, a, false);
    SiftConcat(x, Sift(added, a, false), r, false);
    SiftAll(x, r, false);
    forall id | id in Sift(added, a, false) ensures id in r {
      SiftMembers(added, a, false, id);
    }
    SiftAll(Sift(added, a, false), r, false);
    SiftTwice(absorbed, AsSet(all'), true, r, false, AsSet(all), true, r, false);
  }

  /** Replaying a response changes nothing. */
  lemma {:induction false} ReplayIsIdempotent(keep: Row -> bool, rows: seq<Row>, tl: Timeline)
    requires Distinct(Ids(rows))
    ensures Apply(keep, Apply(keep, rows, tl), tl) == Apply(keep, rows, tl)
  {
    hide *;
    var once := Apply(keep, rows, tl);
    var twice := Apply(keep, once, tl);
    ApplyForm(keep, rows, tl);
    ApplyForm(keep, once, tl);
    OrderTwice(keep, Ids(rows), tl);
    forall id ensures At(twice, id) == At(once, id) {
      ContentTwice(keep, At(rows, id), tl, id);
    }
    SameRows(twice, once);
  }

  // ------------------------------------------------------------------ frames

  function ApplyFrame(keep: Row -> bool, rows: seq<Row>, f: Frame): seq<Row> {
    match f
    case RowFrame(row) => Apply(keep, rows, Timeline([row], [], [], ""))
    case UpdateFrame(row) => Apply(keep, rows, Timeline([], [row], [], ""))
    case RemoveFrame(id) => if id != "" then Apply(keep, rows, Timeline([], [], [id], "")) else rows
    case Resync => rows
    case Status => rows
  }

  function ApplyFrames(keep: Row -> bool, rows: seq<Row>, fs: seq<Frame>): seq<Row> {
    if fs == [] then rows else ApplyFrame(keep, ApplyFrames(keep, rows, fs[..|fs| - 1]), fs[|fs| - 1])
  }

  // The response cut into single frames.
  function Framed(tl: Timeline): seq<Frame> {
    seq(|tl.turns|, i requires 0 <= i < |tl.turns| => RowFrame(tl.turns[i]))
    + seq(|tl.updates|, i requires 0 <= i < |tl.updates| => UpdateFrame(tl.updates[i]))
    + seq(|tl.removed|, i requires 0 <= i < |tl.removed| => RemoveFrame(tl.removed[i]))
  }

  lemma {:induction false} FrameStep(keep: Row -> bool, rows: seq<Row>, row: Row, id: string)
    ensures ApplyFrame(keep, rows, RowFrame(row)) == PutTurn(keep, rows, row)
    ensures ApplyFrame(keep, rows, UpdateFrame(row)) == PutUpdate(rows, row)
    ensures id != "" ==> ApplyFrame(keep, rows, RemoveFrame(id)) == Drop(rows, id)
  {
    hide PutTurn, PutUpdate, Drop;
    assert [row][..0] == [] && [id][..0] == [];
    assert PutTurns(keep, rows, []) == rows && PutUpdates(rows, []) == rows;
    assert PutTurns(keep, rows, [row]) == PutTurn(keep, rows, row);
    assert PutUpdates(rows, [row]) == PutUpdate(rows, row);
    assert DropAll(rows, []) == rows && DropAll(rows, [id]) == Drop(rows, id);
  }

  lemma {:induction false} FramesInTurn(keep: Row -> bool, rows: seq<Row>, fs: seq<Frame>, f: Frame)
    ensures ApplyFrames(keep, rows, fs + [f]) == ApplyFrame(keep, ApplyFrames(keep, rows, fs), f)
  {
    assert (fs + [f])[..|fs|] == fs;
  }

  /** The rows, updates and removals of a response give the same rows as single frames. */
  lemma {:induction false} FramesMatchBatch(keep: Row -> bool, rows: seq<Row>, tl: Timeline)
    requires "" !in tl.removed
    ensures ApplyFrames(keep, rows, Framed(tl)) == Apply(keep, rows, tl)
    decreases |tl.turns| + |tl.updates| + |tl.removed|
  {
    hide ApplyFrame, ApplyFrames, PutTurn, PutUpdate, Drop;
    if tl.removed != [] {
      var front, x := tl.removed[..|tl.removed| - 1], tl.removed[|tl.removed| - 1];
      var less := tl.(removed := front);
      FramesMatchBatch(keep, rows, less);
      assert Framed(tl) == Framed(less) + [RemoveFrame(x)];
      FramesInTurn(keep, rows, Framed(less), RemoveFrame(x));
      FrameStep(keep, Apply(keep, rows, less), Neutral(""), x);
    } else if tl.updates != [] {
      var front, u := tl.updates[..|tl.updates| - 1], tl.updates[|tl.updates| - 1];
      var less := tl.(updates := front);
      FramesMatchBatch(keep, rows, less);
      assert Framed(tl) == Framed(less) + [UpdateFrame(u)];
      FramesInTurn(keep, rows, Framed(less), UpdateFrame(u));
      FrameStep(keep, Apply(keep, rows, less), u, "");
    } else if tl.turns != [] {
      var front, r := tl.turns[..|tl.turns| - 1], tl.turns[|tl.turns| - 1];
      var less := tl.(turns := front);
      FramesMatchBatch(keep, rows, less);
      assert Framed(tl) == Framed(less) + [RowFrame(r)];
      FramesInTurn(keep, rows, Framed(less), RowFrame(r));
      FrameStep(keep, Apply(keep, rows, less), r, "");
    } else {
      assert Framed(tl) == [];
      NoFrames(keep, rows);
    }
  }

  lemma {:induction false} NoFrames(keep: Row -> bool, rows: seq<Row>)
    ensures ApplyFrames(keep, rows, []) == rows
  {
  }

  // ------------------------------------------------------------------ older pages

  predicate IsBoundary(id: string) {
    "boundary:" <= id
  }

  // The rows of a page that are kept: a boundary already in the cache is not repeated.
  function Older(keep: Row -> bool, rows: seq<Row>, page: seq<Row>): seq<Row> {
    if page == [] then []
    else
      var r := page[|page| - 1];
      Older(keep, rows, page[..|page| - 1])
      + if keep(r) && !(IsBoundary(r.id) && Index(rows, r.id) >= 0) then [r] else []
  }

  /** Paging keeps ids distinct exactly when the kept rows of the page differ from each other and no
      kept row but a boundary is in the cache already. */
  lemma {:induction false} PagingKeepsDistinctIff(keep: Row -> bool, rows: seq<Row>, page: seq<Row>)
    requires Distinct(Ids(rows))
    ensures Distinct(Ids(Older(keep, rows, page) + rows))
            <==> Distinct(Ids(Older(keep, rows, page)))
                 && forall i :: 0 <= i < |page| && keep(page[i]) && !IsBoundary(page[i].id) ==> page[i].id !in Ids(rows)
  {
    var older := Older(keep, rows, page);
    assert Ids(older + rows) == Ids(older) + Ids(rows);
    OlderMembers(keep, rows, page);
    DistinctParts(Ids(older), Ids(rows));
    hide Older, Distinct, IsBoundary;
    if Distinct(Ids(older + rows)) {
      forall i | 0 <= i < |page| && keep(page[i]) && !IsBoundary(page[i].id) ensures page[i].id !in Ids(rows) {
        var k :| 0 <= k < |older| && older[k] == page[i];
        assert Ids(older)[k] !in Ids(rows);
      }
    }
    if forall i :: 0 <= i < |page| && keep(page[i]) && !IsBoundary(page[i].id) ==> page[i].id !in Ids(rows) {
      forall k | 0 <= k < |older| ensures Ids(older)[k] !in Ids(rows) {
        AtMembers(rows, older[k].id);
        var i :| 0 <= i < |page| && page[i] == older[k];
      }
    }
  }

  // Kept, and no boundary the cache has.
  ghost predicate Joins(keep: Row -> bool, rows: seq<Row>, page: seq<Row>, i: nat) {
    i < |page| && keep(page[i]) && !("boundary:" <= page[i].id && page[i].id in Ids(rows))
  }

  // The rows a page adds, in its order: all that are kept, but for boundaries the cache has.
  lemma {:induction false} OlderInOrder(keep: Row -> bool, rows: seq<Row>, page: seq<Row>) returns (at: seq<nat>)
    ensures |at| == |Older(keep, rows, page)|
    ensures forall k :: 0 <= k < |at| ==> at[k] < |page| && Older(keep, rows, page)[k] == page[at[k]]
    ensures forall j, k :: 0 <= j < k < |at| ==> at[j] < at[k]
    ensures forall i: nat :: i in at <==> Joins(keep, rows, page, i)
    decreases |page|
  {
    if page == [] {
      at := [];
    } else {
      var front, r := page[..|page| - 1], page[|page| - 1];
      at := OlderInOrder(keep, rows, front);
      hide Older, Ids;
      assert page == front + [r];
      OlderSnoc(keep, rows, front, r);
      JoinsSnoc(keep, rows, front, r);
      InSnoc(at, |front|);
      if Joins(keep, rows, page, |front|) {
        at := at + [|front|];
      }
    }
  }

  lemma {:induction false} OlderSnoc(keep: Row -> bool, rows: seq<Row>, front: seq<Row>, r: Row)
    ensures Older(keep, rows, front + [r])
            == Older(keep, rows, front) + if Joins(keep, rows, front + [r], |front|) then [r] else []
  {
    hide Index;
    assert (front + [r])[..|front|] == front;
    IndexFinds(rows, r.id);
  }

  lemma {:induction false} JoinsSnoc(keep: Row -> bool, rows: seq<Row>, front: seq<Row>, r: Row)
    ensures forall i: nat :: i < |front| ==> (Joins(keep, rows, front + [r], i) <==> Joins(keep, rows, front, i))
  {
    hide Ids;
  }

  lemma {:induction false} InSnoc(at: seq<nat>, n: nat)
    ensures forall i: nat :: i in at + [n] <==> i in at || i == n
  {
  }

  lemma {:induction false} IndexFinds(rows: seq<Row>, id: string)
    ensures Index(rows, id) >= 0 <==> id in Ids(rows)
  {
    hide Index;
    var i := Index(rows, id);
    if i >= 0 {
      assert Ids(rows)[i] == id;
    }
  }

  lemma {:induction false} DistinctParts(a: seq<string>, b: seq<string>)
    requires Distinct(b)
    ensures Distinct(a + b) <==> Distinct(a) && forall i :: 0 <= i < |a| ==> a[i] !in b
  {
    var all := a + b;
    if Distinct(all) {
      forall i, j | 0 <= i < j < |a| ensures a[i] != a[j] {
        assert all[i] != all[j];
      }
      forall i, j | 0 <= i < |a| && 0 <= j < |b| ensures a[i] != b[j] {
        assert all[i] != all[|a| + j];
      }
    }
  }

  lemma {:induction false} OlderMembers(keep: Row -> bool, rows: seq<Row>, page: seq<Row>)
    ensures forall k :: 0 <= k < |Older(keep, rows, page)| ==>
                          var r := Older(keep, rows, page)[k];
                          r in page && keep(r) && !(IsBoundary(r.id) && Index(rows, r.id) >= 0)
    ensures forall i :: 0 <= i < |page| && keep(page[i]) && !IsBoundary(page[i].id) ==> page[i] in Older(keep, rows, page)
    decreases |page|
  {
    if page != [] {
      OlderMembers(keep, rows, page[..|page| - 1]);
    }
  }

  // ------------------------------------------------------------------ the session

  class Session {
    const keep: Row -> bool
    var rows: seq<Row>
    var through: string
    var before: string

    ghost predicate Valid()
      reads this
    {
      Distinct(Ids(rows))
    }

    constructor (keep: Row -> bool)
      ensures Valid() && this.keep == keep && rows == [] && through == "" && before == ""
    {
      this.keep := keep;
      rows, through, before := [], "", "";
    }

    method IndexOf(id: string) returns (i: int)
      ensures i == Index(rows, id)
    {
      i := |rows| - 1;
      while i >= 0 && rows[i].id != id
        invariant -1 <= i < |rows|
        invariant forall j :: i < j < |rows| ==> rows[j].id != id
      {
        i := i - 1;
      }
    }

    method Absorb(u: Row)
      modifies this`rows
      ensures rows == PutUpdate(old(rows), u)
    {
      hide Index;
      var i := IndexOf(u.id);
      if i < 0 {
        return;  // an update to a row that was not kept
      }
      var row := rows[i];
      if u.body != "" {
        row := row.(body := u.body);
      }
      if u.queued.Some? {
        row := row.(queued := u.queued);
      }
      if u.detail != "" {
        row := row.(detail := u.detail);
      }
      if u.isError.Some? {
        row := row.(isError := u.isError);
      }
      if u.delivery != "" {
        row := row.(delivery := u.delivery);
      }
      if u.ts != "" {
        row := row.(ts := u.ts);
      }
      ghost var was := rows;
      rows := rows[..i] + rows[i + 1..];
      if u.queued == Some(false) && u.ts != "" {
        rows := rows + [row];
      } else {
        rows := rows[..i] + [row] + rows[i..];
        assert rows == was[i := row];
      }
    }

    // Merges a timeline response in place: the closed form of ApplyForm.
    method ApplyTimeline(tl: Timeline)
      requires Valid()
      modifies this`rows, this`through
      ensures Valid() && rows == Apply(keep, old(rows), tl)
      ensures through == if tl.through != "" then tl.through else old(through)
    {
      hide PutTurn, PutUpdate, Drop, Ids, Distinct;
      ghost var was := rows;
      ApplyForm(keep, was, tl);
      for k := 0 to |tl.turns|
        invariant through == old(through) && rows == PutTurns(keep, was, tl.turns[..k])
      {
        assert tl.turns[..k + 1][..k] == tl.turns[..k];
        PlaceTurn(tl.turns[k]);
      }
      assert tl.turns[..|tl.turns|] == tl.turns;
      ghost var turned := rows;
      for k := 0 to |tl.updates|
        invariant through == old(through) && rows == PutUpdates(turned, tl.updates[..k])
      {
        assert tl.updates[..k + 1][..k] == tl.updates[..k];
        Absorb(tl.updates[k]);
      }
      assert tl.updates[..|tl.updates|] == tl.updates;
      ghost var updated := rows;
      for k := 0 to |tl.removed|
        invariant through == old(through) && rows == DropAll(updated, tl.removed[..k])
      {
        assert tl.removed[..k + 1][..k] == tl.removed[..k];
        Remove(tl.removed[k]);
      }
      assert tl.removed[..|tl.removed|] == tl.removed;
      if tl.through != "" {
        through := tl.through;
      }
    }

    method PlaceTurn(r: Row)
      modifies this`rows
      ensures rows == PutTurn(keep, old(rows), r)
    {
      hide Index;
      if keep(r) {
        var i := IndexOf(r.id);
        if i >= 0 {
          rows := rows[i := r];
        } else {
          rows := rows + [r];
        }
      }
    }

    method Remove(id: string)
      modifies this`rows
      ensures rows == Drop(old(rows), id)
    {
      hide Index;
      var i := IndexOf(id);
      if i >= 0 {
        rows := rows[..i] + rows[i + 1..];
      }
    }

    method TakeFrame(f: Frame, cursor: string) returns (resync: bool)
      requires Valid()
      modifies this`rows, this`through
      ensures Valid() && resync == f.Resync?
      ensures rows == ApplyFrame(keep, old(rows), f)
      ensures through == if cursor != "" && !resync then cursor else old(through)
    {
      hide Apply, Ids, Distinct;
      match f {
        case RowFrame(row) => ApplyTimeline(Timeline([row], [], [], ""));
        case UpdateFrame(row) => ApplyTimeline(Timeline([], [row], [], ""));
        case RemoveFrame(id) =>
          if id != "" {
            ApplyTimeline(Timeline([], [], [id], ""));
          }
        case Resync => return true;
        case Status =>
      }
      if cursor != "" {
        through := cursor;
      }
      resync := false;
    }

    // Prepends an older page; the rows already cached keep their places at the end.
    method AddPage(page: Timeline, cursor: string)
      modifies this`rows, this`before
      ensures if page.turns == [] && page.updates == [] then rows == old(rows) && before == ""
              else rows == Older(keep, old(rows), page.turns) + old(rows) && before == cursor
    {
      hide Index;
      if page.turns == [] && page.updates == [] {
        before := "";  // an empty page is the start of the chain
        return;
      }
      var older: seq<Row> := [];
      for k := 0 to |page.turns|
        invariant rows == old(rows) && older == Older(keep, rows, page.turns[..k])
      {
        assert page.turns[..k + 1][..k] == page.turns[..k];
        var r := page.turns[k];
        var i := IndexOf(r.id);
        if keep(r) && !(IsBoundary(r.id) && i >= 0) {
          older := older + [r];
        }
      }
      assert page.turns[..|page.turns|] == page.turns;
      rows := older + rows;
      before := cursor;
    }
  }

  // ------------------------------------------------------------------ queued twins

  // m is the raw queued copy of the shell line cmd.
  predicate IsTwin(trim: string -> string, m: HistMsg, cmd: string) {
    m.role == "user" && m.queued && trim(m.content) == cmd
  }

  /** The newest queued copy of cmd among the last twelve rows is taken out, and nothing else. */
  method DropQueuedTwin(trim: string -> string, msgs: seq<HistMsg>, cmd: string) returns (out: seq<HistMsg>, ghost at: int)
    ensures -1 <= at < |msgs| && (at >= 0 ==> at >= |msgs| - 12)
    ensures at >= 0 ==> msgs[at].role == "user" && msgs[at].queued && trim(msgs[at].content) == cmd
    ensures forall j :: at < j < |msgs| && j >= |msgs| - 12 ==> !(msgs[j].role == "user" && msgs[j].queued && trim(msgs[j].content) == cmd)
    ensures out == if at >= 0 then msgs[..at] + msgs[at + 1..] else msgs
  {
    var i, n := |msgs| - 1, 0;
    while i >= 0 && n < 12
      invariant -1 <= i < |msgs| && n == |msgs| - 1 - i <= 12
      invariant forall j :: i < j < |msgs| ==> !IsTwin(trim, msgs[j], cmd)
    {
      if IsTwin(trim, msgs[i], cmd) {
        return msgs[..i] + msgs[i + 1..], i;
      }
      i, n := i - 1, n + 1;
    }
    return msgs, -1;
  }
}
