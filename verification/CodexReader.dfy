/** Following growing rollout segments: offsets, retained tails, checkpoints (codex_rollout.go). */
module CodexReader {
  import opened Messages
  import opened CodexRollout
  import Lines

  // Records of the terminated lines of t, and what follows its last line break.
  function Complete(decode: string -> Option<Event>, t: string): seq<Event> {
    var k := Lines.Break(t);
    if k < |t| then Lines.Dec(decode, t[..k]) + Complete(decode, t[k + 1..]) else []
  }

  function Rest(t: string): string {
    var k := Lines.Break(t);
    if k < |t| then Rest(t[k + 1..]) else t
  }

  lemma {:induction false} RestIsTorn(t: string)
    ensures '\n' !in Rest(t)
    decreases |t|
  {
    var k := Lines.Break(t);
    if k < |t| {
      RestIsTorn(t[k + 1..]);
    }
  }

  lemma {:induction false} CompleteLine(decode: string -> Option<Event>, t: string)
    ensures var k := Lines.Break(t);
            if k < |t| then Complete(decode, t) == Lines.Dec(decode, t[..k]) + Complete(decode, t[k + 1..]) && Rest(t) == Rest(t[k + 1..])
            else Complete(decode, t) == [] && Rest(t) == t
  {
    hide Lines.Break, Lines.Dec;
  }

  /** Keeping the torn tail and parsing it again with what comes later loses and doubles nothing. */
  lemma {:induction false} TailsAreSafe(decode: string -> Option<Event>, a: string, b: string)
    ensures Complete(decode, a + b) == Complete(decode, a) + Complete(decode, Rest(a) + b)
    ensures Rest(a + b) == Rest(Rest(a) + b)
    decreases |a|
  {
    hide *;
    var k := Lines.Break(a);
    CompleteLine(decode, a);
    if k < |a| {
      Lines.BreakOf(a + b, k);
      CompleteLine(decode, a + b);
      assert (a + b)[..k] == a[..k] && (a + b)[k + 1..] == a[k + 1..] + b;
      TailsAreSafe(decode, a[k + 1..], b);
      Lines.Regroup(Lines.Dec(decode, a[..k]), Complete(decode, a[k + 1..]), Complete(decode, Rest(a) + b));
    }
  }

  // ------------------------------------------------------------------ several segments

  function Of(m: map<string, string>, p: string): string {
    if p in m then m[p] else ""
  }

  // The records that complete as a segment grows from `before` to `whole`.
  function Gained(decode: string -> Option<Event>, before: string, whole: string): seq<Event> {
    if |before| <= |whole| then Complete(decode, Rest(before) + whole[|before|..]) else []
  }

  // All complete records of the segments, in path order.
  function AllRecords(decode: string -> Option<Event>, files: map<string, string>, paths: seq<string>): seq<Event> {
    if paths == [] then []
    else AllRecords(decode, files, paths[..|paths| - 1]) + Complete(decode, Of(files, paths[|paths| - 1]))
  }

  ghost predicate AppendOnly(seen: map<string, string>, files: map<string, string>) {
    forall p :: p in seen && p in files ==> seen[p] <= files[p]
  }

  // No segment gains a record once a later one has contributed any.
  ghost predicate InOrder(decode: string -> Option<Event>, seen: map<string, string>, files: map<string, string>,
                          paths: seq<string>) {
    forall i, j :: 0 <= i < j < |paths| && Complete(decode, Of(seen, paths[j])) != [] ==>
                     Gained(decode, Of(seen, paths[i]), Of(files, paths[i])) == []
  }

  predicate Distinct(paths: seq<string>) {
    forall i, j :: 0 <= i < j < |paths| ==> paths[i] != paths[j]
  }

  lemma {:induction false} GrowSegment(decode: string -> Option<Event>, before: string, whole: string)
    requires before <= whole
    ensures Complete(decode, whole) == Complete(decode, before) + Gained(decode, before, whole)
    ensures Rest(whole) == Rest(Rest(before) + whole[|before|..])
  {
    assert whole == before + whole[|before|..];
    TailsAreSafe(decode, before, whole[|before|..]);
  }

  lemma {:induction false} SameRecords(decode: string -> Option<Event>, a: map<string, string>, b: map<string, string>, paths: seq<string>)
    requires forall i :: 0 <= i < |paths| ==> Complete(decode, Of(a, paths[i])) == Complete(decode, Of(b, paths[i]))
    ensures AllRecords(decode, a, paths) == AllRecords(decode, b, paths)
    decreases |paths|
  {
    hide Complete;
    if paths != [] {
      SameRecords(decode, a, b, paths[..|paths| - 1]);
    }
  }

  lemma {:induction false} PathsInTurn(decode: string -> Option<Event>, m: map<string, string>, a: seq<string>, b: seq<string>)
    ensures AllRecords(decode, m, a + b) == AllRecords(decode, m, a) + AllRecords(decode, m, b)
    decreases |b|
  {
    hide Complete;
    if b == [] {
      assert a + b == a;
    } else {
      assert (a + b)[..|a + b| - 1] == a + b[..|b| - 1];
      PathsInTurn(decode, m, a, b[..|b| - 1]);
    }
  }

  // Segments that have contributed nothing.
  lemma {:induction false} NoRecords(decode: string -> Option<Event>, m: map<string, string>, paths: seq<string>)
    requires forall i :: 0 <= i < |paths| ==> Complete(decode, Of(m, paths[i])) == []
    ensures AllRecords(decode, m, paths) == []
    decreases |paths|
  {
    hide Complete;
    if paths != [] {
      NoRecords(decode, m, paths[..|paths| - 1]);
    }
  }

  // Everything of the segments behind paths[i].
  function Later(decode: string -> Option<Event>, seen: map<string, string>, paths: seq<string>, i: nat): seq<Event>
    requires i < |paths|
  {
    AllRecords(decode, seen, paths[i + 1..])
  }

  // What reading on in one segment gives, and what path order asks for.
  lemma {:induction false} GrowOne(decode: string -> Option<Event>, seen: map<string, string>, paths: seq<string>, i: nat, whole: string)
    returns (front: seq<Event>)
    requires Distinct(paths) && i < |paths| && Of(seen, paths[i]) <= whole
    ensures var gained, later := Gained(decode, Of(seen, paths[i]), whole), Later(decode, seen, paths, i);
            && AllRecords(decode, seen, paths) + gained == front + (later + gained)
            && AllRecords(decode, seen[paths[i] := whole], paths) == front + (gained + later)
  {
    hide Complete, Gained, AllRecords;
    var p, after := paths[i], seen[paths[i] := whole];
    var gained := Gained(decode, Of(seen, p), whole);
    GrowSegment(decode, Of(seen, p), whole);
    var before, rest := paths[..i], paths[i + 1..];
    assert paths == before + [p] + rest;
    ThreeParts(decode, seen, before, p, rest);
    ThreeParts(decode, after, before, p, rest);
    SameRecords(decode, after, seen, before);
    SameRecords(decode, after, seen, rest);
    front := AllRecords(decode, seen, before) + Complete(decode, Of(seen, p));
    var later := AllRecords(decode, seen, rest);
    Lines.Regroup(AllRecords(decode, seen, before), Complete(decode, Of(seen, p)), gained);
    Lines.Regroup(front, gained, later);
    Lines.Regroup(front, later, gained);
  }

  function Repeat(w: seq<Event>, n: nat): seq<Event> {
    if n == 0 then [] else w + Repeat(w, n - 1)
  }

  // Both are repetitions of one sequence of records; an empty one always is.
  ghost predicate OneRoot(a: seq<Event>, b: seq<Event>) {
    exists w, m, n :: a == Repeat(w, m) && b == Repeat(w, n)
  }

  lemma {:induction false} RepeatAdds(w: seq<Event>, m: nat, n: nat)
    ensures Repeat(w, m) + Repeat(w, n) == Repeat(w, m + n)
    decreases m
  {
    if m > 0 {
      RepeatAdds(w, m - 1, n);
      Lines.Regroup(w, Repeat(w, m - 1), Repeat(w, n));
    }
  }

  lemma {:induction false} RootsCommute(a: seq<Event>, b: seq<Event>)
    requires OneRoot(a, b)
    ensures a + b == b + a
  {
    var w, m, n :| a == Repeat(w, m) && b == Repeat(w, n);
    RepeatAdds(w, m, n);
    RepeatAdds(w, n, m);
  }

  lemma {:induction false} CommutersRepeat(a: seq<Event>, b: seq<Event>) returns (w: seq<Event>, m: nat, n: nat)
    requires a + b == b + a
    ensures a == Repeat(w, m) && b == Repeat(w, n)
    decreases |a| + |b|
  {
    if a == [] || b == [] {
      w, m, n := a + b, if a == [] then 0 else 1, if b == [] then 0 else 1;
      assert Repeat(w, 1) == w + Repeat(w, 0) == w;
    } else if |a| <= |b| {
      var c := b[|a|..];
      CommonFront(a, b, c);
      w, m, n := CommutersRepeat(a, c);
      RepeatAdds(w, m, n);
      n := m + n;
    } else {
      var c := a[|b|..];
      CommonFront(b, a, c);
      w, m, n := CommutersRepeat(c, b);
      RepeatAdds(w, n, m);
      m := n + m;
    }
  }

  lemma {:induction false} CommonFront(a: seq<Event>, b: seq<Event>, c: seq<Event>)
    requires a + b == b + a && |a| <= |b| && c == b[|a|..]
    ensures b == a + c && a + c == c + a
  {
    assert b == (b + a)[..|b|] == (a + b)[..|b|];
    assert b[..|a|] == (a + b)[..|a|] == a;
    assert b == b[..|a|] + c;
    assert c + a == (b + a)[|a|..] == (a + b)[|a|..] == b;
  }

  /** Reading on in one segment keeps the records of all segments in path order exactly when what it
      gains and what the later segments hold are repetitions of one sequence of records: when either
      is empty, or when exchanging them shows no difference. */
  lemma {:induction false} PathOrderIff(decode: string -> Option<Event>, seen: map<string, string>, paths: seq<string>, i: nat, whole: string)
    requires Distinct(paths) && i < |paths| && Of(seen, paths[i]) <= whole
    ensures (AllRecords(decode, seen[paths[i] := whole], paths)
             == AllRecords(decode, seen, paths) + Gained(decode, Of(seen, paths[i]), whole))
            <==> OneRoot(Gained(decode, Of(seen, paths[i]), whole), Later(decode, seen, paths, i))
  {
    hide *;
    var gained, later := Gained(decode, Of(seen, paths[i]), whole), Later(decode, seen, paths, i);
    var front := GrowOne(decode, seen, paths, i, whole);
    SameBehind(front, gained + later, later + gained);
    if gained + later == later + gained {
      var w, m, n := CommutersRepeat(gained, later);
      Rooted(w, m, n);
    } else if OneRoot(gained, later) {
      RootsCommute(gained, later);
    }
  }

  lemma {:induction false} Rooted(w: seq<Event>, m: nat, n: nat)
    ensures OneRoot(Repeat(w, m), Repeat(w, n))
  {
  }

  lemma {:induction false} SameBehind(front: seq<Event>, a: seq<Event>, b: seq<Event>)
    ensures front + a == front + b <==> a == b
  {
    assert a == (front + a)[|front|..] && b == (front + b)[|front|..];
  }

  /** So it does when the segment gains nothing or no later one has contributed yet. */
  lemma {:induction false} SegmentStep(decode: string -> Option<Event>, seen: map<string, string>, paths: seq<string>, i: nat, whole: string)
    requires Distinct(paths) && i < |paths| && Of(seen, paths[i]) <= whole
    requires Gained(decode, Of(seen, paths[i]), whole) == [] || forall j :: i < j < |paths| ==> Complete(decode, Of(seen, paths[j])) == []
    ensures AllRecords(decode, seen[paths[i] := whole], paths)
         == AllRecords(decode, seen, paths) + Gained(decode, Of(seen, paths[i]), whole)
  {
    hide Complete, Gained, AllRecords;
    var front := GrowOne(decode, seen, paths, i, whole);
    if Gained(decode, Of(seen, paths[i]), whole) != [] {
      NoRecords(decode, seen, paths[i + 1..]);
    }
  }

  /** And it does not when the first record gained differs from the first one a later segment holds. */
  lemma {:induction false} LateGrowthReorders(decode: string -> Option<Event>, seen: map<string, string>, paths: seq<string>, i: nat, whole: string)
    requires Distinct(paths) && i < |paths| && Of(seen, paths[i]) <= whole
    requires var gained, later := Gained(decode, Of(seen, paths[i]), whole), Later(decode, seen, paths, i);
             gained != [] && later != [] && gained[0] != later[0]
    ensures AllRecords(decode, seen[paths[i] := whole], paths)
         != AllRecords(decode, seen, paths) + Gained(decode, Of(seen, paths[i]), whole)
  {
    hide *;
    var gained, later := Gained(decode, Of(seen, paths[i]), whole), Later(decode, seen, paths, i);
    var front := GrowOne(decode, seen, paths, i, whole);
    SameBehind(front, gained + later, later + gained);
    assert (gained + later)[0] == gained[0] && (later + gained)[0] == later[0];
  }

  lemma {:induction false} ThreeParts(decode: string -> Option<Event>, m: map<string, string>, before: seq<string>, p: string, rest: seq<string>)
    ensures AllRecords(decode, m, before + [p] + rest)
         == AllRecords(decode, m, before) + Complete(decode, Of(m, p)) + AllRecords(decode, m, rest)
  {
    hide Complete;
    PathsInTurn(decode, m, before + [p], rest);
    assert (before + [p])[..|before|] == before;
  }

  // Two segments of one line each, the first of them written last.
  lemma {:induction false} LateGrowthExample(decode: string -> Option<Event>, p: string, q: string, a: string, b: string)
    requires p != q && '\n' !in a && '\n' !in b
    requires decode(a).Some? && decode(b).Some? && decode(a) != decode(b)
    ensures var seen := map[p := "", q := b + "\n"];
            var files := map[p := a + "\n", q := b + "\n"];
            && AppendOnly(seen, files) && !InOrder(decode, seen, files, [p, q])
            && AllRecords(decode, seen, [p, q]) + Gained(decode, "", a + "\n") != AllRecords(decode, files, [p, q])
  {
    hide Complete, Rest, AllRecords;
    var seen := map[p := "", q := b + "\n"];
    var files := map[p := a + "\n", q := b + "\n"];
    OneLine(decode, a);
    OneLine(decode, b);
    OneEmpty(decode);
    assert "" + (a + "\n")[0..] == a + "\n";
    TwoPaths(decode, seen, p, q);
    TwoPaths(decode, files, p, q);
    assert AllRecords(decode, seen, [p, q])[0] == decode(b).value;
    assert AllRecords(decode, files, [p, q])[0] == decode(a).value;
    assert !InOrder(decode, seen, files, [p, q]) by {
      assert Complete(decode, Of(seen, [p, q][1])) != [];
      assert Gained(decode, Of(seen, [p, q][0]), Of(files, [p, q][0])) != [];
    }
  }

  lemma {:induction false} TwoPaths(decode: string -> Option<Event>, m: map<string, string>, p: string, q: string)
    ensures AllRecords(decode, m, [p, q]) == Complete(decode, Of(m, p)) + Complete(decode, Of(m, q))
  {
    hide Complete;
    assert [p, q][..1] == [p] && [p][..0] == [];
    NoRecords(decode, m, []);
    assert AllRecords(decode, m, [p]) == AllRecords(decode, m, []) + Complete(decode, Of(m, p));
  }

  lemma {:induction false} OneLine(decode: string -> Option<Event>, x: string)
    requires '\n' !in x && decode(x).Some?
    ensures Complete(decode, x + "\n") == [decode(x).value]
  {
    hide Lines.Break;
    var t := x + "\n";
    Lines.BreakOf(t, |x|);
    CompleteLine(decode, t);
    OneEmpty(decode);
    assert t[..|x|] == x && t[|x| + 1..] == "";
    hide Complete;
    assert Complete(decode, t) == Lines.Dec(decode, x) + [];
  }

  // ------------------------------------------------------------------ the session

  // The last 64 bytes read.
  function Checkpoint(t: string): string {
    if |t| < 64 then t else t[|t| - 64..]
  }

  // What the file must show to count as grown from what was seen.
  predicate Continues(seen: string, whole: string) {
    |seen| <= |whole| && Checkpoint(whole[..|seen|]) == Checkpoint(seen)
  }

  // A segment was cut, or replaced noticeably.
  predicate Broken(seen: map<string, string>, files: map<string, string>, paths: seq<string>) {
    exists i :: 0 <= i < |paths| && !Continues(Of(seen, paths[i]), Of(files, paths[i]))
  }

  // A file counts as grown exactly when it is no shorter and shows the last 64 bytes read where they were.
  lemma {:induction false} GrownWhen(seen: string, whole: string)
    ensures Continues(seen, whole)
            <==> |seen| <= |whole| && forall k :: 0 <= k < |seen| && k >= |seen| - 64 ==> whole[k] == seen[k]
  {
    if |seen| <= |whole| {
      var a, b := Checkpoint(whole[..|seen|]), Checkpoint(seen);
      var from := |seen| - |b|;
      assert |a| == |b| && forall i :: 0 <= i < |b| ==> a[i] == whole[from + i] && b[i] == seen[from + i];
      if a == b {
        forall k | 0 <= k < |seen| && k >= |seen| - 64 ensures whole[k] == seen[k] {
          assert a[k - from] == b[k - from];
        }
      }
    }
  }

  // An append-only file is never taken for another one.
  lemma {:induction false} AppendContinues(seen: string, whole: string)
    requires seen <= whole
    ensures Continues(seen, whole)
  {
    assert whole[..|seen|] == seen;
  }

  // What is kept per segment matches what was read of it.
  ghost predicate Books(paths: seq<string>, offsets: map<string, nat>, tails: map<string, string>,
                        checkpoints: map<string, string>, seen: map<string, string>) {
    forall p ::
      && (p in offsets <==> p in seen) && (p in tails <==> p in seen) && (p in checkpoints ==> p in seen)
      && (p in seen ==> p in paths && offsets[p] == |seen[p]| && Of(checkpoints, p) == Checkpoint(seen[p]))
  }

  lemma {:induction false} KeepBooks(paths: seq<string>, offsets: map<string, nat>, tails: map<string, string>,
                                     checkpoints: map<string, string>, seen: map<string, string>,
                                     path: string, whole: string, tail: string, after: map<string, string>)
    requires Books(paths, offsets, tails, checkpoints, seen) && path in paths
    requires after == if whole != "" then checkpoints[path := Checkpoint(whole)] else checkpoints - {path}
    ensures Books(paths, offsets[path := |whole|], tails[path := tail], after, seen[path := whole])
  {
    CheckpointLength(whole);
    hide Checkpoint;
  }

  lemma {:induction false} BooksKeys(paths: seq<string>, offsets: map<string, nat>, tails: map<string, string>,
                                     checkpoints: map<string, string>, seen: map<string, string>)
    requires Books(paths, offsets, tails, checkpoints, seen)
    ensures forall p :: (p in offsets <==> p in seen) && (p in tails <==> p in seen)
  {
    hide Checkpoint;
  }

  class Session {
    const decode: string -> Option<Event>
    var paths: seq<string>
    var offsets: map<string, nat>
    var tails: map<string, string>
    var checkpoints: map<string, string>
    var st: Rollout
    ghost var seen: map<string, string>  // each segment as it was when last read

    ghost predicate Valid()
      reads this
    {
      Distinct(paths) && Books(paths, offsets, tails, checkpoints, seen)
    }

    // The state is that of one pass over the segments, in order; the tails are their torn last lines.
    ghost predicate Faithful()
      reads this
    {
      && (forall p :: p in seen ==> Of(tails, p) == Rest(seen[p]))
      && st == ApplyAll(START, AllRecords(decode, seen, paths))
    }

    constructor (decode: string -> Option<Event>)
      ensures this.decode == decode && Valid() && Faithful() && seen == map[] && paths == []
    {
      this.decode := decode;
      paths, offsets, tails, checkpoints, st, seen := [], map[], map[], map[], START, map[];
    }

    static method LargestCount(counts: Counts) returns (max: nat)
      ensures max == MaxCount(counts)
    {
      max := 0;
      var left := counts.Keys;
      while left != {}
        invariant left <= counts.Keys
        invariant forall s :: s !in left ==> Count(counts, s) <= max
        invariant max == 0 || exists s :: s !in left && Count(counts, s) == max
        decreases |left|
      {
        var s :| s in left;
        left := left - {s};
        if counts[s] > max {
          max := counts[s];
        }
        assert Count(counts, s) <= max;
      }
      var top: Source :| Count(counts, top) == MaxCount(counts);
      MaxCountOf(counts, max);
    }

    method AddMessage(raw: HistMsg, source: Source)
      modifies this`st
      ensures st == CodexRollout.AddMessage(old(st), raw, source)
    {
      hide Trim, MaxCount, Preview, CountsOf, KeyOf, Count;
      var m := raw.(content := Trim(raw.content));
      if m.content == "" && m.images == 0 {
        return;
      }
      var next := st;
      if m.id != "" {
        if m.id in next.ids {
          return;
        }
        next := next.(ids := next.ids + {m.id});
      }
      var counts := CountsOf(next.mirrors, KeyOf(m));
      var max := LargestCount(counts);
      var n := Count(counts, source) + 1;
      next := next.(mirrors := next.mirrors[KeyOf(m) := counts[source := n]]);
      if n > max {
        next := next.(messages := next.messages + [m.(seqNo := next.seqNo)]);
        if m.role == "reply" {
          next := next.(lastReply := m.content);
        }
        if m.role == "commentary" {
          next := next.(lastComment := Preview(m.content));
        }
      }
      st := next;
    }

    method Apply(e: Event)
      modifies this`st
      ensures st == CodexRollout.Apply(old(st), e)
    {
      hide CodexRollout.AddMessage;
      st := st.(seqNo := st.seqNo + 1);
      match e
      case Meta(version) => st := st.(version := version);
      case Started(turn) =>
        st := st.(working := true, state := "working", turn := turn, lastComment := "", toolCalls := map[], attention := None);
      case Completed(turn, reply, ts) =>
        if reply != "" {
          AddMessage(ReplyMsg(reply, ts, Turn(turn, st.turn)), TaskComplete);
        }
        st := st.(working := false, state := "completed", toolCalls := map[], attention := None);
      case Aborted => st := st.(working := false, state := "interrupted", toolCalls := map[], attention := None);
      case Says(msg, source) => AddMessage(msg.(turn := Turn(msg.turn, st.turn)), source);
      case ToolCall(id, name, asks) =>
        if id != "" {
          st := st.(toolCalls := st.toolCalls[id := (name, st.seqNo)]);
          if asks {
            st := st.(attention := Some(id));
          }
        }
      case ToolOutput(id) =>
        st := st.(toolCalls := st.toolCalls - {id});
        if st.attention == Some(id) {
          st := st.(attention := None);
        }
      case Other =>
    }

    // Applies the complete lines of buf and returns what is left.
    method Consume(buf: string) returns (tail: string)
      modifies this`st
      ensures st == ApplyAll(old(st), Complete(decode, buf)) && tail == Rest(buf)
    {
      hide *;
      tail := buf;
      ghost var done: seq<Event> := [];
      ghost var was := st;
      ApplyNone(st);
      var k := Lines.Break(tail);
      while k < |tail|
        invariant k == Lines.Break(tail) && Rest(tail) == Rest(buf)
        invariant Complete(decode, buf) == done + Complete(decode, tail) && st == ApplyAll(was, done)
        decreases |tail|
      {
        CompleteLine(decode, tail);
        ghost var got := Lines.Dec(decode, tail[..k]);
        Lines.Regroup(done, got, Complete(decode, tail[k + 1..]));
        ApplyInTurn(was, done, got);
        ApplyNone(st);
        match decode(tail[..k]) {
          case None =>
            DecOf(decode, tail[..k]);
          case Some(e) =>
            DecOf(decode, tail[..k]);
            ApplyOne(st, e);
            Apply(e);
        }
        done := done + got;
        tail := tail[k + 1..];
        k := Lines.Break(tail);
      }
      CompleteLine(decode, tail);
      assert done + [] == done;
    }

    // Reads what the file holds beyond the offset.
    method ReadPath(path: string, files: map<string, string>) returns (ok: bool)
      requires Valid() && path in paths && (path in files ==> |Of(seen, path)| <= |files[path]|)
      modifies this`offsets, this`tails, this`checkpoints, this`st, this`seen
      ensures Valid() && ok == (path in files)
      ensures !ok ==> unchanged(this)
      ensures ok ==>
                var buf := old(Of(tails, path)) + files[path][|old(Of(seen, path))|..];
                && st == ApplyAll(old(st), Complete(decode, buf))
                && tails == old(tails)[path := Rest(buf)]
                && seen == old(seen)[path := files[path]]
    {
      hide Complete, Rest, ApplyAll, Distinct, Checkpoint;
      if path !in files {
        return false;
      }
      var from := if path in offsets then offsets[path] else 0;
      assert from == |Of(seen, path)|;
      var tail := Consume((if path in tails then tails[path] else "") + files[path][from..]);
      Advance(path, files[path], tail);
      ok := true;
    }

    // Moves the offset to the end of the file, takes the checkpoint there and keeps the tail.
    method Advance(path: string, whole: string, tail: string)
      requires Valid() && path in paths
      modifies this`offsets, this`tails, this`checkpoints, this`seen
      ensures Valid() && seen == old(seen)[path := whole] && tails == old(tails)[path := tail]
    {
      hide Distinct, Checkpoint, Books;
      var length := if |whole| < 64 then |whole| else 64;
      var checks := if length > 0 then checkpoints[path := whole[|whole| - length..]] else checkpoints - {path};
      CheckpointEnd(whole, |whole|);
      assert whole[..|whole|] == whole && whole[|whole| - length..|whole|] == whole[|whole| - length..];
      KeepBooks(paths, offsets, tails, checkpoints, seen, path, whole, tail, checks);
      offsets, checkpoints, tails := offsets[path := |whole|], checks, tails[path := tail];
      seen := seen[path := whole];
    }

    method Extend(newPaths: seq<string>)
      requires Valid() && Distinct(newPaths) && paths <= newPaths
      modifies this`paths
      ensures Valid() && paths == newPaths && (old(Faithful()) ==> Faithful())
    {
      hide AllRecords, Complete, Rest, ApplyAll, Checkpoint, Distinct;
      MorePaths(decode, seen, paths, newPaths);
      assert forall p :: p in paths ==> p in newPaths by {
        assert forall i :: 0 <= i < |paths| ==> paths[i] == newPaths[i];
      }
      paths := newPaths;
    }

    method Reset(newPaths: seq<string>)
      requires Distinct(newPaths)
      modifies this
      ensures Valid() && Faithful() && paths == newPaths && seen == map[]
    {
      hide Complete, Rest;
      paths, offsets, tails, checkpoints, st, seen := newPaths, map[], map[], map[], START, map[];
      OneEmpty(decode);
      NoRecords(decode, seen, paths);
      ApplyNone(START);
    }

    // Whether any segment shrank or was replaced; stops at the first, or at a missing file.
    method Check(files: map<string, string>) returns (ok: bool, reset: bool)
      requires Valid()
      ensures reset ==> ok && Broken(seen, files, paths)
      ensures !reset ==> ok == forall p :: p in paths ==> p in files
      ensures ok && !reset ==> !Broken(seen, files, paths)
    {
      hide Checkpoint, Distinct, Continues, Books;
      for i := 0 to |paths|
        invariant forall j :: 0 <= j < i ==> paths[j] in files && Continues(Of(seen, paths[j]), Of(files, paths[j]))
      {
        var path := paths[i];
        if path !in files {
          return false, false;
        }
        BookOf(paths, offsets, tails, checkpoints, seen, path);
        ContinuesIff(Of(seen, path), files[path]);
        var size := if path in offsets then offsets[path] else 0;
        if |files[path]| < size {
          return true, true;
        }
        var check := if path in checkpoints then checkpoints[path] else "";
        if size > 0 && |check| > 0 && files[path][size - |check|..size] != check {
          return true, true;
        }
      }
      ok, reset := true, false;
    }

    method ReadAll(files: map<string, string>) returns (ok: bool)
      requires Valid() && !Broken(seen, files, paths)
      modifies this`offsets, this`tails, this`checkpoints, this`st, this`seen
      ensures Valid() && ok == forall p :: p in paths ==> p in files
      ensures old(Faithful()) && AppendOnly(old(seen), files) && InOrder(decode, old(seen), files, paths) ==> Faithful()
      ensures ok ==> forall p :: p in paths ==> p in seen && seen[p] == files[p]
    {
      hide Valid, Faithful, Continues, InOrder, AppendOnly;
      ghost var good := Faithful() && AppendOnly(seen, files) && InOrder(decode, seen, files, paths);
      ghost var before := seen;
      for i := 0 to |paths|
        invariant Valid() && (good ==> Faithful())
        invariant forall j :: 0 <= j < i ==> paths[j] in files && paths[j] in seen && seen[paths[j]] == files[paths[j]]
        invariant forall j :: i <= j < |paths| ==> Of(seen, paths[j]) == Of(before, paths[j])
      {
        assert Continues(Of(before, paths[i]), Of(files, paths[i]));
        ok := ReadNext(i, files, before, good);
        if !ok {
          return;
        }
      }
      ok := true;
    }

    method ReadNext(i: nat, files: map<string, string>, ghost before: map<string, string>, ghost good: bool) returns (ok: bool)
      requires Valid() && i < |paths| && Continues(Of(before, paths[i]), Of(files, paths[i]))
      requires good ==> Faithful() && AppendOnly(before, files) && InOrder(decode, before, files, paths)
      requires forall j :: i <= j < |paths| ==> Of(seen, paths[j]) == Of(before, paths[j])
      modifies this`offsets, this`tails, this`checkpoints, this`st, this`seen
      ensures Valid() && ok == (paths[i] in files) && (good ==> Faithful())
      ensures seen == if ok then old(seen)[paths[i] := files[paths[i]]] else old(seen)
      ensures forall j :: i < j < |paths| ==> Of(seen, paths[j]) == Of(before, paths[j])
    {
      hide Complete, Rest, Gained, ApplyAll, AllRecords, InOrder, Books;
      var path := paths[i];
      BooksKeys(paths, offsets, tails, checkpoints, seen);
      assert forall j :: i < j < |paths| ==> paths[j] != path;
      hide Distinct;
      ghost var wasSeen, wasSt, tail := seen, st, Of(tails, path);
      assert AppendOnly(before, files) && path in files ==> Of(before, path) <= files[path];
      if good {
        OneEmpty(decode);
        assert path in seen ==> tail == Rest(seen[path]);
        assert path !in seen ==> tail == "";
      }
      ok := ReadPath(path, files);
      if good && ok {
        FaithfulStep(decode, paths, wasSeen, wasSt, i, files, tail, before);
      }
    }

    static lemma {:induction false} FaithfulStep(decode: string -> Option<Event>, paths: seq<string>, was: map<string, string>, wasSt: Rollout, i: nat, files: map<string, string>,
                                          tail: string, before: map<string, string>)
      requires Distinct(paths) && i < |paths| && paths[i] in files
      requires wasSt == ApplyAll(START, AllRecords(decode, was, paths))
      requires forall j :: i <= j < |paths| ==> Of(was, paths[j]) == Of(before, paths[j])
      requires InOrder(decode, before, files, paths) && Of(was, paths[i]) <= files[paths[i]]
      requires tail == Rest(Of(was, paths[i]))
      ensures var buf := tail + files[paths[i]][|Of(was, paths[i])|..];
              && ApplyAll(wasSt, Complete(decode, buf)) == ApplyAll(START, AllRecords(decode, was[paths[i] := files[paths[i]]], paths))
              && Rest(buf) == Rest(files[paths[i]])
    {
      hide Complete, Rest, ApplyAll, AllRecords, Distinct;
      var whole := files[paths[i]];
      var gained := Gained(decode, Of(was, paths[i]), whole);
      GrowSegment(decode, Of(was, paths[i]), whole);
      assert Of(files, paths[i]) == whole;
      SegmentStep(decode, was, paths, i, whole);
      ApplyInTurn(START, AllRecords(decode, was, paths), gained);
    }

    /** One load. Over any run of loads of append-only segments, none of which gains a record once a
        later one has contributed, the state stays that of one pass over everything read; a segment
        that shrank or visibly changed starts the state afresh. */
    method Load(newPaths: seq<string>, files: map<string, string>) returns (ok: bool)
      requires Valid() && Distinct(newPaths)
      modifies this
      ensures Valid() && paths == newPaths && ok == forall p :: p in newPaths ==> p in files
      ensures ok ==> forall p :: p in newPaths ==> p in seen && seen[p] == files[p]
      ensures old(Faithful()) && AppendOnly(old(seen), files) && InOrder(decode, old(seen), files, newPaths) ==> Faithful()
      ensures ok && (!(old(paths) <= newPaths) || Broken(old(seen), files, newPaths)) ==> Faithful()
    {
      hide Faithful, Continues, InOrder, AppendOnly, Complete, Rest, ApplyAll;
      if paths <= newPaths {
        Extend(newPaths);
      } else {
        Reset(newPaths);
      }
      var reset;
      ok, reset := Check(files);
      if !ok {
        return;
      }
      if reset {
        Reset(newPaths);
      }
      FromNothing(decode, files, newPaths);
      ok := ReadAll(files);
    }
  }

  lemma {:induction false} OneEmpty(decode: string -> Option<Event>)
    ensures Complete(decode, "") == [] && Rest("") == ""
  {
  }

  lemma {:induction false} NothingSeen(whole: string)
    ensures Continues("", whole)
  {
    assert whole[..0] == "";
  }

  lemma {:induction false} CheckpointEnd(whole: string, size: nat)
    ensures size <= |whole| ==> Checkpoint(whole[..size]) == whole[size - (if size < 64 then size else 64)..size]
  {
  }

  lemma {:induction false} CheckpointLength(t: string)
    ensures |Checkpoint(t)| == if |t| < 64 then |t| else 64
  {
  }

  lemma {:induction false} BookOf(paths: seq<string>, offsets: map<string, nat>, tails: map<string, string>,
                                  checkpoints: map<string, string>, seen: map<string, string>, p: string)
    requires Books(paths, offsets, tails, checkpoints, seen)
    ensures (if p in offsets then offsets[p] else 0) == |Of(seen, p)| && Of(checkpoints, p) == Checkpoint(Of(seen, p))
  {
    assert Checkpoint("") == "";
    hide Checkpoint;
  }

  // Comparing the checkpoint decides whether the file continues what was seen.
  lemma {:induction false} ContinuesIff(seen: string, whole: string)
    ensures var size, check := |seen|, Checkpoint(seen);
            && |check| <= size
            && (Continues(seen, whole)
                <==> size <= |whole| && (size == 0 || |check| == 0 || whole[size - |check|..size] == check))
  {
    CheckpointLength(seen);
    CheckpointEnd(whole, |seen|);
    if seen == "" {
      NothingSeen(whole);
    }
    hide Checkpoint;
  }

  // New segments have contributed nothing yet.
  lemma {:induction false} MorePaths(decode: string -> Option<Event>, seen: map<string, string>, paths: seq<string>, newPaths: seq<string>)
    requires paths <= newPaths && Distinct(newPaths) && forall p :: p in seen ==> p in paths
    ensures AllRecords(decode, seen, newPaths) == AllRecords(decode, seen, paths)
  {
    hide Complete, Rest;
    var added := newPaths[|paths|..];
    assert newPaths == paths + added;
    OneEmpty(decode);
    forall i | 0 <= i < |added| ensures Complete(decode, Of(seen, added[i])) == [] {
      assert added[i] == newPaths[|paths| + i];
      assert added[i] !in paths by {
        assert forall j :: 0 <= j < |paths| ==> paths[j] == newPaths[j];
      }
    }
    PathsInTurn(decode, seen, paths, added);
    NoRecords(decode, seen, added);
  }

  lemma {:induction false} FromNothing(decode: string -> Option<Event>, files: map<string, string>, paths: seq<string>)
    ensures AppendOnly(map[], files) && InOrder(decode, map[], files, paths) && !Broken(map[], files, paths)
  {
    hide Complete, Rest, Continues;
    OneEmpty(decode);
    forall i | 0 <= i < |paths| ensures Continues(Of(map[], paths[i]), Of(files, paths[i])) {
      NothingSeen(Of(files, paths[i]));
    }
  }

  lemma {:induction false} ApplyNone(st: Rollout)
    ensures ApplyAll(st, []) == st
  {
  }

  lemma {:induction false} ApplyOne(st: Rollout, e: Event)
    ensures ApplyAll(st, [e]) == CodexRollout.Apply(st, e)
  {
    assert [e][..0] == [];
    ApplyNone(st);
  }

  lemma {:induction false} DecOf(decode: string -> Option<Event>, line: string)
    ensures Lines.Dec(decode, line) == match decode(line) case Some(e) => [e] case None => []
  {
  }
}
