/** Reading an append-only file of one-line records while it is being written (the reading loops of
    harness_pi.go feedReader and history.go parseTranscriptFrom).

    A terminated line is always consumed. The unterminated last line is consumed when it is `eager`
    (it looks complete), else left for the next read, which resumes at the byte offset reached. */
module Lines {
  import opened Messages
  import Text

  predicate Blank(s: string) {
    forall i :: 0 <= i < |s| ==> Text.IsSpace(s[i])
  }

  // Index of the first line break; |t| when there is none.
  function Break(t: string): (k: nat)
    ensures k <= |t|
    ensures k < |t| ==> t[k] == '\n'
    ensures forall i :: 0 <= i < k ==> t[i] != '\n'
  {
    if t == "" || t[0] == '\n' then 0 else 1 + Break(t[1..])
  }

  lemma {:induction false} BreakOf(t: string, k: nat)
    requires k <= |t| && (forall i :: 0 <= i < k ==> t[i] != '\n') && (k < |t| ==> t[k] == '\n')
    ensures Break(t) == k
  {
    hide Break;
    var b := Break(t);
    assert b < |t| ==> t[b] == '\n';
  }

  // What one line contributes.
  function Dec<T(!new)>(decode: string -> Option<T>, line: string): seq<T> {
    match decode(line)
    case Some(r) => [r]
    case None => []
  }

  // One read of the text from the offset on: the records found and the bytes consumed.
  function Scan<T(!new)>(decode: string -> Option<T>, eager: string -> bool, t: string): (p: (seq<T>, nat))
    ensures p.1 <= |t|
  {
    var k := Break(t);
    if k < |t| then
      var rest := Scan(decode, eager, t[k + 1..]);
      (Dec(decode, t[..k]) + rest.0, k + 1 + rest.1)
    else if t != "" && eager(t) then (Dec(decode, t), |t|)
    else ([], 0)
  }

  // All records of a text read at once.
  function Records<T(!new)>(decode: string -> Option<T>, t: string): seq<T> {
    var k := Break(t);
    if k < |t| then Dec(decode, t[..k]) + Records(decode, t[k + 1..]) else Dec(decode, t)
  }

  // ------------------------------------------------------------------ torn lines

  // An empty line is no record, and a record looks complete.
  ghost predicate Sound<T(!new)>(decode: string -> Option<T>, eager: string -> bool) {
    decode("").None? && forall x :: decode(x).Some? ==> eager(x)
  }

  // Reading the line in pieces, wherever a piece looks complete, finds what reading it whole does.
  ghost predicate TearSafe<T(!new)>(decode: string -> Option<T>, eager: string -> bool, line: string)
    decreases |line|
  {
    forall j :: 0 < j <= |line| && eager(line[..j]) ==>
                  Dec(decode, line[..j]) + Dec(decode, line[j..]) == Dec(decode, line) && TearSafe(decode, eager, line[j..])
  }

  ghost predicate AllSafe<T(!new)>(decode: string -> Option<T>, eager: string -> bool, t: string)
    decreases |t|
  {
    var k := Break(t);
    TearSafe(decode, eager, t[..k]) && (k < |t| ==> AllSafe(decode, eager, t[k + 1..]))
  }

  lemma {:induction false} TearAt<T(!new)>(decode: string -> Option<T>, eager: string -> bool, line: string, j: nat)
    requires TearSafe(decode, eager, line) && 0 < j <= |line| && eager(line[..j])
    ensures Dec(decode, line[..j]) + Dec(decode, line[j..]) == Dec(decode, line) && TearSafe(decode, eager, line[j..])
  {
  }

  // ------------------------------------------------------------------ a decoder that trims first

  // Blanks around a line matter neither to the decoder nor to whether it looks complete.
  ghost predicate IgnoresBlanks<T(!new)>(decode: string -> Option<T>, eager: string -> bool) {
    && (forall b, x {:trigger decode(b + x)} :: Blank(b) ==> decode(b + x) == decode(x))
    && (forall b, x {:trigger decode(x + b)} :: Blank(b) ==> decode(x + b) == decode(x))
    && (forall b, x {:trigger eager(b + x)} :: Blank(b) && !Blank(x) ==> eager(b + x) == eager(x))
    && decode("").None?
  }

  // No proper prefix of a line looks complete, up to the blanks around it.
  ghost predicate Clean(eager: string -> bool, line: string) {
    forall j :: 0 <= j <= |line| && eager(line[..j]) && !Blank(line[..j]) ==> Blank(line[j..])
  }

  ghost predicate AllClean(eager: string -> bool, t: string)
    decreases |t|
  {
    var k := Break(t);
    Clean(eager, t[..k]) && (k < |t| ==> AllClean(eager, t[k + 1..]))
  }

  lemma {:induction false} BlankIsNothing<T(!new)>(decode: string -> Option<T>, eager: string -> bool, b: string)
    requires IgnoresBlanks(decode, eager) && Blank(b)
    ensures decode(b).None?
  {
    assert b + "" == b;
    assert decode(b + "") == decode("");
  }

  // Tearing a clean line at an eager prefix changes neither its record nor its cleanness.
  lemma {:induction false} TearLine<T(!new)>(decode: string -> Option<T>, eager: string -> bool, line: string, j: nat)
    requires IgnoresBlanks(decode, eager) && Clean(eager, line) && j <= |line| && eager(line[..j])
    ensures Dec(decode, line[..j]) + Dec(decode, line[j..]) == Dec(decode, line)
    ensures Clean(eager, line[j..])
  {
    var p, r := line[..j], line[j..];
    assert line == p + r;
    if Blank(p) {
      BlankIsNothing(decode, eager, p);
      assert decode(p + r) == decode(r);
      forall i | 0 <= i <= |r| && eager(r[..i]) && !Blank(r[..i]) ensures Blank(r[i..]) {
        assert line[..j + i] == p + r[..i];
        assert !Blank(p + r[..i]) by {
          var x :| 0 <= x < i && !Text.IsSpace(r[..i][x]);
          assert (p + r[..i])[j + x] == r[..i][x];
        }
        assert line[j + i..] == r[i..];
      }
    } else {
      BlankIsNothing(decode, eager, r);
      assert decode(p + r) == decode(p);
      forall i | 0 <= i <= |r| ensures Blank(r[..i]) {
      }
    }
  }

  lemma {:induction false} CleanIsSafe<T(!new)>(decode: string -> Option<T>, eager: string -> bool, line: string)
    requires IgnoresBlanks(decode, eager) && Clean(eager, line)
    ensures TearSafe(decode, eager, line)
    decreases |line|
  {
    hide IgnoresBlanks, Clean, Dec;
    forall j | 0 < j <= |line| && eager(line[..j])
      ensures Dec(decode, line[..j]) + Dec(decode, line[j..]) == Dec(decode, line) && TearSafe(decode, eager, line[j..])
    {
      TearLine(decode, eager, line, j);
      CleanIsSafe(decode, eager, line[j..]);
    }
  }

  lemma {:induction false} AllCleanIsSafe<T(!new)>(decode: string -> Option<T>, eager: string -> bool, t: string)
    requires IgnoresBlanks(decode, eager) && AllClean(eager, t)
    ensures AllSafe(decode, eager, t)
    decreases |t|
  {
    hide IgnoresBlanks, Clean, TearSafe;
    var k := Break(t);
    CleanIsSafe(decode, eager, t[..k]);
    if k < |t| {
      AllCleanIsSafe(decode, eager, t[k + 1..]);
    }
  }

  // ------------------------------------------------------------------ a decoder that does not

  // The blanks JSON allows around a value (section 2 of RFC 8259); Blank admits more.
  predicate Padding(s: string) {
    forall i :: 0 <= i < |s| ==> s[i] == ' ' || s[i] == '\t' || s[i] == '\n' || s[i] == '\r'
  }

  // What decoding one JSON value per line guarantees: padding does not matter, a record followed by
  // anything else is no record, and neither is one behind any other blank.
  ghost predicate JsonRules<T(!new)>(decode: string -> Option<T>) {
    && (forall b, x {:trigger decode(b + x)} :: Padding(b) ==> decode(b + x) == decode(x))
    && (forall b, x {:trigger decode(x + b)} :: Padding(b) ==> decode(x + b) == decode(x))
    && (forall p, r {:trigger decode(p + r)} :: decode(p).Some? && !Padding(r) ==> decode(p + r).None?)
    && (forall p, r {:trigger decode(p + r)} :: Blank(p) && !Padding(p) ==> decode(p + r).None?)
    && decode("").None?
  }

  // The unterminated line looks complete when it is blank or a record.
  function Whole<T(!new)>(decode: string -> Option<T>): string -> bool {
    line => Blank(line) || decode(line).Some?
  }

  // A record that the line holds, behind blanks at most, has nothing but padding around it.
  ghost predicate Tidy<T(!new)>(decode: string -> Option<T>, line: string) {
    forall i, j :: 0 <= i <= j <= |line| && Blank(line[..i]) && decode(line[i..j]).Some? ==>
                     Padding(line[..i]) && Padding(line[j..])
  }

  ghost predicate AllTidy<T(!new)>(decode: string -> Option<T>, t: string)
    decreases |t|
  {
    var k := Break(t);
    Tidy(decode, t[..k]) && (k < |t| ==> AllTidy(decode, t[k + 1..]))
  }

  lemma {:induction false} PaddingIsNothing<T(!new)>(decode: string -> Option<T>, b: string)
    requires JsonRules(decode) && Blank(b)
    ensures decode(b).None?
  {
    assert b + "" == b;
    assert Padding(b) ==> decode(b + "") == decode("");
  }

  lemma {:induction false} JoinBlanks(p: string, r: string)
    ensures Padding(p) ==> Blank(p)
    ensures Blank(p + r) <==> Blank(p) && Blank(r)
    ensures Padding(p + r) <==> Padding(p) && Padding(r)
  {
    assert forall i :: 0 <= i < |r| ==> (p + r)[|p| + i] == r[i];
    assert forall i :: 0 <= i < |p| ==> (p + r)[i] == p[i];
  }

  // What stays of a tidy line behind a blank piece.
  lemma {:induction false} TidyRest<T(!new)>(decode: string -> Option<T>, p: string, r: string)
    requires Tidy(decode, p + r) && Blank(p)
    ensures Tidy(decode, r)
    ensures decode(r).Some? ==> Padding(p)
  {
    hide Blank, Padding;
    var line := p + r;
    forall i, j | 0 <= i <= j <= |r| && Blank(r[..i]) && decode(r[i..j]).Some?
      ensures Padding(r[..i]) && Padding(r[j..]) && Padding(p)
    {
      assert line[..|p| + i] == p + r[..i] && line[|p| + i..|p| + j] == r[i..j] && line[|p| + j..] == r[j..];
      JoinBlanks(p, r[..i]);
    }
    assert r[0..|r|] == r && r[..0] == "";
    NoBlank();
  }

  lemma {:induction false} NoBlank()
    ensures Blank("") && Padding("")
  {
  }

  lemma {:induction false} TidyPadding<T(!new)>(decode: string -> Option<T>, r: string)
    requires JsonRules(decode) && Padding(r)
    ensures Tidy(decode, r)
  {
    forall i, j | 0 <= i <= j <= |r| ensures decode(r[i..j]).None? {
      JoinBlanks(r[i..j], "");
      PaddingIsNothing(decode, r[i..j]);
    }
  }

  lemma {:induction false} TearTidy<T(!new)>(decode: string -> Option<T>, p: string, r: string)
    requires JsonRules(decode) && Tidy(decode, p + r) && Whole(decode)(p)
    ensures Dec(decode, p) + Dec(decode, r) == Dec(decode, p + r) && Tidy(decode, r)
  {
    if Blank(p) {
      PaddingIsNothing(decode, p);
      TidyRest(decode, p, r);
      if Padding(p) {
        assert decode(p + r) == decode(r);
      } else {
        assert decode(p + r).None?;
      }
    } else {
      var line := p + r;
      assert line[..0] == "" && line[0..|p|] == p && line[|p|..] == r;
      NoBlank();
      assert Padding(r);
      assert decode(p + r) == decode(p);
      JoinBlanks(r, "");
      PaddingIsNothing(decode, r);
      TidyPadding(decode, r);
    }
  }

  lemma {:induction false} TidyIsSafe<T(!new)>(decode: string -> Option<T>, line: string)
    requires JsonRules(decode) && Tidy(decode, line)
    ensures TearSafe(decode, Whole(decode), line)
    decreases |line|
  {
    hide JsonRules, Tidy, Dec, Whole;
    forall j | 0 < j <= |line| && Whole(decode)(line[..j])
      ensures Dec(decode, line[..j]) + Dec(decode, line[j..]) == Dec(decode, line) && TearSafe(decode, Whole(decode), line[j..])
    {
      assert line == line[..j] + line[j..];
      TearTidy(decode, line[..j], line[j..]);
      TidyIsSafe(decode, line[j..]);
    }
  }

  lemma {:induction false} AllTidyIsSafe<T(!new)>(decode: string -> Option<T>, t: string)
    requires JsonRules(decode) && AllTidy(decode, t)
    ensures AllSafe(decode, Whole(decode), t)
    decreases |t|
  {
    hide JsonRules, Tidy, TearSafe, Whole;
    var k := Break(t);
    TidyIsSafe(decode, t[..k]);
    if k < |t| {
      AllTidyIsSafe(decode, t[k + 1..]);
    }
  }

  lemma {:induction false} JsonIsSound<T(!new)>(decode: string -> Option<T>)
    requires JsonRules(decode)
    ensures Sound(decode, Whole(decode))
  {
  }

  // ------------------------------------------------------------------ one read of a prefix

  lemma {:induction false} ScanLine<T(!new)>(decode: string -> Option<T>, eager: string -> bool, t: string, k: nat)
    requires k == Break(t) < |t|
    ensures var q := Scan(decode, eager, t[k + 1..]);
            Scan(decode, eager, t) == (Dec(decode, t[..k]) + q.0, k + 1 + q.1)
    ensures Records(decode, t) == Dec(decode, t[..k]) + Records(decode, t[k + 1..])
    ensures AllSafe(decode, eager, t) <==> TearSafe(decode, eager, t[..k]) && AllSafe(decode, eager, t[k + 1..])
  {
    hide Break, Dec, TearSafe;
  }

  lemma {:induction false} ScanLast<T(!new)>(decode: string -> Option<T>, eager: string -> bool, t: string)
    requires Break(t) == |t|
    ensures Scan(decode, eager, t) == if t != "" && eager(t) then (Dec(decode, t), |t|) else ([], 0)
    ensures Records(decode, t) == Dec(decode, t)
    ensures AllSafe(decode, eager, t) <==> TearSafe(decode, eager, t)
  {
    assert t[..|t|] == t;
  }

  lemma {:induction false} ScanFindsRecords<T(!new)>(decode: string -> Option<T>, eager: string -> bool, t: string)
    requires Sound(decode, eager)
    ensures Scan(decode, eager, t).0 == Records(decode, t)
    decreases |t|
  {
    hide *;
    var k := Break(t);
    if k < |t| {
      ScanLine(decode, eager, t, k);
      ScanFindsRecords(decode, eager, t[k + 1..]);
    } else {
      ScanLast(decode, eager, t);
      NotEager(decode, eager, t);
    }
  }

  lemma {:induction false} NotEager<T(!new)>(decode: string -> Option<T>, eager: string -> bool, t: string)
    requires Sound(decode, eager)
    ensures t == "" || !eager(t) ==> Dec(decode, t) == []
  {
  }

  // Reading only the first m bytes and then the rest from the offset reached loses nothing.
  lemma {:induction false} ReadPrefix<T(!new)>(decode: string -> Option<T>, eager: string -> bool, t: string, m: nat)
    requires Sound(decode, eager) && m <= |t| && AllSafe(decode, eager, t)
    ensures var p := Scan(decode, eager, t[..m]);
            p.0 + Records(decode, t[p.1..]) == Records(decode, t) && AllSafe(decode, eager, t[p.1..])
    decreases |t|
  {
    hide *;
    var k := Break(t);
    if k < m {
      var rest, n := t[k + 1..], m - (k + 1);
      ScanLine(decode, eager, t, k);
      ReadPrefix(decode, eager, rest, n);
      PrefixLine(decode, eager, t, m);
      var q := Scan(decode, eager, rest[..n]);
      Regroup(Dec(decode, t[..k]), q.0, Records(decode, rest[q.1..]));
    } else {
      NoBreak(t, m);
      ScanLast(decode, eager, t[..m]);
      if m > 0 && eager(t[..m]) {
        ReadTorn(decode, eager, t, m);
      } else {
        assert t[0..] == t;
      }
    }
  }

  lemma {:induction false} Regroup<T>(a: seq<T>, b: seq<T>, c: seq<T>)
    ensures (a + b) + c == a + (b + c)
  {
  }

  lemma {:induction false} Drop<T>(t: seq<T>, i: nat, j: nat)
    requires i + j <= |t|
    ensures t[i + j..] == t[i..][j..]
  {
  }

  // A read that takes the first line of t whole.
  lemma {:induction false} PrefixLine<T(!new)>(decode: string -> Option<T>, eager: string -> bool, t: string, m: nat)
    requires Break(t) < m <= |t|
    ensures var k := Break(t);
            var q := Scan(decode, eager, t[k + 1..][..m - (k + 1)]);
            var p := Scan(decode, eager, t[..m]);
            p == (Dec(decode, t[..k]) + q.0, k + 1 + q.1) && t[p.1..] == t[k + 1..][q.1..]
  {
    hide *;
    var k := Break(t);
    PrefixBreak(t, m);
    ScanLine(decode, eager, t[..m], k);
    assert t[..m][..k] == t[..k] && t[..m][k + 1..] == t[k + 1..][..m - (k + 1)];
    Drop(t, k + 1, Scan(decode, eager, t[..m][k + 1..]).1);
  }

  // A read that takes an eager torn line.
  lemma {:induction false} ReadTorn<T(!new)>(decode: string -> Option<T>, eager: string -> bool, t: string, m: nat)
    requires 0 < m <= Break(t) && AllSafe(decode, eager, t) && eager(t[..m])
    ensures Dec(decode, t[..m]) + Records(decode, t[m..]) == Records(decode, t) && AllSafe(decode, eager, t[m..])
  {
    hide *;
    var k := Break(t);
    var line, rest := t[..k], t[m..];
    assert line[..m] == t[..m] && line[m..] == rest[..k - m];
    BreakAfter(t, m);
    if k < |t| {
      ScanLine(decode, eager, t, k);
      ScanLine(decode, eager, rest, k - m);
      assert rest[k - m + 1..] == t[k + 1..];
      TearAt(decode, eager, line, m);
      Regroup(Dec(decode, t[..m]), Dec(decode, rest[..k - m]), Records(decode, t[k + 1..]));
    } else {
      assert line == t && rest[..k - m] == rest;
      ScanLast(decode, eager, t);
      ScanLast(decode, eager, rest);
      TearAt(decode, eager, line, m);
    }
  }

  lemma {:induction false} BreakAfter(t: string, m: nat)
    requires m <= Break(t)
    ensures Break(t[m..]) == Break(t) - m
  {
    hide Break;
    BreakOf(t[m..], Break(t) - m);
  }

  lemma {:induction false} PrefixBreak(t: string, m: nat)
    requires Break(t) < m <= |t|
    ensures Break(t[..m]) == Break(t)
  {
    hide Break;
    BreakOf(t[..m], Break(t));
  }

  lemma {:induction false} NoBreak(t: string, m: nat)
    requires m <= Break(t)
    ensures Break(t[..m]) == m
  {
    hide Break;
    BreakOf(t[..m], m);
  }

  // ------------------------------------------------------------------ growth schedules

  // The sizes at which the growing file is read.
  predicate Grows(sizes: seq<nat>, from: nat, to: nat) {
    if sizes == [] then from == to else from <= sizes[0] <= to && Grows(sizes[1..], sizes[0], to)
  }

  // Everything found by reading file at each size in turn, each read resuming at the last offset.
  function Run<T(!new)>(decode: string -> Option<T>, eager: string -> bool, file: string, sizes: seq<nat>,
                  from: nat, off: nat): seq<T>
    requires off <= from && Grows(sizes, from, |file|)
    decreases |sizes|
  {
    if sizes == [] then []
    else
      var p := Scan(decode, eager, file[off..sizes[0]]);
      p.0 + Run(decode, eager, file, sizes[1..], sizes[0], off + p.1)
  }

  /** For every growth schedule of a file whose lines tear safely, the incremental reads find exactly
      the records that one read of the whole file finds. */
  lemma {:induction false} AnyGrowthReadsTheSame<T(!new)>(decode: string -> Option<T>, eager: string -> bool, file: string,
                                                    sizes: seq<nat>, from: nat, off: nat)
    requires Sound(decode, eager)
    requires off <= from && Grows(sizes, from, |file|) && sizes != [] && AllSafe(decode, eager, file[off..])
    ensures Run(decode, eager, file, sizes, from, off) == Records(decode, file[off..])
    decreases |sizes|
  {
    hide *;
    GrowsStep(sizes, from, |file|);
    var m, t := sizes[0], file[off..];
    var n := m - off;
    assert file[off..m] == t[..n];
    var p := Scan(decode, eager, t[..n]);
    RunStep(decode, eager, file, sizes, from, off);
    if |sizes| == 1 {
      RunNothing(decode, eager, file, sizes, from, off + p.1);
      assert t[..n] == t;
      ScanFindsRecords(decode, eager, t);
    } else {
      ReadPrefix(decode, eager, t, n);
      Drop(file, off, p.1);
      AnyGrowthReadsTheSame(decode, eager, file, sizes[1..], m, off + p.1);
    }
  }

  lemma {:induction false} GrowsStep(sizes: seq<nat>, from: nat, to: nat)
    requires sizes != [] && Grows(sizes, from, to)
    ensures from <= sizes[0] <= to && Grows(sizes[1..], sizes[0], to)
  {
  }

  lemma {:induction false} RunNothing<T(!new)>(decode: string -> Option<T>, eager: string -> bool, file: string, sizes: seq<nat>,
                            from: nat, off: nat)
    requires |sizes| == 1 && Grows(sizes, from, |file|) && off <= sizes[0]
    ensures sizes[0] == |file| && Run(decode, eager, file, sizes[1..], |file|, off) == []
  {
  }

  // ------------------------------------------------------------------ and only then

  // Where an untidy line is misread: just behind what precedes its record, and just behind the record.
  lemma {:induction false} UntidyLine<T(!new)>(decode: string -> Option<T>, line: string) returns (i: nat, j: nat)
    requires JsonRules(decode) && !Tidy(decode, line)
    ensures i < j <= |line| && Blank(line[..i]) && decode(line[i..j]).Some? && decode(line[..i]).None? && decode(line).None?
  {
    hide JsonRules, Blank, Padding;
    i, j :| 0 <= i <= j <= |line| && Blank(line[..i]) && decode(line[i..j]).Some? && !(Padding(line[..i]) && Padding(line[j..]));
    Misplaced(decode, line[..i], line[i..j], line[j..]);
    assert line == line[..i] + (line[i..j] + line[j..]);
  }

  lemma {:induction false} Misplaced<T(!new)>(decode: string -> Option<T>, p: string, x: string, r: string)
    requires JsonRules(decode) && Blank(p) && decode(x).Some? && !(Padding(p) && Padding(r))
    ensures x != "" && decode(p).None? && decode(p + (x + r)).None?
  {
    PaddingIsNothing(decode, p);
    assert p + (x + r) == (p + x) + r;
    if Padding(p) {
      assert decode(p + x) == decode(x);
      assert decode((p + x) + r).None?;
    } else {
      assert decode(p + (x + r)).None?;
    }
  }

  // Reading an untidy line in the pieces before its record, the record and the rest finds it.
  lemma {:induction false} UntidyIsMisread<T(!new)>(decode: string -> Option<T>, t: string) returns (a: nat, b: nat)
    requires JsonRules(decode) && !AllTidy(decode, t)
    ensures a <= b <= |t|
    ensures var p := Scan(decode, Whole(decode), t[..a]);
            p.1 <= b
            && var q := Scan(decode, Whole(decode), t[p.1..b]);
               p.1 + q.1 <= |t| && |p.0 + q.0 + Records(decode, t[p.1 + q.1..])| > |Records(decode, t)|
    decreases |t|
  {
    hide *;
    var k := Break(t);
    TidyParts(decode, t);
    if !Tidy(decode, t[..k]) {
      a, b := UntidyLine(decode, t[..k]);
      MisreadLine(decode, t, a, b);
    } else {
      var rest := t[k + 1..];
      var a', b' := UntidyIsMisread(decode, rest);
      a, b := k + 1 + a', k + 1 + b';
      assert rest[..a'] == t[k + 1..][..a'];
      PrefixLine(decode, Whole(decode), t, a);
      ScanLine(decode, Whole(decode), t, k);
      var p', p := Scan(decode, Whole(decode), rest[..a']), Scan(decode, Whole(decode), t[..a]);
      assert t[p.1..b] == rest[p'.1..b'];
      var q := Scan(decode, Whole(decode), rest[p'.1..b']);
      assert t[p.1 + q.1..] == rest[p'.1 + q.1..];
    }
  }

  lemma {:induction false} TidyParts<T(!new)>(decode: string -> Option<T>, t: string)
    ensures var k := Break(t); AllTidy(decode, t) <==> Tidy(decode, t[..k]) && (k < |t| ==> AllTidy(decode, t[k + 1..]))
  {
  }

  lemma {:induction false} MisreadLine<T(!new)>(decode: string -> Option<T>, t: string, i: nat, j: nat)
    requires i < j <= Break(t) && Blank(t[..Break(t)][..i]) && decode(t[..Break(t)][i..j]).Some?
    requires decode(t[..Break(t)][..i]).None? && decode(t[..Break(t)]).None?
    ensures var p := Scan(decode, Whole(decode), t[..i]);
            var q := Scan(decode, Whole(decode), t[i..j]);
            p == ([], i) && q.1 == j - i && |q.0 + Records(decode, t[j..])| > |Records(decode, t)|
  {
    var k := Break(t);
    var line := t[..k];
    assert line[..i] == t[..i] && line[i..j] == t[i..j];
    NoBreak(t, i);
    PieceBreak(t, i, j);
    ScanLast(decode, Whole(decode), t[..i]);
    ScanLast(decode, Whole(decode), t[i..j]);
    assert i == 0 ==> t[..i] == "";
    RecordsBehind(decode, t, j);
  }

  lemma {:induction false} PieceBreak(t: string, i: nat, j: nat)
    requires i <= j <= Break(t)
    ensures Break(t[i..j]) == j - i
  {
    hide Break;
    BreakOf(t[i..j], j - i);
  }

  // A torn first line yields at most what stands behind it, when the whole is no record.
  lemma {:induction false} RecordsBehind<T(!new)>(decode: string -> Option<T>, t: string, j: nat)
    requires j <= Break(t) && decode(t[..Break(t)]).None?
    ensures |Records(decode, t[j..])| >= |Records(decode, t)|
  {
    hide Break, Whole;
    var k := Break(t);
    BreakAfter(t, j);
    if k < |t| {
      assert t[j..][k - j + 1..] == t[k + 1..];
      ScanLine(decode, Whole(decode), t, k);
      ScanLine(decode, Whole(decode), t[j..], k - j);
    } else {
      assert t[..k] == t;
      ScanLast(decode, Whole(decode), t);
    }
  }

  lemma {:induction false} TidyRun<T(!new)>(decode: string -> Option<T>, file: string, sizes: seq<nat>)
    requires JsonRules(decode) && AllTidy(decode, file) && sizes != [] && Grows(sizes, 0, |file|)
    ensures Run(decode, Whole(decode), file, sizes, 0, 0) == Records(decode, file)
  {
    hide *;
    JsonIsSound(decode);
    AllTidyIsSafe(decode, file);
    assert file[0..] == file;
    AnyGrowthReadsTheSame(decode, Whole(decode), file, sizes, 0, 0);
  }

  lemma {:induction false} UntidyRun<T(!new)>(decode: string -> Option<T>, file: string) returns (sizes: seq<nat>)
    requires JsonRules(decode) && !AllTidy(decode, file)
    ensures sizes != [] && Grows(sizes, 0, |file|)
    ensures Run(decode, Whole(decode), file, sizes, 0, 0) != Records(decode, file)
  {
    hide *;
    JsonIsSound(decode);
    var a, b := UntidyIsMisread(decode, file);
    ThreeReads(decode, Whole(decode), file, a, b);
    sizes := [a, b, |file|];
  }

  /** Exactly the files without an untidy line read the same under every growth schedule: a record on a
      line may have nothing around it but JSON's own blanks. */
  lemma {:induction false} GrowthIndependentIff<T(!new)>(decode: string -> Option<T>, file: string)
    requires JsonRules(decode)
    ensures (forall sizes :: sizes != [] && Grows(sizes, 0, |file|) ==>
               Run(decode, Whole(decode), file, sizes, 0, 0) == Records(decode, file))
            <==> AllTidy(decode, file)
  {
    hide *;
    if AllTidy(decode, file) {
      forall sizes | sizes != [] && Grows(sizes, 0, |file|)
        ensures Run(decode, Whole(decode), file, sizes, 0, 0) == Records(decode, file)
      {
        TidyRun(decode, file, sizes);
      }
    } else {
      var sizes := UntidyRun(decode, file);
    }
  }

  lemma {:induction false} ThreeReads<T(!new)>(decode: string -> Option<T>, eager: string -> bool, file: string, a: nat, b: nat)
    requires Sound(decode, eager) && a <= b <= |file|
    ensures Grows([a, b, |file|], 0, |file|)
    ensures var p := Scan(decode, eager, file[..a]);
            var q := Scan(decode, eager, file[p.1..b]);
            Run(decode, eager, file, [a, b, |file|], 0, 0) == p.0 + q.0 + Records(decode, file[p.1 + q.1..])
  {
    hide Scan, Records, Sound, Run, Grows;
    var sizes := [a, b, |file|];
    GrowsThrice(a, b, |file|);
    assert file[0..a] == file[..a];
    var p := Scan(decode, eager, file[..a]);
    var q := Scan(decode, eager, file[p.1..b]);
    var rest := file[p.1 + q.1..];
    assert file[p.1 + q.1..|file|] == rest;
    ScanFindsRecords(decode, eager, rest);
    RunStep(decode, eager, file, sizes, 0, 0);
    RunStep(decode, eager, file, sizes[1..], a, p.1);
    RunStep(decode, eager, file, sizes[1..][1..], b, p.1 + q.1);
    RunNothing(decode, eager, file, sizes[1..][1..], b, p.1 + q.1 + Scan(decode, eager, rest).1);
    Regroup(p.0, q.0, Records(decode, rest));
  }

  lemma {:induction false} GrowsThrice(a: nat, b: nat, n: nat)
    requires a <= b <= n
    ensures [a, b, n][1..] == [b, n] && [b, n][1..] == [n]
    ensures Grows([a, b, n], 0, n) && Grows([b, n], a, n) && Grows([n], b, n)
  {
    assert [a, b, n][1..] == [b, n] && [b, n][1..] == [n] && [n][1..] == [];
    assert Grows([], n, n);
    assert Grows([n], b, n);
    assert Grows([b, n], a, n);
  }

  lemma {:induction false} RunStep<T(!new)>(decode: string -> Option<T>, eager: string -> bool, file: string, sizes: seq<nat>, from: nat, off: nat)
    requires off <= from && sizes != [] && Grows(sizes, from, |file|)
    ensures var p := Scan(decode, eager, file[off..sizes[0]]);
            Run(decode, eager, file, sizes, from, off) == p.0 + Run(decode, eager, file, sizes[1..], sizes[0], off + p.1)
  {
    hide Scan;
  }
}
