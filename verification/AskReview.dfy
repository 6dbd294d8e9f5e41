/** Matching a review line of a multi-select question (askmenu_multi.go). */
module AskReview {
  import opened AskMenu
  import Multi = AskMulti
  import Text

  const SEP := ", "

  // order is a rearrangement of labels.
  ghost predicate Rearranges(order: seq<string>, labels: seq<string>) {
    multiset(order) == multiset(labels)
  }

  // Some order of the labels, joined by commas, reads text.
  ghost predicate Reads(text: string, labels: seq<string>) {
    exists order :: Rearranges(order, labels) && Text.Join(order, SEP) == text
  }

  function Without(labels: seq<string>, i: nat): seq<string>
    requires i < |labels|
  {
    labels[..i] + labels[i + 1..]
  }

  lemma WithoutLosesOne(labels: seq<string>, i: nat)
    requires i < |labels|
    ensures multiset(labels) == multiset(Without(labels, i)) + multiset{labels[i]}
  {
    assert labels == labels[..i] + [labels[i]] + labels[i + 1..];
  }

  // Reading text from labels starts with one of them.
  lemma ReadsFrom(text: string, labels: seq<string>, i: nat)
    requires |labels| > 1 && i < |labels|
    requires labels[i] + SEP <= text && Reads(text[|labels[i]| + 2..], Without(labels, i))
    ensures Reads(text, labels)
  {
    var rest := text[|labels[i]| + 2..];
    var order :| Rearranges(order, Without(labels, i)) && Text.Join(order, SEP) == rest;
    var all := [labels[i]] + order;
    WithoutLosesOne(labels, i);
    assert |order| == |Without(labels, i)| by {
      assert |multiset(order)| == |order| && |multiset(Without(labels, i))| == |Without(labels, i)|;
    }
    assert all[1..] == order;
    assert text == labels[i] + SEP + rest;
    assert Rearranges(all, labels);
  }

  // The labels after the first one of a reading order.
  lemma RestOfOrder(order: seq<string>, labels: seq<string>, i: nat)
    requires order != [] && i < |labels| && labels[i] == order[0] && Rearranges(order, labels)
    ensures Rearranges(order[1..], Without(labels, i))
  {
    WithoutLosesOne(labels, i);
    assert order == [order[0]] + order[1..];
    var x, y, e := multiset(order[1..]), multiset(Without(labels, i)), multiset{order[0]};
    assert x == (e + x) - e && y == (y + e) - e;
    assert e + x == y + e;
  }

  // The first label of a reading order, as an index into labels.
  lemma ReadsBy(text: string, labels: seq<string>) returns (i: nat)
    requires |labels| > 1 && Reads(text, labels)
    ensures i < |labels| && labels[i] + SEP <= text
    ensures Reads(text[|labels[i]| + 2..], Without(labels, i))
  {
    var order :| Rearranges(order, labels) && Text.Join(order, SEP) == text;
    assert |order| == |labels| by {
      assert |multiset(order)| == |order| && |multiset(labels)| == |labels|;
    }
    assert order[0] in multiset(order);
    i :| i < |labels| && labels[i] == order[0];
    RestOfOrder(order, labels, i);
    assert text[|labels[i]| + 2..] == Text.Join(order[1..], SEP);
  }

  lemma ReadsLast(text: string, word: string)
    ensures Reads(text, [word]) <==> text == word
  {
    if Reads(text, [word]) {
      var order :| Rearranges(order, [word]) && Text.Join(order, SEP) == text;
      assert |order| == 1 by {
        assert |multiset(order)| == |order|;
      }
      assert order[0] in multiset(order);
    }
    if text == word {
      assert Rearranges([word], [word]);
    }
  }

  /** The search: try every remaining label as the next one, backtracking. It is exact, also for
      labels that hold commas or start one another. */
  method Match(rest: string, remaining: seq<string>) returns (found: bool)
    ensures found <==> remaining != [] && Reads(rest, remaining)
    decreases |remaining|
  {
    for i := 0 to |remaining|
      invariant |remaining| == 1 ==> i == 0
      invariant forall j :: 0 <= j < i ==>
                  !(remaining[j] + SEP <= rest && Reads(rest[|remaining[j]| + 2..], Without(remaining, j)))
    {
      if |remaining| == 1 {
        ReadsLast(rest, remaining[0]);
        assert remaining == [remaining[0]];
        return rest == remaining[i];
      }
      if remaining[i] + SEP <= rest {
        var deeper := Match(rest[|remaining[i]| + 2..], Without(remaining, i));
        if deeper {
          ReadsFrom(rest, remaining, i);
          return true;
        }
      }
    }
    if |remaining| > 1 && Reads(rest, remaining) {
      ghost var i := ReadsBy(rest, remaining);
      assert false;
    }
    return false;
  }

  // The labels a pick puts on the review line, in row order.
  function Chosen(q: Question, p: Pick): seq<string>
    requires forall k :: 0 <= k < |p.rows| ==> 1 <= p.rows[k] <= |q.labels|
  {
    seq(|p.rows|, k requires 0 <= k < |p.rows| => Text.Norm(q.labels[p.rows[k] - 1]))
    + if p.text != "" then [Text.Norm(p.text)] else []
  }

  /** A review line is accepted exactly when it lists the chosen labels, each once, in some order. */
  method MultiReviewMatches(answer: string, q: Question, p: Pick) returns (ok: bool)
    requires ValidMultiPick(q, p)
    ensures ok <==> Reads(Text.Norm(answer), Chosen(q, p))
  {
    var labels: seq<string> := [];
    for k := 0 to |p.rows|
      invariant labels == Chosen(q, p)[..k]
    {
      labels := labels + [Text.Norm(q.labels[p.rows[k] - 1])];
    }
    if p.text != "" {
      labels := labels + [Text.Norm(p.text)];
    }
    assert labels == Chosen(q, p);
    ok := Match(Text.Norm(answer), labels);
  }

  // The separator stands nowhere within the label.
  predicate NoSep(word: string) {
    forall k :: 0 <= k < |word| - 1 ==> !SepAt(word, k)
  }

  predicate SepAt(s: string, k: nat) {
    k + 1 < |s| && s[k] == ',' && s[k + 1] == ' '
  }

  // The first separator of a line is the one behind its first label.
  lemma FirstSep(a: seq<string>)
    requires a != [] && NoSep(a[0])
    ensures var text := Text.Join(a, SEP);
            && |a[0]| <= |text| && text[..|a[0]|] == a[0]
            && (|a| > 1 ==> SepAt(text, |a[0]|) && text[|a[0]| + 2..] == Text.Join(a[1..], SEP))
            && (|a| == 1 ==> text == a[0])
            && forall k :: 0 <= k < |a[0]| ==> !SepAt(text, k)
  {
    var text := Text.Join(a, SEP);
    var rest := if |a| > 1 then SEP + Text.Join(a[1..], SEP) else "";
    assert text == a[0] + rest;
    forall k | 0 <= k < |a[0]| ensures !SepAt(text, k) {
      assert text[k] == a[0][k];
      if k + 1 < |a[0]| {
        assert text[k + 1] == a[0][k + 1] && !SepAt(a[0], k);
      }
    }
  }

  /** A line lists one sequence of labels, when none of them holds the separator. */
  lemma {:induction false} JoinSplits(a: seq<string>, b: seq<string>)
    requires a != [] && b != [] && Text.Join(a, SEP) == Text.Join(b, SEP)
    requires forall s :: s in a || s in b ==> NoSep(s)
    ensures a == b
    decreases |a|
  {
    var text := Text.Join(a, SEP);
    assert a[0] in a && b[0] in b;
    FirstSep(a);
    FirstSep(b);
    hide Text.Join, NoSep;
    assert |a[0]| == |b[0]|;
    if |a| > 1 && |b| > 1 {
      JoinSplits(a[1..], b[1..]);
    }
  }

  /** A line that reads for two picks lists the same labels for both, when no label holds the separator:
      the review then tells the picks apart. */
  lemma ReviewTellsPicksApart(text: string, a: seq<string>, b: seq<string>)
    requires a != [] && b != [] && Reads(text, a) && Reads(text, b)
    requires forall s :: s in a || s in b ==> NoSep(s)
    ensures multiset(a) == multiset(b)
  {
    var x :| Rearranges(x, a) && Text.Join(x, SEP) == text;
    var y :| Rearranges(y, b) && Text.Join(y, SEP) == text;
    forall s | s in x || s in y ensures NoSep(s) {
      assert s in multiset(x) || s in multiset(y);
    }
    assert a[0] in multiset(a) && b[0] in multiset(b);
    JoinSplits(x, y);
  }

  /** A label that holds the separator reads like the two labels around it. */
  lemma CommaLabelsCollide(u: string, v: string, rest: seq<string>)
    ensures var whole, split := [u + SEP + v] + rest, [u, v] + rest;
            && Reads(Text.Join(whole, SEP), whole) && Reads(Text.Join(whole, SEP), split)
            && multiset(whole) != multiset(split)
  {
    var whole, split := [u + SEP + v] + rest, [u, v] + rest;
    assert whole[1..] == rest && split[1..] == [v] + rest && split[1..][1..] == rest;
    assert Text.Join(split, SEP) == u + SEP + Text.Join([v] + rest, SEP);
    assert Text.Join(whole, SEP) == Text.Join(split, SEP);
    hide Text.Join;
    ReadsItself(whole);
    ReadsItself(split);
    assert |multiset(whole)| != |multiset(split)|;
  }

  lemma ReadsItself(labels: seq<string>)
    ensures Reads(Text.Join(labels, SEP), labels)
  {
    assert Rearranges(labels, labels);
  }

  // ------------------------------------------------------------------ what the plan ticks, and what is reviewed

  // The labels of the checked rows among the first k, top to bottom, as a review line writes them.
  function Ticked(q: Question, checked: seq<bool>, k: nat): seq<string>
    requires k <= |q.labels| && k <= |checked|
  {
    if k == 0 then [] else Ticked(q, checked, k - 1) + if checked[k - 1] then [Text.Norm(q.labels[k - 1])] else []
  }

  function Picked(q: Question, rows: seq<int>): seq<string>
    requires Rows(q, rows)
  {
    seq(|rows|, j requires 0 <= j < |rows| => Text.Norm(q.labels[rows[j] - 1]))
  }

  predicate Differ(rows: seq<int>) {
    forall j, k :: 0 <= j < k < |rows| ==> rows[j] != rows[k]
  }

  predicate Rows(q: Question, rows: seq<int>) {
    forall j :: 0 <= j < |rows| ==> 1 <= rows[j] <= |q.labels|
  }

  lemma PickedParts(q: Question, a: seq<int>, row: int, b: seq<int>)
    requires Rows(q, a) && Rows(q, b) && 1 <= row <= |q.labels|
    ensures Rows(q, a + [row] + b) && Rows(q, a + b)
    ensures multiset(Picked(q, a + [row] + b)) == multiset(Picked(q, a + b)) + multiset{Text.Norm(q.labels[row - 1])}
  {
    hide Text.Norm;
    assert Picked(q, a + [row] + b) == Picked(q, a) + [Text.Norm(q.labels[row - 1])] + Picked(q, b);
    assert Picked(q, a + b) == Picked(q, a) + Picked(q, b);
  }

  lemma TickedStep(q: Question, checked: seq<bool>, k: nat)
    requires 0 < k <= |q.labels| && k <= |checked|
    ensures multiset(Ticked(q, checked, k)) == multiset(Ticked(q, checked, k - 1))
                                               + if checked[k - 1] then multiset{Text.Norm(q.labels[k - 1])} else multiset{}
  {
    hide Text.Norm;
    assert Ticked(q, checked, k - 1) + [] == Ticked(q, checked, k - 1);
  }

  lemma Below(rows: seq<int>, k: int)
    requires (forall j :: 0 <= j < |rows| ==> 1 <= rows[j] <= k) && k !in rows
    ensures forall j :: 0 <= j < |rows| ==> 1 <= rows[j] <= k - 1
  {
    assert forall j :: 0 <= j < |rows| ==> rows[j] in rows;
  }

  lemma DropRow(rows: seq<int>, j: nat, k: int)
    requires j < |rows| && rows[j] == k && Differ(rows) && forall i :: 0 <= i < |rows| ==> 1 <= rows[i] <= k
    ensures var rest := rows[..j] + rows[j + 1..];
            && rows == rows[..j] + [k] + rows[j + 1..] && Differ(rest)
            && (forall r :: r in rest <==> r in rows && r != k)
            && forall i :: 0 <= i < |rest| ==> 1 <= rest[i] <= k - 1
  {
    var rest := rows[..j] + rows[j + 1..];
    forall i | 0 <= i < |rest| ensures rest[i] == rows[if i < j then i else i + 1] {
    }
    forall r | r in rows && r != rows[j] ensures r in rest {
      var i :| 0 <= i < |rows| && rows[i] == r;
      assert rest[if i < j then i else i - 1] == r;
    }
  }

  lemma {:induction false} TickedIsPicked(q: Question, checked: seq<bool>, rows: seq<int>, k: nat)
    requires k <= |q.labels| && k <= |checked| && Differ(rows) && forall j :: 0 <= j < |rows| ==> 1 <= rows[j] <= k
    requires forall row :: 1 <= row <= k ==> (checked[row - 1] <==> row in rows)
    ensures multiset(Ticked(q, checked, k)) == multiset(Picked(q, rows))
    decreases k
  {
    hide Text.Norm, Ticked, Picked;
    if k == 0 {
      NoneTicked(q, checked, rows, k);
    } else {
      TickedStep(q, checked, k);
      if k in rows {
        var j :| 0 <= j < |rows| && rows[j] == k;
        var a, b := rows[..j], rows[j + 1..];
        DropRow(rows, j, k);
        TickedIsPicked(q, checked, a + b, k - 1);
        PickedParts(q, a, k, b);
      } else {
        Below(rows, k);
        TickedIsPicked(q, checked, rows, k - 1);
      }
    }
  }

  lemma NoneTicked(q: Question, checked: seq<bool>, rows: seq<int>, k: nat)
    requires k == 0 && forall j :: 0 <= j < |rows| ==> 1 <= rows[j] <= k
    ensures Ticked(q, checked, 0) == [] == Picked(q, rows)
  {
    if rows != [] {
      RowAtLeastOne(rows, k, 0);
      assert false;
    }
  }

  lemma RowAtLeastOne(rows: seq<int>, k: nat, j: nat)
    requires j < |rows| && forall i :: 0 <= i < |rows| ==> 1 <= rows[i] <= k
    ensures k >= 1
  {
    assert rows[j] <= k;
  }

  /** The boxes a plan leaves checked, Other's text included, are what its review line has to list. */
  lemma PlanIsReviewed(ap: Pane, i: nat, q: Question, p: Pick)
    requires ValidMultiPick(q, p) && Multi.Sized(ap, i, |q.labels|)
    ensures var e, n := Multi.End(ap, Multi.Edits(ap, i, |q.labels|, p)), |q.labels|;
            && |e.checked| == n + 1 && |e.options| > n
            && multiset(Ticked(q, e.checked, n) + if e.checked[n] then [Text.Norm(e.options[n])] else [])
               == multiset(Chosen(q, p))
  {
    hide Text.Norm, Multi.Edits, Multi.End;
    var n := |q.labels|;
    Multi.PlanReachesPick(ap, i, n, p);
    var e := Multi.End(ap, Multi.Edits(ap, i, n, p));
    TickedIsPicked(q, e.checked, p.rows, n);
    assert Chosen(q, p) == Picked(q, p.rows) + if p.text != "" then [Text.Norm(p.text)] else [];
  }
}
