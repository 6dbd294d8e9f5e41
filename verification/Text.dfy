/** Whitespace handling shared by the modules that compare typed text with shown text. */
module Text {

  // Go's unicode.IsSpace.
  predicate IsSpace(c: char) {
    || '\t' <= c <= '\r' || c == ' ' || c == '\U{85}' || c == '\U{A0}' || c == '\U{1680}'
    || '\U{2000}' <= c <= '\U{200A}' || c == '\U{2028}' || c == '\U{2029}'
    || c == '\U{202F}' || c == '\U{205F}' || c == '\U{3000}'
  }

  // The length of the word s starts with.
  function WordLength(s: string): (n: nat)
    ensures n <= |s|
    ensures forall i :: 0 <= i < n ==> !IsSpace(s[i])
    ensures n < |s| ==> IsSpace(s[n])
  {
    if s == [] || IsSpace(s[0]) then 0 else 1 + WordLength(s[1..])
  }

  // strings.Fields.
  function Fields(s: string): seq<string>
    decreases |s|
  {
    if s == [] then []
    else if IsSpace(s[0]) then Fields(s[1..])
    else [s[..WordLength(s)]] + Fields(s[WordLength(s)..])
  }

  // strings.Join.
  function Join(parts: seq<string>, sep: string): string {
    if parts == [] then ""
    else if |parts| == 1 then parts[0]
    else parts[0] + sep + Join(parts[1..], sep)
  }

  function Norm(s: string): string {
    Join(Fields(s), " ")
  }

  function NonSpace(s: string): string {
    if s == [] then ""
    else if IsSpace(s[0]) then NonSpace(s[1..])
    else [s[0]] + NonSpace(s[1..])
  }

  predicate IsWord(s: string) {
    s != [] && forall i :: 0 <= i < |s| ==> !IsSpace(s[i])
  }

  lemma {:induction false} NonSpaceWord(w: string, s: string)
    requires forall i :: 0 <= i < |w| ==> !IsSpace(w[i])
    ensures NonSpace(w + s) == w + NonSpace(s)
  {
    if w == [] {
      assert w + s == s;
    } else {
      assert (w + s)[1..] == w[1..] + s;
      NonSpaceWord(w[1..], s);
    }
  }

  // Joining the fields with nothing in between is dropping every space.
  lemma {:induction false} JoinedFieldsDropSpaces(s: string)
    ensures Join(Fields(s), "") == NonSpace(s)
    decreases |s|
  {
    if s == [] {
    } else if IsSpace(s[0]) {
      JoinedFieldsDropSpaces(s[1..]);
    } else {
      var n := WordLength(s);
      assert s == s[..n] + s[n..];
      NonSpaceWord(s[..n], s[n..]);
      JoinedFieldsDropSpaces(s[n..]);
      assert Fields(s)[1..] == Fields(s[n..]);
    }
  }

  lemma {:induction false} FieldsAreWords(s: string)
    ensures forall w :: w in Fields(s) ==> IsWord(w)
    decreases |s|
  {
    if s == [] {
    } else if IsSpace(s[0]) {
      FieldsAreWords(s[1..]);
    } else {
      FieldsAreWords(s[WordLength(s)..]);
    }
  }

  lemma {:induction false} WordLengthOf(w: string, s: string)
    requires forall i :: 0 <= i < |w| ==> !IsSpace(w[i])
    requires s == [] || IsSpace(s[0])
    ensures WordLength(w + s) == |w|
  {
    if w == [] {
      assert w + s == s;
    } else {
      assert (w + s)[1..] == w[1..] + s;
      WordLengthOf(w[1..], s);
    }
  }

  lemma {:induction false} FieldsOfJoin(words: seq<string>)
    requires forall w :: w in words ==> IsWord(w)
    ensures Fields(Join(words, " ")) == words
  {
    if words == [] {
    } else {
      var rest := if |words| == 1 then "" else " " + Join(words[1..], " ");
      var all := words[0] + rest;
      assert Join(words, " ") == all;
      assert IsWord(words[0]);
      WordLengthOf(words[0], rest);
      assert all[..|words[0]|] == words[0] && all[|words[0]|..] == rest;
      FieldsOfJoin(words[1..]);
      if |words| > 1 {
        assert rest[1..] == Join(words[1..], " ");
        assert Fields(rest) == words[1..];
      }
      assert Fields(all) == [words[0]] + Fields(rest);
    }
  }

  // Norm forgets exactly the shape of the whitespace: two texts normalise alike
  // when and only when they have the same words.
  lemma NormKeepsWords(a: string, b: string)
    ensures Norm(a) == Norm(b) <==> Fields(a) == Fields(b)
  {
    FieldsAreWords(a);
    FieldsAreWords(b);
    FieldsOfJoin(Fields(a));
    FieldsOfJoin(Fields(b));
  }
}
