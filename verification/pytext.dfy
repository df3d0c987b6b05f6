/** Python's no-argument `str.split()` and `str.strip()`, and the space-joined
    string the decode loop builds one word at a time. */
module PyText {

  /** Python's whitespace (`str.isspace`), which `split()` and `strip()` with
      no argument break and trim on: the ASCII separators \t \n \v \f \r,
      \x1c-\x1f and space, plus the Unicode separators Python also treats as
      whitespace. */
  predicate IsSpace(c: char) {
    || c == ' '
    || ('\U{9}' <= c <= '\U{D}')
    || ('\U{1C}' <= c <= '\U{1F}')
    || c == '\U{85}' || c == '\U{A0}' || c == '\U{1680}'
    || ('\U{2000}' <= c <= '\U{200A}')
    || c == '\U{2028}' || c == '\U{2029}' || c == '\U{202F}'
    || c == '\U{205F}' || c == '\U{3000}'
  }

  predicate NoSpace(s: string) {
    forall i :: 0 <= i < |s| ==> !IsSpace(s[i])
  }

  predicate AllSpace(s: string) {
    forall i :: 0 <= i < |s| ==> IsSpace(s[i])
  }

  /** A token that `split()` gives back unchanged: non-empty, no whitespace. */
  predicate IsWord(w: string) {
    w != [] && NoSpace(w)
  }

  /** `s.lstrip()`: the suffix left after dropping leading whitespace. */
  function TrimLeft(s: string): (r: string)
    ensures |r| <= |s|
    ensures r == [] || !IsSpace(r[0])
    ensures r == [] <==> AllSpace(s)
  {
    if s != [] && IsSpace(s[0]) then TrimLeft(s[1..]) else s
  }

  /** `s.rstrip()`: the prefix left after dropping trailing whitespace. */
  function TrimRight(s: string): (r: string)
    ensures |r| <= |s|
    ensures r != [] ==> r[0] == s[0]
    ensures r == [] || !IsSpace(r[|r| - 1])
    ensures r == [] <==> AllSpace(s)
  {
    if s != [] && IsSpace(s[|s| - 1]) then TrimRight(s[..|s| - 1]) else s
  }

  /** `s.strip()`. */
  function Strip(s: string): (r: string)
    ensures r == [] || (!IsSpace(r[0]) && !IsSpace(r[|r| - 1]))
    ensures r == [] <==> AllSpace(s)
  {
    TrimRight(TrimLeft(s))
  }

  /** Number of leading non-whitespace characters of `s`. */
  function RunLength(s: string): (n: nat)
    ensures n <= |s|
    ensures NoSpace(s[..n])
    ensures n == |s| || IsSpace(s[n])
  {
    if s == [] || IsSpace(s[0]) then 0 else 1 + RunLength(s[1..])
  }

  /** `s.split()`: the maximal runs of non-whitespace characters, in order. */
  function Split(s: string): (r: seq<string>)
    ensures forall i :: 0 <= i < |r| ==> IsWord(r[i])
    ensures AllSpace(s) ==> r == []
    decreases |s|
  {
    var t := TrimLeft(s);
    if t == [] then []
    else
      var n := RunLength(t);
      assert n > 0;
      [t[..n]] + Split(t[n..])
  }

  /** `lstrip()` removes exactly a whitespace prefix: the result is a suffix
      of the input and everything before it is whitespace. */
  lemma {:induction false} TrimLeftIsSuffix(s: string)
    ensures var r := TrimLeft(s);
      r == s[|s| - |r|..] && AllSpace(s[..|s| - |r|])
    decreases |s|
  {
    if s != [] && IsSpace(s[0]) {
      TrimLeftIsSuffix(s[1..]);
      var r := TrimLeft(s[1..]);
      assert s[1..][|s| - 1 - |r|..] == s[|s| - |r|..];
      assert s[..|s| - |r|] == [s[0]] + s[1..][..|s| - 1 - |r|];
    }
  }

  /** `rstrip()` removes exactly a whitespace suffix: the result is a prefix
      of the input and everything after it is whitespace. */
  lemma {:induction false} TrimRightIsPrefix(s: string)
    ensures var r := TrimRight(s);
      r == s[..|r|] && AllSpace(s[|r|..])
    decreases |s|
  {
    if s != [] && IsSpace(s[|s| - 1]) {
      var p := s[..|s| - 1];
      TrimRightIsPrefix(p);
      var r := TrimRight(p);
      assert p[..|r|] == s[..|r|];
      assert s[|r|..] == p[|r|..] + [s[|s| - 1]];
    }
  }

  /** `strip()` is the input with a whitespace prefix and a whitespace suffix
      removed; with the end conditions of `Strip` this pins the result down. */
  lemma StripIsInfix(s: string)
    ensures var r := Strip(s);
      exists i :: 0 <= i <= i + |r| <= |s| && r == s[i..i + |r|]
        && AllSpace(s[..i]) && AllSpace(s[i + |r|..])
  {
    var t := TrimLeft(s);
    var r := TrimRight(t);
    TrimLeftIsSuffix(s);
    TrimRightIsPrefix(t);
    var i := |s| - |t|;
    assert r == s[i..i + |r|];
    assert s[i + |r|..] == t[|r|..];
  }

  /** `split()` is empty exactly for all-whitespace strings: any string with
      a non-whitespace character has at least one word. */
  lemma SplitEmptyIffAllSpace(s: string)
    ensures Split(s) == [] <==> AllSpace(s)
  {
  }

  /** The string `decoded_sentence` holds after `+= " " + w` for each word
      of `words` in turn, starting from "". */
  function Sentence(words: seq<string>): string {
    if words == [] then "" else " " + words[0] + Sentence(words[1..])
  }

  /** The words separated by single spaces, with nothing before or after. */
  function Join(words: seq<string>): string {
    if words == [] then ""
    else if |words| == 1 then words[0]
    else words[0] + " " + Join(words[1..])
  }

  predicate AllWords(words: seq<string>) {
    forall i :: 0 <= i < |words| ==> IsWord(words[i])
  }

  /** Appending `" " + w` to the sentence is the sentence of the longer list:
      the `+=` accumulation and the list view agree. */
  lemma {:induction false} SentenceSnoc(words: seq<string>, w: string)
    ensures Sentence(words + [w]) == Sentence(words) + " " + w
    decreases |words|
  {
    if words == [] {
      assert Sentence([w]) == " " + w + Sentence([]);
    } else {
      assert (words + [w])[1..] == words[1..] + [w];
      SentenceSnoc(words[1..], w);
    }
  }

  /** The accumulated sentence is the joined words behind one leading space. */
  lemma {:induction false} SentenceIsSpacedJoin(words: seq<string>)
    requires words != []
    ensures Sentence(words) == " " + Join(words)
    decreases |words|
  {
    if |words| == 1 {
      assert words[1..] == [];
    } else {
      SentenceIsSpacedJoin(words[1..]);
    }
  }

  lemma TrimLeftNoLeadingSpace(s: string)
    requires s == [] || !IsSpace(s[0])
    ensures TrimLeft(s) == s
  {
  }

  lemma TrimRightNoTrailingSpace(s: string)
    requires s == [] || !IsSpace(s[|s| - 1])
    ensures TrimRight(s) == s
  {
  }

  /** The first run of `w + rest` is exactly `w` when `w` is a word and `rest`
      is empty or starts with a space. */
  lemma {:induction false} RunLengthOfWord(w: string, rest: string)
    requires NoSpace(w)
    requires rest == [] || IsSpace(rest[0])
    ensures RunLength(w + rest) == |w|
    decreases |w|
  {
    if w == [] {
      assert w + rest == rest;
    } else {
      assert (w + rest)[1..] == w[1..] + rest;
      RunLengthOfWord(w[1..], rest);
    }
  }

  /** A leading space, a word, then nothing or a space-led rest: `split()`
      yields the word, then the split of the rest. */
  lemma SplitSpacedWord(w: string, rest: string)
    requires IsWord(w)
    requires rest == [] || IsSpace(rest[0])
    ensures Split(" " + w + rest) == [w] + Split(rest)
  {
    var s := " " + w + rest;
    var t := w + rest;
    assert s[1..] == t;
    TrimLeftNoLeadingSpace(t);
    assert TrimLeft(s) == t;
    RunLengthOfWord(w, rest);
    assert t[..|w|] == w;
    assert t[|w|..] == rest;
  }

  /** A non-empty sentence starts with its separating space. */
  lemma SentenceStartsWithSpace(words: seq<string>)
    ensures Sentence(words) == [] || Sentence(words)[0] == ' '
  {
  }

  /** `split()` recovers the words from the accumulated sentence. */
  lemma {:induction false} SplitSentence(words: seq<string>)
    requires AllWords(words)
    ensures Split(Sentence(words)) == words
    decreases |words|
  {
    if words != [] {
      var rest := Sentence(words[1..]);
      assert Sentence(words) == " " + words[0] + rest;
      SentenceStartsWithSpace(words[1..]);
      SplitSpacedWord(words[0], rest);
      SplitSentence(words[1..]);
      assert [words[0]] + words[1..] == words;
    }
  }

  /** The joined words start and end with a non-whitespace character. */
  lemma {:induction false} JoinEnds(words: seq<string>)
    requires words != [] && AllWords(words)
    ensures Join(words) != []
    ensures !IsSpace(Join(words)[0]) && !IsSpace(Join(words)[|Join(words)| - 1])
    decreases |words|
  {
    if |words| > 1 {
      JoinEnds(words[1..]);
      var j := Join(words[1..]);
      assert Join(words) == words[0] + " " + j;
      assert Join(words)[|Join(words)| - 1] == j[|j| - 1];
      assert Join(words)[0] == words[0][0];
    }
  }

  /** `decoded_sentence.strip()` is the words joined by single spaces. */
  lemma StripSentence(words: seq<string>)
    requires AllWords(words)
    ensures Strip(Sentence(words)) == Join(words)
  {
    if words != [] {
      SentenceIsSpacedJoin(words);
      JoinEnds(words);
      var j := Join(words);
      assert (" " + j)[1..] == j;
      TrimLeftNoLeadingSpace(j);
      assert TrimLeft(" " + j) == j;
      TrimRightNoTrailingSpace(j);
    }
  }

  /** Joining words and splitting again gives the words back. */
  lemma SplitJoin(words: seq<string>)
    requires AllWords(words)
    ensures Split(Join(words)) == words
  {
    if words != [] {
      SentenceIsSpacedJoin(words);
      JoinEnds(words);
      SplitSentence(words);
      var j := Join(words);
      assert TrimLeft(" " + j) == j by {
        assert (" " + j)[1..] == j;
        TrimLeftNoLeadingSpace(j);
      }
      TrimLeftNoLeadingSpace(j);
    }
  }
}
