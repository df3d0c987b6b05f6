/** The token-acceptance loop of `chat_with_model`. The decoder network and
    the temperature sampler are an oracle: each iteration of the loop hands
    the model one `Sample`, the drawn token id together with the hidden state
    the decoder produced on that iteration. */
module Decode {
  import opened PyText

  const StartToken: string := "<start>"
  const EndToken: string := "<end>"
  /** `max_output_length` */
  const MaxOutputLength: nat := 58
  /** Length of `prev_words`, the recent-word window. */
  const WindowSize: nat := 3

  /** The decoder's GRU state (a vector of 136 floats); only ever passed along. */
  type Hidden = seq<real>

  /** One draw of the loop: the sampled token index and the decoder state `h`
      computed on that iteration. */
  datatype Sample = Sample(id: int, hidden: Hidden)

  /** The loop's variables: the words appended to `decoded_sentence`, the
      window `prev_words`, the decoder input `target_seq`, the decoder state
      `state_h`, and `stop_condition`. */
  datatype DecodeState = DecodeState(
    words: seq<string>,
    window: seq<string>,
    lastId: int,
    hidden: Hidden,
    stopped: bool)

  /** The state before the first draw: nothing emitted, decoder input is the
      start token's id and decoder state is the encoder's. */
  function Start(startId: int, encoderState: Hidden): (r: DecodeState)
    ensures forall indexWord: map<int, string> :: Valid(indexWord, r)
    ensures Output(r) == "" && !r.stopped
    ensures r.lastId == startId && r.hidden == encoderState
  {
    DecodeState([], [], startId, encoderState, false)
  }

  /** `index_word.get(id, "")`: an id outside the vocabulary reads as "". */
  function WordOf(indexWord: map<int, string>, id: int): (w: string)
    ensures w != "" ==> id in indexWord && w in indexWord.Values
    ensures id !in indexWord ==> w == ""
    ensures id in indexWord ==> w == indexWord[id]
  {
    if id in indexWord then indexWord[id] else ""
  }

  /** A draw the loop discards with `continue`: empty word or a recent repeat. */
  predicate Rejects(indexWord: map<int, string>, s: DecodeState, id: int) {
    var w := WordOf(indexWord, id);
    w == "" || w in s.window
  }

  /** The last `n` elements of `xs` (all of them if there are fewer). */
  function LastN<T>(xs: seq<T>, n: nat): (r: seq<T>)
    ensures |r| == if |xs| <= n then |xs| else n
    ensures forall k :: 0 <= k < |r| ==> r[k] == xs[|xs| - |r| + k]
  {
    if |xs| <= n then xs else xs[|xs| - n..]
  }

  /** `prev_words.append(w)` followed by `pop(0)` when longer than three. */
  function Slide(window: seq<string>, w: string): (r: seq<string>)
    ensures r != [] && r[|r| - 1] == w
    ensures |window| <= WindowSize ==> r == LastN(window + [w], WindowSize)
  {
    var pushed := window + [w];
    if |pushed| > WindowSize then pushed[1..] else pushed
  }

  /** The `split()` length of `decoded_sentence`, which the loop compares
      with `max_output_length`. */
  function SentenceWordCount(words: seq<string>): nat {
    |Split(Sentence(words))|
  }

  /** One iteration of the `while not stop_condition` loop. A rejected draw
      leaves every variable as it was; an accepted draw slides the window,
      moves the decoder input and state to the draw's, and either stops (end
      token, or the sentence already at the length limit) or appends the word. */
  function Step(indexWord: map<int, string>, s: DecodeState, x: Sample): (r: DecodeState)
    requires !s.stopped
    ensures r == s <==> Rejects(indexWord, s, x.id)
    ensures r.words == s.words || r.words == s.words + [WordOf(indexWord, x.id)]
    ensures EndToken !in s.words ==> EndToken !in r.words
    ensures |s.window| <= WindowSize ==> |r.window| <= WindowSize
    ensures !Rejects(indexWord, s, x.id) ==> r.lastId == x.id && r.hidden == x.hidden
    ensures !Rejects(indexWord, s, x.id) && !r.stopped ==> r.words == s.words + [WordOf(indexWord, x.id)]
    ensures r.stopped ==> r.words == s.words
  {
    var w := WordOf(indexWord, x.id);
    if w == "" || w in s.window then s
    else
      var window := Slide(s.window, w);
      if w == EndToken || SentenceWordCount(s.words) >= MaxOutputLength then
        s.(window := window, lastId := x.id, hidden := x.hidden, stopped := true)
      else
        s.(words := s.words + [w], window := window, lastId := x.id, hidden := x.hidden)
  }

  /** An accepted draw pushes its own word onto the window, whether it then
      stops the loop or is appended (`prev_words.append` runs on both paths). */
  lemma StepWindow(indexWord: map<int, string>, s: DecodeState, x: Sample)
    requires !s.stopped && !Rejects(indexWord, s, x.id)
    ensures Step(indexWord, s, x).window == Slide(s.window, WordOf(indexWord, x.id))
  {
  }

  /** The loop over a finite prefix of the draws: it stops consuming once the
      stop condition is set. The output only ever grows. */
  function Run(indexWord: map<int, string>, s: DecodeState, samples: seq<Sample>): (r: DecodeState)
    ensures |s.words| <= |r.words| && r.words[..|s.words|] == s.words
    ensures s.stopped ==> r == s
    ensures EndToken !in s.words ==> EndToken !in r.words
    decreases |samples|
  {
    if s.stopped || samples == [] then s
    else
      var t := Step(indexWord, s, samples[0]);
      var r := Run(indexWord, t, samples[1..]);
      assert r.words[..|s.words|] == r.words[..|t.words|][..|s.words|];
      r
  }

  /** Text returned by `chat_with_model`: `decoded_sentence.strip()`. */
  function Output(s: DecodeState): (r: string)
    ensures r == [] || (!IsSpace(r[0]) && !IsSpace(r[|r| - 1]))
    ensures AllWords(s.words) ==> r == Join(s.words)
  {
    var r := Strip(Sentence(s.words));
    assert AllWords(s.words) ==> r == Join(s.words) by {
      if AllWords(s.words) {
        StripSentence(s.words);
      }
    }
    r
  }

  /** Every word the loop has accepted, in order: the output, followed by
      the word that set the stop condition when there is one (it entered the
      window but not the sentence, and `StepWindow` shows it is the last
      window entry). */
  function Accepted(s: DecodeState): seq<string> {
    if s.stopped && s.window != [] then s.words + [s.window[|s.window| - 1]] else s.words
  }

  /** Each word differs from every one of the up-to-three words before it. */
  ghost predicate NoRecentRepeat(words: seq<string>) {
    forall i, j :: 0 <= j < i < |words| && i - j <= WindowSize ==> words[i] != words[j]
  }

  /** The tokenizer's words never contain whitespace, so `split()` counts
      exactly the words appended. */
  ghost predicate WellFormedVocabulary(indexWord: map<int, string>) {
    forall w :: w in indexWord.Values ==> NoSpace(w)
  }

  /** What holds of every state the loop reaches. */
  ghost predicate Valid(indexWord: map<int, string>, s: DecodeState) {
    && |s.window| <= WindowSize
    && (s.stopped ==> s.window != [])
    && s.window == LastN(Accepted(s), WindowSize)
    && NoRecentRepeat(Accepted(s))
    && EndToken !in s.words
    && (forall i :: 0 <= i < |s.words| ==> s.words[i] != "" && s.words[i] in indexWord.Values)
    && (WellFormedVocabulary(indexWord) ==> |s.words| <= MaxOutputLength)
  }

  /** Under a well-formed vocabulary the emitted words are `split()` words. */
  lemma EmittedAreWords(indexWord: map<int, string>, s: DecodeState)
    requires Valid(indexWord, s) && WellFormedVocabulary(indexWord)
    ensures AllWords(s.words)
  {
    forall i | 0 <= i < |s.words|
      ensures IsWord(s.words[i])
    {
      assert s.words[i] in indexWord.Values;
    }
  }

  /** Under a well-formed vocabulary the loop's `split()` count is the number
      of words emitted. */
  lemma WordCountIsLength(indexWord: map<int, string>, s: DecodeState)
    requires Valid(indexWord, s) && WellFormedVocabulary(indexWord)
    ensures SentenceWordCount(s.words) == |s.words|
  {
    EmittedAreWords(indexWord, s);
    SplitSentence(s.words);
  }

  /** Sliding the last `n` and then taking the last `n` again is the same as
      taking the last `n` of the longer list. */
  lemma LastNSnoc<T>(xs: seq<T>, x: T, n: nat)
    requires n > 0
    ensures LastN(LastN(xs, n) + [x], n) == LastN(xs + [x], n)
  {
  }

  /** A word accepted after `words` differs from the last three of them. */
  lemma ExtendNoRecentRepeat(words: seq<string>, w: string)
    requires NoRecentRepeat(words)
    requires w !in LastN(words, WindowSize)
    ensures NoRecentRepeat(words + [w])
  {
    var ws := words + [w];
    forall i, j | 0 <= j < i < |ws| && i - j <= WindowSize
      ensures ws[i] != ws[j]
    {
      if i == |words| {
        var l := LastN(words, WindowSize);
        assert l[j - (|words| - |l|)] == words[j];
      }
    }
  }

  lemma StepValid(indexWord: map<int, string>, s: DecodeState, x: Sample)
    requires !s.stopped && Valid(indexWord, s)
    ensures Valid(indexWord, Step(indexWord, s, x))
  {
    var w := WordOf(indexWord, x.id);
    if !(w == "" || w in s.window) {
      var r := Step(indexWord, s, x);
      var window := Slide(s.window, w);
      assert r.window == window;
      assert s.window == LastN(s.words, WindowSize);
      LastNSnoc(s.words, w, WindowSize);
      assert window == LastN(s.words + [w], WindowSize);
      ExtendNoRecentRepeat(s.words, w);
      assert Accepted(r) == s.words + [w];
      if r.stopped {
        assert r.words == s.words;
      } else {
        assert r.words == s.words + [w];
        assert forall i :: 0 <= i < |r.words| ==> r.words[i] != "" && r.words[i] in indexWord.Values;
        if WellFormedVocabulary(indexWord) {
          WordCountIsLength(indexWord, s);
          assert |s.words| < MaxOutputLength;
        }
      }
    }
  }

  /** Every state reachable from a valid one, for every finite prefix of
      draws, is valid. */
  lemma {:induction false} RunValid(indexWord: map<int, string>, s: DecodeState, samples: seq<Sample>)
    requires Valid(indexWord, s)
    ensures Valid(indexWord, Run(indexWord, s, samples))
    decreases |samples|
  {
    if !s.stopped && samples != [] {
      StepValid(indexWord, s, samples[0]);
      RunValid(indexWord, Step(indexWord, s, samples[0]), samples[1..]);
    }
  }

  /** Feeding draws in two batches is feeding them all at once. */
  lemma {:induction false} RunAppend(indexWord: map<int, string>, s: DecodeState, a: seq<Sample>, b: seq<Sample>)
    ensures Run(indexWord, s, a + b) == Run(indexWord, Run(indexWord, s, a), b)
    decreases |a|
  {
    if a != [] && !s.stopped {
      assert (a + b)[1..] == a[1..] + b;
      RunAppend(indexWord, Step(indexWord, s, a[0]), a[1..], b);
    } else if a == [] {
      assert a + b == b;
    }
  }

  /** The output after a prefix of the draws is a prefix of the output after
      more draws, and once stopped nothing changes any more. */
  lemma RunPrefix(indexWord: map<int, string>, s: DecodeState, a: seq<Sample>, b: seq<Sample>)
    ensures var p, q := Run(indexWord, s, a), Run(indexWord, s, a + b);
      |p.words| <= |q.words| && q.words[..|p.words|] == p.words && (p.stopped ==> q == p)
  {
    RunAppend(indexWord, s, a, b);
  }

  /** The properties of the loop for every finite prefix of draws. */
  lemma {:induction false} DecodeInvariants(indexWord: map<int, string>, startId: int, encoderState: Hidden, samples: seq<Sample>)
    ensures var r := Run(indexWord, Start(startId, encoderState), samples);
      && |r.window| <= WindowSize
      && r.window == LastN(Accepted(r), WindowSize)
      && NoRecentRepeat(Accepted(r))
      && EndToken !in r.words
      && (forall i :: 0 <= i < |r.words| ==> r.words[i] != "" && r.words[i] in indexWord.Values)
      && (WellFormedVocabulary(indexWord) ==> |r.words| <= MaxOutputLength)
  {
    RunValid(indexWord, Start(startId, encoderState), samples);
  }

  /** Accepting the end token sets the stop condition and emits nothing. */
  lemma EndTokenStops(indexWord: map<int, string>, s: DecodeState, x: Sample)
    requires !s.stopped && Valid(indexWord, s)
    requires WordOf(indexWord, x.id) == EndToken
    ensures var r := Step(indexWord, s, x);
      r.stopped && r.words == s.words && r.lastId == x.id
  {
    assert EndToken !in s.window by {
      assert s.window == LastN(s.words, WindowSize);
    }
  }

  /** With 58 words already emitted, the next accepted draw stops the loop
      without being appended; before that an accepted non-end word is
      appended and becomes the decoder input. */
  lemma LengthLimit(indexWord: map<int, string>, s: DecodeState, x: Sample)
    requires !s.stopped && Valid(indexWord, s) && WellFormedVocabulary(indexWord)
    requires !Rejects(indexWord, s, x.id)
    ensures var r := Step(indexWord, s, x);
      && (|s.words| == MaxOutputLength ==> r.stopped && r.words == s.words)
      && (|s.words| < MaxOutputLength && WordOf(indexWord, x.id) != EndToken ==>
            !r.stopped && r.words == s.words + [WordOf(indexWord, x.id)] && r.lastId == x.id)
  {
    WordCountIsLength(indexWord, s);
  }

  /** The returned text is the emitted words joined by single spaces; under
      a well-formed vocabulary `split()` gives them back, so it has at most 58
      words, none of them equal to the end token. */
  lemma OutputIsJoinedWords(indexWord: map<int, string>, s: DecodeState)
    requires Valid(indexWord, s) && WellFormedVocabulary(indexWord)
    ensures Output(s) == Join(s.words)
    ensures Split(Output(s)) == s.words
    ensures |Split(Output(s))| <= MaxOutputLength
    ensures EndToken !in Split(Output(s))
  {
    EmittedAreWords(indexWord, s);
    StripSentence(s.words);
    SplitJoin(s.words);
  }

  /** One pass of the loop body as written, on the loop's own variables:
      `continue` on a rejected draw, otherwise push onto `prev_words`, then
      stop or append `" " + w` to the sentence string, and move the decoder
      input and state. It agrees with `Step`. */
  method Iterate(
    indexWord: map<int, string>, sentence: string, prevWords: seq<string>,
    target: int, h: Hidden, x: Sample, ghost words: seq<string>)
    returns (sentence': string, prevWords': seq<string>, target': int, h': Hidden,
             stopped: bool, ghost words': seq<string>)
    requires sentence == Sentence(words)
    ensures Rejects(indexWord, DecodeState(words, prevWords, target, h, false), x.id) ==>
      sentence' == sentence && prevWords' == prevWords && target' == target && h' == h && !stopped
    ensures !Rejects(indexWord, DecodeState(words, prevWords, target, h, false), x.id) ==>
      prevWords' == Slide(prevWords, WordOf(indexWord, x.id)) && target' == x.id && h' == x.hidden
    ensures stopped ==> sentence' == sentence
    ensures sentence' == sentence || sentence' == sentence + " " + WordOf(indexWord, x.id)
    ensures sentence' == Sentence(words')
    ensures DecodeState(words', prevWords', target', h', stopped)
         == Step(indexWord, DecodeState(words, prevWords, target, h, false), x)
  {
    sentence', prevWords', target', h', stopped, words' := sentence, prevWords, target, h, false, words;
    var w := if x.id in indexWord then indexWord[x.id] else "";
    assert w == WordOf(indexWord, x.id);
    if w == "" || w in prevWords {
      return;
    }
    prevWords' := prevWords + [w];
    if |prevWords'| > WindowSize {
      prevWords' := prevWords'[1..];
    }
    assert prevWords' == Slide(prevWords, w);
    assert |Split(sentence)| == SentenceWordCount(words);
    if w == EndToken || |Split(sentence)| >= MaxOutputLength {
      stopped := true;
    } else {
      SentenceSnoc(words, w);
      sentence' := sentence + " " + w;
      words' := words + [w];
    }
    target' := x.id;
    h' := x.hidden;
  }

  /** The loop as written, over a finite prefix of the draws: accumulates the
      string `decoded_sentence` with `+=` and checks its `split()` length. It
      agrees with `Run`; `consumed` is how many draws it read. */
  method DecodeLoop(indexWord: map<int, string>, startId: int, encoderState: Hidden, samples: seq<Sample>)
    returns (text: string, stopped: bool, consumed: nat)
    ensures consumed <= |samples|
    ensures var r := Run(indexWord, Start(startId, encoderState), samples);
      stopped == r.stopped && text == Output(r)
    ensures stopped ==> Run(indexWord, Start(startId, encoderState), samples[..consumed]).stopped
    ensures stopped ==> 0 < consumed && !Run(indexWord, Start(startId, encoderState), samples[..consumed - 1]).stopped
    ensures !stopped ==> consumed == |samples|
  {
    var sentence := "";
    var prevWords: seq<string> := [];
    var target := startId;
    var h := encoderState;
    ghost var words: seq<string> := [];
    ghost var start := Start(startId, encoderState);
    stopped := false;
    consumed := 0;
    while !stopped && consumed < |samples|
      invariant consumed <= |samples|
      invariant sentence == Sentence(words)
      invariant Run(indexWord, start, samples[..consumed]) == DecodeState(words, prevWords, target, h, stopped)
      invariant stopped ==> 0 < consumed && !Run(indexWord, start, samples[..consumed - 1]).stopped
      decreases |samples| - consumed
    {
      ghost var before := DecodeState(words, prevWords, target, h, stopped);
      var x := samples[consumed];
      assert samples[..consumed + 1] == samples[..consumed] + [x];
      RunAppend(indexWord, start, samples[..consumed], [x]);
      assert Run(indexWord, before, [x]) == Step(indexWord, before, x);
      sentence, prevWords, target, h, stopped, words := Iterate(indexWord, sentence, prevWords, target, h, x, words);
      consumed := consumed + 1;
    }
    assert samples == samples[..consumed] + samples[consumed..];
    RunAppend(indexWord, start, samples[..consumed], samples[consumed..]);
    text := Strip(sentence);
  }
}
