/** `chatbot_response`: the rule layer for greetings and name questions in
    front of the sampled decoder. The pattern matchers `is_greeting` and
    `is_name_question` are taken as given predicates on the input text, the
    encoder as a given function from text to its final state, and
    `random.choice` as a drawn index. */
module Chatbot {
  import opened PyText
  import opened Decode

  const GreetingResponses: seq<string> :=
    ["안녕하세요! 😊", "반갑습니다!", "안녕! 좋은 하루 보내!", "하이~ 뭐 도와줄까?"]

  const NameResponses: seq<string> :=
    ["내 이름은 마음이야!", "난 챗봇 마음이야, 반가워!", "마음이라고 불러줘! 😊"]

  /** Which branch of `chatbot_response` the input takes. */
  datatype Intent = Greeting | NameQuestion | Open

  /** What a call produces, given a finite prefix of the decoder's draws. */
  datatype Reply =
    | Canned(intent: Intent, text: string)
      /** the decode loop set its stop condition; `text` is its return value */
    | Generated(text: string)
      /** the draws ran out before the stop condition: the loop is still going */
    | Sampling(state: DecodeState)
      /** `word_index["<start>"]` raised KeyError */
    | MissingStartToken

  /** The `if`/`elif` of `chatbot_response`: greetings are checked first. */
  function Classify(text: string, isGreeting: string -> bool, isNameQuestion: string -> bool): (i: Intent)
    ensures i == Greeting <==> isGreeting(text)
    ensures i == NameQuestion <==> !isGreeting(text) && isNameQuestion(text)
    ensures i == Open <==> !isGreeting(text) && !isNameQuestion(text)
  {
    if isGreeting(text) then Greeting
    else if isNameQuestion(text) then NameQuestion
    else Open
  }

  /** `random.choice(options)` with the drawn number `pick`: always one of
      the options, and every option is drawn by some `pick`. */
  function Choice(options: seq<string>, pick: nat): (r: string)
    requires options != []
    ensures r in options
    ensures pick < |options| ==> r == options[pick]
  {
    options[pick % |options|]
  }

  /** `chat_with_model`: look up the start token, then run the loop over the
      given draws starting from the encoder's state. */
  function ChatWithModel(
    wordIndex: map<string, int>, indexWord: map<int, string>,
    encoderState: Hidden, samples: seq<Sample>): (r: Reply)
    ensures !r.Canned?
    ensures r.MissingStartToken? <==> StartToken !in wordIndex
    ensures StartToken in wordIndex ==>
      var s := Run(indexWord, Start(wordIndex[StartToken], encoderState), samples);
      && (r.Generated? <==> s.stopped)
      && (r.Generated? ==> r.text == Output(s))
      && (r.Sampling? ==> r.state == s)
  {
    if StartToken !in wordIndex then MissingStartToken
    else
      var s := Run(indexWord, Start(wordIndex[StartToken], encoderState), samples);
      if s.stopped then Generated(Output(s)) else Sampling(s)
  }

  /** `chatbot_response(user_input)`: a greeting gets a canned greeting, else
      a name question gets a canned introduction, and only an input matching
      neither reaches the model, with the encoder run on that input. */
  function ChatbotResponse(
    text: string, isGreeting: string -> bool, isNameQuestion: string -> bool, pick: nat,
    encoder: string -> Hidden, wordIndex: map<string, int>, indexWord: map<int, string>,
    samples: seq<Sample>): (r: Reply)
    ensures isGreeting(text) ==> r.Canned? && r.intent == Greeting && r.text in GreetingResponses
    ensures !isGreeting(text) && isNameQuestion(text) ==>
      r.Canned? && r.intent == NameQuestion && r.text in NameResponses
    ensures r.Canned? <==> isGreeting(text) || isNameQuestion(text)
    ensures !r.Canned? ==> r == ChatWithModel(wordIndex, indexWord, encoder(text), samples)
  {
    match Classify(text, isGreeting, isNameQuestion)
    case Greeting => Canned(Greeting, Choice(GreetingResponses, pick))
    case NameQuestion => Canned(NameQuestion, Choice(NameResponses, pick))
    case Open => ChatWithModel(wordIndex, indexWord, encoder(text), samples)
  }

  /** Every canned reply of a category can be the one returned. */
  lemma CannedRepliesReachable(
    text: string, isGreeting: string -> bool, isNameQuestion: string -> bool,
    encoder: string -> Hidden, wordIndex: map<string, int>, indexWord: map<int, string>,
    samples: seq<Sample>, reply: string)
    ensures isGreeting(text) && reply in GreetingResponses ==>
      exists pick: nat :: ChatbotResponse(text, isGreeting, isNameQuestion, pick, encoder, wordIndex, indexWord, samples)
        == Canned(Greeting, reply)
    ensures !isGreeting(text) && isNameQuestion(text) && reply in NameResponses ==>
      exists pick: nat :: ChatbotResponse(text, isGreeting, isNameQuestion, pick, encoder, wordIndex, indexWord, samples)
        == Canned(NameQuestion, reply)
  {
    if isGreeting(text) && reply in GreetingResponses {
      var k :| 0 <= k < |GreetingResponses| && GreetingResponses[k] == reply;
      assert ChatbotResponse(text, isGreeting, isNameQuestion, k, encoder, wordIndex, indexWord, samples)
        == Canned(Greeting, reply);
    }
    if !isGreeting(text) && isNameQuestion(text) && reply in NameResponses {
      var k :| 0 <= k < |NameResponses| && NameResponses[k] == reply;
      assert ChatbotResponse(text, isGreeting, isNameQuestion, k, encoder, wordIndex, indexWord, samples)
        == Canned(NameQuestion, reply);
    }
  }

  /** A model reply is the decoded words joined by single spaces with no
      whitespace at either end; under a well-formed vocabulary it has at most
      58 words and none of its words is the end token. */
  lemma GeneratedReplyShape(
    text: string, isGreeting: string -> bool, isNameQuestion: string -> bool, pick: nat,
    encoder: string -> Hidden, wordIndex: map<string, int>, indexWord: map<int, string>,
    samples: seq<Sample>)
    requires WellFormedVocabulary(indexWord)
    ensures var r := ChatbotResponse(text, isGreeting, isNameQuestion, pick, encoder, wordIndex, indexWord, samples);
      r.Generated? ==>
        && (r.text == [] || (!IsSpace(r.text[0]) && !IsSpace(r.text[|r.text| - 1])))
        && |Split(r.text)| <= MaxOutputLength
        && EndToken !in Split(r.text)
        && r.text == Join(Split(r.text))
  {
    var r := ChatbotResponse(text, isGreeting, isNameQuestion, pick, encoder, wordIndex, indexWord, samples);
    if r.Generated? {
      var s := Run(indexWord, Start(wordIndex[StartToken], encoder(text)), samples);
      RunValid(indexWord, Start(wordIndex[StartToken], encoder(text)), samples);
      OutputIsJoinedWords(indexWord, s);
    }
  }
}
