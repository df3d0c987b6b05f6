# Chatbot response core: rule dispatch and the token-acceptance loop

This project is a Dafny model of the response logic in `app.py`, a desktop
chatbot that answers with a sequence-to-sequence network.

- `chatbot_response` first checks the input against the greeting patterns,
  then against the name-question patterns. Each check answers with a canned
  reply drawn at random. Only input that matches neither reaches the network.
- `chat_with_model` looks up the id of `<start>` and encodes the input. It
  then loops: run the decoder, draw a token with temperature sampling, and
  accept or reject the drawn word.
  - A draw is rejected, with nothing changed, when its id has no word or
    its word is among the last three accepted words (`prev_words`).
  - An accepted word enters that three-word window.
  - The loop stops on `<end>`, or when the sentence already holds 58
    words. Otherwise the word is appended to `decoded_sentence`.
  - The loop returns `decoded_sentence.strip()`.

The model has three modules:

- `PyText` (`pytext.dfy`): Python's no-argument `str.split()` and
  `str.strip()` over Python's whitespace characters. It also defines the
  string the loop builds with `+= " " + w`, and a single-space join as an
  independent reference.
- `Decode` (`decode.dfy`): the loop as a state record `DecodeState`. The
  fields are the emitted words, the window, the decoder input id, the decoder
  state and the stop flag.
  - `Step` is one iteration and `Run` folds it over a finite sequence of
    draws.
  - `DecodeLoop` is the loop written imperatively, with the string
    accumulator. It is proved to agree with `Run`.
  - The network and the sampler are an oracle: each `Sample` holds the drawn
    id and the decoder state computed on that iteration.
- `Chatbot` (`chatbot.dfy`): the dispatch, the two canned reply lists, and
  `chat_with_model` with its `<start>` lookup.
  - The pattern checks are parameters (`string -> bool`).
  - The encoder is a parameter (`string -> Hidden`).
  - `random.choice` takes a drawn number.

The source loop can retry rejected draws forever. So every property is
proved for every finite prefix of the draws. A prefix that ends before the
stop condition yields `Reply.Sampling` with the loop's current state.

## Model

| member | source | states |
|---|---|---|
| PyText.Strip | app.py:107 | `strip()` leaves no whitespace at either end, and its result is empty exactly when the input is all whitespace |
| PyText.TrimLeftIsSuffix | app.py:107 | the left trim is a suffix of the input, and all it removed is whitespace |
| PyText.TrimRightIsPrefix | app.py:107 | the right trim is a prefix of the input, and all it removed is whitespace |
| PyText.StripIsInfix | app.py:107 | `strip()` returns a contiguous piece of the input with only whitespace before and after it; together with the end conditions of `Strip` this is exactly Python's `strip()` |
| PyText.Split | app.py:99 | every piece `split()` returns is a non-empty, whitespace-free word; an all-whitespace string splits into nothing |
| PyText.SplitEmptyIffAllSpace | app.py:99 | `split()` returns no words if and only if the string is all whitespace, so any non-whitespace character yields at least one word |
| PyText.SentenceSnoc | app.py:102 | appending `" " + w` to the accumulated sentence gives the sentence of the word list extended by `w` |
| PyText.SplitSentence | app.py:99-102 | `split()` of the accumulated `decoded_sentence` returns exactly the appended words, in order, when each is a whitespace-free non-empty word |
| PyText.StripSentence | app.py:102-107 | `decoded_sentence.strip()` equals the appended words joined by single spaces; no words gives "" |
| PyText.SplitJoin | app.py:107 | splitting the single-space join of words gives the words back |
| Decode.Start | app.py:76-79 | the loop starts unstopped with decoder input the start id, decoder state the encoder's, an empty sentence (`Output` is "") and a state that satisfies the loop invariant for every vocabulary |
| Decode.WordOf | app.py:90 | an id present in `index_word` gives its word; a missing id reads as "" |
| Decode.Slide | app.py:95-97 | the window after a push ends with the new word and is the last three of the old window plus the word: the oldest is evicted first |
| Decode.Step | app.py:90-105 | a draw leaves the state unchanged if and only if its word is empty/missing or in the window; an accepted draw that does not stop the loop appends exactly its word, and one that stops it appends nothing; the end token never enters the output; the window stays within three; an accepted draw becomes the decoder input and its state the decoder state |
| Decode.Output | app.py:107 | the returned text has no whitespace at either end, and for whitespace-free non-empty words it is the words joined by single spaces |
| Decode.StepWindow | app.py:95-97 | an accepted draw, stopping or not, pushes its own word onto the window: the new window is the old one slid by the drawn word, so the last window entry of a stopped loop is the word that stopped it |
| Decode.Run | app.py:82-106 | over any finite prefix of draws the output only grows (the old output is a prefix of the new); once stopped nothing changes |
| Decode.ExtendNoRecentRepeat | app.py:92-97 | a word outside the last three accepted words keeps "no word equals any of the three before it" true |
| Decode.StepValid | app.py:90-105 | one iteration preserves the loop invariant: window within three and equal to the last three accepted words, no near repeats, no end token in the output, output words non-empty vocabulary words, and at most 58 words under a whitespace-free vocabulary |
| Decode.RunValid | app.py:79-105 | the invariant holds after every finite prefix of draws from any valid state |
| Decode.RunAppend | app.py:82-105 | feeding two batches of draws one after the other equals feeding them at once |
| Decode.RunPrefix | app.py:82-105 | the output after a prefix of the draws is a prefix of the output after more draws, and a stopped loop stays as it is |
| Decode.WordCountIsLength | app.py:99 | under a whitespace-free vocabulary the `split()` count the loop tests equals the number of words emitted |
| Decode.DecodeInvariants | app.py:76-105 | from the start state, for every prefix of draws: window of at most three holding the most recent accepted words in order (for a stopped loop the last of these is the stopping word, which `StepWindow` shows is the drawn word Step pushed); each accepted word differs from the up-to-three before it; no end token in the output; output words are non-empty vocabulary words; at most 58 words under a whitespace-free vocabulary |
| Decode.EndTokenStops | app.py:99-100 | accepting `<end>` sets the stop flag, appends nothing and still moves the decoder input |
| Decode.LengthLimit | app.py:81-105 | with 58 words present the next accepted draw stops without being appended; with fewer, an accepted non-end word is appended exactly once and becomes the decoder input |
| Decode.OutputIsJoinedWords | app.py:99-107 | the returned text is the emitted words joined by single spaces; `split()` of it gives the words back, at most 58 of them, none of which is `<end>` |
| Decode.Iterate | app.py:90-105 | one pass of the loop body on the loop's own variables: a rejected draw changes none of them; an accepted one slides `prev_words` by its word and moves the decoder input and state to the draw's; the sentence string grows by `" " + w` or not at all, and not at all when the loop stops; the result is exactly the state `Step` gives |
| Decode.DecodeLoop | app.py:76-107 | the imperative loop with the string accumulator returns the same stop flag and text as `Run`; when it stops it has read exactly the draws up to and including the stopping one (the loop had not stopped one draw earlier), and otherwise all of them |
| Chatbot.Classify | app.py:63-68 | greeting if and only if the greeting check matches; name question if and only if only the name check matches; model path if and only if neither matches |
| Chatbot.Choice | app.py:65-67 | `random.choice` always returns a member of the list, and each index can be drawn |
| Chatbot.ChatWithModel | app.py:71-107 | a missing `<start>` is the KeyError reply; otherwise the reply is the generated text exactly when the loop stopped, and it equals the stripped sentence |
| Chatbot.ChatbotResponse | app.py:63-68 | a greeting wins over a name question; a canned reply comes from its category's fixed list; the model path is taken if and only if neither check matches, with the encoder run on the input |
| Chatbot.CannedRepliesReachable | app.py:10-15 | every greeting reply and every name reply can be the one returned for a matching input |
| Chatbot.GeneratedReplyShape | app.py:63-107 | a generated reply has no whitespace at either end, is the single-space join of its words, has at most 58 words, none of which is `<end>` (whitespace-free vocabulary); a vocabulary word that merely contains `<end>`, such as `a<end>`, can still appear |

## Left out

- Model and tokenizer loading, `pickle`, and building the Keras encoder and decoder graphs (app.py:18-53). These are foreign library calls on opaque files. The encoder is a parameter, and the decoder's output enters only through the draws.
- Softmax with temperature and `np.random.choice` (app.py:83-89). This is floating point and randomness. Each draw is an input `Sample`, so the `temperature` argument has no role in the model.
- The regular expressions and `lower()` in `is_greeting` and `is_name_question` (app.py:56-60). These depend on Python's `re` and Unicode case mapping. Both checks are parameters, and only their precedence is modelled.
- `texts_to_sequences` and `pad_sequences` (app.py:72-73). These are library code. The encoder parameter stands for them together with the encoder.
- The Qt window, the temperature slider, dark mode and the model hot-swap through globals (app.py:110-191). These are UI and global mutable state.
- Termination of the loop. A rejected draw retries with no bound (app.py:92-93), so the model proves properties of every finite prefix of draws instead.
- Decode.DecodeInvariants: the 58-word bound assumes no vocabulary word contains whitespace. A whitespace-only token would be appended without raising the `split()` count, so the bound does not hold for arbitrary `index_word` maps.
- Decode.LengthLimit: this lemma also assumes no vocabulary word contains whitespace.
- Decode.OutputIsJoinedWords: this lemma also assumes no vocabulary word contains whitespace.
- Chatbot.GeneratedReplyShape: this lemma also assumes no vocabulary word contains whitespace.
- Chatbot.Choice: the uniform distribution of `random.choice` is not modelled. A drawn number picks the element.
