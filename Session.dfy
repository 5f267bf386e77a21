/**
 * The page's session: the chat history kept across reruns and the handler of the
 * "Generate Response" button. A press with non-empty input records the user's turn,
 * detects the mood, runs the chain, renders the reply as audio and records the
 * assistant's turn; a press with empty input only shows a notice.
 *
 * The classifier, the language model and the speech synthesiser are parameters. The
 * handler is specified by the pure function `Handle`; the class `Companion` holds the
 * history the handler appends to.
 */
module Session {
  import opened Wrappers
  import opened Text
  import opened Extractor
  import opened Emotion
  import opened Prompt
  import opened Chain

  datatype Role = User | Assistant

  /** One entry of the chat history: `{"role": ..., "content": ...}`. */
  datatype Turn = Turn(role: Role, content: string)

  /** What stops a press half way: the mood lookup, or a name the script never defined. */
  datatype Failure = Lookup(error: LookupError) | NameError(name: string)

  /** What a press shows: the empty-input notice, the reply with its audio file, or the
      exception that ended the run. */
  datatype Outcome = Notice(message: string) | Replied(reply: string, audioFile: string) | Failed(failure: Failure)

  /** The turns one press adds to the history and what it shows. */
  datatype Response = Response(turns: seq<Turn>, outcome: Outcome)

  const EmptyNotice: string := "Please enter a prompt."

  /** `text_to_audio`'s default file name. */
  const AudioFile: string := "response.mp3"

  /** The name `text_to_audio` calls but the script never imports. */
  const SpeechName: string := "gTTS"

  /** `text_to_audio` with the synthesiser imported: it saves the speech and returns the file name. */
  function TextToAudio(text: string): Result<string, Failure>
  {
    Ok(AudioFile)
  }

  /** `text_to_audio` as the script defines it: the synthesiser's name is unbound, so the
      call raises before anything is saved. */
  function TextToAudioAsWritten(text: string): Result<string, Failure>
  {
    Err(NameError(SpeechName))
  }

  /** The inputs the handler passes to the chain. */
  function ChainInputs(question: string, mood: string): map<string, string>
  {
    map[QuestionVar := question, MoodVar := mood]
  }

  /** The mood of the input, then the chain's reply to it. */
  function Reply(systemPrompt: string, classify: string -> string, generate: string -> string,
                 userInput: string): (r: Result<string, Failure>)
    ensures r.Err? <==> classify(userInput) !in Emotions
    ensures r.Err? ==> r.error == Lookup(KeyError(classify(userInput)))
    ensures r.Ok? ==> r.value == RunChain(systemPrompt, generate, ChainInputs(userInput, Emotions[classify(userInput)]))
    ensures r.Ok? ==> Trimmed(r.value) && !Contains(r.value, Marker)
  {
    match PredictEmotion(classify, userInput)
    case Err(e) => Err(Lookup(e))
    case Ok(mood) =>
      RunChainShape(systemPrompt, generate, ChainInputs(userInput, mood));
      Ok(RunChain(systemPrompt, generate, ChainInputs(userInput, mood)))
  }

  /** One press of the button with `userInput` in the text box, given the speech step. */
  function Handle(systemPrompt: string, classify: string -> string, generate: string -> string,
                  speak: string -> Result<string, Failure>, userInput: string): Response
  {
    if userInput == [] then
      Response([], Notice(EmptyNotice))
    else
      var asked := Turn(User, userInput);
      match Reply(systemPrompt, classify, generate, userInput)
      case Err(e) => Response([asked], Failed(e))
      case Ok(reply) =>
        match speak(reply)
        case Err(e) => Response([asked], Failed(e))
        case Ok(file) => Response([asked, Turn(Assistant, reply)], Replied(reply, file))
  }

  /** A history every press keeps: user turns are non-empty, and every assistant turn is a
      trimmed, marker-free reply that directly follows a user turn. */
  ghost predicate WellFormed(history: seq<Turn>)
  {
    (forall i :: 0 <= i < |history| && history[i].role == User ==> history[i].content != []) &&
    (forall i :: 0 <= i < |history| && history[i].role == Assistant ==>
       0 < i && history[i - 1].role == User &&
       Trimmed(history[i].content) && !Contains(history[i].content, Marker))
  }

  /** An empty input adds nothing and shows the notice, whatever the speech step does. */
  lemma HandleEmpty(systemPrompt: string, classify: string -> string, generate: string -> string,
                    speak: string -> Result<string, Failure>)
    ensures Handle(systemPrompt, classify, generate, speak, "") == Response([], Notice(EmptyNotice))
  {
  }

  /** With the synthesiser in place, a non-empty input adds exactly two turns, the input and
      the chain's reply to it with the detected mood, exactly when the classifier's label is
      in the table; otherwise it adds the input alone and fails with the missing label. */
  lemma HandleTurns(systemPrompt: string, classify: string -> string, generate: string -> string,
                    userInput: string)
    requires userInput != []
    ensures var r := Handle(systemPrompt, classify, generate, TextToAudio, userInput);
            (|r.turns| == 2 <==> classify(userInput) in Emotions) &&
            (classify(userInput) in Emotions ==>
               var reply := RunChain(systemPrompt, generate, ChainInputs(userInput, Emotions[classify(userInput)]));
               r.turns == [Turn(User, userInput), Turn(Assistant, reply)] &&
               r.outcome == Replied(reply, AudioFile)) &&
            (classify(userInput) !in Emotions ==>
               r.turns == [Turn(User, userInput)] &&
               r.outcome == Failed(Lookup(KeyError(classify(userInput)))))
  {
  }

  /** As written, no non-empty press ever records a reply: it adds the user's turn alone and
      ends in an exception, the lookup's or the unbound synthesiser's. */
  lemma HandleAsWrittenOrphansInput(systemPrompt: string, classify: string -> string, generate: string -> string,
                                    userInput: string)
    requires userInput != []
    ensures var r := Handle(systemPrompt, classify, generate, TextToAudioAsWritten, userInput);
            r.turns == [Turn(User, userInput)] && r.outcome.Failed? &&
            (classify(userInput) in Emotions ==> r.outcome == Failed(NameError(SpeechName)))
  {
  }

  /** Recording a non-empty input keeps a history well formed. */
  lemma WellFormedAsked(history: seq<Turn>, userInput: string)
    requires WellFormed(history) && userInput != []
    ensures WellFormed(history + [Turn(User, userInput)])
  {
    var h := history + [Turn(User, userInput)];
    forall i | 0 <= i < |h| && h[i].role == Assistant
      ensures 0 < i && h[i - 1].role == User && Trimmed(h[i].content) && !Contains(h[i].content, Marker)
    {
      assert h[i] == history[i] && h[i - 1] == history[i - 1];
    }
  }

  /** Recording a trimmed, marker-free reply right after a user turn keeps a history well formed. */
  lemma WellFormedAnswered(history: seq<Turn>, reply: string)
    requires WellFormed(history) && |history| > 0 && history[|history| - 1].role == User
    requires Trimmed(reply) && !Contains(reply, Marker)
    ensures WellFormed(history + [Turn(Assistant, reply)])
  {
    var h := history + [Turn(Assistant, reply)];
    forall i | 0 <= i < |h| && h[i].role == User ensures h[i].content != [] {
      assert h[i] == history[i];
    }
    forall i | 0 <= i < |h| && h[i].role == Assistant
      ensures 0 < i && h[i - 1].role == User && Trimmed(h[i].content) && !Contains(h[i].content, Marker)
    {
      if i < |history| {
        assert h[i] == history[i] && h[i - 1] == history[i - 1];
      }
    }
  }

  /** What one press can add: nothing, the non-empty input alone, or the input followed by
      a trimmed, marker-free reply. */
  ghost predicate PressTurns(turns: seq<Turn>)
  {
    turns == [] ||
    (|turns| == 1 && turns[0].role == User && turns[0].content != []) ||
    (|turns| == 2 && turns[0].role == User && turns[0].content != [] &&
     turns[1].role == Assistant && Trimmed(turns[1].content) && !Contains(turns[1].content, Marker))
  }

  /** Every press adds turns of that shape, whatever the speech step does. */
  lemma HandleAddsPressTurns(systemPrompt: string, classify: string -> string, generate: string -> string,
                             speak: string -> Result<string, Failure>, userInput: string)
    ensures PressTurns(Handle(systemPrompt, classify, generate, speak, userInput).turns)
  {
    var reply := Reply(systemPrompt, classify, generate, userInput);
    if userInput != [] && reply.Ok? && speak(reply.value).Ok? {
      assert Handle(systemPrompt, classify, generate, speak, userInput).turns[1].content == reply.value;
    }
  }

  /** Adding the turns of one press keeps a history well formed. */
  lemma WellFormedExtended(history: seq<Turn>, turns: seq<Turn>)
    requires WellFormed(history) && PressTurns(turns)
    ensures WellFormed(history + turns)
  {
    if |turns| == 1 {
      WellFormedAsked(history, turns[0].content);
      assert turns == [Turn(User, turns[0].content)];
    } else if |turns| == 2 {
      var asked := history + [Turn(User, turns[0].content)];
      WellFormedAsked(history, turns[0].content);
      WellFormedAnswered(asked, turns[1].content);
      assert asked + [Turn(Assistant, turns[1].content)] == history + turns;
    } else {
      assert history + turns == history;
    }
  }

  /** Every press keeps the history well formed, whatever the speech step does. */
  lemma HandleKeepsWellFormed(history: seq<Turn>, systemPrompt: string, classify: string -> string, generate: string -> string,
                              speak: string -> Result<string, Failure>, userInput: string)
    requires WellFormed(history)
    ensures WellFormed(history + Handle(systemPrompt, classify, generate, speak, userInput).turns)
  {
    HandleAddsPressTurns(systemPrompt, classify, generate, speak, userInput);
    WellFormedExtended(history, Handle(systemPrompt, classify, generate, speak, userInput).turns);
  }

  /** A press whose model echoes the prompt, then a line break and a trimmed, marker-free
      reply: the history gains the request and that reply, without the echoed prompt or the
      line break, and the page shows the reply with its audio file. */
  lemma EchoedPress(systemPrompt: string, classify: string -> string, generate: string -> string, request: string, reply: string)
    requires request != [] && classify(request) in Emotions
    requires var p := ChainPrompt(systemPrompt, ChainInputs(request, Emotions[classify(request)]));
             generate(p) == p + "\n" + reply
    requires '[' !in reply && Trimmed(reply)
    ensures Handle(systemPrompt, classify, generate, TextToAudio, request) ==
            Response([Turn(User, request), Turn(Assistant, reply)], Replied(reply, AudioFile))
  {
    var mood := Emotions[classify(request)];
    var p := ChainPrompt(systemPrompt, ChainInputs(request, mood));
    assert p + "\n" + reply == p + ("\n" + reply);
    BrokenLineContinuation(reply);
    RunChainEchoed(systemPrompt, generate, ChainInputs(request, mood), "\n" + reply);
    assert PredictEmotion(classify, request) == Ok(mood);
    assert Reply(systemPrompt, classify, generate, request) == Ok(reply);
  }

  /** A line break before a trimmed text without `[`: no marker, and it strips to the text. */
  lemma BrokenLineContinuation(reply: string)
    requires '[' !in reply && Trimmed(reply)
    ensures !Contains("\n" + reply, Marker)
    ensures Strip("\n" + reply) == reply
  {
    var continuation := "\n" + reply;
    forall i | 0 <= i < |continuation| ensures continuation[i] != '[' {
      if i > 0 { assert continuation[i] == reply[i - 1]; }
    }
    NoBracketNoMarker(continuation);
    assert continuation == ['\n'] + reply;
    StripLeadingSpace('\n', reply);
    StripTrimmed(reply);
  }

  /** The page's session state: the chat history, and the mood classifier, language model
      and system prompt the chain was built with. */
  class Companion {
    var history: seq<Turn>
    const systemPrompt: string
    const classify: string -> string
    const generate: string -> string

    ghost predicate Valid()
      reads this
    {
      WellFormed(history)
    }

    /** The first run of the page: a new chain and an empty history. The script's chain
        carries `Prompt.SystemPrompt`. */
    constructor (systemPrompt: string, classify: string -> string, generate: string -> string)
      ensures this.systemPrompt == systemPrompt && this.classify == classify && this.generate == generate
      ensures history == []
      ensures Valid()
    {
      this.systemPrompt := systemPrompt;
      this.classify := classify;
      this.generate := generate;
      history := [];
    }

    /** A press of the button, with the speech synthesiser in place. */
    method Submit(userInput: string) returns (outcome: Outcome)
      requires Valid()
      modifies this
      ensures Valid()
      ensures history == old(history) + Handle(systemPrompt, classify, generate, TextToAudio, userInput).turns
      ensures outcome == Handle(systemPrompt, classify, generate, TextToAudio, userInput).outcome
    {
      HandleKeepsWellFormed(history, systemPrompt, classify, generate, TextToAudio, userInput);
      outcome := Press(userInput, TextToAudio);
    }

    /** A press of the button as the script runs it: the synthesiser's name is unbound. */
    method SubmitAsWritten(userInput: string) returns (outcome: Outcome)
      requires Valid()
      modifies this
      ensures Valid()
      ensures history == old(history) + Handle(systemPrompt, classify, generate, TextToAudioAsWritten, userInput).turns
      ensures outcome == Handle(systemPrompt, classify, generate, TextToAudioAsWritten, userInput).outcome
    {
      HandleKeepsWellFormed(history, systemPrompt, classify, generate, TextToAudioAsWritten, userInput);
      outcome := Press(userInput, TextToAudioAsWritten);
    }

    /** The handler's steps in order: record the input, detect the mood, run the chain,
        render the audio, record the reply. An exception leaves the turns recorded so far. */
    method Press(userInput: string, speak: string -> Result<string, Failure>) returns (outcome: Outcome)
      modifies this
      ensures history == old(history) + Handle(systemPrompt, classify, generate, speak, userInput).turns
      ensures outcome == Handle(systemPrompt, classify, generate, speak, userInput).outcome
    {
      if userInput == [] {
        return Notice(EmptyNotice);
      }
      history := history + [Turn(User, userInput)];
      var mood := PredictEmotion(classify, userInput);
      if mood.Err? {
        return Failed(Lookup(mood.error));
      }
      var response := RunChain(systemPrompt, generate, ChainInputs(userInput, mood.value));
      var audio := speak(response);
      if audio.Err? {
        return Failed(audio.error);
      }
      history := history + [Turn(Assistant, response)];
      outcome := Replied(response, audio.value);
    }
  }
}
