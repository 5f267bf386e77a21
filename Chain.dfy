/**
 * The conversation chain returned by `getNewChain`: it fills the prompt template from
 * the caller's question and mood (history always empty), hands the prompt to the
 * language model, and passes the model's raw text through the response extractor.
 * The language model is a parameter: a function from prompt to generated text. So is the
 * system prompt the template carries, which the session fixes to `Prompt.SystemPrompt`;
 * nothing proved here depends on its wording.
 */
module Chain {
  import opened Text
  import opened Extractor
  import opened Prompt

  /** `inputs.get(key, "")`. */
  function Get(inputs: map<string, string>, key: string): string
  {
    if key in inputs then inputs[key] else ""
  }

  /** The values `run_chain` hands on: history empty, question and mood from the inputs,
      each defaulting to the empty text. */
  function ChainValues(inputs: map<string, string>): map<string, string>
  {
    map[HistoryVar := "", QuestionVar := Get(inputs, QuestionVar), MoodVar := Get(inputs, MoodVar)]
  }

  /** The prompt the model receives from a chain whose template carries `systemPrompt`. */
  function ChainPrompt(systemPrompt: string, inputs: map<string, string>): string
  {
    var values := ChainValues(inputs);
    FormatShape(systemPrompt, values);
    Format(TemplateWith(systemPrompt), values).value
  }

  /** `run_chain(inputs)`: generate from the filled prompt, then extract the reply. */
  function RunChain(systemPrompt: string, generate: string -> string, inputs: map<string, string>): string
  {
    Parse(generate(ChainPrompt(systemPrompt, inputs)))
  }

  /** The three slots are always filled: history with the empty text, and question and mood
      with the caller's values or the empty text when the caller leaves them out. */
  lemma ChainValuesDefaults(inputs: map<string, string>)
    ensures ChainValues(inputs).Keys == {HistoryVar, QuestionVar, MoodVar}
    ensures ChainValues(inputs)[HistoryVar] == ""
    ensures ChainValues(inputs)[QuestionVar] == (if QuestionVar in inputs then inputs[QuestionVar] else "")
    ensures ChainValues(inputs)[MoodVar] == (if MoodVar in inputs then inputs[MoodVar] else "")
  {
  }

  /** Any history the caller passes is ignored, and so is every key other than the question
      and the mood. */
  lemma ChainIgnoresOtherKeys(inputs: map<string, string>, key: string, v: string)
    requires key != QuestionVar && key != MoodVar
    ensures ChainValues(inputs[key := v]) == ChainValues(inputs)
  {
    assert Get(inputs[key := v], QuestionVar) == Get(inputs, QuestionVar);
    assert Get(inputs[key := v], MoodVar) == Get(inputs, MoodVar);
  }

  /** Filling the template with the chain's values never fails, and the prompt holds the
      question and the mood in their labelled places with an empty history, between the
      two instruction markers. */
  lemma ChainPromptShape(systemPrompt: string, inputs: map<string, string>)
    ensures Format(TemplateWith(systemPrompt), ChainValues(inputs)).Ok?
    ensures ChainPrompt(systemPrompt, inputs) ==
            BeginInst + InstructionBody(systemPrompt, "", Get(inputs, MoodVar), Get(inputs, QuestionVar)) + EndInst
  {
    FormatShape(systemPrompt, ChainValues(inputs));
  }

  /** Echo stripping: when the model returns the prompt followed by its continuation, and the
      continuation holds no marker, the chain returns the stripped continuation, whatever the
      question, mood or system prompt hold. */
  lemma RunChainEchoed(systemPrompt: string, generate: string -> string, inputs: map<string, string>,
                       continuation: string)
    requires generate(ChainPrompt(systemPrompt, inputs)) == ChainPrompt(systemPrompt, inputs) + continuation
    requires !Contains(continuation, Marker)
    ensures RunChain(systemPrompt, generate, inputs) == Strip(continuation)
  {
    var body := InstructionBody(systemPrompt, "", Get(inputs, MoodVar), Get(inputs, QuestionVar));
    ChainPromptShape(systemPrompt, inputs);
    assert ChainPrompt(systemPrompt, inputs) + continuation == (BeginInst + body) + Marker + continuation;
    ParseAfterMarker(BeginInst + body, continuation);
  }

  /** When the model returns only new text without the marker, the chain returns it stripped. */
  lemma RunChainNotEchoed(systemPrompt: string, generate: string -> string, inputs: map<string, string>)
    requires !Contains(generate(ChainPrompt(systemPrompt, inputs)), Marker)
    ensures RunChain(systemPrompt, generate, inputs) == Strip(generate(ChainPrompt(systemPrompt, inputs)))
  {
    ParseWithoutMarker(generate(ChainPrompt(systemPrompt, inputs)));
  }

  /** Whatever the model returns, the chain's reply is trimmed and holds no marker. */
  lemma RunChainShape(systemPrompt: string, generate: string -> string, inputs: map<string, string>)
    ensures Trimmed(RunChain(systemPrompt, generate, inputs))
    ensures !Contains(RunChain(systemPrompt, generate, inputs), Marker)
  {
    ParseShape(generate(ChainPrompt(systemPrompt, inputs)));
  }
}
