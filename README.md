# AI Companion: a verified model of the prompt and reply pipeline

The AI Companion is a single-page Streamlit assistant that answers with stories, recipes
and poems. When the user presses "Generate Response", the page:

1. records the user's text in the chat history;
2. classifies the text into one of nine moods;
3. fills a Llama-2 chat template with the question and the mood;
4. runs the language model;
5. cuts the reply out of the model's raw output: everything after the last `[/INST]`, stripped;
6. turns the reply into speech and records it as the assistant's turn.

This project models that pipeline in Dafny and proves its properties. It has six modules:

- `Text` (`Text.dfy`): the Python string operations the script relies on.
  - `str.strip()`, using Python's white-space set.
  - `str.split(sep)` and `sep.join`.
  - A right-to-left search, `AfterLast`. It serves as an independent reference for "the text after the last separator".
- `Extractor` (`Extractor.dfy`): `CustomOutputParser.parse`.
- `Prompt` (`Prompt.dfy`): the template `getPromptFromTemplate` builds.
  - The template is a sequence of literal segments and named slots.
  - It comes with LangChain's filling step, `Format`, which reports the first missing variable.
  - The system prompt is kept verbatim.
- `Emotion` (`Emotion.dfy`): the label table and `predict_emotion`'s lookup.
  - A label missing from the table is a `KeyError`, not a default mood.
- `Chain` (`Chain.dfy`): the `run_chain` closure of `getNewChain`.
  - The history slot is always empty.
  - The question and the mood default to the empty text.
  - The model's output goes through the extractor.
- `Session` (`Session.dfy`): the session state and the button handler.
  - The pure function `Handle` specifies one press.
  - The class `Companion` holds the history. Its methods append to it step by step, in the handler's order.
  - Every press keeps the history well formed: user turns are non-empty, and every assistant turn is a trimmed, marker-free reply that directly follows a user turn.

`Wrappers.dfy` holds the `Option` and `Result` types.

External components are parameters of the model:

- The mood classifier is a function from text to label.
- The language model is a function from prompt to generated text.
- The speech step is a function from text to a file name or a failure.

The chain takes its system prompt as a parameter. The session's constructor receives it; the script passes `Prompt.SystemPrompt`. No proof depends on the wording of that text.

Two behaviours of the code as written are kept as they are:

- `run_chain` passes an empty history on every call, and the model keeps it empty (see `Chain.ChainValuesDefaults`).
- `text_to_audio` raises `NameError` as written; see Findings.

## Model

| member | source | states |
|---|---|---|
| Text.StripShape | ai-companion.py:109 | what `strip()` returns neither starts nor ends with white space, and it is empty exactly when the text is all white space |
| Text.StripIsSlice | ai-companion.py:109 | `strip()` keeps one contiguous slice of the text, with only white space before and after it |
| Text.StripTrimmed | ai-companion.py:109 | text that is already trimmed is returned unchanged |
| Text.StripIdempotent | ai-companion.py:109 | stripping twice is stripping once |
| Text.StripLeadingSpace | ai-companion.py:109 | a leading white-space character does not change what `strip()` returns |
| Text.IndexOf | ai-companion.py:109 | the search used by `split` returns the first occurrence at or after the start, and no earlier one exists |
| Text.LastIndexOf | ai-companion.py:109 | the right-to-left search finds no occurrence exactly when there is none, and otherwise finds the last one |
| Text.AfterLast | ai-companion.py:109 | the reference definition is a suffix of the text: what follows the last separator, or the whole text when there is none |
| Text.AfterLastAvoids | ai-companion.py:109 | what follows the last separator never contains the separator |
| Text.AfterLastAppend | ai-companion.py:109 | for a separator that cannot overlap itself, the text after `x + sep + y` is `y` when `y` has no separator, whatever `x` holds |
| Text.Split | ai-companion.py:109 | `split` always yields at least one piece, and no piece contains the separator |
| Text.SplitJoin | ai-companion.py:109 | joining the pieces of a split with the same separator gives back the original text |
| Text.LastPieceIsAfterLast | ai-companion.py:109 | for a separator that cannot overlap itself, the last piece of the left-to-right split equals the right-to-left reference `AfterLast` |
| Extractor.MarkerNoSelfOverlap | ai-companion.py:109 | the `[/INST]` marker cannot overlap itself |
| Extractor.ParseIsStrippedAfterLast | ai-companion.py:106-109 | `parse` returns the stripped text after the last `[/INST]` |
| Extractor.ParseShape | ai-companion.py:106-109 | `parse`'s output never contains `[/INST]` and is trimmed |
| Extractor.ParseWithoutMarker | ai-companion.py:106-109 | an input without the marker comes back stripped and does not fail |
| Extractor.ParseAfterMarker | ai-companion.py:106-109 | `parse(x + "[/INST]" + y) == strip(y)` for any `x` and any `y` without the marker |
| Extractor.ParseIdempotent | ai-companion.py:106-109 | `parse(parse(x)) == parse(x)` |
| Extractor.ParseOfParsedThenMarker | ai-companion.py:106-109 | `parse(parse(x) + "[/INST]" + y) == strip(y)` for any `y` without the marker |
| Extractor.NoBracketNoMarker | ai-companion.py:109 | a text without `[` cannot contain the marker |
| Extractor.ParseNoMarkerExample | ai-companion.py:106-109 | the plain input "no marker here" comes back unchanged |
| Prompt.SlotsAreSlotPieces | ai-companion.py:86-87 | the slot names of a template are exactly the names of its slot segments |
| Prompt.FormatSucceeds | ai-companion.py:86-87 | filling succeeds exactly when every slot has a value; a failure names a slot without one |
| Prompt.SlotsAppend | ai-companion.py:86 | the slots of a concatenated template are those of the first part, then those of the second |
| Prompt.FormatAppend | ai-companion.py:86 | filling a concatenated template succeeds exactly when both parts fill, and gives the two fillings joined |
| Prompt.FormatLit | ai-companion.py:77-79 | a literal segment fills to its own text |
| Prompt.FormatLabelled | ai-companion.py:81-84 | a label followed by a slot fills to the label and the slot's value, or fails with that slot |
| Prompt.FormatWithPlaceholders | ai-companion.py:86-87 | filling each slot with its own `{name}` placeholder gives back the template text |
| Prompt.TemplateSlots | ai-companion.py:81-87 | the template's slots are history, user's mood and question, in that order; as a set they are exactly the three declared input variables, which are distinct |
| Prompt.FormatInstruction | ai-companion.py:81-84 | the instruction block fills exactly when all three values are present, and gives each value after its label |
| Prompt.FormatShape | ai-companion.py:77-86 | the whole template fills exactly when all three values are present, and gives `[INST]`, the system block, the filled instruction and `[/INST]` |
| Prompt.MarkersOnce | ai-companion.py:77-86 | around a body without `[`, `[INST]` occurs only at the start and `[/INST]` only at the end |
| Prompt.BodyWithoutBracket | ai-companion.py:78-84 | the filled body has no `[` when neither the system prompt nor any value has one |
| Prompt.PromptMarkersOnce | ai-companion.py:77-87 | the filled prompt begins with `[INST]` and ends with `[/INST]`, each occurring exactly once, provided the system prompt and the values hold no `[` |
| Prompt.TemplateMarkersOnce | ai-companion.py:77-86 | the template text begins with `[INST]` and ends with `[/INST]`, each occurring exactly once, provided the system prompt holds no `[` |
| Emotion.PredictEmotion | ai-companion.py:172-174 | the lookup succeeds exactly when the classifier's label is in the table; otherwise it fails with a `KeyError` carrying that label; a success is the table's entry for the label, one of the nine mood names |
| Emotion.PredictByClass | ai-companion.py:172-174 | whenever the classifier emits `LABEL_k` for k from 0 to 8, the prediction is the k-th mood name |
| Emotion.TableIsTotal | ai-companion.py:126-136 | the table maps `LABEL_k` to the k-th mood for each k from 0 to 8, and has no other keys |
| Emotion.TableNames | ai-companion.py:126-136 | every value in the table is one of the nine mood names, and the nine names are distinct |
| Emotion.PredictExamples | ai-companion.py:126-136 | `LABEL_6` is read as Sadness, `LABEL_8` as Neutral, and `LABEL_9` raises `KeyError("LABEL_9")` |
| Chain.ChainValuesDefaults | ai-companion.py:99-102 | the chain fills exactly the three slots: history with "", and question and mood with the caller's value or "" when it is missing |
| Chain.ChainIgnoresOtherKeys | ai-companion.py:99-102 | a history value, or any key other than question and mood, passed by the caller changes nothing |
| Chain.ChainPromptShape | ai-companion.py:99-102 | filling never fails, and the prompt is `[INST]`, the system block, the empty history, the mood and the question in their labelled places, then `[/INST]` |
| Chain.RunChainEchoed | ai-companion.py:99-109 | when the model echoes the prompt and then continues without the marker, the chain returns exactly the stripped continuation, whatever the question, mood or system prompt hold |
| Chain.RunChainNotEchoed | ai-companion.py:99-109 | when the model returns new text without the marker, the chain returns it stripped |
| Chain.RunChainShape | ai-companion.py:99-109 | whatever the model returns, the chain's reply is trimmed and holds no `[/INST]` |
| Session.Reply | ai-companion.py:188 | the press's reply fails exactly when the label is missing from the table, with that label's `KeyError`; otherwise it is `run_chain`'s reply to the input with the looked-up mood, trimmed and marker-free |
| Session.HandleEmpty | ai-companion.py:182-200 | an empty input adds no turn and shows "Please enter a prompt." |
| Session.HandleTurns | ai-companion.py:182-196 | with speech in place, a non-empty input adds exactly two turns (the input, then the chain's reply with the detected mood) exactly when the label is in the table; otherwise it adds the input alone and fails with the `KeyError` |
| Session.HandleAsWrittenOrphansInput | ai-companion.py:176-194 | as written, every non-empty press adds the user's turn alone and ends in an exception; with a known label the exception is the unbound `gTTS` name |
| Session.HandleKeepsWellFormed | ai-companion.py:182-194 | every press, with any speech step, keeps the history well formed |
| Session.EchoedPress | ai-companion.py:182-196 | when the model echoes the prompt, then a line break and a trimmed reply without `[`, the press records the request and exactly that reply and shows it with `response.mp3` |
| Session.Companion.constructor | ai-companion.py:149-151 | the session starts with an empty history and the given chain components |
| Session.Companion.Submit | ai-companion.py:182-200 | a press with speech in place appends `Handle`'s turns to the history and keeps it well formed |
| Session.Companion.SubmitAsWritten | ai-companion.py:176-200 | a press as the script runs it appends `Handle`'s turns under the failing speech step, which is the user's turn alone |
| Session.Companion.Press | ai-companion.py:182-200 | the handler's steps in source order produce exactly `Handle`'s turns and outcome, for any speech step |

## Left out

- Page layout and styling are not modelled: the CSS (lines 11-36), the title and sidebar, and the HTML chat display (lines 202-207).
- Model loading and generation parameters (lines 38-52, 111-125 and 137-138) are not modelled; the label table at lines 126-136 is `Emotion.Emotions`.
  - The classifier and the language model are function parameters.
  - A function is deterministic and total, so sampling randomness is folded into the function, and generation failures (timeouts, out-of-memory) are not modelled.
- `predict_emotion` takes `[0]["label"]` of the classifier's output. The classifier parameter returns that label directly, so an empty classifier result is not modelled.
- LangChain internals are not modelled.
  - The model passes `run_chain`'s values straight to the template.
  - LLMChain's verbose logging is left out.
  - `ConversationBufferMemory` (line 93) is left out, including LangChain's merging of the memory's `history` variable into the chain's inputs, which could replace the empty history.
  - Whether the Hugging Face pipeline echoes the prompt is left open: `Chain.RunChainEchoed` covers an echoing model and `Chain.RunChainNotEchoed` one that does not.
- Speech synthesis and file writing are not modelled: `Session.TextToAudio` returns only the file name.
- Streamlit's rerun model is reduced to one button press per `Submit` call.
  - `st.audio` and `st.write` become the `Outcome` value.
  - The `if "chain" not in st.session_state` guard becomes the constructor.
- Prompt.SystemPrompt: the marker lemmas assume the system prompt has no `[`. The 1,672-character text is kept verbatim, but that it has no `[`, `{` or `}` is not machine-checked. The session takes the system prompt as a constructor argument, so no proof handles that literal, and no lemma is stated for the template with that literal filled in: the slot and marker lemmas hold for `Prompt.TemplateWith` of any system prompt (without `[` for the marker lemmas).
- Prompt.Format: only the template's literal-and-slot structure is modelled. Brace escaping (`{{`, `}}`) and format specifications in Python's `str.format` are not.
- Prompt.PromptMarkersOnce: holds only for values without `[`. A question containing `[/INST]` adds a marker to the prompt. The extractor still returns the continuation in that case (`Chain.RunChainEchoed` has no such hypothesis).
- Text.Split: requires a non-empty separator. Python raises `ValueError` for an empty one, and the script only splits on `[/INST]`.
- Text.IsSpace: covers the characters Python's `str.isspace()` accepts. It uses a fixed list rather than the Unicode database.

## Findings

| source | as written | input that shows it | evidently intended | confidence | as-written member | corrected member |
|---|---|---|---|---|---|---|
| ai-companion.py:176-179 | `text_to_audio` calls `gTTS`, which is never imported, so it raises `NameError`. The user turn appended at line 185 stays in the history without a reply, and no reply or audio is shown | any non-empty prompt whose label is in the table, e.g. "Write a poem about rain" classified as `LABEL_6` | the synthesiser is imported, the reply is saved as `response.mp3`, and the press records the user turn and the reply | not executed | Session.HandleAsWrittenOrphansInput | Session.HandleTurns |
