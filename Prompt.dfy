/**
 * The prompt assembler, `StoryCreativityChain.getPromptFromTemplate`: a Llama-2 chat
 * template made of the instruction markers, a system block and an instruction block
 * with three named slots, and the substitution that fills the slots.
 *
 * A template is modelled as the sequence of pieces a format-string parser sees: literal
 * text and named slots. `Source` gives back the template text with `{name}` for each
 * slot; `Format` replaces every slot by its value and fails on a missing one, as
 * Python's `str.format` raises `KeyError`.
 */
module Prompt {
  import opened Wrappers
  import opened Text
  import Extractor

  // ---------------------------------------------------------------------------
  // Templates and substitution
  // ---------------------------------------------------------------------------

  datatype Segment = Lit(text: string) | Slot(name: string)

  type Template = seq<Segment>

  datatype FormatError = MissingVariable(name: string)

  /** The names of the slots, left to right. */
  function Slots(t: Template): seq<string>
  {
    if t == [] then []
    else if t[0].Slot? then [t[0].name] + Slots(t[1..])
    else Slots(t[1..])
  }

  /** The slot names are the names of the slot pieces, no more and no fewer. */
  lemma {:induction false} SlotsAreSlotPieces(t: Template)
    ensures forall n :: n in Slots(t) <==> Slot(n) in t
  {
    if t != [] {
      SlotsAreSlotPieces(t[1..]);
      assert t == [t[0]] + t[1..];
    }
  }

  /** How a slot is written in the template text. */
  function Placeholder(name: string): string
  {
    "{" + name + "}"
  }

  /** The template text, each slot written as its placeholder. */
  function Source(t: Template): string
  {
    if t == [] then ""
    else
      (match t[0]
       case Lit(s) => s
       case Slot(n) => Placeholder(n)) + Source(t[1..])
  }

  /** Fills every slot with its value from `values`; the first slot (left to right) with
      no value is reported, and values for names that are not slots are ignored. */
  function Format(t: Template, values: map<string, string>): Result<string, FormatError>
  {
    if t == [] then Ok("")
    else if t[0].Slot? && t[0].name !in values then Err(MissingVariable(t[0].name))
    else
      var first := match t[0]
        case Lit(s) => s
        case Slot(n) => values[n];
      match Format(t[1..], values)
      case Ok(rest) => Ok(first + rest)
      case Err(e) => Err(e)
  }

  /** Filling succeeds exactly when every slot has a value; a failure names a slot that has none. */
  lemma {:induction false} FormatSucceeds(t: Template, values: map<string, string>)
    ensures Format(t, values).Ok? <==> forall n :: n in Slots(t) ==> n in values
    ensures Format(t, values).Err? ==>
            Format(t, values).error.name in Slots(t) && Format(t, values).error.name !in values
  {
    if t != [] {
      FormatSucceeds(t[1..], values);
    }
  }

  lemma {:induction false} SlotsAppend(a: Template, b: Template)
    ensures Slots(a + b) == Slots(a) + Slots(b)
  {
    if a == [] {
      assert a + b == b;
    } else {
      assert (a + b)[0] == a[0];
      assert (a + b)[1..] == a[1..] + b;
      SlotsAppend(a[1..], b);
    }
  }

  /** Filling a concatenation fills each part; it fails if either part fails. */
  lemma {:induction false} FormatAppend(a: Template, b: Template, values: map<string, string>)
    ensures Format(a + b, values).Ok? <==> Format(a, values).Ok? && Format(b, values).Ok?
    ensures Format(a + b, values).Ok? ==>
            Format(a + b, values).value == Format(a, values).value + Format(b, values).value
  {
    if a == [] {
      assert a + b == b;
    } else {
      assert (a + b)[0] == a[0];
      assert (a + b)[1..] == a[1..] + b;
      FormatAppend(a[1..], b, values);
      if !(a[0].Slot? && a[0].name !in values) {
        var first := match a[0] case Lit(s) => s case Slot(n) => values[n];
        var tail, rest := Format(a[1..], values), Format(b, values);
        if tail.Ok? && rest.Ok? {
          assert Format(a, values).value == first + tail.value;
          assert Format(a + b, values).value == first + (tail.value + rest.value);
        }
      }
    }
  }

  lemma FormatLit(text: string, values: map<string, string>)
    ensures Format([Lit(text)], values) == Ok(text)
  {
    assert [Lit(text)][1..] == [];
    assert text + "" == text;
  }

  lemma FormatLabelled(caption: string, name: string, values: map<string, string>)
    ensures Format(Labelled(caption, name), values) ==
            if name in values then Ok(caption + values[name]) else Err(MissingVariable(name))
  {
    var t := Labelled(caption, name);
    assert t[1..] == [Slot(name)];
    assert t[1..][1..] == [];
    if name in values {
      assert values[name] + "" == values[name];
      assert Format(t[1..], values) == Ok(values[name]);
    }
  }

  /** Filling each slot with its own placeholder gives back the template text. */
  lemma {:induction false} FormatWithPlaceholders(t: Template, values: map<string, string>)
    requires forall n :: n in Slots(t) ==> n in values && values[n] == Placeholder(n)
    ensures Format(t, values) == Ok(Source(t))
  {
    if t != [] {
      FormatWithPlaceholders(t[1..], values);
    }
  }

  // ---------------------------------------------------------------------------
  // The chat template of getPromptFromTemplate
  // ---------------------------------------------------------------------------

  const BeginInst: string := "[INST]"
  const EndInst: string := "[/INST]"
  const BeginSys: string := "<<SYS>>\n"
  const EndSys: string := "\n<</SYS>>\n\n"

  /** The policy text placed between the system markers. */
  const SystemPrompt: string :=
    "You are a creative assistant specializing in generating detailed and imaginative stories, crafting interesting and well-structured recipes, and composing beautiful poetry. Follow these guidelines:\n" +
    "\n" +
    "        1. **Stories:** Create engaging, detailed, and imaginative stories with vivid descriptions, compelling characters, and cohesive plots. Always consider the user's mood when crafting the story.\n" +
    "        2. **Recipes:** Generate step-by-step instructions for recipes that are easy to follow, include all necessary ingredients, and result in delicious dishes. Respond to recipe-related queries such as:\n" +
    "           - \"What is the recipe of...\"\n" +
    "           - \"How do I make...\"\n" +
    "           - \"How can I make...\"\n" +
    "           - \"I want to cook...\"\n" +
    "        3. **Poetry:** Write poems that are meaningful, expressive, and emotionally resonant, taking the user's mood into account.\n" +
    "\n" +
    "        For any other requests, respond politely and concisely with:\n" +
    "        \"I'm sorry, but I can only assist with stories, recipes, and poetry. Let's focus on those areas.\"\n" +
    "\n" +
    "        Additionally, do not generate or provide code in any programming language such as C++, Python, JavaScript, etc. If asked about coding or any other topics outside stories, recipes, and poetry, respond with:\n" +
    "        \"I'm sorry, but I can only assist with stories, recipes, and poetry. Let's focus on those areas.\"\n" +
    "\n" +
    "        Remember:\n" +
    "        - Stick strictly to stories, recipes, and poetry even if the user repeatedly asks questions other than these.\n" +
    "        - Maintain a polite and helpful tone.\n" +
    "        - Do not provide information or assistance outside the specified scope, regardless of user insistence.\n" +
    "        "

  const HistoryVar: string := "history"
  const MoodVar: string := "user's mood"
  const QuestionVar: string := "question"

  /** The input variables declared with the template, in their declared order. */
  const InputVariables: seq<string> := [HistoryVar, QuestionVar, MoodVar]

  /** The literal text before each slot of the instruction block. */
  const HistoryLabel: string := "\n        History: "
  const MoodLabel: string := " \n\n        User's Mood: "
  const QuestionLabel: string := " \n\n        User: "

  /** A label followed by its slot. */
  function Labelled(caption: string, name: string): Template
  {
    [Lit(caption), Slot(name)]
  }

  /** The instruction block: three labelled slots. */
  const Instruction: Template :=
    Labelled(HistoryLabel, HistoryVar) + Labelled(MoodLabel, MoodVar) + Labelled(QuestionLabel, QuestionVar)

  /** The system prompt between the system markers. */
  function SystemBlock(systemPrompt: string): string
  {
    BeginSys + systemPrompt + EndSys
  }

  /** `B_INST + B_SYS + systemPrompt + E_SYS + instruction + E_INST`: the template
      `getPromptFromTemplate` returns, where the script passes `SystemPrompt`. */
  function TemplateWith(systemPrompt: string): Template
  {
    [Lit(BeginInst + SystemBlock(systemPrompt))] + Instruction + [Lit(EndInst)]
  }

  /** The instruction block once its slots are filled. */
  function FilledInstruction(history: string, mood: string, question: string): string
  {
    HistoryLabel + history + MoodLabel + mood + QuestionLabel + question
  }

  /** The text between the two instruction markers once the slots are filled. */
  function InstructionBody(systemPrompt: string, history: string, mood: string, question: string): string
  {
    SystemBlock(systemPrompt) + FilledInstruction(history, mood, question)
  }

  /** The template has the three slots history, mood and question, once each and in that
      order, and they are exactly the declared input variables. */
  lemma TemplateSlots(systemPrompt: string)
    ensures Slots(TemplateWith(systemPrompt)) == [HistoryVar, MoodVar, QuestionVar]
    ensures forall n :: n in InputVariables <==> n in Slots(TemplateWith(systemPrompt))
    ensures |InputVariables| == 3 && InputVariables[0] != InputVariables[1] &&
            InputVariables[1] != InputVariables[2] && InputVariables[0] != InputVariables[2]
  {
    var h, m, q := Labelled(HistoryLabel, HistoryVar), Labelled(MoodLabel, MoodVar), Labelled(QuestionLabel, QuestionVar);
    var head, tail := [Lit(BeginInst + SystemBlock(systemPrompt))], [Lit(EndInst)];
    assert Slots(h) == [HistoryVar] && Slots(m) == [MoodVar] && Slots(q) == [QuestionVar] by {
      assert h[1..][1..] == [] && m[1..][1..] == [] && q[1..][1..] == [];
    }
    assert Slots(head) == [] && Slots(tail) == [] by {
      assert head[1..] == [] && tail[1..] == [];
    }
    SlotsAppend(h, m);
    SlotsAppend(h + m, q);
    SlotsAppend(head, Instruction);
    SlotsAppend(head + Instruction, tail);
  }

  /** Filling the instruction block puts each value after its label, in order. */
  lemma FormatInstruction(values: map<string, string>)
    ensures Format(Instruction, values).Ok? <==>
            HistoryVar in values && MoodVar in values && QuestionVar in values
    ensures Format(Instruction, values).Ok? ==>
            Format(Instruction, values).value == FilledInstruction(values[HistoryVar], values[MoodVar], values[QuestionVar])
  {
    var h, m, q := Labelled(HistoryLabel, HistoryVar), Labelled(MoodLabel, MoodVar), Labelled(QuestionLabel, QuestionVar);
    FormatAppend(h, m, values);
    FormatAppend(h + m, q, values);
    FormatLabelled(HistoryLabel, HistoryVar, values);
    FormatLabelled(MoodLabel, MoodVar, values);
    FormatLabelled(QuestionLabel, QuestionVar, values);
  }

  /** Filling the template: the first marker, the system block, the three labelled values
      in order, and the closing marker. It fails exactly when a slot value is missing. */
  lemma FormatShape(systemPrompt: string, values: map<string, string>)
    ensures Format(TemplateWith(systemPrompt), values).Ok? <==>
            HistoryVar in values && MoodVar in values && QuestionVar in values
    ensures HistoryVar in values && MoodVar in values && QuestionVar in values ==>
            Format(TemplateWith(systemPrompt), values) ==
            Ok(BeginInst + InstructionBody(systemPrompt, values[HistoryVar], values[MoodVar], values[QuestionVar]) + EndInst)
  {
    var sys := SystemBlock(systemPrompt);
    var head, tail := [Lit(BeginInst + sys)], [Lit(EndInst)];
    assert TemplateWith(systemPrompt) == head + Instruction + tail;
    FormatAppend(head, Instruction, values);
    FormatAppend(head + Instruction, tail, values);
    FormatLit(BeginInst + sys, values);
    FormatLit(EndInst, values);
    FormatInstruction(values);
    if HistoryVar in values && MoodVar in values && QuestionVar in values {
      var filled := FilledInstruction(values[HistoryVar], values[MoodVar], values[QuestionVar]);
      assert Format(head + Instruction, values).value == BeginInst + sys + filled;
      assert BeginInst + sys + filled == BeginInst + InstructionBody(systemPrompt, values[HistoryVar], values[MoodVar], values[QuestionVar]);
    }
  }

  // ---------------------------------------------------------------------------
  // The instruction markers
  // ---------------------------------------------------------------------------

  /** Between the two instruction markers, a text without `[` leaves each marker occurring
      exactly once: the opening one at the start, the closing one at the end. */
  lemma MarkersOnce(body: string)
    requires '[' !in body
    ensures OccursOnlyAt(BeginInst + body + EndInst, BeginInst, 0)
    ensures OccursOnlyAt(BeginInst + body + EndInst, EndInst, |BeginInst| + |body|)
  {
    var p := BeginInst + body + EndInst;
    var n := |BeginInst| + |body|;
    assert p[..|BeginInst|] == BeginInst;
    assert p[n..n + |EndInst|] == EndInst;
    BracketsAtMarkers(body);
    forall j: nat | OccursAt(p, EndInst, j) ensures j == n {
      OccurrenceChars(p, EndInst, j);
      assert EndInst[0] == '[' && EndInst[1] == '/';
      assert p[j + 0] == '[' && p[j + 1] == '/';
    }
    forall j: nat | OccursAt(p, BeginInst, j) ensures j == 0 {
      OccurrenceChars(p, BeginInst, j);
      assert BeginInst[0] == '[' && BeginInst[1] == 'I';
      assert p[j + 0] == '[' && p[j + 1] == 'I';
    }
  }

  /** Around a body without `[`, the only `[` are the first characters of the two markers,
      and the character after each tells them apart. */
  lemma BracketsAtMarkers(body: string)
    requires '[' !in body
    ensures var p, n := BeginInst + body + EndInst, |BeginInst| + |body|;
            (forall j :: 0 < j < |p| && j != n ==> p[j] != '[') && p[1] == 'I' && p[n + 1] == '/'
  {
    var p := BeginInst + body + EndInst;
    var n := |BeginInst| + |body|;
    forall j | 0 < j < |p| && j != n ensures p[j] != '[' {
      if j < |BeginInst| {
        assert p[j] == BeginInst[j];
      } else if j < n {
        assert p[j] == body[j - |BeginInst|];
      } else {
        assert p[j] == EndInst[j - n];
      }
    }
    assert p[1] == BeginInst[1] && p[n + 1] == EndInst[1];
  }

  /** The filled-in body has no `[` when neither the system prompt nor any value has one. */
  lemma BodyWithoutBracket(systemPrompt: string, history: string, mood: string, question: string)
    requires '[' !in systemPrompt && '[' !in history && '[' !in mood && '[' !in question
    ensures '[' !in InstructionBody(systemPrompt, history, mood, question)
  {
    assert '[' !in BeginSys && '[' !in EndSys;
    assert '[' !in HistoryLabel && '[' !in MoodLabel && '[' !in QuestionLabel;
  }

  /** The assembled prompt starts with `[INST]`, ends with `[/INST]`, and holds each marker
      exactly once, provided the system prompt and the substituted values hold no `[`. */
  lemma PromptMarkersOnce(systemPrompt: string, values: map<string, string>)
    requires HistoryVar in values && MoodVar in values && QuestionVar in values
    requires '[' !in systemPrompt
    requires '[' !in values[HistoryVar] && '[' !in values[MoodVar] && '[' !in values[QuestionVar]
    ensures Format(TemplateWith(systemPrompt), values).Ok?
    ensures var prompt := Format(TemplateWith(systemPrompt), values).value;
            OccursOnlyAt(prompt, BeginInst, 0) && OccursOnlyAt(prompt, EndInst, |prompt| - |EndInst|)
  {
    FormatShape(systemPrompt, values);
    BodyWithoutBracket(systemPrompt, values[HistoryVar], values[MoodVar], values[QuestionVar]);
    MarkersOnce(InstructionBody(systemPrompt, values[HistoryVar], values[MoodVar], values[QuestionVar]));
  }

  /** Each slot name mapped to its own placeholder. */
  function PlaceholderValues(): map<string, string>
  {
    map[HistoryVar := Placeholder(HistoryVar), MoodVar := Placeholder(MoodVar),
        QuestionVar := Placeholder(QuestionVar)]
  }

  lemma PlaceholdersWithoutBracket()
    ensures forall n :: n in PlaceholderValues() ==> PlaceholderValues()[n] == Placeholder(n)
    ensures HistoryVar in PlaceholderValues() && MoodVar in PlaceholderValues() && QuestionVar in PlaceholderValues()
    ensures '[' !in PlaceholderValues()[HistoryVar] && '[' !in PlaceholderValues()[MoodVar] &&
            '[' !in PlaceholderValues()[QuestionVar]
  {
  }

  /** The same holds of the template text itself, with its `{name}` placeholders. */
  lemma TemplateMarkersOnce(systemPrompt: string)
    requires '[' !in systemPrompt
    ensures var text := Source(TemplateWith(systemPrompt));
            OccursOnlyAt(text, BeginInst, 0) && OccursOnlyAt(text, EndInst, |text| - |EndInst|)
  {
    var values := PlaceholderValues();
    PlaceholdersWithoutBracket();
    TemplateSlots(systemPrompt);
    FormatWithPlaceholders(TemplateWith(systemPrompt), values);
    PromptMarkersOnce(systemPrompt, values);
  }
}
