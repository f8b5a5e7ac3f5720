/** The classification pipeline of unittester.py: `format_prompt` builds the
    prompt, `generate` sends it to the inference client, joins the streamed
    token texts in arrival order and extracts the citations from the result. */
module Classifier {
  import opened Wrappers
  import opened Citations

  /** The fixed instruction placed ahead of every narrative. */
  const SystemPrompt: string :=
    "You are a professional lawyer and expert in Indian Penal Code(IPC) Sections. "
    + "Give the applicable IPC sections for the following scenario. "
    + "The IPC sections should be in list form: "

  /** Everything a prompt holds before the narrative, and after it. */
  const Opening: string := "<s>[SYS] " + SystemPrompt + " [/SYS]" + "[INST] "
  const Closing: string := " [/INST]"

  /** `format_prompt(message)`: total, for the empty narrative too; the
      narrative sits verbatim between the fixed opening and closing. */
  function FormatPrompt(message: string): (prompt: string)
    ensures |prompt| == |Opening| + |message| + |Closing|
    ensures prompt[..|Opening|] == Opening
    ensures prompt[|Opening|..|Opening| + |message|] == message
    ensures prompt[|Opening| + |message|..] == Closing
  {
    var prompt := "<s>[SYS] " + SystemPrompt + " [/SYS]";
    prompt + "[INST] " + message + " [/INST]"
  }

  /** The narrative of a prompt that has the opening and closing of one. */
  function NarrativeOf(prompt: string): Option<string> {
    if |prompt| >= |Opening| + |Closing|
       && prompt[..|Opening|] == Opening
       && prompt[|prompt| - |Closing|..] == Closing
    then Some(prompt[|Opening|..|prompt| - |Closing|])
    else None
  }

  /** `NarrativeOf` recovers the narrative from its prompt, and the prompts
      are exactly the texts it accepts: different narratives give different
      prompts. */
  lemma NarrativeRoundTrip(message: string, prompt: string)
    ensures NarrativeOf(FormatPrompt(message)) == Some(message)
    ensures NarrativeOf(prompt) == Some(message) <==> prompt == FormatPrompt(message)
  {
    var p := FormatPrompt(message);
    assert p[|p| - |Closing|..] == Closing;
    if NarrativeOf(prompt) == Some(message) {
      assert prompt == prompt[..|Opening|] + prompt[|Opening|..|prompt| - |Closing|]
                       + prompt[|prompt| - |Closing|..];
      assert p == p[..|Opening|] + p[|Opening|..|Opening| + |message|] + p[|Opening| + |message|..];
    }
  }

  /** The system instruction appears verbatim in every prompt. */
  lemma PromptHoldsInstruction(message: string)
    ensures var p := FormatPrompt(message);
            p[|"<s>[SYS] "|..|"<s>[SYS] "| + |SystemPrompt|] == SystemPrompt
  {
    var p := FormatPrompt(message);
    assert p[..|Opening|] == Opening;
    assert Opening[|"<s>[SYS] "|..|"<s>[SYS] "| + |SystemPrompt|] == SystemPrompt;
  }

  /** The fragments joined in arrival order. */
  function Concat(fragments: seq<string>): string {
    if fragments == [] then ""
    else Concat(fragments[..|fragments| - 1]) + fragments[|fragments| - 1]
  }

  /** Joining is compatible with splitting the stream anywhere. */
  lemma {:induction false} ConcatAppend(a: seq<string>, b: seq<string>)
    ensures Concat(a + b) == Concat(a) + Concat(b)
    decreases |b|
  {
    if b != [] {
      var last := |b| - 1;
      assert (a + b)[..|a + b| - 1] == a + b[..last];
      ConcatAppend(a, b[..last]);
    } else {
      assert a + b == a;
    }
  }

  /** Fragment `k` appears whole, right after the fragments before it. */
  lemma FragmentInPlace(fragments: seq<string>, k: nat)
    requires k < |fragments|
    ensures var at := |Concat(fragments[..k])|;
            at + |fragments[k]| <= |Concat(fragments)|
            && Concat(fragments)[at..at + |fragments[k]|] == fragments[k]
  {
    assert fragments == fragments[..k] + [fragments[k]] + fragments[k + 1..];
    ConcatAppend(fragments[..k] + [fragments[k]], fragments[k + 1..]);
    ConcatAppend(fragments[..k], [fragments[k]]);
    assert Concat([fragments[k]]) == fragments[k] by {
      assert [fragments[k]][..0] == [];
    }
  }

  /** The loop of `generate`: `output += response.token.text` for each
      response of the stream, in order. */
  method Assemble(stream: seq<string>) returns (output: string)
    ensures output == Concat(stream)
  {
    output := "";
    for i := 0 to |stream|
      invariant output == Concat(stream[..i])
    {
      assert stream[..i + 1][..i] == stream[..i];
      output := output + stream[i];
    }
    assert stream[..|stream|] == stream;
  }

  /** The inference client: the prompt's stream of token texts, or `None`
      when the call raises. */
  type Client = string -> Option<seq<string>>

  /** What `generate` returns for a narrative: the citations in the joined
      stream, or `None` when the client raises. */
  function Classify(message: string, client: Client): Option<seq<string>> {
    match client(FormatPrompt(message))
    case None => None
    case Some(stream) => Some(FindAll(Concat(stream)))
  }

  /** Every result of a classification is a citation in the model's reply. */
  lemma ClassifiedAreCitations(message: string, client: Client)
    requires Classify(message, client).Some?
    ensures forall k :: 0 <= k < |Classify(message, client).value| ==>
              IsCitation(Classify(message, client).value[k])
  {
  }

  /** `generate(prompt)`: the sampling parameters are not modelled. */
  method Generate(message: string, client: Client) returns (sections: Option<seq<string>>)
    ensures sections == Classify(message, client)
  {
    var prompt := FormatPrompt(message);
    var stream := client(prompt);
    if stream.None? {
      return None;
    }
    var output := Assemble(stream.value);
    sections := Some(FindAll(output));
  }
}

/** The unit test of unittester.py and the three-fragment stream, as lemmas. */
module ClassifierExamples {
  import opened Wrappers
  import opened Citations
  import opened Classifier

  /** Fragments arrive and are joined in order. */
  lemma ThreeFragments()
    ensures Concat(["A", "B", "C"]) == "ABC"
  {
    ConcatAppend(["A", "B"], ["C"]);
    ConcatAppend(["A"], ["B"]);
    assert Concat(["A"]) == "A" by { assert ["A"][..0] == []; }
    assert Concat(["C"]) == "C" by { assert ["C"][..0] == []; }
    assert Concat(["B"]) == "B" by { assert ["B"][..0] == []; }
  }

  /** The stubbed stream of the unit test. */
  const TheftStream: seq<string> := ["Section 378 ", "Section 457"]
  const TheftOutput: string := "Section 378 Section 457"

  lemma TheftJoined()
    ensures Concat(TheftStream) == TheftOutput
  {
    ConcatAppend(["Section 378 "], ["Section 457"]);
    assert Concat(["Section 378 "]) == "Section 378 " by { assert ["Section 378 "][..0] == []; }
    assert Concat(["Section 457"]) == "Section 457" by { assert ["Section 457"][..0] == []; }
  }

  lemma TheftMatches()
    ensures IsCitation(TheftOutput[0..11]) && Maximal(TheftOutput, 0, 11)
    ensures IsCitation(TheftOutput[12..23])
  {
    assert TheftOutput[0..11] == Keyword + "378" + "";
    assert TheftOutput[12..23] == Keyword + "457" + "";
    CitationOf("378", "");
    CitationOf("457", "");
    MaximalBefore(TheftOutput, 0, 11);
  }

  lemma TheftStarts(p: nat)
    requires p < |TheftOutput| && StartsAt(TheftOutput, p)
    ensures p == 0 || p == 12
  {
    StartsWithKeyword(TheftOutput, p);
  }

  lemma TheftScan()
    ensures IsScan(TheftOutput, 0, [Span(0, 11), Span(12, 23)])
  {
    var r := [Span(0, 11), Span(12, 23)];
    TheftMatches();
    forall p | 0 <= p < |TheftOutput| && StartsAt(TheftOutput, p)
      ensures Covered(r, p)
    {
      TheftStarts(p);
      assert r[if p == 0 then 0 else 1].start <= p < r[if p == 0 then 0 else 1].end;
    }
  }

  lemma TheftTexts()
    ensures Texts(TheftOutput, [Span(0, 11), Span(12, 23)]) == ["Section 378", "Section 457"]
  {
    var a, b := "Section 378", "Section 457";
    assert TheftOutput == a + " " + b;
    assert TheftOutput[0..11] == a && TheftOutput[12..23] == b;
    var t := Texts(TheftOutput, [Span(0, 11), Span(12, 23)]);
    assert |t| == 2 && t[0] == a && t[1] == b;
  }

  /** The narrative of the unit test. */
  const TheftNarrative: string :=
    "A theft was reported where someone broke into a house and stole valuables."

  /** With the client stubbed to stream "Section 378 " and "Section 457",
      `generate` returns ["Section 378", "Section 457"]. */
  lemma TheftClassified(client: Client)
    requires client(FormatPrompt(TheftNarrative)) == Some(TheftStream)
    ensures Classify(TheftNarrative, client) == Some(["Section 378", "Section 457"])
  {
    TheftJoined();
    TheftScan();
    FindAllCharacterised(TheftOutput, [Span(0, 11), Span(12, 23)]);
    TheftTexts();
  }
}
