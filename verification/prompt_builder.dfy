/** The retrieval-augmented prompt (build_prompt): one labelled block per
    log, joined by blank lines, placed under the user's question in a fixed
    instruction template, and the whole stripped. */
module PromptBuilder {
  import opened Records
  import opened Text

  /** The instructions at the head of the template, without the newline the
      f-string starts with. */
  const Instructions: string :=
    "You are an AI assistant "
    + "helping a product team analyze historical discussions, summaries, and decisions from logs.\n\n"
    + "Use the logs below to answer the user's question. Your answer should:\n"
    + "- Be grounded in the evidence provided.\n"
    + "- Combine relevant information from multiple logs.\n"
    + "- Mention specific reasons, discussions, or stakeholders if found.\n"
    + "- Avoid vague or general responses.\n\n"

  const QuestionLabel: string := "User Question:\n"

  const LogsHeading: string := "\n\nMemory Logs:\n"

  /** The template after the log blocks, without the final newline. */
  const Outro: string :=
    "\n\nBased on this, provide a clear and informative answer.\nIf no answer is possible, say so honestly."

  /** The template between its first and its last character. */
  function Body(query: string, contextText: string): string {
    Instructions + QuestionLabel + "\"" + query + "\"" + LogsHeading + contextText + Outro
  }

  /** The f-string as written: a newline, the text, a newline. */
  function Template(query: string, contextText: string): string {
    "\n" + Body(query, contextText) + "\n"
  }

  /** Whatever the question and the logs hold, stripping the template removes
      exactly its first and last newline. */
  lemma StripTemplate(query: string, contextText: string)
    ensures Strip(Template(query, contextText)) == Body(query, contextText)
  {
    var body := Body(query, contextText);
    var text := Template(query, contextText);
    assert Instructions[0] == 'Y';
    assert Outro[|Outro| - 1] == '.';
    StripFramed(text);
    assert text[1..|text| - 1] == body;
  }

  /** log.get("source", "unknown").upper() */
  function SourceText(source: Option<string>): string {
    match source
    case Some(v) => ToUpper(v)
    case None => "UNKNOWN"
  }

  /** log.get("type", "general").capitalize() */
  function TypeText(kind: Option<string>): string {
    match kind
    case Some(v) => Capitalize(v)
    case None => "General"
  }

  /** log.get("content", "").strip() */
  function ContentText(content: Option<string>): string {
    match content
    case Some(v) => Strip(v)
    case None => ""
  }

  /** The default source, upper-cased. */
  lemma UnknownUpper()
    ensures ToUpper("unknown") == "UNKNOWN"
  {
    var u := ToUpper("unknown");
    assert u[0] == 'U' && u[1] == 'N' && u[2] == 'K' && u[3] == 'N';
    assert u[4] == 'O' && u[5] == 'W' && u[6] == 'N';
  }

  /** The default type, capitalized. */
  lemma GeneralCapitalized()
    ensures Capitalize("general") == "General"
  {
    var t := ToLower("eneral");
    assert t[0] == 'e' && t[1] == 'n' && t[2] == 'e';
    assert t[3] == 'r' && t[4] == 'a' && t[5] == 'l';
    assert t == "eneral";
    assert "general"[1..] == "eneral";
  }

  /** The three formatted fields are the Python expressions applied to the
      value or to its default. */
  lemma FieldFormatting(log: Payload)
    ensures SourceText(log.source) == ToUpper(Get(log.source, "unknown"))
    ensures TypeText(log.kind) == Capitalize(Get(log.kind, "general"))
    ensures ContentText(log.content) == Strip(Get(log.content, ""))
    ensures IsStripped(ContentText(log.content))
  {
    UnknownUpper();
    GeneralCapitalized();
    assert Strip("") == "";
  }

  /** The part of a block after its label number. */
  function BlockRest(log: Payload): string {
    "| " + Get(log.timestamp, "Unknown")
    + " | Project: " + Get(log.project, "Unknown")
    + " | Source: " + SourceText(log.source)
    + " | Type: " + TypeText(log.kind) + "]\n"
    + Get(log.user, "Unknown") + ": " + ContentText(log.content)
  }

  /** The block of the i-th log (counting from 1), with the defaults of the
      `log.get` calls. */
  function Block(i: nat, log: Payload): string {
    "[Log " + Decimal(i) + " " + BlockRest(log)
  }

  /** The label number a reader finds after "[Log ". */
  function BlockLabel(block: string): string {
    if |block| < 5 then "" else WordAt(block, 5)
  }

  /** Each block carries its own position as its label. */
  lemma BlockLabelled(i: nat, log: Payload)
    ensures BlockLabel(Block(i, log)) == Decimal(i)
  {
    NumberBeforeSpace("[Log ", i, BlockRest(log));
  }

  /** So blocks at different positions differ. */
  lemma BlocksDistinct(i: nat, j: nat, x: Payload, y: Payload)
    requires i != j
    ensures Block(i, x) != Block(j, y)
  {
    BlockLabelled(i, x);
    BlockLabelled(j, y);
    if Decimal(i) == Decimal(j) {
      DecimalInjective(i, j);
    }
  }

  /** A log with none of the fields renders with every default: timestamp,
      project and speaker "Unknown", source "UNKNOWN", type "General" and
      empty content. */
  lemma EmptyLogBlock(i: nat, log: Payload)
    requires log.timestamp.None? && log.project.None? && log.source.None?
    requires log.kind.None? && log.user.None? && log.content.None?
    ensures Block(i, log)
            == "[Log " + Decimal(i) + " " + "| " + "Unknown" + " | Project: " + "Unknown"
               + " | Source: " + "UNKNOWN" + " | Type: " + "General" + "]\n"
               + "Unknown" + ": " + ""
  {
  }

  /** The context blocks, labelled from 1 in input order. */
  function Blocks(logs: seq<Payload>): seq<string> {
    seq(|logs|, k requires 0 <= k < |logs| => Block(k + 1, logs[k]))
  }

  /** The loop of build_prompt: one block per log, in order. */
  method ContextBlocks(logs: seq<Payload>) returns (contextBlocks: seq<string>)
    ensures contextBlocks == Blocks(logs)
  {
    ghost var blocks := Blocks(logs);
    contextBlocks := [];
    for i := 0 to |logs|
      invariant contextBlocks == blocks[..i]
    {
      var log := logs[i];
      var entry := Block(i + 1, log);
      assert blocks[..i + 1] == blocks[..i] + [entry];
      contextBlocks := contextBlocks + [entry];
    }
    assert blocks[..|logs|] == blocks;
  }

  /** build_prompt: the question in quotes under its label, the blocks joined
      by blank lines under the Memory Logs heading, and no whitespace at
      either end. */
  method BuildPrompt(query: string, logs: seq<Payload>) returns (prompt: string)
    ensures prompt == Body(query, Join(Blocks(logs), "\n\n"))
    ensures IsStripped(prompt)
  {
    var contextBlocks := ContextBlocks(logs);
    var contextText := Join(contextBlocks, "\n\n");
    var text := Template(query, contextText);
    StripTemplate(query, contextText);
    prompt := Strip(text);
  }

  /** With no logs the Memory Logs heading is followed directly by the
      closing instructions. */
  lemma NoLogsEmptySection(query: string)
    ensures Body(query, Join(Blocks([]), "\n\n"))
            == Instructions + QuestionLabel + "\"" + query + "\"" + LogsHeading + Outro
  {
    assert Blocks([]) == [];
    var front := Instructions + QuestionLabel + "\"" + query + "\"" + LogsHeading;
    assert front + "" == front;
  }

  /** Block k of the context reads back label k + 1. */
  lemma BlocksLabelled(logs: seq<Payload>)
    ensures |Blocks(logs)| == |logs|
    ensures forall k :: 0 <= k < |logs| ==> BlockLabel(Blocks(logs)[k]) == Decimal(k + 1)
  {
    forall k | 0 <= k < |logs|
      ensures BlockLabel(Blocks(logs)[k]) == Decimal(k + 1)
    {
      BlockLabelled(k + 1, logs[k]);
    }
  }
}
