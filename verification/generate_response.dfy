/** The response side of the assistant: the structured prompt sent to the
    language model with the retrieved logs (build_structured_prompt), and the
    cleaner applied to every reply (clean_response), which unwraps a reply
    that the model wrapped in a Python list or tuple literal. */
module GenerateResponse {
  import opened Records
  import opened Text

  newtype byte = x: int | 0 <= x < 256

  /** The values ast.literal_eval can produce, as far as clean_response can
      tell them apart: strings, bytes, lists, tuples and everything else. */
  datatype Literal =
    | LStr(s: string)
    | LBytes(b: seq<byte>)
    | LList(items: seq<Literal>)
    | LTuple(items: seq<Literal>)
    | LOther

  /** ast.literal_eval: None where it raises. */
  type Parser = string -> Option<Literal>

  /** What clean_response returns: a string, or bytes when the unwrapped
      element was a bytes literal (bytes.strip() returns bytes). */
  datatype Cleaned = Str(text: string) | Bytes(bytes: seq<byte>)

  /** The bytes bytes.strip() removes: space, \t, \n, \v, \f and \r. */
  predicate IsSpaceByte(x: byte) {
    x == 32 || 9 <= x <= 13
  }

  predicate BytesStripped(b: seq<byte>) {
    |b| == 0 || (!IsSpaceByte(b[0]) && !IsSpaceByte(b[|b| - 1]))
  }

  function LStripBytes(b: seq<byte>): (r: seq<byte>)
    ensures |r| == 0 || !IsSpaceByte(r[0])
    ensures !(|b| > 0 && IsSpaceByte(b[0])) ==> r == b
    ensures |r| <= |b| && r == b[|b| - |r|..]
    ensures forall i :: 0 <= i < |b| - |r| ==> IsSpaceByte(b[i])
  {
    if |b| > 0 && IsSpaceByte(b[0]) then
      var r := LStripBytes(b[1..]);
      assert b[1..][|b| - 1 - |r|..] == b[|b| - |r|..];
      assert forall i :: 1 <= i < |b| - |r| ==> b[i] == b[1..][i - 1];
      r
    else b
  }

  function RStripBytes(b: seq<byte>): (r: seq<byte>)
    ensures |r| == 0 || !IsSpaceByte(r[|r| - 1])
    ensures !(|b| > 0 && IsSpaceByte(b[|b| - 1])) ==> r == b
    ensures |r| <= |b| && r == b[..|r|]
    ensures forall i :: |r| <= i < |b| ==> IsSpaceByte(b[i])
  {
    if |b| > 0 && IsSpaceByte(b[|b| - 1]) then
      var r := RStripBytes(b[..|b| - 1]);
      assert b[..|b| - 1][..|r|] == b[..|r|];
      assert forall i :: |r| <= i < |b| - 1 ==> b[i] == b[..|b| - 1][i];
      r
    else b
  }

  /** bytes.strip(): no whitespace byte is left at either end, only
      whitespace bytes are removed, and bytes that have none at either end
      come back unchanged. */
  function StripBytes(b: seq<byte>): (r: seq<byte>)
    ensures BytesStripped(r)
    ensures exists a, c :: 0 <= a <= c <= |b| && r == b[a..c]
                           && (forall i :: 0 <= i < a ==> IsSpaceByte(b[i]))
                           && (forall i :: c <= i < |b| ==> IsSpaceByte(b[i]))
    ensures BytesStripped(b) ==> r == b
  {
    var l := LStripBytes(b);
    var r := RStripBytes(l);
    assert |r| > 0 ==> r[0] == l[0];
    TrimmedWitness(b, |b| - |l|, |b| - |l| + |r|, l, r);
    r
  }

  /** The bytes kept by LStripBytes then RStripBytes are the slice b[a..c] with
      whitespace bytes outside it. */
  lemma TrimmedWitness(b: seq<byte>, a: nat, c: nat, l: seq<byte>, r: seq<byte>)
    requires a <= |b| && l == b[a..] && (forall i :: 0 <= i < a ==> IsSpaceByte(b[i]))
    requires c == a + |r| && |r| <= |l| && r == l[..|r|]
    requires forall i :: |r| <= i < |l| ==> IsSpaceByte(l[i])
    ensures exists a, c :: 0 <= a <= c <= |b| && r == b[a..c]
                           && (forall i :: 0 <= i < a ==> IsSpaceByte(b[i]))
                           && (forall i :: c <= i < |b| ==> IsSpaceByte(b[i]))
  {
    assert r == b[a..c];
    assert forall i :: c <= i < |b| ==> b[i] == l[i - a];
  }

  /** `parsed[-1].strip()` and the fallback when it raises: an empty list
      raises IndexError and an element with no strip() raises AttributeError,
      both caught, so the stripped text `t` is returned. */
  function StripLast(items: seq<Literal>, t: string): Cleaned {
    if |items| == 0 then Str(t)
    else
      match items[|items| - 1]
      case LStr(s) => Str(Strip(s))
      case LBytes(b) => Bytes(StripBytes(b))
      case _ => Str(t)
  }

  predicate OpensLiteral(t: string) {
    StartsWith(t, "(") || StartsWith(t, "[")
  }

  /** clean_response. It never raises: every failure inside the try falls
      back to the stripped text, and whatever comes back has no whitespace at
      either end. */
  function CleanResponse(text: string, parse: Parser): (r: Cleaned)
    ensures !OpensLiteral(Strip(text)) ==> r == Str(Strip(text))
    ensures r.Str? ==> IsStripped(r.text)
    ensures r.Bytes? ==> BytesStripped(r.bytes)
  {
    var t := Strip(text);
    if OpensLiteral(t) then
      match parse(t)
      case Some(LList(items)) => StripLast(items, t)
      case Some(LTuple(items)) => StripLast(items, t)
      case _ => Str(t)
    else Str(t)
  }

  /** A reply that parses to a non-empty list or tuple ending in a string
      becomes that string, stripped. */
  lemma CleanUnwrapsLastString(text: string, parse: Parser, items: seq<Literal>)
    requires OpensLiteral(Strip(text))
    requires parse(Strip(text)) == Some(LList(items)) || parse(Strip(text)) == Some(LTuple(items))
    requires |items| > 0 && items[|items| - 1].LStr?
    ensures CleanResponse(text, parse) == Str(Strip(items[|items| - 1].s))
  {
  }

  /** A reply that fails to parse, parses to something other than a list or
      tuple, or whose last element is neither a string nor bytes comes back
      as the stripped text. */
  lemma CleanFallsBack(text: string, parse: Parser)
    requires var p := parse(Strip(text));
             || p.None?
             || !(p.value.LList? || p.value.LTuple?)
             || |p.value.items| == 0
             || !(p.value.items[|p.value.items| - 1].LStr? || p.value.items[|p.value.items| - 1].LBytes?)
    ensures CleanResponse(text, parse) == Str(Strip(text))
  {
  }

  /** Text that is already clean and does not open a literal is left alone. */
  lemma CleanPlainTextIdentity(text: string, parse: Parser)
    requires IsStripped(text) && !OpensLiteral(text)
    ensures CleanResponse(text, parse) == Str(text)
  {
    StripIdentity(text);
  }

  /** The header lines of build_structured_prompt. */
  function QueryLine(query: string): string {
    "User Query: " + query + "\n\n"
  }

  const LogsIntro: string := "Here are relevant memory logs:\n"

  const Closing: string :=
    "\nPlease provide a well-grounded, confident response using the logs above. "
    + "If multiple logs support a point, cite them (e.g., 'as noted in Log 2'). "
    + "Avoid hedging unless memory logs are unclear."

  /** The entry of the i-th log (counting from 1), with the defaults of the
      `log.get` calls; the content is not stripped here. */
  function Entry(i: nat, log: Payload): string {
    "Log " + Decimal(i) + " " + EntryRest(log)
  }

  /** The part of an entry after its label number. */
  function EntryRest(log: Payload): string {
    "(" + Get(log.timestamp, "Unknown time") + ") | Speaker: " + Get(log.user, "Unknown") + "\n"
    + Get(log.content, "No content.") + "\n"
  }

  /** The label number a reader finds after "Log ". */
  function EntryLabel(entry: string): string {
    if |entry| < 4 then "" else WordAt(entry, 4)
  }

  lemma EntryLabelled(i: nat, log: Payload)
    ensures EntryLabel(Entry(i, log)) == Decimal(i)
  {
    NumberBeforeSpace("Log ", i, EntryRest(log));
  }

  /** A log with none of the fields gets every default. */
  lemma EmptyLogEntry(i: nat, log: Payload)
    requires log.timestamp.None? && log.user.None? && log.content.None?
    ensures Entry(i, log)
            == "Log " + Decimal(i) + " " + "(" + "Unknown time" + ") | Speaker: " + "Unknown" + "\n"
               + "No content." + "\n"
  {
  }

  function Entries(logs: seq<Payload>): seq<string> {
    seq(|logs|, k requires 0 <= k < |logs| => Entry(k + 1, logs[k]))
  }

  /** The list `lines` as build_structured_prompt completes it. */
  function PromptLines(query: string, logs: seq<Payload>): seq<string> {
    [QueryLine(query), LogsIntro] + Entries(logs) + [Closing]
  }

  /** The joined lines open with the query line and close with the instructions. */
  lemma PromptFraming(query: string, logs: seq<Payload>)
    ensures StartsWith(Join(PromptLines(query, logs), "\n"), QueryLine(query))
    ensures EndsWith(Join(PromptLines(query, logs), "\n"), Closing)
  {
    var lines := PromptLines(query, logs);
    assert lines[0] == QueryLine(query) && lines[|lines| - 1] == Closing;
    JoinFirst(lines, "\n");
    JoinLast(lines, "\n");
  }

  /** build_structured_prompt: the query line first, the instructions last,
      one entry per log in between, all joined by newlines. */
  method BuildStructuredPrompt(query: string, logs: seq<Payload>) returns (prompt: string)
    ensures prompt == Join(PromptLines(query, logs), "\n")
    ensures StartsWith(prompt, QueryLine(query))
    ensures EndsWith(prompt, Closing)
  {
    ghost var entries := Entries(logs);
    var lines := [QueryLine(query), LogsIntro];
    for i := 0 to |logs|
      invariant lines == [QueryLine(query), LogsIntro] + entries[..i]
    {
      var log := logs[i];
      var entry := Entry(i + 1, log);
      assert entries[..i + 1] == entries[..i] + [entry];
      lines := lines + [entry];
    }
    assert entries[..|logs|] == entries;
    lines := lines + [Closing];
    PromptFraming(query, logs);
    prompt := Join(lines, "\n");
  }

  /** Line k, past the two header lines, is the entry labelled k - 1, and
      there is one line per log plus the two header lines and the
      instructions. */
  lemma EntriesInOrder(query: string, logs: seq<Payload>)
    ensures |PromptLines(query, logs)| == |logs| + 3
    ensures forall k :: 2 <= k < |logs| + 2 ==> EntryLabel(PromptLines(query, logs)[k]) == Decimal(k - 1)
  {
    forall k | 2 <= k < |logs| + 2
      ensures EntryLabel(PromptLines(query, logs)[k]) == Decimal(k - 1)
    {
      EntryLabelled(k - 1, logs[k - 2]);
    }
  }

  /** With no logs the prompt is the two header lines and the instructions. */
  lemma NoLogsPrompt(query: string)
    ensures Join(PromptLines(query, []), "\n") == QueryLine(query) + "\n" + LogsIntro + "\n" + Closing
  {
    var lines := PromptLines(query, []);
    assert lines == [QueryLine(query), LogsIntro, Closing];
    assert lines[1..] == [LogsIntro, Closing];
    assert lines[1..][1..] == [Closing];
  }
}
