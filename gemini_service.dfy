/**
 * The summary generator of services/geminiService.ts: the instruction chosen per format, the
 * prompt built from it, the checks on the model's reply, and the catch block that maps every
 * error to the message the caller sees.
 */
module GeminiService {
  import opened Types
  import opened Js

  /** One entry of `response.candidates`; only its `finishReason` is read. */
  datatype Candidate = Candidate(finishReason: Option<string>)

  /**
   * The fields of the `generateContent` response the service reads: the candidate list (None
   * when absent) and the `text` accessor (None when it yields undefined).
   */
  datatype GenResponse = GenResponse(candidates: Option<seq<Candidate>>, text: Option<string>)

  /** What `ai.models.generateContent(...)` settles to. */
  datatype GenReply = Replied(response: GenResponse) | Threw(err: JsError)

  // Long texts are written as concatenations of short pieces (the text is the same), which
  // keeps the verifier's work on the functions that mention them small.
  const BlockedMessage := "Summary " + "generation was " + "blocked. " + "This may be due " +
    "to the video's " + "content " + "violating " + "safety policies."
  const EmptyMessage := "The AI was " + "unable to " + "generate a " + "summary. " + "This can happen " +
    "if the video " + "is not " + "well-documented " + "online or has " + "no public " + "transcript."
  const MisconfiguredMessage := "The AI service is not configured correctly. Please contact support."
  const UnavailableMessage :=
    "Failed to generate summary. The AI service may be temporarily unavailable."
  /** The text the catch block looks for in the lower-cased error. */
  const ApiKeyMarker := "api key not valid"
  /** The TypeError a JavaScript engine (V8's wording) throws for `undefined.trim()`. */
  const TrimOfUndefined :=
    JsError("TypeError", "Cannot read " + "properties of " + "undefined " + "(reading 'trim')")

  const InstructionOpening := "Provide a "

  /** The instruction for each format, shared by `Instruction` and the switch in `GenerateSummary`. */
  const KeyTopicsInstruction := InstructionOpening + "concise bulleted " + "list of the main " +
    "topics, using " + "markdown for " + "formatting."
  const DetailedParagraphInstruction := InstructionOpening + "well-structured " + "paragraph " +
    "summarizing the " + "entire content in " + "detail."
  const AbstractInstruction := InstructionOpening + "one or " + "two-sentence " + "high-level " +
    "summary, like an " + "abstract for a " + "paper."

  /** The instruction `generateSummary` picks for each format. */
  function Instruction(f: SummaryFormat): string {
    match f
    case KeyTopics => KeyTopicsInstruction
    case DetailedParagraph => DetailedParagraphInstruction
    case Abstract => AbstractInstruction
  }

  /** Each format has its own instruction: they part right after the opening. */
  lemma InstructionsDistinct(f: SummaryFormat, g: SummaryFormat)
    ensures f != g ==> Instruction(f) != Instruction(g)
  {
    assert |InstructionOpening| == 10;
    assert Instruction(KeyTopics)[10] == 'c';
    assert Instruction(DetailedParagraph)[10] == 'w';
    assert Instruction(Abstract)[10] == 'o';
  }

  // The fixed parts of the prompt template, in short pieces as well.
  const PromptHead := "\n    Please " + "generate a " + "summary for the " + "YouTube video at " +
    "the following " + "URL: "
  const PromptFormat := "\n\n    " + "**Requested " + "Format:** "
  const PromptInstructions := "\n\n    " + "**Instructions:**" + "\n    "
  const PromptTail := "\n\n    " + "**Summary:**" + "\n  "

  /** The template literal, filled with the video URL, the format label and the instruction. */
  function Prompt(videoUrl: string, formatLabel: string, instruction: string): string {
    PromptHead + videoUrl + PromptFormat + formatLabel + PromptInstructions + instruction + PromptTail
  }

  /** The prompt contains the URL, the format label and the instruction, in that order. */
  lemma PromptMentions(videoUrl: string, formatLabel: string, instruction: string)
    ensures var p := Prompt(videoUrl, formatLabel, instruction);
      var u := |PromptHead|;
      var l := u + |videoUrl| + |PromptFormat|;
      var i := l + |formatLabel| + |PromptInstructions|;
      i + |instruction| <= |p| &&
      p[u..u + |videoUrl|] == videoUrl && p[l..l + |formatLabel|] == formatLabel &&
      p[i..i + |instruction|] == instruction
    ensures Contains(Prompt(videoUrl, formatLabel, instruction), videoUrl)
    ensures Contains(Prompt(videoUrl, formatLabel, instruction), formatLabel)
    ensures Contains(Prompt(videoUrl, formatLabel, instruction), instruction)
  {
    var p := Prompt(videoUrl, formatLabel, instruction);
    var u := |PromptHead|;
    var l := u + |videoUrl| + |PromptFormat|;
    var i := l + |formatLabel| + |PromptInstructions|;
    assert p[u..u + |videoUrl|] == videoUrl;
    assert p[l..l + |formatLabel|] == formatLabel;
    assert p[i..i + |instruction|] == instruction;
    ContainsAt(p, videoUrl, u);
    ContainsAt(p, formatLabel, l);
    ContainsAt(p, instruction, i);
  }

  /** The first candidate, if any. */
  predicate Blocked(response: GenResponse) {
    response.candidates.None? || |response.candidates.value| == 0 ||
    response.candidates.value[0].finishReason == Some("SAFETY")
  }

  /** The try block after the call: the checks in source order; a failure carries the error thrown. */
  function Attempt(reply: GenReply): Result<string, JsError> {
    match reply
    case Threw(e) => Failure(e)
    case Replied(response) =>
      if Blocked(response) then Failure(PlainError(BlockedMessage))
      else match response.text
        case None => Failure(TrimOfUndefined)
        case Some(text) =>
          if Trim(text) == "" then Failure(PlainError(EmptyMessage)) else Success(Trim(text))
  }

  /**
   * The catch block: credentials first (a lower-cased error text containing the marker), then
   * any error with a message is re-thrown with it verbatim, and only a message-less one becomes
   * the generic message.
   */
  function Normalize(e: JsError): (message: string)
    ensures message != ""
    ensures Contains(Lower(ErrorToString(e)), ApiKeyMarker) ==> message == MisconfiguredMessage
    ensures !Contains(Lower(ErrorToString(e)), ApiKeyMarker) && e.message != "" ==> message == e.message
    ensures !Contains(Lower(ErrorToString(e)), ApiKeyMarker) && e.message == "" ==> message == UnavailableMessage
  {
    if Contains(Lower(ErrorToString(e)), ApiKeyMarker) then MisconfiguredMessage
    else if e.message != "" then e.message
    else UnavailableMessage
  }

  /** `generateSummary` as seen by the caller, given what the model call settled to. */
  function Generated(reply: GenReply): Result<string, string> {
    match Attempt(reply)
    case Success(text) => Success(text)
    case Failure(e) => Failure(Normalize(e))
  }

  /** A text in which no lower-cased "p" is followed by a lower-cased "i" cannot contain the marker. */
  lemma MarkerNeedsPair(s: string)
    requires NoPair(s, 'p', 'i')
    ensures !Contains(Lower(s), ApiKeyMarker)
  {
    assert ApiKeyMarker[1] == 'p' && ApiKeyMarker[2] == 'i';
    LowerPairRulesOut(s, ApiKeyMarker, 1);
  }

  /** Joins two pieces free of "pi" whose seam does not form one. */
  lemma JoinPieces(a: string, b: string) returns (ab: string)
    requires NoPair(a, 'p', 'i') && NoPair(b, 'p', 'i')
    requires a != [] && b != [] && !(LowerChar(a[|a| - 1]) == 'p' && LowerChar(b[0]) == 'i')
    ensures ab == a + b && NoPair(ab, 'p', 'i')
  {
    NoPairConcat(a, b, 'p', 'i');
    ab := a + b;
  }

  // The pieces of the component's own error texts, each free of "pi". A fact about a string
  // literal costs the verifier far more than its length suggests once the literal grows past a
  // few words, so each message is written as short pieces with one small lemma per piece, and
  // `JoinPieces` combines them in the order the message constant concatenates them.
  lemma PieceErrorName() ensures NoPair("Error", 'p', 'i') && NoPair("TypeError", 'p', 'i') && NoPair(": ", 'p', 'i') {}
  lemma PieceBlocked1() ensures NoPair("Summary ", 'p', 'i') {}
  lemma PieceBlocked2() ensures NoPair("generation was ", 'p', 'i') {}
  lemma PieceBlocked3() ensures NoPair("blocked. ", 'p', 'i') {}
  lemma PieceBlocked4() ensures NoPair("This may be due ", 'p', 'i') {}
  lemma PieceBlocked5() ensures NoPair("to the video's ", 'p', 'i') {}
  lemma PieceBlocked6() ensures NoPair("content ", 'p', 'i') {}
  lemma PieceBlocked7() ensures NoPair("violating ", 'p', 'i') {}
  lemma PieceBlocked8() ensures NoPair("safety policies.", 'p', 'i') {}
  lemma PieceEmpty1() ensures NoPair("The AI was ", 'p', 'i') {}
  lemma PieceEmpty2() ensures NoPair("unable to ", 'p', 'i') {}
  lemma PieceEmpty3() ensures NoPair("generate a ", 'p', 'i') {}
  lemma PieceEmpty4() ensures NoPair("summary. ", 'p', 'i') {}
  lemma PieceEmpty5() ensures NoPair("This can happen ", 'p', 'i') {}
  lemma PieceEmpty6() ensures NoPair("if the video ", 'p', 'i') {}
  lemma PieceEmpty7() ensures NoPair("is not ", 'p', 'i') {}
  lemma PieceEmpty8() ensures NoPair("well-documented ", 'p', 'i') {}
  lemma PieceEmpty9() ensures NoPair("online or has ", 'p', 'i') {}
  lemma PieceEmpty10() ensures NoPair("no public ", 'p', 'i') {}
  lemma PieceEmpty11() ensures NoPair("transcript.", 'p', 'i') {}
  lemma PieceTrim1() ensures NoPair("Cannot read ", 'p', 'i') {}
  lemma PieceTrim2() ensures NoPair("properties of ", 'p', 'i') {}
  lemma PieceTrim3() ensures NoPair("undefined ", 'p', 'i') {}
  lemma PieceTrim4() ensures NoPair("(reading 'trim')", 'p', 'i') {}

  /** The blocked message, thrown as `new Error(...)`, does not mention the API-key marker. */
  lemma BlockedLacksMarker()
    ensures !Contains(Lower(ErrorToString(PlainError(BlockedMessage))), ApiKeyMarker)
  {
    PieceErrorName(); PieceBlocked1(); PieceBlocked2(); PieceBlocked3(); PieceBlocked4(); PieceBlocked5(); PieceBlocked6(); PieceBlocked7(); PieceBlocked8();
    var m1 := JoinPieces("Summary ", "generation was ");
    var m2 := JoinPieces(m1, "blocked. ");
    var m3 := JoinPieces(m2, "This may be due ");
    var m4 := JoinPieces(m3, "to the video's ");
    var m5 := JoinPieces(m4, "content ");
    var m6 := JoinPieces(m5, "violating ");
    var m7 := JoinPieces(m6, "safety policies.");
    var n := JoinPieces("Error", ": ");
    var z := JoinPieces(n, m7);
    assert ErrorToString(PlainError(BlockedMessage)) == z;
    MarkerNeedsPair(z);
  }

  /** Nor does the "unable to generate" message. */
  lemma EmptyLacksMarker()
    ensures !Contains(Lower(ErrorToString(PlainError(EmptyMessage))), ApiKeyMarker)
  {
    PieceErrorName(); PieceEmpty1(); PieceEmpty2(); PieceEmpty3(); PieceEmpty4(); PieceEmpty5(); PieceEmpty6(); PieceEmpty7(); PieceEmpty8(); PieceEmpty9(); PieceEmpty10(); PieceEmpty11();
    var m1 := JoinPieces("The AI was ", "unable to ");
    var m2 := JoinPieces(m1, "generate a ");
    var m3 := JoinPieces(m2, "summary. ");
    var m4 := JoinPieces(m3, "This can happen ");
    var m5 := JoinPieces(m4, "if the video ");
    var m6 := JoinPieces(m5, "is not ");
    var m7 := JoinPieces(m6, "well-documented ");
    var m8 := JoinPieces(m7, "online or has ");
    var m9 := JoinPieces(m8, "no public ");
    var m10 := JoinPieces(m9, "transcript.");
    var n := JoinPieces("Error", ": ");
    var z := JoinPieces(n, m10);
    assert ErrorToString(PlainError(EmptyMessage)) == z;
    MarkerNeedsPair(z);
  }

  /** Nor does the TypeError of an undefined `text`. */
  lemma TrimErrorLacksMarker()
    ensures !Contains(Lower(ErrorToString(TrimOfUndefined)), ApiKeyMarker)
  {
    PieceErrorName(); PieceTrim1(); PieceTrim2(); PieceTrim3(); PieceTrim4();
    var m1 := JoinPieces("Cannot read ", "properties of ");
    var m2 := JoinPieces(m1, "undefined ");
    var m3 := JoinPieces(m2, "(reading 'trim')");
    var n := JoinPieces("TypeError", ": ");
    var z := JoinPieces(n, m3);
    assert ErrorToString(TrimOfUndefined) == z;
    MarkerNeedsPair(z);
  }

  /**
   * The outcome of generation, case by case: a missing or empty candidate list or a SAFETY stop
   * gives the blocked message, an undefined text the engine's TypeError message, blank text the
   * "unable" message, and otherwise the trimmed text, which is never empty; a thrown error goes
   * through the catch block. Every failure message is non-empty.
   */
  lemma GeneratedCases(reply: GenReply)
    ensures reply.Threw? ==> Generated(reply) == Failure(Normalize(reply.err))
    ensures reply.Replied? && Blocked(reply.response) ==> Generated(reply) == Failure(BlockedMessage)
    ensures reply.Replied? && !Blocked(reply.response) && reply.response.text.None? ==>
      Generated(reply) == Failure(TrimOfUndefined.message)
    ensures reply.Replied? && !Blocked(reply.response) && reply.response.text.Some? ==>
      if Trim(reply.response.text.value) == "" then Generated(reply) == Failure(EmptyMessage)
      else Generated(reply) == Success(Trim(reply.response.text.value))
    ensures Generated(reply).Success? ==>
      var t := Generated(reply).value;
      t != "" && !IsSpace(t[0]) && !IsSpace(t[|t| - 1])
    ensures Generated(reply).Failure? ==> Generated(reply).error != ""
  {
    if reply.Replied? {
      var response := reply.response;
      if Blocked(response) {
        GeneratedWhenBlocked(response);
      } else if response.text.None? {
        GeneratedWhenUndefined(response);
      } else if Trim(response.text.value) == "" {
        GeneratedWhenBlank(response);
      }
    }
  }

  lemma GeneratedWhenBlocked(response: GenResponse)
    requires Blocked(response)
    ensures Generated(Replied(response)) == Failure(BlockedMessage)
  {
    BlockedLacksMarker();
  }

  lemma GeneratedWhenUndefined(response: GenResponse)
    requires !Blocked(response) && response.text.None?
    ensures Generated(Replied(response)) == Failure(TrimOfUndefined.message)
  {
    TrimErrorLacksMarker();
  }

  lemma GeneratedWhenBlank(response: GenResponse)
    requires !Blocked(response) && response.text.Some? && Trim(response.text.value) == ""
    ensures Generated(Replied(response)) == Failure(EmptyMessage)
  {
    EmptyLacksMarker();
  }

  /** An error whose text names an invalid API key is reported as misconfiguration, whatever its message. */
  lemma CredentialsCheckFirst(e: JsError)
    requires Contains(Lower(ErrorToString(e)), ApiKeyMarker)
    ensures Generated(Threw(e)) == Failure(MisconfiguredMessage)
  {
  }


  /**
   * `generateSummary(videoUrl, format)`: picks the instruction in a switch, builds the prompt it
   * sends, and settles like `Generated` on the model's reply to that prompt.
   */
  method GenerateSummary(videoUrl: string, format: SummaryFormat, reply: GenReply)
    returns (prompt: string, outcome: Result<string, string>)
    ensures prompt == Prompt(videoUrl, Label(format), Instruction(format))
    ensures outcome == Generated(reply)
  {
    var formatInstruction := "";
    match format {
      case KeyTopics =>
        formatInstruction := KeyTopicsInstruction;
      case DetailedParagraph =>
        formatInstruction := DetailedParagraphInstruction;
      case Abstract =>
        formatInstruction := AbstractInstruction;
    }
    prompt := Prompt(videoUrl, Label(format), formatInstruction);
    match Attempt(reply) {
      case Success(text) =>
        outcome := Success(text);
      case Failure(e) =>
        outcome := Failure(Normalize(e));
    }
  }
}
