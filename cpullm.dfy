/**
 * The CPU chat hook of src/hooks/useCpuLLM.ts: a chat history plus a few flags, a
 * one-time load of the text-generation pipeline that reports its progress, and a chat
 * turn that sends a ChatML prompt, cleans the generated answer and appends either it
 * or a fixed fallback reply. The pipeline is left abstract: loading is given its
 * progress events and its outcome, and a turn is given what generation returns.
 */
module CpuLLM {
  import opened Wrappers
  import opened Text
  import opened Messages

  const InitialProgress := "Initiating Engine..."
  const DownloadingPrefix := "Downloading Brain: "
  const ModelReady := "Model Ready."
  const LoadingDefault := "Loading..."
  const ReadyProgress := "Ready (Qwen Smart Mode)"
  const LoadFailedMessage := "Failed to load AI model. Please refresh."
  const GenerationFailedMessage := "Failed to generate response."
  const FallbackAnswer := "I encountered an error while processing that."

  /** The ChatML end-of-turn tag. */
  const EndTag := "<|im_end|>"
  /** Closes the system turn and opens the user turn. */
  const UserTurn := "<|im_end|>\n<|im_start|>user\n"
  /** Closes the user turn and opens the assistant turn the model completes. */
  const AssistantTurn := "<|im_end|>\n<|im_start|>assistant\n"

  /** The grounded system turn up to the point where the context is inserted. */
  const RagSystem := "<|im_start|>system\nYou are a helpful technical assistant.\n1. Answer the user's question using ONLY the context provided below.\n2. Format your response using Markdown:\n   - Use **bold** for key terms.\n   - Use - bullet points for lists.\n   - Use ### Headers for distinct sections.\n3. If the answer is not in the context, politely say you don't know.\nContext:\n"
  /** The general system turn, used without context. */
  const GeneralSystem := "<|im_start|>system\nYou are a helpful AI assistant. Format your answers clearly with Markdown (Bold, Bullets)."

  // ---------------------------------------------------------------- load progress

  /**
   * One `progress_callback` event: its `status` (`""` when absent) and the rounded
   * percentage `Math.round((progress || 0) * 100)`.
   */
  datatype Report = Report(status: string, percent: int)

  /** The progress line an event sets. */
  function ProgressText(r: Report): (t: string)
  {
    if r.status == "progress" then DownloadingPrefix + IntToString(r.percent) + "%"
    else if r.status == "done" then ModelReady
    else if r.status == "" then LoadingDefault
    else r.status
  }

  /**
   * A progress line is never empty; it reads "Model Ready." exactly for a `done`
   * event or a status that is that text itself; any other status but `progress` is
   * shown as it is; and a download event shows its percentage between the prefix and
   * the percent sign.
   */
  lemma ProgressTextSpec(r: Report)
    ensures ProgressText(r) != []
    ensures ProgressText(r) == ModelReady <==> r.status == "done" || r.status == ModelReady
    ensures r.status !in {"progress", "done", ""} ==> ProgressText(r) == r.status
    ensures r.status == "progress" ==>
      var t := ProgressText(r);
      |DownloadingPrefix| < |t| && t[..|DownloadingPrefix|] == DownloadingPrefix &&
      t[|DownloadingPrefix|..|t| - 1] == IntToString(r.percent) && t[|t| - 1] == '%'
  {
    var t := ProgressText(r);
    if r.status == "progress" {
      assert t[0] == 'D';
      assert t == DownloadingPrefix + (IntToString(r.percent) + "%");
    } else if r.status == "" {
      assert |t| != |ModelReady|;
    }
  }

  /** The progress line after a run of events, starting from `initial`. */
  function LastProgress(initial: string, reports: seq<Report>): (t: string)
  {
    if reports == [] then initial else ProgressText(reports[|reports| - 1])
  }

  // ---------------------------------------------------------------- the prompt

  /** `context && context.trim().length > 0`: the turn is grounded in the given context. */
  predicate Grounded(context: string) {
    Trim(context) != []
  }

  /** A context grounds the turn exactly when it holds a character other than whitespace. */
  lemma GroundedIff(context: string)
    ensures Grounded(context) <==> exists i :: 0 <= i < |context| && !IsSpace(context[i])
  {
    TrimSpec(context);
  }

  // ---------------------------------------------------------------- answer cleanup

  /** `answer.replace('<|im_end|>', '').trim()`. */
  function CleanAnswer(text: string): (a: string)
    ensures |a| <= |text|
  {
    Trim(ReplaceFirst(text, EndTag, ""))
  }

  /** A cleaned answer has no whitespace at either end, and text without the tag is only trimmed. */
  lemma CleanAnswerSpec(text: string)
    ensures IsTrimmed(CleanAnswer(text))
    ensures IndexOf(text, EndTag) < 0 ==> CleanAnswer(text) == Trim(text)
  {
    TrimSpec(ReplaceFirst(text, EndTag, ""));
  }

  /** In `body` followed by the tag, with no tag in `body`, no occurrence starts before the appended one. */
  lemma NoEarlierTag(body: string, k: nat)
    requires IndexOf(body, EndTag) < 0 && k < |body|
    ensures !OccursAt(body + EndTag, EndTag, k)
  {
    var s := body + EndTag;
    if k + |EndTag| <= |body| {
      assert !OccursAt(body, EndTag, k);
      assert s[k..k + |EndTag|] == body[k..k + |EndTag|];
    } else if k + |EndTag| <= |s| {
      var j := |body| - k;
      assert EndTag == ['<', '|', 'i', 'm', '_', 'e', 'n', 'd', '|', '>'];
      assert s[k..k + |EndTag|][j] == s[|body|] == '<';
      assert EndTag[j] != '<';
    }
  }

  /**
   * An answer that ends with a stray end tag, and has no other, loses exactly that tag:
   * the cleaned answer is the trimmed text before it.
   */
  lemma {:induction false} CleanTaggedAnswer(body: string)
    requires IndexOf(body, EndTag) < 0
    ensures CleanAnswer(body + EndTag) == Trim(body)
  {
    var s := body + EndTag;
    assert s[|body|..|body| + |EndTag|] == EndTag;
    assert OccursAt(s, EndTag, |body|);
    forall k: nat | k < |body|
      ensures !OccursAt(s, EndTag, k)
    {
      NoEarlierTag(body, k);
    }
    var i := IndexOf(s, EndTag);
    assert i == |body|;
    assert ReplaceFirst(s, EndTag, "") == s[..i] + "" + s[i + |EndTag|..];
    assert s[..i] == body && s[i + |EndTag|..] == [];
    assert ReplaceFirst(s, EndTag, "") == body;
  }

  /** The cleaned answer when generation returned one that is not empty after cleanup. */
  function Answer(generation: Result<string>): (a: Option<string>)
  {
    if generation.Success? && CleanAnswer(generation.value) != [] then Some(CleanAnswer(generation.value))
    else None
  }

  /** The assistant message a turn appends: the cleaned answer, or the fallback when generation failed. */
  function Reply(generation: Result<string>): (r: string)
  {
    match Answer(generation)
    case Some(a) => a
    case None => FallbackAnswer
  }

  /**
   * Every reply shown is non-empty, and a generated one is trimmed; a generation that
   * throws gets the fallback; a generated text without tags is shown trimmed unless it is all whitespace.
   */
  lemma ReplySpec(generation: Result<string>)
    ensures Reply(generation) != []
    ensures Answer(generation).Some? ==> IsTrimmed(Reply(generation))
    ensures generation.Failure? ==> Reply(generation) == FallbackAnswer
    ensures generation.Success? && IndexOf(generation.value, EndTag) < 0 && !AllSpace(generation.value) ==>
      Reply(generation) == Trim(generation.value)
  {
    if generation.Success? {
      CleanAnswerSpec(generation.value);
      TrimSpec(generation.value);
    }
  }

  // ---------------------------------------------------------------- the hook

  class CpuChat {
    var messages: seq<Message>
    var isLoading: bool
    var isModelLoading: bool
    var progress: string
    var error: Option<string>
    /** `generatorRef.current !== null`. */
    var generatorLoaded: bool
    /** `initializingRef.current`. */
    var initializing: bool

    /** The two fixed system turns, as the constructor sets them. */
    const ragSystem: string
    const generalSystem: string

    /** A generator only exists once loading has started and finished. */
    ghost predicate Valid()
      reads this
    {
      generatorLoaded ==> initializing && !isModelLoading
    }

    constructor ()
      ensures ragSystem == RagSystem && generalSystem == GeneralSystem
      ensures Valid()
      ensures messages == [] && !isLoading && isModelLoading && progress == InitialProgress
      ensures error == None && !generatorLoaded && !initializing
    {
      ragSystem := RagSystem;
      generalSystem := GeneralSystem;
      messages := [];
      isLoading := false;
      isModelLoading := true;
      progress := InitialProgress;
      error := None;
      generatorLoaded := false;
      initializing := false;
    }

    /** The system turn: the grounded instructions followed by the context, or the general one. */
    function SystemTurn(context: string): (t: string)
    {
      if Grounded(context) then ragSystem + context else generalSystem
    }

    /** The ChatML prompt of a turn: system turn, user turn, and the opened assistant turn. */
    function Prompt(userMessage: string, context: string): (p: string)
    {
      SystemTurn(context) + UserTurn + userMessage + AssistantTurn
    }

    /**
     * Every prompt ends with the user's message in its own turn followed by the opened
     * assistant turn; a grounded prompt holds the context right after the grounded
     * instructions, and any other prompt starts with the general instructions.
     */
    lemma PromptShape(userMessage: string, context: string)
      ensures EndsWith(Prompt(userMessage, context), UserTurn + userMessage + AssistantTurn)
      ensures EndsWith(Prompt(userMessage, context), AssistantTurn)
      ensures Grounded(context) ==>
        var p := Prompt(userMessage, context);
        |ragSystem| + |context| <= |p| && p[..|ragSystem|] == ragSystem &&
        p[|ragSystem|..|ragSystem| + |context|] == context
      ensures !Grounded(context) ==>
        var p := Prompt(userMessage, context);
        |generalSystem| <= |p| && p[..|generalSystem|] == generalSystem
    {
      var p := Prompt(userMessage, context);
      var tail := UserTurn + userMessage + AssistantTurn;
      assert p == SystemTurn(context) + tail;
      if Grounded(context) {
        assert p == ragSystem + context + tail;
        assert p[..|ragSystem| + |context|] == ragSystem + context;
      }
    }

    /**
     * The mount effect `init`: nothing when loading has started; otherwise the progress
     * line follows the pipeline's events, and loading ends with the generator ready or
     * with the load error.
     */
    method Init(reports: seq<Report>, load: Outcome)
      requires Valid()
      modifies this
      ensures Valid()
      ensures old(initializing) ==> unchanged(this)
      ensures !old(initializing) ==>
        && initializing && !isModelLoading
        && messages == old(messages) && isLoading == old(isLoading)
        && (load.Pass? ==> generatorLoaded && progress == ReadyProgress && error == None)
        && (load.Fail? ==>
              && generatorLoaded == old(generatorLoaded) && error == Some(LoadFailedMessage)
              && progress == LastProgress(old(progress), reports))
    {
      if initializing {
        return;
      }
      initializing := true;
      for k := 0 to |reports|
        invariant progress == LastProgress(old(progress), reports[..k])
        invariant initializing && messages == old(messages) && isLoading == old(isLoading)
        invariant isModelLoading == old(isModelLoading) && error == old(error)
        invariant generatorLoaded == old(generatorLoaded)
      {
        progress := ProgressText(reports[k]);
        assert reports[..k + 1][k] == reports[k];
      }
      assert reports[..|reports|] == reports;
      match load {
        case Pass =>
          generatorLoaded := true;
          isModelLoading := false;
          progress := ReadyProgress;
          error := None;
        case Fail(_) =>
          error := Some(LoadFailedMessage);
          isModelLoading := false;
      }
    }

    /**
     * `onChat(userMessage, context)`: nothing without a generator or while a turn is
     * loading. Otherwise the error is cleared, the user message appended and the prompt
     * sent; the cleaned answer is appended, or, when generation throws or the cleaned
     * answer is empty, the error is set and the fallback reply appended. `isLoading` is
     * cleared at the end.
     */
    method OnChat(userMessage: string, context: string, generation: Result<string>)
      returns (prompt: Option<string>)
      requires Valid()
      modifies this
      ensures Valid()
      ensures !old(generatorLoaded) || old(isLoading) ==> prompt == None && unchanged(this)
      ensures old(generatorLoaded) && !old(isLoading) ==>
        && prompt == Some(Prompt(userMessage, context))
        && messages == old(messages) + [Message(User, userMessage), Message(Assistant, Reply(generation))]
        && error == (if Answer(generation).Some? then None else Some(GenerationFailedMessage))
        && !isLoading
        && isModelLoading == old(isModelLoading) && progress == old(progress)
        && generatorLoaded == old(generatorLoaded) && initializing == old(initializing)
    {
      if !generatorLoaded || isLoading {
        return None;
      }
      isLoading := true;
      error := None;
      messages := messages + [Message(User, userMessage)];
      prompt := Some(Prompt(userMessage, context));
      var failed := false;
      match generation {
        case Failure(_) =>
          failed := true;
        case Success(text) =>
          var answer := CleanAnswer(text);
          if answer == [] {
            failed := true;
          } else {
            messages := messages + [Message(Assistant, answer)];
          }
      }
      if failed {
        error := Some(GenerationFailedMessage);
        messages := messages + [Message(Assistant, FallbackAnswer)];
      }
      isLoading := false;
    }
  }
}
