/**
 * The GPU chat hook of src/hooks/useWebLLM.ts: a chat history plus a few flags, a
 * one-time engine initialisation, and a chat turn that streams the reply into the
 * last message. The engine is left abstract: initialisation is given its progress
 * reports and its outcome, and a chat turn is given what the engine answers.
 */
module WebLLM {
  import opened Wrappers
  import opened Text
  import opened Messages

  const InitialProgress := "Initializing GPU..."
  const ReadyProgress := "GPU Ready."
  const GpuErrorPrefix := "GPU Error: "

  /** The grounded system prompt up to the heading under which the context follows. */
  const GroundedInstructions := "You are an expert research assistant.\nINSTRUCTIONS:\n1. Answer the user's question using ONLY the provided context below. Do not use outside knowledge.\n2. If the answer is not in the context, politely state that the information is missing.\n3. Format your response using clear Markdown:\n   - Use **bold** for key concepts.\n   - Use bullet points for lists.\n   - Use ### Headers to organize long answers.\n4. Keep your tone professional, accurate, and concise.\n\n"
  const GeneralPrompt := "You are an expert AI assistant. \nINSTRUCTIONS:\n1. Provide smart, accurate, and well-reasoned answers.\n2. Format your response using clear Markdown (**bold**, lists, headers).\n3. Be concise and professional."
  const ContextHeading := "CONTEXT:\n"

  /** What the engine does with a turn's request. */
  datatype Completion =
    /** `chat.completions.create` throws with this message. */
    | Refused(message: string)
    /**
     * The stream delivers these chunks, each with or without delta content, and then
     * ends or fails with a message.
     */
    | Streamed(deltas: seq<Option<string>>, failure: Option<string>)

  /** `chunk.choices[0]?.delta.content || ""`. */
  function DeltaText(delta: Option<string>): (t: string)
  {
    match delta
    case None => ""
    case Some(s) => s
  }

  /** `fullResponse` after the given chunks: their delta texts in order. */
  function Accumulated(deltas: seq<Option<string>>): (r: string)
  {
    if deltas == [] then "" else Accumulated(deltas[..|deltas| - 1]) + DeltaText(deltas[|deltas| - 1])
  }

  /** The streamed answer only grows: each partial answer is a prefix of every later one. */
  lemma {:induction false} AccumulatedGrows(deltas: seq<Option<string>>, i: nat, j: nat)
    requires i <= j <= |deltas|
    ensures Accumulated(deltas[..i]) <= Accumulated(deltas[..j])
    decreases j
  {
    if i < j {
      AccumulatedGrows(deltas, i, j - 1);
      assert deltas[..j][..j - 1] == deltas[..j - 1];
    }
  }

  /** Chunks without delta content leave the answer as it was. */
  lemma {:induction false} AccumulatedSkipsEmpty(deltas: seq<Option<string>>)
    requires forall k :: 0 <= k < |deltas| ==> deltas[k] == None || deltas[k] == Some("")
    ensures Accumulated(deltas) == ""
  {
    if deltas != [] {
      AccumulatedSkipsEmpty(deltas[..|deltas| - 1]);
    }
  }

  /**
   * A chunk without delta content leaves the answer as it was: dropping it from the
   * stream, wherever it sits, gives the same answer.
   */
  lemma {:induction false} AccumulatedDropsEmpty(deltas: seq<Option<string>>, k: nat)
    requires k < |deltas| && DeltaText(deltas[k]) == ""
    ensures Accumulated(deltas) == Accumulated(deltas[..k] + deltas[k + 1..])
  {
    var n := |deltas| - 1;
    var dropped := deltas[..k] + deltas[k + 1..];
    if k == n {
      assert dropped == deltas[..n];
    } else {
      var init := deltas[..n];
      AccumulatedDropsEmpty(init, k);
      assert dropped[..|dropped| - 1] == init[..k] + init[k + 1..];
      assert dropped[|dropped| - 1] == deltas[n];
    }
  }

  class WebChat {
    var messages: seq<Message>
    var isLoading: bool
    var isModelLoading: bool
    var progress: string
    var error: Option<string>
    /** `engineRef.current !== null`. */
    var engineLoaded: bool
    /** `initializingRef.current`. */
    var initializing: bool

    /** An engine only exists once initialisation has started and finished. */
    ghost predicate Valid()
      reads this
    {
      engineLoaded ==> initializing && !isModelLoading
    }

    /** The two fixed system prompts, as the constructor sets them. */
    const groundedInstructions: string
    const generalPrompt: string

    constructor ()
      ensures groundedInstructions == GroundedInstructions
      ensures generalPrompt == GeneralPrompt
      ensures Valid()
      ensures messages == [] && !isLoading && isModelLoading && progress == InitialProgress
      ensures error == None && !engineLoaded && !initializing
    {
      groundedInstructions := GroundedInstructions;
      generalPrompt := GeneralPrompt;
      messages := [];
      isLoading := false;
      isModelLoading := true;
      progress := InitialProgress;
      error := None;
      engineLoaded := false;
      initializing := false;
    }

    /**
     * The system prompt of a turn: the grounded prompt with the context appended when
     * the context is truthy (non-empty), otherwise the general prompt.
     */
    function SystemPrompt(context: string): (p: string)
    {
      if context != "" then groundedInstructions + ContextHeading + context else generalPrompt
    }

    /**
     * The grounded prompt is chosen exactly for a non-empty context, ends with the
     * context heading followed by the context, and gives the context back after the
     * fixed preamble.
     */
    lemma SystemPromptChoice(context: string)
      requires |generalPrompt| < |groundedInstructions|
      ensures SystemPrompt(context) == generalPrompt <==> context == ""
      ensures context != "" ==> EndsWith(SystemPrompt(context), ContextHeading + context)
      ensures context != "" ==>
        SystemPrompt(context)[|groundedInstructions + ContextHeading|..] == context
    {
      if context != "" {
        var p := SystemPrompt(context);
        assert p == groundedInstructions + (ContextHeading + context);
      }
    }

    /**
     * The mount effect `init`: nothing when initialisation has started or an engine
     * exists; otherwise the progress line follows the engine's reports, and the load
     * ends with the engine ready or with a GPU error.
     */
    method Init(reports: seq<string>, load: Outcome)
      requires Valid()
      modifies this
      ensures Valid()
      ensures old(initializing) || old(engineLoaded) ==> unchanged(this)
      ensures !old(initializing) && !old(engineLoaded) ==>
        && initializing && !isModelLoading
        && messages == old(messages) && isLoading == old(isLoading)
        && (load.Pass? ==> engineLoaded && progress == ReadyProgress && error == old(error))
        && (load.Fail? ==>
              && !engineLoaded && error == Some(GpuErrorPrefix + load.message)
              && progress == (if reports == [] then old(progress) else reports[|reports| - 1]))
    {
      if initializing || engineLoaded {
        return;
      }
      initializing := true;
      if reports != [] {
        progress := reports[|reports| - 1];
      }
      match load {
        case Pass =>
          engineLoaded := true;
          isModelLoading := false;
          progress := ReadyProgress;
        case Fail(message) =>
          error := Some(GpuErrorPrefix + message);
          isModelLoading := false;
      }
    }

    /**
     * `onChat(userMessage, context)`: nothing without an engine. Otherwise the user
     * message is appended and the request (system prompt, the history before this turn,
     * the user message) goes to the engine. Once the stream opens an empty assistant
     * message is appended and each chunk's delta is added to it; a failure sets
     * `error` and adds no fallback message. `isLoading` is cleared at the end.
     */
    method OnChat(userMessage: string, context: string, completion: Completion)
      returns (request: Option<seq<Message>>)
      requires Valid()
      modifies this
      ensures Valid()
      ensures !old(engineLoaded) ==> request == None && unchanged(this)
      ensures old(engineLoaded) ==>
        && request == Some([Message(System, SystemPrompt(context))] + old(messages) + [Message(User, userMessage)])
        && !isLoading
        && isModelLoading == old(isModelLoading) && progress == old(progress)
        && engineLoaded == old(engineLoaded) && initializing == old(initializing)
        && messages == old(messages) + [Message(User, userMessage)] +
             (if completion.Refused? then [] else [Message(Assistant, Accumulated(completion.deltas))])
        && error == (if completion.Refused? then Some(completion.message)
                     else if completion.failure.Some? then completion.failure else old(error))
    {
      if !engineLoaded {
        return None;
      }
      isLoading := true;
      var history := messages;
      messages := messages + [Message(User, userMessage)];
      var systemPrompt := SystemPrompt(context);
      request := Some([Message(System, systemPrompt)] + history + [Message(User, userMessage)]);
      match completion {
        case Refused(message) =>
          error := Some(message);
        case Streamed(deltas, failure) =>
          var fullResponse := "";
          messages := messages + [Message(Assistant, "")];
          var i := 0;
          while i < |deltas|
            invariant 0 <= i <= |deltas|
            invariant fullResponse == Accumulated(deltas[..i])
            invariant messages == history + [Message(User, userMessage), Message(Assistant, fullResponse)]
            invariant isLoading && error == old(error)
            invariant isModelLoading == old(isModelLoading) && progress == old(progress)
            invariant engineLoaded == old(engineLoaded) && initializing == old(initializing)
          {
            assert deltas[..i + 1][..i] == deltas[..i];
            var delta := DeltaText(deltas[i]);
            fullResponse := fullResponse + delta;
            messages := messages[..|messages| - 1] + [Message(Assistant, fullResponse)];
            i := i + 1;
          }
          assert deltas[..i] == deltas;
          if failure.Some? {
            error := failure;
          }
      }
      isLoading := false;
    }
  }
}
