/**
 * The floating chat box of src/components/layout/ChatFloat.tsx: its submit handler
 * takes the typed query, searches the vector store for context and hands both to the
 * GPU chat hook.
 */
module ChatFloat {
  import opened Wrappers
  import opened Text
  import opened Messages
  import opened VectorStore
  import opened WebLLM

  /** The number of search results asked for as context. */
  const ContextResults := 4
  const ContextSeparator := "\n\n"

  /** What a submission hands to `onChat`: the query as typed and the context built for it. */
  datatype Turn = Turn(query: string, context: string)

  function Contents(results: seq<SearchResultItem>): (contents: seq<string>)
    ensures |contents| == |results|
  {
    seq(|results|, k requires 0 <= k < |results| => results[k].content)
  }

  /** The context of a turn: the result contents joined by blank lines, or `''` without results. */
  function ContextOf(results: seq<SearchResultItem>): (context: string)
  {
    if |results| > 0 then Join(Contents(results), ContextSeparator) else ""
  }

  /**
   * When every result has content, the context is empty exactly when there are no
   * results; it is the one content when there is one, and starts with the first
   * content followed by a blank line when there are more.
   */
  lemma ContextOfSpec(results: seq<SearchResultItem>)
    requires forall k :: 0 <= k < |results| ==> results[k].content != []
    ensures ContextOf(results) == "" <==> results == []
    ensures |results| == 1 ==> ContextOf(results) == results[0].content
    ensures |results| > 1 ==> results[0].content + ContextSeparator <= ContextOf(results)
  {
    if |results| > 0 {
      assert Contents(results)[0] == results[0].content;
    }
  }

  /** Search results from a well-stored store all have content. */
  lemma StoredResultsHaveContent(store: Store, docs: seq<DocumentChunk>, nextId: nat, query: string, limit: int)
    requires store.EmbedderSpec() && WellStored(docs, nextId)
    ensures var r := store.SearchSpec(docs, query, limit);
      forall k :: 0 <= k < |r| ==> r[k].content != []
  {
    var r := store.SearchSpec(docs, query, limit);
    forall k | 0 <= k < |r|
      ensures r[k].content != []
    {
      store.SearchFromStore(docs, query, limit, k);
    }
  }

  class ChatBox {
    var input: string

    constructor ()
      ensures input == ""
    {
      input := "";
    }

    /**
     * `handleSubmit`: ignored when the input is blank or the chat is busy or still
     * loading its model. Otherwise the input is cleared, the store is searched for
     * four results with the query as typed, and the query goes to `onChat` with the
     * joined result contents as context (`''` when there are none).
     */
    method HandleSubmit(chat: WebChat, store: Store, loadOk: bool, completion: Completion)
      returns (sent: Option<Turn>, request: Option<seq<Message>>)
      requires chat.Valid() && store.Valid()
      modifies this, chat, store
      ensures chat.Valid() && store.Valid()
      ensures Trim(old(input)) == [] || old(chat.isLoading) || old(chat.isModelLoading) ==>
        sent == None && request == None && input == old(input) && unchanged(chat) && unchanged(store)
      ensures !(Trim(old(input)) == [] || old(chat.isLoading) || old(chat.isModelLoading)) ==>
        var results := if store.isReady then store.SearchSpec(store.documents, old(input), ContextResults) else [];
        && input == ""
        && store.documents == old(store.documents) && store.isReady == (old(store.isReady) || loadOk)
        && sent == Some(Turn(old(input), ContextOf(results)))
        && request == (if old(chat.engineLoaded)
                       then Some([Message(System, chat.SystemPrompt(ContextOf(results)))] + old(chat.messages) + [Message(User, old(input))])
                       else None)
        && (old(chat.engineLoaded) ==> old(chat.messages) + [Message(User, old(input))] <= chat.messages)
        && (ContextOf(results) == "" <==> results == [])
        && !chat.isLoading
    {
      if Trim(input) == [] || chat.isLoading || chat.isModelLoading {
        return None, None;
      }
      var userQuery := input;
      input := "";
      var context := "";
      var results := store.Search(userQuery, ContextResults, loadOk);
      if |results| > 0 {
        context := Join(Contents(results), ContextSeparator);
      }
      if store.isReady {
        StoredResultsHaveContent(store, store.documents, store.nextId, userQuery, ContextResults);
      }
      ContextOfSpec(results);
      request := chat.OnChat(userQuery, context, completion);
      sent := Some(Turn(userQuery, context));
    }
  }
}
