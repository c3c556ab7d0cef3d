/**
 * The drop handler of src/components/layout/Sidebar.tsx: each dropped file in turn is
 * extracted, checked for text and added to the vector store, and on success appended
 * to the page's file list and graph; a failing file is reported and the next one
 * processed. Text extraction is given as one result per file.
 */
module Sidebar {
  import opened Wrappers
  import opened Text
  import opened VectorStore
  import opened Page

  const EmptyTextMessage := "PDF extraction resulted in empty text"
  const StoreErrorPrefix := "Vector store error: "

  /** `!text || text.trim().length === 0`: the extracted text is unusable. */
  predicate Blank(text: string) {
    text == [] || Trim(text) == []
  }

  /** The sidebar rejects a text exactly when the store would find no text content in it. */
  lemma BlankIff(text: string)
    ensures Blank(text) <==> AllSpace(text)
  {
    TrimSpec(text);
  }

  /**
   * What becomes of one file, given its extraction and whether the store's embedder is
   * or gets loaded: the extraction error, the empty-text error, the store error, or success.
   */
  function FileOutcome(extracted: Result<string>, storeReady: bool): (o: Outcome)
  {
    match extracted
    case Failure(message) => Fail(message)
    case Success(text) =>
      if Blank(text) then Fail(EmptyTextMessage)
      else if !storeReady then Fail(StoreErrorPrefix + InitFailedMessage)
      else Pass
  }

  /** A file succeeds exactly when its text was extracted, is not blank, and the store is ready. */
  lemma FileOutcomeSpec(extracted: Result<string>, storeReady: bool)
    ensures FileOutcome(extracted, storeReady).Pass? <==>
      extracted.Success? && !AllSpace(extracted.value) && storeReady
    ensures extracted.Success? ==> FileOutcome(extracted, storeReady) != Fail(StoreErrorPrefix + NoTextMessage)
  {
    if extracted.Success? {
      BlankIff(extracted.value);
      assert |EmptyTextMessage| != |StoreErrorPrefix + NoTextMessage|;
      assert |InitFailedMessage| != |NoTextMessage|;
    }
  }

  /** The files whose outcome is a success, in their order. */
  function Kept(files: seq<File>, outcomes: seq<Outcome>): (r: seq<File>)
    requires |files| == |outcomes|
    ensures |r| <= |files|
  {
    if files == [] then []
    else
      var prev := Kept(files[..|files| - 1], outcomes[..|outcomes| - 1]);
      if outcomes[|outcomes| - 1].Pass? then prev + [files[|files| - 1]] else prev
  }

  /** Kept files are files that succeeded. */
  lemma {:induction false} KeptSucceeded(files: seq<File>, outcomes: seq<Outcome>)
    requires |files| == |outcomes|
    ensures forall f :: f in Kept(files, outcomes) ==>
      exists k :: 0 <= k < |files| && outcomes[k].Pass? && files[k] == f
  {
    if files != [] {
      var n := |files| - 1;
      KeptSucceeded(files[..n], outcomes[..n]);
      forall f | f in Kept(files, outcomes)
        ensures exists k :: 0 <= k < |files| && outcomes[k].Pass? && files[k] == f
      {
        if f in Kept(files[..n], outcomes[..n]) {
          var k :| 0 <= k < n && outcomes[..n][k].Pass? && files[..n][k] == f;
          assert outcomes[k].Pass? && files[k] == f;
        } else {
          assert outcomes[n].Pass? && files[n] == f;
        }
      }
    }
  }

  /** Every file that succeeded is kept. */
  lemma {:induction false} SucceededKept(files: seq<File>, outcomes: seq<Outcome>, k: nat)
    requires |files| == |outcomes| && k < |files| && outcomes[k].Pass?
    ensures files[k] in Kept(files, outcomes)
  {
    var n := |files| - 1;
    if k < n {
      SucceededKept(files[..n], outcomes[..n], k);
    }
  }

  /** When every file succeeds, all are kept in order. */
  lemma {:induction false} AllKept(files: seq<File>, outcomes: seq<Outcome>)
    requires |files| == |outcomes|
    requires forall k :: 0 <= k < |outcomes| ==> outcomes[k].Pass?
    ensures Kept(files, outcomes) == files
  {
    if files != [] {
      var n := |files| - 1;
      AllKept(files[..n], outcomes[..n]);
      assert files[..n] + [files[n]] == files;
    }
  }

  /** The kept files of one more file. */
  lemma KeptStep(files: seq<File>, outcomes: seq<Outcome>, i: nat, o: Outcome)
    requires |outcomes| == i < |files|
    ensures Kept(files[..i + 1], outcomes + [o]) == Kept(files[..i], outcomes) + (if o.Pass? then [files[i]] else [])
  {
    assert files[..i + 1][..i] == files[..i];
    assert (outcomes + [o])[..i] == outcomes;
  }

  function Names(files: seq<File>): (names: seq<string>)
    ensures |names| == |files|
  {
    seq(|files|, k requires 0 <= k < |files| => files[k].name)
  }

  /** The graph after one more document. */
  lemma AddedName(g: GraphData, kept: seq<File>, file: File)
    ensures WithDocuments(g, Names(kept + [file])) == WithDocument(WithDocuments(g, Names(kept)), file.name)
  {
    var names := Names(kept + [file]);
    assert names[..|kept|] == Names(kept);
  }

  /**
   * The batch after its first `|outcomes|` files: each has the outcome its own
   * extraction calls for, and the file list and graph, from `files0` and `graph0`,
   * gained exactly the files that succeeded so far.
   */
  ghost predicate Tracked(accepted: seq<File>, extracted: seq<Result<string>>, outcomes: seq<Outcome>, ready: bool,
                          files0: seq<File>, graph0: GraphData, files: seq<File>, graph: GraphData) {
    && |outcomes| <= |accepted| == |extracted|
    && (forall k :: 0 <= k < |outcomes| ==> outcomes[k] == FileOutcome(extracted[k], ready))
    && files == files0 + Kept(accepted[..|outcomes|], outcomes)
    && graph == WithDocuments(graph0, Names(Kept(accepted[..|outcomes|], outcomes)))
  }

  /** Processing the next file extends the batch by its outcome, adding the file only on success. */
  lemma TrackedStep(accepted: seq<File>, extracted: seq<Result<string>>, outcomes: seq<Outcome>, ready: bool,
                    files0: seq<File>, graph0: GraphData, files: seq<File>, graph: GraphData, o: Outcome)
    requires Tracked(accepted, extracted, outcomes, ready, files0, graph0, files, graph)
    requires |outcomes| < |accepted| && o == FileOutcome(extracted[|outcomes|], ready)
    ensures var file := accepted[|outcomes|];
      Tracked(accepted, extracted, outcomes + [o], ready, files0, graph0,
              files + (if o.Pass? then [file] else []),
              if o.Pass? then WithDocument(graph, file.name) else graph)
  {
    var i, file := |outcomes|, accepted[|outcomes|];
    var kept := Kept(accepted[..i], outcomes);
    KeptStep(accepted, outcomes, i, o);
    if o.Pass? {
      assert Kept(accepted[..i + 1], outcomes + [o]) == kept + [file];
      AddedName(graph0, kept, file);
    } else {
      assert Kept(accepted[..i + 1], outcomes + [o]) == kept;
    }
  }

  /** The body of `onDrop`'s loop for one file, its `try` and `catch` together. */
  method ProcessFile(file: File, extracted: Result<string>, home: Home, store: Store, loadOk: bool)
    returns (outcome: Outcome)
    requires home.Valid() && store.Valid()
    modifies home, store
    ensures home.Valid() && store.Valid()
    ensures outcome == FileOutcome(extracted, old(store.isReady) || loadOk)
    ensures home.files == old(home.files) + (if outcome.Pass? then [file] else [])
    ensures home.graph == if outcome.Pass? then WithDocument(old(home.graph), file.name) else old(home.graph)
    ensures home.selectedFile == old(home.selectedFile) && home.isPreviewOpen == old(home.isPreviewOpen)
    ensures old(store.documents) <= store.documents
    ensures old(store.isReady) ==> store.isReady
    ensures store.isReady ==> old(store.isReady) || loadOk
  {
    match extracted {
      case Failure(message) =>
        outcome := Fail(message);
      case Success(text) =>
        if Blank(text) {
          return Fail(EmptyTextMessage);
        }
        BlankIff(text);
        var stored := store.AddDocument(file.name, text, loadOk);
        if stored.Fail? {
          return Fail(StoreErrorPrefix + stored.message);
        }
        home.AddFile(file);
        home.HandleDocumentAdded(file.name);
        outcome := Pass;
    }
  }

  class SidebarPanel {
    var isProcessing: bool

    constructor ()
      ensures !isProcessing
    {
      isProcessing := false;
    }

    /**
     * `onDrop(acceptedFiles)`: processes the files in order, each failure isolated to
     * its file; the page's file list and graph gain exactly the files that succeeded,
     * in order, and `isProcessing` is set for the batch and cleared after it.
     */
    method OnDrop(acceptedFiles: seq<File>, extracted: seq<Result<string>>, home: Home, store: Store, loadOk: bool)
      returns (outcomes: seq<Outcome>)
      requires |extracted| == |acceptedFiles|
      requires home.Valid() && store.Valid()
      modifies this, home, store
      ensures home.Valid() && store.Valid() && !isProcessing
      ensures |outcomes| == |acceptedFiles|
      ensures forall k :: 0 <= k < |outcomes| ==> outcomes[k] == FileOutcome(extracted[k], old(store.isReady) || loadOk)
      ensures home.files == old(home.files) + Kept(acceptedFiles, outcomes)
      ensures home.graph == WithDocuments(old(home.graph), Names(Kept(acceptedFiles, outcomes)))
      ensures home.selectedFile == old(home.selectedFile) && home.isPreviewOpen == old(home.isPreviewOpen)
      ensures old(store.documents) <= store.documents
    {
      isProcessing := true;
      ghost var ready, files0, graph0 := store.isReady || loadOk, home.files, home.graph;
      outcomes := [];
      var i := 0;
      while i < |acceptedFiles|
        invariant 0 <= i <= |acceptedFiles| && |outcomes| == i
        invariant Tracked(acceptedFiles, extracted, outcomes, ready, files0, graph0, home.files, home.graph)
        invariant isProcessing && home.Valid() && store.Valid()
        invariant home.selectedFile == old(home.selectedFile) && home.isPreviewOpen == old(home.isPreviewOpen)
        invariant old(store.documents) <= store.documents
        invariant old(store.isReady) ==> store.isReady
        invariant store.isReady ==> ready
      {
        ghost var files, graph := home.files, home.graph;
        var outcome := ProcessFile(acceptedFiles[i], extracted[i], home, store, loadOk);
        TrackedStep(acceptedFiles, extracted, outcomes, ready, files0, graph0, files, graph, outcome);
        outcomes := outcomes + [outcome];
        i := i + 1;
      }
      assert acceptedFiles[..i] == acceptedFiles;
      isProcessing := false;
    }
  }
}
