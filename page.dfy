/**
 * The home page of src/app/page.tsx: the knowledge graph, which grows by one node and
 * one link per ingested document, the list of ingested files, and the preview state.
 */
module Page {
  import opened Wrappers

  /** A dropped file; only its name matters to the model. */
  datatype File = File(name: string)

  datatype GraphNode = GraphNode(id: string, group: int)
  datatype GraphLink = GraphLink(source: string, target: string)
  datatype GraphData = GraphData(nodes: seq<GraphNode>, links: seq<GraphLink>)

  const RootId := "Nexus Root"
  const RootGroup := 1
  const DocumentGroup := 2

  /** `INITIAL_GRAPH_DATA`: the root node alone. */
  const InitialGraph := GraphData([GraphNode(RootId, RootGroup)], [])

  /** The `handleDocumentAdded` updater: one node for the document and one link to it from the root. */
  function WithDocument(g: GraphData, filename: string): (r: GraphData)
    ensures |r.nodes| == |g.nodes| + 1 && |r.links| == |g.links| + 1
  {
    GraphData(g.nodes + [GraphNode(filename, DocumentGroup)], g.links + [GraphLink(RootId, filename)])
  }

  /** The graph after documents with these names were added in this order. */
  function WithDocuments(g: GraphData, names: seq<string>): (r: GraphData)
  {
    if names == [] then g else WithDocument(WithDocuments(g, names[..|names| - 1]), names[|names| - 1])
  }

  predicate HasNode(g: GraphData, id: string) {
    exists j :: 0 <= j < |g.nodes| && g.nodes[j].id == id
  }

  /**
   * The graph's shape: the root node comes first, there is one node more than there
   * are links, and every link joins two nodes of the graph.
   */
  predicate WellFormed(g: GraphData) {
    && |g.nodes| == |g.links| + 1
    && g.nodes[0] == GraphNode(RootId, RootGroup)
    && forall i :: 0 <= i < |g.links| ==> HasNode(g, g.links[i].source) && HasNode(g, g.links[i].target)
  }

  lemma InitialWellFormed()
    ensures WellFormed(InitialGraph)
  {
  }

  /** Adding a document keeps the graph well formed. */
  lemma WithDocumentWellFormed(g: GraphData, filename: string)
    requires WellFormed(g)
    ensures WellFormed(WithDocument(g, filename))
  {
    var r := WithDocument(g, filename);
    assert r.nodes[0] == g.nodes[0] && r.nodes[|g.nodes|].id == filename;
    forall i | 0 <= i < |r.links|
      ensures HasNode(r, r.links[i].source) && HasNode(r, r.links[i].target)
    {
      if i < |g.links| {
        var a :| 0 <= a < |g.nodes| && g.nodes[a].id == g.links[i].source;
        var b :| 0 <= b < |g.nodes| && g.nodes[b].id == g.links[i].target;
        assert r.nodes[a] == g.nodes[a] && r.nodes[b] == g.nodes[b];
      } else {
        assert r.links[i] == GraphLink(RootId, filename);
        assert r.nodes[0].id == RootId;
      }
    }
  }

  /**
   * Adding documents one by one keeps the graph well formed, keeps every earlier node
   * and link, and adds the `k`-th name as node and link target in turn, repeats included.
   */
  lemma {:induction false} WithDocumentsSpec(g: GraphData, names: seq<string>)
    requires WellFormed(g)
    ensures var r := WithDocuments(g, names);
      && WellFormed(r)
      && |r.nodes| == |g.nodes| + |names| && |r.links| == |g.links| + |names|
      && r.nodes[..|g.nodes|] == g.nodes && r.links[..|g.links|] == g.links
      && (forall k :: 0 <= k < |names| ==> r.nodes[|g.nodes| + k] == GraphNode(names[k], DocumentGroup))
      && (forall k :: 0 <= k < |names| ==> r.links[|g.links| + k] == GraphLink(RootId, names[k]))
  {
    if names != [] {
      var init := names[..|names| - 1];
      WithDocumentsSpec(g, init);
      WithDocumentWellFormed(WithDocuments(g, init), names[|names| - 1]);
    }
  }

  class Home {
    var graph: GraphData
    var files: seq<File>
    var selectedFile: Option<File>
    var isPreviewOpen: bool

    ghost predicate Valid()
      reads this
    {
      WellFormed(graph)
    }

    constructor ()
      ensures Valid()
      ensures graph == InitialGraph && files == [] && selectedFile == None && !isPreviewOpen
    {
      graph := InitialGraph;
      files := [];
      selectedFile := None;
      isPreviewOpen := false;
    }

    /** `handleDocumentAdded(filename)`: the graph gains the document. */
    method HandleDocumentAdded(filename: string)
      requires Valid()
      modifies this
      ensures Valid()
      ensures graph == WithDocument(old(graph), filename)
      ensures files == old(files) && selectedFile == old(selectedFile) && isPreviewOpen == old(isPreviewOpen)
    {
      WithDocumentWellFormed(graph, filename);
      graph := WithDocument(graph, filename);
    }

    /** The `setFiles(prev => [...prev, file])` updater the sidebar calls. */
    method AddFile(file: File)
      modifies this
      ensures files == old(files) + [file]
      ensures graph == old(graph) && selectedFile == old(selectedFile) && isPreviewOpen == old(isPreviewOpen)
    {
      files := files + [file];
    }

    /** `handleFileClick(file)`: the file is selected and the preview opens. */
    method HandleFileClick(file: File)
      modifies this
      ensures selectedFile == Some(file) && isPreviewOpen
      ensures graph == old(graph) && files == old(files)
    {
      selectedFile := Some(file);
      isPreviewOpen := true;
    }

    /** The preview's `onClose`: the preview closes and the selection stays. */
    method ClosePreview()
      modifies this
      ensures !isPreviewOpen
      ensures selectedFile == old(selectedFile) && graph == old(graph) && files == old(files)
    {
      isPreviewOpen := false;
    }
  }
}
