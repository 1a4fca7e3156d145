/** The messages behind `currentPage.selection = nodes` and
    `viewport.scrollAndZoomIntoView(nodes)`. Both accept node ids or node
    objects and decide which by looking at the first element only. */
module Selection {
  import opened HostLog
  import Seqs

  /** The id of the node a reference names. */
  function NodeId(n: NodeRef): string {
    match n
    case Id(k) => k
    case Obj(i) => i
  }

  /** All references are ids, or all are objects. */
  predicate Uniform(nodes: seq<NodeRef>) {
    (forall i :: 0 <= i < |nodes| ==> nodes[i].Id?) || (forall i :: 0 <= i < |nodes| ==> nodes[i].Obj?)
  }

  /** The reference itself, as a message value. */
  function AsValue(n: NodeRef): Value {
    match n
    case Id(k) => Str(k)
    case Obj(i) => NodeObject(i)
  }

  /** The `.id` property of a reference; a string has none. */
  function IdProperty(n: NodeRef): Value {
    match n
    case Id(_) => Undefined
    case Obj(i) => Str(i)
  }

  /** The `nodeIds` sent for `nodes`: when the first reference is an object,
      every reference is replaced by its `.id`; otherwise the list is sent as is. */
  function ExtractIds(nodes: seq<NodeRef>): (r: seq<Value>)
    ensures |r| == |nodes|
    ensures nodes != [] && nodes[0].Obj? ==> forall i :: 0 <= i < |nodes| && nodes[i].Obj? ==> r[i] == Str(nodes[i].id)
    ensures nodes != [] && nodes[0].Obj? ==> forall i :: 0 <= i < |nodes| && nodes[i].Id? ==> r[i] == Undefined
    ensures nodes != [] && nodes[0].Id? ==> forall i :: 0 <= i < |nodes| && nodes[i].Id? ==> r[i] == Str(nodes[i].key)
    ensures nodes != [] && nodes[0].Id? ==> forall i :: 0 <= i < |nodes| && nodes[i].Obj? ==> r[i] == NodeObject(nodes[i].id)
    ensures Uniform(nodes) ==> forall i :: 0 <= i < |nodes| ==> r[i] == Str(NodeId(nodes[i]))
  {
    if nodes != [] && nodes[0].Obj?
    then seq(|nodes|, i requires 0 <= i < |nodes| => IdProperty(nodes[i]))
    else seq(|nodes|, i requires 0 <= i < |nodes| => AsValue(nodes[i]))
  }

  /** The messages of the `selection` setter; `scrollToNodeListener` says
      whether the host has a `scrollToNode` listener. */
  function SelectionMessages(selections: seq<NodeRef>, scrollToNodeListener: bool): (r: seq<Cmd>)
    ensures |r| == if selections == [] then 1 else if scrollToNodeListener then 3 else 2
    ensures r[0] == ClearSelection
    ensures selections != [] ==> r[1] == AddToSelection(ExtractIds(selections))
    ensures selections != [] && scrollToNodeListener ==> r[2] == ScrollToNode(ExtractIds(selections)[0])
  {
    if selections == [] then [ClearSelection]
    else
      var ids := ExtractIds(selections);
      [ClearSelection, AddToSelection(ids)] + (if scrollToNodeListener then [ScrollToNode(ids[0])] else [])
  }

  /** Whatever was selected before, the `selection` setter leaves exactly the
      given nodes selected (their ids, when the references are uniform). */
  lemma SelectionWriteSelects(before: seq<Value>, selections: seq<NodeRef>, scrollToNodeListener: bool)
    ensures Replay(before, SelectionMessages(selections, scrollToNodeListener)) == ExtractIds(selections)
  {
    if selections == [] {
      ReplayOne(before, ClearSelection);
    } else {
      var ids := ExtractIds(selections);
      var tail := if scrollToNodeListener then [ScrollToNode(ids[0])] else [];
      assert SelectionMessages(selections, scrollToNodeListener) == [ClearSelection, AddToSelection(ids)] + tail;
      ReplayAppend(before, [ClearSelection, AddToSelection(ids)], tail);
      ReplayClearThenAdd(before, ids);
      if scrollToNodeListener {
        ReplayOne(ids, ScrollToNode(ids[0]));
      }
    }
  }

  /** The setter always starts by clearing the selection; it calls the
      `scrollToNode` listener once, last, with the first id, exactly when the
      listener exists and the list is not empty, and sends nothing else. */
  lemma SelectionWriteScrolls(selections: seq<NodeRef>, scrollToNodeListener: bool)
    ensures SelectionMessages(selections, scrollToNodeListener)[0] == ClearSelection
    ensures selections == [] ==> SelectionMessages(selections, scrollToNodeListener) == [ClearSelection]
    ensures Seqs.Count(SelectionMessages(selections, scrollToNodeListener), IsScrollToNode) ==
      if scrollToNodeListener && selections != [] then 1 else 0
    ensures scrollToNodeListener && selections != [] ==>
      var msgs := SelectionMessages(selections, scrollToNodeListener);
      msgs[|msgs| - 1] == ScrollToNode(ExtractIds(selections)[0])
  {
    if selections == [] {
      Seqs.CountOne(ClearSelection, IsScrollToNode);
    } else {
      var ids := ExtractIds(selections);
      var tail := if scrollToNodeListener then [ScrollToNode(ids[0])] else [];
      Seqs.CountAppend([ClearSelection] + [AddToSelection(ids)], tail, IsScrollToNode);
      Seqs.CountAppend([ClearSelection], [AddToSelection(ids)], IsScrollToNode);
      Seqs.CountOne(ClearSelection, IsScrollToNode);
      Seqs.CountOne(AddToSelection(ids), IsScrollToNode);
      if scrollToNodeListener {
        Seqs.CountOne(ScrollToNode(ids[0]), IsScrollToNode);
      }
      assert SelectionMessages(selections, scrollToNodeListener) == [ClearSelection] + [AddToSelection(ids)] + tail;
    }
  }

  /** The messages of `scrollAndZoomIntoView`; `selected` is the host's
      selection (its ids) read when the call starts. */
  function ScrollMessages(nodes: seq<NodeRef>, selected: seq<string>): (r: seq<Cmd>)
    ensures nodes == [] ==> r == []
    ensures nodes != [] ==> |r| == if |selected| > 0 then 5 else 4
    ensures nodes != [] ==> r[0] == ClearSelection && r[1] == AddToSelection(ExtractIds(nodes)) && IsZoom(r[2]) && r[3] == ClearSelection
    ensures nodes != [] && |selected| > 0 ==> r[4] == AddToSelection(Strs(selected))
  {
    if nodes == [] then []
    else
      [ClearSelection, AddToSelection(ExtractIds(nodes)), TriggerAction("zoom-to-selection"), ClearSelection] +
      (if |selected| > 0 then [AddToSelection(Strs(selected))] else [])
  }

  /** The zoom happens exactly once, while exactly the requested nodes are
      selected; an empty request sends nothing. */
  lemma ScrollAndZoomTargetsNodes(nodes: seq<NodeRef>, selected: seq<string>)
    ensures nodes == [] <==> ScrollMessages(nodes, selected) == []
    ensures nodes != [] ==> Seqs.Count(ScrollMessages(nodes, selected), IsZoom) == 1
    ensures nodes != [] ==>
      var msgs := ScrollMessages(nodes, selected);
      exists k :: 0 <= k < |msgs| && IsZoom(msgs[k]) && Replay(Strs(selected), msgs[..k]) == ExtractIds(nodes)
  {
    if nodes != [] {
      var msgs := ScrollMessages(nodes, selected);
      var ids := ExtractIds(nodes);
      var zoom := TriggerAction("zoom-to-selection");
      var tail := if |selected| > 0 then [AddToSelection(Strs(selected))] else [];
      assert msgs == [ClearSelection] + [AddToSelection(ids)] + [zoom] + [ClearSelection] + tail;
      // the selection when the zoom happens
      assert msgs[..2] == [ClearSelection, AddToSelection(ids)];
      ReplayClearThenAdd(Strs(selected), ids);
      assert IsZoom(msgs[2]);
      // the number of zooms
      Seqs.CountAppend([ClearSelection] + [AddToSelection(ids)] + [zoom] + [ClearSelection], tail, IsZoom);
      Seqs.CountAppend([ClearSelection] + [AddToSelection(ids)] + [zoom], [ClearSelection], IsZoom);
      Seqs.CountAppend([ClearSelection] + [AddToSelection(ids)], [zoom], IsZoom);
      Seqs.CountAppend([ClearSelection], [AddToSelection(ids)], IsZoom);
      Seqs.CountOne(ClearSelection, IsZoom);
      Seqs.CountOne(AddToSelection(ids), IsZoom);
      Seqs.CountOne(zoom, IsZoom);
      if |selected| > 0 {
        Seqs.CountOne(AddToSelection(Strs(selected)), IsZoom);
      }
    }
  }

  /** Afterwards the selection is what it was before the call. */
  lemma ScrollAndZoomRestoresSelection(nodes: seq<NodeRef>, selected: seq<string>)
    ensures Replay(Strs(selected), ScrollMessages(nodes, selected)) == Strs(selected)
  {
    if nodes != [] {
      var before := Strs(selected);
      var ids := ExtractIds(nodes);
      var zoom := TriggerAction("zoom-to-selection");
      var head := [ClearSelection] + [AddToSelection(ids)] + [zoom];
      var tail := if |selected| > 0 then [AddToSelection(before)] else [];
      assert ScrollMessages(nodes, selected) == head + [ClearSelection] + tail;
      ReplayAppend(before, head + [ClearSelection], tail);
      ReplayAppend(before, head, [ClearSelection]);
      ReplayOne(Replay(before, head), ClearSelection);
      if |selected| > 0 {
        ReplayOne([], AddToSelection(before));
        assert [] + before == before;
      } else {
        assert before == [];
      }
    }
  }
}
