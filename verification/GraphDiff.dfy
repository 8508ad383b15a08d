/** The assistant's edits of a working copy, the diff it proposes, and the canvas that applies it. */
module GraphDiff {
  import opened Helpers
  import opened FieldDiff

  datatype CanvasNode = CanvasNode(id: string, body: Node, position: string)

  // Handle and label are empty where the edge has none.
  datatype Edge = Edge(id: string, source: string, target: string, handle: string, caption: string)

  datatype Canvas = Canvas(nodes: seq<CanvasNode>, edges: seq<Edge>)

  /* ----- Diff and patch, by id ----- */

  // A canvas up to order and position.
  datatype Table = Table(nodes: map<string, Node>, edges: map<string, Edge>)

  datatype Patch = Patch(nodesAdded: map<string, Node>, nodesRemoved: set<string>, nodesUpdated: map<string, Node>,
                         edgesAdded: map<string, Edge>, edgesRemoved: set<string>)

  predicate SignificantlyDifferent(a: Node, b: Node) {
    !Same(a.kind, b.kind) || !Same(a.caption, b.caption) || !Same(a.config, b.config)
  }

  // An edge is added or removed, never updated: only its key is compared.
  function Diff(before: Table, after: Table): Patch {
    Patch(map n | n in after.nodes && n !in before.nodes :: after.nodes[n],
          before.nodes.Keys - after.nodes.Keys,
          map n | n in after.nodes && n in before.nodes && SignificantlyDifferent(before.nodes[n], after.nodes[n]) :: after.nodes[n],
          map e | e in after.edges && e !in before.edges :: after.edges[e],
          before.edges.Keys - after.edges.Keys)
  }

  // JavaScript's truth value.
  predicate Truthy(j: Json) {
    !(j == Null || j == Bool(false) || j == Num(0) || j == Str(""))
  }

  function Or(a: Json, b: Json): Json {
    if Truthy(a) then a else b
  }

  // An updated node takes the new type, label and config, each unless it is falsy.
  function Update(old_: Node, upd: Node): Node {
    Node(Or(upd.kind, old_.kind), Or(upd.caption, old_.caption), Or(upd.config, old_.config))
  }

  // Null, false, zero and the empty string give way; empty lists and objects, which Python takes for empty,
  // do not.
  lemma FalsyGivesWay(a: Json, b: Json)
    ensures Or(a, b) == if a.Null? || (a.Bool? && !a.b) || (a.Num? && a.n == 0) || (a.Str? && |a.s| == 0) then b else a
    ensures Truthy(a) && OrEmpty(a) == Obj(map[]) <==> a == List([]) || a == Obj(map[])
  {
  }

  predicate Attached(e: Edge, nodes: set<string>) {
    e.source in nodes && e.target in nodes
  }

  // A new node is labelled with its type if it has no label, and its config is an object.
  function Built(n: Node): Node {
    Node(n.kind, Or(n.caption, n.kind), Or(n.config, Obj(map[])))
  }

  predicate Digits(s: string) {
    s != "" && forall i :: 0 <= i < |s| ==> '0' <= s[i] <= '9'
  }

  function Number(s: string): nat
    requires Digits(s)
  {
    (if |s| == 1 then 0 else 10 * Number(s[..|s| - 1])) + (s[|s| - 1] - '0') as nat
  }

  // The output a handle seems to mean; the first one in doubt.
  function MeantOutput(raw: string): nat {
    if raw == "false" then 1
    else if "out-" <= raw && Digits(raw[4..]) then Number(raw[4..])
    else if "output_" <= raw && Digits(raw[7..]) then Number(raw[7..])
    else 0
  }

  // The handle a new edge gets, given those of its source node.
  function Resolved(handles: seq<string>, raw: string): string {
    if handles == [] then ""
    else if raw != "" && raw in handles then raw
    else if MeantOutput(raw) < |handles| then handles[MeantOutput(raw)]
    else handles[0]
  }

  // The numeral of a number.
  function Decimal(k: nat): (s: string)
    ensures Digits(s) && Number(s) == k
  {
    var last := ['0' + (k % 10) as char];
    if k < 10 then last
    else
      var s := Decimal(k / 10) + last;
      assert s[..|s| - 1] == Decimal(k / 10);
      s
  }

  // Does the handle name the output k?
  predicate NamesOutput(raw: string, k: nat) {
    raw == "out-" + Decimal(k) || raw == "output_" + Decimal(k) || (raw == "false" && k == 1)
  }

  // A handle of the node stays; the name of an output means that output, if there is one; all else means the first.
  lemma HandleMeant(handles: seq<string>, raw: string, k: nat)
    requires handles != []
    ensures raw in handles && raw != "" ==> Resolved(handles, raw) == raw
    ensures raw !in handles && NamesOutput(raw, k) ==> Resolved(handles, raw) == handles[if k < |handles| then k else 0]
    ensures raw !in handles && raw != "false" && !("out-" <= raw) && !("output_" <= raw) ==> Resolved(handles, raw) == handles[0]
  {
    if NamesOutput(raw, k) {
      OutputMeant(raw, k);
    }
  }

  lemma OutputMeant(raw: string, k: nat)
    requires NamesOutput(raw, k)
    ensures MeantOutput(raw) == k && raw != ""
  {
    if raw == "out-" + Decimal(k) {
      assert raw[4..] == Decimal(k) && raw[0] == 'o';
    } else if raw == "output_" + Decimal(k) {
      assert raw[7..] == Decimal(k) && raw[0] == 'o' && raw[3] == 'p';
    }
  }

  // The output handles of a node, by its type and config.
  type Outputs = (Json, Json) -> seq<string>

  // The handles of a source node: new and updated nodes are looked up as the patch has them.
  function HandlesOf(outputs: Outputs, t: Table, p: Patch, id: string): seq<string> {
    if id in p.nodesUpdated then outputs(p.nodesUpdated[id].kind, Or(p.nodesUpdated[id].config, Obj(map[])))
    else if id in p.nodesAdded then outputs(p.nodesAdded[id].kind, Or(p.nodesAdded[id].config, Obj(map[])))
    else if id in t.nodes then outputs(t.nodes[id].kind, t.nodes[id].config)
    else []
  }

  function Rewired(outputs: Outputs, t: Table, p: Patch, e: Edge): Edge {
    e.(handle := Resolved(HandlesOf(outputs, t, p, e.source), e.handle))
  }

  // What the canvas does with a patch; edges that would dangle are dropped.
  function Apply(outputs: Outputs, t: Table, p: Patch): Table {
    Table(ApplyNodes(t.nodes, p), ApplyEdges(t, p, (e: Edge) => Rewired(outputs, t, p, e)))
  }

  function ApplyNodes(nodes: map<string, Node>, p: Patch): map<string, Node> {
    var kept := map n | n in nodes && n !in p.nodesRemoved ::
                  if n in p.nodesUpdated then Update(nodes[n], p.nodesUpdated[n]) else nodes[n];
    kept + map n | n in p.nodesAdded :: Built(p.nodesAdded[n])
  }

  function ApplyEdges(t: Table, p: Patch, rewire: Edge -> Edge): map<string, Edge> {
    var available := t.nodes.Keys + p.nodesAdded.Keys - p.nodesRemoved;
    AttachedOnly(t.edges - p.edgesRemoved, available) + AttachedOnly(AllRewired(p.edgesAdded, rewire), available)
  }

  function AllRewired(edges: map<string, Edge>, rewire: Edge -> Edge): map<string, Edge> {
    map e | e in edges :: rewire(edges[e])
  }

  function AttachedOnly(edges: map<string, Edge>, nodes: set<string>): map<string, Edge> {
    map e | e in edges && Attached(edges[e], nodes) :: edges[e]
  }

  ghost predicate NoDanglingEdge(t: Table) {
    forall e :: e in t.edges ==> Attached(t.edges[e], t.nodes.Keys)
  }

  predicate Sticks(b: Json, a: Json) {
    Truthy(a) || a == b
  }

  // The handles of a node of the working copy, when the canvas looks them up.
  function HandlesAfter(outputs: Outputs, before: Table, after: Table, id: string): seq<string>
    requires id in after.nodes
  {
    var n := after.nodes[id];
    if id in before.nodes && !SignificantlyDifferent(before.nodes[id], n) then outputs(before.nodes[id].kind, before.nodes[id].config)
    else outputs(n.kind, Or(n.config, Obj(map[])))
  }

  // The handle is one that the source node has; a node without outputs has none.
  predicate Settled(handles: seq<string>, raw: string) {
    if handles == [] then raw == "" else if raw == "" then handles[0] == "" else raw in handles
  }

  lemma ResolvedIffSettled(handles: seq<string>, raw: string)
    ensures Resolved(handles, raw) == raw <==> Settled(handles, raw)
  {
    assert raw == "" ==> MeantOutput(raw) == 0;
  }

  // A shared node has no field emptied, or has not changed at all; a new one has a label and a config.
  predicate NodePatchable(before: Table, after: Table, id: string)
    requires id in after.nodes
  {
    var a := after.nodes[id];
    if id in before.nodes then
      var b := before.nodes[id];
      if SignificantlyDifferent(b, a) then Sticks(b.kind, a.kind) && Sticks(b.caption, a.caption) && Sticks(b.config, a.config)
      else b == a
    else
      Sticks(a.kind, a.caption) && Truthy(a.config)
  }

  // A shared edge is the same on both sides; a new one names a handle that its source has.
  predicate EdgePatchable(outputs: Outputs, before: Table, after: Table, id: string)
    requires id in after.edges && after.edges[id].source in after.nodes
  {
    if id in before.edges then before.edges[id] == after.edges[id]
    else Settled(HandlesAfter(outputs, before, after, after.edges[id].source), after.edges[id].handle)
  }

  ghost predicate Patchable(outputs: Outputs, before: Table, after: Table)
    requires NoDanglingEdge(after)
  {
    (forall n :: n in after.nodes ==> NodePatchable(before, after, n)) &&
    (forall e :: e in after.edges ==> EdgePatchable(outputs, before, after, e))
  }

  function PatchedNode(before: Table, after: Table, id: string): Node
    requires id in after.nodes
  {
    var a := after.nodes[id];
    if id !in before.nodes then Built(a)
    else if SignificantlyDifferent(before.nodes[id], a) then Update(before.nodes[id], a)
    else before.nodes[id]
  }

  lemma PatchedNodes(before: Table, after: Table)
    ensures var r := ApplyNodes(before.nodes, Diff(before, after));
            r.Keys == after.nodes.Keys && forall n :: n in r ==> r[n] == PatchedNode(before, after, n)
  {
  }

  // An edge ends up on the canvas if the working copy has it and, where the canvas keeps its own version
  // under the same key, that version is still attached; a new one as it is rewired.
  lemma PatchedEdges(before: Table, after: Table, rewire: Edge -> Edge)
    requires NoDanglingEdge(after) && forall e :: rewire(e).source == e.source && rewire(e).target == e.target
    ensures var r := ApplyEdges(before, Diff(before, after), rewire);
            (forall e :: e in r <==> e in after.edges && (e in before.edges ==> Attached(before.edges[e], after.nodes.Keys))) &&
            (forall e :: e in r ==> r[e] == if e in before.edges then before.edges[e] else rewire(after.edges[e]))
  {
    var p := Diff(before, after);
    AvailableIds(before, after);
    SplitEdges(before, after, rewire);
    AttachedUnion(before.edges - p.edgesRemoved, AllRewired(p.edgesAdded, rewire), after.nodes.Keys);
  }

  lemma SplitEdges(before: Table, after: Table, rewire: Edge -> Edge)
    requires NoDanglingEdge(after) && forall e :: rewire(e).source == e.source && rewire(e).target == e.target
    ensures var kept := before.edges - Diff(before, after).edgesRemoved;
            (forall e :: e in kept <==> e in before.edges && e in after.edges) && forall e :: e in kept ==> kept[e] == before.edges[e]
    ensures var added := AllRewired(Diff(before, after).edgesAdded, rewire);
            (forall e :: e in added <==> e in after.edges && e !in before.edges) &&
            (forall e :: e in added ==> added[e] == rewire(after.edges[e]) && Attached(added[e], after.nodes.Keys))
  {
  }

  lemma AttachedUnion(kept: map<string, Edge>, added: map<string, Edge>, ids: set<string>)
    requires forall e :: e in added ==> e !in kept && Attached(added[e], ids)
    ensures var r := AttachedOnly(kept, ids) + AttachedOnly(added, ids);
            (forall e :: e in r <==> e in added || (e in kept && Attached(kept[e], ids))) &&
            (forall e :: e in r ==> r[e] == if e in added then added[e] else kept[e])
  {
  }

  lemma EdgesAgreeIff(before: Table, after: Table, rewire: Edge -> Edge)
    requires NoDanglingEdge(after) && forall e :: rewire(e).source == e.source && rewire(e).target == e.target
    ensures ApplyEdges(before, Diff(before, after), rewire) == after.edges <==>
            forall e :: e in after.edges ==>
              after.edges[e] == if e in before.edges then before.edges[e] else rewire(after.edges[e])
  {
    PatchedEdges(before, after, rewire);
  }

  lemma SameHandles(outputs: Outputs, before: Table, after: Table, id: string)
    requires id in after.nodes
    ensures HandlesOf(outputs, before, Diff(before, after), id) == HandlesAfter(outputs, before, after, id)
  {
  }

  lemma AvailableIds(before: Table, after: Table)
    ensures before.nodes.Keys + Diff(before, after).nodesAdded.Keys - Diff(before, after).nodesRemoved == after.nodes.Keys
  {
  }

  lemma NodesPatchedIff(before: Table, after: Table)
    ensures ApplyNodes(before.nodes, Diff(before, after)) == after.nodes <==>
            forall n :: n in after.nodes ==> NodePatchable(before, after, n)
  {
    PatchedNodes(before, after);
    forall n | n in after.nodes
      ensures PatchedNode(before, after, n) == after.nodes[n] <==> NodePatchable(before, after, n)
    {
    }
  }

  lemma EdgeFixedIff(outputs: Outputs, before: Table, after: Table, id: string)
    requires id in after.edges && after.edges[id].source in after.nodes
    ensures after.edges[id] == (if id in before.edges then before.edges[id] else Rewired(outputs, before, Diff(before, after), after.edges[id]))
            <==> EdgePatchable(outputs, before, after, id)
  {
    SameHandles(outputs, before, after, after.edges[id].source);
    ResolvedIffSettled(HandlesAfter(outputs, before, after, after.edges[id].source), after.edges[id].handle);
  }

  lemma EdgesPatchedIff(outputs: Outputs, before: Table, after: Table)
    requires NoDanglingEdge(after)
    ensures Apply(outputs, before, Diff(before, after)).edges == after.edges <==>
            forall e :: e in after.edges ==> EdgePatchable(outputs, before, after, e)
  {
    EdgesAgreeIff(before, after, (e: Edge) => Rewired(outputs, before, Diff(before, after), e));
    forall e | e in after.edges
      ensures after.edges[e] == (if e in before.edges then before.edges[e] else Rewired(outputs, before, Diff(before, after), after.edges[e]))
              <==> EdgePatchable(outputs, before, after, e)
    {
      EdgeFixedIff(outputs, before, after, e);
    }
  }

  // The diff acts as a patch, up to position and order, if and only if the change is patchable.
  lemma DiffIsPatchIff(outputs: Outputs, before: Table, after: Table)
    requires NoDanglingEdge(after)
    ensures Apply(outputs, before, Diff(before, after)) == after <==> Patchable(outputs, before, after)
  {
    NodesPatchedIff(before, after);
    EdgesPatchedIff(outputs, before, after);
  }

  /* ----- The edits ----- */

  // An object under `config` is merged into the node's config; anything else replaces it.
  datatype Changes = Changes(id: Option<string>, kind: Option<Json>, caption: Option<Json>, position: Option<string>,
                             config: Option<Json>, removeKeys: set<string>)

  datatype Edit =
    | AddNode(node: CanvasNode)
    | UpdateNode(id: string, changes: Changes)
    | RemoveNode(id: string)
    | AddEdge(source: string, target: string, handle: string, caption: string)
    | RemoveEdge(edgeId: string, source: string, target: string, handle: string)

  predicate Has(nodes: seq<CanvasNode>, id: string) {
    exists n :: n in nodes && n.id == id
  }

  function Fields(config: Json): map<string, Json> {
    if config.Obj? then config.fields else map[]
  }

  // One level of merging, then the removals.
  function NewConfig(config: Json, c: Changes): Json {
    var merged := match c.config
      case None => config
      case Some(v) => if v.Obj? then Obj(Fields(config) + v.fields) else v;
    if merged.Obj? then Obj(merged.fields - c.removeKeys) else merged
  }

  // Field by field: a removed key is gone, a given one has the given value, and any other is as it was.
  lemma ConfigAfter(config: Json, c: Changes, k: string)
    requires config.Obj? && (c.config.Some? ==> c.config.value.Obj?)
    ensures var r := NewConfig(config, c);
            r.Obj? &&
            (k in r.fields <==> k !in c.removeKeys && (k in config.fields || (c.config.Some? && k in c.config.value.fields))) &&
            (k in r.fields ==> r.fields[k] == if c.config.Some? && k in c.config.value.fields then c.config.value.fields[k] else config.fields[k])
  {
  }

  // An empty config takes the given fields, less the removed keys; and what is given but no object replaces the whole.
  lemma ConfigReplaced(config: Json, c: Changes)
    requires c.config.Some? && (OrEmpty(config) == Obj(map[]) || !c.config.value.Obj?)
    ensures NewConfig(config, c) == if c.config.value.Obj? then Obj(c.config.value.fields - c.removeKeys) else c.config.value
  {
    if c.config.value.Obj? {
      assert Fields(config) == map[] && map[] + c.config.value.fields == c.config.value.fields;
    }
  }

  function Changed(n: CanvasNode, c: Changes): CanvasNode {
    CanvasNode(if c.id.Some? then c.id.value else n.id,
               Node(if c.kind.Some? then c.kind.value else n.body.kind,
                    if c.caption.Some? then c.caption.value else n.body.caption,
                    NewConfig(n.body.config, c)),
               if c.position.Some? then c.position.value else n.position)
  }

  // The first node with the id is changed.
  function ChangeFirst(nodes: seq<CanvasNode>, id: string, c: Changes): seq<CanvasNode> {
    if nodes == [] then []
    else if nodes[0].id == id then [Changed(nodes[0], c)] + nodes[1..]
    else [nodes[0]] + ChangeFirst(nodes[1..], id, c)
  }

  function WithoutNode(nodes: seq<CanvasNode>, id: string): seq<CanvasNode> {
    if nodes == [] then []
    else (if nodes[0].id == id then [] else [nodes[0]]) + WithoutNode(nodes[1..], id)
  }

  function WithoutNodeEdges(edges: seq<Edge>, id: string): seq<Edge> {
    if edges == [] then []
    else (if edges[0].source == id || edges[0].target == id then [] else [edges[0]]) + WithoutNodeEdges(edges[1..], id)
  }

  predicate Matches(e: Edge, edit: Edit)
    requires edit.RemoveEdge?
  {
    if edit.edgeId != "" then e.id == edit.edgeId
    else edit.source != "" && edit.target != "" && e.source == edit.source && e.target == edit.target &&
         (edit.handle == "" || e.handle == edit.handle)
  }

  function WithoutMatches(edges: seq<Edge>, edit: Edit): seq<Edge>
    requires edit.RemoveEdge?
  {
    if edges == [] then []
    else (if Matches(edges[0], edit) then [] else [edges[0]]) + WithoutMatches(edges[1..], edit)
  }

  function EdgeId(source: string, target: string, handle: string): string {
    source + "->" + target + if handle != "" then ":" + handle else ""
  }

  // A refused edit leaves the working copy as it is.
  function Edited(c: Canvas, edit: Edit): Canvas {
    match edit
    case AddNode(node) => if node.id == "" || Has(c.nodes, node.id) then c else c.(nodes := c.nodes + [node])
    case UpdateNode(id, changes) => if Has(c.nodes, id) then c.(nodes := ChangeFirst(c.nodes, id, changes)) else c
    case RemoveNode(id) =>
      if Has(c.nodes, id) then Canvas(WithoutNode(c.nodes, id), WithoutNodeEdges(c.edges, id)) else c
    case AddEdge(source, target, handle, caption) =>
      if Has(c.nodes, source) && Has(c.nodes, target)
      then c.(edges := c.edges + [Edge(EdgeId(source, target, handle), source, target, handle, caption)]) else c
    case RemoveEdge(_, _, _, _) => c.(edges := WithoutMatches(c.edges, edit))
  }

  lemma {:induction false} ChangeFirstAt(nodes: seq<CanvasNode>, id: string, c: Changes, i: nat)
    requires i < |nodes| && nodes[i].id == id && forall j :: 0 <= j < i ==> nodes[j].id != id
    ensures ChangeFirst(nodes, id, c) == nodes[i := Changed(nodes[i], c)]
  {
    if i > 0 {
      ChangeFirstAt(nodes[1..], id, c, i - 1);
    }
  }

  lemma {:induction false} WithoutNodeGrows(nodes: seq<CanvasNode>, n: CanvasNode, id: string)
    ensures WithoutNode(nodes + [n], id) == WithoutNode(nodes, id) + if n.id == id then [] else [n]
  {
    if nodes != [] {
      WithoutNodeGrows(nodes[1..], n, id);
      assert (nodes + [n])[1..] == nodes[1..] + [n];
    }
  }

  lemma {:induction false} WithoutEdgesGrow(edges: seq<Edge>, e: Edge, id: string, edit: Edit)
    requires edit.RemoveEdge?
    ensures WithoutNodeEdges(edges + [e], id) == WithoutNodeEdges(edges, id) + if e.source == id || e.target == id then [] else [e]
    ensures WithoutMatches(edges + [e], edit) == WithoutMatches(edges, edit) + if Matches(e, edit) then [] else [e]
  {
    if edges != [] {
      WithoutEdgesGrow(edges[1..], e, id, edit);
      assert (edges + [e])[1..] == edges[1..] + [e];
    }
  }

  // The assistant's working copy, edited in place; each method says whether the edit took effect.
  class WorkingCopy {
    var nodes: seq<CanvasNode>
    var edges: seq<Edge>

    function View(): Canvas
      reads this
    {
      Canvas(nodes, edges)
    }

    constructor (c: Canvas)
      ensures View() == c
    {
      nodes, edges := c.nodes, c.edges;
    }

    // The position of the first node with the id, or the number of nodes.
    method Find(id: string) returns (i: nat)
      ensures i <= |nodes| && (i < |nodes| ==> nodes[i].id == id)
      ensures forall j :: 0 <= j < i ==> nodes[j].id != id
      ensures i < |nodes| <==> Has(nodes, id)
    {
      i := 0;
      while i < |nodes| && nodes[i].id != id
        invariant i <= |nodes| && forall j :: 0 <= j < i ==> nodes[j].id != id
      {
        i := i + 1;
      }
      if i < |nodes| {
        assert nodes[i] in nodes;
      }
    }

    method AddNode(node: CanvasNode) returns (ok: bool)
      modifies this
      ensures View() == Edited(old(View()), Edit.AddNode(node))
      ensures ok <==> node.id != "" && !Has(old(nodes), node.id)
    {
      if node.id == "" {
        return false;
      }
      var i := Find(node.id);
      if i < |nodes| {
        return false;
      }
      nodes := nodes + [node];
      return true;
    }

    method UpdateNode(id: string, changes: Changes) returns (ok: bool)
      modifies this
      ensures View() == Edited(old(View()), Edit.UpdateNode(id, changes))
      ensures ok <==> Has(old(nodes), id)
    {
      var i := Find(id);
      if i == |nodes| {
        return false;
      }
      ChangeFirstAt(nodes, id, changes, i);
      nodes := nodes[i := Changed(nodes[i], changes)];
      return true;
    }

    method RemoveNode(id: string) returns (ok: bool)
      modifies this
      ensures View() == Edited(old(View()), Edit.RemoveNode(id))
      ensures ok <==> Has(old(nodes), id)
    {
      var i := Find(id);
      if i == |nodes| {
        return false;
      }
      var (ns, es) := (nodes, edges);
      var keptNodes, keptEdges := [], [];
      for k := 0 to |ns|
        invariant keptNodes == WithoutNode(ns[..k], id)
      {
        assert ns[..k + 1] == ns[..k] + [ns[k]];
        WithoutNodeGrows(ns[..k], ns[k], id);
        if ns[k].id != id {
          keptNodes := keptNodes + [ns[k]];
        }
      }
      for k := 0 to |es|
        invariant keptEdges == WithoutNodeEdges(es[..k], id)
      {
        assert es[..k + 1] == es[..k] + [es[k]];
        WithoutEdgesGrow(es[..k], es[k], id, Edit.RemoveEdge("", "", "", ""));
        if es[k].source != id && es[k].target != id {
          keptEdges := keptEdges + [es[k]];
        }
      }
      assert ns[..|ns|] == ns && es[..|es|] == es;
      nodes, edges := keptNodes, keptEdges;
      return true;
    }

    method AddEdge(source: string, target: string, handle: string, caption: string) returns (ok: bool)
      modifies this
      ensures View() == Edited(old(View()), Edit.AddEdge(source, target, handle, caption))
      ensures ok <==> Has(old(nodes), source) && Has(old(nodes), target)
    {
      var i := Find(source);
      var j := Find(target);
      if i == |nodes| || j == |nodes| {
        return false;
      }
      edges := edges + [Edge(EdgeId(source, target, handle), source, target, handle, caption)];
      return true;
    }

    method RemoveEdge(edgeId: string, source: string, target: string, handle: string) returns (removed: nat)
      modifies this
      ensures View() == Edited(old(View()), Edit.RemoveEdge(edgeId, source, target, handle))
      ensures removed == |old(edges)| - |edges|
    {
      ghost var edit := Edit.RemoveEdge(edgeId, source, target, handle);
      var es, kept := edges, [];
      for k := 0 to |es|
        invariant kept == WithoutMatches(es[..k], edit) && |kept| <= k
        invariant nodes == old(nodes) && es == old(edges)
      {
        var e := es[k];
        assert es[..k + 1] == es[..k] + [e];
        WithoutEdgesGrow(es[..k], e, "", edit);
        var found := if edgeId != "" then e.id == edgeId
                     else source != "" && target != "" && e.source == source && e.target == target && (handle == "" || e.handle == handle);
        if !found {
          kept := kept + [e];
        }
      }
      assert es[..|es|] == es;
      removed := |es| - |kept|;
      edges := kept;
    }
  }

  ghost predicate WellFormed(c: Canvas) {
    (forall i, j :: 0 <= i < j < |c.nodes| ==> c.nodes[i].id != c.nodes[j].id) &&
    (forall n :: n in c.nodes ==> n.id != "") &&
    (forall e :: e in c.edges ==> Has(c.nodes, e.source) && Has(c.nodes, e.target))
  }

  predicate KeepsIds(edit: Edit) {
    edit.UpdateNode? ==> edit.changes.id == None || edit.changes.id == Some(edit.id)
  }

  lemma {:induction false} ChangeFirstKeepsIds(nodes: seq<CanvasNode>, id: string, c: Changes)
    requires c.id == None || c.id == Some(id)
    ensures var r := ChangeFirst(nodes, id, c); |r| == |nodes| && forall i :: 0 <= i < |r| ==> r[i].id == nodes[i].id
  {
    if nodes != [] && nodes[0].id != id {
      ChangeFirstKeepsIds(nodes[1..], id, c);
    }
  }

  lemma {:induction false} WithoutNodeIsFilter(nodes: seq<CanvasNode>, id: string)
    requires forall i, j :: 0 <= i < j < |nodes| ==> nodes[i].id != nodes[j].id
    ensures var r := WithoutNode(nodes, id);
            (forall n :: n in r <==> n in nodes && n.id != id) && forall i, j :: 0 <= i < j < |r| ==> r[i].id != r[j].id
  {
    if nodes != [] {
      WithoutNodeIsFilter(nodes[1..], id);
      var rest := WithoutNode(nodes[1..], id);
      assert forall k :: 0 <= k < |rest| ==> rest[k] in nodes[1..];
      assert forall n :: n in nodes <==> n == nodes[0] || n in nodes[1..];
    }
  }

  lemma {:induction false} WithoutEdgesIsFilter(edges: seq<Edge>, id: string, edit: Edit)
    requires edit.RemoveEdge?
    ensures forall e :: e in WithoutNodeEdges(edges, id) <==> e in edges && e.source != id && e.target != id
    ensures forall e :: e in WithoutMatches(edges, edit) <==> e in edges && !Matches(e, edit)
  {
    if edges != [] {
      WithoutEdgesIsFilter(edges[1..], id, edit);
      assert forall e :: e in edges <==> e == edges[0] || e in edges[1..];
    }
  }

  // Node ids stay unique and edges attached, as long as no edit rewrites an id.
  lemma EditKeepsWellFormed(c: Canvas, edit: Edit)
    requires WellFormed(c) && KeepsIds(edit)
    ensures WellFormed(Edited(c, edit))
  {
    var r := Edited(c, edit);
    match edit
    case AddNode(node) =>
      if r != c {
        assert forall i :: 0 <= i < |c.nodes| ==> c.nodes[i] in c.nodes;
        KeepsHaving(c.nodes, r.nodes, r.edges);
      }
    case UpdateNode(id, changes) =>
      if r != c {
        ChangeFirstKeepsIds(c.nodes, id, changes);
        forall x: string
          ensures Has(c.nodes, x) ==> Has(r.nodes, x)
        {
          if n :| n in c.nodes && n.id == x {
            var i :| 0 <= i < |c.nodes| && c.nodes[i] == n;
            assert r.nodes[i].id == x;
          }
        }
      }
    case RemoveNode(id) =>
      if r != c {
        WithoutNodeIsFilter(c.nodes, id);
        WithoutEdgesIsFilter(c.edges, id, RemoveEdge("", "", "", ""));
        forall x: string | x != id && Has(c.nodes, x)
          ensures Has(r.nodes, x)
        {
          var n :| n in c.nodes && n.id == x;
          assert n in r.nodes;
        }
      }
    case AddEdge(_, _, _, _) =>
    case RemoveEdge(_, _, _, _) =>
      WithoutEdgesIsFilter(c.edges, "", edit);
  }

  lemma KeepsHaving(nodes: seq<CanvasNode>, nodes': seq<CanvasNode>, edges: seq<Edge>)
    requires forall n :: n in nodes ==> n in nodes'
    ensures forall x :: Has(nodes, x) ==> Has(nodes', x)
  {
    forall x | Has(nodes, x)
      ensures Has(nodes', x)
    {
      var n :| n in nodes && n.id == x;
      assert n in nodes';
    }
  }

  // Which edges there are after an accepted edit: removing a node takes those at either end of it, removing
  // an edge those with the id, or without an id those between the two nodes, and from the handle if one is given.
  lemma EdgesAfter(c: Canvas, edit: Edit, e: Edge)
    requires Edited(c, edit) != c
    ensures e in Edited(c, edit).edges <==>
            match edit
            case AddEdge(source, target, handle, caption) =>
              e in c.edges || (e == Edge(e.id, source, target, handle, caption) &&
                               e.id == if handle == "" then source + "->" + target else source + "->" + target + ":" + handle)
            case RemoveNode(id) => e in c.edges && e.source != id && e.target != id
            case RemoveEdge(edgeId, source, target, handle) =>
              e in c.edges && (if edgeId != "" then e.id != edgeId
                               else source == "" || target == "" || e.source != source || e.target != target ||
                                    (handle != "" && e.handle != handle))
            case _ => e in c.edges
  {
    match edit
    case AddEdge(source, target, handle, caption) => SameId(source, target, handle);
    case RemoveNode(id) => WithoutEdgesIsFilter(c.edges, id, RemoveEdge("", "", "", ""));
    case RemoveEdge(_, _, _, _) => WithoutEdgesIsFilter(c.edges, "", edit);
    case _ =>
  }

  lemma SameId(source: string, target: string, handle: string)
    ensures EdgeId(source, target, handle) == if handle == "" then source + "->" + target else source + "->" + target + ":" + handle
  {
    var joined := source + "->" + target;
    assert joined + "" == joined && joined + (":" + handle) == joined + ":" + handle;
  }

  function AllEdited(c: Canvas, edits: seq<Edit>): Canvas
    decreases |edits|
  {
    if edits == [] then c else AllEdited(Edited(c, edits[0]), edits[1..])
  }

  lemma {:induction false} EditsKeepWellFormed(c: Canvas, edits: seq<Edit>)
    requires WellFormed(c) && forall e :: e in edits ==> KeepsIds(e)
    ensures WellFormed(AllEdited(c, edits))
    decreases |edits|
  {
    if edits != [] {
      assert edits[0] in edits;
      EditKeepsWellFormed(c, edits[0]);
      EditsKeepWellFormed(Edited(c, edits[0]), edits[1..]);
    }
  }

  /* ----- Edits, diff, patch ----- */

  // Later entries win, as in a dictionary.
  function NodeTable(nodes: seq<CanvasNode>): map<string, Node> {
    if nodes == [] then map[] else NodeTable(nodes[..|nodes| - 1])[nodes[|nodes| - 1].id := nodes[|nodes| - 1].body]
  }

  function EdgeTable(edges: seq<Edge>): map<string, Edge> {
    if edges == [] then map[] else EdgeTable(edges[..|edges| - 1])[edges[|edges| - 1].id := edges[|edges| - 1]]
  }

  function TableOf(c: Canvas): Table {
    Table(NodeTable(c.nodes), EdgeTable(c.edges))
  }

  lemma {:induction false} NodeTableHas(nodes: seq<CanvasNode>, id: string)
    ensures id in NodeTable(nodes) <==> Has(nodes, id)
  {
    if nodes != [] {
      var last := nodes[|nodes| - 1];
      NodeTableHas(nodes[..|nodes| - 1], id);
      assert forall n :: n in nodes <==> n in nodes[..|nodes| - 1] || n == last;
    }
  }

  // With unique ids the table says what the nodes say.
  lemma {:induction false} NodeTableIs(nodes: seq<CanvasNode>, id: string, body: Node)
    requires forall i, j :: 0 <= i < j < |nodes| ==> nodes[i].id != nodes[j].id
    ensures id in NodeTable(nodes) && NodeTable(nodes)[id] == body <==> exists n :: n in nodes && n.id == id && n.body == body
  {
    if nodes != [] {
      var less, last := nodes[..|nodes| - 1], nodes[|nodes| - 1];
      NodeTableIs(less, id, body);
      assert forall n :: n in nodes <==> n in less || n == last;
      assert forall n :: n in less ==> n.id != last.id;
    }
  }

  // An accepted edit of the nodes, by id: one node is added, changed field by field, or gone with its edges, and
  // all others are as before.
  lemma EditedById(c: Canvas, edit: Edit)
    requires WellFormed(c) && KeepsIds(edit) && Edited(c, edit) != c
    ensures var (t, t') := (NodeTable(c.nodes), NodeTable(Edited(c, edit).nodes));
            match edit
            case AddNode(node) => node.id !in t && t' == t[node.id := node.body]
            case UpdateNode(id, changes) => id in t && t' == t[id := Updated(t[id], changes)]
            case RemoveNode(id) => id in t && t' == t - {id}
            case _ => t' == t
  {
    match edit
    case AddNode(node) =>
      NodeTableHas(c.nodes, node.id);
      assert (c.nodes + [node])[..|c.nodes|] == c.nodes;
    case UpdateNode(id, changes) => UpdatedById(c.nodes, id, changes);
    case RemoveNode(id) =>
      NodeTableHas(c.nodes, id);
      RemovedById(c.nodes, id);
    case _ =>
  }

  // An update touches what is given: id, type, label and position each on its own, and the config by merging.
  lemma OnlyGivenChanges(n: CanvasNode, c: Changes)
    ensures var r := Changed(n, c);
            (c.id == None ==> r.id == n.id) && (c.id.Some? ==> r.id == c.id.value) &&
            (c.position == None ==> r.position == n.position) && (c.position.Some? ==> r.position == c.position.value) &&
            r.body == Updated(n.body, c)
    ensures c == Changes(None, None, None, None, None, {}) ==> Changed(n, c) == n
  {
    if n.body.config.Obj? {
      assert n.body.config.fields - {} == n.body.config.fields;
    }
  }

  // Type and label are replaced where they are given, and the config is merged.
  function Updated(n: Node, c: Changes): Node {
    Node(if c.kind.Some? then c.kind.value else n.kind, if c.caption.Some? then c.caption.value else n.caption, NewConfig(n.config, c))
  }

  lemma {:induction false} UpdatedById(nodes: seq<CanvasNode>, id: string, c: Changes)
    requires forall i, j :: 0 <= i < j < |nodes| ==> nodes[i].id != nodes[j].id
    requires Has(nodes, id) && (c.id == None || c.id == Some(id))
    ensures id in NodeTable(nodes) && NodeTable(ChangeFirst(nodes, id, c)) == NodeTable(nodes)[id := Updated(NodeTable(nodes)[id], c)]
  {
    var i :| 0 <= i < |nodes| && nodes[i].id == id;
    ChangeFirstAt(nodes, id, c, i);
    TableWith(nodes, i, Changed(nodes[i], c));
    NodeTableIs(nodes, id, nodes[i].body);
  }

  lemma {:induction false} TableWith(nodes: seq<CanvasNode>, i: nat, n: CanvasNode)
    requires forall i, j :: 0 <= i < j < |nodes| ==> nodes[i].id != nodes[j].id
    requires i < |nodes| && n.id == nodes[i].id
    ensures NodeTable(nodes[i := n]) == NodeTable(nodes)[n.id := n.body]
  {
    var less, last := nodes[..|nodes| - 1], nodes[|nodes| - 1];
    if i < |less| {
      TableWith(less, i, n);
      assert nodes[i := n][..|nodes| - 1] == less[i := n];
    } else {
      assert nodes[i := n][..|nodes| - 1] == less;
    }
  }

  lemma NodeTableGrows(nodes: seq<CanvasNode>, n: CanvasNode)
    ensures NodeTable(nodes + [n]) == NodeTable(nodes)[n.id := n.body]
  {
    assert (nodes + [n])[..|nodes|] == nodes;
  }

  lemma {:induction false} RemovedById(nodes: seq<CanvasNode>, id: string)
    ensures NodeTable(WithoutNode(nodes, id)) == NodeTable(nodes) - {id}
  {
    if nodes == [] {
      assert NodeTable(nodes) - {id} == map[];
    } else {
      var less, last := nodes[..|nodes| - 1], nodes[|nodes| - 1];
      RemovedById(less, id);
      assert nodes == less + [last];
      RemovedAndMore(less, last, id);
    }
  }

  lemma RemovedAndMore(less: seq<CanvasNode>, last: CanvasNode, id: string)
    requires NodeTable(WithoutNode(less, id)) == NodeTable(less) - {id}
    ensures NodeTable(WithoutNode(less + [last], id)) == NodeTable(less + [last]) - {id}
  {
    WithoutNodeGrows(less, last, id);
    NodeTableGrows(less, last);
    TableWithout(NodeTable(less), last.id, last.body, id);
    if last.id == id {
      assert WithoutNode(less, id) + [] == WithoutNode(less, id);
    } else {
      NodeTableGrows(WithoutNode(less, id), last);
    }
  }

  lemma TableWithout(t: map<string, Node>, id: string, body: Node, gone: string)
    ensures t[id := body] - {gone} == if id == gone then t - {gone} else (t - {gone})[id := body]
  {
  }

  lemma {:induction false} EdgeTableIsPart(edges: seq<Edge>, id: string)
    ensures id in EdgeTable(edges) ==> EdgeTable(edges)[id] in edges
  {
    if edges != [] {
      EdgeTableIsPart(edges[..|edges| - 1], id);
    }
  }

  lemma WellFormedHasNoDanglingEdge(c: Canvas)
    requires WellFormed(c)
    ensures NoDanglingEdge(TableOf(c))
  {
    forall id | id in EdgeTable(c.edges)
      ensures Attached(EdgeTable(c.edges)[id], NodeTable(c.nodes).Keys)
    {
      EdgeTableIsPart(c.edges, id);
      var e := EdgeTable(c.edges)[id];
      NodeTableHas(c.nodes, e.source);
      NodeTableHas(c.nodes, e.target);
    }
  }

  // Any edits that rewrite no id: the proposed diff, applied to the canvas the assistant started from,
  // gives the working copy, exactly if the change is patchable.
  lemma EditsThenDiffIsPatchIff(outputs: Outputs, c: Canvas, edits: seq<Edit>)
    requires WellFormed(c) && forall e :: e in edits ==> KeepsIds(e)
    ensures var wc := TableOf(AllEdited(c, edits));
            NoDanglingEdge(wc) && (Apply(outputs, TableOf(c), Diff(TableOf(c), wc)) == wc <==> Patchable(outputs, TableOf(c), wc))
  {
    EditsKeepWellFormed(c, edits);
    WellFormedHasNoDanglingEdge(AllEdited(c, edits));
    DiffIsPatchIff(outputs, TableOf(c), TableOf(AllEdited(c, edits)));
  }

  function Joined(a: CanvasNode, b: CanvasNode, caption: string): Canvas {
    Canvas([a, b], [Edge(EdgeId(a.id, b.id, ""), a.id, b.id, "", caption)])
  }

  function Relabel(a: CanvasNode, b: CanvasNode, caption: string): seq<Edit> {
    [RemoveEdge(EdgeId(a.id, b.id, ""), "", "", ""), AddEdge(a.id, b.id, "", caption)]
  }

  lemma RelabelEdits(a: CanvasNode, b: CanvasNode, was: string, now: string)
    ensures AllEdited(Joined(a, b, was), Relabel(a, b, now)) == Joined(a, b, now)
  {
    var c, edits := Joined(a, b, was), Relabel(a, b, now);
    var e := c.edges[0];
    assert EdgeId(a.id, b.id, "") != "" && Matches(e, edits[0]);
    assert c.edges[1..] == [] && WithoutMatches(c.edges, edits[0]) == [] + WithoutMatches([], edits[0]) == [];
    var c1 := Edited(c, edits[0]);
    assert a in c1.nodes && b in c1.nodes;
    var c2 := Edited(c1, edits[1]);
    assert c2.edges == Joined(a, b, now).edges;
    assert edits[1..][0] == edits[1] && edits[1..][1..] == [];
    assert AllEdited(c1, edits[1..]) == AllEdited(c2, []) == c2;
  }

  lemma OneEdgeTable(e: Edge)
    ensures EdgeTable([e]) == map[e.id := e]
  {
    assert [e][..0] == [];
  }

  lemma JoinedIsWellFormed(a: CanvasNode, b: CanvasNode, caption: string)
    requires a.id != b.id && a.id != "" && b.id != ""
    ensures WellFormed(Joined(a, b, caption)) && NoDanglingEdge(TableOf(Joined(a, b, caption)))
    ensures EdgeTable(Joined(a, b, caption).edges) == map[EdgeId(a.id, b.id, "") := Joined(a, b, caption).edges[0]]
  {
    var c := Joined(a, b, caption);
    assert a in c.nodes && b in c.nodes;
    OneEdgeTable(c.edges[0]);
    WellFormedHasNoDanglingEdge(c);
  }

  // Removing an edge and adding it back with another label is lost: both edges have the same id.
  lemma RelabelledEdgeIsLost(outputs: Outputs, a: CanvasNode, b: CanvasNode, was: string, now: string)
    requires a.id != b.id && a.id != "" && b.id != ""
    ensures WellFormed(Joined(a, b, was)) && forall e :: e in Relabel(a, b, now) ==> KeepsIds(e)
    ensures var before, after := TableOf(Joined(a, b, was)), TableOf(AllEdited(Joined(a, b, was), Relabel(a, b, now)));
            var id, r := EdgeId(a.id, b.id, ""), Apply(outputs, before, Diff(before, after)).edges;
            id in after.edges && after.edges[id].caption == now && id in r && r[id].caption == was
  {
    JoinedIsWellFormed(a, b, was);
    RelabelEdits(a, b, was, now);
    JoinedKeepsEdge(outputs, a, b, was, now);
  }

  lemma JoinedKeepsEdge(outputs: Outputs, a: CanvasNode, b: CanvasNode, was: string, now: string)
    requires a.id != b.id && a.id != "" && b.id != ""
    ensures var before, after := TableOf(Joined(a, b, was)), TableOf(Joined(a, b, now));
            var id, r := EdgeId(a.id, b.id, ""), Apply(outputs, before, Diff(before, after)).edges;
            id in after.edges && after.edges[id].caption == now && id in r && r[id].caption == was
  {
    JoinedIsWellFormed(a, b, was);
    JoinedIsWellFormed(a, b, now);
    SharedEdgeIsKept(outputs, TableOf(Joined(a, b, was)), TableOf(Joined(a, b, now)), EdgeId(a.id, b.id, ""));
  }

  lemma SharedEdgeIsKept(outputs: Outputs, before: Table, after: Table, id: string)
    requires NoDanglingEdge(after) && id in before.edges && id in after.edges && Attached(before.edges[id], after.nodes.Keys)
    ensures var r := Apply(outputs, before, Diff(before, after)).edges; id in r && r[id] == before.edges[id]
  {
    PatchedEdges(before, after, (e: Edge) => Rewired(outputs, before, Diff(before, after), e));
  }

  // An edge added without a handle comes back with the first output of its source, if that has any.
  lemma NewEdgeGetsFirstOutput(outputs: Outputs, before: Table, after: Table, id: string)
    requires NoDanglingEdge(after) && id in after.edges && id !in before.edges && after.edges[id].handle == ""
    ensures var handles := HandlesAfter(outputs, before, after, after.edges[id].source);
            var r := Apply(outputs, before, Diff(before, after)).edges;
            id in r && r[id] == after.edges[id].(handle := if handles == [] then "" else handles[0])
  {
    PatchedEdges(before, after, (e: Edge) => Rewired(outputs, before, Diff(before, after), e));
    SameHandles(outputs, before, after, after.edges[id].source);
    EmptyMeansFirst(HandlesAfter(outputs, before, after, after.edges[id].source));
  }

  // And one added under the name of an output comes back with that output.
  lemma NewEdgeGetsNamedOutput(outputs: Outputs, before: Table, after: Table, id: string, k: nat)
    requires NoDanglingEdge(after) && id in after.edges && id !in before.edges && NamesOutput(after.edges[id].handle, k)
    requires k < |HandlesAfter(outputs, before, after, after.edges[id].source)|
    requires after.edges[id].handle !in HandlesAfter(outputs, before, after, after.edges[id].source)
    ensures var r := Apply(outputs, before, Diff(before, after)).edges;
            id in r && r[id] == after.edges[id].(handle := HandlesAfter(outputs, before, after, after.edges[id].source)[k])
  {
    PatchedEdges(before, after, (e: Edge) => Rewired(outputs, before, Diff(before, after), e));
    SameHandles(outputs, before, after, after.edges[id].source);
    HandleMeant(HandlesAfter(outputs, before, after, after.edges[id].source), after.edges[id].handle, k);
  }

  lemma EmptyMeansFirst(handles: seq<string>)
    ensures Resolved(handles, "") == if handles == [] then "" else handles[0]
  {
    assert MeantOutput("") == 0;
  }

  function OneSetting(k: string, v: Json): Json {
    Obj(map[k := v])
  }

  // Setting a field from true to 1 is lost: to the comparison of the diff nothing has changed.
  lemma TrueToOneIsLost(outputs: Outputs, n: CanvasNode, k: string)
    requires n.id != "" && n.body.config == OneSetting(k, Bool(true))
    ensures var was := Canvas([n], []);
            var now := AllEdited(was, [UpdateNode(n.id, Changes(None, None, None, None, Some(OneSetting(k, Num(1))), {}))]);
            WellFormed(was) && NodeTable(now.nodes) == map[n.id := n.body.(config := OneSetting(k, Num(1)))] &&
            Apply(outputs, TableOf(was), Diff(TableOf(was), TableOf(now))).nodes == map[n.id := n.body]
  {
    var was := Canvas([n], []);
    var edit := UpdateNode(n.id, Changes(None, None, None, None, Some(OneSetting(k, Num(1))), {}));
    assert n in was.nodes && [edit][1..] == [] && was.nodes[1..] == [];
    var now := Edited(was, edit);
    assert AllEdited(was, [edit]) == now;
    assert NewConfig(n.body.config, edit.changes) == OneSetting(k, Num(1));
    var body := n.body.(config := OneSetting(k, Num(1)));
    assert now == Canvas([n.(body := body)], []);
    TrueIsOne(k);
    OneNodeTable(n);
    OneNodeTable(n.(body := body));
    PatchedNodes(TableOf(was), TableOf(now));
    assert !SignificantlyDifferent(n.body, body);
  }

  lemma TrueIsOne(k: string)
    ensures Same(OneSetting(k, Bool(true)), OneSetting(k, Num(1))) && OneSetting(k, Bool(true)) != OneSetting(k, Num(1))
  {
    assert Canon(Bool(true)) == Num(1) == Canon(Num(1));
    var a, b := Canon(OneSetting(k, Bool(true))).fields, Canon(OneSetting(k, Num(1))).fields;
    assert a == map[k := Num(1)] == b;
    assert OneSetting(k, Bool(true)).fields[k] != OneSetting(k, Num(1)).fields[k];
  }

  lemma OneNodeTable(n: CanvasNode)
    ensures NodeTable([n]) == map[n.id := n.body]
  {
    assert [n][..0] == [];
  }
}
