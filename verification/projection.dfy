// registry/projection.go: projection paths, their printed identifiers, and the canonical index.
module Projections {
  import opened Numerals
  import Identity

  datatype Segment = Segment(name: string, location: bool)
  datatype Path = Path(plane: string, segments: seq<Segment>)

  type NodeID = string

  const SERVICE_PLANE := "Service"

  predicate Plain(s: string)
  {
    forall i :: 0 <= i < |s| ==> s[i] != '/' && s[i] != ':'
  }

  /** strings.TrimSpace leaves nothing. */
  predicate Blank(s: string)
  {
    Identity.TrimRight(Identity.TrimLeft(s)) == ""
  }

  predicate ValidPlane(plane: string)
  {
    !Blank(plane) && Plain(plane)
  }

  predicate ValidSegment(segment: Segment)
  {
    !Blank(segment.name) && Plain(segment.name) && !("@" <= segment.name)
  }

  /** ProjectionPath.Validate */
  predicate Valid(path: Path)
  {
    ValidPlane(path.plane) && forall i :: 0 <= i < |path.segments| ==> ValidSegment(path.segments[i])
  }

  function SegmentText(segment: Segment): string
  {
    if segment.location then "@" + segment.name else segment.name
  }

  function Joined(segments: seq<Segment>): string
  {
    if segments == [] then ""
    else if |segments| == 1 then SegmentText(segments[0])
    else SegmentText(segments[0]) + "/" + Joined(segments[1..])
  }

  /** ProjectionPath.String */
  function Text(path: Path): string
  {
    if path.plane == "" then "" else path.plane + ":/" + Joined(path.segments)
  }

  // ---- paths print injectively ---------------------------------------------------------

  predicate Without(s: string, c: char)
  {
    forall i :: 0 <= i < |s| ==> s[i] != c
  }

  lemma SplitAt(x: string, y: string, x': string, y': string, c: char)
    requires x + [c] + y == x' + [c] + y' && Without(x, c) && Without(x', c)
    ensures x == x' && y == y'
  {
    var s := x + [c] + y;
    assert s[|x|] == c && s[|x'|] == c;
    assert forall i :: 0 <= i < |x| ==> s[i] == x[i];
    assert forall i :: 0 <= i < |x'| ==> s[i] == x'[i];
    assert |x| == |x'|;
    assert x == s[..|x|] && x' == s[..|x'|] && y == s[|x| + 1..] && y' == s[|x'| + 1..];
  }

  lemma SegmentTextInjective(a: Segment, b: Segment)
    requires ValidSegment(a) && ValidSegment(b)
    ensures SegmentText(a) == SegmentText(b) ==> a == b
    ensures SegmentText(a) != "" && Without(SegmentText(a), '/') && Without(SegmentText(a), ':')
  {
    NonBlankNonEmpty(a.name);
    NonBlankNonEmpty(b.name);
    if SegmentText(a) == SegmentText(b) {
      assert a.location == b.location by {
        assert SegmentText(a)[0] == SegmentText(b)[0];
      }
      if a.location {
        assert a.name == SegmentText(a)[1..] && b.name == SegmentText(b)[1..];
      }
    }
  }

  lemma NonBlankNonEmpty(s: string)
    requires !Blank(s)
    ensures s != ""
  {}

  ghost predicate AllValid(segments: seq<Segment>)
  {
    forall i :: 0 <= i < |segments| ==> ValidSegment(segments[i])
  }

  lemma {:induction false} JoinedWithoutColon(segments: seq<Segment>)
    requires AllValid(segments)
    ensures Without(Joined(segments), ':')
    ensures segments != [] ==> Joined(segments) != ""
  {
    hide ValidSegment, SegmentText;
    if segments != [] {
      assert ValidSegment(segments[0]);
      SegmentTextInjective(segments[0], segments[0]);
      if |segments| > 1 { JoinedWithoutColon(segments[1..]); }
    }
  }

  lemma JoinedHasSlash(segments: seq<Segment>)
    requires |segments| >= 2
    ensures !Without(Joined(segments), '/')
  {
    assert Joined(segments)[|SegmentText(segments[0])|] == '/';
  }

  lemma {:induction false} JoinedInjective(a: seq<Segment>, b: seq<Segment>)
    requires AllValid(a) && AllValid(b) && Joined(a) == Joined(b)
    ensures a == b
  {
    hide ValidSegment, SegmentText;
    JoinedWithoutColon(a);
    JoinedWithoutColon(b);
    if a != [] && b != [] {
      assert ValidSegment(a[0]) && ValidSegment(b[0]);
      SegmentTextInjective(a[0], b[0]);
      SegmentTextInjective(b[0], a[0]);
      if |a| == 1 && |b| == 1 {
        assert a == [a[0]] && b == [b[0]];
      } else if |a| == 1 {
        JoinedHasSlash(b);
      } else if |b| == 1 {
        JoinedHasSlash(a);
      } else {
        SplitAt(SegmentText(a[0]), Joined(a[1..]), SegmentText(b[0]), Joined(b[1..]), '/');
        JoinedInjective(a[1..], b[1..]);
        assert a == [a[0]] + a[1..] && b == [b[0]] + b[1..];
      }
    }
  }

  /** Valid paths that print alike are the same path. */
  lemma TextInjective(p: Path, q: Path)
    requires Valid(p) && Valid(q) && Text(p) == Text(q)
    ensures p == q
  {
    hide ValidSegment, Joined;
    NonBlankNonEmpty(p.plane);
    NonBlankNonEmpty(q.plane);
    assert Text(p) == p.plane + ":" + ("/" + Joined(p.segments)) by {
      assert p.plane + ":/" == p.plane + ":" + "/";
    }
    assert Text(q) == q.plane + ":" + ("/" + Joined(q.segments)) by {
      assert q.plane + ":/" == q.plane + ":" + "/";
    }
    SplitAt(p.plane, "/" + Joined(p.segments), q.plane, "/" + Joined(q.segments), ':');
    assert Joined(p.segments) == ("/" + Joined(p.segments))[1..];
    assert Joined(q.segments) == ("/" + Joined(q.segments))[1..];
    JoinedInjective(p.segments, q.segments);
  }

  // ---- node and edge ids -------------------------------------------------------------------

  /** StableNodeID */
  function StableNodeID(canonical: Path): Option<NodeID>
  {
    if Valid(canonical) && canonical.plane == SERVICE_PLANE then Some(Text(canonical)) else None
  }

  /** StableEdgeID */
  function StableEdgeID(plane: string, from: NodeID, to: NodeID): Option<string>
  {
    if ValidPlane(plane) && from != "" && to != "" then Some(plane + ":" + from + "->" + to) else None
  }

  // What every stable node id looks like: one colon, after the service plane.
  lemma StableShape(canonical: Path)
    requires StableNodeID(canonical).Some?
    ensures var tail := "/" + Joined(canonical.segments);
      StableNodeID(canonical).value == SERVICE_PLANE + ":" + tail && Without(tail, ':')
  {
    JoinedWithoutColon(canonical.segments);
    assert SERVICE_PLANE + ":/" == SERVICE_PLANE + ":" + "/";
  }

  // The part of an edge id between its first and last colon, and the part after.
  lemma EdgeShape(plane: string, x: string, y: string)
    ensures plane + ":" + (SERVICE_PLANE + ":" + x) + "->" + (SERVICE_PLANE + ":" + y) ==
            plane + ":" + (SERVICE_PLANE + ":" + ((x + "->" + SERVICE_PLANE) + ":" + y))
  {}

  /** An edge id determines its plane and both endpoints, when the endpoints are stable node ids. */
  lemma EdgeInjective(plane: string, p: Path, q: Path, plane': string, p': Path, q': Path)
    requires StableNodeID(p).Some? && StableNodeID(q).Some? && StableNodeID(p').Some? && StableNodeID(q').Some?
    requires StableEdgeID(plane, StableNodeID(p).value, StableNodeID(q).value).Some?
    requires StableEdgeID(plane, StableNodeID(p).value, StableNodeID(q).value) ==
             StableEdgeID(plane', StableNodeID(p').value, StableNodeID(q').value)
    ensures plane == plane' && p == p' && q == q'
  {
    hide Joined, Text, Valid;
    StableShape(p);
    StableShape(q);
    StableShape(p');
    StableShape(q');
    var x, y := "/" + Joined(p.segments), "/" + Joined(q.segments);
    var x', y' := "/" + Joined(p'.segments), "/" + Joined(q'.segments);
    EdgeTails(plane, x, y, plane', x', y');
    StableInjective(p, p');
    StableInjective(q, q');
  }

  lemma EdgeTails(plane: string, x: string, y: string, plane': string, x': string, y': string)
    requires Plain(plane) && Plain(plane') && Without(x, ':') && Without(y, ':') && Without(x', ':') && Without(y', ':')
    requires plane + ":" + (SERVICE_PLANE + ":" + x) + "->" + (SERVICE_PLANE + ":" + y) ==
             plane' + ":" + (SERVICE_PLANE + ":" + x') + "->" + (SERVICE_PLANE + ":" + y')
    ensures plane == plane' && x == x' && y == y'
  {
    EdgeShape(plane, x, y);
    EdgeShape(plane', x', y');
    var rest, rest' := (x + "->" + SERVICE_PLANE) + ":" + y, (x' + "->" + SERVICE_PLANE) + ":" + y';
    SplitAt(plane, SERVICE_PLANE + ":" + rest, plane', SERVICE_PLANE + ":" + rest', ':');
    SplitAt(SERVICE_PLANE, rest, SERVICE_PLANE, rest', ':');
    SplitAt(x + "->" + SERVICE_PLANE, y, x' + "->" + SERVICE_PLANE, y', ':');
    assert x == (x + "->" + SERVICE_PLANE)[..|x|] && x' == (x' + "->" + SERVICE_PLANE)[..|x'|];
  }

  lemma StableInjective(p: Path, q: Path)
    requires StableNodeID(p).Some? && StableNodeID(p) == StableNodeID(q)
    ensures p == q
  {
    TextInjective(p, q);
  }

  // ---- projections ---------------------------------------------------------------------------

  datatype Node = Node(id: NodeID, path: Path, canonical: Path)
  datatype Edge = Edge(id: string, from: NodeID, to: NodeID)
  datatype Projection = Projection(plane: string, nodes: seq<Node>, edges: seq<Edge>)

  predicate ValidNode(plane: string, n: Node)
  {
    n.id != "" && Valid(n.path) && n.path.plane == plane && Valid(n.canonical) && n.canonical.plane == SERVICE_PLANE
  }

  /** Every node is of the plane, no two share a path, and one id never has two canonical paths. */
  ghost predicate NodesOk(plane: string, nodes: seq<Node>)
  {
    (forall i :: 0 <= i < |nodes| ==> ValidNode(plane, nodes[i])) &&
    (forall i, j :: 0 <= i < j < |nodes| ==> nodes[i].path != nodes[j].path) &&
    (forall i, j :: 0 <= i < j < |nodes| && nodes[i].id == nodes[j].id ==> nodes[i].canonical == nodes[j].canonical)
  }

  ghost predicate HasNode(nodes: seq<Node>, id: NodeID)
  {
    exists i :: 0 <= i < |nodes| && nodes[i].id == id
  }

  ghost predicate EdgesOk(p: Projection, n: nat)
    requires n <= |p.edges|
  {
    forall i :: 0 <= i < n ==>
      p.edges[i].id != "" && p.edges[i].from != "" && p.edges[i].to != "" &&
      HasNode(p.nodes, p.edges[i].from) && HasNode(p.nodes, p.edges[i].to)
  }

  ghost predicate ValidProjection(p: Projection)
  {
    ValidPlane(p.plane) && NodesOk(p.plane, p.nodes) && EdgesOk(p, |p.edges|)
  }

  lemma SameText(p: Path, q: Path)
    requires Valid(p) && Valid(q)
    ensures Text(p) == Text(q) <==> p == q
  {
    if Text(p) == Text(q) { TextInjective(p, q); }
  }

  ghost predicate HasText(nodes: seq<Node>, t: string)
  {
    exists i :: 0 <= i < |nodes| && Text(nodes[i].path) == t
  }

  // What the node loop of Validate has collected.
  ghost predicate Collected(plane: string, nodes: seq<Node>, paths: set<string>, byID: map<NodeID, Path>)
  {
    NodesOk(plane, nodes) && (forall t :: t in paths <==> HasText(nodes, t)) &&
    (forall id :: id in byID <==> HasNode(nodes, id)) &&
    (forall i :: 0 <= i < |nodes| ==> nodes[i].id in byID && byID[nodes[i].id] == nodes[i].canonical)
  }

  lemma RepeatedPath(plane: string, nodes: seq<Node>, n: Node)
    requires NodesOk(plane, nodes) && ValidNode(plane, n)
    ensures HasText(nodes, Text(n.path)) <==> !NewPath(nodes, n)
  {
    hide Text, ValidNode;
    forall i | 0 <= i < |nodes| ensures Text(nodes[i].path) == Text(n.path) <==> nodes[i].path == n.path {
      SamePrints(plane, nodes[i], n);
    }
  }

  // No earlier node has the path.
  ghost predicate NewPath(nodes: seq<Node>, n: Node)
  {
    forall i :: 0 <= i < |nodes| ==> nodes[i].path != n.path
  }

  lemma RepeatedID(plane: string, nodes: seq<Node>, byID: map<NodeID, Path>, n: Node)
    requires NodesOk(plane, nodes) && ValidNode(plane, n) && HasNode(nodes, n.id) && n.id in byID
    requires forall i :: 0 <= i < |nodes| ==> nodes[i].id in byID && byID[nodes[i].id] == nodes[i].canonical
    ensures Text(byID[n.id]) == Text(n.canonical) <==> byID[n.id] == n.canonical
    ensures byID[n.id] != n.canonical ==> !NodesOk(plane, nodes + [n])
  {
    hide Text, ValidNode;
    var i :| 0 <= i < |nodes| && nodes[i].id == n.id;
    SamePrints(plane, nodes[i], n);
    assert (nodes + [n])[i] == nodes[i] && (nodes + [n])[|nodes|] == n;
  }

  lemma ClashingPath(plane: string, nodes: seq<Node>, n: Node)
    requires !NewPath(nodes, n)
    ensures !NodesOk(plane, nodes + [n])
  {
    hide ValidNode;
    var i :| 0 <= i < |nodes| && nodes[i].path == n.path;
    assert (nodes + [n])[i] == nodes[i] && (nodes + [n])[|nodes|] == n;
  }

  lemma CollectNode(plane: string, nodes: seq<Node>, paths: set<string>, byID: map<NodeID, Path>, n: Node)
    requires Collected(plane, nodes, paths, byID) && ValidNode(plane, n) && NewPath(nodes, n)
    requires n.id in byID ==> byID[n.id] == n.canonical
    ensures Collected(plane, nodes + [n], paths + {Text(n.path)}, byID[n.id := n.canonical])
  {
    hide Text, ValidNode, HasText, HasNode;
    forall t ensures HasText(nodes + [n], t) <==> HasText(nodes, t) || t == Text(n.path) { OneNodeMore(nodes, n, t); }
    forall id ensures HasNode(nodes + [n], id) <==> HasNode(nodes, id) || id == n.id { OneNodeMore(nodes, n, id); }
  }

  lemma OneNodeMore(nodes: seq<Node>, n: Node, s: string)
    ensures HasText(nodes + [n], s) <==> HasText(nodes, s) || s == Text(n.path)
    ensures HasNode(nodes + [n], s) <==> HasNode(nodes, s) || s == n.id
  {
    hide Text;
    var more := nodes + [n];
    assert more[|nodes|] == n && forall i :: 0 <= i < |nodes| ==> more[i] == nodes[i];
    if HasText(nodes, s) {
      var i :| 0 <= i < |nodes| && Text(nodes[i].path) == s;
      assert Text(more[i].path) == s;
    }
    if HasNode(nodes, s) {
      var i :| 0 <= i < |nodes| && nodes[i].id == s;
      assert more[i].id == s;
    }
  }

  lemma PrefixOk(plane: string, nodes: seq<Node>, i: nat)
    requires i <= |nodes| && NodesOk(plane, nodes)
    ensures NodesOk(plane, nodes[..i])
  {
    hide ValidNode;
  }

  lemma SamePrints(plane: string, n: Node, m: Node)
    requires ValidNode(plane, n) && ValidNode(plane, m)
    ensures Text(n.path) == Text(m.path) <==> n.path == m.path
    ensures Text(n.canonical) == Text(m.canonical) <==> n.canonical == m.canonical
  {
    hide Valid, Text;
    SameText(n.path, m.path);
    SameText(n.canonical, m.canonical);
  }

  /** The node loop of Projection.Validate: the canonical paths by id, or None for a refused node. */
  method ValidateNodes(p: Projection) returns (nodesByID: Option<map<NodeID, Path>>)
    ensures nodesByID.Some? <==> NodesOk(p.plane, p.nodes)
    ensures nodesByID.Some? ==> forall id :: id in nodesByID.value <==> HasNode(p.nodes, id)
  {
    hide Text, Valid, NodesOk, HasText, HasNode, NewPath;
    var paths: set<string> := {};
    var byID: map<NodeID, Path> := map[];
    NothingCollected(p.plane);
    assert p.nodes[..0] == [];
    for i := 0 to |p.nodes|
      invariant Collected(p.plane, p.nodes[..i], paths, byID)
    {
      var node := p.nodes[i];
      assert p.nodes[..i] + [node] == p.nodes[..i + 1];
      ghost var allOk := NodesOk(p.plane, p.nodes);
      if allOk { PrefixOk(p.plane, p.nodes, i + 1); }
      if node.id == "" || !Valid(node.path) || node.path.plane != p.plane || !Valid(node.canonical) ||
         node.canonical.plane != SERVICE_PLANE
      {
        RefusedNode(p.plane, p.nodes, i);
        return None;
      }
      RepeatedPath(p.plane, p.nodes[..i], node);
      if Text(node.path) in paths {
        ClashingPath(p.plane, p.nodes[..i], node);
        return None;
      }
      if node.id in byID {
        RepeatedID(p.plane, p.nodes[..i], byID, node);
        if Text(byID[node.id]) != Text(node.canonical) {
          return None;
        }
      }
      CollectNode(p.plane, p.nodes[..i], paths, byID, node);
      paths := paths + {Text(node.path)};
      if node.id !in byID {
        byID := byID[node.id := node.canonical];
      } else {
        assert byID == byID[node.id := node.canonical];
      }
    }
    assert p.nodes[..|p.nodes|] == p.nodes;
    return Some(byID);
  }

  lemma NothingCollected(plane: string)
    ensures Collected(plane, [], {}, map[])
  {}

  lemma RefusedNode(plane: string, nodes: seq<Node>, i: nat)
    requires i < |nodes| && !ValidNode(plane, nodes[i])
    ensures !NodesOk(plane, nodes)
  {}

  /** Projection.Validate: comparing printed paths is comparing paths. */
  method Validate(p: Projection) returns (ok: bool)
    ensures ok <==> ValidProjection(p)
  {
    hide Text, ValidPlane, NodesOk, HasNode;
    if !ValidPlane(p.plane) {
      return false;
    }
    var nodesByID := ValidateNodes(p);
    if nodesByID.None? {
      return false;
    }
    for i := 0 to |p.edges|
      invariant EdgesOk(p, i)
    {
      var edge := p.edges[i];
      if edge.id == "" || edge.from == "" || edge.to == "" || edge.from !in nodesByID.value || edge.to !in nodesByID.value {
        return false;
      }
    }
    return true;
  }

  // ---- the canonical index --------------------------------------------------------------------------

  datatype Index = Index(canonicalByID: map<NodeID, Path>, planePaths: map<string, map<NodeID, Path>>)

  /** A node with the plane of its projection. */
  datatype Item = Item(plane: string, node: Node)

  ghost function ItemsOf(p: Projection): (items: seq<Item>)
    ensures |items| == |p.nodes|
  {
    seq(|p.nodes|, j requires 0 <= j < |p.nodes| => Item(p.plane, p.nodes[j]))
  }

  /** All nodes, projection by projection. */
  ghost function Items(ps: seq<Projection>): seq<Item>
  {
    if ps == [] then [] else Items(ps[..|ps| - 1]) + ItemsOf(ps[|ps| - 1])
  }

  /** What BuildCanonicalIndex asks of one node, beyond a valid projection. */
  ghost predicate Fits(item: Item)
  {
    Valid(item.node.path) && StableNodeID(item.node.canonical) == Some(item.node.id) &&
    (item.plane == SERVICE_PLANE ==> item.node.path == item.node.canonical)
  }

  ghost predicate OnePathPerPlane(items: seq<Item>)
  {
    forall i, j :: 0 <= i < j < |items| && items[i].plane == items[j].plane && items[i].node.id == items[j].node.id ==>
      items[i].node.path == items[j].node.path
  }

  ghost predicate InService(items: seq<Item>, id: NodeID)
  {
    exists i :: 0 <= i < |items| && items[i].plane == SERVICE_PLANE && items[i].node.id == id
  }

  ghost predicate HasService(ps: seq<Projection>)
  {
    exists i :: 0 <= i < |ps| && ps[i].plane == SERVICE_PLANE
  }

  ghost predicate ServiceCovers(items: seq<Item>)
  {
    forall i :: 0 <= i < |items| ==> InService(items, items[i].node.id)
  }

  /** Exactly when an index exists; there is no case for two canonical paths under one id. */
  ghost predicate Indexable(ps: seq<Projection>)
  {
    (forall i :: 0 <= i < |ps| ==> ValidProjection(ps[i])) &&
    (forall i :: 0 <= i < |Items(ps)| ==> Fits(Items(ps)[i])) &&
    OnePathPerPlane(Items(ps)) && (HasService(ps) ==> ServiceCovers(Items(ps)))
  }

  ghost predicate Stored(index: Index, item: Item)
  {
    item.node.id in index.canonicalByID && index.canonicalByID[item.node.id] == item.node.canonical &&
    item.plane in index.planePaths && item.node.id in index.planePaths[item.plane] &&
    index.planePaths[item.plane][item.node.id] == item.node.path
  }

  ghost predicate InPlane(items: seq<Item>, plane: string, id: NodeID)
  {
    exists i :: 0 <= i < |items| && items[i].plane == plane && items[i].node.id == id
  }

  ghost predicate HasID(items: seq<Item>, id: NodeID)
  {
    exists i :: 0 <= i < |items| && items[i].node.id == id
  }

  /** The index returns each node's own paths and nothing else. */
  ghost predicate Indexes(index: Index, items: seq<Item>)
  {
    (forall i :: 0 <= i < |items| ==> Stored(index, items[i])) &&
    (forall id :: id in index.canonicalByID ==> HasID(items, id)) &&
    (forall plane, id :: plane in index.planePaths && id in index.planePaths[plane] ==> InPlane(items, plane, id))
  }

  ghost predicate AllFit(items: seq<Item>)
  {
    forall i :: 0 <= i < |items| ==> Fits(items[i])
  }

  function AddedPlane(index: Index, plane: string): Index
  {
    if plane in index.planePaths then index else index.(planePaths := index.planePaths[plane := map[]])
  }

  lemma AddPlane(index: Index, items: seq<Item>, plane: string)
    requires Indexes(index, items)
    ensures Indexes(AddedPlane(index, plane), items)
  {
    hide HasID, InPlane;
    forall i | 0 <= i < |items| ensures Stored(AddedPlane(index, plane), items[i]) {
      assert Stored(index, items[i]);
    }
  }

  function AddedNode(index: Index, item: Item): Index
    requires item.plane in index.planePaths
  {
    Index(
      if item.node.id in index.canonicalByID then index.canonicalByID else index.canonicalByID[item.node.id := item.node.canonical],
      if item.node.id in index.planePaths[item.plane] then index.planePaths
      else index.planePaths[item.plane := index.planePaths[item.plane][item.node.id := item.node.path]])
  }

  /** An id already in the index has the canonical path of the node at hand: ids do not collide. */
  lemma NoCollision(index: Index, items: seq<Item>, item: Item)
    requires Indexes(index, items) && AllFit(items) && Fits(item) && item.node.id in index.canonicalByID
    ensures index.canonicalByID[item.node.id] == item.node.canonical
  {
    hide InPlane, StableNodeID, Valid;
    assert HasID(items, item.node.id);
    var i :| 0 <= i < |items| && items[i].node.id == item.node.id;
    assert Stored(index, items[i]) && Fits(items[i]);
    StableInjective(items[i].node.canonical, item.node.canonical);
  }

  /** A stored path of the plane is the path of an earlier node of the same plane and id. */
  lemma PathClash(index: Index, items: seq<Item>, item: Item)
    requires Indexes(index, items) && AllFit(items) && Fits(item)
    requires item.plane in index.planePaths && item.node.id in index.planePaths[item.plane]
    ensures Valid(index.planePaths[item.plane][item.node.id])
    ensures index.planePaths[item.plane][item.node.id] != item.node.path ==> !OnePathPerPlane(items + [item])
  {
    hide HasID, StableNodeID, Valid;
    assert InPlane(items, item.plane, item.node.id);
    var i :| 0 <= i < |items| && items[i].plane == item.plane && items[i].node.id == item.node.id;
    assert Stored(index, items[i]) && Fits(items[i]);
    var more := items + [item];
    assert more[i] == items[i] && more[|items|] == item;
  }

  lemma AddNode(index: Index, items: seq<Item>, item: Item)
    requires Indexes(index, items) && item.plane in index.planePaths
    requires item.node.id in index.canonicalByID ==> index.canonicalByID[item.node.id] == item.node.canonical
    requires item.node.id in index.planePaths[item.plane] ==> index.planePaths[item.plane][item.node.id] == item.node.path
    ensures Indexes(AddedNode(index, item), items + [item])
  {
    hide HasID, InPlane;
    var after, more := AddedNode(index, item), items + [item];
    forall i | 0 <= i < |more| ensures Stored(after, more[i]) {
      if i < |items| { assert Stored(index, items[i]) && more[i] == items[i]; }
    }
    forall id | id in after.canonicalByID ensures HasID(more, id) { OneMore(items, item, item.plane, id); }
    forall plane, id | plane in after.planePaths && id in after.planePaths[plane] ensures InPlane(more, plane, id) {
      OneMore(items, item, plane, id);
    }
  }

  lemma OneMore(items: seq<Item>, item: Item, plane: string, id: NodeID)
    ensures HasID(items + [item], id) <==> HasID(items, id) || item.node.id == id
    ensures InPlane(items + [item], plane, id) <==> InPlane(items, plane, id) || (item.plane == plane && item.node.id == id)
  {
    var more := items + [item];
    assert more[|items|] == item && forall i :: 0 <= i < |items| ==> more[i] == items[i];
    if HasID(items, id) {
      var i :| 0 <= i < |items| && items[i].node.id == id;
      assert more[i].node.id == id;
    }
    if InPlane(items, plane, id) {
      var i :| 0 <= i < |items| && items[i].plane == plane && items[i].node.id == id;
      assert more[i].plane == plane && more[i].node.id == id;
    }
  }

  /** In an index every pair of nodes of one plane and id has one path. */
  lemma IndexedOnce(index: Index, items: seq<Item>)
    requires Indexes(index, items)
    ensures OnePathPerPlane(items)
  {
    hide HasID, InPlane;
    forall i, j | 0 <= i < j < |items| && items[i].plane == items[j].plane && items[i].node.id == items[j].node.id
      ensures items[i].node.path == items[j].node.path
    {
      assert Stored(index, items[i]) && Stored(index, items[j]);
    }
  }

  ghost predicate CollectsService(serviceIDs: set<NodeID>, items: seq<Item>)
  {
    forall id :: id in serviceIDs <==> InPlane(items, SERVICE_PLANE, id)
  }

  ghost predicate Refused(items: seq<Item>)
  {
    !AllFit(items) || !OnePathPerPlane(items)
  }

  lemma RefusedLonger(items: seq<Item>, n: nat)
    requires n <= |items| && Refused(items[..n])
    ensures Refused(items)
  {
    hide Fits;
    if !AllFit(items[..n]) {
      var i :| 0 <= i < n && !Fits(items[..n][i]);
      assert !Fits(items[i]);
    } else {
      var i, j :| 0 <= i < j < n && items[i].plane == items[j].plane && items[i].node.id == items[j].node.id &&
                  items[i].node.path != items[j].node.path;
    }
  }

  lemma RefusedNow(items: seq<Item>, item: Item)
    requires !Fits(item)
    ensures Refused(items + [item])
  {
    hide Fits;
    assert (items + [item])[|items|] == item;
  }

  lemma AddItem(index: Index, serviceIDs: set<NodeID>, items: seq<Item>, item: Item)
    requires Indexes(index, items) && AllFit(items) && CollectsService(serviceIDs, items)
    requires Fits(item) && item.plane in index.planePaths
    requires item.node.id in index.planePaths[item.plane] ==> index.planePaths[item.plane][item.node.id] == item.node.path
    ensures Indexes(AddedNode(index, item), items + [item]) && AllFit(items + [item])
    ensures CollectsService(if item.plane == SERVICE_PLANE then serviceIDs + {item.node.id} else serviceIDs, items + [item])
  {
    hide Indexes, Fits, InPlane, AddedNode;
    if item.node.id in index.canonicalByID { NoCollision(index, items, item); }
    AddNode(index, items, item);
    forall id ensures InPlane(items + [item], SERVICE_PLANE, id) <==>
      InPlane(items, SERVICE_PLANE, id) || (item.plane == SERVICE_PLANE && item.node.id == id)
    {
      OneMore(items, item, SERVICE_PLANE, id);
    }
  }

  lemma ProjectionNode(p: Projection, k: nat)
    requires ValidProjection(p) && k < |p.nodes|
    ensures ValidNode(p.plane, p.nodes[k])
    ensures Fits(Item(p.plane, p.nodes[k])) <==>
      StableNodeID(p.nodes[k].canonical) == Some(p.nodes[k].id) &&
      (p.plane == SERVICE_PLANE ==> Text(p.nodes[k].path) == Text(p.nodes[k].canonical))
  {
    hide Text, StableNodeID;
    assert ValidNode(p.plane, p.nodes[k]);
    SameText(p.nodes[k].path, p.nodes[k].canonical);
  }

  /** The node loop of BuildCanonicalIndex; its id-collision branch is dead. */
  method IndexNodes(p: Projection, start: Index, service: set<NodeID>, ghost items: seq<Item>)
    returns (index: Index, serviceIDs: set<NodeID>, ok: bool)
    requires ValidProjection(p) && Indexes(start, items) && AllFit(items) && CollectsService(service, items)
    ensures ok ==>
      var more := items + ItemsOf(p);
      Indexes(index, more) && AllFit(more) && CollectsService(serviceIDs, more) && p.plane in index.planePaths
    ensures !ok ==> Refused(items + ItemsOf(p))
  {
    hide Indexes, AllFit, CollectsService, ValidProjection, Fits, Text, StableNodeID, Refused, Valid;
    AddPlane(start, items, p.plane);
    index, serviceIDs, ok := AddedPlane(start, p.plane), service, true;
    ghost var more := items + ItemsOf(p);
    assert items + ItemsOf(p)[..0] == items;
    for k := 0 to |p.nodes|
      invariant p.plane in index.planePaths
      invariant Indexes(index, items + ItemsOf(p)[..k]) && AllFit(items + ItemsOf(p)[..k])
      invariant CollectsService(serviceIDs, items + ItemsOf(p)[..k])
    {
      var node := p.nodes[k];
      ghost var seen, item := items + ItemsOf(p)[..k], Item(p.plane, node);
      assert more[..|items| + k + 1] == seen + [item] && items + ItemsOf(p)[..k + 1] == seen + [item];
      ProjectionNode(p, k);
      if StableNodeID(node.canonical) != Some(node.id) {
        RefusedNow(seen, item);
        RefusedLonger(more, |items| + k + 1);
        return index, serviceIDs, false;
      }
      if p.plane == SERVICE_PLANE && Text(node.path) != Text(node.canonical) {
        RefusedNow(seen, item);
        RefusedLonger(more, |items| + k + 1);
        return index, serviceIDs, false;
      }
      if node.id in index.canonicalByID {
        NoCollision(index, seen, item);
        if Text(index.canonicalByID[node.id]) != Text(node.canonical) {
          assert false;
        }
      }
      if node.id in index.planePaths[p.plane] {
        PathClash(index, seen, item);
        SameText(index.planePaths[p.plane][node.id], node.path);
        if Text(index.planePaths[p.plane][node.id]) != Text(node.path) {
          ClashIsRefused(seen + [item]);
          RefusedLonger(more, |items| + k + 1);
          return index, serviceIDs, false;
        }
      }
      AddItem(index, serviceIDs, seen, item);
      index := AddedNode(index, Item(p.plane, node));
      if p.plane == SERVICE_PLANE {
        serviceIDs := serviceIDs + {node.id};
      }
    }
    assert items + ItemsOf(p)[..|p.nodes|] == more;
  }

  lemma ClashIsRefused(items: seq<Item>)
    requires !OnePathPerPlane(items)
    ensures Refused(items)
  {
    hide OnePathPerPlane, AllFit;
  }

  /** Whether every node id of the other planes is one of the service plane. */
  method ServiceHasAll(index: Index, serviceIDs: set<NodeID>) returns (ok: bool)
    ensures ok <==> forall plane, id :: plane in index.planePaths && plane != SERVICE_PLANE && id in index.planePaths[plane] ==>
      id in serviceIDs
  {
    var planes := index.planePaths.Keys;
    while planes != {}
      invariant planes <= index.planePaths.Keys
      invariant forall plane, id ::
        plane in index.planePaths && plane !in planes && plane != SERVICE_PLANE && id in index.planePaths[plane] ==>
          id in serviceIDs
      decreases planes
    {
      var plane :| plane in planes;
      if plane != SERVICE_PLANE {
        var ids := index.planePaths[plane].Keys;
        while ids != {}
          invariant ids <= index.planePaths[plane].Keys
          invariant forall id :: id in index.planePaths[plane] && id !in ids ==> id in serviceIDs
          decreases ids
        {
          var id :| id in ids;
          if id !in serviceIDs {
            return false;
          }
          ids := ids - {id};
        }
      }
      planes := planes - {plane};
    }
    return true;
  }

  lemma ServiceCheck(index: Index, serviceIDs: set<NodeID>, items: seq<Item>)
    requires Indexes(index, items) && CollectsService(serviceIDs, items)
    ensures ServiceCovers(items) <==>
      forall plane, id :: plane in index.planePaths && plane != SERVICE_PLANE && id in index.planePaths[plane] ==> id in serviceIDs
  {
    hide HasID;
    if ServiceCovers(items) {
      forall plane, id | plane in index.planePaths && plane != SERVICE_PLANE && id in index.planePaths[plane]
        ensures id in serviceIDs
      {
        assert InPlane(items, plane, id);
        var i :| 0 <= i < |items| && items[i].plane == plane && items[i].node.id == id;
        assert InService(items, items[i].node.id);
        assert InPlane(items, SERVICE_PLANE, id);
      }
    }
    if forall plane, id :: plane in index.planePaths && plane != SERVICE_PLANE && id in index.planePaths[plane] ==> id in serviceIDs {
      forall i | 0 <= i < |items| ensures InService(items, items[i].node.id) {
        assert Stored(index, items[i]);
        if items[i].plane != SERVICE_PLANE {
          assert InPlane(items, SERVICE_PLANE, items[i].node.id);
        }
      }
    }
  }

  lemma {:induction false} ItemsPrefix(ps: seq<Projection>, i: nat)
    requires i <= |ps|
    ensures |Items(ps[..i])| <= |Items(ps)| && Items(ps[..i]) == Items(ps)[..|Items(ps[..i])|]
    decreases |ps| - i
  {
    if i == |ps| {
      assert ps[..i] == ps;
    } else {
      ItemsStep(ps, i);
      ItemsPrefix(ps, i + 1);
    }
  }

  lemma ItemsStep(ps: seq<Projection>, i: nat)
    requires i < |ps|
    ensures Items(ps[..i + 1]) == Items(ps[..i]) + ItemsOf(ps[i])
  {
    assert ps[..i + 1][..i] == ps[..i];
  }

  lemma NothingIndexed()
    ensures Indexes(Index(map[], map[]), []) && AllFit([]) && CollectsService({}, [])
  {}

  lemma IndexableParts(ps: seq<Projection>)
    ensures Indexable(ps) <==>
      (forall i :: 0 <= i < |ps| ==> ValidProjection(ps[i])) && !Refused(Items(ps)) &&
      (HasService(ps) ==> ServiceCovers(Items(ps)))
  {
    hide ValidProjection, Fits, HasService, ServiceCovers, Items, OnePathPerPlane;
  }

  /** BuildCanonicalIndex succeeds exactly on indexable projections and then indexes exactly their nodes. */
  method BuildCanonicalIndex(ps: seq<Projection>) returns (r: Option<Index>)
    ensures r.Some? <==> Indexable(ps)
    ensures r.Some? ==> Indexes(r.value, Items(ps))
  {
    hide Indexes, AllFit, CollectsService, ValidProjection, Refused, Indexable, ServiceCovers, Items, ItemsOf, OnePathPerPlane;
    var index, hasService := Index(map[], map[]), false;
    var serviceIDs: set<NodeID> := {};
    NothingIndexed();
    IndexableParts(ps);
    assert ps[..0] == [] && Items([]) == [] by { NoItems(); }
    for i := 0 to |ps|
      invariant forall j :: 0 <= j < i ==> ValidProjection(ps[j])
      invariant hasService <==> exists j :: 0 <= j < i && ps[j].plane == SERVICE_PLANE
      invariant Indexes(index, Items(ps[..i])) && AllFit(Items(ps[..i])) && CollectsService(serviceIDs, Items(ps[..i]))
    {
      var valid := Validate(ps[i]);
      if !valid {
        return None;
      }
      if ps[i].plane == SERVICE_PLANE {
        hasService := true;
      }
      var ok;
      index, serviceIDs, ok := IndexNodes(ps[i], index, serviceIDs, Items(ps[..i]));
      ItemsStep(ps, i);
      if !ok {
        ItemsPrefix(ps, i + 1);
        RefusedLonger(Items(ps), |Items(ps[..i + 1])|);
        return None;
      }
    }
    assert ps[..|ps|] == ps;
    IndexedOnce(index, Items(ps));
    NotRefused(Items(ps));
    ServiceCheck(index, serviceIDs, Items(ps));
    if hasService {
      var covered := ServiceHasAll(index, serviceIDs);
      if !covered {
        return None;
      }
    }
    return Some(index);
  }

  lemma NoItems()
    ensures Items([]) == []
  {}

  lemma NotRefused(items: seq<Item>)
    requires AllFit(items) && OnePathPerPlane(items)
    ensures !Refused(items)
  {
    hide AllFit, OnePathPerPlane;
  }

  /** CanonicalIndex.Canonical and CanonicalIndex.PlanePath */
  function CanonicalOf(index: Index, id: NodeID): Option<Path>
  {
    if id in index.canonicalByID then Some(index.canonicalByID[id]) else None
  }

  function PlanePathOf(index: Index, plane: string, id: NodeID): Option<Path>
  {
    if plane in index.planePaths && id in index.planePaths[plane] then Some(index.planePaths[plane][id]) else None
  }

  lemma OwnItem(item: Item, canonical: Path)
    requires Fits(item) && StableNodeID(canonical) == Some(item.node.id)
    ensures item.node.canonical == canonical && (item.plane == SERVICE_PLANE ==> item.node.path == canonical)
  {
    hide Valid, Text;
    StableInjective(item.node.canonical, canonical);
  }

  lemma FoundCanonical(index: Index, items: seq<Item>, canonical: Path, id: NodeID)
    requires Indexes(index, items) && AllFit(items) && StableNodeID(canonical) == Some(id)
    ensures CanonicalOf(index, id) == if HasID(items, id) then Some(canonical) else None
  {
    hide StableNodeID, Fits, InPlane;
    if HasID(items, id) {
      var i :| 0 <= i < |items| && items[i].node.id == id;
      assert Stored(index, items[i]) && Fits(items[i]);
      OwnItem(items[i], canonical);
    }
  }

  lemma FoundInPlane(index: Index, items: seq<Item>, canonical: Path, plane: string, id: NodeID)
    requires Indexes(index, items) && AllFit(items) && StableNodeID(canonical) == Some(id)
    ensures PlanePathOf(index, plane, id).Some? <==> InPlane(items, plane, id)
    ensures PlanePathOf(index, plane, id).Some? && plane == SERVICE_PLANE ==> PlanePathOf(index, plane, id) == Some(canonical)
  {
    hide StableNodeID, Fits, HasID;
    if InPlane(items, plane, id) {
      var i :| 0 <= i < |items| && items[i].plane == plane && items[i].node.id == id;
      assert Stored(index, items[i]) && Fits(items[i]);
      OwnItem(items[i], canonical);
    }
  }

  /** Looking up the stable id of any canonical path in an index gives that path back, or nothing when no node has
      it; a plane path is found exactly for the ids of the plane's nodes, and in the service plane it is the
      canonical path itself. */
  lemma LookupsAreOwn(ps: seq<Projection>, index: Index, canonical: Path, plane: string)
    requires Indexable(ps) && Indexes(index, Items(ps)) && StableNodeID(canonical).Some?
    ensures var id := StableNodeID(canonical).value;
      CanonicalOf(index, id) == (if HasID(Items(ps), id) then Some(canonical) else None) &&
      (PlanePathOf(index, plane, id).Some? <==> InPlane(Items(ps), plane, id)) &&
      (PlanePathOf(index, plane, id).Some? && plane == SERVICE_PLANE ==> PlanePathOf(index, plane, id) == Some(canonical))
  {
    hide ValidProjection, Items, OnePathPerPlane, ServiceCovers, HasService, StableNodeID, Indexes, CanonicalOf, PlanePathOf,
      HasID, InPlane, Fits;
    assert AllFit(Items(ps));
    FoundCanonical(index, Items(ps), canonical, StableNodeID(canonical).value);
    FoundInPlane(index, Items(ps), canonical, plane, StableNodeID(canonical).value);
  }
}
