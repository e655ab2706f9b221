// When projections can be indexed, node by node and edge by edge.
module ProjectionLaws {
  import opened Numerals
  import opened Projections
  import Identity
  import IdentityLaws

  // ---- names and printed paths -----------------------------------------------------------

  /** Something but white space, and neither a slash nor a colon. */
  ghost predicate ProperName(s: string)
  {
    (exists i :: 0 <= i < |s| && !IdentityLaws.White(s[i])) && forall i :: 0 <= i < |s| ==> s[i] != '/' && s[i] != ':'
  }

  lemma BlankIsWhite(s: string)
    ensures Blank(s) <==> forall i :: 0 <= i < |s| ==> IdentityLaws.White(s[i])
  {
    var k := IdentityLaws.TrimLeftIs(s);
    var t := Identity.TrimLeft(s);
    IdentityLaws.TrimRightIs(t);
    assert forall i :: k <= i < |s| ==> s[i] == t[i - k];
    if !Blank(s) { assert !IdentityLaws.White(t[0]) && t[0] == s[k]; }
  }

  lemma PlaneIs(plane: string)
    ensures ValidPlane(plane) <==> ProperName(plane)
  {
    hide Blank;
    BlankIsWhite(plane);
  }

  ghost predicate ProperSegment(x: Segment)
  {
    ProperName(x.name) && x.name[0] != '@'
  }

  /** A path of properly named segments, none of which looks like a location by itself, in a properly named plane. */
  ghost predicate ProperPath(p: Path)
  {
    ProperName(p.plane) && forall i :: 0 <= i < |p.segments| ==> ProperSegment(p.segments[i])
  }

  lemma SegmentIs(x: Segment)
    ensures ValidSegment(x) <==> ProperSegment(x)
  {
    hide Blank;
    BlankIsWhite(x.name);
    if x.name != "" { assert "@" <= x.name <==> x.name[0] == '@' by { assert x.name[..1] == [x.name[0]]; } }
  }

  lemma PathIs(p: Path)
    ensures Valid(p) <==> ProperPath(p)
  {
    hide ValidPlane, ValidSegment, ProperName, ProperSegment;
    PlaneIs(p.plane);
    forall i | 0 <= i < |p.segments| ensures ValidSegment(p.segments[i]) <==> ProperSegment(p.segments[i]) {
      SegmentIs(p.segments[i]);
    }
  }

  /** Segments print in order with slashes between them, locations behind an at sign. */
  lemma {:induction false} JoinedPrints(a: seq<Segment>, x: Segment)
    ensures Joined(a + [x]) == (if a == [] then "" else Joined(a) + "/") + (if x.location then "@" else "") + x.name
  {
    if a == [] {
      assert [x][0] == x;
    } else {
      assert (a + [x])[1..] == a[1..] + [x];
      JoinedPrints(a[1..], x);
      if |a| == 1 { assert a[1..] == []; }
    }
  }

  /** A path prints as its plane, a colon and its segments below a slash. */
  lemma TextPrints(plane: string, a: seq<Segment>, x: Segment)
    requires plane != ""
    ensures Text(Path(plane, [])) == plane + ":/"
    ensures Text(Path(plane, a + [x])) ==
            Text(Path(plane, a)) + (if a == [] then "" else "/") + (if x.location then "@" else "") + x.name
  {
    JoinedPrints(a, x);
    assert plane + ":/" + "" == plane + ":/";
    hide Joined;
    if a == [] { assert Joined(a) == "" by { NoSegments(); } }
  }

  lemma NoSegments()
    ensures Joined([]) == ""
  {}

  // ---- indexable projections ------------------------------------------------------------------

  /** A node fits its plane: proper paths, the canonical one of the service plane, the id its print; and in the service
      plane the two paths are one. */
  ghost predicate FitsPlane(plane: string, n: Node)
  {
    ProperPath(n.path) && n.path.plane == plane && ProperPath(n.canonical) && n.canonical.plane == "Service" &&
    n.id == Text(n.canonical) && (plane == "Service" ==> n.path == n.canonical)
  }

  ghost predicate NodeIn(ps: seq<Projection>, plane: string, n: Node)
  {
    exists i, k :: 0 <= i < |ps| && 0 <= k < |ps[i].nodes| && ps[i].plane == plane && ps[i].nodes[k] == n
  }

  /** Every edge has an id and runs between nodes of its projection. */
  ghost predicate EdgesRun(p: Projection)
  {
    forall k :: 0 <= k < |p.edges| ==>
      p.edges[k].id != "" && p.edges[k].from in IDs(p.nodes) && p.edges[k].to in IDs(p.nodes)
  }

  ghost function IDs(nodes: seq<Node>): set<NodeID>
  {
    set i | 0 <= i < |nodes| :: nodes[i].id
  }

  /** No projection repeats a path, and wherever a plane shows an id it shows it under one path. */
  ghost predicate PathsUnique(ps: seq<Projection>)
  {
    (forall i, k, l :: 0 <= i < |ps| && 0 <= k < l < |ps[i].nodes| ==> ps[i].nodes[k].path != ps[i].nodes[l].path) &&
    (forall plane, n, m :: NodeIn(ps, plane, n) && NodeIn(ps, plane, m) && n.id == m.id ==> n.path == m.path)
  }

  /** If there is a service plane, every node is in it. */
  ghost predicate ServiceComplete(ps: seq<Projection>)
  {
    (exists i :: 0 <= i < |ps| && ps[i].plane == "Service") ==>
      forall plane, n :: NodeIn(ps, plane, n) ==> exists m :: NodeIn(ps, "Service", m) && m.id == n.id
  }

  ghost predicate AllProper(ps: seq<Projection>)
  {
    forall i :: 0 <= i < |ps| ==>
      ProperName(ps[i].plane) && EdgesRun(ps[i]) &&
      forall k :: 0 <= k < |ps[i].nodes| ==> FitsPlane(ps[i].plane, ps[i].nodes[k])
  }

  lemma NodeFits(p: Projection, n: Node)
    ensures ValidNode(p.plane, n) && Fits(Item(p.plane, n)) <==> FitsPlane(p.plane, n)
  {
    hide Valid, ProperPath, Joined;
    PathIs(n.path);
    PathIs(n.canonical);
    if ProperPath(n.canonical) && n.canonical.plane == "Service" { PrintedIsSomething(n.canonical); }
  }

  lemma PrintedIsSomething(p: Path)
    requires p.plane == "Service"
    ensures Text(p) != ""
  {
    hide Joined;
  }

  lemma {:induction false} ItemsAre(ps: seq<Projection>, plane: string, n: Node)
    ensures Item(plane, n) in Items(ps) <==> NodeIn(ps, plane, n)
  {
    if ps != [] {
      var m := |ps| - 1;
      ItemsAre(ps[..m], plane, n);
      assert forall i :: 0 <= i < m ==> ps[..m][i] == ps[i];
      if Item(plane, n) in ItemsOf(ps[m]) {
        var k :| 0 <= k < |ps[m].nodes| && ItemsOf(ps[m])[k] == Item(plane, n);
        assert ps[m].nodes[k] == n;
      }
      if NodeIn(ps, plane, n) {
        var i, k :| 0 <= i < |ps| && 0 <= k < |ps[i].nodes| && ps[i].plane == plane && ps[i].nodes[k] == n;
        if i == m { assert ItemsOf(ps[m])[k] == Item(plane, n); } else { assert ps[..m][i].nodes[k] == n; }
      }
      if NodeIn(ps[..m], plane, n) {
        var i, k :| 0 <= i < m && 0 <= k < |ps[..m][i].nodes| && ps[..m][i].plane == plane && ps[..m][i].nodes[k] == n;
        assert ps[i].nodes[k] == n;
      }
    }
  }

  lemma OnePathIs(ps: seq<Projection>)
    ensures OnePathPerPlane(Items(ps)) <==>
      forall plane, n, m :: NodeIn(ps, plane, n) && NodeIn(ps, plane, m) && n.id == m.id ==> n.path == m.path
  {
    hide NodeIn, Items;
    var items := Items(ps);
    forall plane, n ensures Item(plane, n) in items <==> NodeIn(ps, plane, n) { ItemsAre(ps, plane, n); }
    if OnePathPerPlane(items) {
      forall plane, n, m | NodeIn(ps, plane, n) && NodeIn(ps, plane, m) && n.id == m.id ensures n.path == m.path {
        assert Item(plane, n) in items && Item(plane, m) in items;
        var i :| 0 <= i < |items| && items[i] == Item(plane, n);
        var j :| 0 <= j < |items| && items[j] == Item(plane, m);
        assert i < j || j < i || i == j;
      }
    } else {
      var i, j :| 0 <= i < j < |items| && items[i].plane == items[j].plane && items[i].node.id == items[j].node.id &&
                  items[i].node.path != items[j].node.path;
      assert Item(items[i].plane, items[i].node) in items && Item(items[j].plane, items[j].node) in items;
      assert NodeIn(ps, items[i].plane, items[i].node) && NodeIn(ps, items[j].plane, items[j].node);
    }
  }

  lemma CoversIs(ps: seq<Projection>)
    ensures (HasService(ps) ==> ServiceCovers(Items(ps))) <==> ServiceComplete(ps)
  {
    hide NodeIn, Items;
    var items := Items(ps);
    forall plane, n ensures Item(plane, n) in items <==> NodeIn(ps, plane, n) { ItemsAre(ps, plane, n); }
    forall id ensures InService(items, id) <==> exists m :: NodeIn(ps, "Service", m) && m.id == id {
      if InService(items, id) {
        var i :| 0 <= i < |items| && items[i].plane == SERVICE_PLANE && items[i].node.id == id;
        assert Item(items[i].plane, items[i].node) in items;
        assert NodeIn(ps, "Service", items[i].node);
      }
      if m :| NodeIn(ps, "Service", m) && m.id == id {
        assert Item("Service", m) in items;
        var i :| 0 <= i < |items| && items[i] == Item("Service", m);
      }
    }
    hide InService;
    if HasService(ps) {
      if ServiceCovers(items) {
        forall plane, n | NodeIn(ps, plane, n) ensures InService(items, n.id) {
          assert Item(plane, n) in items;
          var i :| 0 <= i < |items| && items[i] == Item(plane, n);
        }
      }
      if ServiceComplete(ps) {
        forall i | 0 <= i < |items| ensures InService(items, items[i].node.id) {
          assert Item(items[i].plane, items[i].node) in items;
          assert NodeIn(ps, items[i].plane, items[i].node);
        }
      }
    }
  }

  lemma NodesAre(p: Projection)
    requires forall k :: 0 <= k < |p.nodes| ==> FitsPlane(p.plane, p.nodes[k])
    ensures NodesOk(p.plane, p.nodes) <==> forall k, l :: 0 <= k < l < |p.nodes| ==> p.nodes[k].path != p.nodes[l].path
  {
    hide FitsPlane, ValidNode, Fits;
    forall k | 0 <= k < |p.nodes| ensures ValidNode(p.plane, p.nodes[k]) { NodeFits(p, p.nodes[k]); }
    forall k, l | 0 <= k < l < |p.nodes| && p.nodes[k].id == p.nodes[l].id ensures p.nodes[k].canonical == p.nodes[l].canonical {
      NodeFits(p, p.nodes[k]);
      NodeFits(p, p.nodes[l]);
      OneCanonical(p.plane, p.nodes[k], p.nodes[l]);
    }
  }

  lemma OneCanonical(plane: string, n: Node, m: Node)
    requires Fits(Item(plane, n)) && Fits(Item(plane, m)) && n.id == m.id
    ensures n.canonical == m.canonical
  {
    hide Valid, Text;
    StableInjective(n.canonical, m.canonical);
  }

  lemma EdgesAre(p: Projection)
    requires forall k :: 0 <= k < |p.nodes| ==> p.nodes[k].id != ""
    ensures EdgesOk(p, |p.edges|) <==> EdgesRun(p)
  {
    forall id ensures HasNode(p.nodes, id) <==> id in IDs(p.nodes) {}
    hide HasNode, IDs;
    assert "" !in IDs(p.nodes) by { NoEmptyID(p.nodes); }
  }

  lemma NoEmptyID(nodes: seq<Node>)
    requires forall k :: 0 <= k < |nodes| ==> nodes[k].id != ""
    ensures "" !in IDs(nodes)
  {}

  // One projection: valid and of fitting nodes.
  lemma ProjectionIs(p: Projection)
    ensures ValidProjection(p) && (forall k :: 0 <= k < |p.nodes| ==> Fits(Item(p.plane, p.nodes[k]))) <==>
      ProperName(p.plane) && EdgesRun(p) && (forall k :: 0 <= k < |p.nodes| ==> FitsPlane(p.plane, p.nodes[k])) &&
      (forall k, l :: 0 <= k < l < |p.nodes| ==> p.nodes[k].path != p.nodes[l].path)
  {
    hide ValidPlane, ProperName, FitsPlane, Fits, ValidNode, EdgesRun, EdgesOk;
    PlaneIs(p.plane);
    forall k | 0 <= k < |p.nodes| ensures ValidNode(p.plane, p.nodes[k]) && Fits(Item(p.plane, p.nodes[k])) <==> FitsPlane(p.plane, p.nodes[k]) {
      NodeFits(p, p.nodes[k]);
    }
    if forall k :: 0 <= k < |p.nodes| ==> FitsPlane(p.plane, p.nodes[k]) {
      forall k | 0 <= k < |p.nodes| ensures p.nodes[k].id != "" { FitsNamed(p.plane, p.nodes[k]); }
      NodesAre(p);
      EdgesAre(p);
    }
  }

  lemma FitsNamed(plane: string, n: Node)
    requires FitsPlane(plane, n)
    ensures n.id != ""
  {
    PrintedIsSomething(n.canonical);
  }

  /** Projections have a canonical index if and only if every name, path and id is proper, no path is repeated in a
      projection or under an id of a plane, every edge runs inside its projection, and the service plane, if there is one,
      has every node. */
  lemma IndexableExactly(ps: seq<Projection>)
    ensures Indexable(ps) <==> AllProper(ps) && PathsUnique(ps) && ServiceComplete(ps)
  {
    hide Items, OnePathPerPlane, NodeIn, ServiceComplete, ServiceCovers, HasService, ProperName, FitsPlane, Fits, ValidProjection,
      EdgesRun;
    OnePathIs(ps);
    CoversIs(ps);
    ItemsFit(ps);
    forall i | 0 <= i < |ps|
      ensures ValidProjection(ps[i]) && (forall k :: 0 <= k < |ps[i].nodes| ==> Fits(Item(ps[i].plane, ps[i].nodes[k]))) <==>
        ProperName(ps[i].plane) && EdgesRun(ps[i]) &&
        (forall k :: 0 <= k < |ps[i].nodes| ==> FitsPlane(ps[i].plane, ps[i].nodes[k])) &&
        (forall k, l :: 0 <= k < l < |ps[i].nodes| ==> ps[i].nodes[k].path != ps[i].nodes[l].path)
    {
      ProjectionIs(ps[i]);
    }
  }

  lemma ItemsFit(ps: seq<Projection>)
    ensures (forall i :: 0 <= i < |Items(ps)| ==> Fits(Items(ps)[i])) <==>
      forall i, k :: 0 <= i < |ps| && 0 <= k < |ps[i].nodes| ==> Fits(Item(ps[i].plane, ps[i].nodes[k]))
  {
    hide Items, Fits;
    var items := Items(ps);
    if forall i :: 0 <= i < |items| ==> Fits(items[i]) {
      forall i, k | 0 <= i < |ps| && 0 <= k < |ps[i].nodes| ensures Fits(Item(ps[i].plane, ps[i].nodes[k])) {
        ItemsAre(ps, ps[i].plane, ps[i].nodes[k]);
        assert NodeIn(ps, ps[i].plane, ps[i].nodes[k]);
        var j :| 0 <= j < |items| && items[j] == Item(ps[i].plane, ps[i].nodes[k]);
      }
    } else {
      var j :| 0 <= j < |items| && !Fits(items[j]);
      ItemsAre(ps, items[j].plane, items[j].node);
      assert Item(items[j].plane, items[j].node) == items[j];
      assert items[j] in items;
      var i, k :| 0 <= i < |ps| && 0 <= k < |ps[i].nodes| && ps[i].plane == items[j].plane && ps[i].nodes[k] == items[j].node;
    }
  }
}
