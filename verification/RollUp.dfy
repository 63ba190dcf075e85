/** Rolled-up quantities: the phone's repeat-until-no-change loop over the nesting
    links, on any list of links, and what it adds up to on a forest. */
module RollUp {
  import opened Common
  import opened Forest
  import opened LocationModel
  import opened InventoryWalks

  type Links = Table<ContainerId> // child to parent, as downloaded

  // Quantities in thousandths; where each item lies, if in a container.
  datatype Stock = Stock(items: Table<int>, places: Table<Option<ContainerId>>)

  // --- containment ------------------------------------------------------------------

  // Each step of path goes from a child to one of its listed parents.
  ghost predicate UpPath(links: Links, path: seq<ContainerId>) {
    path != [] && forall i | 0 <= i < |path| - 1 :: (path[i], path[i + 1]) in links
  }

  ghost predicate Below(links: Links, d: ContainerId, c: ContainerId) {
    exists path :: UpPath(links, path) && path[0] == d && path[|path| - 1] == c
  }

  function ChildIds(links: Links): set<ContainerId> {
    set link | link in links :: link.0
  }

  // Every container from which some chain of links reaches c, and c itself.
  ghost function Contained(links: Links, c: ContainerId): set<ContainerId> {
    set d | d in {c} + ChildIds(links) && Below(links, d, c)
  }

  lemma BelowIsContained(links: Links, d: ContainerId, c: ContainerId)
    ensures d in Contained(links, c) <==> Below(links, d, c)
  {
    if Below(links, d, c) {
      var path :| UpPath(links, path) && path[0] == d && path[|path| - 1] == c;
      if |path| > 1 {
        assert (path[0], path[1]) in links;
      }
    }
  }

  lemma BelowStep(links: Links, d: ContainerId, parent: ContainerId, c: ContainerId)
    requires (d, parent) in links && Below(links, parent, c)
    ensures Below(links, d, c)
  {
    var path :| UpPath(links, path) && path[0] == parent && path[|path| - 1] == c;
    assert UpPath(links, [d] + path);
  }

  lemma BelowSelf(links: Links, c: ContainerId)
    ensures Below(links, c, c)
  {
    assert UpPath(links, [c]);
  }

  // A set that holds c and every child of its members holds all below c.
  lemma {:induction false} ClosedHoldsAll(links: Links, c: ContainerId, s: set<ContainerId>, path: seq<ContainerId>)
    requires c in s && forall link | link in links && link.1 in s :: link.0 in s
    requires UpPath(links, path) && path[|path| - 1] == c
    ensures path[0] in s
    decreases |path|
  {
    if |path| > 1 {
      assert forall i | 0 <= i < |path[1..]| - 1 :: path[1..][i] == path[i + 1];
      ClosedHoldsAll(links, c, s, path[1..]);
      assert (path[0], path[1]) in links;
    }
  }

  ghost predicate PartOf(links: Links, c: ContainerId, s: set<ContainerId>) {
    c in s && s <= Contained(links, c)
  }

  lemma ClosedIsContained(links: Links, c: ContainerId, s: set<ContainerId>)
    requires PartOf(links, c, s) && forall link | link in links && link.1 in s :: link.0 in s
    ensures s == Contained(links, c)
  {
    forall d | d in Contained(links, c) ensures d in s {
      var path :| UpPath(links, path) && path[0] == d && path[|path| - 1] == c;
      ClosedHoldsAll(links, c, s, path);
    }
  }

  // --- totals -----------------------------------------------------------------------

  predicate LiesIn(stock: Stock, item: nat, containers: set<ContainerId>) {
    var place := Find(stock.places, item);
    place.Some? && place.value.Some? && place.value.value in containers
  }

  function TotalOf(items: Table<int>, stock: Stock, containers: set<ContainerId>): int {
    if items == [] then 0
    else
      var (item, quantity) := items[|items| - 1];
      TotalOf(items[..|items| - 1], stock, containers) + (if LiesIn(stock, item, containers) then quantity else 0)
  }

  // Everything that lies directly in one of the containers.
  function Total(stock: Stock, containers: set<ContainerId>): int {
    TotalOf(stock.items, stock, containers)
  }

  ghost function Quantity(stock: Stock, links: Links, c: ContainerId): int {
    Total(stock, Contained(links, c))
  }

  // itemQuantityInContainer
  method ItemQuantityInContainer(c: ContainerId, links: Links, stock: Stock) returns (total: int)
    ensures total == Quantity(stock, links, c)
  {
    var contained := {c};
    BelowSelf(links, c);
    var changed := true;
    while changed
      invariant PartOf(links, c, contained)
      invariant !changed ==> forall link | link in links && link.1 in contained :: link.0 in contained
      decreases Contained(links, c) - contained, changed
    {
      changed := false;
      ghost var before := contained;
      for n := 0 to |links|
        invariant PartOf(links, c, contained)
        invariant before <= contained && (changed <==> before < contained)
        invariant !changed ==> forall i | 0 <= i < n && links[i].1 in contained :: links[i].0 in contained
      {
        var (child, parent) := links[n];
        if parent in contained && child !in contained {
          BelowIsContained(links, parent, c);
          BelowStep(links, child, parent, c);
          BelowIsContained(links, child, c);
          contained := contained + {child};
          changed := true;
        }
      }
    }
    ClosedIsContained(links, c, contained);
    total := 0;
    for n := 0 to |stock.items|
      invariant total == TotalOf(stock.items[..n], stock, contained)
    {
      var (item, quantity) := stock.items[n];
      assert stock.items[..n + 1][..n] == stock.items[..n];
      if LiesIn(stock, item, contained) {
        total := total + quantity;
      }
    }
    assert stock.items[..|stock.items|] == stock.items;
  }

  lemma {:induction false} TotalSplits(items: Table<int>, stock: Stock, a: set<ContainerId>, b: set<ContainerId>)
    requires a !! b
    ensures TotalOf(items, stock, a + b) == TotalOf(items, stock, a) + TotalOf(items, stock, b)
  {
    if items != [] {
      TotalSplits(items[..|items| - 1], stock, a, b);
    }
  }

  // --- forests ----------------------------------------------------------------------

  ghost predicate IsForest(links: Links) {
    && (forall i, j | 0 <= i < j < |links| :: links[i].0 != links[j].0)
    && Acyclic(AsMap(links))
  }

  lemma LinkIsEntry(links: Links, child: ContainerId, parent: ContainerId)
    requires forall i, j | 0 <= i < j < |links| :: links[i].0 != links[j].0
    ensures (child, parent) in links <==> child in AsMap(links) && AsMap(links)[child] == parent
  {
  }

  // On a forest, being below c is having c on the climb.
  lemma {:induction false} BelowMeansOnClimb(links: Links, d: ContainerId, c: ContainerId, up: seq<ContainerId>)
    requires IsForest(links) && Climb(AsMap(links), d, up)
    ensures Below(links, d, c) <==> c in up
    decreases |up|
  {
    var parents := AsMap(links);
    if c in up {
      if c == d {
        BelowSelf(links, c);
      } else {
        assert c in up[1..];
        BelowMeansOnClimb(links, parents[d], c, up[1..]);
        LinkIsEntry(links, d, parents[d]);
        BelowStep(links, d, parents[d], c);
      }
    }
    if Below(links, d, c) {
      var path :| UpPath(links, path) && path[0] == d && path[|path| - 1] == c;
      forall i | 0 <= i < |path| - 1 ensures path[i] in parents && parents[path[i]] == path[i + 1] {
        LinkIsEntry(links, path[i], path[i + 1]);
      }
      TrailFollowsClimb(parents, d, path, up);
      assert up[|path| - 1] == c;
    }
  }

  function Children(links: Links, c: ContainerId): seq<ContainerId> {
    if links == [] then []
    else Children(links[..|links| - 1], c) + (if links[|links| - 1].1 == c then [links[|links| - 1].0] else [])
  }

  lemma {:induction false} ChildrenMeaning(links: Links, c: ContainerId)
    requires forall i, j | 0 <= i < j < |links| :: links[i].0 != links[j].0
    ensures forall x :: x in Children(links, c) <==> (x, c) in links
    ensures Distinct(Children(links, c))
  {
    if links != [] {
      var n := |links| - 1;
      ChildrenMeaning(links[..n], c);
      assert links == links[..n] + [links[n]];
      if links[n].1 == c {
        forall k | 0 <= k < |Children(links[..n], c)| ensures Children(links[..n], c)[k] != links[n].0 {
          assert (Children(links[..n], c)[k], c) in links[..n];
        }
      }
    }
  }

  ghost function SumOver(stock: Stock, links: Links, ks: seq<ContainerId>): int {
    if ks == [] then 0 else Quantity(stock, links, ks[0]) + SumOver(stock, links, ks[1..])
  }

  ghost function UnionOver(links: Links, ks: seq<ContainerId>): set<ContainerId> {
    if ks == [] then {} else Contained(links, ks[0]) + UnionOver(links, ks[1..])
  }

  ghost predicate Apart(links: Links, ks: seq<ContainerId>) {
    forall i, j | 0 <= i < j < |ks| :: Contained(links, ks[i]) !! Contained(links, ks[j])
  }

  lemma {:induction false} UnionMeaning(links: Links, ks: seq<ContainerId>, d: ContainerId)
    ensures d in UnionOver(links, ks) <==> exists i :: 0 <= i < |ks| && d in Contained(links, ks[i])
  {
    if ks != [] {
      UnionMeaning(links, ks[1..], d);
      if d in UnionOver(links, ks[1..]) {
        var i :| 0 <= i < |ks[1..]| && d in Contained(links, ks[1..][i]);
        assert d in Contained(links, ks[i + 1]);
      }
      if d in UnionOver(links, ks) || exists i :: 0 <= i < |ks| && d in Contained(links, ks[i]) {
        if i :| 0 <= i < |ks| && d in Contained(links, ks[i]) {
          if i > 0 {
            assert d in Contained(links, ks[1..][i - 1]);
          }
        }
      }
    }
  }

  lemma {:induction false} ApartAddsUp(stock: Stock, links: Links, ks: seq<ContainerId>)
    requires Apart(links, ks)
    ensures SumOver(stock, links, ks) == Total(stock, UnionOver(links, ks))
  {
    if ks == [] {
      NothingTotals(stock.items, stock);
    } else {
      forall i, j | 0 <= i < j < |ks[1..]| ensures Contained(links, ks[1..][i]) !! Contained(links, ks[1..][j]) {
        assert ks[1..][i] == ks[i + 1] && ks[1..][j] == ks[j + 1];
      }
      ApartAddsUp(stock, links, ks[1..]);
      forall d | d in UnionOver(links, ks[1..]) ensures d !in Contained(links, ks[0]) {
        UnionMeaning(links, ks[1..], d);
        var i :| 0 <= i < |ks[1..]| && d in Contained(links, ks[1..][i]);
        assert ks[1..][i] == ks[i + 1];
      }
      TotalSplits(stock.items, stock, Contained(links, ks[0]), UnionOver(links, ks[1..]));
    }
  }

  lemma {:induction false} NothingTotals(items: Table<int>, stock: Stock)
    ensures TotalOf(items, stock, {}) == 0
  {
    if items != [] {
      NothingTotals(items[..|items| - 1], stock);
    }
  }

  // Two containers that share a descendant lie on one climb.
  lemma SharedMeansNested(links: Links, d: ContainerId, a: ContainerId, b: ContainerId)
    requires IsForest(links) && d in Contained(links, a) && d in Contained(links, b)
    ensures a in Contained(links, b) || b in Contained(links, a)
  {
    var parents := AsMap(links);
    assert Climbs(parents, d);
    var up :| Climb(parents, d, up);
    BelowMeansOnClimb(links, d, a, up);
    BelowMeansOnClimb(links, d, b, up);
    var i :| 0 <= i < |up| && up[i] == a;
    var j :| 0 <= j < |up| && up[j] == b;
    ClimbSuffix(parents, d, up, i);
    ClimbSuffix(parents, d, up, j);
    if i <= j {
      BelowMeansOnClimb(links, a, b, up[i..]);
      assert up[i..][j - i] == b;
      BelowIsContained(links, a, b);
    } else {
      BelowMeansOnClimb(links, b, a, up[j..]);
      assert up[j..][i - j] == a;
      BelowIsContained(links, b, a);
    }
  }

  // A container is below another through exactly one of its children, never
  // through itself.
  lemma BelowOneChild(links: Links, d: ContainerId, c: ContainerId)
    requires IsForest(links) && d != c
    ensures d in Contained(links, c) <==> exists x :: (x, c) in links && d in Contained(links, x)
    ensures forall x, y | (x, c) in links && (y, c) in links && d in Contained(links, x) && d in Contained(links, y) :: x == y
  {
    var parents := AsMap(links);
    assert Climbs(parents, d);
    var up :| Climb(parents, d, up);
    BelowIsContained(links, d, c);
    BelowMeansOnClimb(links, d, c, up);
    ClimbIsEndedTrail(parents, d, up);
    ClimbDistinct(parents, d, up);
    if c in up {
      var j :| 0 <= j < |up| && up[j] == c;
      var x := up[j - 1];
      LinkIsEntry(links, x, c);
      BelowMeansOnClimb(links, d, x, up);
      BelowIsContained(links, d, x);
    }
    forall x | (x, c) in links && d in Contained(links, x) ensures exists i :: 0 <= i < |up| - 1 && up[i] == x && up[i + 1] == c {
      BelowMeansOnClimb(links, d, x, up);
      LinkIsEntry(links, x, c);
      var i :| 0 <= i < |up| && up[i] == x;
      assert i < |up| - 1 && up[i + 1] == parents[x];
    }
    forall x, y | (x, c) in links && (y, c) in links && d in Contained(links, x) && d in Contained(links, y) ensures x == y {
      var i :| 0 <= i < |up| - 1 && up[i] == x && up[i + 1] == c;
      var j :| 0 <= j < |up| - 1 && up[j] == y && up[j + 1] == c;
      assert i + 1 == j + 1;
    }
  }

  lemma NotInOwnChild(links: Links, c: ContainerId, x: ContainerId)
    requires IsForest(links) && (x, c) in links
    ensures c !in Contained(links, x)
  {
    var parents := AsMap(links);
    assert Climbs(parents, x);
    var up :| Climb(parents, x, up);
    LinkIsEntry(links, x, c);
    assert Climb(parents, c, up[1..]);
    ClimbDistinct(parents, x, up);
    BelowMeansOnClimb(links, c, x, up[1..]);
  }

  lemma ChildrenApart(links: Links, c: ContainerId)
    requires IsForest(links)
    ensures Apart(links, Children(links, c))
  {
    var children := Children(links, c);
    ChildrenMeaning(links, c);
    forall i, j | 0 <= i < j < |children| ensures Contained(links, children[i]) !! Contained(links, children[j]) {
      assert children[i] in children && children[j] in children;
      NotInOwnChild(links, c, children[i]);
      forall d | d in Contained(links, children[i]) ensures d !in Contained(links, children[j]) {
        BelowOneChild(links, d, c);
      }
    }
  }

  lemma InSomeChild(links: Links, c: ContainerId, d: ContainerId)
    requires IsForest(links)
    ensures d in UnionOver(links, Children(links, c)) <==> d != c && d in Contained(links, c)
  {
    var children := Children(links, c);
    ChildrenMeaning(links, c);
    UnionMeaning(links, children, d);
    if d in UnionOver(links, children) {
      var i :| 0 <= i < |children| && d in Contained(links, children[i]);
      assert children[i] in children;
      NotInOwnChild(links, c, children[i]);
      BelowOneChild(links, d, c);
    }
    if d != c && d in Contained(links, c) {
      BelowOneChild(links, d, c);
      var x :| (x, c) in links && d in Contained(links, x);
      assert x in children;
    }
  }

  // On a forest a container's quantity is what lies directly in it plus the
  // quantities of its children.
  lemma QuantityAddsUp(stock: Stock, links: Links, c: ContainerId)
    requires IsForest(links)
    ensures Quantity(stock, links, c) == Total(stock, {c}) + SumOver(stock, links, Children(links, c))
  {
    ChildrenApart(links, c);
    ApartAddsUp(stock, links, Children(links, c));
    BelowSelf(links, c);
    var inner := UnionOver(links, Children(links, c));
    forall d: ContainerId ensures d in Contained(links, c) <==> d in {c} + inner {
      InSomeChild(links, c, d);
    }
    InSomeChild(links, c, c);
    assert Contained(links, c) == {c} + inner;
    TotalSplits(stock.items, stock, {c}, inner);
  }

  // The quantities of the outermost containers add up to everything that lies
  // in any of the listed containers.
  lemma RootsHoldEverything(stock: Stock, links: Links, all: set<ContainerId>, roots: seq<ContainerId>)
    requires IsForest(links) && Distinct(roots)
    requires forall link | link in links :: link.0 in all && link.1 in all
    requires forall x :: x in roots <==> x in all && x !in ChildIds(links)
    ensures SumOver(stock, links, roots) == Total(stock, all)
  {
    var parents := AsMap(links);
    AsMapEntries(links);
    forall i, j | 0 <= i < j < |roots| ensures Contained(links, roots[i]) !! Contained(links, roots[j]) {
      forall d | d in Contained(links, roots[i]) && d in Contained(links, roots[j]) ensures false {
        assert roots[i] in roots && roots[j] in roots;
        SharedMeansNested(links, d, roots[i], roots[j]);
      }
    }
    ApartAddsUp(stock, links, roots);
    forall d ensures d in UnionOver(links, roots) <==> d in all {
      UnionMeaning(links, roots, d);
      if d in all {
        assert Climbs(parents, d);
        var up :| Climb(parents, d, up);
        var root := up[|up| - 1];
        ClimbIsEndedTrail(parents, d, up);
        BelowMeansOnClimb(links, d, root, up);
        BelowIsContained(links, d, root);
        if |up| > 1 {
          LinkIsEntry(links, up[|up| - 2], root);
        }
        forall link | link in links ensures link.0 != root {
          LinkIsEntry(links, link.0, link.1);
        }
        assert root in roots;
        var i :| 0 <= i < |roots| && roots[i] == root;
      }
      if d in UnionOver(links, roots) {
        var i :| 0 <= i < |roots| && d in Contained(links, roots[i]);
        assert roots[i] in roots;
      }
    }
    assert UnionOver(links, roots) == all;
  }
}
