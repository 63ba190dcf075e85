/** Parent links as stored by container_placements: at most one parent for each
    container, and on their own no promise that climbing ever ends. */
module Forest {
  import opened Common

  type ContainerId = nat
  type Parents = map<ContainerId, ContainerId>

  // path is the whole climb from c to a container without a parent.
  ghost predicate Climb(parents: Parents, c: ContainerId, path: seq<ContainerId>)
    decreases |path|
  {
    && path != [] && path[0] == c
    && if c in parents then Climb(parents, parents[c], path[1..]) else |path| == 1
  }

  // Climbing from any container ends.
  ghost predicate Acyclic(parents: Parents) {
    forall c: ContainerId :: Climbs(parents, c)
  }

  ghost predicate Climbs(parents: Parents, c: ContainerId) {
    exists path :: Climb(parents, c, path)
  }

  // The first steps of a climb, as a walker has taken them so far.
  ghost predicate Trail(parents: Parents, c: ContainerId, trail: seq<ContainerId>) {
    && trail != [] && trail[0] == c
    && forall i | 0 <= i < |trail| - 1 :: trail[i] in parents && parents[trail[i]] == trail[i + 1]
  }

  lemma {:induction false} ClimbUnique(parents: Parents, c: ContainerId, p: seq<ContainerId>, q: seq<ContainerId>)
    requires Climb(parents, c, p) && Climb(parents, c, q)
    ensures p == q
    decreases |p|
  {
    if c in parents {
      ClimbUnique(parents, parents[c], p[1..], q[1..]);
      assert p == [c] + p[1..] && q == [c] + q[1..];
    }
  }

  lemma {:induction false} ClimbSuffix(parents: Parents, c: ContainerId, path: seq<ContainerId>, i: nat)
    requires Climb(parents, c, path) && i < |path|
    ensures Climb(parents, path[i], path[i..])
    decreases |path|
  {
    if i > 0 {
      ClimbSuffix(parents, parents[c], path[1..], i - 1);
      assert path[i..] == path[1..][i - 1..];
    } else {
      assert path[0..] == path;
    }
  }

  lemma ClimbDistinct(parents: Parents, c: ContainerId, path: seq<ContainerId>)
    requires Climb(parents, c, path)
    ensures Distinct(path)
  {
    forall i, j | 0 <= i < j < |path| ensures path[i] != path[j] {
      if path[i] == path[j] {
        ClimbSuffix(parents, c, path, i);
        ClimbSuffix(parents, c, path, j);
        ClimbUnique(parents, path[i], path[i..], path[j..]);
      }
    }
  }

  // A climb is a trail whose last container has no parent.
  lemma {:induction false} ClimbIsEndedTrail(parents: Parents, c: ContainerId, path: seq<ContainerId>)
    ensures Climb(parents, c, path) <==> Trail(parents, c, path) && path[|path| - 1] !in parents
    decreases |path|
  {
    if path != [] && path[0] == c && c in parents {
      ClimbIsEndedTrail(parents, parents[c], path[1..]);
      if Trail(parents, c, path) && path[|path| - 1] !in parents {
        assert path[1] == parents[c];
        assert forall i | 0 <= i < |path[1..]| - 1 :: path[1..][i] == path[i + 1];
      }
      if Climb(parents, c, path) {
        forall i | 0 <= i < |path| - 1 ensures path[i] in parents && parents[path[i]] == path[i + 1] {
          if i > 0 {
            assert path[1..][i - 1] == path[i];
          }
        }
      }
    }
  }

  // A walker that has not stopped yet follows the climb, if there is one.
  lemma {:induction false} TrailFollowsClimb(parents: Parents, c: ContainerId, trail: seq<ContainerId>, path: seq<ContainerId>)
    requires Trail(parents, c, trail) && Climb(parents, c, path)
    ensures trail <= path
    decreases |trail|
  {
    if |trail| > 1 {
      assert trail[0] in parents && parents[trail[0]] == trail[1];
      assert forall i | 0 <= i < |trail[1..]| - 1 :: trail[1..][i] == trail[i + 1];
      TrailFollowsClimb(parents, parents[c], trail[1..], path[1..]);
      assert trail == [c] + trail[1..] && path == [c] + path[1..];
    }
  }

  // Coming back to a container already on the trail means the climb never ends.
  lemma RepeatMeansNoClimb(parents: Parents, c: ContainerId, trail: seq<ContainerId>)
    requires Trail(parents, c, trail)
    requires var last := trail[|trail| - 1]; last in parents && parents[last] in trail
    ensures !Climbs(parents, c)
  {
    forall path | Climb(parents, c, path) ensures false {
      var longer := trail + [parents[trail[|trail| - 1]]];
      assert Trail(parents, c, longer);
      TrailFollowsClimb(parents, c, longer, path);
      var i :| 0 <= i < |trail| && trail[i] == parents[trail[|trail| - 1]];
      assert longer[i] == longer[|trail|];
      ClimbDistinct(parents, c, path);
    }
  }

  // A trail without repetition is bounded by the number of links.
  lemma TrailIsShort(parents: Parents, c: ContainerId, trail: seq<ContainerId>)
    requires Trail(parents, c, trail) && Distinct(trail)
    ensures |trail| <= |parents| + 1
  {
    DistinctFits(trail[..|trail| - 1], parents.Keys);
  }

  lemma ExtendTrail(parents: Parents, c: ContainerId, trail: seq<ContainerId>)
    requires Trail(parents, c, trail) && Distinct(trail)
    requires var last := trail[|trail| - 1]; last in parents && parents[last] !in trail
    ensures Trail(parents, c, trail + [parents[trail[|trail| - 1]]]) && Distinct(trail + [parents[trail[|trail| - 1]]])
  {
  }

  // --- changing links -----------------------------------------------------------

  // A climb that avoids child is not affected by a new link for child.
  lemma {:induction false} ClimbAvoiding(parents: Parents, child: ContainerId, parent: ContainerId, c: ContainerId, path: seq<ContainerId>)
    requires Climb(parents, c, path) && child !in path
    ensures Climb(parents[child := parent], c, path)
    decreases |path|
  {
    if c in parents {
      assert child !in path[1..];
      ClimbAvoiding(parents, child, parent, parents[c], path[1..]);
    }
  }

  lemma {:induction false} ClimbThrough(parents: Parents, child: ContainerId, parent: ContainerId, up: seq<ContainerId>,
                                        c: ContainerId, path: seq<ContainerId>)
    requires Climb(parents, parent, up) && child !in up
    requires Climb(parents, c, path)
    ensures Climbs(parents[child := parent], c)
    decreases |path|
  {
    var after := parents[child := parent];
    if c == child {
      ClimbAvoiding(parents, child, parent, parent, up);
      assert ([child] + up)[1..] == up;
      assert Climb(after, c, [child] + up);
    } else if c in parents {
      ClimbThrough(parents, child, parent, up, parents[c], path[1..]);
      var rest :| Climb(after, parents[c], rest);
      assert ([c] + rest)[1..] == rest;
      assert Climb(after, c, [c] + rest);
    } else {
      assert Climb(after, c, [c]);
    }
  }

  // A climb after child was linked under parent: as before up to child, and
  // from there the climb of parent.
  lemma {:induction false} ClimbAfterLink(parents: Parents, child: ContainerId, parent: ContainerId, up: seq<ContainerId>,
                                          c: ContainerId, path: seq<ContainerId>) returns (linked: seq<ContainerId>)
    requires Climb(parents, parent, up) && child !in up && Climb(parents, c, path)
    ensures Climb(parents[child := parent], c, linked)
    ensures forall y | y !in path :: y in linked <==> child in path && y in up
    decreases |path|
  {
    var after := parents[child := parent];
    if c == child {
      ClimbAvoiding(parents, child, parent, parent, up);
      linked := [child] + up;
      assert linked[1..] == up;
    } else if c in parents {
      var rest := ClimbAfterLink(parents, child, parent, up, parents[c], path[1..]);
      linked := [c] + rest;
      assert linked[1..] == rest && path == [c] + path[1..];
    } else {
      linked := [c];
    }
  }

  // Linking child under parent keeps every climb finite exactly when parent's
  // own climb does not pass through child.
  lemma LinkAcyclic(parents: Parents, child: ContainerId, parent: ContainerId, up: seq<ContainerId>)
    requires Acyclic(parents) && Climb(parents, parent, up)
    ensures Acyclic(parents[child := parent]) <==> child !in up
  {
    var after := parents[child := parent];
    if child !in up {
      forall c: ContainerId ensures Climbs(after, c) {
        assert Climbs(parents, c);
        var path :| Climb(parents, c, path);
        ClimbThrough(parents, child, parent, up, c, path);
      }
    } else {
      ClimbDistinct(parents, parent, up);
      var i :| 0 <= i < |up| && up[i] == child;
      ClimbIsEndedTrail(parents, parent, up);
      var loop := [child] + up[..i];
      assert Trail(after, child, loop);
      RepeatMeansNoClimb(after, child, loop);
      assert !Climbs(after, child);
    }
  }

  // Removing links never creates a cycle.
  lemma {:induction false} ClimbAfterRemoval(parents: Parents, fewer: Parents, c: ContainerId, path: seq<ContainerId>)
    requires Climb(parents, c, path)
    requires forall x | x in fewer :: x in parents && fewer[x] == parents[x]
    ensures Climbs(fewer, c)
    decreases |path|
  {
    if c in fewer {
      ClimbAfterRemoval(parents, fewer, parents[c], path[1..]);
      var rest :| Climb(fewer, parents[c], rest);
      assert ([c] + rest)[1..] == rest;
      assert Climb(fewer, c, [c] + rest);
    } else {
      assert Climb(fewer, c, [c]);
    }
  }

  lemma UnlinkAcyclic(parents: Parents, fewer: Parents)
    requires Acyclic(parents)
    requires forall x | x in fewer :: x in parents && fewer[x] == parents[x]
    ensures Acyclic(fewer)
  {
    forall c: ContainerId ensures Climbs(fewer, c) {
      assert Climbs(parents, c);
      var path :| Climb(parents, c, path);
      ClimbAfterRemoval(parents, fewer, c, path);
    }
  }
}
