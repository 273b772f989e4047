/** Depth-first search with one shared set of visited nodes, on graphs that may have cycles. */
module DepthFirst {
  import opened Reach

  ghost predicate Reaches<K>(next: K -> set<K>, root: K, k: K)
  {
    exists d: nat :: k in Ball({root}, next, d)
  }

  /** The effect of a search from `root`: nothing if it was visited before; otherwise what it added can be
      reached from `root` and has no edge out of the visited set. */
  ghost predicate Explored<K>(next: K -> set<K>, root: K, before: set<K>, after: set<K>)
  {
    && before <= after && root in after
    && (root in before ==> after == before)
    && (forall m :: m in after && m !in before ==> Reaches(next, root, m) && next(m) <= after)
  }

  /** A search in progress: `root` is marked and its successors in `done` have been searched from. */
  ghost predicate Exploring<K>(next: K -> set<K>, root: K, before: set<K>, now: set<K>, done: set<K>)
  {
    && before <= now && root in now && root !in before && done <= now
    && (forall m :: m in now && m !in before ==> Reaches(next, root, m) && (m == root || next(m) <= now))
  }

  lemma ReachesItself<K>(next: K -> set<K>, root: K)
    ensures Reaches(next, root, root)
  {
    assert root in Ball({root}, next, 0);
  }

  lemma {:induction false} BallThroughChild<K>(next: K -> set<K>, root: K, child: K, d: nat)
    requires child in next(root)
    ensures Ball({child}, next, d) <= Ball({root}, next, d + 1)
  {
    if d == 0 {
      assert root in Ball({root}, next, 0);
    } else {
      BallThroughChild(next, root, child, d - 1);
    }
  }

  lemma ReachesThroughChild<K>(next: K -> set<K>, root: K, child: K, k: K)
    requires child in next(root) && Reaches(next, child, k)
    ensures Reaches(next, root, k)
  {
    var d: nat :| k in Ball({child}, next, d);
    BallThroughChild(next, root, child, d);
  }

  lemma ExploreStarts<K>(next: K -> set<K>, root: K, before: set<K>)
    requires root !in before
    ensures Exploring(next, root, before, before + {root}, {})
  {
    ReachesItself(next, root);
  }

  lemma ExploreChild<K>(next: K -> set<K>, root: K, before: set<K>, now: set<K>, done: set<K>, child: K, after: set<K>)
    requires Exploring(next, root, before, now, done) && child in next(root) && Explored(next, child, now, after)
    ensures Exploring(next, root, before, after, done + {child})
  {
    hide Reaches;
    forall m | m in after && m !in before
      ensures Reaches(next, root, m) && (m == root || next(m) <= after)
    {
      if m !in now {
        ReachesThroughChild(next, root, child, m);
      }
    }
  }

  lemma ExploreEnds<K>(next: K -> set<K>, root: K, before: set<K>, now: set<K>, done: set<K>)
    requires Exploring(next, root, before, now, done) && next(root) <= done
    ensures Explored(next, root, before, now)
  {
  }

  lemma ExploreVisited<K>(next: K -> set<K>, root: K, before: set<K>)
    requires root in before
    ensures Explored(next, root, before, before)
  {
  }

  lemma {:induction false} BallStaysInside<K>(next: K -> set<K>, root: K, inside: set<K>, d: nat)
    requires root in inside && forall m :: m in inside ==> next(m) <= inside
    ensures Ball({root}, next, d) <= inside
  {
    if d > 0 {
      BallStaysInside(next, root, inside, d - 1);
    }
  }

  /** A search from scratch visits exactly what can be reached, whatever cycles there are. */
  lemma SearchFromScratchIsReachability<K>(next: K -> set<K>, root: K, after: set<K>)
    requires Explored(next, root, {}, after)
    ensures forall k :: k in after <==> Reaches(next, root, k)
  {
    forall k | Reaches(next, root, k)
      ensures k in after
    {
      var d: nat :| k in Ball({root}, next, d);
      BallStaysInside(next, root, after, d);
    }
  }
}
