/** What can be reached from some seeds in at most `d` steps of a graph that may have cycles. */
module Reach {

  ghost function Image<K>(s: set<K>, next: K -> set<K>): set<K>
  {
    set p, c | p in s && c in next(p) :: c
  }

  ghost function Ball<K>(seeds: set<K>, next: K -> set<K>, d: nat): set<K>
  {
    if d == 0 then seeds
    else Ball(seeds, next, d - 1) + Image(Ball(seeds, next, d - 1), next)
  }

  /** `walk` starts at a seed and follows edges. */
  ghost predicate IsWalk<K>(seeds: set<K>, next: K -> set<K>, walk: seq<K>)
  {
    && walk != []
    && walk[0] in seeds
    && forall i :: 0 < i < |walk| ==> walk[i] in next(walk[i - 1])
  }

  lemma {:induction false} BallMonotone<K>(seeds: set<K>, next: K -> set<K>, d: nat, e: nat)
    requires d <= e
    ensures Ball(seeds, next, d) <= Ball(seeds, next, e)
    decreases e
  {
    if d < e {
      BallMonotone(seeds, next, d, e - 1);
    }
  }

  lemma BallStep<K>(seeds: set<K>, next: K -> set<K>, d: nat, p: K, k: K)
    requires p in Ball(seeds, next, d) && k in next(p)
    ensures k in Ball(seeds, next, d + 1)
  {
  }

  lemma {:induction false} BallFixpoint<K>(seeds: set<K>, next: K -> set<K>, d: nat, e: nat)
    requires d <= e && Image(Ball(seeds, next, d), next) <= Ball(seeds, next, d)
    ensures Ball(seeds, next, e) == Ball(seeds, next, d)
    decreases e
  {
    hide Image;
    if d < e {
      BallFixpoint(seeds, next, d, e - 1);
      var b := Ball(seeds, next, d);
      assert Ball(seeds, next, e) == b + Image(b, next);
    }
  }

  lemma BallStops<K>(seeds: set<K>, next: K -> set<K>, d: nat, e: nat)
    requires d <= e && Ball(seeds, next, d + 1) == Ball(seeds, next, d)
    ensures Ball(seeds, next, e) == Ball(seeds, next, d)
  {
    hide Image;
    assert Ball(seeds, next, d + 1) == Ball(seeds, next, d) + Image(Ball(seeds, next, d), next);
    BallFixpoint(seeds, next, d, e);
  }

  lemma {:induction false} WiderBall<K(!new)>(seeds: set<K>, next: K -> set<K>, other: K -> set<K>, d: nat)
    requires forall k :: next(k) <= other(k)
    ensures Ball(seeds, next, d) <= Ball(seeds, other, d)
  {
    if d > 0 {
      WiderBall(seeds, next, other, d - 1);
      WiderImage(Ball(seeds, next, d - 1), Ball(seeds, other, d - 1), next, other);
    }
  }

  lemma WiderImage<K(!new)>(s: set<K>, t: set<K>, next: K -> set<K>, other: K -> set<K>)
    requires s <= t && forall k :: next(k) <= other(k)
    ensures Image(s, next) <= Image(t, other)
  {
    var a, b := Image(s, next), Image(t, other);
    forall c | c in a
      ensures c in b
    {
      var p :| p in s && c in next(p);
      assert c in other(p);
    }
  }

  lemma {:induction false} SameBall<K(!new)>(seeds: set<K>, next: K -> set<K>, other: K -> set<K>, d: nat)
    requires forall k :: next(k) == other(k)
    ensures Ball(seeds, next, d) == Ball(seeds, other, d)
  {
    hide Image;
    if d > 0 {
      SameBall(seeds, next, other, d - 1);
      SameImage(Ball(seeds, next, d - 1), next, other);
    }
  }

  lemma SameImage<K(!new)>(s: set<K>, next: K -> set<K>, other: K -> set<K>)
    requires forall k :: next(k) == other(k)
    ensures Image(s, next) == Image(s, other)
  {
    forall c
      ensures c in Image(s, next) <==> c in Image(s, other)
    {
      if c in Image(s, next) {
        var p :| p in s && c in next(p);
        assert c in other(p);
      }
      if c in Image(s, other) {
        var p :| p in s && c in other(p);
        assert c in next(p);
      }
    }
  }

  /** The ball of radius `d` is the set of ends of the walks with at most `d` edges. */
  lemma {:induction false} BallIsWalks<K(!new)>(seeds: set<K>, next: K -> set<K>, d: nat, k: K)
    ensures k in Ball(seeds, next, d)
       <==> exists walk :: IsWalk(seeds, next, walk) && |walk| <= d + 1 && walk[|walk| - 1] == k
  {
    if k in Ball(seeds, next, d) {
      var walk := WalkInto(seeds, next, d, k);
    }
    if walk :| IsWalk(seeds, next, walk) && |walk| <= d + 1 && walk[|walk| - 1] == k {
      WalkStaysInBall(seeds, next, walk);
      BallMonotone(seeds, next, |walk| - 1, d);
    }
  }

  lemma {:induction false} WalkInto<K>(seeds: set<K>, next: K -> set<K>, d: nat, k: K) returns (walk: seq<K>)
    requires k in Ball(seeds, next, d)
    ensures IsWalk(seeds, next, walk) && |walk| <= d + 1 && walk[|walk| - 1] == k
  {
    if d == 0 {
      walk := [k];
    } else if k in Ball(seeds, next, d - 1) {
      walk := WalkInto(seeds, next, d - 1, k);
    } else {
      var p :| p in Ball(seeds, next, d - 1) && k in next(p);
      walk := WalkInto(seeds, next, d - 1, p);
      walk := walk + [k];
    }
  }

  lemma {:induction false} WalkStaysInBall<K>(seeds: set<K>, next: K -> set<K>, walk: seq<K>)
    requires IsWalk(seeds, next, walk)
    ensures walk[|walk| - 1] in Ball(seeds, next, |walk| - 1)
    decreases |walk|
  {
    var n := |walk| - 1;
    if n > 0 {
      var init := walk[..n];
      WalkStaysInBall(seeds, next, init);
      assert walk[n] in next(init[n - 1]);
    }
  }
}
