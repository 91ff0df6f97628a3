/**
 Connectivity of an assembly by qualifying reciprocal LOCAL links, and the graph search
 that decides it in `connected`, `seed_assembly` and `commit`.
 */
module Connectivity {
  import opened FiniteSets
  import opened CoreModel

  /** No link leads from `part` to the rest of `members`. */
  ghost predicate Closed(v: View, cfg: Config, members: set<int>, part: set<int>)
    requires cfg.eMax > 0.0
  {
    forall a, b | a in part && b in members && Linked(v, cfg, a, b) :: b in part
  }

  /** `members` cannot be split in two non-empty halves without cutting a link. */
  ghost predicate Connected(v: View, cfg: Config, members: set<int>)
    requires cfg.eMax > 0.0
  {
    && members != {}
    && forall part: set<int> {:trigger Closed(v, cfg, members, part)} ::
         part <= members && part != {} && Closed(v, cfg, members, part) ==> part == members
  }

  /** A set whose internal links all survive stays connected. */
  lemma ConnectedMonotone(v: View, w: View, cfg: Config, members: set<int>)
    requires cfg.Valid()
    requires Connected(v, cfg, members)
    requires forall a, b | a in members && b in members && Linked(v, cfg, a, b) :: Linked(w, cfg, a, b)
    ensures Connected(w, cfg, members)
  {
    forall part: set<int> | part <= members && part != {} && Closed(w, cfg, members, part)
      ensures part == members
    {
      assert Closed(v, cfg, members, part);
    }
  }

  /** A set stays connected when a cell linked to one of its members joins. */
  lemma ConnectedGrow(v: View, cfg: Config, members: set<int>, x: int, m: int)
    requires cfg.Valid()
    requires Connected(v, cfg, members)
    requires m in members && Linked(v, cfg, x, m)
    ensures Connected(v, cfg, members + {x})
  {
    LinkedFacts(v, cfg, x, m);
    forall part: set<int> | part <= members + {x} && part != {} && Closed(v, cfg, members + {x}, part)
      ensures part == members + {x}
    {
      var inner := part * members;
      assert Closed(v, cfg, members, inner);
      assert x in part ==> m in part;
      assert inner != {} by { var y := Pick(part); assert y == x || y in inner; }
      assert inner == members;
      assert x in part;
    }
  }

  /** Symmetry turns a search from one root into connectivity from everywhere. */
  lemma ConnectedFromRoot(v: View, cfg: Config, members: set<int>, root: int)
    requires cfg.Valid() && root in members
    requires forall part: set<int> {:trigger Closed(v, cfg, members, part)} ::
               part <= members && root in part && Closed(v, cfg, members, part) ==> part == members
    ensures Connected(v, cfg, members)
  {
    forall part: set<int> | part <= members && part != {} && Closed(v, cfg, members, part)
      ensures part == members
    {
      if root !in part {
        var rest := members - part;
        forall a, b | a in rest && b in members && Linked(v, cfg, a, b)
          ensures b in rest
        {
          LinkedFacts(v, cfg, a, b);
        }
        assert Closed(v, cfg, members, rest);
      }
    }
  }

  /** The depth-first search from the least member. */
  method SearchConnected(v: View, cfg: Config, members: set<int>) returns (ok: bool)
    requires cfg.Valid()
    ensures ok <==> Connected(v, cfg, members)
  {
    if members == {} { return false; }
    var root := Min(members);
    var seen, pending := {root}, [root];
    while pending != []
      invariant root in seen && seen <= members
      invariant forall x | x in pending :: x in seen
      invariant forall a, b | a in seen && a !in pending && b in members && Linked(v, cfg, a, b) :: b in seen
      invariant forall part: set<int> {:trigger Closed(v, cfg, members, part)} ::
                  part <= members && root in part && Closed(v, cfg, members, part) ==> seen <= part
      decreases members - seen, |pending|
    {
      var source := pending[|pending| - 1];
      pending := pending[..|pending| - 1];
      var rest := members - seen;
      ghost var seen0, pending0 := seen, pending;
      while rest != {}
        invariant rest <= members - seen0 && seen0 <= seen <= members && rest !! seen
        invariant source in seen0
        invariant forall x | x in pending0 :: x in pending
        invariant forall x | x in pending :: x in seen
        invariant forall x | x in seen :: x in seen0 || x in pending
        invariant seen == seen0 ==> pending == pending0
        invariant forall b | b in members && b !in rest && Linked(v, cfg, source, b) :: b in seen
        invariant forall part: set<int> {:trigger Closed(v, cfg, members, part)} ::
                    part <= members && root in part && Closed(v, cfg, members, part) ==> seen <= part
        decreases |rest|
      {
        var target := Min(rest);
        rest := rest - {target};
        if Linked(v, cfg, source, target) {
          seen := seen + {target};
          pending := pending + [target];
        }
      }
    }
    ok := seen == members;
    assert Closed(v, cfg, members, seen);
    if ok {
      ConnectedFromRoot(v, cfg, members, root);
    }
  }

  // ----- the validator's own link test --------------------------------------------------

  /** The test `commit` and `seed_assembly` apply: both directions present, then the threshold. */
  predicate StoredLink(v: View, cfg: Config, a: int, b: int)
    requires cfg.eMax > 0.0
  {
    var forward, reverse := v.Edge(EdgeKey(a, b, Local)), v.Edge(EdgeKey(b, a, Local));
    && forward.Some? && reverse.Some?
    && forward.value.state.Consolidated? && reverse.value.state.Consolidated?
    && MinReal(Quality(cfg, forward.value), Quality(cfg, reverse.value)) >= cfg.thetaA
  }

  /**
   The producers compare a reciprocal quality, zero for a missing edge, with the threshold.
   The two tests agree on every view and pair exactly when the threshold is positive.
   */
  lemma LinkTestsAgreeIff(cfg: Config)
    requires cfg.eMax > 0.0 && cfg.thetaA >= 0.0
    ensures (forall v: View, a: int, b: int :: Linked(v, cfg, a, b) <==> StoredLink(v, cfg, a, b)) <==> cfg.thetaA > 0.0
  {
    var empty := Plain(map[]);
    assert cfg.thetaA == 0.0 ==> Linked(empty, cfg, 0, 1) && !StoredLink(empty, cfg, 0, 1);
  }
}
