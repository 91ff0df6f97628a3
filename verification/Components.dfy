/** Qualifying components of the LOCAL link graph, and the bounded search that finds one. */
module Components {
  import opened FiniteSets
  import opened Options
  import opened CoreModel
  import opened Connectivity
  import opened Validation

  /** Cells a LOCAL edge of the view leads to from `source`. */
  function LocalTargets(v: View, source: int): set<int> {
    (set p | p in Bucket(v.out, source) && p.scope.Local? && EdgeKey(source, p.peer, Local) !in v.deletes :: p.peer)
    + (set k | k in v.upserts && k.source == source && k.scope.Local? :: k.target)
  }

  lemma LinkedIsTarget(v: View, cfg: Config, a: int, b: int)
    requires cfg.Valid() && Linked(v, cfg, a, b)
    ensures b in LocalTargets(v, a)
  {
    LinkedFacts(v, cfg, a, b);
    var k := EdgeKey(a, b, Local);
    if k in v.upserts {
      assert k.target in LocalTargets(v, a);
    } else {
      assert Port(b, Local) in Bucket(v.out, a);
      assert Port(b, Local).peer in LocalTargets(v, a);
    }
  }

  /** No link leads out of `part` at all. */
  ghost predicate Sealed(v: View, cfg: Config, part: set<int>)
    requires cfg.eMax > 0.0
  {
    forall a, b | a in part && Linked(v, cfg, a, b) :: b in part
  }

  /** The component of `seed`: the least sealed set that contains it. */
  ghost predicate Component(v: View, cfg: Config, seed: int, members: set<int>)
    requires cfg.eMax > 0.0
  {
    && seed in members && Sealed(v, cfg, members)
    && forall part: set<int> {:trigger Sealed(v, cfg, part)} :: seed in part && Sealed(v, cfg, part) ==> members <= part
  }

  lemma ComponentUnique(v: View, cfg: Config, seed: int, a: set<int>, b: set<int>)
    requires cfg.Valid() && Component(v, cfg, seed, a) && Component(v, cfg, seed, b)
    ensures a == b
  {
  }

  /** A component is a component of each of its members. */
  lemma ComponentOfMember(v: View, cfg: Config, seed: int, members: set<int>, x: int)
    requires cfg.Valid() && Component(v, cfg, seed, members) && x in members
    ensures Component(v, cfg, x, members)
  {
    forall part: set<int> | x in part && Sealed(v, cfg, part) ensures members <= part {
      if seed in part {
        assert members <= part;
      } else {
        var rest := members - part;
        forall a, b | a in rest && Linked(v, cfg, a, b) ensures b in rest {
          LinkedFacts(v, cfg, a, b);
        }
        assert Sealed(v, cfg, rest);
      }
    }
  }

  /** Two components are equal or disjoint, so form candidates never overlap. */
  lemma ComponentsDisjoint(v: View, cfg: Config, s: int, a: set<int>, t: int, b: set<int>)
    requires cfg.Valid() && Component(v, cfg, s, a) && Component(v, cfg, t, b)
    ensures a == b || a !! b
  {
    if a * b != {} {
      var x := Pick(a * b);
      ComponentOfMember(v, cfg, s, a, x);
      ComponentOfMember(v, cfg, t, b, x);
      ComponentUnique(v, cfg, x, a, b);
    } else {
      forall x | x in a ensures x !in b { assert x !in a * b; }
    }
  }

  lemma ComponentConnected(v: View, cfg: Config, seed: int, members: set<int>)
    requires cfg.Valid() && Component(v, cfg, seed, members)
    ensures Connected(v, cfg, members)
  {
    forall part: set<int> | part <= members && seed in part && Closed(v, cfg, members, part) ensures part == members {
      assert Sealed(v, cfg, part);
    }
    ConnectedFromRoot(v, cfg, members, seed);
  }

  ghost predicate Admissible(cfg: Config, members: set<int>) { |members| <= cfg.kMax && cfg.Fits(members) }

  method Admits(cfg: Config, members: set<int>) returns (ok: bool)
    requires cfg.Valid()
    ensures ok <==> Admissible(cfg, members)
  {
    if |members| > cfg.kMax { return false; }
    var diameter := Diameter(cfg, members);
    DiameterFits(cfg, members, diameter);
    ok := diameter <= cfg.assemblyRadius;
  }

  lemma SeedAdmissible(cfg: Config, seed: int)
    requires cfg.Valid()
    ensures Admissible(cfg, {seed})
  {
  }

  lemma AdmissibleSize(cfg: Config, members: set<int>)
    requires Admissible(cfg, members)
    ensures |members| <= cfg.kMax
  {
  }

  /** A part of every component of the seed that is not admissible leaves no admissible component. */
  lemma NoneAdmissible(v: View, cfg: Config, seed: int, proposal: set<int>)
    requires cfg.Valid() && !Admissible(cfg, proposal)
    requires forall part: set<int> {:trigger Sealed(v, cfg, part)} :: seed in part && Sealed(v, cfg, part) ==> proposal <= part
    ensures forall c: set<int> | Component(v, cfg, seed, c) :: !Admissible(cfg, c)
  {
    forall c: set<int> | Component(v, cfg, seed, c) ensures !Admissible(cfg, c) {
      assert Sealed(v, cfg, c);
      SubsetCardinality(proposal, c);
    }
  }

  /**
   Breadth-first growth from a seed, abandoned as soon as a proposal is too large or too
   wide: it yields the whole component exactly when the component is admissible.
   */
  method FormCandidate(v: View, cfg: Config, seed: int) returns (r: Option<set<int>>)
    requires cfg.Valid()
    ensures r.Some? ==> Component(v, cfg, seed, r.value) && Admissible(cfg, r.value)
    ensures r.None? ==> forall c: set<int> | Component(v, cfg, seed, c) :: !Admissible(cfg, c)
  {
    hide Admissible, Linked;
    var members, queue := {seed}, [seed];
    SeedAdmissible(cfg, seed);
    while queue != []
      invariant seed in members && Admissible(cfg, members) && |members| <= cfg.kMax
      invariant forall x | x in queue :: x in members
      invariant forall a, b | a in members && a !in queue && Linked(v, cfg, a, b) :: b in members
      invariant forall part: set<int> {:trigger Sealed(v, cfg, part)} :: seed in part && Sealed(v, cfg, part) ==> members <= part
      decreases cfg.kMax - |members|, |queue|
    {
      var source := queue[0];
      ghost var queue0, members0 := queue[1..], members;
      assert forall x | x in queue :: x == source || x in queue0;
      queue := queue[1..];
      var linked := set t | t in LocalTargets(v, source) && t !in members && Linked(v, cfg, source, t);
      var todo := linked;
      while todo != {}
        invariant todo <= linked && members !! todo && members0 <= members
        invariant seed in members && source in members0 && Admissible(cfg, members) && |members| <= cfg.kMax
        invariant forall x | x in queue0 :: x in queue
        invariant forall x | x in queue :: x in members
        invariant forall x | x in members :: x in members0 || x in queue
        invariant members == members0 ==> queue == queue0
        invariant linked - todo <= members
        invariant |members| >= |members0|
        invariant members != members0 ==> |members| > |members0|
        invariant forall part: set<int> {:trigger Sealed(v, cfg, part)} :: seed in part && Sealed(v, cfg, part) ==> members <= part
        decreases |todo|
      {
        var target := Min(todo);
        var proposal := members + {target};
        ProposalWithin(v, cfg, seed, members, source, target);
        var admissible := Admits(cfg, proposal);
        if !admissible {
          NoneAdmissible(v, cfg, seed, proposal);
          return None;
        }
        AdmissibleSize(cfg, proposal);
        members := proposal;
        queue := queue + [target];
        todo := todo - {target};
      }
      forall b | Linked(v, cfg, source, b) ensures b in members {
        LinkedIsTarget(v, cfg, source, b);
        assert b in members0 || b in linked;
      }
    }
    assert Sealed(v, cfg, members);
    return Some(members);
  }

  lemma ProposalWithin(v: View, cfg: Config, seed: int, members: set<int>, source: int, target: int)
    requires cfg.Valid() && source in members && Linked(v, cfg, source, target)
    requires forall part: set<int> {:trigger Sealed(v, cfg, part)} :: seed in part && Sealed(v, cfg, part) ==> members <= part
    ensures forall part: set<int> {:trigger Sealed(v, cfg, part)} :: seed in part && Sealed(v, cfg, part) ==> members + {target} <= part
  {
  }
}
