/** What the metrics behind an Assembly mean. */
module AssemblyLaws {
  // The producer computes densities and specificities by sums over sorted lists. Here the same
  // quantities are stated over sets, and the thresholds of MAINTAIN, GROW and FORM over links
  // and counts.

  import opened FiniteSets
  import opened RealFacts
  import opened CoreModel
  import opened NetworkState
  import opened Learning
  import opened AssemblyModel
  import opened Maintenance
  import opened Growth
  import opened Formation
  import opened AssemblyStage
  import opened Lex

  // ----- ranges -------------------------------------------------------------------------

  lemma ReciprocalRange(n: Net, cfg: Config, v: View, a: int, b: int, scope: Scope)
    requires cfg.Valid() && TickView(n, cfg, v)
    ensures 0.0 <= Reciprocal(v, cfg, a, b, scope) <= 1.0
  {
    hide IndexInv, StructInv, EdgesIndexed;
    EdgeQuality(n, cfg, v, EdgeKey(a, b, scope));
    EdgeQuality(n, cfg, v, EdgeKey(b, a, scope));
  }

  lemma QualityUnit(cfg: Config, source: int, e: Synapse)
    requires cfg.eMax > 0.0 && SynapseOk(cfg, source, e)
    ensures 0.0 <= Quality(cfg, e) <= 1.0
  {
    Ratio(e.evidence, cfg.eMax);
    UnitProduct(e.strength, e.evidence / cfg.eMax);
  }

  lemma EdgeQuality(n: Net, cfg: Config, v: View, k: EdgeKey)
    requires cfg.Valid() && TickView(n, cfg, v)
    ensures v.Edge(k).Some? ==> 0.0 <= Quality(cfg, v.Edge(k).value) <= 1.0
  {
    hide Quality;
    if v.Edge(k).Some? {
      var e := v.Edge(k).value;
      assert SynapseOk(cfg, k.source, e);
      QualityUnit(cfg, k.source, e);
    }
  }

  // ----- totals over sets ---------------------------------------------------------------

  ghost function Total(f: int -> real, s: set<int>): real
    decreases |s|
  {
    if s == {} then 0.0 else f(Min(s)) + Total(f, s - {Min(s)})
  }

  /** A total does not depend on the order in which it is taken. */
  lemma {:induction false} TotalWithout(f: int -> real, s: set<int>, x: int)
    requires x in s
    ensures Total(f, s) == f(x) + Total(f, s - {x})
    decreases |s|
  {
    var m := Min(s);
    if x != m {
      TotalWithout(f, s - {m}, x);
      assert m in s - {x} && Min(s - {x}) == m;
      assert s - {x} - {m} == s - {m} - {x};
    }
  }

  lemma {:induction false} TotalAtLeast(f: int -> real, s: set<int>)
    requires forall x :: f(x) >= 0.0
    ensures Total(f, s) >= 0.0
    decreases |s|
  {
    if s != {} { TotalAtLeast(f, s - {Min(s)}); }
  }

  function LocalOf(v: View, cfg: Config, c: int): int -> real
    requires cfg.Valid()
  {
    x => Reciprocal(v, cfg, c, x, Local)
  }

  /** Local and associative support together, each standing in where the other is missing. */
  function SupportOf(v: View, cfg: Config, c: int): int -> real
    requires cfg.Valid()
  {
    x => 1.0 - (1.0 - Reciprocal(v, cfg, c, x, Local)) * (1.0 - Reciprocal(v, cfg, c, x, Associative))
  }

  lemma {:induction false} SumLocalIs(v: View, cfg: Config, c: int, s: set<int>)
    requires cfg.Valid()
    ensures SumLocal(v, cfg, c, Sorted(s)) == Total(LocalOf(v, cfg, c), s)
    decreases |s|
  {
    hide Reciprocal;
    if s != {} {
      var m := Min(s);
      assert Sorted(s) == [m] + Sorted(s - {m});
      assert Sorted(s)[1..] == Sorted(s - {m});
      SumLocalIs(v, cfg, c, s - {m});
    }
  }

  lemma SupportStep(v: View, cfg: Config, c: int, ids: seq<int>)
    requires cfg.Valid() && ids != []
    ensures SumSupport(v, cfg, c, ids) == SupportOf(v, cfg, c)(ids[0]) + SumSupport(v, cfg, c, ids[1..])
  {
    hide Reciprocal;
  }

  lemma {:induction false} SumSupportIs(v: View, cfg: Config, c: int, s: set<int>)
    requires cfg.Valid()
    ensures SumSupport(v, cfg, c, Sorted(s)) == Total(SupportOf(v, cfg, c), s)
    decreases |s|
  {
    if s != {} {
      hide SumSupport, SupportOf;
      var m := Min(s);
      assert Sorted(s) == [m] + Sorted(s - {m});
      assert Sorted(s)[1..] == Sorted(s - {m});
      SupportStep(v, cfg, c, Sorted(s));
      SumSupportIs(v, cfg, c, s - {m});
    }
  }

  // ----- metrics ------------------------------------------------------------------------

  /** The members a cell is linked to. */
  ghost predicate LinksTo(v: View, cfg: Config, c: int, members: set<int>, linked: set<int>)
    requires cfg.Valid()
  {
    forall m :: m in linked <==> m in members && Linked(v, cfg, c, m)
  }

  /** Density is the share of the members a cell is linked to. */
  lemma DensityIs(v: View, cfg: Config, c: int, members: set<int>, linked: set<int>)
    requires cfg.Valid() && members != {} && LinksTo(v, cfg, c, members, linked)
    ensures Density(v, cfg, c, members) * |members| as real == |linked| as real
  {
    hide Linked;
    forall m ensures m in linked <==> m in LinkedIn(v, cfg, c, members) {}
    assert linked == LinkedIn(v, cfg, c, members);
    RatioTimes(Density(v, cfg, c, members), |linked| as real, |members| as real);
  }

  /** The mean is the total quality to the members over their number. */
  lemma MeanIs(v: View, cfg: Config, c: int, members: set<int>)
    requires cfg.Valid() && members != {}
    ensures MeanReciprocal(v, cfg, c, members) * |members| as real == Total(LocalOf(v, cfg, c), members)
  {
    hide MeanReciprocal, SumLocal, Total, LocalOf, Sorted;
    SumLocalIs(v, cfg, c, members);
    MeanTimes(v, cfg, c, members);
  }

  lemma MeanTimes(v: View, cfg: Config, c: int, members: set<int>)
    requires cfg.Valid() && members != {}
    ensures MeanReciprocal(v, cfg, c, members) * |members| as real == SumLocal(v, cfg, c, Sorted(members))
  {
    hide SumLocal, Sorted;
    var sum, size := SumLocal(v, cfg, c, Sorted(members)), |members| as real;
    RatioTimes(sum / size, sum, size);
  }

  lemma RatioTimes(q: real, a: real, b: real)
    requires b != 0.0 && q == a / b
    ensures q * b == a
  {
  }

  lemma SupportRange(n: Net, cfg: Config, v: View, c: int, x: int)
    requires cfg.Valid() && TickView(n, cfg, v)
    ensures 0.0 <= SupportOf(v, cfg, c)(x) <= 1.0
  {
    hide Reciprocal, TickView;
    ReciprocalRange(n, cfg, v, c, x, Local);
    ReciprocalRange(n, cfg, v, c, x, Associative);
    UnitProduct(1.0 - Reciprocal(v, cfg, c, x, Local), 1.0 - Reciprocal(v, cfg, c, x, Associative));
  }

  lemma SpecificityTimes(v: View, cfg: Config, c: int, members: set<int>)
    requires cfg.Valid()
    ensures var below := SumSupport(v, cfg, c, Sorted(cfg.topology.near(c))) + cfg.epsilon;
            below > 0.0 ==> Specificity(v, cfg, c, members) * below == SumLocal(v, cfg, c, Sorted(members))
  {
    hide SumLocal, SumSupport, Sorted;
    var sum, below := SumLocal(v, cfg, c, Sorted(members)), SumSupport(v, cfg, c, Sorted(cfg.topology.near(c))) + cfg.epsilon;
    if below > 0.0 { RatioTimes(sum / below, sum, below); }
  }

  /** Specificity is the total quality to the members over the total support in the neighbourhood, with the guard. */
  lemma SpecificityIs(n: Net, cfg: Config, v: View, c: int, members: set<int>)
    requires cfg.Valid() && TickView(n, cfg, v)
    ensures Total(SupportOf(v, cfg, c), cfg.topology.near(c)) >= 0.0
    ensures Specificity(v, cfg, c, members) * (Total(SupportOf(v, cfg, c), cfg.topology.near(c)) + cfg.epsilon) == Total(LocalOf(v, cfg, c), members)
  {
    hide TickView, Total, SumLocal, SumSupport, SupportOf, LocalOf, Specificity, Sorted;
    SumLocalIs(v, cfg, c, members);
    SumSupportIs(v, cfg, c, cfg.topology.near(c));
    forall x ensures SupportOf(v, cfg, c)(x) >= 0.0 { SupportRange(n, cfg, v, c, x); }
    TotalAtLeast(SupportOf(v, cfg, c), cfg.topology.near(c));
    SpecificityTimes(v, cfg, c, members);
  }

  /** Core coverage is the share of the members with enough links to others. */
  lemma CoverageIs(v: View, cfg: Config, members: set<int>, core: set<int>)
    requires cfg.Valid() && members != {}
    requires forall m :: m in core <==> m in members && Degree(v, cfg, m, members) >= cfg.dMin
    ensures CoreCoverage(v, cfg, members) * |members| as real == |core| as real
  {
    hide Degree;
    var counted := set m | m in members && Degree(v, cfg, m, members) >= cfg.dMin;
    forall m ensures m in core <==> m in counted {}
    assert core == counted;
    RatioTimes(CoreCoverage(v, cfg, members), |core| as real, |members| as real);
  }

  lemma DegreeIs(v: View, cfg: Config, c: int, members: set<int>, linked: set<int>)
    requires cfg.Valid() && LinksTo(v, cfg, c, members - {c}, linked)
    ensures Degree(v, cfg, c, members) == |linked|
  {
    hide Linked;
    var counted := set m | m in members && m != c && Linked(v, cfg, c, m);
    forall m ensures m in linked <==> m in counted {}
    assert linked == set m | m in members && m != c && Linked(v, cfg, c, m);
  }

  // ----- who is kept, who may join, what may form ---------------------------------------

  /** A member fails when its density or its specificity is below the threshold for keeping it. */
  lemma FailingIff(v: View, cfg: Config, members: set<int>, m: int)
    requires cfg.Valid() && members != {}
    ensures m in Failing(v, cfg, members) <==>
            m in members && !(Density(v, cfg, m, members) >= cfg.rhoKeep && Specificity(v, cfg, m, members) >= cfg.sigmaKeep)
  {
    hide Density, Specificity;
  }

  /** A pair joins two cells, in either order. */
  ghost predicate Joins(p: Pair, a: int, b: int) { (p.lo == a && p.hi == b) || (p.lo == b && p.hi == a) }

  /** A cell is considered for an Assembly when a changed link ties it to a cell that Assembly held. */
  lemma GrowthIdentitiesAre(n: Net, cfg: Config, v: View, live: map<int, Assembly>, local: set<Pair>, g: Candidacy)
    requires cfg.Valid() && MembersIndexed(n.memberships, n.assemblies)
    ensures g in GrowthIdentities(n, cfg, v, live, local) <==>
            && g.id in live && g.id in n.assemblies && g.cell !in live[g.id].members
            && exists p, m :: p in local && Joins(p, m, g.cell) && Linked(v, cfg, m, g.cell) && m in n.assemblies[g.id].members
  {
    hide Linked;
    if g in GrowthIdentities(n, cfg, v, live, local) {
      var p, m :| p in local && Linked(v, cfg, p.lo, p.hi) && Joins(p, m, g.cell) && g.id in Owners(n.memberships, m);
      LinkedEither(v, cfg, p.lo, p.hi);
    }
    forall p, m | p in local && Joins(p, m, g.cell) && Linked(v, cfg, m, g.cell) ensures Linked(v, cfg, p.lo, p.hi) {
      LinkedEither(v, cfg, m, g.cell);
    }
  }

  lemma LinkedEither(v: View, cfg: Config, a: int, b: int)
    requires cfg.Valid()
    ensures Linked(v, cfg, a, b) <==> Linked(v, cfg, b, a)
  {
  }

  /** A seed of FORM is an end of a changed pair that is linked now. */
  lemma SeedsAre(v: View, cfg: Config, local: set<Pair>, s: int)
    requires cfg.Valid()
    ensures s in Seeds(v, cfg, local) <==> exists p :: p in local && Linked(v, cfg, p.lo, p.hi) && s in {p.lo, p.hi}
  {
    hide Linked;
  }

  // ----- the rankings -------------------------------------------------------------------

  /** The growth ranking: denser first, then more specific, then with the better mean, then by identity. */
  lemma GrowthOrder(v: View, cfg: Config, live: map<int, Assembly>, a: Candidacy, b: Candidacy)
    requires cfg.Valid() && a.id in live && b.id in live && live[a.id].members != {} && live[b.id].members != {}
    ensures var s, t := live[a.id].members, live[b.id].members;
            var da, db := Density(v, cfg, a.cell, s), Density(v, cfg, b.cell, t);
            var sa, sb := Specificity(v, cfg, a.cell, s), Specificity(v, cfg, b.cell, t);
            var ma, mb := MeanReciprocal(v, cfg, a.cell, s), MeanReciprocal(v, cfg, b.cell, t);
            && (da > db ==> ScoredBefore(v, cfg, live, a, b) && !ScoredBefore(v, cfg, live, b, a))
            && (da == db && sa > sb ==> ScoredBefore(v, cfg, live, a, b) && !ScoredBefore(v, cfg, live, b, a))
            && (da == db && sa == sb && ma > mb ==> ScoredBefore(v, cfg, live, a, b) && !ScoredBefore(v, cfg, live, b, a))
            && (da == db && sa == sb && ma == mb ==>
                  (ScoredBefore(v, cfg, live, a, b) <==> a.id < b.id || (a.id == b.id && a.cell <= b.cell)))
  {
    hide Density, Specificity, MeanReciprocal;
  }

  /** The total quality from each member to the others. */
  ghost function Around(v: View, cfg: Config, s: set<int>): int -> real
    requires cfg.Valid()
  {
    m => Total(LocalOf(v, cfg, m), s - {m})
  }

  lemma {:induction false} TotalAdds(f: int -> real, g: int -> real, h: int -> real, s: set<int>)
    requires forall x | x in s :: f(x) == g(x) + h(x)
    ensures Total(f, s) == Total(g, s) + Total(h, s)
    decreases |s|
  {
    if s != {} { TotalAdds(f, g, h, s - {Min(s)}); }
  }

  lemma PairSumStep(v: View, cfg: Config, s: set<int>)
    requires cfg.Valid() && s != {}
    ensures PairSum(v, cfg, Sorted(s)) == Total(LocalOf(v, cfg, Min(s)), s - {Min(s)}) + PairSum(v, cfg, Sorted(s - {Min(s)}))
  {
    hide Reciprocal, LocalOf, SumLocal;
    assert Sorted(s)[1..] == Sorted(s - {Min(s)});
    SumLocalIs(v, cfg, Min(s), s - {Min(s)});
  }

  /** Seen from any other member, the least one adds its own quality. */
  lemma AroundStep(v: View, cfg: Config, s: set<int>, x: int)
    requires cfg.Valid() && s != {} && x in s - {Min(s)}
    ensures Around(v, cfg, s)(x) == LocalOf(v, cfg, Min(s))(x) + Around(v, cfg, s - {Min(s)})(x)
  {
    hide LocalOf, Total;
    var m := Min(s);
    TotalWithout(LocalOf(v, cfg, x), s - {x}, m);
    assert s - {x} - {m} == s - {m} - {x};
    SameBothWays(v, cfg, m, x);
  }

  lemma AroundTotal(v: View, cfg: Config, s: set<int>)
    requires cfg.Valid() && s != {}
    ensures var m, rest := Min(s), s - {Min(s)};
            Total(Around(v, cfg, s), s) == 2.0 * Total(LocalOf(v, cfg, m), rest) + Total(Around(v, cfg, rest), rest)
  {
    var m, rest := Min(s), s - {Min(s)};
    assert Total(Around(v, cfg, s), s) == Total(LocalOf(v, cfg, m), rest) + Total(Around(v, cfg, s), rest);
    hide LocalOf, Around, Total;
    forall x | x in rest ensures Around(v, cfg, s)(x) == LocalOf(v, cfg, m)(x) + Around(v, cfg, rest)(x) { AroundStep(v, cfg, s, x); }
    TotalAdds(Around(v, cfg, s), LocalOf(v, cfg, m), Around(v, cfg, rest), rest);
  }

  /** The sum over pairs counts each pair of members once, whatever the order. */
  lemma {:induction false} PairSumIs(v: View, cfg: Config, s: set<int>)
    requires cfg.Valid()
    ensures 2.0 * PairSum(v, cfg, Sorted(s)) == Total(Around(v, cfg, s), s)
    decreases |s|
  {
    if s != {} {
      hide PairSum, Sorted, LocalOf, Around, Total;
      PairSumIs(v, cfg, s - {Min(s)});
      PairSumStep(v, cfg, s);
      AroundTotal(v, cfg, s);
    }
  }

  lemma SameBothWays(v: View, cfg: Config, a: int, b: int)
    requires cfg.Valid()
    ensures LocalOf(v, cfg, a)(b) == LocalOf(v, cfg, b)(a)
  {
    ReciprocalSymmetric(v, cfg, a, b, Local);
  }

  /** Cohesion is the mean reciprocal quality over the ordered pairs of members. */
  lemma CohesionIs(v: View, cfg: Config, members: set<int>)
    requires cfg.Valid() && |members| >= 2
    ensures Cohesion(v, cfg, members) * (|members| * (|members| - 1)) as real == Total(Around(v, cfg, members), members)
  {
    hide PairSum, Pairs, Around, Total, Sorted;
    PairSumIs(v, cfg, members);
    var sum, pairs := PairSum(v, cfg, Sorted(members)), Pairs(|members|) as real;
    RatioTimes(Cohesion(v, cfg, members), sum, pairs);
    assert (|members| * (|members| - 1)) as real == 2.0 * pairs;
  }

  /** The ranking of forms: better covered first, then more cohesive, then by members. */
  lemma FormOrder(v: View, cfg: Config, a: set<int>, b: set<int>)
    requires cfg.Valid() && a != {} && b != {}
    ensures var ca, cb := CoreCoverage(v, cfg, a), CoreCoverage(v, cfg, b);
            var ha, hb := Cohesion(v, cfg, a), Cohesion(v, cfg, b);
            && (ca > cb ==> FormBefore(v, cfg, a, b) && !FormBefore(v, cfg, b, a))
            && (ca == cb && ha > hb ==> FormBefore(v, cfg, a, b) && !FormBefore(v, cfg, b, a))
            && (ca == cb && ha == hb ==> (FormBefore(v, cfg, a, b) <==> LexLe(Sorted(a), Sorted(b))))
  {
    hide CoreCoverage, Cohesion, LexLe, Sorted;
  }
}
