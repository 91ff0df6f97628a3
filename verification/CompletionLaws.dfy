/** What pattern completion guarantees. */
module CompletionLaws {
  // What completion guarantees: nothing above the threshold is left out, every admitted cell was
  // reached from exactly the previous round, its drive is the one its earlier neighbours give
  // it, and the exact flag means certainty.

  import opened FiniteSets
  import opened NetworkState
  import opened Reconstruction

  /** Cells admitted before a round. */
  function Before(lane: Lane, round: nat): set<int> {
    set c | c in lane.rounds && lane.rounds[c] < round
  }

  /** The residual of a cell against the neighbours among `from`. */
  function Left(adj: Qualities, lane: Lane, from: set<int>, c: int): real
    requires c in adj && from <= lane.drives.Keys
  {
    Prod(lane.drives, adj[c], from * adj[c].Keys)
  }

  /** One of the neighbours among `from` carries the exact flag and reaches the cell with quality one. */
  ghost predicate Certainly(adj: Qualities, lane: Lane, from: set<int>, c: int)
    requires Shaped(adj, lane) && c in adj && from <= lane.drives.Keys
  {
    exists s :: s in from && s in adj[c] && lane.exact[s] && adj[c][s] == 1.0
  }

  /** Whether the neighbours among `from` are enough to admit a cell. */
  ghost predicate Qualifies(adj: Qualities, theta: real, lane: Lane, from: set<int>, c: int)
    requires Shaped(adj, lane) && c in adj && from <= lane.drives.Keys
  {
    && from * adj[c].Keys != {}
    && if theta == 1.0 then Certainly(adj, lane, from, c)
       else Left(adj, lane, from, c) <= 1.0 - theta
  }

  /** A completed cell: its drive is frozen from the earlier rounds, and the round just before reached it. */
  ghost predicate Grounded(adj: Qualities, theta: real, lane: Lane, c: int)
    requires Shaped(adj, lane) && c in lane.drives
  {
    var r := lane.rounds[c];
    && r >= 1
    && Qualifies(adj, theta, lane, Before(lane, r), c)
    && lane.drives[c] == 1.0 - Left(adj, lane, Before(lane, r), c)
    && (lane.exact[c] <==> Certainly(adj, lane, Before(lane, r), c))
    && exists s :: s in lane.drives && s in adj[c] && lane.rounds[s] == r - 1
  }

  ghost predicate DrivesOk(lane: Lane)
    requires lane.drives.Keys == lane.exact.Keys
  {
    forall c | c in lane.drives :: 0.0 < lane.drives[c] <= 1.0 && (lane.exact[c] ==> lane.drives[c] == 1.0)
  }

  /** The exact flag is set on every certain cell. */
  ghost predicate ExactIffOne(lane: Lane)
    requires lane.drives.Keys == lane.exact.Keys
  {
    forall c | c in lane.drives :: lane.exact[c] <==> lane.drives[c] == 1.0
  }

  /** The state at the head of a round. */
  ghost predicate AtRound(adj: Qualities, theta: real, seeds: Lane, lane: Lane, round: nat) {
    && Shaped(adj, lane) && Shaped(adj, seeds) && DrivesOk(lane)
    && seeds.drives.Keys <= lane.drives.Keys
    && (forall c | c in lane.drives :: lane.rounds[c] <= round)
    && (forall c | c in seeds.drives :: lane.drives[c] == seeds.drives[c] && lane.exact[c] == seeds.exact[c] && lane.rounds[c] == 0)
    && (forall c | c in lane.drives && c !in seeds.drives :: Grounded(adj, theta, lane, c))
    && (forall c | c in adj && c !in lane.drives :: !Qualifies(adj, theta, lane, Before(lane, round), c))
  }

  lemma QualifiesSame(adj: Qualities, theta: real, lane: Lane, other: Lane, from: set<int>, c: int)
    requires Shaped(adj, lane) && Shaped(adj, other) && c in adj && from <= lane.drives.Keys * other.drives.Keys
    requires forall x | x in from :: lane.drives[x] == other.drives[x] && lane.exact[x] == other.exact[x]
    ensures Left(adj, lane, from, c) == Left(adj, other, from, c)
    ensures Certainly(adj, lane, from, c) <==> Certainly(adj, other, from, c)
    ensures Qualifies(adj, theta, lane, from, c) <==> Qualifies(adj, theta, other, from, c)
  {
    hide Prod;
    ProdSame(lane.drives, other.drives, adj[c], from * adj[c].Keys);
  }

  lemma ExactIs(adj: Qualities, lane: Lane, c: int)
    requires Shaped(adj, lane) && c in adj
    ensures ExactNew(adj, lane, c) <==> Certainly(adj, lane, lane.drives.Keys, c)
  {
    if s :| s in lane.drives.Keys && s in adj[c] && lane.exact[s] && adj[c][s] == 1.0 { assert s in lane.drives.Keys * adj[c].Keys; }
  }

  /** Being on the frontier is having an admitted neighbour, so proposals are the qualifying cells. */
  lemma ProposedQualifies(adj: Qualities, theta: real, lane: Lane, c: int)
    requires Shaped(adj, lane) && GraphOk(adj) && c in adj && c !in lane.drives
    ensures c in Proposals(adj, theta, lane) <==> Qualifies(adj, theta, lane, lane.drives.Keys, c)
  {
    hide Prod;
    if c in Frontier(adj, lane.drives.Keys) {
      var a :| a in lane.drives.Keys && a in adj && c in adj[a];
      assert a in lane.drives.Keys * adj[c].Keys;
    } else {
      OffFrontier(adj, lane.drives.Keys, c);
    }
  }

  /** A cell is certain after admission exactly when a certain neighbour reaches it with quality one. */
  lemma DriveOfNew(adj: Qualities, theta: real, lane: Lane, c: int)
    requires Shaped(adj, lane) && GraphOk(adj) && DrivesOk(lane) && c in adj && 0.0 < theta <= 1.0
    requires Proposed(adj, theta, lane, c)
    ensures NewDrive(adj, lane, c) == 1.0 - Residual(adj, lane, c)
    ensures theta <= NewDrive(adj, lane, c) <= 1.0
    ensures ExactNew(adj, lane, c) ==> NewDrive(adj, lane, c) == 1.0
    ensures ExactIffOne(lane) ==> (ExactNew(adj, lane, c) <==> NewDrive(adj, lane, c) == 1.0)
  {
    hide Prod;
    var s := lane.drives.Keys * adj[c].Keys;
    ProdRange(lane.drives, adj[c], s);
    if x :| x in s && lane.exact[x] && adj[c][x] == 1.0 {
      assert lane.drives[x] == 1.0;
    }
    if Residual(adj, lane, c) == 0.0 {
      var x :| x in s && lane.drives[x] == 1.0 && adj[c][x] == 1.0;
    }
  }

  /** Only a neighbour from the last round can tip a cell that did not qualify before it. */
  lemma ReachedFromLast(adj: Qualities, theta: real, lane: Lane, round: nat, c: int)
    requires Shaped(adj, lane) && c in adj && c !in lane.drives
    requires forall x | x in lane.drives :: lane.rounds[x] <= round
    requires Qualifies(adj, theta, lane, lane.drives.Keys, c) && !Qualifies(adj, theta, lane, Before(lane, round), c)
    ensures exists s :: s in lane.drives && s in adj[c] && lane.rounds[s] == round
  {
    hide Qualifies;
    var last := set s | s in lane.drives && s in adj[c] && lane.rounds[s] == round;
    forall x | x in lane.drives.Keys * adj[c].Keys ensures x in last || x in Before(lane, round) {}
    assert last == {} ==> lane.drives.Keys * adj[c].Keys == Before(lane, round) * adj[c].Keys;
    SameNeighbours(adj, theta, lane, lane.drives.Keys, Before(lane, round), c);
    var s := Pick(last);
  }

  lemma SameNeighbours(adj: Qualities, theta: real, lane: Lane, a: set<int>, b: set<int>, c: int)
    requires Shaped(adj, lane) && c in adj && a <= lane.drives.Keys && b <= lane.drives.Keys
    ensures a * adj[c].Keys == b * adj[c].Keys ==> (Qualifies(adj, theta, lane, a, c) <==> Qualifies(adj, theta, lane, b, c))
  {
    if a * adj[c].Keys == b * adj[c].Keys {
      forall s | s in adj[c] ensures s in a <==> s in b { assert s in a * adj[c].Keys <==> s in b * adj[c].Keys; }
    }
  }

  // ----- one round ----------------------------------------------------------------------

  /** What a round writes, and that the cells admitted before it are the old lane. */
  lemma RoundWrites(adj: Qualities, theta: real, lane: Lane, round: nat)
    requires Shaped(adj, lane) && GraphOk(adj)
    requires forall c | c in lane.drives :: lane.rounds[c] <= round
    ensures var p, l := Proposals(adj, theta, lane), Admit(adj, theta, lane, round + 1);
            && p !! lane.drives.Keys && p <= adj.Keys && l.drives.Keys == lane.drives.Keys + p
            && (forall c | c in lane.drives :: l.drives[c] == lane.drives[c] && l.exact[c] == lane.exact[c] && l.rounds[c] == lane.rounds[c])
            && (forall c | c in p :: l.drives[c] == NewDrive(adj, lane, c) && l.exact[c] == ExactNew(adj, lane, c) && l.rounds[c] == round + 1)
            && Before(l, round + 1) == lane.drives.Keys
            && forall r: nat | r <= round :: Before(l, r) == Before(lane, r)
  {
    hide Admit, NewDrive, ExactNew, Proposals, Before;
    RoundValues(adj, theta, lane, round);
    var l := Admit(adj, theta, lane, round + 1);
    BeforeRound(lane, l, round, round + 1);
    forall r: nat | r <= round ensures Before(l, r) == Before(lane, r) { BeforeRound(lane, l, round, r); }
  }

  lemma RoundValues(adj: Qualities, theta: real, lane: Lane, round: nat)
    requires Shaped(adj, lane) && GraphOk(adj)
    ensures var p, l := Proposals(adj, theta, lane), Admit(adj, theta, lane, round + 1);
            && p !! lane.drives.Keys && p <= adj.Keys && l.drives.Keys == lane.drives.Keys + p
            && (forall c | c in lane.drives :: l.drives[c] == lane.drives[c] && l.exact[c] == lane.exact[c] && l.rounds[c] == lane.rounds[c])
            && (forall c | c in p :: l.drives[c] == NewDrive(adj, lane, c) && l.exact[c] == ExactNew(adj, lane, c) && l.rounds[c] == round + 1)
  {
    hide NewDrive, ExactNew, Steps, Sorted, Proposals;
    ProposalsFree(adj, theta, lane);
  }

  /** Later rounds leave the earlier ones as they were. */
  lemma BeforeRound(lane: Lane, l: Lane, round: nat, r: nat)
    requires forall c | c in lane.rounds :: c in l.rounds && l.rounds[c] == lane.rounds[c] <= round
    requires forall c | c in l.rounds && c !in lane.rounds :: l.rounds[c] == round + 1
    ensures r <= round ==> Before(l, r) == Before(lane, r)
    ensures r == round + 1 ==> Before(l, r) == lane.rounds.Keys
  {
    forall c ensures r <= round ==> (c in Before(l, r) <==> c in Before(lane, r)) {}
    forall c ensures r == round + 1 ==> (c in Before(l, r) <==> c in lane.rounds) {}
  }

  lemma OldStaysGrounded(adj: Qualities, theta: real, lane: Lane, round: nat, c: int)
    requires Shaped(adj, lane) && GraphOk(adj) && c in lane.drives && Grounded(adj, theta, lane, c)
    requires forall x | x in lane.drives :: lane.rounds[x] <= round
    ensures Grounded(adj, theta, Admit(adj, theta, lane, round + 1), c)
  {
    hide Admit, Proposals, Qualifies, Left, Before, NewDrive, ExactNew;
    RoundWrites(adj, theta, lane, round);
    var l, r := Admit(adj, theta, lane, round + 1), lane.rounds[c];
    BeforeInside(lane, r);
    QualifiesSame(adj, theta, lane, l, Before(lane, r), c);
    var s :| s in lane.drives && s in adj[c] && lane.rounds[s] == r - 1;
    assert s in l.drives && l.rounds[s] == r - 1;
  }

  lemma BeforeInside(lane: Lane, r: nat)
    requires lane.rounds.Keys == lane.drives.Keys
    ensures Before(lane, r) <= lane.drives.Keys
  {
  }

  lemma NewIsGrounded(adj: Qualities, theta: real, lane: Lane, round: nat, c: int)
    requires Shaped(adj, lane) && GraphOk(adj) && DrivesOk(lane) && 0.0 < theta <= 1.0
    requires forall x | x in lane.drives :: lane.rounds[x] <= round
    requires c in Proposals(adj, theta, lane) && c in adj && c !in lane.drives
    requires !Qualifies(adj, theta, lane, Before(lane, round), c)
    ensures var l := Admit(adj, theta, lane, round + 1);
            c in l.drives && Grounded(adj, theta, l, c) && theta <= l.drives[c] <= 1.0 && (l.exact[c] ==> l.drives[c] == 1.0)
  {
    hide Admit, Qualifies, Certainly, Before, NewDrive, ExactNew, Prod;
    RoundWrites(adj, theta, lane, round);
    var l := Admit(adj, theta, lane, round + 1);
    ProposedQualifies(adj, theta, lane, c);
    DriveOfNew(adj, theta, lane, c);
    ReachedFromLast(adj, theta, lane, round, c);
    ExactIs(adj, lane, c);
    QualifiesSame(adj, theta, lane, l, lane.drives.Keys, c);
    var s :| s in lane.drives && s in adj[c] && lane.rounds[s] == round;
    assert s in l.drives && l.rounds[s] == round;
  }

  lemma RoundKeeps(adj: Qualities, theta: real, seeds: Lane, lane: Lane, round: nat)
    requires GraphOk(adj) && AtRound(adj, theta, seeds, lane, round) && 0.0 < theta <= 1.0
    ensures AtRound(adj, theta, seeds, Admit(adj, theta, lane, round + 1), round + 1)
  {
    hide Admit, Qualifies, Before, NewDrive, ExactNew, Proposals, Grounded;
    RoundWrites(adj, theta, lane, round);
    var p, l := Proposals(adj, theta, lane), Admit(adj, theta, lane, round + 1);
    forall c | c in l.drives
      ensures c !in seeds.drives ==> Grounded(adj, theta, l, c)
      ensures 0.0 < l.drives[c] <= 1.0 && (l.exact[c] ==> l.drives[c] == 1.0)
    {
      if c in lane.drives {
        if c !in seeds.drives { OldStaysGrounded(adj, theta, lane, round, c); }
      } else {
        NewIsGrounded(adj, theta, lane, round, c);
      }
    }
    forall c | c in adj && c !in l.drives ensures !Qualifies(adj, theta, l, Before(l, round + 1), c) {
      ProposedQualifies(adj, theta, lane, c);
      QualifiesSame(adj, theta, lane, l, lane.drives.Keys, c);
    }
  }

  lemma RoundKeepsExact(adj: Qualities, theta: real, lane: Lane, round: nat)
    requires GraphOk(adj) && Shaped(adj, lane) && DrivesOk(lane) && ExactIffOne(lane) && 0.0 < theta <= 1.0
    requires forall x | x in lane.drives :: lane.rounds[x] <= round
    ensures ExactIffOne(Admit(adj, theta, lane, round + 1))
  {
    hide Admit, NewDrive, ExactNew, Proposed, Before;
    RoundWrites(adj, theta, lane, round);
    var l := Admit(adj, theta, lane, round + 1);
    forall c | c in l.drives ensures l.exact[c] <==> l.drives[c] == 1.0 {
      if c !in lane.drives { DriveOfNew(adj, theta, lane, c); }
    }
  }

  // ----- the whole completion -----------------------------------------------------------

  /** No member left out has a neighbour that would admit it. */
  ghost predicate Saturated(adj: Qualities, theta: real, lane: Lane) {
    && Shaped(adj, lane)
    && forall c | c in adj && c !in lane.drives :: !Qualifies(adj, theta, lane, lane.drives.Keys, c)
  }

  lemma {:induction false} CompleteLaws(adj: Qualities, theta: real, seeds: Lane, lane: Lane, round: nat) returns (last: nat)
    requires GraphOk(adj) && AtRound(adj, theta, seeds, lane, round) && 0.0 < theta <= 1.0
    ensures AtRound(adj, theta, seeds, Complete(adj, theta, lane, round), last)
    ensures Saturated(adj, theta, Complete(adj, theta, lane, round))
    ensures ExactIffOne(lane) ==> ExactIffOne(Complete(adj, theta, lane, round))
    decreases adj.Keys - lane.drives.Keys
  {
    hide Admit, Proposals, Grounded, Qualifies, Before;
    if Proposals(adj, theta, lane) == {} {
      last := round;
      forall c | c in adj && c !in lane.drives ensures !Qualifies(adj, theta, lane, lane.drives.Keys, c) {
        ProposedQualifies(adj, theta, lane, c);
      }
    } else {
      ProposalsFree(adj, theta, lane);
      RoundKeeps(adj, theta, seeds, lane, round);
      if ExactIffOne(lane) { RoundKeepsExact(adj, theta, lane, round); }
      last := CompleteLaws(adj, theta, seeds, Admit(adj, theta, lane, round + 1), round + 1);
    }
  }

  /** The support of a cell: one minus the residual over all admitted neighbours. */
  function Support(adj: Qualities, lane: Lane, c: int): real
    requires c in adj
  {
    1.0 - Residual(adj, lane, c)
  }

  /** The guarantees of completion from lawful seeds. */
  ghost predicate Completed(adj: Qualities, theta: real, seeds: map<int, SeedValue>, lane: Lane) {
    && Shaped(adj, lane) && seeds.Keys <= lane.drives.Keys
    && (forall c | c in seeds :: lane.drives[c] == seeds[c].drive && lane.exact[c] == seeds[c].exactOne && lane.rounds[c] == 0)
    && (forall c | c in lane.drives && c !in seeds :: Grounded(adj, theta, lane, c) && lane.drives[c] >= theta)
    && Saturated(adj, theta, lane)
  }

  lemma SeedsAtStart(adj: Qualities, theta: real, seeds: map<int, SeedValue>)
    requires seeds.Keys <= adj.Keys && forall c | c in seeds :: SeedOk(seeds[c])
    ensures AtRound(adj, theta, SeedLane(seeds), SeedLane(seeds), 0)
  {
    assert Before(SeedLane(seeds), 0) == {};
  }

  /** Completion meets its guarantees on every graph, seed and threshold. */
  lemma CompletionGuarantees(adj: Qualities, theta: real, seeds: map<int, SeedValue>)
    requires GraphOk(adj) && seeds.Keys <= adj.Keys && 0.0 < theta <= 1.0
    requires forall c | c in seeds :: SeedOk(seeds[c])
    ensures Completed(adj, theta, seeds, Complete(adj, theta, SeedLane(seeds), 0))
  {
    hide Grounded, Qualifies, Complete, Before;
    SeedsAtStart(adj, theta, seeds);
    var lane := Complete(adj, theta, SeedLane(seeds), 0);
    var last := CompleteLaws(adj, theta, SeedLane(seeds), SeedLane(seeds), 0);
    forall c | c in lane.drives && c !in seeds ensures lane.drives[c] >= theta {
      GroundedDrive(adj, theta, lane, c);
    }
  }

  lemma GroundedDrive(adj: Qualities, theta: real, lane: Lane, c: int)
    requires GraphOk(adj) && Shaped(adj, lane) && DrivesOk(lane) && 0.0 < theta <= 1.0
    requires c in lane.drives && Grounded(adj, theta, lane, c)
    ensures lane.drives[c] >= theta
  {
    hide Prod;
    var s := Before(lane, lane.rounds[c]) * adj[c].Keys;
    ProdRange(lane.drives, adj[c], s);
    if theta == 1.0 {
      var x :| x in s && lane.exact[x] && adj[c][x] == 1.0;
      assert lane.drives[x] == 1.0;
    }
  }

  /** A cell that does not qualify has support below the threshold; at threshold one this needs exact flags. */
  lemma BelowThreshold(adj: Qualities, theta: real, lane: Lane, c: int)
    requires GraphOk(adj) && Shaped(adj, lane) && DrivesOk(lane) && 0.0 < theta <= 1.0 && c in adj && c !in lane.drives
    requires theta == 1.0 ==> ExactIffOne(lane)
    requires !Qualifies(adj, theta, lane, lane.drives.Keys, c)
    ensures Support(adj, lane, c) < theta
  {
    hide Prod;
    var s := lane.drives.Keys * adj[c].Keys;
    ProdRange(lane.drives, adj[c], s);
    if s == {} {
      ProdNone(lane.drives, adj[c]);
    } else if theta == 1.0 {
      forall x | x in s ensures !(lane.drives[x] == 1.0 && adj[c][x] == 1.0) {
        assert lane.exact[x] <==> lane.drives[x] == 1.0;
      }
    }
  }

  /** Every certain seed carries the exact flag. */
  predicate FlagsSound(seeds: map<int, SeedValue>) {
    forall x | x in seeds :: seeds[x].drive == 1.0 ==> seeds[x].exactOne
  }

  lemma FlagsStaySound(adj: Qualities, theta: real, seeds: map<int, SeedValue>)
    requires GraphOk(adj) && seeds.Keys <= adj.Keys && 0.0 < theta <= 1.0
    requires FlagsSound(seeds) && forall x | x in seeds :: SeedOk(seeds[x])
    ensures ExactIffOne(Complete(adj, theta, SeedLane(seeds), 0))
  {
    hide Grounded, Complete, Before, Prod, Qualifies;
    SeedsAtStart(adj, theta, seeds);
    var last := CompleteLaws(adj, theta, SeedLane(seeds), SeedLane(seeds), 0);
  }

  /** No member left out has support at or above the threshold. */
  lemma NothingLeftOut(adj: Qualities, theta: real, seeds: map<int, SeedValue>, c: int)
    requires GraphOk(adj) && seeds.Keys <= adj.Keys && 0.0 < theta <= 1.0
    requires forall x | x in seeds :: SeedOk(seeds[x])
    requires theta == 1.0 ==> FlagsSound(seeds)
    requires c in adj && c !in Complete(adj, theta, SeedLane(seeds), 0).drives
    ensures Support(adj, Complete(adj, theta, SeedLane(seeds), 0), c) < theta
  {
    hide Grounded, Complete, Before, Prod, Qualifies, FlagsSound;
    SeedsAtStart(adj, theta, seeds);
    var lane := Complete(adj, theta, SeedLane(seeds), 0);
    var last := CompleteLaws(adj, theta, SeedLane(seeds), SeedLane(seeds), 0);
    if theta == 1.0 { FlagsStaySound(adj, theta, seeds); }
    BelowThreshold(adj, theta, lane, c);
  }

  predicate LeftOut(adj: Qualities, seeds: map<int, SeedValue>, c: int)
    requires GraphOk(adj) && seeds.Keys <= adj.Keys
  {
    var lane := Complete(adj, 1.0, SeedLane(seeds), 0);
    c in adj && c !in lane.drives && Support(adj, lane, c) >= 1.0
  }

  /** At threshold one, some graph leaves a fully supported cell out exactly when a certain seed lacks its flag. */
  lemma FlagsDecide(seeds: map<int, SeedValue>)
    requires forall x | x in seeds :: SeedOk(seeds[x])
    ensures FlagsSound(seeds) <==>
            forall adj: Qualities, c | GraphOk(adj) && seeds.Keys <= adj.Keys :: !LeftOut(adj, seeds, c)
  {
    hide LeftOut, Complete;
    if FlagsSound(seeds) {
      forall adj: Qualities, c | GraphOk(adj) && seeds.Keys <= adj.Keys ensures !LeftOut(adj, seeds, c) {
        NotLeftOut(adj, seeds, c);
      }
    } else {
      var s :| s in seeds && seeds[s].drive == 1.0 && !seeds[s].exactOne;
      var adj, c := Pendant(seeds, s);
      PendantLeftOut(seeds, s, adj, c);
    }
  }

  lemma NotLeftOut(adj: Qualities, seeds: map<int, SeedValue>, c: int)
    requires GraphOk(adj) && seeds.Keys <= adj.Keys && FlagsSound(seeds)
    requires forall x | x in seeds :: SeedOk(seeds[x])
    ensures !LeftOut(adj, seeds, c)
  {
    hide Complete, FlagsSound;
    if c in adj && c !in Complete(adj, 1.0, SeedLane(seeds), 0).drives {
      NothingLeftOut(adj, 1.0, seeds, c);
    }
  }

  /** The seeds, and one new cell that only `s` reaches, with quality one. */
  predicate IsPendant(seeds: map<int, SeedValue>, s: int, adj: Qualities, c: int) {
    && s in seeds && c !in seeds && adj.Keys == seeds.Keys + {c}
    && forall a | a in adj :: adj[a] == if a == s then map[c := 1.0] else if a == c then map[s := 1.0] else map[]
  }

  lemma Pendant(seeds: map<int, SeedValue>, s: int) returns (adj: Qualities, c: int)
    requires s in seeds
    ensures IsPendant(seeds, s, adj, c) && GraphOk(adj)
  {
    c := NextAbove(0, seeds.Keys);
    adj := map a | a in seeds.Keys + {c} :: if a == s then map[c := 1.0] else if a == c then map[s := 1.0] else map[];
  }

  lemma PendantIdle(seeds: map<int, SeedValue>, s: int, adj: Qualities, c: int)
    requires IsPendant(seeds, s, adj, c) && GraphOk(adj)
    requires seeds[s].drive == 1.0 && !seeds[s].exactOne
    ensures Shaped(adj, SeedLane(seeds)) && Proposals(adj, 1.0, SeedLane(seeds)) == {}
  {
    var lane := SeedLane(seeds);
    assert Frontier(adj, lane.drives.Keys) <= {c};
    assert !ExactNew(adj, lane, c);
  }

  lemma PendantReached(seeds: map<int, SeedValue>, s: int, adj: Qualities, c: int)
    requires IsPendant(seeds, s, adj, c) && GraphOk(adj) && seeds[s].drive == 1.0
    ensures var lane := SeedLane(seeds); Shaped(adj, lane) && c !in lane.drives && Residual(adj, lane, c) == 0.0
  {
    hide GraphOk;
    var lane := SeedLane(seeds);
    assert lane.drives.Keys * adj[c].Keys == {s};
    ProdOne(lane.drives, adj[c], s);
  }

  lemma PendantLeftOut(seeds: map<int, SeedValue>, s: int, adj: Qualities, c: int)
    requires IsPendant(seeds, s, adj, c) && GraphOk(adj)
    requires seeds[s].drive == 1.0 && !seeds[s].exactOne
    ensures LeftOut(adj, seeds, c)
  {
    hide GraphOk, Residual, Proposals, Shaped, SeedLane;
    PendantIdle(seeds, s, adj, c);
    PendantReached(seeds, s, adj, c);
  }

  // ----- the step log -------------------------------------------------------------------

  ghost predicate LogBefore(a: CompletionStep, b: CompletionStep) {
    a.round < b.round || (a.round == b.round && a.cell < b.cell)
  }

  /** One line of the log: a completed cell, its round, and exactly its earlier neighbours. */
  ghost predicate LineOk(adj: Qualities, seeds: Lane, lane: Lane, x: CompletionStep)
    requires Shaped(adj, lane)
  {
    && x.cell in lane.drives && x.cell !in seeds.drives && x.round == lane.rounds[x.cell]
    && x.supporters == Before(lane, x.round) * adj[x.cell].Keys
  }

  ghost predicate LogOrdered(steps: seq<CompletionStep>, round: nat) {
    && (forall i | 0 <= i < |steps| :: steps[i].round <= round)
    && forall i, j | 0 <= i < j < |steps| :: LogBefore(steps[i], steps[j])
  }

  predicate HasLine(steps: seq<CompletionStep>, c: int) {
    exists i :: 0 <= i < |steps| && steps[i].cell == c
  }

  /** One line per completed cell, by round and then id, with exactly its earlier neighbours. */
  ghost predicate Logged(adj: Qualities, seeds: Lane, lane: Lane, round: nat)
    requires Shaped(adj, lane)
  {
    && (forall i | 0 <= i < |lane.steps| :: LineOk(adj, seeds, lane, lane.steps[i]))
    && LogOrdered(lane.steps, round)
    && forall c | c in lane.drives && c !in seeds.drives :: HasLine(lane.steps, c)
  }

  /** The log of `l` is the old log followed by one line per cell of `order`. */
  ghost predicate Extends(adj: Qualities, lane: Lane, l: Lane, order: seq<int>, round: nat) {
    && |l.steps| == |lane.steps| + |order|
    && (forall j | 0 <= j < |order| :: order[j] in adj)
    && (forall i | 0 <= i < |lane.steps| :: l.steps[i] == lane.steps[i])
    && forall i | |lane.steps| <= i < |l.steps| :: l.steps[i] == NewStep(adj, lane, order[i - |lane.steps|], round)
  }

  function NewStep(adj: Qualities, lane: Lane, c: int, round: nat): CompletionStep {
    CompletionStep(c, round, if c in adj then lane.drives.Keys * adj[c].Keys else {})
  }

  lemma RoundLogs(adj: Qualities, theta: real, seeds: Lane, lane: Lane, round: nat)
    requires GraphOk(adj) && Shaped(adj, lane) && seeds.drives.Keys <= lane.drives.Keys && Logged(adj, seeds, lane, round)
    requires forall c | c in lane.drives :: lane.rounds[c] <= round
    ensures Logged(adj, seeds, Admit(adj, theta, lane, round + 1), round + 1)
  {
    hide Before, Proposals, Admit, LineOk, HasLine, LogOrdered, Extends, Sorted, GraphOk, NewStep;
    var order, l := Sorted(Proposals(adj, theta, lane)), Admit(adj, theta, lane, round + 1);
    SortedElements(Proposals(adj, theta, lane));
    AdmitSteps(adj, theta, lane, round + 1);
    forall i | 0 <= i < |l.steps| ensures LineOk(adj, seeds, l, l.steps[i]) {
      LineAt(adj, theta, seeds, lane, round, order, i);
    }
    LogGrows(adj, lane, l, order, round);
    forall c | c in l.drives && c !in seeds.drives ensures HasLine(l.steps, c) {
      LineFound(adj, lane, l, order, round + 1, c);
    }
  }

  lemma LineAt(adj: Qualities, theta: real, seeds: Lane, lane: Lane, round: nat, order: seq<int>, i: nat)
    requires GraphOk(adj) && Shaped(adj, lane) && seeds.drives.Keys <= lane.drives.Keys
    requires forall j | 0 <= j < |lane.steps| :: LineOk(adj, seeds, lane, lane.steps[j])
    requires forall c | c in lane.drives :: lane.rounds[c] <= round
    requires Extends(adj, lane, Admit(adj, theta, lane, round + 1), order, round + 1)
    requires forall j | 0 <= j < |order| :: order[j] in Proposals(adj, theta, lane)
    requires i < |Admit(adj, theta, lane, round + 1).steps|
    ensures LineOk(adj, seeds, Admit(adj, theta, lane, round + 1), Admit(adj, theta, lane, round + 1).steps[i])
  {
    hide Before, Proposals, Admit, LineOk, GraphOk, Shaped;
    if i < |lane.steps| {
      LineStays(adj, theta, seeds, lane, round, lane.steps[i]);
    } else {
      NewLine(adj, theta, seeds, lane, round, order[i - |lane.steps|]);
    }
  }

  lemma LineStays(adj: Qualities, theta: real, seeds: Lane, lane: Lane, round: nat, x: CompletionStep)
    requires GraphOk(adj) && Shaped(adj, lane) && LineOk(adj, seeds, lane, x)
    requires forall c | c in lane.drives :: lane.rounds[c] <= round
    ensures LineOk(adj, seeds, Admit(adj, theta, lane, round + 1), x)
  {
    hide Before, Proposals, Admit;
    RoundWrites(adj, theta, lane, round);
  }

  lemma NewLine(adj: Qualities, theta: real, seeds: Lane, lane: Lane, round: nat, c: int)
    requires GraphOk(adj) && Shaped(adj, lane) && seeds.drives.Keys <= lane.drives.Keys && c in Proposals(adj, theta, lane) && c in adj
    requires forall x | x in lane.drives :: lane.rounds[x] <= round
    ensures LineOk(adj, seeds, Admit(adj, theta, lane, round + 1), NewStep(adj, lane, c, round + 1))
  {
    hide Before, Proposals, Admit;
    RoundWrites(adj, theta, lane, round);
  }

  lemma LogGrows(adj: Qualities, lane: Lane, l: Lane, order: seq<int>, round: nat)
    requires LogOrdered(lane.steps, round) && Extends(adj, lane, l, order, round + 1)
    requires forall i, j | 0 <= i < j < |order| :: order[i] < order[j]
    ensures LogOrdered(l.steps, round + 1)
  {
    forall i, j | 0 <= i < j < |l.steps| ensures LogBefore(l.steps[i], l.steps[j]) {
      if j < |lane.steps| {
        assert LogBefore(lane.steps[i], lane.steps[j]);
      }
    }
  }

  lemma LineFound(adj: Qualities, lane: Lane, l: Lane, order: seq<int>, round: nat, c: int)
    requires Extends(adj, lane, l, order, round) && (HasLine(lane.steps, c) || c in order)
    ensures HasLine(l.steps, c)
  {
    if HasLine(lane.steps, c) {
      var i :| 0 <= i < |lane.steps| && lane.steps[i].cell == c;
      assert l.steps[i].cell == c;
    } else {
      var j :| 0 <= j < |order| && order[j] == c;
      assert l.steps[|lane.steps| + j].cell == c;
    }
  }

  lemma AdmitSteps(adj: Qualities, theta: real, lane: Lane, round: nat)
    requires Shaped(adj, lane) && GraphOk(adj)
    ensures Extends(adj, lane, Admit(adj, theta, lane, round), Sorted(Proposals(adj, theta, lane)), round)
  {
    hide Admit, Proposals, Sorted, Steps, Extends;
    ProposalsFree(adj, theta, lane);
    SortedElements(Proposals(adj, theta, lane));
    AdmitLog(adj, theta, lane, round);
    LogExtends(adj, lane, Admit(adj, theta, lane, round), Sorted(Proposals(adj, theta, lane)), round);
  }

  lemma LogExtends(adj: Qualities, lane: Lane, l: Lane, order: seq<int>, round: nat)
    requires forall j | 0 <= j < |order| :: order[j] in adj
    requires l.steps == lane.steps + Steps(adj, lane, order, round)
    ensures Extends(adj, lane, l, order, round)
  {
  }

  lemma AdmitLog(adj: Qualities, theta: real, lane: Lane, round: nat)
    requires Shaped(adj, lane) && GraphOk(adj)
    requires forall j | 0 <= j < |Sorted(Proposals(adj, theta, lane))| :: Sorted(Proposals(adj, theta, lane))[j] in adj
    ensures Admit(adj, theta, lane, round).steps == lane.steps + Steps(adj, lane, Sorted(Proposals(adj, theta, lane)), round)
  {
    hide Steps, Proposals, DrivesAfter, ExactAfter, RoundsAfter;
  }

  lemma {:induction false} CompleteLogs(adj: Qualities, theta: real, seeds: Lane, lane: Lane, round: nat) returns (last: nat)
    requires GraphOk(adj) && Shaped(adj, lane) && seeds.drives.Keys <= lane.drives.Keys && Logged(adj, seeds, lane, round)
    requires forall c | c in lane.drives :: lane.rounds[c] <= round
    ensures Logged(adj, seeds, Complete(adj, theta, lane, round), last)
    decreases adj.Keys - lane.drives.Keys
  {
    hide Admit, Proposals, Logged, Before, NewDrive, ExactNew;
    if Proposals(adj, theta, lane) == {} {
      last := round;
    } else {
      ProposalsFree(adj, theta, lane);
      RoundLogs(adj, theta, seeds, lane, round);
      RoundWrites(adj, theta, lane, round);
      last := CompleteLogs(adj, theta, seeds, Admit(adj, theta, lane, round + 1), round + 1);
    }
  }

  /** The log of a completion is exact. */
  lemma CompletionLogged(adj: Qualities, theta: real, seeds: map<int, SeedValue>) returns (last: nat)
    requires GraphOk(adj) && seeds.Keys <= adj.Keys
    ensures Logged(adj, SeedLane(seeds), Complete(adj, theta, SeedLane(seeds), 0), last)
  {
    last := CompleteLogs(adj, theta, SeedLane(seeds), SeedLane(seeds), 0);
  }
}
