/** Ordinary recruitment by novelty, and round-robin expansion for the blocked proposals. */
module Recruitment {
  import opened Ordering
  import opened CoreModel
  import opened NetworkState

  function Ceil(x: real): int { -((-x).Floor) }

  /** The least whole number of cells that reaches the novelty share of `kR`, and never more than `kR`. */
  function Requested(cfg: Config, novelty: real): (r: int)
    ensures r <= cfg.kR && (r as real >= cfg.kR as real * novelty || r == cfg.kR)
    ensures r as real - 1.0 < cfg.kR as real * novelty
  {
    var wanted := Ceil(cfg.kR as real * novelty);
    if wanted < cfg.kR then wanted else cfg.kR
  }

  predicate Free(n: Net, c: int) { !CommittedIn(n.cells, c) }

  function Drive(drives: map<int, real>, c: int): real { if c in drives then drives[c] else 0.0 }

  predicate DriveBefore(drives: map<int, real>, a: int, b: int) {
    Drive(drives, a) > Drive(drives, b) || (Drive(drives, a) == Drive(drives, b) && a <= b)
  }

  lemma DriveTotal(drives: map<int, real>)
    ensures TotalPreorder((a: int, b: int) => DriveBefore(drives, a, b))
  {
  }

  method RankByDrive(drives: map<int, real>, ids: set<int>) returns (r: seq<int>)
    ensures Enumerates(r, ids)
    ensures forall i, j | 0 <= i < j < |r| :: DriveBefore(drives, r[i], r[j])
  {
    DriveTotal(drives);
    r := Ranking(ids, (a: int, b: int) => DriveBefore(drives, a, b));
  }

  /** A higher drive, or the same one and a smaller id. */
  ghost predicate Stronger(drives: map<int, real>, a: int, b: int) {
    a in drives && b in drives && (drives[a] > drives[b] || (drives[a] == drives[b] && a < b))
  }

  /** The strongest uncommitted receptors, as many as the novelty asks for; none below the threshold. */
  ghost predicate OrdinaryDone(n: Net, cfg: Config, drives: map<int, real>, novelty: real, r: seq<int>) {
    && (novelty < cfg.thetaR ==> r == [])
    && Distinct(r) && |r| <= cfg.kR
    && (forall c | c in r :: c in drives && !CommittedIn(n.cells, c))
    && (forall i, j | 0 <= i < j < |r| :: Stronger(drives, r[i], r[j]))
    && (novelty >= cfg.thetaR ==> |r| <= Requested(cfg, novelty))
    && (novelty >= cfg.thetaR ==> forall c | c in drives && !CommittedIn(n.cells, c) && c !in r ::
          |r| == Requested(cfg, novelty) && forall x | x in r :: Stronger(drives, x, c))
  }

  method OrdinaryRecruitment(n: Net, cfg: Config, drives: map<int, real>, novelty: real) returns (r: seq<int>)
    requires cfg.Valid()
    ensures OrdinaryDone(n, cfg, drives, novelty, r)
  {
    if novelty < cfg.thetaR {
      return [];
    }
    var requested := Requested(cfg, novelty);
    assert requested >= 0 by { assert cfg.kR as real * novelty >= 0.0; }
    var eligible := FreeIn(n, drives);
    var ranked := RankByDrive(drives, eligible);
    r := if |ranked| <= requested then ranked else ranked[..requested];
    TopSlice(n, drives, ranked, r);
  }

  function FreeIn(n: Net, drives: map<int, real>): set<int> { set c | c in drives && Free(n, c) }

  lemma TopSlice(n: Net, drives: map<int, real>, ranked: seq<int>, r: seq<int>)
    requires Enumerates(ranked, FreeIn(n, drives)) && r <= ranked
    requires forall i, j | 0 <= i < j < |ranked| :: DriveBefore(drives, ranked[i], ranked[j])
    ensures Distinct(r) && forall c | c in r :: c in drives && Free(n, c)
    ensures forall c, x | c in drives && Free(n, c) && c !in r && x in r :: DriveBefore(drives, x, c)
    ensures |r| == |ranked| ==> forall c | c in drives && Free(n, c) :: c in r
  {
    forall c | c in r ensures c in FreeIn(n, drives) { assert c in ranked; }
    forall c, x | c in drives && Free(n, c) && c !in r && x in r ensures DriveBefore(drives, x, c) {
      assert c in ranked;
      var j :| 0 <= j < |ranked| && ranked[j] == c;
      var i :| 0 <= i < |r| && r[i] == x;
      assert forall m | 0 <= m < |r| :: ranked[m] in r;
    }
    if |r| == |ranked| { assert r == ranked; }
  }

  // ----- expansion ----------------------------------------------------------------------

  /** Cells a request may take: its uncommitted reserve beyond the ordinary recruits. */
  function Eligible(n: Net, reserves: map<EdgeKey, map<int, real>>, ordinary: set<int>, k: EdgeKey): (r: set<int>)
    ensures forall c :: c in r <==> k in reserves && c in reserves[k] && c !in ordinary && !CommittedIn(n.cells, c)
  {
    set c | c in Reserve(reserves, k) && c !in ordinary && Free(n, c)
  }

  function Reserve(reserves: map<EdgeKey, map<int, real>>, k: EdgeKey): (r: map<int, real>)
    ensures forall c :: c in r <==> k in reserves && c in reserves[k]
    ensures forall c | c in r :: r[c] == reserves[k][c]
  {
    if k in reserves then reserves[k] else map[]
  }

  function Bound(n: Net, cfg: Config, reserves: map<EdgeKey, map<int, real>>, ordinary: set<int>, novelty: real, k: EdgeKey): int {
    var size := |Eligible(n, reserves, ordinary, k)|;
    if Requested(cfg, novelty) < size then Requested(cfg, novelty) else size
  }

  function Given(given: map<int, EdgeKey>, k: EdgeKey): set<int> { set c | c in given && given[c] == k }

  ghost predicate ExpansionOk(n: Net, cfg: Config, reserves: map<EdgeKey, map<int, real>>, ordinary: set<int>, novelty: real,
                              requests: seq<EdgeKey>, pools: map<EdgeKey, seq<int>>, given: map<int, EdgeKey>) {
    && (forall k | k in requests :: k in pools)
    && (forall c | c in given :: given[c] in requests && c in Eligible(n, reserves, ordinary, given[c]))
    && (forall k | k in requests :: |Given(given, k)| <= Bound(n, cfg, reserves, ordinary, novelty, k) || Given(given, k) == {})
    && (forall k, c | k in requests && c in pools[k] :: c in Eligible(n, reserves, ordinary, k))
    && (forall k, c | k in requests && c in Eligible(n, reserves, ordinary, k) :: c in pools[k] || c in given)
  }

  /** A request can take nothing more. */
  ghost predicate Settled(n: Net, cfg: Config, reserves: map<EdgeKey, map<int, real>>, ordinary: set<int>, novelty: real,
                          given: map<int, EdgeKey>, k: EdgeKey) {
    || |Given(given, k)| >= Bound(n, cfg, reserves, ordinary, novelty, k)
    || forall c | c in Eligible(n, reserves, ordinary, k) :: c in given
  }

  /** Pools are offered strongest first, and what a request took is no weaker than what its pool still offers. */
  ghost predicate StrongestFirst(reserves: map<EdgeKey, map<int, real>>, requests: seq<EdgeKey>, pools: map<EdgeKey, seq<int>>, given: map<int, EdgeKey>) {
    forall k | k in requests && k in pools :: PoolFirst(Reserve(reserves, k), pools[k], Given(given, k))
  }

  ghost predicate PoolFirst(reserve: map<int, real>, pool: seq<int>, taken: set<int>) {
    && (forall i, j | 0 <= i < j < |pool| :: DriveBefore(reserve, pool[i], pool[j]))
    && forall c, d | c in taken && d in pool :: DriveBefore(reserve, c, d)
  }

  /** A request was served `served` times, or it is settled with fewer. */
  ghost predicate Served(n: Net, cfg: Config, reserves: map<EdgeKey, map<int, real>>, ordinary: set<int>, novelty: real,
                         given: map<int, EdgeKey>, k: EdgeKey, served: nat) {
    |Given(given, k)| == served || (|Given(given, k)| < served && Settled(n, cfg, reserves, ordinary, novelty, given, k))
  }

  /** In round `t` the first `i` requests have had their turn. */
  ghost predicate InTurn(n: Net, cfg: Config, reserves: map<EdgeKey, map<int, real>>, ordinary: set<int>, novelty: real,
                         given: map<int, EdgeKey>, requests: seq<EdgeKey>, i: nat, t: nat) {
    forall j | 0 <= j < |requests| :: Served(n, cfg, reserves, ordinary, novelty, given, requests[j], if j < i then t + 1 else t)
  }

  lemma GiveCell(given: map<int, EdgeKey>, c: int, k: EdgeKey)
    requires c !in given
    ensures forall x :: |Given(given[c := k], x)| == |Given(given, x)| + (if x == k then 1 else 0)
  {
    forall x ensures |Given(given[c := k], x)| == |Given(given, x)| + (if x == k then 1 else 0) {
      if x == k {
        assert Given(given[c := k], x) == Given(given, x) + {c};
      } else {
        assert Given(given[c := k], x) == Given(given, x);
      }
    }
  }

  method StripPool(pool: seq<int>, taken: set<int>) returns (r: seq<int>)
    ensures forall c | c in r :: c in pool
    ensures forall c | c in pool :: c in r || c in taken
    ensures r != [] ==> r[0] !in taken
    ensures exists m :: 0 <= m <= |pool| && r == pool[m..]
  {
    r := pool;
    ghost var m := 0;
    while r != [] && r[0] in taken
      invariant 0 <= m <= |pool| && r == pool[m..]
      invariant forall c | c in r :: c in pool
      invariant forall c | c in pool :: c in r || c in taken
      decreases |r|
    {
      forall c | c in r ensures c == r[0] || c in r[1..] {}
      r := r[1..];
      m := m + 1;
    }
  }

  /**
   The outcome of the round-robin. When units remain, every request has reached its
   bound or has no free cell left; no request is ever more than one turn ahead of one that
   could still take a cell, nor behind a later one; and each took its strongest free cells.
   */
  ghost predicate ExpansionDone(n: Net, cfg: Config, requests: seq<EdgeKey>, reserves: map<EdgeKey, map<int, real>>,
                                ordinary: set<int>, novelty: real, given: map<int, EdgeKey>) {
    && (|given| <= cfg.kR - |ordinary| || given == map[])
    && (forall c | c in given :: given[c] in requests && c in Eligible(n, reserves, ordinary, given[c]))
    && (forall k | k in requests :: |Given(given, k)| <= Bound(n, cfg, reserves, ordinary, novelty, k) || Given(given, k) == {})
    && (|given| < cfg.kR - |ordinary| ==> forall k | k in requests :: Settled(n, cfg, reserves, ordinary, novelty, given, k))
    && (|ordinary| < cfg.kR ==> exists i: nat, t: nat :: InTurn(n, cfg, reserves, ordinary, novelty, given, requests, i, t))
    && forall k, c, d | k in requests && c in given && given[c] == k && d in Eligible(n, reserves, ordinary, k) && d !in given ::
         DriveBefore(Reserve(reserves, k), c, d)
  }

  /** Turn by turn over the ranked requests. */
  method AllocateExpansion(n: Net, cfg: Config, requests: seq<EdgeKey>, reserves: map<EdgeKey, map<int, real>>,
                           ordinary: set<int>, novelty: real) returns (given: map<int, EdgeKey>)
    requires cfg.Valid() && novelty >= 0.0
    requires forall i, j | 0 <= i < j < |requests| :: requests[i] != requests[j]
    ensures ExpansionDone(n, cfg, requests, reserves, ordinary, novelty, given)
  {
    hide ExpansionOk, Settled, Bound, StrongestFirst, InTurn, Eligible, Given;
    given := map[];
    var remaining := cfg.kR - |ordinary|;
    forall k ensures Given(given, k) == {} { GivenNone(k); }
    if remaining <= 0 {
      return;
    }
    var pools := Pools(n, requests, reserves, ordinary);
    NothingGiven(n, cfg, reserves, ordinary, novelty, requests, pools);
    var progress := true;
    ghost var stop, t := 0, 0;
    while remaining > 0 && progress
      invariant ExpansionOk(n, cfg, reserves, ordinary, novelty, requests, pools, given) && StrongestFirst(reserves, requests, pools, given)
      invariant remaining == cfg.kR - |ordinary| - |given| && remaining >= 0
      invariant InTurn(n, cfg, reserves, ordinary, novelty, given, requests, stop, t) && (remaining > 0 && progress ==> stop == 0)
      invariant !progress ==> forall k | k in requests :: Settled(n, cfg, reserves, ordinary, novelty, given, k)
      decreases remaining, progress
    {
      progress, remaining, pools, given, stop := Round(n, cfg, requests, reserves, ordinary, novelty, remaining, pools, given, t);
      if remaining > 0 {
        RoundOver(n, cfg, reserves, ordinary, novelty, given, requests, t);
        stop, t := 0, t + 1;
      }
    }
    ExpansionFacts(n, cfg, reserves, ordinary, novelty, requests, pools, given);
  }

  lemma GivenNone(k: EdgeKey)
    ensures Given(map[], k) == {}
  {
  }

  lemma NothingGiven(n: Net, cfg: Config, reserves: map<EdgeKey, map<int, real>>, ordinary: set<int>, novelty: real,
                     requests: seq<EdgeKey>, pools: map<EdgeKey, seq<int>>)
    requires forall k :: k in pools <==> k in requests
    requires forall k | k in requests :: Enumerates(pools[k], Eligible(n, reserves, ordinary, k))
    requires forall k, i, j | k in requests && 0 <= i < j < |pools[k]| :: DriveBefore(Reserve(reserves, k), pools[k][i], pools[k][j])
    ensures ExpansionOk(n, cfg, reserves, ordinary, novelty, requests, pools, map[]) && StrongestFirst(reserves, requests, pools, map[])
    ensures InTurn(n, cfg, reserves, ordinary, novelty, map[], requests, 0, 0)
  {
    hide DriveBefore;
    forall k ensures Given(map[], k) == {} {}
  }

  lemma RoundOver(n: Net, cfg: Config, reserves: map<EdgeKey, map<int, real>>, ordinary: set<int>, novelty: real,
                  given: map<int, EdgeKey>, requests: seq<EdgeKey>, t: nat)
    requires InTurn(n, cfg, reserves, ordinary, novelty, given, requests, |requests|, t)
    ensures InTurn(n, cfg, reserves, ordinary, novelty, given, requests, 0, t + 1)
  {
    hide Served;
  }

  lemma ExpansionFacts(n: Net, cfg: Config, reserves: map<EdgeKey, map<int, real>>, ordinary: set<int>, novelty: real,
                       requests: seq<EdgeKey>, pools: map<EdgeKey, seq<int>>, given: map<int, EdgeKey>)
    requires ExpansionOk(n, cfg, reserves, ordinary, novelty, requests, pools, given) && StrongestFirst(reserves, requests, pools, given)
    ensures forall c | c in given :: given[c] in requests && c in Eligible(n, reserves, ordinary, given[c])
    ensures forall k | k in requests :: |Given(given, k)| <= Bound(n, cfg, reserves, ordinary, novelty, k) || Given(given, k) == {}
    ensures forall k, c, d | k in requests && c in given && given[c] == k && d in Eligible(n, reserves, ordinary, k) && d !in given ::
              DriveBefore(Reserve(reserves, k), c, d)
  {
    hide Bound, Eligible, DriveBefore;
    forall k, c, d | k in requests && c in given && given[c] == k && d in Eligible(n, reserves, ordinary, k) && d !in given
      ensures DriveBefore(Reserve(reserves, k), c, d)
    {
      assert PoolFirst(Reserve(reserves, k), pools[k], Given(given, k));
      assert c in Given(given, k) && d in pools[k];
    }
  }

  method Pools(n: Net, requests: seq<EdgeKey>, reserves: map<EdgeKey, map<int, real>>, ordinary: set<int>)
      returns (pools: map<EdgeKey, seq<int>>)
    ensures forall k :: k in pools <==> k in requests
    ensures forall k | k in requests :: Enumerates(pools[k], Eligible(n, reserves, ordinary, k))
    ensures forall k, i, j | k in requests && 0 <= i < j < |pools[k]| ::
              DriveBefore(Reserve(reserves, k), pools[k][i], pools[k][j])
  {
    pools := map[];
    var i := 0;
    while i < |requests|
      invariant 0 <= i <= |requests|
      invariant forall k :: k in pools <==> k in requests[..i]
      invariant forall k | k in pools :: Enumerates(pools[k], Eligible(n, reserves, ordinary, k))
      invariant forall k, a, b | k in pools && 0 <= a < b < |pools[k]| ::
                  DriveBefore(Reserve(reserves, k), pools[k][a], pools[k][b])
    {
      var k := requests[i];
      var pool := RankByDrive(Reserve(reserves, k), Eligible(n, reserves, ordinary, k));
      pools := pools[k := pool];
      i := i + 1;
    }
  }

  /** One turn for each request, while units remain. */
  method Round(n: Net, cfg: Config, requests: seq<EdgeKey>, reserves: map<EdgeKey, map<int, real>>, ordinary: set<int>,
               novelty: real, remaining0: int, pools0: map<EdgeKey, seq<int>>, given0: map<int, EdgeKey>, ghost t: nat)
      returns (progress: bool, remaining: int, pools: map<EdgeKey, seq<int>>, given: map<int, EdgeKey>, ghost stop: nat)
    requires ExpansionOk(n, cfg, reserves, ordinary, novelty, requests, pools0, given0) && remaining0 > 0
    requires forall i, j | 0 <= i < j < |requests| :: requests[i] != requests[j]
    requires StrongestFirst(reserves, requests, pools0, given0) && InTurn(n, cfg, reserves, ordinary, novelty, given0, requests, 0, t)
    ensures ExpansionOk(n, cfg, reserves, ordinary, novelty, requests, pools, given) && StrongestFirst(reserves, requests, pools, given)
    ensures InTurn(n, cfg, reserves, ordinary, novelty, given, requests, stop, t) && (remaining > 0 ==> stop == |requests|)
    ensures 0 <= remaining <= remaining0 && |given| - |given0| == remaining0 - remaining
    ensures progress ==> remaining < remaining0
    ensures !progress ==> forall k | k in requests :: Settled(n, cfg, reserves, ordinary, novelty, given, k)
  {
    hide ExpansionOk, Settled, Given, Bound, StrongestFirst, InTurn;
    progress, remaining, pools, given := false, remaining0, pools0, given0;
    var i := 0;
    while i < |requests| && remaining > 0
      invariant 0 <= i <= |requests| && 0 <= remaining <= remaining0
      invariant ExpansionOk(n, cfg, reserves, ordinary, novelty, requests, pools, given) && StrongestFirst(reserves, requests, pools, given)
      invariant InTurn(n, cfg, reserves, ordinary, novelty, given, requests, i, t)
      invariant |given| - |given0| == remaining0 - remaining
      invariant progress ==> remaining < remaining0
      invariant !progress ==> remaining == remaining0
      invariant !progress ==> forall j | 0 <= j < i :: Settled(n, cfg, reserves, ordinary, novelty, given, requests[j])
      decreases |requests| - i
    {
      var k := requests[i];
      RoundAt(n, cfg, reserves, ordinary, novelty, requests, pools, given, k);
      if |Given(given, k)| < Bound(n, cfg, reserves, ordinary, novelty, k) {
        var pool := StripPool(pools[k], given.Keys);
        Stripped(n, cfg, reserves, ordinary, novelty, requests, pools, given, k, pool);
        StrippedFirst(reserves, requests, pools, given, k, pool);
        if pool == [] {
          pools := pools[k := pool];
          TurnPassed(n, cfg, reserves, ordinary, novelty, given, requests, i, t);
        } else {
          Taken(n, cfg, reserves, ordinary, novelty, requests, pools, given, k, pool);
          TakenFirst(reserves, requests, pools, given, k, pool);
          TurnTaken(n, cfg, reserves, ordinary, novelty, given, requests, i, t, pool[0]);
          pools := pools[k := pool[1..]];
          given := given[pool[0] := k];
          remaining := remaining - 1;
          progress := true;
        }
      } else {
        TurnPassed(n, cfg, reserves, ordinary, novelty, given, requests, i, t);
      }
      i := i + 1;
    }
    stop := i;
  }

  lemma StrippedFirst(reserves: map<EdgeKey, map<int, real>>, requests: seq<EdgeKey>, pools: map<EdgeKey, seq<int>>, given: map<int, EdgeKey>,
                      k: EdgeKey, pool: seq<int>)
    requires StrongestFirst(reserves, requests, pools, given) && k in requests && k in pools
    requires exists m :: 0 <= m <= |pools[k]| && pool == pools[k][m..]
    ensures StrongestFirst(reserves, requests, pools[k := pool], given)
  {
    hide DriveBefore, Given;
    assert PoolFirst(Reserve(reserves, k), pools[k], Given(given, k));
    assert PoolFirst(Reserve(reserves, k), pool, Given(given, k));
  }

  lemma TakenFirst(reserves: map<EdgeKey, map<int, real>>, requests: seq<EdgeKey>, pools: map<EdgeKey, seq<int>>, given: map<int, EdgeKey>,
                   k: EdgeKey, pool: seq<int>)
    requires StrongestFirst(reserves, requests, pools[k := pool], given) && k in requests && pool != [] && pool[0] !in given
    ensures StrongestFirst(reserves, requests, pools[k := pool[1..]], given[pool[0] := k])
  {
    hide DriveBefore;
    var next := given[pool[0] := k];
    assert PoolFirst(Reserve(reserves, k), pools[k := pool][k], Given(given, k));
    assert Given(next, k) == Given(given, k) + {pool[0]};
    assert PoolFirst(Reserve(reserves, k), pool[1..], Given(next, k));
    forall x | x in requests && x in pools && x != k ensures PoolFirst(Reserve(reserves, x), pools[x], Given(next, x)) {
      assert PoolFirst(Reserve(reserves, x), pools[k := pool][x], Given(given, x));
      assert Given(next, x) == Given(given, x);
    }
  }

  /** A settled request lets its turn pass. */
  lemma TurnPassed(n: Net, cfg: Config, reserves: map<EdgeKey, map<int, real>>, ordinary: set<int>, novelty: real,
                   given: map<int, EdgeKey>, requests: seq<EdgeKey>, i: nat, t: nat)
    requires i < |requests| && InTurn(n, cfg, reserves, ordinary, novelty, given, requests, i, t)
    requires Settled(n, cfg, reserves, ordinary, novelty, given, requests[i])
    ensures InTurn(n, cfg, reserves, ordinary, novelty, given, requests, i + 1, t)
  {
    hide Given, Settled;
    forall j | 0 <= j < |requests|
      ensures Served(n, cfg, reserves, ordinary, novelty, given, requests[j], if j < i + 1 then t + 1 else t)
    {
      assert Served(n, cfg, reserves, ordinary, novelty, given, requests[j], if j < i then t + 1 else t);
    }
  }

  /** A request that takes a cell has been served once more; the others stay as they were. */
  lemma TurnTaken(n: Net, cfg: Config, reserves: map<EdgeKey, map<int, real>>, ordinary: set<int>, novelty: real,
                  given: map<int, EdgeKey>, requests: seq<EdgeKey>, i: nat, t: nat, c: int)
    requires i < |requests| && InTurn(n, cfg, reserves, ordinary, novelty, given, requests, i, t) && c !in given
    requires forall a, b | 0 <= a < b < |requests| :: requests[a] != requests[b]
    requires |Given(given, requests[i])| < Bound(n, cfg, reserves, ordinary, novelty, requests[i])
    requires c in Eligible(n, reserves, ordinary, requests[i])
    ensures InTurn(n, cfg, reserves, ordinary, novelty, given[c := requests[i]], requests, i + 1, t)
  {
    hide Given, Eligible, Bound;
    var next := given[c := requests[i]];
    GiveCell(given, c, requests[i]);
    forall j | 0 <= j < |requests|
      ensures Served(n, cfg, reserves, ordinary, novelty, next, requests[j], if j < i + 1 then t + 1 else t)
    {
      assert Served(n, cfg, reserves, ordinary, novelty, given, requests[j], if j < i then t + 1 else t);
      assert j != i ==> requests[j] != requests[i];
      assert j == i ==> |Given(given, requests[i])| == t;
    }
  }

  /** A request has a pool, and is settled once it holds its bound. */
  lemma RoundAt(n: Net, cfg: Config, reserves: map<EdgeKey, map<int, real>>, ordinary: set<int>, novelty: real,
                requests: seq<EdgeKey>, pools: map<EdgeKey, seq<int>>, given: map<int, EdgeKey>, k: EdgeKey)
    requires ExpansionOk(n, cfg, reserves, ordinary, novelty, requests, pools, given) && k in requests
    ensures k in pools
    ensures |Given(given, k)| >= Bound(n, cfg, reserves, ordinary, novelty, k) ==> Settled(n, cfg, reserves, ordinary, novelty, given, k)
  {
  }

  lemma Stripped(n: Net, cfg: Config, reserves: map<EdgeKey, map<int, real>>, ordinary: set<int>, novelty: real,
                 requests: seq<EdgeKey>, pools: map<EdgeKey, seq<int>>, given: map<int, EdgeKey>, k: EdgeKey, pool: seq<int>)
    requires ExpansionOk(n, cfg, reserves, ordinary, novelty, requests, pools, given) && k in requests
    requires forall c | c in pool :: c in pools[k]
    requires forall c | c in pools[k] :: c in pool || c in given
    ensures ExpansionOk(n, cfg, reserves, ordinary, novelty, requests, pools[k := pool], given)
    ensures pool == [] ==> Settled(n, cfg, reserves, ordinary, novelty, given, k)
  {
  }

  lemma Taken(n: Net, cfg: Config, reserves: map<EdgeKey, map<int, real>>, ordinary: set<int>, novelty: real,
              requests: seq<EdgeKey>, pools: map<EdgeKey, seq<int>>, given: map<int, EdgeKey>, k: EdgeKey, pool: seq<int>)
    requires ExpansionOk(n, cfg, reserves, ordinary, novelty, requests, pools[k := pool], given) && k in requests
    requires pool != [] && pool[0] !in given
    requires |Given(given, k)| < Bound(n, cfg, reserves, ordinary, novelty, k)
    ensures ExpansionOk(n, cfg, reserves, ordinary, novelty, requests, pools[k := pool[1..]], given[pool[0] := k])
    ensures |given[pool[0] := k]| == |given| + 1
    ensures pool[0] in Eligible(n, reserves, ordinary, k)
  {
    var next, less := given[pool[0] := k], pools[k := pool[1..]];
    GiveCell(given, pool[0], k);
    assert pool[0] in pools[k := pool][k];
    forall c | c in pool ensures c == pool[0] || c in pool[1..] {}
    forall x | x in requests ensures |Given(next, x)| <= Bound(n, cfg, reserves, ordinary, novelty, x) || Given(next, x) == {} {
      if Given(given, x) == {} && x != k { assert |Given(next, x)| == 0; }
    }
    forall x, c | x in requests && c in Eligible(n, reserves, ordinary, x) ensures c in less[x] || c in next {
      assert c in pools[k := pool][x] || c in given;
    }
    assert next.Keys == given.Keys + {pool[0]};
    assert |next| == |next.Keys| && |given| == |given.Keys|;
  }
}
