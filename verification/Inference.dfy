/** The two schemas, supports and lineages. */
module Inference {
  // Bounded forward inference over one arena: the two schemas, the discovery of everything they
  // can conclude from a frozen snapshot, and the publication of the conclusions with their
  // lineages.

  import opened Options
  import opened Ordering

  /** Ground claims; a referent is an opaque id. */
  datatype Claim =
    | Atom(name: int)
    | Conditional(antecedent: Claim, consequent: Claim)
    | Relation(relation: int, left: int, right: int)
    | Transitive(relation: int)
    | OtherClaim(kind: int, mentions: set<int>)

  datatype Basis = FormalGiven | FormalAssumption | Derived | OtherBasis(kind: int)

  /** An assertion: its claim, how it is held, its scope and the roots it depends on. */
  datatype Ask = Ask(claim: Claim, basis: Basis, scope: int, roots: set<int>)

  datatype Schema = ModusPonens | Composition

  /** The producing context: branch and its roots, active constraints, and the schema itself. */
  datatype Context = Context(branch: nat, roots: set<int>, constraints: set<int>, schema: Schema)

  datatype DerivationKey = DerivationKey(conclusion: Ask, schema: Schema, roles: seq<Ask>)

  datatype Support = Source(occurrence: int) | Via(key: DerivationKey, context: Context)

  datatype Lineage = Lineage(key: DerivationKey, context: Context, ancestry: set<Ask>, supports: seq<Support>)
  {
    function Conclusion(): Ask { key.conclusion }
    function Roles(): seq<Ask> { key.roles }
  }

  datatype Arena = Arena(asserted: set<Ask>, sources: map<Ask, set<int>>, records: seq<Lineage>,
                         completed: set<(DerivationKey, Context)>, constraints: set<int>, premises: set<int>, contexts: seq<set<int>>)

  const EmptyArena := Arena({}, map[], [], {}, {}, {}, [])

  datatype Policy = Policy(maxAncestry: nat, maxFrontier: nat, maxAssertions: nat, maxSources: nat)

  // ----- the two schemas ----------------------------------------------------------------

  predicate FormalRule(a: Ask) { a.basis.FormalGiven? || a.basis.FormalAssumption? }

  function Arity(s: Schema): nat { if s.ModusPonens? then 2 else 3 }

  /** What a schema concludes from parents in role order, if they match. */
  function Concludes(s: Schema, parents: seq<Ask>): Option<Claim> {
    if |parents| != Arity(s) || !FormalRule(parents[0]) || (exists i :: 0 <= i < |parents| && parents[i].scope != parents[0].scope) then None
    else match s
      case ModusPonens =>
        (match parents[0].claim
         case Conditional(antecedent, consequent) => if antecedent == parents[1].claim then Some(consequent) else None
         case _ => None)
      case Composition =>
        var left, right := parents[1].claim, parents[2].claim;
        if !parents[0].claim.Transitive? || !left.Relation? || !right.Relation? then None
        else if parents[0].claim.relation != left.relation || left.relation != right.relation || left.right != right.left then None
        else Some(Relation(left.relation, left.left, right.right))
  }

  function AllRoots(parents: seq<Ask>): set<int> {
    set i, x | 0 <= i < |parents| && x in parents[i].roots :: x
  }

  /** The derived assertion: it depends on everything its parents depend on. */
  function DerivedAsk(claim: Claim, parents: seq<Ask>): Ask
    requires parents != []
  {
    Ask(claim, Derived, parents[0].scope, AllRoots(parents))
  }

  // ----- what the schemas mean ----------------------------------------------------------

  /**
   An inference step, without the matching: modus ponens takes a rule and its antecedent to the
   consequent, composition takes a transitive relation and two links that meet to the link
   across. The rule is formal, everything is in one scope, and the conclusion depends on what
   the parents depend on.
   */
  ghost predicate Instance(s: Schema, parents: seq<Ask>, conclusion: Ask) {
    && conclusion.basis == Derived
    && (forall i | 0 <= i < |parents| :: parents[i].scope == conclusion.scope)
    && (forall o :: o in conclusion.roots <==> exists i :: 0 <= i < |parents| && o in parents[i].roots)
    && match s
       case ModusPonens =>
         && |parents| == 2 && parents[0].basis in {FormalGiven, FormalAssumption}
         && parents[0].claim == Conditional(parents[1].claim, conclusion.claim)
       case Composition =>
         && |parents| == 3 && parents[0].basis in {FormalGiven, FormalAssumption}
         && exists r, x, y, z :: parents[0].claim == Transitive(r) && parents[1].claim == Relation(r, x, y)
                                 && parents[2].claim == Relation(r, y, z) && conclusion.claim == Relation(r, x, z)
  }

  /** The matching finds exactly the steps, and for each binding one conclusion. */
  lemma InstanceIff(s: Schema, parents: seq<Ask>, conclusion: Ask)
    ensures Instance(s, parents, conclusion)
       <==> Concludes(s, parents).Some? && conclusion == DerivedAsk(Concludes(s, parents).value, parents)
  {
    if Instance(s, parents, conclusion) {
      assert forall o :: o in conclusion.roots <==> o in AllRoots(parents);
      assert conclusion.roots == AllRoots(parents);
      if s.Composition? {
        var r, x, y, z :| parents[0].claim == Transitive(r) && parents[1].claim == Relation(r, x, y)
                          && parents[2].claim == Relation(r, y, z) && conclusion.claim == Relation(r, x, z);
        assert Concludes(s, parents) == Some(Relation(r, x, z));
      }
    }
    if Concludes(s, parents).Some? && conclusion == DerivedAsk(Concludes(s, parents).value, parents) {
      assert forall i | 0 <= i < |parents| :: parents[i].scope == parents[0].scope;
      if s.Composition? {
        var left, right := parents[1].claim, parents[2].claim;
        assert parents[0].claim == Transitive(left.relation) && left == Relation(left.relation, left.left, left.right)
               && right == Relation(left.relation, left.right, right.right);
      }
    }
  }

  /** A referent occurs in a claim. */
  ghost predicate Mentions(c: Claim, x: int) {
    match c
    case Atom(_) => false
    case Conditional(a, b) => Mentions(a, x) || Mentions(b, x)
    case Relation(r, y, z) => x == r || x == y || x == z
    case Transitive(r) => x == r
    case OtherClaim(_, mentions) => x in mentions
  }

  /** A step invents no referent: what its conclusion mentions one of its parents mentions. */
  lemma NoNewReferents(s: Schema, parents: seq<Ask>, conclusion: Ask, x: int)
    requires Instance(s, parents, conclusion) && Mentions(conclusion.claim, x)
    ensures exists i :: 0 <= i < |parents| && Mentions(parents[i].claim, x)
  {
    if s.ModusPonens? {
      assert Mentions(parents[0].claim, x);
    } else {
      assert Mentions(parents[1].claim, x) || Mentions(parents[2].claim, x);
    }
  }

  /** What holds in each scope. */
  type Reading = (int, Claim) -> bool

  /** Rules and transitivity mean in this reading what their names say. */
  ghost predicate Lawful(holds: Reading) {
    && (forall s, a, c :: holds(s, Conditional(a, c)) && holds(s, a) ==> holds(s, c))
    && forall s, r, x, y, z :: holds(s, Transitive(r)) && holds(s, Relation(r, x, y)) && holds(s, Relation(r, y, z)) ==> holds(s, Relation(r, x, z))
  }

  ghost predicate Holds(holds: Reading, x: Ask) { holds(x.scope, x.claim) }

  /** In every lawful reading in which the parents hold, the conclusion holds. */
  lemma StepSound(holds: Reading, s: Schema, parents: seq<Ask>, conclusion: Ask)
    requires Lawful(holds) && Instance(s, parents, conclusion) && forall i | 0 <= i < |parents| :: Holds(holds, parents[i])
    ensures Holds(holds, conclusion)
  {
    assert Holds(holds, parents[0]) && Holds(holds, parents[1]);
    if s.Composition? {
      var r, x, y, z :| parents[0].claim == Transitive(r) && parents[1].claim == Relation(r, x, y)
                        && parents[2].claim == Relation(r, y, z) && conclusion.claim == Relation(r, x, z);
      assert Holds(holds, parents[2]);
    }
  }

  function Elements(parents: seq<Ask>): set<Ask> { set i | 0 <= i < |parents| :: parents[i] }

  // ----- lineages -----------------------------------------------------------------------

  function Find(records: seq<Lineage>, key: DerivationKey, context: Context): Option<Lineage> {
    if records == [] then None
    else if records[|records| - 1].key == key && records[|records| - 1].context == context then Some(records[|records| - 1])
    else Find(records[..|records| - 1], key, context)
  }

  function AncestryOf(records: seq<Lineage>, s: Support): set<Ask> {
    match s
    case Source(_) => {}
    case Via(key, context) => match Find(records, key, context) case None => {} case Some(r) => r.ancestry
  }

  /** A parent is held by a source, or derived in the very context of the inference. */
  ghost predicate SupportOk(sources: map<Ask, set<int>>, records: seq<Lineage>, context: Context, parent: Ask, s: Support) {
    match s
    case Source(o) => !parent.basis.Derived? && parent in sources && o in sources[parent]
    case Via(key, c) =>
      parent.basis.Derived? && c == context && Find(records, key, c).Some? && Find(records, key, c).value.Conclusion() == parent
  }

  function SupportAncestry(records: seq<Lineage>, supports: seq<Support>): set<Ask> {
    set k, x | 0 <= k < |supports| && x in AncestryOf(records, supports[k]) :: x
  }

  /** A lineage over what was recorded before it. */
  ghost predicate LineageOk(sources: map<Ask, set<int>>, records: seq<Lineage>, r: Lineage) {
    && r.context.schema == r.key.schema
    && Concludes(r.key.schema, r.Roles()).Some?
    && r.Conclusion() == DerivedAsk(Concludes(r.key.schema, r.Roles()).value, r.Roles())
    && |r.supports| == |r.Roles()|
    && (forall k | 0 <= k < |r.supports| :: SupportOk(sources, records, r.context, r.Roles()[k], r.supports[k]))
    && r.ancestry == Elements(r.Roles()) + SupportAncestry(records, r.supports)
    && r.Conclusion() !in r.ancestry
    && Find(records, r.key, r.context).None?
  }

  ghost predicate RecordsOk(sources: map<Ask, set<int>>, records: seq<Lineage>) {
    records != [] ==> RecordsOk(sources, records[..|records| - 1]) && LineageOk(sources, records[..|records| - 1], records[|records| - 1])
  }

  ghost predicate HasRecord(records: seq<Lineage>, a: Ask) {
    exists i :: 0 <= i < |records| && records[i].Conclusion() == a
  }

  /** What a record concludes is admitted by its branch, and its use was not blocked there. */
  predicate InPlace(a: Arena, key: DerivationKey, context: Context) {
    key.conclusion.roots <= context.roots && (key, context) !in a.completed
  }

  ghost predicate ArenaOk(a: Arena) {
    && RecordsOk(a.sources, a.records)
    && (forall i | 0 <= i < |a.records| :: InPlace(a, a.records[i].key, a.records[i].context))
    && (forall x | x in a.sources :: a.sources[x] != {} && x in a.asserted && !x.basis.Derived?)
    && (forall i | 0 <= i < |a.records| :: a.records[i].Conclusion() in a.asserted)
    && forall x | x in a.asserted && x.basis.Derived? :: HasRecord(a.records, x)
  }

  lemma {:induction false} FindFinds(records: seq<Lineage>, key: DerivationKey, context: Context)
    ensures Find(records, key, context).Some? ==>
              var r := Find(records, key, context).value; r in records && r.key == key && r.context == context
    ensures Find(records, key, context).None? <==> forall i | 0 <= i < |records| :: !(records[i].key == key && records[i].context == context)
    decreases |records|
  {
    if records != [] { FindFinds(records[..|records| - 1], key, context); }
  }

  lemma FindSkips(records: seq<Lineage>, r: Lineage, key: DerivationKey, context: Context)
    requires r.key != key || r.context != context
    ensures Find(records + [r], key, context) == Find(records, key, context)
  {
    assert (records + [r])[..|records|] == records;
  }

  /** A record leads back to itself: no key and context is recorded twice. */
  lemma {:induction false} FindSelf(sources: map<Ask, set<int>>, records: seq<Lineage>, i: nat)
    requires RecordsOk(sources, records) && i < |records|
    ensures Find(records, records[i].key, records[i].context) == Some(records[i])
    decreases |records|
  {
    var last := |records| - 1;
    if i < last {
      FindSelf(sources, records[..last], i);
      assert records[..last][i] == records[i];
      FindFinds(records[..last], records[last].key, records[last].context);
    }
  }

  // ----- soundness ----------------------------------------------------------------------

  /** In every lawful reading in which the sources hold, every recorded conclusion holds. */
  lemma {:induction false} RecordHolds(holds: Reading, sources: map<Ask, set<int>>, records: seq<Lineage>, i: nat)
    requires Lawful(holds) && (forall x | x in sources :: Holds(holds, x)) && RecordsOk(sources, records) && i < |records|
    ensures Holds(holds, records[i].Conclusion())
    decreases |records|
  {
    hide Lawful, Concludes, Holds;
    var init, r := records[..|records| - 1], records[|records| - 1];
    if i < |init| {
      assert init[i] == records[i];
      RecordHolds(holds, sources, init, i);
    } else {
      forall k | 0 <= k < |r.Roles()| ensures Holds(holds, r.Roles()[k]) {
        assert SupportOk(sources, init, r.context, r.Roles()[k], r.supports[k]);
        if r.supports[k].Via? {
          FindFinds(init, r.supports[k].key, r.supports[k].context);
          var j :| 0 <= j < |init| && init[j] == Find(init, r.supports[k].key, r.supports[k].context).value;
          RecordHolds(holds, sources, init, j);
        }
      }
      InstanceIff(r.key.schema, r.Roles(), r.Conclusion());
      StepSound(holds, r.key.schema, r.Roles(), r.Conclusion());
    }
  }

  /** Whatever holds of the sources of an arena holds of everything it has derived. */
  lemma ArenaSound(a: Arena, holds: Reading, x: Ask)
    requires ArenaOk(a) && Lawful(holds) && (forall o | o in a.sources :: Holds(holds, o))
    requires x in a.asserted && x.basis.Derived?
    ensures Holds(holds, x)
  {
    hide RecordsOk, Lawful, Holds, InPlace;
    var i :| 0 <= i < |a.records| && a.records[i].Conclusion() == x;
    RecordHolds(holds, a.sources, a.records, i);
  }

  // ----- growth -------------------------------------------------------------------------

  predicate MoreSources(sources: map<Ask, set<int>>, more: map<Ask, set<int>>) {
    forall a | a in sources :: a in more && sources[a] <= more[a]
  }

  lemma {:induction false} MoreSourcesOk(sources: map<Ask, set<int>>, more: map<Ask, set<int>>, records: seq<Lineage>)
    requires RecordsOk(sources, records) && MoreSources(sources, more)
    ensures RecordsOk(more, records)
    decreases |records|
  {
    if records != [] {
      var init, last := records[..|records| - 1], records[|records| - 1];
      MoreSourcesOk(sources, more, init);
      forall k | 0 <= k < |last.supports| ensures SupportOk(more, init, last.context, last.Roles()[k], last.supports[k]) {
        assert SupportOk(sources, init, last.context, last.Roles()[k], last.supports[k]);
      }
    }
  }

  /** Adding a record leaves every earlier support where it was. */
  lemma SupportStays(sources: map<Ask, set<int>>, records: seq<Lineage>, r: Lineage, context: Context, parent: Ask, s: Support)
    requires SupportOk(sources, records, context, parent, s) && Find(records, r.key, r.context).None?
    ensures SupportOk(sources, records + [r], context, parent, s) && AncestryOf(records + [r], s) == AncestryOf(records, s)
  {
    if s.Via? { FindSkips(records, r, s.key, s.context); }
  }

  // ----- candidates ---------------------------------------------------------------------

  /** A candidate: what would be recorded, with the ancestry each parent brings. */
  datatype Candidate = Candidate(key: DerivationKey, context: Context, supports: seq<Support>, ancestors: seq<set<Ask>>)

  function CandidateAncestry(c: Candidate): set<Ask> {
    Elements(c.key.roles) + set k, x | 0 <= k < |c.ancestors| && x in c.ancestors[k] :: x
  }

  /** The context of a branch and a schema in a snapshot. */
  function ContextOf(a: Arena, branch: nat, s: Schema): Context
    requires branch < |a.contexts|
  {
    Context(branch, a.contexts[branch], a.constraints, s)
  }

  /** Assertions admitted by a branch: it assumes everything they depend on. */
  function Pool(a: Arena, branch: nat): set<Ask>
    requires branch < |a.contexts|
  {
    set x | x in a.asserted && x.roots <= a.contexts[branch]
  }

  /** Records a derived parent may rest on here: same context, and the conclusion is not among their ancestors. */
  function Paths(a: Arena, context: Context, conclusion: Ask, parent: Ask): set<Lineage> {
    set i | 0 <= i < |a.records| && a.records[i].Conclusion() == parent && a.records[i].context == context
            && conclusion !in a.records[i].ancestry :: a.records[i]
  }

  /** Whether a parent has a witness for this conclusion. */
  predicate Witnessed(a: Arena, context: Context, conclusion: Ask, parent: Ask) {
    && parent != conclusion
    && if parent.basis.Derived? then Paths(a, context, conclusion, parent) != {}
       else parent in a.sources && a.sources[parent] != {}
  }

  ghost predicate WitnessOk(a: Arena, context: Context, conclusion: Ask, parent: Ask, s: Support, ancestors: set<Ask>) {
    && parent != conclusion && conclusion !in ancestors
    && SupportOk(a.sources, a.records, context, parent, s)
    && ancestors == AncestryOf(a.records, s)
  }

  /** The support is the least eligible one: the first occurrence of a source, or the least usable record. */
  ghost predicate LeastWitness(a: Arena, context: Context, conclusion: Ask, parent: Ask, le: (Lineage, Lineage) -> bool, s: Support) {
    if parent.basis.Derived? then
      exists r :: r in Paths(a, context, conclusion, parent) && s == Via(r.key, context) && forall o | o in Paths(a, context, conclusion, parent) :: le(r, o)
    else parent in a.sources && s.Source? && s.occurrence in a.sources[parent] && forall o | o in a.sources[parent] :: s.occurrence <= o
  }

  /** The least eligible support under the given order of records. */
  method ParentWitness(a: Arena, context: Context, conclusion: Ask, parent: Ask, le: (Lineage, Lineage) -> bool)
    returns (r: Option<(Support, set<Ask>)>)
    requires ArenaOk(a) && TotalPreorder(le)
    ensures r.Some? <==> Witnessed(a, context, conclusion, parent)
    ensures r.Some? ==> WitnessOk(a, context, conclusion, parent, r.value.0, r.value.1) && LeastWitness(a, context, conclusion, parent, le, r.value.0)
  {
    hide TotalPreorder, RecordsOk;
    if parent == conclusion { return None; }
    if !parent.basis.Derived? {
      if parent !in a.sources || a.sources[parent] == {} { return None; }
      var o := Least(a.sources[parent], (x, y) => x <= y) by { IntOrder(); }
      return Some((Source(o), {}));
    }
    var paths := Paths(a, context, conclusion, parent);
    if paths == {} { return None; }
    var record := Least(paths, le);
    PathSupports(a, context, conclusion, parent, record);
    return Some((Via(record.key, context), record.ancestry));
  }

  lemma IntOrder()
    ensures TotalPreorder((x: int, y: int) => x <= y)
  {
  }

  lemma PathSupports(a: Arena, context: Context, conclusion: Ask, parent: Ask, r: Lineage)
    requires ArenaOk(a) && r in Paths(a, context, conclusion, parent) && parent.basis.Derived? && parent != conclusion
    ensures WitnessOk(a, context, conclusion, parent, Via(r.key, context), r.ancestry)
  {
    var i :| 0 <= i < |a.records| && a.records[i] == r;
    FindSelf(a.sources, a.records, i);
  }
}
