/** Starting a mapping (service/proxy/runtime_lifecycle.go:364-450): a node that cannot be built, or whose
    outbound keeps the core from starting, is excluded and the mapping is planned again. */
module Retry {
  import opened Wrappers
  import opened Ids
  import opened GroupGraph
  import opened ConfigModel
  import opened TagCodec
  import opened ChainCompiler
  import opened Planner

  /** How the core answers a plan: it runs, it blames a node, or it fails for another reason. */
  datatype Start = Running | NodeBroke(node: Id) | Refused

  datatype Instance = Instance(plan: MappingPlan, balancers: map<Tag, seq<Slot>>)

  /** What the tables and the world say; the health blacklist and the core may answer differently each time. */
  datatype World = World(env: Env, broken: set<Id>, revive: seq<Id> -> seq<Id>, blacklist: nat -> set<Id>,
                         start: nat -> Start)

  ghost predicate Sensible(w: World) {
    && ApartIds(w.env) && Picks(w.revive) && w.broken <= w.env.db.nodes.Keys
    && forall k :: w.start(k).NodeBroke? ==> w.start(k).node in w.env.db.nodes
  }

  ghost predicate NoneDirect(excluded: set<Id>, slots: seq<Slot>) {
    forall n :: Plain(n) in slots ==> n !in excluded
  }

  lemma BalancersExclude(b: PlanBuilder, plans: map<Tag, seq<Slot>>)
    requires b.Memo(plans)
    ensures forall t :: t in plans ==> NoneDirect(b.excluded, plans[t])
  {
    forall t | t in plans
      ensures NoneDirect(b.excluded, plans[t])
    {
      assert b.PlanRight(GroupOfTag(t), plans[t]);
      PlainNodesContents(plans[t]);
    }
  }

  /** One attempt (runtime_lifecycle.go:425): a running instance, a node to blame, or neither. */
  method Attempt(w: World, m: Id, row: MappingRow, overrides: set<Id>, excluded: set<Id>, k: nat)
    returns (instance: Option<Instance>, blamed: Option<Id>)
    requires Sensible(w)
    ensures instance == None || blamed == None
    ensures blamed.Some? ==> blamed.value in w.env.db.nodes
    ensures instance.Some? ==>
              && NoneDirect(excluded, instance.value.plan.members)
              && forall t :: t in instance.value.balancers ==> NoneDirect(excluded, instance.value.balancers[t])
    ensures instance.Some? ==> !CycleReachable(GraphOf(w.env.db.groups), row.groupIds) && w.start(k) == Running
    ensures instance.Some? && row.manual && Explicit(row) && ChoiceIsClear(w.env, row) ==>
              RightChoice(w.env, row, excluded, instance.value.plan)
  {
    var b := new PlanBuilder(w.env, excluded, w.blacklist(k), w.broken, w.revive);
    var err, members := b.MappingMembers(m, row, overrides);
    if err != None {
      if err.value.NodeFails? {
        return None, Some(err.value.node);
      }
      return None, None;
    }
    BalancersExclude(b, b.plans);
    if row.manual && Explicit(row) && ChoiceIsClear(w.env, row) {
      b.FixedChoiceNeverFallsBack(m, row, overrides, members);
    }
    match w.start(k) {
      case NodeBroke(n) => return None, Some(n);
      case Refused => return None, None;
      case Running => return Some(Instance(FinalPlan(row, members), b.plans)), None;
    }
  }

  /** excludeRuntimeNode (runtime_lifecycle.go:364): a node is excluded once; blaming it again ends the loop. */
  method Exclude(blamed: Id, ids: set<Id>, records: seq<Id>) returns (ids': set<Id>, records': seq<Id>, again: bool)
    requires ids == SetOf(records) && Distinct(records)
    ensures again <==> blamed !in records
    ensures records' == if blamed in records then records else records + [blamed]
    ensures ids' == SetOf(records') && Distinct(records')
  {
    if blamed in ids {
      return ids, records, false;
    }
    return ids + {blamed}, records + [blamed], true;
  }

  /** createRuntimeMappingInstance (runtime_lifecycle.go:401). However the core answers, the loop ends after
      at most one attempt per node and one more; every exclusion is recorded once; and an instance that
      starts has no excluded node among the direct members of the mapping or of any of its groups. */
  method CreateInstance(w: World, m: Id, row: MappingRow, overrides: set<Id>)
    returns (instance: Option<Instance>, records: seq<Id>, attempts: nat)
    requires Sensible(w)
    ensures 1 <= attempts <= |w.env.db.nodes| + 1
    ensures Distinct(records) && SetOf(records) <= w.env.db.nodes.Keys
    ensures |records| <= attempts <= |records| + 1
    ensures instance.Some? ==>
              && attempts == |records| + 1
              && !CycleReachable(GraphOf(w.env.db.groups), row.groupIds)
              && NoneDirect(SetOf(records), instance.value.plan.members)
              && forall t :: t in instance.value.balancers ==> NoneDirect(SetOf(records), instance.value.balancers[t])
    ensures instance.Some? && row.manual && Explicit(row) && ChoiceIsClear(w.env, row) ==>
              RightChoice(w.env, row, SetOf(records), instance.value.plan)
  {
    var excluded: set<Id> := {};
    records, attempts := [], 0;
    while true
      invariant excluded == SetOf(records) <= w.env.db.nodes.Keys && Distinct(records)
      invariant attempts == |records| <= |w.env.db.nodes|
      decreases |w.env.db.nodes| - |records|
    {
      var blamed;
      instance, blamed := Attempt(w, m, row, overrides, excluded, attempts);
      attempts := attempts + 1;
      if blamed == None {
        DistinctFits(records, w.env.db.nodes.Keys);
        return;
      }
      var again;
      excluded, records, again := Exclude(blamed.value, excluded, records);
      DistinctFits(records, w.env.db.nodes.Keys);
      if !again {
        return None, records, attempts;
      }
    }
  }

  lemma {:induction false} DistinctFits(xs: seq<Id>, all: set<Id>)
    requires Distinct(xs) && SetOf(xs) <= all
    ensures |xs| <= |all|
    decreases |xs|
  {
    if xs != [] {
      assert xs[0] in SetOf(xs);
      forall x | x in xs[1..]
        ensures x in all - {xs[0]}
      {
        assert x in SetOf(xs);
      }
      DistinctFits(xs[1..], all - {xs[0]});
    }
  }
}
