/**
  The default `take` guard that the Prisma client extension runs before every
  `findMany`, `findUnique` and `findFirst` (src/lib/prisma.ts).

  A query-argument object is a `QueryArgs` node whose fields the guard updates
  in place. Its `take` slot may be missing, hold `undefined`/`null`, or hold a
  number; `include` and `select` may be unset, a non-object value, or an
  object whose entries (in `Object.values` order) are booleans or nested
  argument nodes. Every other key is kept opaque in `rest`.
*/
module DefaultTake {
  import opened Optional

  // ---------------------------------------------------------------------
  // The configured default (`Number(process.env.DEFAULT_PRISMA_TAKE) || 10`)
  // ---------------------------------------------------------------------

  /** `configured` is the result of converting the environment variable:
      `None` when the conversion gives `NaN`. A result of `0` or `NaN` is
      falsy, so the default falls back to 10. */
  function DefaultPrismaTake(configured: Option<int>): (d: int)
    ensures d != 0
    ensures configured == Some(d) || (d == 10 && configured in {None, Some(0)})
  {
    match configured
    case Some(n) => if n != 0 then n else 10
    case None => 10
  }

  // ---------------------------------------------------------------------
  // Take slots and the two rewriting rules
  // ---------------------------------------------------------------------

  /** The value under a `take` key. */
  datatype TakeValue = Undefined | Null | Num(n: int)

  /** A `take` key and its value, or no such key at all. */
  datatype TakeSlot = Missing | Present(value: TakeValue)

  /** `!!obj.take`: a number other than 0. */
  predicate Truthy(t: TakeSlot)
  {
    t.Present? && t.value.Num? && t.value.n != 0
  }

  /** The top-level rule: `if (!args.take && 'take' in args) args.take = d`. */
  function TopLevelTake(t: TakeSlot, d: int): (r: TakeSlot)
    ensures Truthy(t) ==> r == t
    ensures t == Missing ==> r == Missing
    ensures t.Present? && !Truthy(t) ==> r == Present(Num(d))
  {
    if !Truthy(t) && t.Present? then Present(Num(d)) else t
  }

  /** The relation rule: `if (!relation.take) relation.take = d`, with no
      check that the key exists. */
  function RelationTake(t: TakeSlot, d: int): (r: TakeSlot)
    ensures Truthy(t) ==> r == t
    ensures !Truthy(t) ==> r == Present(Num(d))
  {
    if !Truthy(t) then Present(Num(d)) else t
  }

  /** A second pass of either rule changes nothing, whatever the default. */
  lemma TakeRulesIdempotent(t: TakeSlot, d: int)
    ensures TopLevelTake(TopLevelTake(t, d), d) == TopLevelTake(t, d)
    ensures RelationTake(RelationTake(t, d), d) == RelationTake(t, d)
    ensures TopLevelTake(RelationTake(t, d), d) == RelationTake(t, d)
  {
  }

  /** With the configured default, every slot the relation rule touches ends
      truthy, and so does every top-level slot that has a `take` key. */
  lemma DefaultMakesTruthy(t: TakeSlot, configured: Option<int>)
    ensures Truthy(RelationTake(t, DefaultPrismaTake(configured)))
    ensures t.Present? ==> Truthy(TopLevelTake(t, DefaultPrismaTake(configured)))
  {
  }

  /** A slot is a fixed point of a rule exactly when the rule would leave it
      alone: for the top-level rule, when it is truthy or missing; for the
      relation rule, when it is truthy or already holds a zero default. */
  lemma FixedPoints(t: TakeSlot, d: int)
    ensures TopLevelTake(t, d) == t <==> Truthy(t) || t == Missing || (d == 0 && t == Present(Num(0)))
    ensures RelationTake(t, d) == t <==> Truthy(t) || (d == 0 && t == Present(Num(0)))
  {
  }

  // ---------------------------------------------------------------------
  // Query-argument nodes
  // ---------------------------------------------------------------------

  /** One value of `Object.values(args.include)` or of `args.select`: a
      nested argument object, or any entry the guard skips because it is not
      an object. `Flag` stands for every such entry: a boolean, `undefined`,
      a number or a string. */
  datatype RelationValue = Flag(enabled: bool) | Nested(args: QueryArgs)

  datatype Relation = Relation(name: string, value: RelationValue)

  /** `args.include` or `args.select`: unset or falsy, some other non-object
      value, or an object with its entries in `Object.values` order. */
  datatype Selection = Unset | NonObject | Object(relations: seq<Relation>)

  class QueryArgs {
    var take: TakeSlot
    /** The `include` and `select` keys. */
    var includes: Selection
    var selects: Selection
    /** Every other key (`where`, `orderBy`, `skip`, ...), never touched. */
    var rest: map<string, string>

    constructor (take: TakeSlot, includes: Selection, selects: Selection, rest: map<string, string>)
      ensures this.take == take && this.includes == includes && this.selects == selects && this.rest == rest
    {
      this.take, this.includes, this.selects, this.rest := take, includes, selects, rest;
    }
  }

  /** The argument nodes among `rels`. */
  function NestedIn(rels: seq<Relation>): set<QueryArgs>
  {
    set i | 0 <= i < |rels| && rels[i].value.Nested? :: rels[i].value.args
  }

  /** The argument nodes the guard visits in one selection. */
  function Nodes(sel: Selection): set<QueryArgs>
  {
    if sel.Object? then NestedIn(sel.relations) else {}
  }

  /** The relation nodes of `args`, through `include` and `select`. */
  function Children(args: QueryArgs): set<QueryArgs>
    reads args
  {
    Nodes(args.includes) + Nodes(args.selects)
  }

  /** Nothing left for the guard to do on `args`: its own slot and those of
      its relation nodes are fixed points of their rules. */
  ghost predicate Settled(args: QueryArgs, d: int)
    reads args, Children(args)
  {
    && TopLevelTake(args.take, d) == args.take
    && forall n :: n in Children(args) ==> RelationTake(n.take, d) == n.take
  }

  lemma NestedInStep(rels: seq<Relation>, i: int)
    requires 0 <= i < |rels|
    ensures NestedIn(rels[..i + 1]) ==
      NestedIn(rels[..i]) + (if rels[i].value.Nested? then {rels[i].value.args} else {})
  {
    var a, b := rels[..i + 1], rels[..i];
    forall n | n in NestedIn(a) ensures n in NestedIn(b) || (rels[i].value.Nested? && n == rels[i].value.args) {
      var k :| 0 <= k < |a| && a[k].value.Nested? && a[k].value.args == n;
      if k < i {
        assert b[k] == a[k];
      }
    }
    forall n | n in NestedIn(b) ensures n in NestedIn(a) {
      var k :| 0 <= k < |b| && b[k].value.Nested? && b[k].value.args == n;
      assert a[k] == b[k];
    }
    if rels[i].value.Nested? {
      assert a[i] == rels[i];
    }
  }

  // ---------------------------------------------------------------------
  // The guard
  // ---------------------------------------------------------------------

  /** `Object.values(sel).forEach(relation => { if (typeof relation ===
      'object' && !relation.take) relation.take = d; })`, when `sel` is an
      object. A node reached twice is rewritten once: the rule is idempotent. */
  method DefaultRelationTakes(sel: Selection, d: int)
    modifies Nodes(sel)`take
    ensures forall n :: n in Nodes(sel) ==> n.take == RelationTake(old(n.take), d)
  {
    if sel.Object? {
      var rels := sel.relations;
      for i := 0 to |rels|
        invariant forall n :: n in Nodes(sel) ==>
          n.take == if n in NestedIn(rels[..i]) then RelationTake(old(n.take), d) else old(n.take)
      {
        NestedInStep(rels, i);
        if rels[i].value.Nested? {
          var node := rels[i].value.args;
          TakeRulesIdempotent(old(node.take), d);
          if !Truthy(node.take) {
            node.take := Present(Num(d));
          }
        }
      }
      assert rels[..|rels|] == rels;
    }
  }

  /** `applyDefaultTake` up to the `query(args)` call: the top-level rule on
      `args.take`, then the relation rule on every node of `include` and of
      `select`. Only `take` slots change. When `args` is among its own
      relation nodes, both rules reach its slot, in that order. */
  method ApplyDefaultTake(args: QueryArgs, d: int)
    modifies args`take, Children(args)`take
    ensures args.includes == old(args.includes) && args.selects == old(args.selects) && args.rest == old(args.rest)
    ensures args !in Children(args) ==> args.take == TopLevelTake(old(args.take), d)
    ensures args in Children(args) ==> args.take == RelationTake(TopLevelTake(old(args.take), d), d)
    ensures forall n :: n in Children(args) && n != args ==> n.take == RelationTake(old(n.take), d)
    ensures Settled(args, d)
    ensures old(Settled(args, d)) ==> args.take == old(args.take)
    ensures old(Settled(args, d)) ==> forall n :: n in Children(args) ==> n.take == old(n.take)
  {
    if !Truthy(args.take) && args.take.Present? {
      args.take := Present(Num(d));
    }
    ghost var top := args.take;
    DefaultRelationTakes(args.includes, d);
    DefaultRelationTakes(args.selects, d);
    TakeRulesIdempotent(old(args.take), d);
    forall n | n in Children(args) && n != args
      ensures n.take == RelationTake(old(n.take), d)
    {
      TakeRulesIdempotent(old(n.take), d);
    }
    TakeRulesIdempotent(top, d);
  }

  /** Running the guard twice leaves the arguments exactly as one run does:
      the first run leaves them `Settled`, and settled arguments pass
      through the second unchanged. */
  method ApplyTwiceUnchanged(args: QueryArgs, d: int)
    modifies args`take, Children(args)`take
    ensures args.includes == old(args.includes) && args.selects == old(args.selects) && args.rest == old(args.rest)
    ensures args !in Children(args) ==> args.take == TopLevelTake(old(args.take), d)
    ensures args in Children(args) ==> args.take == RelationTake(TopLevelTake(old(args.take), d), d)
    ensures forall n :: n in Children(args) && n != args ==> n.take == RelationTake(old(n.take), d)
  {
    ApplyDefaultTake(args, d);
    ghost var once := args.take;
    ghost var children := Children(args);
    ghost var onceTakes := map n | n in children :: n.take;
    ApplyDefaultTake(args, d);
    assert args.take == once;
    assert forall n :: n in children ==> n.take == onceTakes[n];
  }

  // ---------------------------------------------------------------------
  // Two worked cases
  // ---------------------------------------------------------------------

  /** `{take: undefined, include: {observations: {}}}` with default 10 becomes
      `{take: 10, include: {observations: {take: 10}}}`. */
  method UndefinedTakeExample() returns (args: QueryArgs, observations: QueryArgs)
    ensures args.take == Present(Num(10))
    ensures observations.take == Present(Num(10))
    ensures args.includes == Object([Relation("observations", Nested(observations))])
    ensures args.selects == Unset && args.rest == map[]
    ensures observations.includes == Unset && observations.selects == Unset && observations.rest == map[]
  {
    observations := new QueryArgs(Missing, Unset, Unset, map[]);
    var includes := Object([Relation("observations", Nested(observations))]);
    args := new QueryArgs(Present(Undefined), includes, Unset, map[]);
    assert includes.relations[0].value.args == observations;
    assert Nodes(includes) == {observations};
    ApplyDefaultTake(args, DefaultPrismaTake(None));
  }

  /** `{take: 50}` keeps its `take` of 50. */
  method TruthyTakeExample() returns (args: QueryArgs)
    ensures args.take == Present(Num(50))
  {
    args := new QueryArgs(Present(Num(50)), Unset, Unset, map[]);
    ApplyDefaultTake(args, DefaultPrismaTake(None));
  }
}
