/**
  The depth and alias limits on GraphQL operations: one fused walk over the
  selection tree (queryLimits and walkSelectionSet of
  internal/http_handlers/graphql.go).
 */
module QueryLimits {
  import opened Text

  /** A spread points at its fragment definition, or at nothing. */
  datatype Selection =
    | Field(alias: Str, name: Str, selections: seq<Selection>)
    | Inline(selections: seq<Selection>)
    | Spread(definition: Option<Str>)

  type Definitions = map<Str, seq<Selection>>
  type Rank = map<Str, nat>

  predicate IsAliased(f: Selection)
    requires f.Field?
  {
    f.alias != [] && f.alias != f.name
  }

  /** Every spread below leads to a definition of smaller rank. */
  ghost predicate Below(defs: Definitions, rank: Rank, r: nat, set_: seq<Selection>)
    decreases set_
  {
    set_ == [] || (BelowOne(defs, rank, r, set_[0]) && Below(defs, rank, r, set_[1..]))
  }

  ghost predicate BelowOne(defs: Definitions, rank: Rank, r: nat, sel: Selection)
    decreases sel
  {
    match sel
    case Field(_, _, sub) => Below(defs, rank, r, sub)
    case Inline(sub) => Below(defs, rank, r, sub)
    case Spread(Some(n)) => n in defs && n in rank && rank[n] < r
    case Spread(None) => true
  }

  /** No fragment leads back to itself: validated operations are ranked this way. */
  ghost predicate Acyclic(defs: Definitions, rank: Rank) {
    forall n :: n in defs ==> n in rank && Below(defs, rank, rank[n], defs[n])
  }

  // ---------------------------------------------------------------- the fully expanded tree

  /** Fields only: whether each is aliased, and what it selects. */
  datatype Tree = Node(aliased: bool, children: seq<Tree>)

  ghost function Expand(defs: Definitions, rank: Rank, r: nat, set_: seq<Selection>): seq<Tree>
    requires Acyclic(defs, rank) && Below(defs, rank, r, set_)
    decreases r, set_
  {
    if set_ == [] then [] else ExpandOne(defs, rank, r, set_[0]) + Expand(defs, rank, r, set_[1..])
  }

  /** The trees one selection stands for. */
  ghost function ExpandOne(defs: Definitions, rank: Rank, r: nat, sel: Selection): seq<Tree>
    requires Acyclic(defs, rank) && BelowOne(defs, rank, r, sel)
    decreases r, sel
  {
    match sel
    case Field(_, _, sub) => [Node(IsAliased(sel), Expand(defs, rank, r, sub))]
    case Inline(sub) => Expand(defs, rank, r, sub)
    case Spread(Some(n)) => Expand(defs, rank, rank[n], defs[n])
    case Spread(None) => []
  }

  function Max(a: nat, b: nat): nat { if a < b then b else a }

  function Depth(forest: seq<Tree>): nat {
    if forest == [] then 0 else Max(1 + Depth(forest[0].children), Depth(forest[1..]))
  }

  function Aliases(forest: seq<Tree>): nat {
    if forest == [] then 0
    else (if forest[0].aliased then 1 else 0) + Aliases(forest[0].children) + Aliases(forest[1..])
  }

  lemma {:induction false} ForestAppend(a: seq<Tree>, b: seq<Tree>)
    ensures Depth(a + b) == Max(Depth(a), Depth(b))
    ensures Aliases(a + b) == Aliases(a) + Aliases(b)
  {
    if a == [] {
      assert a + b == b;
    } else {
      assert (a + b)[1..] == a[1..] + b;
      ForestAppend(a[1..], b);
    }
  }

  // ---------------------------------------------------------------- what depth and alias count mean

  /** A way down the forest: which tree, then which child, and so on. */
  ghost predicate IsPath(forest: seq<Tree>, p: seq<nat>)
    decreases |p|
  {
    p == [] || (p[0] < |forest| && IsPath(forest[p[0]].children, p[1..]))
  }

  lemma {:induction false} NoDeeperPath(forest: seq<Tree>, p: seq<nat>)
    requires IsPath(forest, p)
    ensures |p| <= Depth(forest)
    decreases |p|
  {
    if p != [] {
      NoDeeperPath(forest[p[0]].children, p[1..]);
      TreeBound(forest, p[0]);
    }
  }

  lemma {:induction false} TreeBound(forest: seq<Tree>, i: nat)
    requires i < |forest|
    ensures 1 + Depth(forest[i].children) <= Depth(forest)
  {
    if i > 0 {
      TreeBound(forest[1..], i - 1);
    }
  }

  lemma {:induction false} DeepestPath(forest: seq<Tree>) returns (p: seq<nat>)
    ensures IsPath(forest, p) && |p| == Depth(forest)
  {
    if forest == [] {
      p := [];
    } else if Depth(forest) == 1 + Depth(forest[0].children) {
      var q := DeepestPath(forest[0].children);
      p := [0] + q;
    } else {
      var q := DeepestPath(forest[1..]);
      p := [q[0] + 1] + q[1..];
    }
  }

  ghost function Under(p: seq<nat>): seq<nat> { [0] + p }

  ghost function Beside(p: seq<nat>): seq<nat> { if p == [] then [] else [p[0] + 1] + p[1..] }

  ghost function Image(s: set<seq<nat>>, f: seq<nat> -> seq<nat>): set<seq<nat>> {
    set p | p in s :: f(p)
  }

  /** The positions of the aliased fields, each named by the way down to it. */
  ghost function AliasPositions(forest: seq<Tree>): set<seq<nat>> {
    if forest == [] then {} else
      (if forest[0].aliased then {[0]} else {})
      + Image(AliasPositions(forest[0].children), Under)
      + Image(AliasPositions(forest[1..]), Beside)
  }

  /** The field a way down ends at is there, and aliased. */
  ghost predicate AliasedAt(forest: seq<Tree>, p: seq<nat>)
    decreases |p|
  {
    && p != [] && p[0] < |forest|
    && if |p| == 1 then forest[p[0]].aliased else AliasedAt(forest[p[0]].children, p[1..])
  }

  lemma {:induction false} PositionsSound(forest: seq<Tree>, p: seq<nat>)
    requires p in AliasPositions(forest)
    ensures AliasedAt(forest, p)
    decreases forest
  {
    if p in Image(AliasPositions(forest[0].children), Under) {
      var q :| q in AliasPositions(forest[0].children) && p == Under(q);
      PositionsSound(forest[0].children, q);
    } else if p in Image(AliasPositions(forest[1..]), Beside) {
      var q :| q in AliasPositions(forest[1..]) && p == Beside(q);
      PositionsSound(forest[1..], q);
    }
  }

  lemma {:induction false} PositionsComplete(forest: seq<Tree>, p: seq<nat>)
    requires AliasedAt(forest, p)
    ensures p in AliasPositions(forest)
    decreases forest
  {
    if p[0] > 0 {
      var q := [p[0] - 1] + p[1..];
      PositionsComplete(forest[1..], q);
      assert p == Beside(q);
    } else if |p| > 1 {
      PositionsComplete(forest[0].children, p[1..]);
      assert p == Under(p[1..]);
    } else {
      assert p == [0];
    }
  }

  lemma {:induction false} ImageSize(s: set<seq<nat>>, f: seq<nat> -> seq<nat>)
    requires forall p, q :: p in s && q in s && f(p) == f(q) ==> p == q
    ensures |Image(s, f)| == |s|
  {
    if s != {} {
      var x :| x in s;
      ImageSize(s - {x}, f);
      assert Image(s, f) == Image(s - {x}, f) + {f(x)};
    }
  }

  lemma UnderSize(s: set<seq<nat>>)
    requires [] !in s
    ensures |Image(s, Under)| == |s| && forall p :: p in Image(s, Under) ==> |p| > 1 && p[0] == 0
  {
    forall p
      ensures Under(p)[1..] == p
    {
    }
    ImageSize(s, Under);
  }

  lemma BesideSize(s: set<seq<nat>>)
    requires [] !in s
    ensures |Image(s, Beside)| == |s| && forall p :: p in Image(s, Beside) ==> p != [] && p[0] > 0
  {
    forall p, q | p in s && q in s && Beside(p) == Beside(q)
      ensures p == q
    {
      assert Beside(p)[0] == p[0] + 1 && Beside(p)[1..] == p[1..] && p == [p[0]] + p[1..];
    }
    ImageSize(s, Beside);
  }

  lemma NoEmptyPosition(forest: seq<Tree>)
    ensures [] !in AliasPositions(forest)
  {
  }

  lemma {:induction false} CountPositions(forest: seq<Tree>)
    ensures |AliasPositions(forest)| == Aliases(forest)
  {
    if forest != [] {
      var here: set<seq<nat>> := if forest[0].aliased then {[0]} else {};
      var below, beside := AliasPositions(forest[0].children), AliasPositions(forest[1..]);
      CountPositions(forest[0].children);
      CountPositions(forest[1..]);
      NoEmptyPosition(forest[0].children);
      NoEmptyPosition(forest[1..]);
      UnderSize(below);
      BesideSize(beside);
      DisjointSizes(here, Image(below, Under), Image(beside, Beside));
    }
  }

  lemma DisjointSizes(a: set<seq<nat>>, b: set<seq<nat>>, c: set<seq<nat>>)
    requires a !! b && a !! c && b !! c
    ensures |a + b + c| == |a| + |b| + |c|
  {
  }

  /** Depth is the length of the longest way down, and the alias count is the number of aliased fields there are. */
  lemma LimitsMeaning(forest: seq<Tree>)
    ensures forall p :: IsPath(forest, p) ==> |p| <= Depth(forest)
    ensures exists p :: IsPath(forest, p) && |p| == Depth(forest)
    ensures forall p :: p in AliasPositions(forest) <==> AliasedAt(forest, p)
    ensures |AliasPositions(forest)| == Aliases(forest)
  {
    forall p | IsPath(forest, p)
      ensures |p| <= Depth(forest)
    {
      NoDeeperPath(forest, p);
    }
    var _ := DeepestPath(forest);
    forall p
      ensures p in AliasPositions(forest) <==> AliasedAt(forest, p)
    {
      if p in AliasPositions(forest) {
        PositionsSound(forest, p);
      } else if AliasedAt(forest, p) {
        PositionsComplete(forest, p);
      }
    }
    CountPositions(forest);
  }

  // ---------------------------------------------------------------- the fused walk

  lemma {:induction false} BelowAt(defs: Definitions, rank: Rank, r: nat, set_: seq<Selection>, i: nat)
    requires Below(defs, rank, r, set_) && i < |set_|
    ensures Below(defs, rank, r, set_[..i]) && Below(defs, rank, r, set_[..i + 1]) && BelowOne(defs, rank, r, set_[i])
  {
    if i > 0 {
      BelowAt(defs, rank, r, set_[1..], i - 1);
      assert set_[1..][..i - 1] == set_[..i][1..] && set_[1..][..i] == set_[..i + 1][1..];
    }
  }

  lemma {:induction false} ExpandSnoc(defs: Definitions, rank: Rank, r: nat, set_: seq<Selection>, i: nat)
    requires Acyclic(defs, rank) && i < |set_| && Below(defs, rank, r, set_)
    requires Below(defs, rank, r, set_[..i]) && Below(defs, rank, r, set_[..i + 1]) && BelowOne(defs, rank, r, set_[i])
    ensures Expand(defs, rank, r, set_[..i + 1]) ==
            Expand(defs, rank, r, set_[..i]) + ExpandOne(defs, rank, r, set_[i])
  {
    if i > 0 {
      assert set_[1..][..i - 1] == set_[..i][1..] && set_[1..][..i] == set_[..i + 1][1..];
      ExpandSnoc(defs, rank, r, set_[1..], i - 1);
    }
  }

  /** One more selection: its depth competes with the depth so far, its aliases add up. */
  lemma MeasureSnoc(defs: Definitions, rank: Rank, r: nat, set_: seq<Selection>, i: nat)
    requires Acyclic(defs, rank) && i < |set_| && Below(defs, rank, r, set_)
    ensures Below(defs, rank, r, set_[..i]) && Below(defs, rank, r, set_[..i + 1]) && BelowOne(defs, rank, r, set_[i])
    ensures var before, one := Expand(defs, rank, r, set_[..i]), ExpandOne(defs, rank, r, set_[i]);
            && Depth(Expand(defs, rank, r, set_[..i + 1])) == Max(Depth(before), Depth(one))
            && Aliases(Expand(defs, rank, r, set_[..i + 1])) == Aliases(before) + Aliases(one)
  {
    BelowAt(defs, rank, r, set_, i);
    ExpandSnoc(defs, rank, r, set_, i);
    ForestAppend(Expand(defs, rank, r, set_[..i]), ExpandOne(defs, rank, r, set_[i]));
  }

  lemma MeasureOne(defs: Definitions, rank: Rank, r: nat, sel: Selection)
    requires Acyclic(defs, rank) && BelowOne(defs, rank, r, sel)
    ensures sel.Field? ==>
              var one, sub := ExpandOne(defs, rank, r, sel), Expand(defs, rank, r, sel.selections);
              && Depth(one) == 1 + Depth(sub)
              && Aliases(one) == (if IsAliased(sel) then 1 else 0) + Aliases(sub)
  {
  }

  /** walkSelectionSet: both measures of the fully expanded tree, in one pass. */
  method WalkSelectionSet(defs: Definitions, ghost rank: Rank, ghost r: nat, set_: seq<Selection>)
    returns (depth: nat, aliases: nat)
    requires Acyclic(defs, rank) && Below(defs, rank, r, set_)
    ensures depth == Depth(Expand(defs, rank, r, set_))
    ensures aliases == Aliases(Expand(defs, rank, r, set_))
    decreases r, set_
  {
    depth, aliases := 0, 0;
    for i := 0 to |set_|
      invariant Below(defs, rank, r, set_[..i])
      invariant depth == Depth(Expand(defs, rank, r, set_[..i]))
      invariant aliases == Aliases(Expand(defs, rank, r, set_[..i]))
    {
      MeasureSnoc(defs, rank, r, set_, i);
      var sel := set_[i];
      MeasureOne(defs, rank, r, sel);
      match sel {
        case Field(_, _, sub) =>
          if IsAliased(sel) {
            aliases := aliases + 1;
          }
          var childDepth, childAliases := WalkSelectionSet(defs, rank, r, sub);
          aliases := aliases + childAliases;
          if 1 + childDepth > depth {
            depth := 1 + childDepth;
          }
        case Inline(sub) =>
          var childDepth, childAliases := WalkSelectionSet(defs, rank, r, sub);
          aliases := aliases + childAliases;
          if childDepth > depth {
            depth := childDepth;
          }
        case Spread(Some(n)) =>
          var childDepth, childAliases := WalkSelectionSet(defs, rank, rank[n], defs[n]);
          aliases := aliases + childAliases;
          if childDepth > depth {
            depth := childDepth;
          }
        case Spread(None) =>
      }
    }
    assert set_[..|set_|] == set_;
  }

  // ---------------------------------------------------------------- fragments leave no trace

  /** Every inline fragment and every spread replaced by its contents. */
  ghost function Inlined(defs: Definitions, rank: Rank, r: nat, set_: seq<Selection>): seq<Selection>
    requires Acyclic(defs, rank) && Below(defs, rank, r, set_)
    decreases r, set_
  {
    if set_ == [] then [] else InlinedOne(defs, rank, r, set_[0]) + Inlined(defs, rank, r, set_[1..])
  }

  ghost function InlinedOne(defs: Definitions, rank: Rank, r: nat, sel: Selection): seq<Selection>
    requires Acyclic(defs, rank) && BelowOne(defs, rank, r, sel)
    decreases r, sel
  {
    match sel
    case Field(alias, name, sub) => [Field(alias, name, Inlined(defs, rank, r, sub))]
    case Inline(sub) => Inlined(defs, rank, r, sub)
    case Spread(Some(n)) => Inlined(defs, rank, rank[n], defs[n])
    case Spread(None) => []
  }

  ghost predicate FieldsOnly(set_: seq<Selection>) {
    set_ == [] || (set_[0].Field? && FieldsOnly(set_[0].selections) && FieldsOnly(set_[1..]))
  }

  lemma {:induction false} FieldsOnlyAppend(a: seq<Selection>, b: seq<Selection>)
    requires FieldsOnly(a) && FieldsOnly(b)
    ensures FieldsOnly(a + b)
  {
    if a == [] {
      assert a + b == b;
    } else {
      assert (a + b)[1..] == a[1..] + b;
      FieldsOnlyAppend(a[1..], b);
    }
  }

  lemma {:induction false} ExpandAppend(defs: Definitions, rank: Rank, r: nat, a: seq<Selection>, b: seq<Selection>)
    requires Acyclic(defs, rank) && Below(defs, rank, r, a) && Below(defs, rank, r, b)
    ensures Below(defs, rank, r, a + b)
    ensures Expand(defs, rank, r, a + b) == Expand(defs, rank, r, a) + Expand(defs, rank, r, b)
    decreases |a|
  {
    if a == [] {
      assert a + b == b;
    } else {
      assert (a + b)[1..] == a[1..] + b;
      ExpandAppend(defs, rank, r, a[1..], b);
    }
  }

  /** The operation without fragments expands to the same tree, so the walk reports the same two numbers. */
  lemma {:induction false} InliningUnseen(defs: Definitions, rank: Rank, r: nat, set_: seq<Selection>)
    requires Acyclic(defs, rank) && Below(defs, rank, r, set_)
    ensures var flat := Inlined(defs, rank, r, set_);
            FieldsOnly(flat) && Below(defs, rank, 0, flat)
            && Expand(defs, rank, 0, flat) == Expand(defs, rank, r, set_)
    decreases r, set_
  {
    if set_ != [] {
      InliningOneUnseen(defs, rank, r, set_[0]);
      InliningUnseen(defs, rank, r, set_[1..]);
      FieldsOnlyAppend(InlinedOne(defs, rank, r, set_[0]), Inlined(defs, rank, r, set_[1..]));
      ExpandAppend(defs, rank, 0, InlinedOne(defs, rank, r, set_[0]), Inlined(defs, rank, r, set_[1..]));
    }
  }

  lemma {:induction false} InliningOneUnseen(defs: Definitions, rank: Rank, r: nat, sel: Selection)
    requires Acyclic(defs, rank) && BelowOne(defs, rank, r, sel)
    ensures var flat := InlinedOne(defs, rank, r, sel);
            FieldsOnly(flat) && Below(defs, rank, 0, flat)
            && Expand(defs, rank, 0, flat) == ExpandOne(defs, rank, r, sel)
    decreases r, sel
  {
    match sel
    case Field(alias, name, sub) =>
      InliningUnseen(defs, rank, r, sub);
      var f := Field(alias, name, Inlined(defs, rank, r, sub));
      assert BelowOne(defs, rank, 0, f) && Below(defs, rank, 0, [f]);
    case Inline(sub) => InliningUnseen(defs, rank, r, sub);
    case Spread(Some(n)) => InliningUnseen(defs, rank, rank[n], defs[n]);
    case Spread(None) =>
  }

  // ---------------------------------------------------------------- the limits

  datatype Limits = Limits(maxDepth: int, maxAliases: int, maxComplexity: int)

  datatype Verdict = Accepted | TooDeep(depth: nat) | TooManyAliases(count: nat) | TooComplex(score: int)

  /**
    MutateOperationContext. A limit of zero or less is switched off; `score` is
    the complexity gqlgen computes, absent when no schema was supplied.
   */
  method MutateOperationContext(limits: Limits, defs: Definitions, ghost rank: Rank, ghost r: nat,
                                operation: Option<seq<Selection>>, score: Option<int>) returns (v: Verdict)
    requires Acyclic(defs, rank) && (operation.Some? ==> Below(defs, rank, r, operation.value))
    ensures v.Accepted? <==>
            (operation.Some? ==>
               var forest := Expand(defs, rank, r, operation.value);
               && (limits.maxDepth > 0 ==> Depth(forest) <= limits.maxDepth)
               && (limits.maxAliases > 0 ==> Aliases(forest) <= limits.maxAliases)
               && (limits.maxComplexity > 0 && score.Some? ==> score.value <= limits.maxComplexity))
    ensures v.TooDeep? ==> v.depth == Depth(Expand(defs, rank, r, operation.value)) && v.depth > limits.maxDepth > 0
    ensures v.TooManyAliases? ==>
              v.count == Aliases(Expand(defs, rank, r, operation.value)) && v.count > limits.maxAliases > 0
    ensures v.TooComplex? ==> Some(v.score) == score && v.score > limits.maxComplexity > 0
  {
    if operation.None? {
      return Accepted;
    }
    if limits.maxDepth > 0 || limits.maxAliases > 0 {
      var depth, aliases := WalkSelectionSet(defs, rank, r, operation.value);
      if limits.maxDepth > 0 && depth > limits.maxDepth {
        return TooDeep(depth);
      }
      if limits.maxAliases > 0 && aliases > limits.maxAliases {
        return TooManyAliases(aliases);
      }
    }
    if limits.maxComplexity > 0 && score.Some? {
      if score.value > limits.maxComplexity {
        return TooComplex(score.value);
      }
    }
    return Accepted;
  }
}
