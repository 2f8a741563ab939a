/**
 * The server's `update_filters` handler: one pass over the client's filter
 * list that skips disabled and empty filters, turns a `Limit` expression
 * into the point limit, resolves every other filter's element type and
 * attribute, and builds one mask set per resolved filter; then the reply
 * `filterGraphByMaskList` sends once the masks have been applied.
 *
 * The dataframe and the expression evaluator are not part of this model:
 * what the pass asks of them is carried by a `Dataframe` value of functions.
 */
module FilterPass {
  import opened JsValue
  import opened QueryAst

  /** `masks.numPoints()` and `masks.numEdges()`, recorded on the filter for the UI. */
  datatype MaskSizes = MaskSizes(point: nat, edge: nat)

  /**
   * A filter as the client sends it; a field the object does not carry is
   * `Undefined` (None for the query and the mask sizes).
   */
  datatype Filter = Filter(enabled: JsValue, query: Option<Query>, kind: JsValue, attribute: JsValue,
                           maskSizes: Option<MaskSizes>)

  /** `normalizeAttributeName`'s answer: the element type and the attribute name. */
  datatype Normalization = Normalization(kind: JsValue, attribute: JsValue)

  /** A mask set: built for one element type from one attribute and one query. */
  datatype MaskSet = MaskSet(kind: string, attribute: JsValue, query: Query)

  /** `pointLimit`: Infinity until a `Limit` expression sets it. */
  datatype PointLimit = Unlimited | LimitTo(value: JsValue)

  /** What the pass asks of the dataframe and of the expression evaluator. */
  datatype Dataframe = Dataframe(
    normalize: (JsValue, JsValue) -> Option<Normalization>,
    sizes: MaskSet -> MaskSizes,
    evaluate: Ast -> JsValue,
    applyMasks: (seq<MaskSet>, PointLimit) -> Option<JsValue>)

  /** `a || b`. */
  function Or(a: JsValue, b: JsValue): (r: JsValue)
    ensures Truthy(a) ==> r == a
    ensures !Truthy(a) ==> r == b
  {
    if Truthy(a) then a else b
  }

  /** What one filter contributes to the pass. */
  datatype Effect = Skip | SetLimit(value: JsValue) | Fail(error: string) | AddMask(masks: MaskSet)

  predicate IsLimit(ast: Option<Ast>) {
    ast.Some? && ast.value.Limit? && ast.value.limitValue.Some?
  }

  function EffectOf(f: Filter, df: Dataframe): (e: Effect)
    ensures f.enabled == Boolean(false) || f.query.None? ==> e == Skip
    ensures e.Fail? ==> e.error in {"Unknown frame element", "Unknown frame element type"}
    ensures e.AddMask? ==> e.masks.kind in {"point", "edge"} && e.masks.query == f.query.value
  {
    if f.enabled == Boolean(false) || f.query.None? then Skip
    else
      var q := f.query.value;
      if IsLimit(q.ast) then SetLimit(df.evaluate(q.ast.value.limitValue.value))
      else
        match df.normalize(q.attribute, Or(f.kind, q.kind))
        case None => Fail("Unknown frame element")
        case Some(n) =>
          if n.kind == Str("point") then AddMask(MaskSet("point", n.attribute, q))
          else if n.kind == Str("edge") then AddMask(MaskSet("edge", n.attribute, q))
          else Fail("Unknown frame element type")
  }

  /** The pass's accumulators: `maskList`, `errors` and `pointLimit`. */
  datatype PassState = PassState(maskList: seq<MaskSet>, errors: seq<JsValue>, pointLimit: PointLimit)

  function Apply(st: PassState, e: Effect): PassState {
    match e
    case Skip => st
    case SetLimit(v) => st.(pointLimit := LimitTo(v))
    case Fail(msg) => st.(errors := st.errors + [Str(msg)])
    case AddMask(m) => st.(maskList := st.maskList + [m])
  }

  /** The accumulators after the pass over `filters`, in list order. */
  function Pass(filters: seq<Filter>, df: Dataframe): PassState {
    if filters == [] then PassState([], [], Unlimited)
    else Apply(Pass(filters[..|filters| - 1], df), EffectOf(filters[|filters| - 1], df))
  }

  /** The filter as the pass leaves it: a masked filter records its mask sizes. */
  function Recorded(f: Filter, df: Dataframe): (g: Filter)
    ensures g.(maskSizes := f.maskSizes) == f
    ensures EffectOf(f, df).AddMask? ==> g.maskSizes == Some(df.sizes(EffectOf(f, df).masks))
    ensures !EffectOf(f, df).AddMask? ==> g == f
  {
    match EffectOf(f, df)
    case AddMask(m) => f.(maskSizes := Some(df.sizes(m)))
    case _ => f
  }

  function RecordedAll(filters: seq<Filter>, df: Dataframe): (r: seq<Filter>)
    ensures |r| == |filters|
    ensures forall i | 0 <= i < |filters| :: r[i] == Recorded(filters[i], df)
  {
    seq(|filters|, i requires 0 <= i < |filters| => Recorded(filters[i], df))
  }

  // ---------------------------------------------------------------------
  // Properties of the pass
  // ---------------------------------------------------------------------

  /** `whole` is the accumulators of `left`'s filters followed by `right`'s. */
  predicate Joined(whole: PassState, left: PassState, right: PassState) {
    && whole.maskList == left.maskList + right.maskList
    && whole.errors == left.errors + right.errors
    && whole.pointLimit == if right.pointLimit.Unlimited? then left.pointLimit else right.pointLimit
  }

  lemma ApplyKeepsJoined(whole: PassState, left: PassState, right: PassState, e: Effect)
    requires Joined(whole, left, right)
    ensures Joined(Apply(whole, e), left, Apply(right, e))
  {
    match e
    case Skip =>
    case SetLimit(v) =>
    case Fail(msg) =>
      assert whole.errors + [Str(msg)] == left.errors + (right.errors + [Str(msg)]);
    case AddMask(m) =>
      assert whole.maskList + [m] == left.maskList + (right.maskList + [m]);
  }

  /**
   * The pass over a list split in two: the masks and the errors of the
   * second part follow those of the first, and the point limit is the
   * second part's when it sets one (the last `Limit` wins).
   */
  lemma {:induction false} PassSplits(a: seq<Filter>, b: seq<Filter>, df: Dataframe)
    ensures Pass(a + b, df).maskList == Pass(a, df).maskList + Pass(b, df).maskList
    ensures Pass(a + b, df).errors == Pass(a, df).errors + Pass(b, df).errors
    ensures Pass(a + b, df).pointLimit ==
              if Pass(b, df).pointLimit.Unlimited? then Pass(a, df).pointLimit else Pass(b, df).pointLimit
    decreases |b|
  {
    if b == [] {
      assert a + b == a;
    } else {
      var b', e := b[..|b| - 1], EffectOf(b[|b| - 1], df);
      PassSplits(a, b', df);
      assert (a + b)[..|a + b| - 1] == a + b';
      assert Pass(a + b, df) == Apply(Pass(a + b', df), e);
      assert Pass(b, df) == Apply(Pass(b', df), e);
      ApplyKeepsJoined(Pass(a + b', df), Pass(a, df), Pass(b', df), e);
    }
  }

  /** A disabled filter or one without a query changes nothing. */
  lemma IgnoredFilterAddsNothing(filters: seq<Filter>, f: Filter, df: Dataframe)
    requires f.enabled == Boolean(false) || f.query.None?
    ensures Pass(filters + [f], df) == Pass(filters, df)
  {
    assert (filters + [f])[..|filters|] == filters;
  }

  /**
   * Each filter adds at most one thing: a `Limit` sets the point limit and
   * adds no mask; an unresolvable attribute or element type adds exactly
   * one error and no mask; a resolved filter adds exactly one mask set.
   */
  lemma {:induction false} EachFilterAddsOne(filters: seq<Filter>, f: Filter, df: Dataframe)
    ensures var before, after := Pass(filters, df), Pass(filters + [f], df);
      match EffectOf(f, df)
      case Skip => after == before
      case SetLimit(v) => after == before.(pointLimit := LimitTo(v))
      case Fail(msg) => after.maskList == before.maskList && after.errors == before.errors + [Str(msg)]
                        && after.pointLimit == before.pointLimit
      case AddMask(m) => after.maskList == before.maskList + [m] && after.errors == before.errors
                         && after.pointLimit == before.pointLimit
  {
    assert (filters + [f])[..|filters|] == filters;
  }

  /** Without any `Limit` expression, the point limit stays Infinity. */
  lemma {:induction false} NoLimitMeansUnlimited(filters: seq<Filter>, df: Dataframe)
    requires forall i | 0 <= i < |filters| :: !EffectOf(filters[i], df).SetLimit?
    ensures Pass(filters, df).pointLimit == Unlimited
    decreases |filters|
  {
    if filters != [] {
      NoLimitMeansUnlimited(filters[..|filters| - 1], df);
    }
  }

  /** The mask list is no longer than the filter list, and every mask set in it was built for one of the filters. */
  lemma {:induction false} MasksComeFromResolvedFilters(filters: seq<Filter>, df: Dataframe)
    ensures |Pass(filters, df).maskList| <= |filters|
    ensures forall k | 0 <= k < |Pass(filters, df).maskList| ::
              exists i | 0 <= i < |filters| :: EffectOf(filters[i], df) == AddMask(Pass(filters, df).maskList[k])
    decreases |filters|
  {
    if filters != [] {
      var n := |filters| - 1;
      var prefix := filters[..n];
      MasksComeFromResolvedFilters(prefix, df);
      var masks := Pass(filters, df).maskList;
      forall k | 0 <= k < |masks|
        ensures exists i | 0 <= i < |filters| :: EffectOf(filters[i], df) == AddMask(masks[k])
      {
        if k < |Pass(prefix, df).maskList| {
          var i :| 0 <= i < |prefix| && EffectOf(prefix[i], df) == AddMask(Pass(prefix, df).maskList[k]);
          assert filters[i] == prefix[i];
        } else {
          assert EffectOf(filters[n], df) == AddMask(masks[k]);
        }
      }
    }
  }

  // ---------------------------------------------------------------------
  // The reply
  // ---------------------------------------------------------------------

  /** The reply to the client; `errors` is absent when None. */
  datatype Reply = Reply(success: bool, filters: seq<Filter>, errors: Option<seq<JsValue>>)

  /**
   * `filterGraphByMaskList` once the masks are applied: on success the graph
   * is ticked (the returned flag) and the reply carries the errors, since
   * an array is always truthy; on failure the failure joins the errors.
   */
  function FilterReply(errors: seq<JsValue>, filters: seq<Filter>, failure: Option<JsValue>): (Reply, bool) {
    if failure.None? then (Reply(true, filters, if Truthy(ArrayObj(errors)) then Some(errors) else None), true)
    else (Reply(false, filters, Some(errors + [failure.value])), false)
  }

  lemma ReplyShape(errors: seq<JsValue>, filters: seq<Filter>, failure: Option<JsValue>)
    ensures var (reply, ticked) := FilterReply(errors, filters, failure);
      && reply.success == failure.None? == ticked
      && reply.filters == filters
      && reply.errors.Some?
      && (failure.None? ==> reply.errors.value == errors)
      && (failure.Some? ==> reply.errors.value == errors + [failure.value])
  {
  }

  /** One more filter: the pass applies its effect to the accumulators. */
  lemma PassStep(filters: seq<Filter>, i: nat, df: Dataframe)
    requires i < |filters|
    ensures Pass(filters[..i + 1], df) == Apply(Pass(filters[..i], df), EffectOf(filters[i], df))
  {
    assert filters[..i + 1][..i] == filters[..i];
  }

  /** One more filter: the list with the first `i` filters recorded, then the `i`-th recorded too. */
  lemma RecordStep(filters: seq<Filter>, i: nat, df: Dataframe)
    requires i < |filters|
    ensures (RecordedAll(filters[..i], df) + filters[i..])[i := Recorded(filters[i], df)]
            == RecordedAll(filters[..i + 1], df) + filters[i + 1..]
  {
  }

  /**
   * The body of the pass's loop for one filter: returns the filter as the
   * pass leaves it and the accumulators after it.
   */
  method VisitFilter(filter: Filter, df: Dataframe, st: PassState) returns (recorded: Filter, next: PassState)
    ensures recorded == Recorded(filter, df)
    ensures next == Apply(st, EffectOf(filter, df))
  {
    recorded, next := filter, st;
    if filter.enabled == Boolean(false) || filter.query.None? {
      return;
    }
    var filterQuery := filter.query.value;
    var ast := filterQuery.ast;
    if ast.Some? && ast.value.Limit? && ast.value.limitValue.Some? {
      next := st.(pointLimit := LimitTo(df.evaluate(ast.value.limitValue.value)));
      return;
    }
    var kind := Or(filter.kind, filterQuery.kind);
    var normalization := df.normalize(filterQuery.attribute, kind);
    if normalization.None? {
      next := st.(errors := st.errors + [Str("Unknown frame element")]);
      return;
    }
    kind := normalization.value.kind;
    var attribute := normalization.value.attribute;
    var masks;
    if kind == Str("point") {
      masks := MaskSet("point", attribute, filterQuery);
    } else if kind == Str("edge") {
      masks := MaskSet("edge", attribute, filterQuery);
    } else {
      next := st.(errors := st.errors + [Str("Unknown frame element type")]);
      return;
    }
    recorded := filter.(maskSizes := Some(df.sizes(masks)));
    next := st.(maskList := st.maskList + [masks]);
  }

  class ViewConfig {
    var filters: seq<Filter>

    constructor ()
      ensures filters == []
    {
      filters := [];
    }

    /**
     * Replaces the filter list, runs the pass (recording mask sizes on the
     * filters it masks), applies the masks and replies.
     */
    method UpdateFilters(newValues: seq<Filter>, df: Dataframe) returns (reply: Reply, ticked: bool)
      modifies this
      ensures filters == RecordedAll(newValues, df)
      ensures var st := Pass(newValues, df);
        (reply, ticked) == FilterReply(st.errors, filters, df.applyMasks(st.maskList, st.pointLimit))
    {
      filters := newValues;
      var maskList: seq<MaskSet> := [];
      var errors: seq<JsValue> := [];
      var pointLimit := Unlimited;
      var i := 0;
      assert newValues[..i] == [];
      while i < |newValues|
        invariant 0 <= i <= |newValues|
        invariant filters == RecordedAll(newValues[..i], df) + newValues[i..]
        invariant PassState(maskList, errors, pointLimit) == Pass(newValues[..i], df)
      {
        PassStep(newValues, i, df);
        RecordStep(newValues, i, df);
        var recorded, after := VisitFilter(newValues[i], df, PassState(maskList, errors, pointLimit));
        filters := filters[i := recorded];
        maskList, errors, pointLimit := after.maskList, after.errors, after.pointLimit;
        i := i + 1;
      }
      assert newValues[..i] == newValues;
      var failure := df.applyMasks(maskList, pointLimit);
      var response := FilterReply(errors, filters, failure);
      reply, ticked := response.0, response.1;
    }
  }
}
