/**
 * The filter panel's models: a filter's default query for its data type,
 * the change-only-if-different update of its query from edited expression
 * text, adding a filter to the collection, and the expression editor's
 * completer over the attribute namespace.
 */
module FilterPanel {
  import opened JsValue
  import opened JsString
  import opened QueryAst

  // ---------------------------------------------------------------------
  // placeholderQuery
  // ---------------------------------------------------------------------

  /** The object `placeholderQuery` returns; absent fields are None. */
  datatype Placeholder = Placeholder(attribute: JsValue, dataType: JsValue, start: Option<int>, equals: Option<JsValue>, ast: Ast)

  /** The default query for a filter over `attribute` of type `dataType`. */
  function PlaceholderFor(attribute: JsValue, dataType: JsValue): (r: Placeholder)
    ensures Truthy(r.attribute) && Truthy(r.dataType)
  {
    var attr := if Truthy(attribute) then attribute else Str("point:degree");
    var dt := if Truthy(dataType) then dataType else Str("number");
    match dt
    case Str("number") | Str("float") | Str("integer") =>
      Placeholder(attr, dt, Some(0), None,
        BinaryExpression(">=", Identifier(attr), Literal(Number(Finite(0)))))
    case Str("string") | Str("categorical") =>
      Placeholder(attr, dt, None, Some(Str("ABC")),
        BinaryExpression("=", Identifier(attr), Literal(Str("ABC"))))
    case Str("boolean") =>
      Placeholder(attr, dt, None, Some(Boolean(true)),
        LogicalExpression("IS", Identifier(attr), Literal(Boolean(true))))
    case Str("date") | Str("datetime") =>
      Placeholder(attr, dt, None, None,
        BinaryExpression(">=", Identifier(attr), Literal(Str("now"))))
    case _ =>
      Placeholder(attr, dt, None, None, Literal(Boolean(true)))
  }

  /**
   * The defaults: a missing attribute becomes 'point:degree' and a missing
   * data type 'number', which yields the `>= 0` comparison on that attribute.
   * A given attribute and data type are kept.
   */
  lemma {:induction false} PlaceholderDefaults(attribute: JsValue, dataType: JsValue)
    ensures var r := PlaceholderFor(attribute, dataType);
      && (Truthy(attribute) ==> r.attribute == attribute)
      && (!Truthy(attribute) ==> r.attribute == Str("point:degree"))
      && (Truthy(dataType) ==> r.dataType == dataType)
      && (!Truthy(dataType) ==>
            r.dataType == Str("number") &&
            r.ast == BinaryExpression(">=", Identifier(r.attribute), Literal(Number(Finite(0)))))
  {
  }

  /**
   * Every comparison the placeholder builds has the result's own attribute
   * as its left operand, and its right operand is the literal the result
   * records as `start` or `equals` (or 'now' for dates). A data type outside
   * the known names gives the always-true literal.
   */
  lemma {:induction false} PlaceholderShape(attribute: JsValue, dataType: JsValue)
    ensures var r := PlaceholderFor(attribute, dataType);
      && (r.ast.BinaryExpression? || r.ast.LogicalExpression? ==> r.ast.left == Identifier(r.attribute))
      && (r.start.Some? ==> r.ast.BinaryExpression? && r.ast.right == Literal(Number(Finite(r.start.value))))
      && (r.equals.Some? ==> r.ast.right == Literal(r.equals.value))
      && (r.ast.Literal? <==>
            r.dataType !in {Str("number"), Str("float"), Str("integer"), Str("string"), Str("categorical"),
                            Str("boolean"), Str("date"), Str("datetime")})
      && (r.ast.Literal? ==> r.ast.value == Boolean(true))
  {
  }

  // ---------------------------------------------------------------------
  // FilterModel.updateExpression
  // ---------------------------------------------------------------------

  /** How an update ends: an exception, no change, or a new query that was set. */
  datatype Outcome = Thrown(error: JsValue) | ThrownTypeError | NoChange | Changed(query: Query)

  /** A parsed query without an attribute takes the filter's own attribute. */
  function WithAttribute(q: Query, modelAttribute: JsValue): (r: Query)
    ensures r.kind == q.kind && r.ast == q.ast && r.error == q.error
    ensures Truthy(q.attribute) ==> r == q
  {
    if Truthy(q.attribute) then q else q.(attribute := modelAttribute)
  }

  /**
   * `updateExpression` as written: it reads `query.error` before testing
   * whether the parser returned anything, so an undefined parse result
   * raises a TypeError instead of being ignored.
   */
  function ExpressionUpdateAsWritten(current: Option<Query>, modelAttribute: JsValue, parsed: Option<Query>): Outcome {
    if parsed.None? then ThrownTypeError
    else if Truthy(parsed.value.error) then Thrown(parsed.value.error)
    else
      var q := WithAttribute(parsed.value, modelAttribute);
      if current == Some(q) then NoChange else Changed(q)
  }

  /**
   * `updateExpression` with the undefined check where it can take effect:
   * a parse error is rethrown, an undefined result changes nothing, a
   * missing attribute is filled in, and the query is set only when it
   * differs from the current one.
   */
  function ExpressionUpdate(current: Option<Query>, modelAttribute: JsValue, parsed: Option<Query>): Outcome {
    if parsed.None? then NoChange
    else if Truthy(parsed.value.error) then Thrown(parsed.value.error)
    else
      var q := WithAttribute(parsed.value, modelAttribute);
      if current == Some(q) then NoChange else Changed(q)
  }

  /** The query held after an update. */
  function QueryAfter(current: Option<Query>, outcome: Outcome): Option<Query> {
    if outcome.Changed? then Some(outcome.query) else current
  }

  /**
   * The two versions differ only on an undefined parse result, where the
   * as-written one throws and the corrected one leaves the query alone.
   */
  lemma {:induction false} UndefinedParseResult(current: Option<Query>, modelAttribute: JsValue, parsed: Option<Query>)
    ensures parsed.None? ==>
              ExpressionUpdateAsWritten(current, modelAttribute, parsed) == ThrownTypeError &&
              ExpressionUpdate(current, modelAttribute, parsed) == NoChange
    ensures parsed.Some? ==>
              ExpressionUpdateAsWritten(current, modelAttribute, parsed) == ExpressionUpdate(current, modelAttribute, parsed)
  {
  }

  /**
   * A parse error is rethrown and nothing changes; otherwise the query
   * that is set is the parsed one with the attribute filled in, and it
   * differs from the current one.
   */
  lemma {:induction false} UpdateExpressionMeaning(current: Option<Query>, modelAttribute: JsValue, parsed: Option<Query>)
    ensures var o := ExpressionUpdate(current, modelAttribute, parsed);
      && (parsed.Some? && Truthy(parsed.value.error) ==> o == Thrown(parsed.value.error))
      && (o.Changed? ==> parsed.Some? && !Truthy(parsed.value.error)
                         && o.query.(attribute := parsed.value.attribute) == parsed.value
                         && o.query.attribute == (if Truthy(parsed.value.attribute) then parsed.value.attribute else modelAttribute)
                         && current != Some(o.query))
      && (!o.Changed? ==> QueryAfter(current, o) == current)
  {
  }

  /** Entering the same expression again is a no-op. */
  lemma {:induction false} UpdateExpressionIdempotent(current: Option<Query>, modelAttribute: JsValue, parsed: Option<Query>)
    ensures var after := QueryAfter(current, ExpressionUpdate(current, modelAttribute, parsed));
      !ExpressionUpdate(after, modelAttribute, parsed).Changed?
  {
  }

  // ---------------------------------------------------------------------
  // FilterModel and FilterCollection
  // ---------------------------------------------------------------------

  /** The attributes a filter model is created from; missing ones are `Undefined`/None. */
  datatype FilterAttributes = FilterAttributes(
    title: JsValue, attribute: JsValue, dataType: JsValue, controlType: JsValue, enabled: JsValue, query: Option<Query>)

  /** The model's defaults fill whatever the given attributes leave undefined. */
  function WithDefaults(a: FilterAttributes): (r: FilterAttributes)
    ensures r.enabled != Undefined
    ensures r.(enabled := a.enabled) == a
  {
    a.(enabled := if a.enabled == Undefined then Boolean(true) else a.enabled)
  }

  class FilterModel {
    var title: JsValue
    var attribute: JsValue
    var dataType: JsValue
    var controlType: JsValue
    var enabled: JsValue
    var query: Option<Query>
    /** The number of 'change' notifications the model has fired for its query. */
    var queryChanges: nat

    function Attributes(): FilterAttributes
      reads this
    {
      FilterAttributes(title, attribute, dataType, controlType, enabled, query)
    }

    constructor (attributes: FilterAttributes)
      ensures Attributes() == WithDefaults(attributes) && queryChanges == 0
    {
      var a := WithDefaults(attributes);
      title, attribute, dataType, controlType := a.title, a.attribute, a.dataType, a.controlType;
      enabled, query := a.enabled, a.query;
      queryChanges := 0;
    }

    function PlaceholderQuery(): Placeholder
      reads this
    {
      PlaceholderFor(attribute, dataType)
    }

    /**
     * Applies the parser's result for the edited expression text; the
     * parser is outside this model, so its result is the argument.
     */
    method UpdateExpression(parsed: Option<Query>) returns (outcome: Outcome)
      modifies this
      ensures outcome == ExpressionUpdate(old(query), attribute, parsed)
      ensures query == QueryAfter(old(query), outcome)
      ensures queryChanges == old(queryChanges) + (if outcome.Changed? then 1 else 0)
      ensures Attributes() == old(Attributes()).(query := query)
    {
      if parsed.None? {
        return NoChange;
      }
      var q := parsed.value;
      if Truthy(q.error) {
        return Thrown(q.error);
      }
      if !Truthy(q.attribute) {
        q := q.(attribute := attribute);
      }
      if Some(q) != query {
        query := Some(q);
        queryChanges := queryChanges + 1;
        return Changed(q);
      }
      return NoChange;
    }
  }

  class FilterCollection {
    var models: seq<FilterModel>

    constructor ()
      ensures models == []
    {
      models := [];
    }

    /** Adds a new model; a missing title defaults to the attribute. */
    method AddFilter(attributes: FilterAttributes) returns (newFilter: FilterModel)
      modifies this
      ensures fresh(newFilter)
      ensures models == old(models) + [newFilter]
      ensures newFilter.Attributes() ==
                WithDefaults(attributes.(title := if Truthy(attributes.title) then attributes.title else attributes.attribute))
    {
      var attrs := attributes;
      if !Truthy(attrs.title) {
        attrs := attrs.(title := attrs.attribute);
      }
      newFilter := new FilterModel(attrs);
      models := models + [newFilter];
    }
  }

  /** A new filter is enabled unless told otherwise, and has a title whenever it has an attribute. */
  lemma {:induction false} AddedFilterDefaults(attributes: FilterAttributes)
    ensures var a := WithDefaults(attributes.(title := if Truthy(attributes.title) then attributes.title else attributes.attribute));
      && (attributes.enabled == Undefined ==> a.enabled == Boolean(true))
      && (Truthy(attributes.title) || Truthy(attributes.attribute) ==> Truthy(a.title))
      && a.attribute == attributes.attribute && a.query == attributes.query
  {
  }

  // ---------------------------------------------------------------------
  // DataframeCompleter: the attribute namespace
  // ---------------------------------------------------------------------

  /** Namespace metadata: for each element type, its columns by attribute name, in key order. */
  type Namespace = seq<(string, seq<(string, JsValue)>)>

  /** A JavaScript object used as a dictionary: its keys in insertion order, and its entries. */
  datatype Dict = Dict(keys: seq<string>, values: map<string, JsValue>)

  predicate Distinct(s: seq<string>) {
    forall a, b | 0 <= a < b < |s| :: s[a] != s[b]
  }

  /** The keys list and the entries agree, without repeats. */
  ghost predicate WellFormed(d: Dict) {
    Distinct(d.keys) && (forall k :: k in d.keys <==> k in d.values)
  }

  /** `d[k] = v`: a new key goes to the end, an existing key keeps its place. */
  function Put(d: Dict, k: string, v: JsValue): (r: Dict)
    ensures WellFormed(d) ==> WellFormed(r)
    ensures r.values.Keys == d.values.Keys + {k}
  {
    Dict(if k in d.values then d.keys else d.keys + [k], d.values[k := v])
  }

  function TypedName(elementType: string, name: string): string {
    elementType + ":" + name
  }

  /**
   * The members an object literal `{}` inherits from `Object.prototype`;
   * reading one of them from a dictionary without that own key gives the
   * inherited member, never `undefined`.
   */
  const ObjectPrototypeMembers: set<string> :=
    {"constructor", "hasOwnProperty", "isPrototypeOf", "propertyIsEnumerable",
     "toLocaleString", "toString", "valueOf", "__defineGetter__", "__defineSetter__",
     "__lookupGetter__", "__lookupSetter__", "__proto__"}

  /** `d[k] === undefined` on a dictionary built from `{}`: own keys first, then the inherited members. */
  predicate ReadsUndefined(d: Dict, k: string) {
    if k in d.values then d.values[k] == Undefined else k !in ObjectPrototypeMembers
  }

  /** One column: the typed name always, the bare name only while reading it gives `undefined`. */
  function AddColumn(d: Dict, elementType: string, name: string, column: JsValue): Dict {
    var d1 := Put(d, TypedName(elementType, name), column);
    if ReadsUndefined(d1, name) then Put(d1, name, column) else d1
  }

  function AddColumns(d: Dict, elementType: string, columns: seq<(string, JsValue)>): Dict {
    if columns == [] then d
    else
      var last := columns[|columns| - 1];
      AddColumn(AddColumns(d, elementType, columns[..|columns| - 1]), elementType, last.0, last.1)
  }

  function AddNamespace(d: Dict, ns: Namespace): Dict {
    if ns == [] then d
    else
      var last := ns[|ns| - 1];
      AddColumns(AddNamespace(d, ns[..|ns| - 1]), last.0, last.1)
  }

  lemma AddColumnsStep(d: Dict, elementType: string, columns: seq<(string, JsValue)>, j: int)
    requires 0 <= j < |columns|
    ensures AddColumns(d, elementType, columns[..j + 1])
         == AddColumn(AddColumns(d, elementType, columns[..j]), elementType, columns[j].0, columns[j].1)
  {
    assert columns[..j + 1][..j] == columns[..j];
  }

  lemma AddNamespaceStep(d: Dict, ns: Namespace, i: int)
    requires 0 <= i < |ns|
    ensures AddNamespace(d, ns[..i + 1]) == AddColumns(AddNamespace(d, ns[..i]), ns[i].0, ns[i].1)
  {
    assert ns[..i + 1][..i] == ns[..i];
  }

  /** The dictionary `setNamespaceMetadata` builds. */
  function Flatten(ns: Namespace): Dict {
    AddNamespace(Dict([], map[]), ns)
  }

  /** A column's bare name, unless it is a member every `{}` inherits. */
  function BareNames(name: string): set<string> {
    if name in ObjectPrototypeMembers then {} else {name}
  }

  /** The typed names and the listable bare names of the given columns of one element type. */
  function ColumnNames(elementType: string, columns: seq<(string, JsValue)>): set<string> {
    if columns == [] then {}
    else
      var last := columns[|columns| - 1];
      ColumnNames(elementType, columns[..|columns| - 1]) + {TypedName(elementType, last.0)} + BareNames(last.0)
  }

  /** The typed and bare names of every column of the namespace. */
  function NamespaceNames(ns: Namespace): set<string> {
    if ns == [] then {}
    else
      var last := ns[|ns| - 1];
      NamespaceNames(ns[..|ns| - 1]) + ColumnNames(last.0, last.1)
  }

  lemma {:induction false} AddColumnsKeys(d: Dict, elementType: string, columns: seq<(string, JsValue)>)
    ensures WellFormed(d) ==> WellFormed(AddColumns(d, elementType, columns))
    ensures AddColumns(d, elementType, columns).values.Keys == d.values.Keys + ColumnNames(elementType, columns)
    decreases |columns|
  {
    if columns != [] {
      AddColumnsKeys(d, elementType, columns[..|columns| - 1]);
    }
  }

  lemma {:induction false} AddNamespaceKeys(d: Dict, ns: Namespace)
    ensures WellFormed(d) ==> WellFormed(AddNamespace(d, ns))
    ensures AddNamespace(d, ns).values.Keys == d.values.Keys + NamespaceNames(ns)
    decreases |ns|
  {
    if ns != [] {
      var last := ns[|ns| - 1];
      AddNamespaceKeys(d, ns[..|ns| - 1]);
      AddColumnsKeys(AddNamespace(d, ns[..|ns| - 1]), last.0, last.1);
    }
  }

  /** `k` is the typed name of column `j` of `columns`, or its bare name when that is not inherited. */
  predicate NamesColumn(elementType: string, columns: seq<(string, JsValue)>, j: int, k: string)
    requires 0 <= j < |columns|
  {
    k == TypedName(elementType, columns[j].0) || (k == columns[j].0 && k !in ObjectPrototypeMembers)
  }

  lemma {:induction false} ColumnNamesExactly(elementType: string, columns: seq<(string, JsValue)>, k: string)
    ensures k in ColumnNames(elementType, columns) <==>
              exists j | 0 <= j < |columns| :: NamesColumn(elementType, columns, j, k)
    decreases |columns|
  {
    if columns != [] {
      var n := |columns| - 1;
      var prefix := columns[..n];
      ColumnNamesExactly(elementType, prefix, k);
      if k in ColumnNames(elementType, prefix) {
        var j :| 0 <= j < |prefix| && NamesColumn(elementType, prefix, j, k);
        assert NamesColumn(elementType, columns, j, k);
      } else if k in ColumnNames(elementType, columns) {
        assert NamesColumn(elementType, columns, n, k);
      } else {
        forall j | 0 <= j < |columns|
          ensures !NamesColumn(elementType, columns, j, k)
        {
          if j < n {
            assert columns[j] == prefix[j];
            assert !NamesColumn(elementType, prefix, j, k);
          } else {
            assert ColumnNames(elementType, columns)
                == ColumnNames(elementType, prefix) + {TypedName(elementType, columns[n].0)} + BareNames(columns[n].0);
          }
        }
      }
    }
  }

  /** `k` is the typed or the bare name of some column of `ns`. */
  ghost predicate NamedBy(ns: Namespace, k: string) {
    exists i | 0 <= i < |ns| :: k in ColumnNames(ns[i].0, ns[i].1)
  }

  lemma {:induction false} NamespaceNamesExactly(ns: Namespace, k: string)
    ensures k in NamespaceNames(ns) <==> NamedBy(ns, k)
    decreases |ns|
  {
    if ns != [] {
      var n := |ns| - 1;
      var prefix := ns[..n];
      NamespaceNamesExactly(prefix, k);
      if k in NamespaceNames(prefix) {
        var i :| 0 <= i < |prefix| && k in ColumnNames(prefix[i].0, prefix[i].1);
        assert ns[i] == prefix[i];
      } else if k !in NamespaceNames(ns) {
        forall i | 0 <= i < |ns|
          ensures k !in ColumnNames(ns[i].0, ns[i].1)
        {
          if i < n {
            assert ns[i] == prefix[i];
          }
        }
      }
    }
  }

  /**
   * After `setNamespaceMetadata`, the attribute list holds, without
   * repeats, the typed name `type:attr` of every column and its bare name
   * `attr` unless `{}` inherits that name, and nothing else.
   */
  lemma {:induction false} FlattenNames(ns: Namespace, k: string)
    ensures Distinct(Flatten(ns).keys)
    ensures k in Flatten(ns).keys <==>
              exists i, j | 0 <= i < |ns| && 0 <= j < |ns[i].1| :: NamesColumn(ns[i].0, ns[i].1, j, k)
  {
    AddNamespaceKeys(Dict([], map[]), ns);
    NamespaceNamesExactly(ns, k);
    if NamedBy(ns, k) {
      var i :| 0 <= i < |ns| && k in ColumnNames(ns[i].0, ns[i].1);
      ColumnNamesExactly(ns[i].0, ns[i].1, k);
    } else {
      forall i, j | 0 <= i < |ns| && 0 <= j < |ns[i].1|
        ensures !NamesColumn(ns[i].0, ns[i].1, j, k)
      {
        ColumnNamesExactly(ns[i].0, ns[i].1, k);
      }
    }
  }

  /** A typed name always holds the separator, which no inherited member name does. */
  lemma TypedNameIsNotInherited(elementType: string, name: string)
    ensures TypedName(elementType, name) !in ObjectPrototypeMembers
  {
    assert TypedName(elementType, name)[|elementType|] == ':';
  }

  /**
   * A column named like an inherited member is listed only under its typed
   * name: `{point: {constructor: c}}` lists `point:constructor` alone.
   */
  lemma {:induction false} InheritedNamesAreNotListed(ns: Namespace, k: string)
    requires k in ObjectPrototypeMembers
    ensures k !in Flatten(ns).keys
  {
    FlattenNames(ns, k);
    forall i, j | 0 <= i < |ns| && 0 <= j < |ns[i].1|
      ensures !NamesColumn(ns[i].0, ns[i].1, j, k)
    {
      TypedNameIsNotInherited(ns[i].0, ns[i].1[j].0);
    }
  }

  /** A completion entry as the editor receives it. */
  datatype Completion = Completion(name: string, value: string, score: real, meta: string)

  /** The text compared: lower-cased unless the completer is case sensitive. */
  function MatchText(s: string, caseSensitive: bool): string {
    if caseSensitive then s else ToLower(s)
  }

  /** The score of one attribute for an already case-folded prefix. */
  function Score(value: string, prefix: string, caseSensitive: bool): real {
    var lastIdx := LastIndexOfAt(MatchText(value, caseSensitive), prefix, 0);
    if lastIdx == 0 then 1.0
    else if lastIdx == LastIndexOfAt(value, ":", 0) + 1 then 0.8
    else 0.0
  }

  /** The 0.8 branch never fires: a search back from position 0 finds 0 or -1, and -1 is never the other side. */
  lemma {:induction false} ScoreIsAllOrNothing(value: string, prefix: string, caseSensitive: bool)
    ensures Score(value, prefix, caseSensitive) == if StartsWith(MatchText(value, caseSensitive), prefix) then 1.0 else 0.0
  {
    LastIndexOfFromZero(MatchText(value, caseSensitive), prefix);
    LastIndexOfFromZero(value, ":");
  }

  /** Scores every attribute and keeps those with a positive score, in order. */
  function ScoredCompletions(attributes: seq<string>, prefix: string, caseSensitive: bool): seq<Completion> {
    if attributes == [] then []
    else
      var v := attributes[0];
      var score := Score(v, prefix, caseSensitive);
      var rest := ScoredCompletions(attributes[1..], prefix, caseSensitive);
      if score > 0.0 then [Completion(v, v, score, "identifier")] + rest else rest
  }

  /** `getCompletions`: nothing for an empty prefix, else the positively scored attributes. */
  function Completions(attributes: seq<string>, prefix: string, caseSensitive: bool): seq<Completion> {
    if |prefix| == 0 then []
    else ScoredCompletions(attributes, MatchText(prefix, caseSensitive), caseSensitive)
  }

  /** The attributes that start with the prefix, both case-folded unless case sensitive. */
  function PrefixMatches(attributes: seq<string>, prefix: string, caseSensitive: bool): seq<string> {
    if attributes == [] then []
    else if StartsWith(MatchText(attributes[0], caseSensitive), MatchText(prefix, caseSensitive))
    then [attributes[0]] + PrefixMatches(attributes[1..], prefix, caseSensitive)
    else PrefixMatches(attributes[1..], prefix, caseSensitive)
  }

  function AsCompletions(names: seq<string>): (r: seq<Completion>)
    ensures |r| == |names|
    ensures forall k | 0 <= k < |names| :: r[k] == Completion(names[k], names[k], 1.0, "identifier")
  {
    seq(|names|, k requires 0 <= k < |names| => Completion(names[k], names[k], 1.0, "identifier"))
  }

  lemma {:induction false} ScoredAreMatches(attributes: seq<string>, prefix: string, caseSensitive: bool)
    ensures ScoredCompletions(attributes, MatchText(prefix, caseSensitive), caseSensitive)
              == AsCompletions(PrefixMatches(attributes, prefix, caseSensitive))
    decreases |attributes|
  {
    if attributes != [] {
      ScoreIsAllOrNothing(attributes[0], MatchText(prefix, caseSensitive), caseSensitive);
      ScoredAreMatches(attributes[1..], prefix, caseSensitive);
    }
  }

  /**
   * The completions for a non-empty prefix are exactly the attributes that
   * start with it (ignoring case by default), in namespace order, each named
   * and valued by itself with score 1; an empty prefix gets none.
   */
  lemma {:induction false} CompletionsArePrefixMatches(attributes: seq<string>, prefix: string, caseSensitive: bool)
    ensures |prefix| == 0 ==> Completions(attributes, prefix, caseSensitive) == []
    ensures |prefix| > 0 ==>
              Completions(attributes, prefix, caseSensitive) == AsCompletions(PrefixMatches(attributes, prefix, caseSensitive))
  {
    if |prefix| > 0 {
      ScoredAreMatches(attributes, prefix, caseSensitive);
    }
  }

  /** By default the case of the typed prefix does not matter. */
  lemma {:induction false} CompletionsIgnoreCase(attributes: seq<string>, prefix: string)
    ensures Completions(attributes, ToLower(prefix), false) == Completions(attributes, prefix, false)
  {
    ToLowerIdempotent(prefix);
  }

  /** One column of the inner loop: the typed name, then the bare name while reading it gives `undefined`. */
  method StoreColumn(keys0: seq<string>, values0: map<string, JsValue>, elementType: string,
                     attributeName: string, column: JsValue)
    returns (keys: seq<string>, values: map<string, JsValue>)
    ensures Dict(keys, values) == AddColumn(Dict(keys0, values0), elementType, attributeName, column)
  {
    keys, values := keys0, values0;
    var typed := elementType + ":" + attributeName;
    if typed !in values {
      keys := keys + [typed];
    }
    values := values[typed := column];
    assert Dict(keys, values) == Put(Dict(keys0, values0), TypedName(elementType, attributeName), column);
    var readsUndefined := if attributeName in values then values[attributeName] == Undefined
                          else attributeName !in ObjectPrototypeMembers;
    if readsUndefined {
      if attributeName !in values {
        keys := keys + [attributeName];
      }
      values := values[attributeName := column];
    }
  }

  /**
   * The inner loop of `setNamespaceMetadata`: records one element type's
   * columns in the dictionary held as `keys` and `values`.
   */
  method CollectColumns(keys0: seq<string>, values0: map<string, JsValue>, elementType: string,
                        columnsByName: seq<(string, JsValue)>)
    returns (keys: seq<string>, values: map<string, JsValue>)
    ensures Dict(keys, values) == AddColumns(Dict(keys0, values0), elementType, columnsByName)
  {
    keys, values := keys0, values0;
    var j := 0;
    assert columnsByName[..j] == [];
    while j < |columnsByName|
      invariant 0 <= j <= |columnsByName|
      invariant Dict(keys, values) == AddColumns(Dict(keys0, values0), elementType, columnsByName[..j])
    {
      var (attributeName, column) := columnsByName[j];
      keys, values := StoreColumn(keys, values, elementType, attributeName, column);
      AddColumnsStep(Dict(keys0, values0), elementType, columnsByName, j);
      j := j + 1;
    }
    assert columnsByName[..j] == columnsByName;
  }

  class DataframeCompleter {
    var namespaceMetadata: Namespace
    var namespaceAttributes: seq<string>
    var caseSensitive: bool

    constructor (ns: Namespace)
      ensures namespaceMetadata == ns && namespaceAttributes == Flatten(ns).keys && !caseSensitive
    {
      namespaceMetadata, namespaceAttributes, caseSensitive := [], [], false;
      new;
      SetNamespaceMetadata(ns);
      caseSensitive := false;
    }

    /** Fills a fresh dictionary with every column's typed and bare name and keeps its keys. */
    method SetNamespaceMetadata(ns: Namespace)
      modifies this
      ensures namespaceMetadata == ns && namespaceAttributes == Flatten(ns).keys
      ensures caseSensitive == old(caseSensitive)
    {
      namespaceMetadata := ns;
      var keys: seq<string> := [];
      var values: map<string, JsValue> := map[];
      var i := 0;
      assert ns[..i] == [];
      while i < |ns|
        invariant 0 <= i <= |ns|
        invariant Dict(keys, values) == AddNamespace(Dict([], map[]), ns[..i])
        invariant namespaceMetadata == ns && caseSensitive == old(caseSensitive)
      {
        var (elementType, columnsByName) := ns[i];
        keys, values := CollectColumns(keys, values, elementType, columnsByName);
        AddNamespaceStep(Dict([], map[]), ns, i);
        i := i + 1;
      }
      assert ns[..i] == ns;
      namespaceAttributes := keys;
    }

    function GetCompletions(prefix: string): seq<Completion>
      reads this
    {
      Completions(namespaceAttributes, prefix, caseSensitive)
    }
  }
}
