# Graphistry visualization core, modelled in Dafny

This project models the sequential logic at the heart of the Graphistry
visualization stack and proves properties of it. It covers five pieces:

- **Visualization server.** This is the `update_filters` pass that turns the
  client's filter list into mask sets, plus the reply sent once the masks
  are applied. It also covers the data inspector's `sliceSelection`, which
  searches, sorts and slices a selection, with the page arithmetic of
  `read_selection`. Then come the `aggregate` handler's index selection,
  its split into one aggregation per element type, and its one-at-a-time
  pull queue. Last is the per-connection streaming loop: `clientReady`, the
  step counter, buffer pull counting, the explicit-update flag and the
  shared cache of compressed buffers.
- **Attribute type registry.** It maps a data type's name to these things:
  - its "no value" sentinels;
  - its grouping key maker;
  - its runtime compatibility test;
  - its order and comparator, with an ASCII fast path in front of the
    collator;
  - rounding to a multiple.
- **Selection marquee.** This is the ten-state machine with `disable`
  added to every state, and the side effects that run only on a listed
  event. It also covers the rectangle geometry, the on-box/off-box press
  filters, the brush's after-drag update, and the in-place vertical flip
  of a read-back pixel buffer.
- **Filter panel.** A filter's placeholder query depends on its data type.
  The update of a filter's query from edited expression text happens only
  when something changed. Adding a filter defaults its title. The
  expression completer flattens the attribute namespace and scores
  completions by prefix.
- **Pivot upload.** `createGraph` merges the results of the enabled pivots,
  drops repeated edges, and computes what changed since the last upload.
  It then hands that to the dataframe and remembers the result. `upload`
  refuses an empty graph, and `getQuery` builds the service query.

The modules are `JsValue` and `JsString`, then `DataTypes` and `QueryAst`,
then `Marquee`, `PixelFlip`, `FilterPanel`, `Selection`, `FilterPass`,
`Aggregate`, `Streaming` and `UploadGraph`. JavaScript values are a tagged
datatype (`JsValue`). Numbers are whole numbers plus NaN. `typeof`,
truthiness, `String(v)`, `toString`, `toLowerCase`, `indexOf`,
`lastIndexOf` and `<` are written out as functions.

The source's unseen collaborators are parameters of the operations that
use them. These include the dataframe, the expression parser and code
generator, the locale collator, the simulator's `selectNodes`, the
upload's `Dataframe` module and `simpleflake`. They are either functions
or values of a datatype of functions. Where the source updates objects in
place, the model uses classes. Each class method's postcondition ties the
new state to a pure step function, and the lemmas prove the properties of
that step function:
- `Marquee.MarqueeMachine`, `Marquee.Selection`;
- `FilterPanel.FilterModel`, `FilterPanel.FilterCollection`,
  `FilterPanel.DataframeCompleter`;
- `FilterPass.ViewConfig`;
- `Streaming.VboCache`, `Streaming.StreamSession`;
- `UploadGraph.PivotUploader`.

Loops in the source are methods with loop invariants, proved against a
specification function:
- the search loop, `Selection.SearchIndices`;
- the filter pass, `FilterPass.ViewConfig.UpdateFilters`;
- the namespace flattening, `FilterPanel.DataframeCompleter.SetNamespaceMetadata`;
- the row flip, `PixelFlip.FlipY`;
- the pivot merge and edge dedup, `UploadGraph.PivotUploader.CreateGraph`.

## Model

| member | source | states |
|---|---|---|
| DataTypes.FastRoughStringCompare | packages/viz-app/src/worker/simulator/dataTypes.js:28-30 | the fast comparison returns -1, 0 or 1 |
| DataTypes.FastCompareAntisymmetric | packages/viz-app/src/worker/simulator/dataTypes.js:28-30 | swapping the operands negates the fast comparison |
| DataTypes.FastCompareZeroIffEqual | packages/viz-app/src/worker/simulator/dataTypes.js:28-30 | the fast comparison is 0 exactly on equal strings |
| DataTypes.WrappedLocaleCompare | packages/viz-app/src/worker/simulator/dataTypes.js:32-37 | two ASCII strings get a result in {-1,0,1}; any other pair gets the collator's answer |
| DataTypes.AsciiCompareIsLexicographic | packages/viz-app/src/worker/simulator/dataTypes.js:24-37 | on ASCII strings, whatever the collator: -1 iff a is lexicographically before b, 1 iff after, 0 iff equal, and antisymmetric |
| DataTypes.ValueSignifiesUndefined | packages/viz-app/src/worker/simulator/dataTypes.js:39-74 | undefined is always a missing value; a string is missing iff it is "\0" or "n/a"; a number iff it is NaN or 0x7FFFFFFF; objects and booleans never are |
| DataTypes.KeyMakerForDataType | packages/viz-app/src/worker/simulator/dataTypes.js:76-95 | string keys are the value itself; number, integer, undefined and unknown type names use `toString` |
| DataTypes.MakeKey | packages/viz-app/src/worker/simulator/dataTypes.js:81-83 | the identity key is the value; a `toString` key throws exactly on undefined and null and is otherwise a string |
| DataTypes.NumberKeysAreInjective | packages/viz-app/src/worker/simulator/dataTypes.js:78-81 | number and integer keys are the decimal text, and two numbers with the same key are equal |
| DataTypes.CompatibilityRules | packages/viz-app/src/worker/simulator/dataTypes.js:97-117 | integer-compatible implies number-compatible and means a finite number of magnitude below 1e21 (from 1e21 on `parseInt` reads exponent text back as one digit); 'undefined' accepts only undefined; an unknown type accepts everything |
| DataTypes.WrappedCompareValues | packages/viz-app/src/worker/simulator/dataTypes.js:23-37 | on two strings it is the wrapped string comparison; other values are tested and collated as their text and ordered by `<` |
| DataTypes.IsLessThanMeaning | packages/viz-app/src/worker/simulator/dataTypes.js:119-126 | on ASCII strings the string order is lexicographic; on numbers the default order is numeric `<` (false when either is NaN) |
| DataTypes.ComparatorForDataType | packages/viz-app/src/worker/simulator/dataTypes.js:128-141 | there is a comparator exactly for number, integer, string, date and datetime; every other type gets undefined |
| DataTypes.NumericComparatorSign | packages/viz-app/src/worker/simulator/dataTypes.js:130-132 | the number comparator `a - b` is negative iff a < b, positive iff b < a, zero on equal numbers, NaN if either is NaN |
| DataTypes.FloorDiv | packages/viz-app/src/worker/simulator/dataTypes.js:157-158 | the quotient is the floor: q*m <= a < q*m + m for positive m, mirrored for negative m |
| DataTypes.CeilDiv | packages/viz-app/src/worker/simulator/dataTypes.js:148-149 | the quotient is the ceiling: q*m - m < a <= q*m for positive m, mirrored for negative m |
| DataTypes.RoundingBounds | packages/viz-app/src/worker/simulator/dataTypes.js:143-159 | with a non-zero multiple both results are multiples of it, within one multiple of num; down <= num <= up for a positive multiple, swapped for a negative one |
| DataTypes.RoundingByZero | packages/viz-app/src/worker/simulator/dataTypes.js:144-146 | a multiple of 0 returns num unchanged, in both directions |
| DataTypes.RoundingIdempotent | packages/viz-app/src/worker/simulator/dataTypes.js:143-159 | rounding an already rounded number (up or down) changes nothing, including for NaN |
| DataTypes.MultipleDivides | packages/viz-app/src/worker/simulator/dataTypes.js:148-158 | flooring or ceiling the quotient of an exact multiple gives the factor back |
| JsValue.TypeOf | packages/viz-app/src/worker/simulator/dataTypes.js:58 | `typeof` reports one of five names, and "object" exactly for null, dates, arrays and objects |
| JsValue.NumberToStringInjective | packages/viz-app/src/worker/simulator/dataTypes.js:81 | distinct numbers have distinct `toString` text |
| JsValue.NumberTextRoundTrip | packages/viz-app/src/worker/simulator/dataTypes.js:81 | reading a number's `toString` text back as a number gives the number (NaN included) |
| JsValue.LexLessTotal | packages/viz-app/src/worker/simulator/dataTypes.js:29 | string `<` is total on distinct strings: one of a < b and b < a holds |
| JsValue.LexLessTransitive | packages/viz-app/src/worker/simulator/dataTypes.js:29 | string `<` is transitive |
| JsValue.LexLessAsymmetric | packages/viz-app/src/worker/simulator/dataTypes.js:29 | string `<` is asymmetric |
| JsValue.JsLessAsymmetric | packages/viz-app/src/worker/simulator/dataTypes.js:124 | `<` on any two values never holds both ways |
| JsValue.StringOf | server-viz.js:112 | `String(v)` of a string is the string itself and of a number its decimal text |
| JsString.ToLowerIdempotent | server-viz.js:106-112 | lower-casing twice is lower-casing once |
| JsString.IndexOfFindsOccurrence | server-viz.js:112 | `indexOf` is -1 iff the needle does not occur, and otherwise the position of its first occurrence |
| JsString.LastIndexOfFromZero | src/graphVizApp/filterPanel.js:246 | `lastIndexOf(x, 0)` is 0 when the text starts with x and -1 otherwise |
| Marquee.MachineEvents | src/graphVizApp/marquee.js:16-67 | the events a state lists are exactly those it has a transition for |
| Marquee.DefinedAmong | src/graphVizApp/marquee.js:283 | keeps exactly the candidate events the state lists |
| Marquee.DisableAndEnable | src/graphVizApp/marquee.js:16-19 | every state lists `disable`, which leads to OFF; OFF lists only `enable` and `disable`, and `enable` leads to INIT |
| Marquee.ToPoint | src/graphVizApp/marquee.js:321-324 | the point plus the container offset is the page position |
| Marquee.ToRectIsBoundingBox | src/graphVizApp/marquee.js:327-339 | `toRect` is normalized, symmetric in its points, covers both points, and lies inside every rectangle that covers both |
| Marquee.ShiftRect | src/graphVizApp/marquee.js:103-115 | a shifted rectangle keeps its width and height |
| Marquee.EmptyRect | src/graphVizApp/marquee.js:117-122 | the empty rectangle is normalized, with both corners the same point |
| Marquee.ToDelta | src/graphVizApp/marquee.js:479-482 | start plus the delta is end |
| Marquee.ShiftLaws | src/graphVizApp/marquee.js:103-115 | shifting by (0,0) is the identity; shifts compose by adding; a shift is undone by its opposite; normalized rectangles stay normalized |
| Marquee.PressFiltersPartition | src/graphVizApp/marquee.js:239-259 | without a rectangle neither press filter fires; with one exactly one fires; every press is off the empty rectangle |
| Marquee.PageCoordinatesMissTheBox | src/graphVizApp/marquee.js:239-259 | a press inside the box, in the box's own frame, is classified off the box when page coordinates are compared |
| Marquee.InFrameTestMatchesStoredRect | src/graphVizApp/marquee.js:239-259 | the corrected test fires exactly when the container point lies strictly inside the stored rectangle, and agrees with the page test when the container is at the origin |
| Marquee.AcceptKeepsReadsDefined | src/graphVizApp/marquee.js:279-291 | taking an event keeps every field a later side effect reads set |
| Marquee.HandleKeepsInv | src/graphVizApp/marquee.js:124-196 | handling an event keeps the machine invariant, and a follow-up event emits no further follow-up |
| Marquee.InitialIsValid | src/graphVizApp/marquee.js:208 | the machine starts in OFF with its invariant holding |
| Marquee.UnlistedEventIsIgnored | src/graphVizApp/marquee.js:283-291 | an event the state does not list changes nothing and notifies nobody |
| Marquee.DisableTurnsOff | src/graphVizApp/marquee.js:64-67 | `disable` moves every state to OFF and leaves every other field alone |
| Marquee.LeavingOff | src/graphVizApp/marquee.js:17-19 | from OFF only `enable` leaves, landing in INIT with an empty last rectangle |
| Marquee.ClickResets | src/graphVizApp/marquee.js:138-142 | press and release without a move reports the empty rectangle once and returns to INIT |
| Marquee.MoveDraws | src/graphVizApp/marquee.js:149-157 | while drawing, the rectangle spans the press point and the pointer |
| Marquee.ReleaseAfterDrawing | src/graphVizApp/marquee.js:159-176 | releasing reports the drawn rectangle once; it then waits for a drag with that rectangle stationary (canDrag), or resets to INIT |
| Marquee.MoveDrags | src/graphVizApp/marquee.js:182-190 | while dragging, the rectangle is the stationary one moved by the pointer's displacement, keeps its size, and is reported to the drag listeners |
| Marquee.ReleaseAfterDragging | src/graphVizApp/marquee.js:192-195 | releasing a drag reports the moved rectangle and makes it the stationary one |
| Marquee.SecondDownIsIgnored | src/graphVizApp/marquee.js:230-232 | the duplicate `down` from the container listener is never listed where the first one left the machine |
| Marquee.MouseDownOutcome | src/graphVizApp/marquee.js:230-259 | with the press tested in container coordinates (the corrected filter, see Findings): from INIT a press starts a selection at the press point; from a stationary box it starts a drag on the box and a new selection off it |
| Marquee.MarqueeMachine.constructor | src/graphVizApp/marquee.js:203-217 | a new machine is OFF with nothing recorded |
| Marquee.MarqueeMachine.RunSideEffect | src/graphVizApp/marquee.js:124-196 | the fields after a side effect, and its follow-up event, are those of the state's entry step |
| Marquee.MarqueeMachine.Dispatch | src/graphVizApp/marquee.js:279-291 | one event moves the machine and runs the new state's side effect only when the state listed it |
| Marquee.MarqueeMachine.HandleEvent | src/graphVizApp/marquee.js:275-291 | an external event plus its follow-up give the pure handling step, and the machine stays valid |
| Marquee.Selection.constructor | src/graphVizApp/marquee.js:567 | a selection holds the given rectangle |
| Marquee.BrushOutputs.constructor | src/graphVizApp/marquee.js:567 | both subjects start with nothing sent |
| Marquee.DoAfterDragsBrush | src/graphVizApp/marquee.js:567-582 | sends 'done', moves the selection in place by the drag delta, then reports a copy of the moved rectangle |
| Marquee.DragFollowsPointer | src/graphVizApp/marquee.js:479-482 | shifting by the delta from start to end carries the point under the pointer with it and keeps the size |
| PixelFlip.Cell | src/graphVizApp/marquee.js:657-658 | byte c of row r lies in row r's byte range and inside the buffer |
| PixelFlip.CellOf | src/graphVizApp/marquee.js:652-655 | every byte of the buffer is a cell of exactly one row |
| PixelFlip.FlipTwiceIsIdentity | src/graphVizApp/marquee.js:651-665 | flipping the rows twice gives the original buffer back |
| PixelFlip.Overwritten | src/graphVizApp/marquee.js:661-663 | overwriting a byte range keeps the length |
| PixelFlip.OverwrittenBytes | src/graphVizApp/marquee.js:661-663 | the overwritten range holds the source bytes and every other byte is kept |
| PixelFlip.SetBytes | src/graphVizApp/marquee.js:661-663 | `view.set` copies the source into the array at the offset and changes nothing else |
| PixelFlip.SwapRows | src/graphVizApp/marquee.js:661-663 | the three copies overwrite row b with row a and then row a with the old row b, through the swap buffer |
| PixelFlip.CopiesExchange | src/graphVizApp/marquee.js:661-663 | the three copies through the swap buffer exchange two disjoint (or identical) rows |
| PixelFlip.SwapStep | src/graphVizApp/marquee.js:656-664 | one loop iteration extends the swapped outer row pairs by one |
| PixelFlip.SwapOuterPair | src/graphVizApp/marquee.js:656-664 | one loop iteration exchanges rows y and h-y-1 at the byte offsets the source computes |
| PixelFlip.FlipY | src/graphVizApp/marquee.js:651-665 | after the loop, row y holds what row h-1-y held, for every row |
| PixelFlip.FlipComplete | src/graphVizApp/marquee.js:656 | once y reaches h/2 every row pair is swapped |
| FilterPanel.PlaceholderFor | src/graphVizApp/filterPanel.js:73-131 | the placeholder always has a truthy attribute and data type |
| FilterPanel.PlaceholderDefaults | src/graphVizApp/filterPanel.js:78-83 | a missing attribute becomes 'point:degree' and a missing type 'number' (a `>= 0` query); given ones are kept |
| FilterPanel.PlaceholderShape | src/graphVizApp/filterPanel.js:84-129 | number/float/integer give `>= 0` with start 0; string/categorical `= 'ABC'`; boolean `IS true`; date/datetime `>= 'now'`; anything else `Literal true`; the left identifier is the attribute |
| FilterPanel.WithAttribute | src/graphVizApp/filterPanel.js:145-147 | only the attribute is filled in, and only when missing |
| FilterPanel.UndefinedParseResult | src/graphVizApp/filterPanel.js:136-151 | on an undefined parse result the as-written update throws and the corrected one changes nothing; on any other result they agree |
| FilterPanel.UpdateExpressionMeaning | src/graphVizApp/filterPanel.js:136-151 | a parse error is rethrown with nothing changed; a new query is the parsed one with the attribute filled in and differs from the current one |
| FilterPanel.UpdateExpressionIdempotent | src/graphVizApp/filterPanel.js:148-150 | entering the same expression a second time is a no-op |
| FilterPanel.WithDefaults | src/graphVizApp/filterPanel.js:65-72 | a model is enabled unless told otherwise, and the other given attributes are kept |
| FilterPanel.FilterModel.constructor | src/graphVizApp/filterPanel.js:64-72 | a new model holds the given attributes over the defaults, with no change fired |
| FilterPanel.FilterModel.UpdateExpression | src/graphVizApp/filterPanel.js:136-151 | following the corrected update (see Findings), the model's query after the update and the count of change events follow the update's outcome; the other attributes are kept |
| FilterPanel.FilterCollection.constructor | src/graphVizApp/filterPanel.js:154-157 | a new collection is empty |
| FilterPanel.FilterCollection.AddFilter | src/graphVizApp/filterPanel.js:158-164 | appends exactly one fresh model whose missing title is its attribute |
| FilterPanel.AddedFilterDefaults | src/graphVizApp/filterPanel.js:158-164 | an added filter is enabled unless told otherwise and has a truthy title whenever its attribute is truthy |
| FilterPanel.Put | src/graphVizApp/filterPanel.js:218-220 | assigning a key keeps the dictionary well formed and adds exactly that key |
| FilterPanel.AddColumnsKeys | src/graphVizApp/filterPanel.js:217-222 | one element type's columns add exactly their typed names and those bare names that `{}` does not inherit, keeping the dictionary well formed |
| FilterPanel.AddNamespaceKeys | src/graphVizApp/filterPanel.js:216-223 | the whole namespace adds exactly the typed names and the non-inherited bare names of all its columns |
| FilterPanel.ColumnNamesExactly | src/graphVizApp/filterPanel.js:217-222 | a name belongs to a type's columns iff it is the typed name of one of them, or its bare name when that is not an `Object.prototype` member |
| FilterPanel.NamespaceNamesExactly | src/graphVizApp/filterPanel.js:216-223 | a name belongs to the namespace iff some column of some type has it as typed name or as non-inherited bare name |
| FilterPanel.FlattenNames | src/graphVizApp/filterPanel.js:213-226 | the attribute list has no repeats and holds exactly the `type:attr` name of every column and its bare `attr` name unless `{}` inherits `attr` |
| FilterPanel.InheritedNamesAreNotListed | src/graphVizApp/filterPanel.js:215-225 | a column named like an `Object.prototype` member (`constructor`, `toString`, `__proto__`, ...) is listed only under its typed name, because reading the bare name never gives `undefined` |
| FilterPanel.AddColumnsStep | src/graphVizApp/filterPanel.js:217 | adding the columns up to j+1 is adding column j after those up to j |
| FilterPanel.AddNamespaceStep | src/graphVizApp/filterPanel.js:216 | adding the types up to i+1 is adding type i's columns after those up to i |
| FilterPanel.CollectColumns | src/graphVizApp/filterPanel.js:217-222 | the inner loop's dictionary is that of adding the type's columns in order |
| FilterPanel.StoreColumn | src/graphVizApp/filterPanel.js:218-221 | one column stores the typed name, then the bare name only while reading it from the `{}`-built dictionary gives `undefined` (own keys first, then inherited members) |
| FilterPanel.DataframeCompleter.constructor | src/graphVizApp/filterPanel.js:204-207 | a new completer holds the flattened namespace and is case-insensitive |
| FilterPanel.DataframeCompleter.SetNamespaceMetadata | src/graphVizApp/filterPanel.js:213-226 | the attribute list is the keys of the flattened namespace, and the case setting is kept |
| FilterPanel.ScoreIsAllOrNothing | src/graphVizApp/filterPanel.js:244-252 | the score is 1 for a prefix match and 0 otherwise; the 0.8 branch never fires |
| FilterPanel.AsCompletions | src/graphVizApp/filterPanel.js:256-263 | each name becomes one entry with that name and value, score 1, meta 'identifier' |
| FilterPanel.ScoredAreMatches | src/graphVizApp/filterPanel.js:244-255 | the positively scored attributes are the prefix matches, as completions |
| FilterPanel.CompletionsArePrefixMatches | src/graphVizApp/filterPanel.js:236-264 | an empty prefix gets no completions; otherwise they are exactly the attributes starting with the prefix (case-folded by default), in order, with score 1 |
| FilterPanel.CompletionsIgnoreCase | src/graphVizApp/filterPanel.js:241-243 | by default the case of the typed prefix does not change the completions |
| Selection.MatchingMembers | server-viz.js:105-121 | an index is kept iff it was selected and some value of its row contains the search text; no more indices come out than went in |
| Selection.MatchingSplits | server-viz.js:108-119 | the search keeps the original order: searching a concatenation is concatenating the searches |
| Selection.SearchIndices | server-viz.js:105-121 | the search loop keeps exactly the matching indices for the lower-cased search string, in order |
| Selection.ScanRow | server-viz.js:109-115 | the scan of one row keeps the index exactly when some value's lower-cased text contains the needle |
| Selection.NaNsSortBeforeEachOther | server-viz.js:140-152 | as written, two NaN values (not both strings) each compare before the other with the same nonzero result |
| Selection.CompareAntisymmetric | server-viz.js:140-152 | the corrected comparator flips sign when its arguments swap, given a collator that does |
| Selection.DescendingIsReversed | server-viz.js:140-152 | descending order compares the pair the other way round |
| Selection.NumericLess | server-viz.js:145-147 | on column values that are not two strings, `<` is the numeric order |
| Selection.Insert | server-viz.js:140 | inserting adds exactly that element |
| Selection.SortBy | server-viz.js:140-152 | the sort returns a permutation of its input |
| Selection.InsertInOrder | server-viz.js:140 | inserting into an ordered list keeps it ordered |
| Selection.SortedInOrder | server-viz.js:140-152 | with a consistent comparator every adjacent pair of the sorted list is in order |
| Selection.SortedColumnInOrder | server-viz.js:131-152 | on a column of primitives and dates, with an antisymmetric collator, the sorted tags are in order |
| Selection.SliceBound | server-viz.js:154 | a slice bound lands in 0..len and is the argument itself when that is in range |
| Selection.SliceWindow | server-viz.js:154-162 | a slice between non-negative bounds holds at most end-start elements and is the contiguous run from start |
| Selection.SlicesJoin | server-viz.js:154-162 | two adjacent slices make up the slice spanning both |
| Selection.Mul | server-viz.js:177 | a product is NaN iff an operand is |
| Selection.Add | server-viz.js:178 | a sum is NaN iff an operand is |
| Selection.PageBounds | server-viz.js:175-178 | page p covers [(p-1)*per_page, p*per_page) |
| Selection.ConsecutivePages | server-viz.js:175-178 | page p ends where page p+1 starts, holds at most per_page rows, and pages p and p+1 together are the slice spanning both |
| Selection.NaNPageIsEmpty | server-viz.js:175-178 | a page number or size that does not parse gives an empty page |
| Selection.Tags | server-viz.js:131-138 | one tag per index, carrying that index |
| Selection.IndicesOf | server-viz.js:155-157 | the page's indices are the tags' indices in order |
| Selection.SortedIndicesArePermutation | server-viz.js:125-157 | sorting keeps the number of matches and exactly the same indices |
| Selection.SliceSelection | server-viz.js:103-164 | the reply is the search, optional sort and slice of the selection |
| Selection.SelectionPageFacts | server-viz.js:123-162 | count is the number of matches before slicing; the page holds at most end-start indices, each selected and matching |
| FilterPass.Or | server-viz.js:470-471 | `a \|\| b` is a when a is truthy and b otherwise |
| FilterPass.EffectOf | server-viz.js:452-492 | disabled and query-less filters are skipped; failures carry one of the two error texts; a mask is for points or edges and carries the filter's query |
| FilterPass.Recorded | server-viz.js:490-491 | a masked filter records its mask sizes, and nothing else of any filter changes |
| FilterPass.RecordedAll | server-viz.js:452-493 | the filter list keeps its length, and each filter is recorded in place |
| FilterPass.PassSplits | server-viz.js:448-493 | masks and errors accumulate in list order, and the last `Limit` wins |
| FilterPass.IgnoredFilterAddsNothing | server-viz.js:453-461 | a disabled or query-less filter changes nothing |
| FilterPass.EachFilterAddsOne | server-viz.js:462-492 | a `Limit` only sets the point limit; an unresolved attribute or type adds exactly one error; a resolved filter adds exactly one mask set |
| FilterPass.NoLimitMeansUnlimited | server-viz.js:450 | without a `Limit` the point limit stays Infinity |
| FilterPass.MasksComeFromResolvedFilters | server-viz.js:452-493 | there are at most as many mask sets as filters, each built for one of them |
| FilterPass.ReplyShape | server-viz.js:227-243 | success ticks the graph and replies with the filters and the errors, which are always present; a failure replies unsuccessfully with the failure appended to the errors |
| FilterPass.VisitFilter | server-viz.js:452-492 | one filter is recorded as the pass leaves it and the accumulators take its effect |
| FilterPass.ViewConfig.constructor | server-viz.js:440-443 | the view starts with no filters |
| FilterPass.ViewConfig.UpdateFilters | server-viz.js:440-495 | the stored filters are the recorded new ones, and the reply is that of the pass's masks, errors and point limit |
| Aggregate.Range | server-viz.js:647 | `_.range(n)` is 0..n-1 in order |
| Aggregate.SelectIndicesMeaning | server-viz.js:645-652 | `all: true` selects each of the N points once in order; without a selection nothing; otherwise the simulator's answer |
| Aggregate.AttributesPartitioned | server-viz.js:689-699 | each point or edge attribute goes to exactly one of the two calls, and the others to neither |
| Aggregate.NamesOfKindMembers | server-viz.js:691-694 | a name goes to a type's call iff an attribute of that type carries it |
| Aggregate.CallsPerQuery | server-viz.js:686-700 | with a type, one call over that type's indices with the attributes as given; without, a point call and an edge call |
| Aggregate.MergeAllKeys | server-viz.js:702-706 | the merged result has a key iff some part does |
| Aggregate.MergeAllLastWins | server-viz.js:702-706 | a key's merged value is the one from the last part that has it |
| Aggregate.InitialQueueValid | server-viz.js:724 | the queue starts with demand for one request and its invariant holding |
| Aggregate.QueueStepKeepsInv | server-viz.js:717-724 | at most one request is handled at a time, and requests start in submission order |
| Aggregate.SuccessStartsNext | server-viz.js:719-721 | a successful request lets the next waiting one start |
| Aggregate.RejectionStallsQueue | server-viz.js:719-722 | as written, after a rejected request nothing more is ever handled (see Findings) |
| Aggregate.CorrectedRejectionStartsNext | server-viz.js:717-724 | with `request(1)` on both outcomes, a rejection lets the next waiting request start, exactly as a success does |
| Aggregate.CorrectedQueueNeverStalls | server-viz.js:717-724 | with `request(1)` on both outcomes, every run keeps one request at a time in submission order, and an idle queue has nothing waiting and demand for the next request |
| Aggregate.StalledStaysStalled | server-viz.js:719-722 | with no demand and nothing active, no event starts a request |
| Streaming.StartIsValid | server-viz.js:762-763 | a new connection starts with a ready client, expecting every active buffer, with the invariant holding |
| Streaming.SessionStepKeepsInv | server-viz.js:897-1027 | every event keeps this: at most one `vbo_update` unacknowledged, none while the client is ready |
| Streaming.OnlyAckReadiesClient | server-viz.js:898-904 | only `received_buffers` makes the client ready again |
| Streaming.TransferWaitsForReadyClient | server-viz.js:936-945 | a transfer starts only on a ready client, marks it busy with one message outstanding, and begins a fresh pull list |
| Streaming.PullsReportCompletionOnce | server-viz.js:954-964 | pulls append their names in order, and completion is reported exactly at the pull that reaches the requested count |
| Streaming.PotentialNeverGrows | server-viz.js:1011-1023 | no event other than a tick or an explicit update can add a cycle |
| Streaming.ExplicitUpdateIsOneShot | server-viz.js:1014-1023 | without ticks or new updates, the step counter grows by at most one, and only if an update is pending |
| Streaming.StoredServesNewest | server-viz.js:925-929 | after a prefetch, the connection's entry serves each new buffer and keeps older ones; other entries are untouched |
| Streaming.ClosedForgets | server-viz.js:735-738 | a disconnect removes exactly that connection's entry |
| Streaming.PrefetchAfterDisconnectRecreates | server-viz.js:925-926 | a prefetch completing after the disconnect puts the entry back |
| Streaming.VboCache.constructor | server-viz.js:64-69 | the cache starts empty |
| Streaming.VboCache.Open | server-viz.js:734 | opening gives the connection an empty entry |
| Streaming.VboCache.Store | server-viz.js:925-929 | storing creates or extends the entry |
| Streaming.VboCache.Close | server-viz.js:737 | closing deletes the entry |
| Streaming.StreamSession.constructor | server-viz.js:730-909 | a new session is at its start state and opens its cache entry |
| Streaming.StreamSession.PassGate | server-viz.js:938-945 | the gate step of the pure session |
| Streaming.StreamSession.WakeUp | server-viz.js:1018-1023 | the wake step of the pure session |
| Streaming.StreamSession.OnGraphReady | server-viz.js:912-920 | the session steps on a new graph |
| Streaming.StreamSession.OnPrefetched | server-viz.js:921-935 | the session steps on prefetched buffers, which are stored in the cache only in the prefetching phase |
| Streaming.StreamSession.OnReceivedBuffers | server-viz.js:900-904 | the session steps on the client's acknowledgement |
| Streaming.StreamSession.OnMetadataAcked | server-viz.js:999-1007 | the session steps on the `vbo_update` callback |
| Streaming.StreamSession.OnBufferPulled | server-viz.js:954-964 | the session steps on a pull and reports whether it completed the transfer |
| Streaming.StreamSession.OnPlannedRequests | server-viz.js:766-770 | the session steps on planned requests |
| Streaming.StreamSession.OnUpdateVbo | server-viz.js:194-196 | the session steps on an explicit update |
| Streaming.StreamSession.OnTick | server-viz.js:1018-1024 | the session steps on an animation tick |
| Streaming.StreamSession.OnDisconnect | server-viz.js:735-738 | disconnecting deletes the session's cache entry |
| UploadGraph.GetQueryFixedFields | packages/pivot-app/src/shared/services/uploadGraph.js:84-91 | the query carries the given key, agent 'pivot-app' and api version 1, and only the key depends on the argument |
| UploadGraph.Upload | packages/pivot-app/src/shared/services/uploadGraph.js:9-17 | an empty graph fails with 'No edges to upload!'; success needs edges and a successful post, and yields the dataset name |
| UploadGraph.MergedSplits | packages/pivot-app/src/shared/services/uploadGraph.js:113-118 | merging distributes over the pivot list, in pivot order |
| UploadGraph.MergedEdgesFromContributors | packages/pivot-app/src/shared/services/uploadGraph.js:113-118 | every merged edge comes from a pivot that has results and is enabled |
| UploadGraph.FirstOccurrencesFacts | packages/pivot-app/src/shared/services/uploadGraph.js:121-129 | kept edges are input edges with pairwise distinct endpoint pairs, and every pair of the input is kept |
| UploadGraph.KeepsFirst | packages/pivot-app/src/shared/services/uploadGraph.js:121-129 | the first edge with a given pair is the one kept |
| UploadGraph.FirstOccurrencesGrow | packages/pivot-app/src/shared/services/uploadGraph.js:121-129 | later edges never change what was kept before them, so input order is kept |
| UploadGraph.Difference | packages/pivot-app/src/shared/services/uploadGraph.js:131-134 | `_.difference(a, b)` holds exactly the elements of a not in b |
| UploadGraph.DifferenceCovered | packages/pivot-app/src/shared/services/uploadGraph.js:131-134 | nothing is left when every element of a is in b |
| UploadGraph.DiffReconstructs | packages/pivot-app/src/shared/services/uploadGraph.js:131-134 | previous minus removed plus new is the merged graph, for edges and labels, and nothing is both new and removed |
| UploadGraph.SameGraphNoDiff | packages/pivot-app/src/shared/services/uploadGraph.js:131-134 | the same graph again gives no changes |
| UploadGraph.PivotUploader.constructor | packages/pivot-app/src/shared/services/uploadGraph.js:94-97 | the previous graph starts empty |
| UploadGraph.PivotUploader.CreateGraph | packages/pivot-app/src/shared/services/uploadGraph.js:100-151 | the upload data is the dataframe's result for the changes since the previous graph, named 'splunkUpload'+flake, of type 'edgelist' with fixed bindings; the previous graph becomes its graph and labels |

## Left out

- I/O is not modelled: the Express routes, socket.io wiring, HTTP upload,
  zlib, logging, metrics, DOM visuals, canvas and WebGL calls.
- The Rx and Q plumbing is not modelled as concurrency. Each socket
  message, promise settlement or subject emission is one event, handled
  to completion before the next.
- The other socket handlers are not modelled: `get_labels`,
  `interaction`, `shortest_path`, `set_colors`, `highlight_points`, the
  persist handlers and `fork_vgraph`. They hand everything to unseen
  collaborators.
- `uploadGraph` (the Rx pipeline around `createGraph` and `upload`) is not
  modelled: it is glue between I/O calls.
- The dataframe, simulator, expression parser, code generator, Intl
  collator, `simpleflake` and the upload's `Dataframe` module are
  parameters. The model checks nothing about what they return.
- DataTypes.CompatibilityRules: the integer test is bounded at 1e21 as
  JavaScript's is, but JsValue.NumberToString writes every whole number
  in plain digits, while `String` writes exponent text from 1e21 on
  ("1e+21"), so DataTypes.MakeKey gives such numbers a different
  `toString` key. Whole numbers above 2^53 that a double cannot hold are
  kept exactly instead of rounded.
- Numbers are whole numbers plus NaN. Fractions, the infinities and -0 are
  left out, so a `Limit` value or a point limit of `Infinity` is an
  explicit constructor rather than a number.
- `parseInt` of the page query parameters is not modelled: the page number
  and size are given as numbers, or NaN when they do not parse.
- `toLowerCase` folds only ASCII letters; Unicode case mapping is left out.
- JsValue.StringToNumber: only blank text and optionally signed decimal
  digits are read. Other numeric literals read as NaN: exponents ("1e3"),
  hexadecimal, octal and binary ("0x10", "0o7", "0b11"), a decimal point
  ("1.0") and "Infinity". Its text is Unicode scalar values rather than
  UTF-16 code units, as the next line describes.
- JsValue.LexLess: strings are sequences of Unicode scalar values, while
  JavaScript's `<`, `indexOf` and `lastIndexOf` work on UTF-16 code units.
  Text with characters outside the Basic Multilingual Plane can therefore
  order and index differently; this also holds for JsString.IndexOf and
  JsString.LastIndexOfAt.
- JsValue.StringOf: a date is written as its time value, not as
  `Date.prototype.toString` text.
- DataTypes.KeyMakerForDataType: the date, datetime, object and array key
  makers are named but not applied (`toDateString`, `toISOString`,
  `JSON.stringify`); only the identity and `toString` keys are computed.
- DataTypes.Compare: the date comparator requires two dates. On any
  other value `getTime` is missing and the source throws a TypeError,
  which is not modelled.
- DataTypes.ValueSignifiesUndefined: the 'date', 'datetime' and 'array'
  cases are unreachable, because `typeof` never reports those names.
- Marquee.MouseDown: the press filters test the press in container
  coordinates, the corrected behaviour. As written they compare page
  coordinates with the stored box; that version is
  Marquee.PressOnBoxAsWritten (see Findings).
- Marquee.MouseDownOutcome: states the outcome of the corrected
  Marquee.MouseDown, not of the as-written press filters.
- Marquee.Handle: `move` is subscribed on both `document` and the
  container (marquee.js:235-237), so a move inside the container arrives
  twice. The model delivers it once. A second identical move redraws the
  same box, but it would notify the drag listeners a second time.
- Marquee.MarqueeMachine.RunSideEffect: the select and drag logs hold
  copies of the rectangle. The source (marquee.js:140, 164, 189, 193)
  emits the live `marqueeState` object, which later events keep changing;
  that aliasing is not modelled.
- FilterPanel.FilterModel.UpdateExpression: follows the corrected update,
  in which an undefined parse result changes nothing. As written,
  filterPanel.js:138 reads `query.error` first and throws a TypeError;
  that version is FilterPanel.ExpressionUpdateAsWritten (see Findings).
- Selection.SortBy: a stable insertion sort stands for the engine's
  `Array.prototype.sort`. With the inconsistent as-written comparator the
  engine's order is unspecified, so only the corrected comparator is
  sorted with.
- Selection.CompareAntisymmetric: the locale collator is assumed to flip
  sign when its arguments swap. That is a property of `Intl.Collator`,
  not of this code.
- Selection.SliceSelection: sorts with the corrected comparator (see
  Findings). The page returns row indices; `getRows` belongs to the
  dataframe.
- FilterPanel.UpdateExpressionIdempotent: `_.isEqual` is structural
  equality of the query datatype. The difference between a missing field
  and an `undefined` one is not modelled.
- FilterPanel.FlattenNames: `_.keys` order is insertion order. The
  engine's ordering of integer-like keys ahead of the others is left out.
- FilterPanel.DataframeCompleter.GetCompletions has no contract of its
  own: the completer's `namespaceAttributes` always holds a list after
  construction, so the "missing attributes" case of the source cannot
  arise in the model.
- Streaming.SessionStepKeepsInv: `updateVboSubject` is one subject for the
  whole server, shared by every connection. Here it is a flag per
  session, and the error callback of `tickGraph` is left out.
- Streaming.ExplicitUpdateIsOneShot: states the one-shot update for one
  session's flag. The source's `updateVboSubject` is shared by the whole
  server, so one update would step every connection.
- Streaming.StreamSession.OnUpdateVbo: sets the session's own flag, where
  the source pushes into the server-wide `updateVboSubject`.
- Streaming.StreamSession.OnPrefetched: `lastMetadata`, `saveAtEachStep`
  snapshots and texture metadata are left out.
- UploadGraph.FirstOccurrencesFacts: the dedup key is the pair of endpoint
  values with NaN and invalid dates read as `null`. Other
  `JSON.stringify` collisions are left out, such as endpoints that are
  arrays or objects with undefined members.
- UploadGraph.PivotUploader.CreateGraph: the `Dataframe` module's own
  state is not modelled. What `getData()` returns after the four updates
  is the `frame` parameter's answer to the changes.
- Aggregate.CallsPerQuery: `binning` and `mode` are passed through
  untouched and are not modelled.

## Findings

| source | as written | input that shows it | evidently intended | confidence | as-written member | corrected member |
|---|---|---|---|---|---|---|
| src/graphVizApp/filterPanel.js:136-151 | `query.error` is read before the `query === undefined` test, so an undefined parse result throws a TypeError | the parser returns `undefined` for the new expression | an undefined parse result leaves the query alone (the "No-op for now" branch) | high (not executed) | FilterPanel.ExpressionUpdateAsWritten, shown by FilterPanel.UndefinedParseResult | FilterPanel.ExpressionUpdate, with FilterPanel.UpdateExpressionMeaning and FilterPanel.UpdateExpressionIdempotent |
| src/graphVizApp/marquee.js:239-259 | the press filters compare `pageX`/`pageY` with `lastRect`, which the side effects store relative to the container | container offset (100,0), box (0,0)-(50,50), press at page (125,25), which is container point (25,25) inside the box: classified off the box | the press is converted with `toPoint` before the comparison | medium (not executed) | Marquee.PressOnBoxAsWritten, shown by Marquee.PageCoordinatesMissTheBox | Marquee.PressOnBoxInFrame, with Marquee.InFrameTestMatchesStoredRect, used by Marquee.MouseDown |
| server-viz.js:140-152 | when both sort values are NaN under `isNaN` (and not both strings), the comparator returns -1 (ascending) for both orders | two missing cells, `undefined` and `undefined`, ascending: compare(a,b) = compare(b,a) = -1 | two NaN values compare equal (0), so the comparator is consistent | high (not executed) | Selection.CompareAsWritten, shown by Selection.NaNsSortBeforeEachOther | Selection.Compare, with Selection.CompareAntisymmetric, used by Selection.SortedIndices |
| server-viz.js:717-724 | `request(1)` is chained with `.then` after the handler's promise, so it runs only when that promise fulfils; a rejection skips it and no further request is ever delivered | an aggregate whose `dataframe.aggregate` call rejects, followed by a second aggregate request, which then waits forever | the next request is asked for whether the handler's promise fulfils or rejects, so a failed aggregate affects only its own request | medium (not executed) | Aggregate.QueueStep, shown by Aggregate.RejectionStallsQueue | Aggregate.CorrectedQueueStep, with Aggregate.CorrectedRejectionStartsNext and Aggregate.CorrectedQueueNeverStalls |
