/**
 * The server's `aggregate` handler: which point indices a query covers,
 * how the query's attributes are split into one aggregation per element
 * type, how the partial results are merged, and the pull queue that
 * handles one request at a time.
 *
 * The simulator's `selectNodes` and `connectedEdges` and the dataframe's
 * `aggregate` are not part of this model; the indices they produce are
 * inputs here.
 */
module Aggregate {
  import opened JsValue

  /** `simulator.selectNodes(sel)`: the indices of the points a selection covers. */
  type NodeSelector = JsValue -> seq<int>

  function Range(n: nat): (r: seq<int>)
    ensures |r| == n
    ensures forall i | 0 <= i < n :: r[i] == i
  {
    seq(n, i requires 0 <= i < n => i)
  }

  /**
   * The point indices of an aggregate query: every point when `all` is
   * exactly `true`, none when there is no selection, otherwise the
   * simulator's answer for the selection.
   */
  function SelectIndices(all: JsValue, sel: JsValue, numPoints: nat, selectNodes: NodeSelector): seq<int> {
    if all == Boolean(true) then Range(numPoints)
    else if !Truthy(sel) then []
    else selectNodes(sel)
  }

  /** `all: true` selects each of the N points exactly once, in order; no selection selects nothing. */
  lemma SelectIndicesMeaning(all: JsValue, sel: JsValue, numPoints: nat, selectNodes: NodeSelector, i: int)
    ensures all == Boolean(true) ==>
              var r := SelectIndices(all, sel, numPoints, selectNodes);
              |r| == numPoints && (i in r <==> 0 <= i < numPoints) && (0 <= i < numPoints ==> r[i] == i)
    ensures all != Boolean(true) && !Truthy(sel) ==> SelectIndices(all, sel, numPoints, selectNodes) == []
    ensures all != Boolean(true) && Truthy(sel) ==> SelectIndices(all, sel, numPoints, selectNodes) == selectNodes(sel)
  {
    if all == Boolean(true) {
      var r := Range(numPoints);
      if 0 <= i < numPoints {
        assert r[i] == i;
      }
      if i in r {
        var k :| 0 <= k < numPoints && r[k] == i;
      }
    }
  }

  // ---------------------------------------------------------------------
  // One aggregation per element type
  // ---------------------------------------------------------------------

  /** An attribute of the query: its element type and its name. */
  datatype Attribute = Attribute(kind: JsValue, name: JsValue)

  /** The attribute argument of one `dataframe.aggregate` call. */
  datatype AttributeArg = AsGiven(attributes: seq<Attribute>) | Names(names: seq<JsValue>)

  /** One `dataframe.aggregate` call: its element type, its indices (None is `undefined`) and attributes. */
  datatype Call = Call(kind: JsValue, indices: Option<seq<int>>, attributes: AttributeArg)

  /** `{point: nodeIndices, edge: edgeIndices}[kind]`; the key is the kind's string form. */
  function IndicesFor(kind: JsValue, points: seq<int>, edges: seq<int>): Option<seq<int>> {
    var key := StringOf(kind);
    if key == "point" then Some(points) else if key == "edge" then Some(edges) else None
  }

  /** The names of the attributes of one element type, in query order. */
  function NamesOfKind(attributes: seq<Attribute>, kind: string): seq<JsValue> {
    if attributes == [] then []
    else
      var last := attributes[|attributes| - 1];
      var rest := NamesOfKind(attributes[..|attributes| - 1], kind);
      if last.kind == Str(kind) then rest + [last.name] else rest
  }

  /** The number of attributes that are of neither element type. */
  function OtherCount(attributes: seq<Attribute>): nat {
    if attributes == [] then 0
    else
      var last := attributes[|attributes| - 1];
      OtherCount(attributes[..|attributes| - 1]) + (if last.kind == Str("point") || last.kind == Str("edge") then 0 else 1)
  }

  /**
   * The aggregations a query asks for: with a `type`, one call over that
   * type's indices with the attributes as given; without one, a point call
   * and an edge call, each with the names of its own type's attributes.
   */
  function AggregateCalls(queryKind: JsValue, attributes: seq<Attribute>, points: seq<int>, edges: seq<int>): seq<Call> {
    if Truthy(queryKind) then [Call(queryKind, IndicesFor(queryKind, points, edges), AsGiven(attributes))]
    else [Call(Str("point"), Some(points), Names(NamesOfKind(attributes, "point"))),
          Call(Str("edge"), Some(edges), Names(NamesOfKind(attributes, "edge")))]
  }

  /**
   * Without a query type, the attributes are partitioned: each point or
   * edge attribute goes to exactly one of the two calls and the others to
   * neither.
   */
  lemma {:induction false} AttributesPartitioned(attributes: seq<Attribute>)
    ensures |NamesOfKind(attributes, "point")| + |NamesOfKind(attributes, "edge")| + OtherCount(attributes) == |attributes|
    decreases |attributes|
  {
    if attributes != [] {
      AttributesPartitioned(attributes[..|attributes| - 1]);
    }
  }

  /** A name is sent with a type exactly when some attribute of that type carries it. */
  lemma {:induction false} NamesOfKindMembers(attributes: seq<Attribute>, kind: string, name: JsValue)
    ensures name in NamesOfKind(attributes, kind) <==>
              exists i | 0 <= i < |attributes| :: attributes[i] == Attribute(Str(kind), name)
    decreases |attributes|
  {
    if attributes != [] {
      var n := |attributes| - 1;
      var prefix := attributes[..n];
      NamesOfKindMembers(prefix, kind, name);
      if exists i | 0 <= i < |attributes| :: attributes[i] == Attribute(Str(kind), name) {
        var i :| 0 <= i < |attributes| && attributes[i] == Attribute(Str(kind), name);
        if i < n {
          assert prefix[i] == attributes[i];
        }
      }
      if exists i | 0 <= i < |prefix| :: prefix[i] == Attribute(Str(kind), name) {
        var i :| 0 <= i < |prefix| && prefix[i] == Attribute(Str(kind), name);
        assert attributes[i] == prefix[i];
      }
    }
  }

  /** With a query type, one call covers that type; without one, exactly a point and an edge call. */
  lemma CallsPerQuery(queryKind: JsValue, attributes: seq<Attribute>, points: seq<int>, edges: seq<int>)
    ensures var calls := AggregateCalls(queryKind, attributes, points, edges);
      && (Truthy(queryKind) ==> |calls| == 1 && calls[0].attributes == AsGiven(attributes)
                                && (queryKind == Str("point") ==> calls[0].indices == Some(points))
                                && (queryKind == Str("edge") ==> calls[0].indices == Some(edges)))
      && (!Truthy(queryKind) ==> |calls| == 2 && calls[0].indices == Some(points) && calls[1].indices == Some(edges))
  {
  }

  // ---------------------------------------------------------------------
  // Merging the partial results
  // ---------------------------------------------------------------------

  /** `_.extend` of each partial result, in call order, into one object. */
  function MergeAll(parts: seq<map<string, JsValue>>): map<string, JsValue> {
    if parts == [] then map[]
    else MergeAll(parts[..|parts| - 1]) + parts[|parts| - 1]
  }

  /** The merged result has a key exactly when some part has it. */
  lemma {:induction false} MergeAllKeys(parts: seq<map<string, JsValue>>, k: string)
    ensures k in MergeAll(parts) <==> exists i | 0 <= i < |parts| :: k in parts[i]
    decreases |parts|
  {
    if parts != [] {
      var n := |parts| - 1;
      var prefix := parts[..n];
      MergeAllKeys(prefix, k);
      assert MergeAll(parts) == MergeAll(prefix) + parts[n];
      if k in MergeAll(parts) {
        if k !in parts[n] {
          var i :| 0 <= i < |prefix| && k in prefix[i];
          assert k in parts[i];
        }
      } else {
        forall i | 0 <= i < |parts|
          ensures k !in parts[i]
        {
          if i < n {
            assert parts[i] == prefix[i];
          }
        }
      }
    }
  }

  /** A key's merged value is the one from the last part that has it. */
  lemma {:induction false} MergeAllLastWins(parts: seq<map<string, JsValue>>, k: string, i: nat)
    requires i < |parts| && k in parts[i]
    requires forall j | i < j < |parts| :: k !in parts[j]
    ensures k in MergeAll(parts) && MergeAll(parts)[k] == parts[i][k]
    decreases |parts|
  {
    var n := |parts| - 1;
    var prefix := parts[..n];
    assert MergeAll(parts) == MergeAll(prefix) + parts[n];
    if i < n {
      assert k !in parts[n];
      forall j | i < j < |prefix|
        ensures k !in prefix[j]
      {
        assert prefix[j] == parts[j];
      }
      assert prefix[i] == parts[i];
      MergeAllLastWins(prefix, k, i);
    }
  }

  // ---------------------------------------------------------------------
  // The pull queue
  // ---------------------------------------------------------------------

  /**
   * The controlled subject that feeds requests to the handler: requests
   * waiting, demand granted by `request(1)` and not yet used, the request
   * being handled, and (for the proofs) every request submitted and every
   * request started, in order.
   */
  datatype Queue<R> = Queue(pending: seq<R>, credit: nat, active: Option<R>, submitted: seq<R>, started: seq<R>)

  datatype QueueEvent<R> =
    | Submit(request: R)     // a socket `aggregate` message
    | Finish(succeeded: bool) // the handler's promise settles; as written, only success requests the next one

  /** The queue before any message: the handler has asked for the first request. */
  function InitialQueue<R>(): Queue<R> {
    Queue([], 1, None, [], [])
  }

  /** Hands the first waiting request to the handler when there is demand for it. */
  function Deliver<R>(q: Queue<R>): Queue<R> {
    if q.credit > 0 && q.pending != [] then
      Queue(q.pending[1..], q.credit - 1, Some(q.pending[0]), q.submitted, q.started + [q.pending[0]])
    else q
  }

  function QueueStep<R>(q: Queue<R>, e: QueueEvent<R>): Queue<R> {
    match e
    case Submit(r) => Deliver(q.(pending := q.pending + [r], submitted := q.submitted + [r]))
    case Finish(ok) =>
      if q.active.None? then q
      else Deliver(q.(active := None, credit := if ok then q.credit + 1 else q.credit))
  }

  function RunQueue<R>(q: Queue<R>, events: seq<QueueEvent<R>>): Queue<R>
    decreases |events|
  {
    if events == [] then q else RunQueue(QueueStep(q, events[0]), events[1..])
  }

  /**
   * At most one request is handled at a time, there is demand only while
   * nothing waits, and requests start in the order they were submitted.
   */
  ghost predicate QueueInv<R>(q: Queue<R>) {
    && q.credit <= 1
    && (q.active.Some? ==> q.credit == 0)
    && (q.credit == 1 ==> q.pending == [])
    && q.started + q.pending == q.submitted
    && (q.active.Some? ==> q.started != [] && q.active.value == q.started[|q.started| - 1])
  }

  lemma InitialQueueValid<R>()
    ensures QueueInv(InitialQueue<R>())
  {
  }

  lemma {:induction false} QueueStepKeepsInv<R>(q: Queue<R>, e: QueueEvent<R>)
    requires QueueInv(q)
    ensures QueueInv(QueueStep(q, e))
  {
    match e
    case Submit(r) =>
      assert q.started + (q.pending + [r]) == q.submitted + [r];
      if q.credit > 0 {
        var q' := q.(pending := q.pending + [r], submitted := q.submitted + [r]);
        assert q'.pending == [r];
        assert q.started + [r] == q.submitted + [r];
      }
    case Finish(ok) =>
      if q.active.Some? && ok && q.pending != [] {
        assert q.started + q.pending == (q.started + [q.pending[0]]) + q.pending[1..];
      }
  }

  /**
   * When a request's promise rejects, no further request is ever asked for:
   * every later request waits forever and nothing else starts.
   */
  lemma {:induction false} RejectionStallsQueue<R>(q: Queue<R>, events: seq<QueueEvent<R>>)
    requires QueueInv(q) && q.active.Some?
    ensures var stalled := QueueStep(q, Finish(false));
      && stalled.active.None? && stalled.credit == 0
      && RunQueue(stalled, events).started == stalled.started
      && RunQueue(stalled, events).active.None?
  {
    StalledStaysStalled(QueueStep(q, Finish(false)), events);
  }

  lemma {:induction false} StalledStaysStalled<R>(q: Queue<R>, events: seq<QueueEvent<R>>)
    requires q.active.None? && q.credit == 0
    ensures RunQueue(q, events).started == q.started
    ensures RunQueue(q, events).active.None? && RunQueue(q, events).credit == 0
    decreases |events|
  {
    if events != [] {
      StalledStaysStalled(QueueStep(q, events[0]), events[1..]);
    }
  }

  /**
   * The evidently intended loop: `request(1)` once the handler's promise
   * settles, whether it fulfils or rejects, so that a failed aggregate is
   * reported for that request alone and the queue goes on.
   */
  function CorrectedQueueStep<R>(q: Queue<R>, e: QueueEvent<R>): Queue<R> {
    match e
    case Submit(r) => QueueStep(q, e)
    case Finish(_) =>
      if q.active.None? then q
      else Deliver(q.(active := None, credit := q.credit + 1))
  }

  function RunCorrectedQueue<R>(q: Queue<R>, events: seq<QueueEvent<R>>): Queue<R>
    decreases |events|
  {
    if events == [] then q else RunCorrectedQueue(CorrectedQueueStep(q, events[0]), events[1..])
  }

  /** Whenever no request is being handled, nothing waits and the next request is asked for. */
  ghost predicate Live<R>(q: Queue<R>) {
    q.active.None? ==> q.credit == 1 && q.pending == []
  }

  /**
   * With the corrected loop a rejection behaves as a success does: the next
   * waiting request starts, or demand is left for the next one to arrive.
   */
  lemma {:induction false} CorrectedRejectionStartsNext<R>(q: Queue<R>)
    requires QueueInv(q) && q.active.Some?
    ensures CorrectedQueueStep(q, Finish(false)) == QueueStep(q, Finish(true))
    ensures q.pending != [] ==> CorrectedQueueStep(q, Finish(false)).active == Some(q.pending[0])
    ensures q.pending == [] ==> CorrectedQueueStep(q, Finish(false)).credit == 1
  {
  }

  /**
   * The corrected loop never stalls: from the initial queue, whatever
   * requests arrive and however their handling ends, one request is handled
   * at a time in submission order, and an idle queue has nothing waiting.
   */
  lemma {:induction false} CorrectedQueueNeverStalls<R>(q: Queue<R>, events: seq<QueueEvent<R>>)
    requires QueueInv(q) && Live(q)
    ensures QueueInv(RunCorrectedQueue(q, events)) && Live(RunCorrectedQueue(q, events))
    decreases |events|
  {
    if events != [] {
      var e := events[0];
      if e.Submit? {
        QueueStepKeepsInv(q, e);
      } else {
        QueueStepKeepsInv(q, Finish(true));
      }
      CorrectedQueueNeverStalls(CorrectedQueueStep(q, e), events[1..]);
    }
  }

  /** While the handler succeeds, each finished request lets the next waiting one start. */
  lemma {:induction false} SuccessStartsNext<R>(q: Queue<R>)
    requires QueueInv(q) && q.active.Some? && q.pending != []
    ensures QueueStep(q, Finish(true)).active == Some(q.pending[0])
    ensures QueueStep(q, Finish(true)).started == q.started + [q.pending[0]]
  {
  }
}
