/**
 * The pivot application's graph upload (`uploadGraph.js`): `createGraph`
 * merges the results of the enabled pivots, drops repeated edges, works out
 * what changed since the previous upload and records the new graph;
 * `upload` refuses an empty graph; `getQuery` builds the ETL query string.
 *
 * Edges and labels are JavaScript objects: `_.difference` compares them by
 * identity, so each carries the reference it was created with, while the
 * duplicate test compares the JSON text of an edge's endpoints. The
 * `../Dataframe` module, `simpleflake` and the HTTP post are not part of
 * this model: their results are parameters.
 */
module UploadGraph {
  import opened JsValue

  /** An edge object: its identity and its endpoints. */
  datatype Edge = Edge(ref: nat, source: JsValue, destination: JsValue)

  /** A node label object, by identity. */
  datatype Label = Label(ref: nat, node: JsValue)

  datatype GraphData = GraphData(graph: seq<Edge>, labels: seq<Label>)

  /** A pivot: its results, if it has been run, and whether it is enabled. */
  datatype Pivot = Pivot(results: Option<GraphData>, enabled: JsValue)

  datatype Bindings = Bindings(sourceField: string, destinationField: string, idField: string)

  datatype UploadData = UploadData(graph: seq<Edge>, labels: seq<Label>, name: string, kind: string, bindings: Bindings)

  /** What changed since the previous upload. */
  datatype Diff = Diff(newEdges: seq<Edge>, removedEdges: seq<Edge>, newNodes: seq<Label>, removedNodes: seq<Label>)

  /** The ETL service's query parameters. */
  datatype EtlQuery = EtlQuery(key: string, agent: string, agentVersion: string, apiVersion: int)

  datatype Result<T> = Success(value: T) | Failure(error: string)

  // ---------------------------------------------------------------------
  // getQuery and upload
  // ---------------------------------------------------------------------

  function GetQuery(key: string): EtlQuery {
    EtlQuery(key, "pivot-app", "0.0.1", 1)
  }

  /** The query carries the caller's key, and nothing else depends on it. */
  lemma GetQueryFixedFields(key: string, other: string)
    ensures GetQuery(key).key == key
    ensures GetQuery(key).(key := other) == GetQuery(other)
    ensures GetQuery(key).agent == "pivot-app" && GetQuery(key).apiVersion == 1
  {
  }

  /**
   * `upload`: an empty edge list fails before anything is posted;
   * otherwise the post's outcome decides (None is success), and success
   * yields the dataset name.
   */
  function Upload(data: UploadData, postFailure: Option<string>): (r: Result<string>)
    ensures data.graph == [] ==> r == Failure("No edges to upload!")
    ensures r.Success? <==> data.graph != [] && postFailure.None?
    ensures r.Success? ==> r.value == data.name
  {
    if |data.graph| == 0 then Failure("No edges to upload!")
    else if postFailure.Some? then Failure(postFailure.value)
    else Success(data.name)
  }

  // ---------------------------------------------------------------------
  // Merging the pivots
  // ---------------------------------------------------------------------

  /** `pivot.results && pivot.enabled`. */
  predicate Contributes(p: Pivot) {
    p.results.Some? && Truthy(p.enabled)
  }

  /** The results of the contributing pivots, concatenated in pivot order. */
  function Merged(pivots: seq<Pivot>): GraphData {
    if pivots == [] then GraphData([], [])
    else
      var rest := Merged(pivots[..|pivots| - 1]);
      var p := pivots[|pivots| - 1];
      if Contributes(p) then GraphData(rest.graph + p.results.value.graph, rest.labels + p.results.value.labels)
      else rest
  }

  /** Merging distributes over the pivot list: disabled or unrun pivots add nothing. */
  lemma {:induction false} MergedSplits(a: seq<Pivot>, b: seq<Pivot>)
    ensures Merged(a + b).graph == Merged(a).graph + Merged(b).graph
    ensures Merged(a + b).labels == Merged(a).labels + Merged(b).labels
    decreases |b|
  {
    if b == [] {
      assert a + b == a;
    } else {
      var b' := b[..|b| - 1];
      MergedSplits(a, b');
      assert (a + b)[..|a + b| - 1] == a + b';
    }
  }

  /** Every merged edge comes from a contributing pivot. */
  lemma {:induction false} MergedEdgesFromContributors(pivots: seq<Pivot>, e: Edge)
    requires e in Merged(pivots).graph
    ensures exists i | 0 <= i < |pivots| :: Contributes(pivots[i]) && e in pivots[i].results.value.graph
    decreases |pivots|
  {
    var n := |pivots| - 1;
    var prefix := pivots[..n];
    if e in Merged(prefix).graph {
      MergedEdgesFromContributors(prefix, e);
      var i :| 0 <= i < |prefix| && Contributes(prefix[i]) && e in prefix[i].results.value.graph;
      assert pivots[i] == prefix[i];
    } else {
      assert Contributes(pivots[n]) && e in pivots[n].results.value.graph;
    }
  }

  // ---------------------------------------------------------------------
  // Dropping repeated edges
  // ---------------------------------------------------------------------

  /**
   * An endpoint as `JSON.stringify` writes it: NaN and invalid dates both
   * become `null`; every other value is told apart by its text.
   */
  function JsonEndpoint(v: JsValue): JsValue {
    match v
    case Number(NaN) => Null
    case DateObj(NaN) => Null
    case _ => v
  }

  /** `JSON.stringify({source, destination})`, up to equality. */
  function EdgeKey(e: Edge): (JsValue, JsValue) {
    (JsonEndpoint(e.source), JsonEndpoint(e.destination))
  }

  function Keys(edges: seq<Edge>): set<(JsValue, JsValue)> {
    set e | e in edges :: EdgeKey(e)
  }

  /** The first edge of each key, in input order. */
  function FirstOccurrences(edges: seq<Edge>): seq<Edge> {
    if edges == [] then []
    else
      var prefix := edges[..|edges| - 1];
      var e := edges[|edges| - 1];
      if EdgeKey(e) in Keys(prefix) then FirstOccurrences(prefix) else FirstOccurrences(prefix) + [e]
  }

  /**
   * The kept edges are input edges with pairwise distinct keys, and every
   * key of the input is kept.
   */
  lemma {:induction false} FirstOccurrencesFacts(edges: seq<Edge>)
    ensures forall e | e in FirstOccurrences(edges) :: e in edges
    ensures Keys(FirstOccurrences(edges)) == Keys(edges)
    ensures forall i, j | 0 <= i < j < |FirstOccurrences(edges)| ::
              EdgeKey(FirstOccurrences(edges)[i]) != EdgeKey(FirstOccurrences(edges)[j])
    decreases |edges|
  {
    if edges != [] {
      var n := |edges| - 1;
      var prefix := edges[..n];
      FirstOccurrencesFacts(prefix);
      assert edges == prefix + [edges[n]];
      assert Keys(edges) == Keys(prefix) + {EdgeKey(edges[n])};
      var kept := FirstOccurrences(prefix);
      if EdgeKey(edges[n]) !in Keys(prefix) {
        assert Keys(kept + [edges[n]]) == Keys(kept) + {EdgeKey(edges[n])};
        forall i | 0 <= i < |kept|
          ensures EdgeKey(kept[i]) != EdgeKey(edges[n])
        {
          assert kept[i] in kept;
        }
      }
    }
  }

  /** The edge kept for a key is the first input edge with that key. */
  lemma {:induction false} KeepsFirst(edges: seq<Edge>, i: int)
    requires 0 <= i < |edges|
    requires forall j | 0 <= j < i :: EdgeKey(edges[j]) != EdgeKey(edges[i])
    ensures edges[i] in FirstOccurrences(edges)
    decreases |edges|
  {
    var n := |edges| - 1;
    var prefix := edges[..n];
    if i < n {
      KeepsFirst(prefix, i);
    } else {
      forall e | e in prefix
        ensures EdgeKey(e) != EdgeKey(edges[i])
      {
        var j :| 0 <= j < n && prefix[j] == e;
        assert edges[j] == e;
      }
    }
  }

  /** Adding edges never changes what was kept before them: the order of the input is kept. */
  lemma {:induction false} FirstOccurrencesGrow(a: seq<Edge>, b: seq<Edge>)
    ensures FirstOccurrences(a) <= FirstOccurrences(a + b)
    decreases |b|
  {
    if b == [] {
      assert a + b == a;
    } else {
      var b' := b[..|b| - 1];
      FirstOccurrencesGrow(a, b');
      assert (a + b)[..|a + b| - 1] == a + b';
    }
  }

  // ---------------------------------------------------------------------
  // Differences against the previous upload
  // ---------------------------------------------------------------------

  /** `_.difference(a, b)`: the elements of `a`, in order, that are not in `b`. */
  function Difference<T(==,!new)>(a: seq<T>, b: seq<T>): (r: seq<T>)
    ensures forall x :: x in r <==> x in a && x !in b
  {
    if a == [] then []
    else
      var rest := Difference(a[..|a| - 1], b);
      var x := a[|a| - 1];
      assert forall y :: y in a <==> y in a[..|a| - 1] || y == x by {
        assert a == a[..|a| - 1] + [x];
      }
      if x in b then rest else rest + [x]
  }

  function DiffOf(merged: GraphData, previous: GraphData): Diff {
    Diff(Difference(merged.graph, previous.graph), Difference(previous.graph, merged.graph),
         Difference(merged.labels, previous.labels), Difference(previous.labels, merged.labels))
  }

  /**
   * Removing the removed edges from the previous graph and adding the new
   * ones gives exactly the merged graph, and nothing is both new and
   * removed; the same holds for labels.
   */
  lemma DiffReconstructs(merged: GraphData, previous: GraphData)
    ensures var d := DiffOf(merged, previous);
      && (set x | x in previous.graph) - (set x | x in d.removedEdges) + (set x | x in d.newEdges) == (set x | x in merged.graph)
      && (set x | x in previous.labels) - (set x | x in d.removedNodes) + (set x | x in d.newNodes) == (set x | x in merged.labels)
      && (forall x | x in d.newEdges :: x !in d.removedEdges)
      && (forall x | x in d.newNodes :: x !in d.removedNodes)
  {
  }

  /** Nothing of `a` survives when every element of `a` is in `b`. */
  lemma {:induction false} DifferenceCovered<T(!new)>(a: seq<T>, b: seq<T>)
    requires forall x | x in a :: x in b
    ensures Difference(a, b) == []
    decreases |a|
  {
    if a != [] {
      DifferenceCovered(a[..|a| - 1], b);
    }
  }

  /** Uploading the same edges and labels again changes nothing. */
  lemma SameGraphNoDiff(g: GraphData)
    ensures DiffOf(g, g) == Diff([], [], [], [])
  {
    DifferenceCovered(g.graph, g.graph);
    DifferenceCovered(g.labels, g.labels);
  }

  // ---------------------------------------------------------------------
  // createGraph
  // ---------------------------------------------------------------------

  /** The graph the contributing pivots give, each pair of endpoints once. */
  function Deduplicated(pivots: seq<Pivot>): GraphData {
    var merged := Merged(pivots);
    GraphData(FirstOccurrences(merged.graph), merged.labels)
  }

  function UploadOf(data: GraphData, flake: string): UploadData {
    UploadData(data.graph, data.labels, "splunkUpload" + flake, "edgelist",
               Bindings("source", "destination", "node"))
  }

  /** `createGraph` keeps the last uploaded graph between calls. */
  class PivotUploader {
    var previousGraph: GraphData

    constructor ()
      ensures previousGraph == GraphData([], [])
    {
      previousGraph := GraphData([], []);
    }

    /**
     * Merges the enabled pivots, drops repeated edges, hands the changes
     * since the previous call to the dataframe (whose resulting data
     * `frame` gives), and remembers and returns that data.
     */
    method CreateGraph(pivots: seq<Pivot>, flake: string, frame: Diff -> GraphData) returns (uploadData: UploadData)
      modifies this
      ensures var d := DiffOf(Deduplicated(pivots), old(previousGraph));
        uploadData == UploadOf(frame(d), flake)
      ensures previousGraph == GraphData(uploadData.graph, uploadData.labels)
    {
      var mergedGraph: seq<Edge> := [];
      var mergedLabels: seq<Label> := [];
      var i := 0;
      while i < |pivots|
        invariant 0 <= i <= |pivots|
        invariant GraphData(mergedGraph, mergedLabels) == Merged(pivots[..i])
      {
        var pivot := pivots[i];
        if pivot.results.Some? && Truthy(pivot.enabled) {
          mergedGraph := mergedGraph + pivot.results.value.graph;
          mergedLabels := mergedLabels + pivot.results.value.labels;
        }
        assert pivots[..i + 1][..i] == pivots[..i];
        i := i + 1;
      }
      assert pivots[..i] == pivots;

      var seen: set<(JsValue, JsValue)> := {};
      var dedupEdges: seq<Edge> := [];
      var j := 0;
      while j < |mergedGraph|
        invariant 0 <= j <= |mergedGraph|
        invariant seen == Keys(mergedGraph[..j])
        invariant dedupEdges == FirstOccurrences(mergedGraph[..j])
      {
        var e := mergedGraph[j];
        assert mergedGraph[..j + 1] == mergedGraph[..j] + [e];
        assert mergedGraph[..j + 1][..j] == mergedGraph[..j];
        if EdgeKey(e) !in seen {
          seen := seen + {EdgeKey(e)};
          dedupEdges := dedupEdges + [e];
        }
        j := j + 1;
      }
      assert mergedGraph[..j] == mergedGraph;

      var merged := GraphData(dedupEdges, mergedLabels);
      var diff := DiffOf(merged, previousGraph);
      var data := frame(diff);
      uploadData := UploadOf(data, flake);
      previousGraph := GraphData(uploadData.graph, uploadData.labels);
    }
  }
}
