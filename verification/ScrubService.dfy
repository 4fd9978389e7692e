/** The scrubber as it runs: a recursion that fills its result in loops and marks objects in a shared set. */
module Scrubbers {
  import opened ScrubModel

  /** The shared, growing set of objects already entered. */
  class SeenSet {
    var refs: set<Ref>

    constructor ()
      ensures refs == {}
    {
      refs := {};
    }

    method Add(ref: Ref)
      modifies this
      ensures refs == old(refs) + {ref}
    {
      refs := refs + {ref};
    }
  }

  class Scrubber {
    const graph: Graph

    constructor (graph: Graph)
      ensures this.graph == graph
    {
      this.graph := graph;
    }

    method ScrubRoot(obj: Value, extraKeys: seq<string>) returns (out: Out)
      ensures out == Scrub(graph, obj, DenySet(extraKeys), {}).0
    {
      var seen := new SeenSet();
      out := ScrubInto(obj, extraKeys, seen);
    }

    method ScrubInto(obj: Value, extraKeys: seq<string>, seen: SeenSet) returns (out: Out)
      modifies seen
      ensures (out, seen.refs) == Scrub(graph, obj, DenySet(extraKeys), old(seen.refs))
      decreases graph.Keys - seen.refs, 0
    {
      match obj
      case Undefined => return OutUndefined;
      case Null => return OutNull;
      case Primitive(n) => return OutPrimitive(n);
      case Text(s) => return OutText(s);
      case Object(ref) =>
        if ref !in graph || graph[ref].Opaque? { return OutOpaque(ref); }
        if ref in seen.refs { return OutText(CIRCULAR); }
        assert ref in graph.Keys - seen.refs && ref !in graph.Keys - (seen.refs + {ref});
        seen.Add(ref);
        if graph[ref].Items? {
          var outs := ScrubArray(graph[ref].values, extraKeys, seen);
          return OutItems(outs);
        }
        var result := ScrubRecord(graph[ref].entries, extraKeys, seen);
        return OutRecord(result);
    }

    method ScrubArray(values: seq<Value>, extraKeys: seq<string>, seen: SeenSet) returns (outs: seq<Out>)
      modifies seen
      ensures (outs, seen.refs) == ScrubItems(graph, values, DenySet(extraKeys), old(seen.refs))
      decreases graph.Keys - seen.refs, 1
    {
      outs := [];
      ghost var deny, start := DenySet(extraKeys), seen.refs;
      ghost var whole := ScrubItems(graph, values, deny, start);
      assert values[0..] == values;
      for i := 0 to |values|
        invariant start <= seen.refs
        invariant whole.0 == outs + ScrubItems(graph, values[i..], deny, seen.refs).0
        invariant whole.1 == ScrubItems(graph, values[i..], deny, seen.refs).1
      {
        assert values[i..][0] == values[i] && values[i..][1..] == values[i + 1..];
        assert graph.Keys - seen.refs <= graph.Keys - start;
        var o := ScrubInto(values[i], extraKeys, seen);
        outs := outs + [o];
      }
      assert values[|values|..] == [] && whole.0 == outs;
    }

    /** Tracing keys first, then the denylist, then the nested values. */
    method ScrubRecord(entries: seq<Entry>, extraKeys: seq<string>, seen: SeenSet) returns (result: seq<OutEntry>)
      modifies seen
      ensures (result, seen.refs) == ScrubEntries(graph, entries, DenySet(extraKeys), old(seen.refs))
      decreases graph.Keys - seen.refs, 1
    {
      result := [];
      var denySet := DenySet(extraKeys);
      ghost var start := seen.refs;
      ghost var whole := ScrubEntries(graph, entries, denySet, start);
      assert entries[0..] == entries;
      for i := 0 to |entries|
        invariant start <= seen.refs
        invariant whole.0 == result + ScrubEntries(graph, entries[i..], denySet, seen.refs).0
        invariant whole.1 == ScrubEntries(graph, entries[i..], denySet, seen.refs).1
      {
        assert entries[i..][0] == entries[i] && entries[i..][1..] == entries[i + 1..];
        assert graph.Keys - seen.refs <= graph.Keys - start;
        var e := entries[i];
        var lowerKey := Lower(e.key);
        var o: Out;
        if lowerKey in NeverScrubKeys() {
          o := ScrubInto(e.value, extraKeys, seen);
        } else if lowerKey in denySet {
          o := ScrubValue(lowerKey, e.value);
        } else {
          o := ScrubInto(e.value, extraKeys, seen);
        }
        result := result + [OutEntry(e.key, o)];
      }
      assert entries[|entries|..] == [] && whole.0 == result;
    }
  }
}
