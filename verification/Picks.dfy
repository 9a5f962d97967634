/** What a function finds in a list: the last, and all in order. */
module Picks {
  import opened Wrappers

  function LastOf<I, T>(items: seq<I>, pick: I -> Option<T>): Option<T> {
    if items == [] then None
    else
      var n := |items| - 1;
      if pick(items[n]).Some? then pick(items[n]) else LastOf(items[..n], pick)
  }

  function AllOf<I, T>(items: seq<I>, pick: I -> Option<T>): seq<T> {
    if items == [] then []
    else
      var n := |items| - 1;
      AllOf(items[..n], pick) + if pick(items[n]).Some? then [pick(items[n]).value] else []
  }

  lemma {:induction false} OneMorePick<I, T>(items: seq<I>, x: I, pick: I -> Option<T>)
    ensures LastOf(items + [x], pick) == if pick(x).Some? then pick(x) else LastOf(items, pick)
    ensures AllOf(items + [x], pick) == AllOf(items, pick) + if pick(x).Some? then [pick(x).value] else []
  {
    assert (items + [x])[..|items|] == items;
  }
}
