/** The two generic loops used for listings. */
module Slices {
  import opened Common

  /** The kept results, in input order. */
  function FilterMapped<I, O>(input: seq<I>, transform: I -> Option<O>): seq<O> {
    if input == [] then []
    else
      var n := |input| - 1;
      var front := FilterMapped(input[..n], transform);
      match transform(input[n])
      case None => front
      case Some(o) => front + [o]
  }

  /** The results that are kept are those of the inputs at `from`, in input order, and no other input is accepted. */
  ghost predicate KeptFrom<I, O>(input: seq<I>, transform: I -> Option<O>, result: seq<O>, from: seq<nat>) {
    && |from| == |result|
    && (forall k :: 0 <= k < |from| ==> from[k] < |input| && transform(input[from[k]]) == Some(result[k]))
    && (forall k, l :: 0 <= k < l < |from| ==> from[k] < from[l])
    && (forall i: nat :: i < |input| && transform(input[i]).Some? ==> i in from)
  }

  lemma KeptUntouched<I, O>(input: seq<I>, transform: I -> Option<O>, result: seq<O>, from: seq<nat>)
    requires input != [] && KeptFrom(input[..|input| - 1], transform, result, from)
    requires transform(input[|input| - 1]).None?
    ensures KeptFrom(input, transform, result, from)
  {
    var n := |input| - 1;
    forall i: nat | i < |input| && transform(input[i]).Some? ensures i in from { assert input[..n][i] == input[i]; }
    forall k | 0 <= k < |from| ensures from[k] < |input| && transform(input[from[k]]) == Some(result[k]) {
      assert input[..n][from[k]] == input[from[k]];
    }
  }

  lemma KeptOneMore<I, O>(input: seq<I>, transform: I -> Option<O>, result: seq<O>, from: seq<nat>, o: O)
    requires input != [] && KeptFrom(input[..|input| - 1], transform, result, from)
    requires transform(input[|input| - 1]) == Some(o)
    ensures KeptFrom(input, transform, result + [o], from + [|input| - 1])
  {
    var n := |input| - 1;
    var result', from' := result + [o], from + [n];
    forall i: nat | i < |input| && transform(input[i]).Some? ensures i in from' {
      if i < n { assert input[..n][i] == input[i] && i in from; }
    }
    forall k | 0 <= k < |from'| ensures from'[k] < |input| && transform(input[from'[k]]) == Some(result'[k]) {
      if k < |from| { assert input[..n][from[k]] == input[from[k]]; }
    }
  }

  lemma {:induction false} KeptInOrder<I, O>(input: seq<I>, transform: I -> Option<O>) returns (from: seq<nat>)
    ensures KeptFrom(input, transform, FilterMapped(input, transform), from)
  {
    if input == [] {
      from := [];
    } else {
      var n := |input| - 1;
      var front := FilterMapped(input[..n], transform);
      from := KeptInOrder(input[..n], transform);
      match transform(input[n])
      case None => KeptUntouched(input, transform, front, from);
      case Some(o) =>
        KeptOneMore(input, transform, front, from, o);
        from := from + [n];
    }
  }

  method FilterMap<I, O>(input: seq<I>, transform: I -> Option<O>) returns (result: seq<O>)
    ensures result == FilterMapped(input, transform)
    ensures exists from :: KeptFrom(input, transform, result, from)
  {
    result := [];
    var i := 0;
    while i < |input|
      invariant 0 <= i <= |input| && result == FilterMapped(input[..i], transform)
    {
      assert input[..i + 1][..i] == input[..i];
      match transform(input[i]) {
        case None =>
        case Some(entry) => result := result + [entry];
      }
      i := i + 1;
    }
    assert input[..|input|] == input;
    ghost var from := KeptInOrder(input, transform);
  }

  /** MapE fails exactly when some transform fails, with the first failure; else it keeps length and order. */
  method MapE<I, O(0)>(input: seq<I>, transform: I -> Result<O>) returns (r: Result<seq<O>>)
    ensures r.Ok? <==> forall i :: 0 <= i < |input| ==> transform(input[i]).Ok?
    ensures r.Ok? ==> |r.value| == |input| && forall i :: 0 <= i < |input| ==> Ok(r.value[i]) == transform(input[i])
    ensures r.Err? ==> exists i :: 0 <= i < |input| && transform(input[i]) == Err(r.error)
                         && forall j :: 0 <= j < i ==> transform(input[j]).Ok?
  {
    var result := new O[|input|];
    var i := 0;
    while i < result.Length
      invariant 0 <= i <= |input|
      invariant forall j :: 0 <= j < i ==> transform(input[j]) == Ok(result[j])
    {
      var entry := transform(input[i]);
      if entry.Err? {
        return Err(entry.error);
      }
      result[i] := entry.value;
      i := i + 1;
    }
    return Ok(result[..]);
  }
}
