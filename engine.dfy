/**
 * The scale entry point of the deployment engine: the `SCALE_NODES` setting
 * is a Python literal that must be a `(lo, hi)` tuple with `lo <= hi`, and it
 * denotes the inclusive range of worker indices to scale.
 */
module Engine {
  import opened Outcomes

  /** What `ast.literal_eval` may make of the setting (integer items only). */
  datatype Literal =
    | NoneLit
    | IntLit(n: int)
    | StrLit(s: string)
    | ListLit(elems: seq<int>)
    | TupleLit(items: seq<int>)

  /** Python truthiness: `None`, `0`, `''` and empty containers are false. */
  predicate Truthy(v: Literal) {
    match v
    case NoneLit => false
    case IntLit(n) => n != 0
    case StrLit(s) => s != ""
    case ListLit(elems) => elems != []
    case TupleLit(items) => items != []
  }

  const EmptyScaleMsg := "Scale nodes is none, please check."
  const ScaleTypeMsg := "Scale nodes type is invalid, please check."
  const InvalidScaleMsg := "Invalid `SCALE_NODES`, please check."

  /**
   * `_validate_scale`: a falsy value, then a value that is not a tuple, then
   * a tuple that is not an ordered pair, each raise with their own message.
   */
  function ValidateScale(v: Literal): (r: Outcome)
    ensures r.Pass? <==> v.TupleLit? && |v.items| == 2 && v.items[0] <= v.items[1]
    ensures !Truthy(v) ==> r == Raise(EmptyScaleMsg)
    ensures Truthy(v) && !v.TupleLit? ==> r == Raise(ScaleTypeMsg)
    ensures Truthy(v) && v.TupleLit? && r.Raise? ==> r == Raise(InvalidScaleMsg)
  {
    if !Truthy(v) then Raise(EmptyScaleMsg)
    else if !v.TupleLit? then Raise(ScaleTypeMsg)
    else if |v.items| != 2 || v.items[0] > v.items[1] then Raise(InvalidScaleMsg)
    else Pass
  }

  /** `list(range(lo, hi))`. */
  function Range(lo: int, hi: int): (r: seq<int>)
    ensures |r| == if lo < hi then hi - lo else 0
    ensures forall i :: 0 <= i < |r| ==> r[i] == lo + i
    decreases hi - lo
  {
    if lo >= hi then [] else [lo] + Range(lo + 1, hi)
  }

  /** `_generate_nodes`: a single index when both bounds agree, the inclusive range otherwise. */
  function GenerateNodes(lo: int, hi: int): seq<int> {
    if lo == hi then [lo] else Range(lo, hi + 1)
  }

  /** The special case for equal bounds is what the range would give anyway. */
  lemma EqualBoundsIsRange(lo: int)
    ensures GenerateNodes(lo, lo) == Range(lo, lo + 1)
  {
    assert Range(lo, lo + 1)[0] == lo;
  }

  /**
   * For ordered bounds the nodes are `lo..hi` inclusive: strictly
   * increasing, `hi - lo + 1` of them, each within the bounds, and every
   * index between the bounds is among them.
   */
  lemma GenerateNodesInclusive(lo: int, hi: int)
    requires lo <= hi
    ensures |GenerateNodes(lo, hi)| == hi - lo + 1
    ensures forall i, j :: 0 <= i < j < |GenerateNodes(lo, hi)| ==> GenerateNodes(lo, hi)[i] < GenerateNodes(lo, hi)[j]
    ensures forall i :: 0 <= i < |GenerateNodes(lo, hi)| ==> lo <= GenerateNodes(lo, hi)[i] <= hi
    ensures forall n :: lo <= n <= hi ==> n in GenerateNodes(lo, hi)
  {
    EqualBoundsIsRange(lo);
    var r := GenerateNodes(lo, hi);
    forall n | lo <= n <= hi
      ensures n in r
    {
      assert r[n - lo] == n;
    }
  }

  /** The call `scale_workers` hands on: the worker indices and the direction. */
  datatype ScaleRequest = ScaleRequest(workers: seq<int>, scaleType: string)

  /**
   * `scale_workers`: validation comes first, so no index list is produced
   * from a setting that is not an ordered pair.
   */
  function ScaleWorkers(v: Literal, scaleType: string): (r: Result<ScaleRequest>)
    ensures r.Ok? <==> ValidateScale(v).Pass?
    ensures r.Err? ==> r.msg == ValidateScale(v).msg
    ensures r.Ok? ==> r.value.scaleType == scaleType
    ensures r.Ok? ==> r.value.workers == Range(v.items[0], v.items[1] + 1)
  {
    var valid := ValidateScale(v);
    if valid.Raise? then Err(valid.msg)
    else
      EqualBoundsIsRange(v.items[0]);
      Ok(ScaleRequest(GenerateNodes(v.items[0], v.items[1]), scaleType))
  }
}
