/** The default-value lookups of `src/lib.rs` over a vector of `i32`. */
module Lookup {
  import opened RustOption

  /** `Vec::get` (through its slice): the element at `i` when `i` is in bounds. */
  function Get(v: seq<int>, i: nat): (r: Option<int>)
    ensures r.Some? <==> i < |v|
    ensures r.Some? ==> r.value == v[i]
  {
    if i < |v| then Some(v[i]) else None
  }

  /** An independent reading of `Vec::get`: walk the vector from its head. */
  function Nth(v: seq<int>, i: nat): (r: Option<int>)
    decreases |v|
  {
    if v == [] then None
    else if i == 0 then Some(v[0])
    else Nth(v[1..], i - 1)
  }

  /** Indexing and walking agree: `Get` answers exactly what the walk finds. */
  lemma {:induction false} GetAgreesWithNth(v: seq<int>, i: nat)
    ensures Get(v, i) == Nth(v, i)
  {
    if v != [] && i != 0 {
      GetAgreesWithNth(v[1..], i - 1);
    }
  }

  /** `get_or_default`: the `if let` form. */
  function GetOrDefault(v: seq<int>, i: nat, default: int): (r: int)
    ensures i < |v| ==> r == v[i]
    ensures |v| <= i ==> r == default
  {
    var element := Get(v, i);
    if element.Some? then element.value else default
  }

  /** `get_or_default2`: the `match` form, which agrees with the `if let` form everywhere. */
  function GetOrDefault2(v: seq<int>, i: nat, default: int): (r: int)
    ensures r == GetOrDefault(v, i, default)
  {
    match Get(v, i)
    case Some(element) => element
    case _ => default
  }

  /** `get_or_default3`: element 100, or -1 when the vector is shorter. */
  function GetOrDefault3(v: seq<int>): (r: int)
    ensures 100 < |v| ==> r == v[100]
    ensures |v| <= 100 ==> r == -1
    ensures r == GetOrDefault(v, 100, -1)
  {
    Get(v, 100).UnwrapOr(-1)
  }

  /**
   * The default reaches the result exactly when the index is out of bounds:
   * out of bounds every default comes back, in bounds no choice of default
   * changes the answer.
   */
  lemma DefaultReachesResultIffOutOfBounds(v: seq<int>, i: nat)
    ensures (forall d :: GetOrDefault(v, i, d) == d) <==> |v| <= i
    ensures (forall d, e :: GetOrDefault(v, i, d) == GetOrDefault(v, i, e)) <==> i < |v|
  {
    if i < |v| {
      assert GetOrDefault(v, i, v[i] + 1) != v[i] + 1;
    } else {
      assert GetOrDefault(v, i, 0) != GetOrDefault(v, i, 1);
    }
  }

  /** The lookups `demo` performs, with the values it logs. */
  lemma DemoLookups()
    ensures Get([1, 2, 3], 100) == None
    ensures GetOrDefault([1, 2, 3], 1, -1) == 2
    ensures GetOrDefault2([1, 2, 3], 100, -1) == -1
    ensures GetOrDefault3([1, 2, 3, 4, 5, 6]) == -1
    ensures Get([1, 2, 3], 100).UnwrapOr(-1) == -1
  {
  }
}
