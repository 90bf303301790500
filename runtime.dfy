/** The runtime prelude the translator emits at the top of every generated
    program (the bounded array `SmartArray` and the helpers `_sub`, `_div`,
    `_mod`), stated as what it means, plus the meaning of Python's `range`,
    which the generated `for` loops iterate over. */
module Runtime {

  /** `max(0, end - start + 1)`: the number of cells of `SmartArray(start, end)`. */
  function Size(start: int, end: int): (n: nat)
    ensures n == 0 <==> end < start
    ensures start <= end ==> n == end - start + 1
  {
    if end - start + 1 > 0 then end - start + 1 else 0
  }

  /** A bounded integer-indexed array over the indices `start..end`: reading
      outside the range gives 0 and writing outside the range does nothing. */
  class SmartArray {
    var start: int
    var end: int
    var data: array<int>

    ghost predicate Valid()
      reads this
    {
      data.Length == Size(start, end)
    }

    /** The value `get(i)` gives: the cell for `i` inside the range, 0 outside. */
    ghost function Value(i: int): int
      reads this, data
      requires Valid()
    {
      if start <= i <= end then data[i - start] else 0
    }

    /** `SmartArray(start, end)`: `max(0, end - start + 1)` cells, all zero. */
    constructor (start: int, end: int)
      ensures Valid() && fresh(data)
      ensures this.start == start && this.end == end
      ensures data.Length == Size(start, end)
      ensures forall k :: 0 <= k < data.Length ==> data[k] == 0
      ensures forall i :: Value(i) == 0
    {
      this.start := start;
      this.end := end;
      var size := Size(start, end);
      data := new int[size](_ => 0);
    }

    /** `_get_idx`: the offset of index `i` in `data`. */
    function GetIdx(i: int): int
      reads this
    {
      i - start
    }

    /** `get(i)`: the cell for `i` when `start <= i <= end`, otherwise 0. */
    method Get(i: int) returns (v: int)
      requires Valid()
      ensures start <= i <= end ==> v == data[i - start]
      ensures !(start <= i <= end) ==> v == 0
      ensures v == Value(i)
    {
      var idx := GetIdx(i);
      v := if 0 <= idx < data.Length then data[idx] else 0;
    }

    /** `set(i, val)`: inside the range the cell for `i` becomes `val` and
        every other index keeps its value; outside the range nothing changes. */
    method Set(i: int, val: int)
      requires Valid()
      modifies data
      ensures Valid()
      ensures start <= i <= end ==> data[..] == old(data[..])[i - start := val]
      ensures !(start <= i <= end) ==> data[..] == old(data[..])
      ensures start <= i <= end ==> Value(i) == val
      ensures forall j :: j != i ==> Value(j) == old(Value(j))
      ensures !(start <= i <= end) ==> forall j :: Value(j) == old(Value(j))
    {
      var idx := GetIdx(i);
      if 0 <= idx < data.Length {
        data[idx] := val;
      }
    }
  }

  /** `_sub(a, b)`, that is `max(0, a - b)`: subtraction truncated at zero. */
  function Sub(a: int, b: int): (r: int)
    ensures r >= 0
    ensures a >= b ==> r == a - b
    ensures a < b ==> r == 0
  {
    if a - b > 0 then a - b else 0
  }

  /** Truncated subtraction is the least non-negative `r` with `a <= b + r`. */
  lemma SubIsLeastCompletion(a: int, b: int, r: int)
    requires r >= 0 && a <= b + r
    ensures a <= b + Sub(a, b) && Sub(a, b) <= r
  {
  }

  /** Python's `a // b` for `b != 0`, which rounds towards minus infinity
      (Dafny's `/` is Euclidean, so the two differ when `b < 0`). */
  function FloorDiv(a: int, b: int): int
    requires b != 0
  {
    if b > 0 || a % b == 0 then a / b else a / b - 1
  }

  /** Python's `a % b` for `b != 0`: it takes the sign of `b`. */
  function FloorMod(a: int, b: int): int
    requires b != 0
  {
    if b > 0 || a % b == 0 then a % b else a % b + b
  }

  /** `_div(a, b)`: `a // b`, and 0 when `b` is 0. */
  function Div(a: int, b: int): (q: int)
    ensures b == 0 ==> q == 0
    ensures b > 0 ==> q * b <= a < q * b + b
    ensures b < 0 ==> q * b >= a > q * b + b
  {
    if b != 0 then FloorDiv(a, b) else 0
  }

  /** `_mod(a, b)`: `a % b`, and 0 when `b` is 0. */
  function Mod(a: int, b: int): (m: int)
    ensures b == 0 ==> m == 0
    ensures b > 0 ==> 0 <= m < b
    ensures b < 0 ==> b < m <= 0
  {
    if b != 0 then FloorMod(a, b) else 0
  }

  /** `_div` and `_mod` agree: `_div(a, b) * b + _mod(a, b) == a` for
      every non-zero `b`, and both are 0 for `b == 0`. */
  lemma DivModAgree(a: int, b: int)
    ensures b != 0 ==> Div(a, b) * b + Mod(a, b) == a
    ensures b == 0 ==> Div(a, b) == 0 && Mod(a, b) == 0
  {
    if b != 0 {
      assert a == b * (a / b) + a % b;
    }
  }

  /** For a positive divisor Python's floor division is Dafny's division. */
  lemma DivPositive(a: int, b: int)
    requires b > 0
    ensures Div(a, b) == a / b && Mod(a, b) == a % b
  {
  }

  /** Python's `range(start, stop, step)` as the sequence it yields. */
  function Range(start: int, stop: int, step: int): seq<int>
    requires step != 0
    decreases if step > 0 then stop - start else start - stop
  {
    if (step > 0 && start < stop) || (step < 0 && start > stop)
    then [start] + Range(start + step, stop, step)
    else []
  }

  /** The indices a generated `FOR .. TO` loop runs over: `range(first, last + 1)`. */
  function ForToIndices(first: int, last: int): seq<int>
  {
    Range(first, last + 1, 1)
  }

  /** The indices a generated `FOR .. DOWNTO` loop runs over: `range(first, last - 1, -1)`. */
  function ForDowntoIndices(first: int, last: int): seq<int>
  {
    Range(first, last - 1, -1)
  }

  /** A `FOR .. TO` loop visits every index from `first` up to `last` once,
      in ascending order, and none at all when `first > last`. */
  lemma {:induction false} ForToSchedule(first: int, last: int)
    ensures |ForToIndices(first, last)| == Size(first, last)
    ensures forall k :: 0 <= k < |ForToIndices(first, last)| ==> ForToIndices(first, last)[k] == first + k
    decreases last - first
  {
    if first <= last {
      ForToSchedule(first + 1, last);
    }
  }

  /** A `FOR .. DOWNTO` loop visits every index from `first` down to `last`
      once, in descending order, and none at all when `first < last`. */
  lemma {:induction false} ForDowntoSchedule(first: int, last: int)
    ensures |ForDowntoIndices(first, last)| == Size(last, first)
    ensures forall k :: 0 <= k < |ForDowntoIndices(first, last)| ==> ForDowntoIndices(first, last)[k] == first - k
    decreases first - last
  {
    if first >= last {
      ForDowntoSchedule(first - 1, last);
    }
  }
}
