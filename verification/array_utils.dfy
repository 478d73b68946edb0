/** The deterministic array helpers: copy, in-place numeric sort and the
    nearest-value search. Numbers are exact reals. */
module ArrayUtils {

  import opened Ordering

  /** The largest finite double; the search below starts from it. */
  const MAX_VALUE: real := 179769313486231570814527423731704356798070567525844996598917476803157260780028538760589558632766878171540458953514382464234321326889464182768467546703537516986049910576551282076245490090389328944075868508455133942304583236903222948165808559332123348274797826204144723168738177180919299881250404026184124858368.0

  function Abs(x: real): (r: real)
    ensures r >= 0.0
    ensures r == x || r == -x
  {
    if x < 0.0 then -x else x
  }

  /** A shallow copy: a new array holding the same elements. */
  method Clone<T>(arr: array<T>) returns (copy: array<T>)
    ensures fresh(copy)
    ensures copy[..] == arr[..]
  {
    copy := new T[arr.Length](i requires 0 <= i < arr.Length reads arr => arr[i]);
  }

  /** The search as written: a reduce whose callback records the closest
      distance and its index but hands back `value` as the accumulator, so
      the index is lost. */
  method Nearest(value: real, arr: array<real>) returns (r: real)
    ensures arr.Length == 0 ==> r == -1.0
    ensures arr.Length > 0 ==> r == value
  {
    var least := MAX_VALUE;
    var diff: real;
    var acc := -1.0;
    for i := 0 to arr.Length
      invariant i == 0 ==> acc == -1.0
      invariant i > 0 ==> acc == value
    {
      var index := acc;
      diff := Abs(arr[i] - value);
      if diff < least {
        least := diff;
        index := i as real;
      }
      acc := value;
    }
    r := acc;
  }

  /** The search as evidently intended: the reducer hands back the index it
      tracks, so the result is the first index of the element closest to
      `value`, or -1 when the array is empty or no distance is below
      MAX_VALUE. */
  method NearestIndex(value: real, arr: array<real>) returns (r: int)
    ensures -1 <= r < arr.Length
    ensures r == -1 <==> forall i :: 0 <= i < arr.Length ==> Abs(arr[i] - value) >= MAX_VALUE
    ensures r >= 0 ==> Abs(arr[r] - value) < MAX_VALUE
    ensures r >= 0 ==> forall i :: 0 <= i < arr.Length ==> Abs(arr[r] - value) <= Abs(arr[i] - value)
    ensures r >= 0 ==> forall i :: 0 <= i < r ==> Abs(arr[r] - value) < Abs(arr[i] - value)
  {
    var least := MAX_VALUE;
    var diff: real;
    var acc := -1;
    for i := 0 to arr.Length
      invariant -1 <= acc < i
      invariant acc == -1 ==> least == MAX_VALUE
      invariant acc >= 0 ==> least == Abs(arr[acc] - value) < MAX_VALUE
      invariant forall j :: 0 <= j < i ==> least <= Abs(arr[j] - value)
      invariant acc >= 0 ==> forall j :: 0 <= j < acc ==> least < Abs(arr[j] - value)
    {
      var index := acc;
      diff := Abs(arr[i] - value);
      if diff < least {
        least := diff;
        index := i;
      }
      acc := index;
    }
    r := acc;
  }

  /** Running both searches on one array shows the discrepancy: the value
      5.0 is the closest element of [1.0, 5.0], at index 1, yet the search as
      written answers 5.0 -- not an index of the array at all. */
  method NearestCounterexample()
  {
    var arr := new real[2];
    arr[0], arr[1] := 1.0, 5.0;
    var asWritten := Nearest(5.0, arr);
    var intended := NearestIndex(5.0, arr);
    assert asWritten == 5.0;
    assert Abs(arr[1] - 5.0) < Abs(arr[0] - 5.0);
    assert intended == 1;
    assert asWritten != intended as real;
  }

  /** Sorts the array in place into non-decreasing order and returns it. */
  method SortNumeric(arr: array<real>) returns (r: array<real>)
    modifies arr
    ensures r == arr
    ensures NonDecreasing(arr[..])
    ensures multiset(arr[..]) == multiset(old(arr[..]))
  {
    var i := 0;
    while i < arr.Length
      invariant 0 <= i <= arr.Length
      invariant NonDecreasing(arr[..i])
      invariant multiset(arr[..]) == multiset(old(arr[..]))
    {
      SinkInto(arr, i);
      i := i + 1;
    }
    assert arr[..] == arr[..arr.Length];
    r := arr;
  }

  /** One insertion step: moves arr[i] back into the sorted prefix arr[..i]
      by adjacent swaps, so that arr[..i + 1] is sorted. */
  method SinkInto(arr: array<real>, i: nat)
    requires i < arr.Length
    requires NonDecreasing(arr[..i])
    modifies arr
    ensures NonDecreasing(arr[..i + 1])
    ensures multiset(arr[..]) == multiset(old(arr[..]))
  {
    var j := i;
    while j > 0 && arr[j - 1] > arr[j]
      invariant 0 <= j <= i
      invariant forall k, l :: 0 <= k < l <= i && k != j && l != j ==> arr[k] <= arr[l]
      invariant forall l :: j < l <= i ==> arr[j] < arr[l]
      invariant multiset(arr[..]) == multiset(old(arr[..]))
    {
      Swap(arr, j - 1, j);
      j := j - 1;
    }
  }

  /** Exchanges two elements. */
  method Swap(arr: array<real>, i: nat, j: nat)
    requires i < j < arr.Length
    modifies arr
    ensures arr[i] == old(arr[j]) && arr[j] == old(arr[i])
    ensures forall k :: 0 <= k < arr.Length && k != i && k != j ==> arr[k] == old(arr[k])
    ensures multiset(arr[..]) == multiset(old(arr[..]))
  {
    arr[i], arr[j] := arr[j], arr[i];
  }
}
