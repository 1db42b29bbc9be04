/**
 * The JavaScript array operations the vim emulators rely on, with the
 * ECMAScript index normalisation (negative indices count from the end,
 * indices past the end are clamped).
 */
module JsArray {

  /** The index `splice` and `slice` derive from a relative `start`. */
  function RelativeIndex(i: int, len: nat): (r: nat)
    ensures r <= len
    ensures 0 <= i <= len ==> r == i
    ensures i < 0 ==> r == (if len + i < 0 then 0 else len + i)
    ensures i > len ==> r == len
  {
    if i < 0 then (if len + i < 0 then 0 else len + i) else if i > len then len else i
  }

  /** How many elements `splice(start, deleteCount)` removes. */
  function DeleteCount(len: nat, start: int, deleteCount: int): (d: nat)
    ensures RelativeIndex(start, len) + d <= len
  {
    var k := RelativeIndex(start, len);
    if deleteCount < 0 then 0 else if deleteCount > len - k then len - k else deleteCount
  }

  /** The array that `a.splice(start, deleteCount, ...items)` leaves behind. */
  function Spliced<T>(a: seq<T>, start: int, deleteCount: int, items: seq<T>): (r: seq<T>)
    ensures |r| == |a| - DeleteCount(|a|, start, deleteCount) + |items|
    ensures r[..RelativeIndex(start, |a|)] == a[..RelativeIndex(start, |a|)]
    ensures 0 <= start && 0 <= deleteCount && start + deleteCount <= |a| ==>
      r == a[..start] + items + a[start + deleteCount..]
  {
    var k := RelativeIndex(start, |a|);
    a[..k] + items + a[k + DeleteCount(|a|, start, deleteCount)..]
  }

  /** The array that `a.splice(start, deleteCount, ...)` returns: the removed elements. */
  function Removed<T>(a: seq<T>, start: int, deleteCount: int): (r: seq<T>)
    ensures |r| == DeleteCount(|a|, start, deleteCount)
    ensures 0 <= start && 0 <= deleteCount && start + deleteCount <= |a| ==>
      r == a[start..start + deleteCount]
    ensures 0 <= start < |a| && deleteCount == 1 ==> r == [a[start]]
  {
    var k := RelativeIndex(start, |a|);
    a[k..k + DeleteCount(|a|, start, deleteCount)]
  }

  /** `a.slice(start)`. */
  function SliceFrom<T>(a: seq<T>, start: int): (r: seq<T>)
    ensures |r| <= |a|
  {
    a[RelativeIndex(start, |a|)..]
  }

  /** `a.slice(start, end)`. */
  function Slice<T>(a: seq<T>, start: int, end: int): (r: seq<T>)
    ensures |r| <= |a|
  {
    var i := RelativeIndex(start, |a|);
    var j := RelativeIndex(end, |a|);
    if i <= j then a[i..j] else []
  }

  /**
   * `a[i] = x` on an array of strings. A negative index sets a property that is
   * not an element, so the elements do not change; an index past the end grows
   * the array, and the holes it leaves read as `undefined` (here: the empty string).
   */
  function AssignAt(a: seq<string>, i: int, x: string): (r: seq<string>)
    ensures i < 0 ==> r == a
    ensures 0 <= i < |a| ==> r == a[i := x]
    ensures i >= |a| ==> |r| == i + 1 && r[..|a|] == a && r[i] == x
  {
    if i < 0 then a
    else if i < |a| then a[i := x]
    else a + seq(i - |a|, _ => "") + [x]
  }

  /** `a[i]?.length || 0`: the length of an element, 0 when there is none at `i`. */
  function LineLength(a: seq<string>, i: int): nat {
    if 0 <= i < |a| then |a[i]| else 0
  }

  /** `a[i] || ""`: an element, the empty string when there is none at `i`. */
  function LineAt(a: seq<string>, i: int): string {
    if 0 <= i < |a| then a[i] else ""
  }

  /** `a.filter(keep)`: the elements `keep` accepts, in their order. */
  function Filter<T>(a: seq<T>, keep: T -> bool): (r: seq<T>)
    ensures |r| <= |a|
  {
    if |a| == 0 then [] else (if keep(a[0]) then [a[0]] else []) + Filter(a[1..], keep)
  }

  /** An element is in the result exactly when it is in the array and accepted. */
  lemma {:induction false} FilterMembers<T>(a: seq<T>, keep: T -> bool)
    ensures forall x :: x in Filter(a, keep) <==> x in a && keep(x)
    decreases |a|
  {
    if |a| > 0 {
      FilterMembers(a[1..], keep);
      assert a == [a[0]] + a[1..];
    }
  }

  /** Filtering keeps the order: the filter of two arrays end to end is their filters end to end. */
  lemma {:induction false} FilterConcat<T>(a: seq<T>, b: seq<T>, keep: T -> bool)
    ensures Filter(a + b, keep) == Filter(a, keep) + Filter(b, keep)
    decreases |a|
  {
    if |a| == 0 {
      assert a + b == b;
    } else {
      FilterConcat(a[1..], b, keep);
      var head := if keep(a[0]) then [a[0]] else [];
      assert (a + b)[0] == a[0] && (a + b)[1..] == a[1..] + b;
      assert Filter(a + b, keep) == head + Filter(a[1..] + b, keep);
      assert Filter(a, keep) == head + Filter(a[1..], keep);
      assert head + (Filter(a[1..], keep) + Filter(b, keep)) == (head + Filter(a[1..], keep)) + Filter(b, keep);
    }
  }

  /** How many elements `keep` rejects. */
  function Rejected<T>(a: seq<T>, keep: T -> bool): nat {
    if |a| == 0 then 0 else (if keep(a[0]) then 0 else 1) + Rejected(a[1..], keep)
  }

  /** The result is shorter by exactly the number of rejected elements. */
  lemma {:induction false} FilterLength<T>(a: seq<T>, keep: T -> bool)
    ensures |Filter(a, keep)| == |a| - Rejected(a, keep)
    decreases |a|
  {
    if |a| > 0 {
      FilterLength(a[1..], keep);
    }
  }
}
