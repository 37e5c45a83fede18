/** The two JavaScript array operations the tag editor builds new lists with:
    `splice(start, 1)` (remove one element) and `push` (append one element).
    Both are applied to a fresh copy (`slice(0)`), so here they are pure
    functions on sequences. */
module JsArray {

  /** `r` is `s` with the element at position `k` taken out, every other
      element keeping its relative order. */
  ghost predicate RemovedAt<T>(s: seq<T>, r: seq<T>, k: nat)
  {
    k < |s| &&
    |r| == |s| - 1 &&
    (forall j :: 0 <= j < k ==> r[j] == s[j]) &&
    (forall j :: k <= j < |r| ==> r[j] == s[j + 1])
  }

  /** The position `splice` starts at for a relative start `start` on an
      array of length `len`: a negative start counts back from the end and
      is clamped at 0; a start past the end is clamped to the end. */
  function ActualStart(len: nat, start: int): (k: nat)
    ensures k <= len
  {
    if start < 0 then
      (if len + start < 0 then 0 else len + start)
    else if start > len then len
    else start
  }

  /** `s.slice(0)` followed by `splice(start, 1)` on the copy: the copy
      with at most one element removed. */
  function SpliceOne<T>(s: seq<T>, start: int): (r: seq<T>)
    ensures 0 <= start < |s| ==> RemovedAt(s, r, start)
    ensures -|s| <= start < 0 ==> RemovedAt(s, r, |s| + start)
    ensures start < -|s| && |s| > 0 ==> RemovedAt(s, r, 0)
    ensures start >= |s| ==> r == s
    ensures |s| == 0 ==> r == []
  {
    var k := ActualStart(|s|, start);
    if k < |s| then s[..k] + s[k + 1..] else s
  }

  /** `s.slice(0)` followed by `push(x)` on the copy. */
  function Push<T>(s: seq<T>, x: T): (r: seq<T>)
    ensures |r| == |s| + 1
    ensures forall j :: 0 <= j < |s| ==> r[j] == s[j]
    ensures r[|s|] == x
  {
    s + [x]
  }

  /** Removing position `k` takes away exactly one occurrence of `s[k]` and
      nothing else. */
  lemma RemovedAtMultiset<T>(s: seq<T>, r: seq<T>, k: nat)
    requires RemovedAt(s, r, k)
    ensures multiset(r) + multiset{s[k]} == multiset(s)
  {
    assert r == s[..k] + s[k + 1..];
    assert s == s[..k] + [s[k]] + s[k + 1..];
  }
}
