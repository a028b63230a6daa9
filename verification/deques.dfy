/** A Python `collections.deque(maxlen = cap)` seen as the sequence of its
    elements, oldest first. */
module Deques {

  /** `q.append(x)` on a deque bounded by `cap`: the newest `cap` elements of
      `q + [x]` are kept, the oldest are evicted. */
  function Append<T>(q: seq<T>, x: T, cap: nat): (r: seq<T>)
    ensures |r| <= cap
    ensures |q| < cap ==> r == q + [x]
    ensures 0 < cap <= |q| ==> |r| == cap && r == (q + [x])[|q| + 1 - cap..]
    ensures 0 < cap == |q| ==> r == q[1..] + [x]
    ensures cap > 0 ==> r[|r| - 1] == x
    ensures cap == 0 ==> r == []
  {
    var full := q + [x];
    if |full| <= cap then full else full[|full| - cap..]
  }

  /** The last element of a non-empty sequence (Python's `q[-1]`). */
  function Last<T>(q: seq<T>): T
    requires q != []
  {
    q[|q| - 1]
  }
}
