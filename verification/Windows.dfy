/** Bounded windows over a growing history. */
module Windows {

  /** The last n elements of s, or all of it. */
  function LastN<T>(s: seq<T>, n: nat): (w: seq<T>)
    ensures |w| == if |s| <= n then |s| else n
  {
    if |s| <= n then s else s[|s| - n..]
  }

  /** What the source's windows do on each insertion: drop the oldest when full, then append. */
  function Pushed<T>(w: seq<T>, x: T, capacity: nat): seq<T> {
    (if |w| >= capacity && w != [] then w[1..] else w) + [x]
  }

  /** Pushing into the window of a history gives the window of the longer history. */
  lemma PushIsLastN<T>(history: seq<T>, x: T, capacity: nat)
    requires capacity > 0
    ensures Pushed(LastN(history, capacity), x, capacity) == LastN(history + [x], capacity)
  {}

  /** A smaller window of a window is a window of the history. */
  lemma LastOfLast<T>(s: seq<T>, n: nat, m: nat)
    requires m <= n
    ensures LastN(LastN(s, n), m) == LastN(s, m)
  {}
}
