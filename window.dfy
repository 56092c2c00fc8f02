/** The sliding sample window: a `deque(maxlen=n)`, which keeps the last `n` items
    appended to it. */
module Window {
  /** `deque(maxlen=1000)` */
  const WindowSize: nat := 1000

  /** The contents of a `deque(maxlen=n)` after the items of `s` were appended to an empty
      one: the suffix of `s` of length `min(|s|, n)`. */
  function LastN<T>(s: seq<T>, n: nat): (r: seq<T>)
    ensures |r| == if |s| <= n then |s| else n
    ensures r == s[|s| - |r|..]
  {
    if |s| <= n then s else s[|s| - n..]
  }

  /** One `append` on a bounded deque: below capacity the item is added at the end; at
      capacity the oldest item is evicted first. */
  lemma AppendEvictsOldest<T>(b: seq<T>, x: T, n: nat)
    requires 0 < n && |b| <= n
    ensures LastN(b + [x], n) == if |b| < n then b + [x] else b[1..] + [x]
  {
  }

  /** Appending to the window of a history gives the window of the extended history: the
      deque always holds the last `n` items ever appended. */
  lemma LastNAppend<T>(s: seq<T>, x: T, n: nat)
    ensures LastN(LastN(s, n) + [x], n) == LastN(s + [x], n)
  {
  }
}
