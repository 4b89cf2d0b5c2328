/** Tilings of a row of words by phrases, whatever the phrases are. */
module Tiling {
  import opened Schema

  // What leftmost-longest matching means, and why there is only one such tiling.

  /** A phrase n words long, owned by an entry. */
  datatype Match = Match(start: nat, length: nat, entry: nat)

  /** Where phrases are: which stretches (start, length) are phrases, who owns them, and where the row ends. */
  datatype Spots = Spots(at: (int, int) -> bool, owner: (int, int) -> nat, end: nat)

  /** Phrases are stretches of at least one word of the row. */
  ghost predicate WithinRow(s: Spots) {
    forall i, n :: s.at(i, n) ==> 0 <= i && 1 <= n && i + n <= s.end
  }

  ghost predicate Covered(ms: seq<Match>, p: int) {
    exists k | 0 <= k < |ms| :: ms[k].start <= p < ms[k].start + ms[k].length
  }

  ghost predicate AllLongest(s: Spots, i: int, ms: seq<Match>) {
    forall k | 0 <= k < |ms| :: IsLongestMatch(s, ms[k]) && i <= ms[k].start
  }

  ghost predicate InOrder(ms: seq<Match>) {
    forall j, k | 0 <= j < k < |ms| :: ms[j].start + ms[j].length <= ms[k].start
  }

  ghost predicate NonePassedOver(s: Spots, i: int, ms: seq<Match>) {
    forall p, n | i <= p < s.end && !Covered(ms, p) :: !s.at(p, n)
  }

  /** Matches from position i on: each a claimed phrase with no longer one at the same word, in order
      and disjoint, and no phrase of any length beginning at a word that was passed over. */
  ghost predicate LeftmostLongest(s: Spots, i: int, ms: seq<Match>) {
    AllLongest(s, i, ms) && InOrder(ms) && NonePassedOver(s, i, ms)
  }

  ghost predicate IsLongestMatch(s: Spots, m: Match) {
    && s.at(m.start, m.length)
    && m.entry == s.owner(m.start, m.length)
    && forall n | n > m.length :: !s.at(m.start, n)
  }

  lemma SkipOne(s: Spots, i: nat, ms: seq<Match>)
    requires LeftmostLongest(s, i + 1, ms) && forall m :: !s.at(i, m)
    ensures LeftmostLongest(s, i, ms)
  {
  }

  lemma CoveredByRest(m: Match, rest: seq<Match>, p: int)
    ensures Covered([m] + rest, p) <==> m.start <= p < m.start + m.length || Covered(rest, p)
  {
    var ms := [m] + rest;
    assert ms[0] == m;
    assert forall k | 0 <= k < |rest| :: ms[k + 1] == rest[k];
    if Covered(ms, p) {
      var k :| 0 <= k < |ms| && ms[k].start <= p < ms[k].start + ms[k].length;
      assert k > 0 ==> ms[k] == rest[k - 1];
    }
  }

  lemma InOrderByRest(m: Match, rest: seq<Match>)
    ensures InOrder([m] + rest) <==> InOrder(rest) && forall k | 0 <= k < |rest| :: m.start + m.length <= rest[k].start
  {
    var ms := [m] + rest;
    assert ms[0] == m;
    assert forall k | 0 <= k < |rest| :: rest[k] == ms[k + 1];
    assert forall k | 1 <= k < |ms| :: ms[k] == rest[k - 1];
  }

  lemma LongestByRest(s: Spots, i: int, m: Match, rest: seq<Match>)
    ensures AllLongest(s, i, [m] + rest) <==> IsLongestMatch(s, m) && i <= m.start && AllLongest(s, i, rest)
  {
    var ms := [m] + rest;
    assert ms[0] == m;
    assert forall k | 0 <= k < |rest| :: rest[k] == ms[k + 1];
    assert forall k | 1 <= k < |ms| :: ms[k] == rest[k - 1];
  }

  lemma PrependMatch(s: Spots, i: nat, m: Match, rest: seq<Match>)
    requires m.start == i && IsLongestMatch(s, m) && LeftmostLongest(s, i + m.length, rest)
    ensures LeftmostLongest(s, i, [m] + rest)
  {
    LongestByRest(s, i, m, rest);
    InOrderByRest(m, rest);
    forall p, n | i <= p < s.end && !Covered([m] + rest, p) ensures !s.at(p, n) {
      CoveredByRest(m, rest, p);
    }
  }

  lemma DropMatch(s: Spots, i: nat, m: Match, rest: seq<Match>)
    requires LeftmostLongest(s, i, [m] + rest)
    ensures IsLongestMatch(s, m) && i <= m.start
    ensures LeftmostLongest(s, m.start + m.length, rest)
  {
    LongestByRest(s, i, m, rest);
    InOrderByRest(m, rest);
    forall p, n | m.start + m.length <= p < s.end && !Covered(rest, p) ensures !s.at(p, n) {
      CoveredByRest(m, rest, p);
    }
  }

  /** The first match of one list cannot be passed over by another. */
  lemma FirstIsFirst(s: Spots, i: nat, m: Match, xs: seq<Match>, ys: seq<Match>)
    requires WithinRow(s)
    requires LeftmostLongest(s, i, [m] + xs) && LeftmostLongest(s, i, ys)
    ensures ys != [] && ys[0].start <= m.start
  {
    DropMatch(s, i, m, xs);
    assert s.at(m.start, m.length);
    assert Covered(ys, m.start);
    var k :| 0 <= k < |ys| && ys[k].start <= m.start < ys[k].start + ys[k].length;
    assert IsLongestMatch(s, ys[0]);
    assert k > 0 ==> ys[0].start + ys[0].length <= ys[k].start;
  }

  /** There is only one such list of matches. */
  lemma {:induction false} LeftmostLongestIsUnique(s: Spots, i: nat, xs: seq<Match>, ys: seq<Match>)
    requires WithinRow(s)
    requires LeftmostLongest(s, i, xs) && LeftmostLongest(s, i, ys)
    ensures xs == ys
    decreases |xs|
  {
    if xs == [] {
      if ys != [] { FirstNotEmpty(s, i, ys, xs); }
    } else {
      SameFirst(s, i, xs, ys);
      LeftmostLongestIsUnique(s, xs[0].start + xs[0].length, xs[1..], ys[1..]);
      assert xs == [xs[0]] + xs[1..] && ys == [ys[0]] + ys[1..];
    }
  }

  lemma SameFirst(s: Spots, i: nat, xs: seq<Match>, ys: seq<Match>)
    requires WithinRow(s)
    requires LeftmostLongest(s, i, xs) && LeftmostLongest(s, i, ys) && xs != []
    ensures ys != [] && xs[0] == ys[0] && 0 <= xs[0].start + xs[0].length
    ensures LeftmostLongest(s, xs[0].start + xs[0].length, xs[1..])
    ensures LeftmostLongest(s, xs[0].start + xs[0].length, ys[1..])
  {
    FirstNotEmpty(s, i, xs, ys);
    FirstNotEmpty(s, i, ys, xs);
    DropFirst(s, i, xs);
    DropFirst(s, i, ys);
    SameLongest(s, xs[0], ys[0]);
  }

  lemma FirstNotEmpty(s: Spots, i: nat, xs: seq<Match>, ys: seq<Match>)
    requires WithinRow(s)
    requires LeftmostLongest(s, i, xs) && LeftmostLongest(s, i, ys) && xs != []
    ensures ys != [] && ys[0].start <= xs[0].start
  {
    assert xs == [xs[0]] + xs[1..];
    FirstIsFirst(s, i, xs[0], xs[1..], ys);
  }

  lemma DropFirst(s: Spots, i: nat, xs: seq<Match>)
    requires LeftmostLongest(s, i, xs) && xs != []
    ensures IsLongestMatch(s, xs[0]) && LeftmostLongest(s, xs[0].start + xs[0].length, xs[1..])
  {
    assert xs == [xs[0]] + xs[1..];
    DropMatch(s, i, xs[0], xs[1..]);
  }

  lemma SameLongest(s: Spots, m: Match, n: Match)
    requires IsLongestMatch(s, m) && IsLongestMatch(s, n) && m.start == n.start
    ensures m == n
  {
  }

  /** A scan of the row from i on: take the match at a word and go on behind it, or pass the word over. */
  function TilesBy(tile: int -> Option<Match>, end: nat, i: nat): seq<Match>
    requires i <= end
    decreases end - i
  {
    if i == end then []
    else
      match tile(i)
      case None => TilesBy(tile, end, i + 1)
      case Some(m) => if 1 <= m.length && i + m.length <= end then [m] + TilesBy(tile, end, i + m.length) else []
  }

  /** What the scan must find at k. */
  ghost predicate Faithful(s: Spots, tile: int -> Option<Match>, k: nat) {
    match tile(k)
    case None => forall n :: !s.at(k, n)
    case Some(m) => m.start == k && 1 <= m.length && k + m.length <= s.end && IsLongestMatch(s, m)
  }

  /** A scan that finds the longest phrase at every word computes a leftmost-longest tiling. */
  lemma {:induction false} ScanIsLeftmostLongest(s: Spots, tile: int -> Option<Match>, i: nat)
    requires i <= s.end
    requires forall k: nat | i <= k < s.end :: Faithful(s, tile, k)
    ensures LeftmostLongest(s, i, TilesBy(tile, s.end, i))
    decreases s.end - i
  {
    if i < s.end {
      assert Faithful(s, tile, i);
      match tile(i)
      case None =>
        ScanIsLeftmostLongest(s, tile, i + 1);
        SkipOne(s, i, TilesBy(tile, s.end, i + 1));
      case Some(m) =>
        ScanIsLeftmostLongest(s, tile, i + m.length);
        PrependMatch(s, i, m, TilesBy(tile, s.end, i + m.length));
    }
  }
}
