/** When two result sets are the same. */
module CompareAccount {
  import opened Schema
  import opened Compare

  // The relation packages/eval/src/compare.ts decides, cell by cell, without the texts and keys it goes through.

  /** No finite number is printed as a word the quantiser uses, nor any but zero as zero. */
  ghost predicate Prints(rt: Runtime) {
    forall x: real :: rt.precise(x) != "nan" && rt.precise(x) != "inf" && rt.precise(x) != "-inf"
                      && (x != 0.0 ==> rt.precise(x) != "0")
  }

  /** The same number, or two that print alike to as many digits. */
  predicate SameNumber(m: Num, n: Num, rt: Runtime) {
    match (m, n)
    case (Finite(x), Finite(y)) => if x == 0.0 || y == 0.0 then x == y else rt.precise(x) == rt.precise(y)
    case _ => m == n
  }

  /** What a cell counts as a number for: its value, or a text that reads as one where texts are coerced. */
  function NumberOf(c: Cell, rt: Runtime, coerce: bool): Option<Num> {
    if c.Number? then Some(c.n) else if c.Text? && coerce then rt.literal(c.s) else None
  }

  predicate SameCell(c: Cell, d: Cell, rt: Runtime, coerce: bool) {
    match (NumberOf(c, rt, coerce), NumberOf(d, rt, coerce))
    case (Some(m), Some(n)) => SameNumber(m, n, rt)
    case (None, None) => c == d
    case _ => false
  }

  lemma QuantiseMeans(m: Num, n: Num, rt: Runtime)
    requires Prints(rt)
    ensures Quantise(m, rt) == Quantise(n, rt) <==> SameNumber(m, n, rt)
  {
    QuantisedTail(m, rt);
    QuantisedTail(n, rt);
  }

  function Tail(m: Num, rt: Runtime): string {
    match m
    case NaN => "nan"
    case PlusInfinity => "inf"
    case MinusInfinity => "-inf"
    case Finite(x) => if x == 0.0 then "0" else rt.precise(x)
  }

  lemma QuantisedTail(m: Num, rt: Runtime)
    ensures Quantise(m, rt) == "#" + Tail(m, rt) && Quantise(m, rt)[1..] == Tail(m, rt)
  {
  }

  lemma CellsMean(c: Cell, d: Cell, rt: Runtime, coerce: bool)
    requires Prints(rt)
    ensures Normalise(c, rt, coerce) == Normalise(d, rt, coerce) <==> SameCell(c, d, rt, coerce)
  {
    NormaliseSeparates(c, d, rt, coerce);
    var m, n := NumberOf(c, rt, coerce), NumberOf(d, rt, coerce);
    if m.Some? && n.Some? { QuantiseMeans(m.value, n.value, rt); }
  }

  ghost predicate SameRow(r: Row, s: Row, rt: Runtime, coerce: bool) {
    |r| == |s| && forall j | 0 <= j < |r| :: SameCell(r[j], s[j], rt, coerce)
  }

  lemma RowsMean(r: Row, s: Row, rt: Runtime, coerce: bool)
    requires Prints(rt)
    ensures Shows(r, rt, coerce) == Shows(s, rt, coerce) <==> SameRow(r, s, rt, coerce)
  {
    var x, y := Shows(r, rt, coerce), Shows(s, rt, coerce);
    if |r| == |s| {
      forall j | 0 <= j < |r| ensures x[j] == y[j] <==> SameCell(r[j], s[j], rt, coerce) {
        CellsMean(r[j], s[j], rt, coerce);
      }
    }
  }

  // ---- rows in any order ----

  /** p sends the places of one list to those of another of the same length, one to one. */
  ghost predicate Pairing(p: seq<int>, n: int) {
    && |p| == n
    && (forall i | 0 <= i < n :: 0 <= p[i] < n)
    && (forall i, j | 0 <= i < j < n :: p[i] != p[j])
  }

  ghost predicate PairedAlike<T>(p: seq<int>, x: seq<T>, y: seq<T>) {
    |x| == |y| && Pairing(p, |x|) && forall i | 0 <= i < |x| :: x[i] == y[p[i]]
  }

  lemma LastOff<T>(x: seq<T>)
    requires x != []
    ensures x == x[..|x| - 1] + [x[|x| - 1]]
    ensures multiset(x) == multiset(x[..|x| - 1]) + multiset{x[|x| - 1]}
  {
    assert x == x[..|x| - 1] + [x[|x| - 1]];
  }

  lemma OneOut<T>(y: seq<T>, k: nat)
    requires k < |y|
    ensures multiset(y) == multiset(y[..k] + y[k + 1..]) + multiset{y[k]}
  {
    assert y == y[..k] + [y[k]] + y[k + 1..];
  }

  /** Where a place of the list without its k-th element stands in the whole list. */
  function Back(i: int, k: int): int {
    if i < k then i else i + 1
  }

  lemma SameLess<T>(a: multiset<T>, b: multiset<T>, e: T)
    requires a + multiset{e} == b + multiset{e}
    ensures a == b
  {
    assert a == (a + multiset{e}) - multiset{e} && b == (b + multiset{e}) - multiset{e};
  }

  lemma {:induction false} PairUp<T>(x: seq<T>, y: seq<T>) returns (p: seq<int>)
    requires multiset(x) == multiset(y)
    ensures PairedAlike(p, x, y)
    decreases |x|
  {
    assert |multiset(x)| == |x| && |multiset(y)| == |y|;
    p := [];
    if x != [] {
      var n := |x| - 1;
      LastOff(x);
      assert x[n] in multiset(y);
      var k :| 0 <= k < |y| && y[k] == x[n];
      var rest := y[..k] + y[k + 1..];
      OneOut(y, k);
      SameLess(multiset(x[..n]), multiset(rest), x[n]);
      var q := PairUp(x[..n], rest);
      p := PairLast(x, y, k, rest, q);
    }
  }

  lemma PairLast<T>(x: seq<T>, y: seq<T>, k: nat, rest: seq<T>, q: seq<int>) returns (p: seq<int>)
    requires x != [] && |y| == |x| && k < |y| && y[k] == x[|x| - 1] && rest == y[..k] + y[k + 1..]
    requires PairedAlike(q, x[..|x| - 1], rest)
    ensures PairedAlike(p, x, y)
  {
    var n := |x| - 1;
    var front := seq(n, i requires 0 <= i < n => Back(q[i], k));
    p := front + [k];
    forall i | 0 <= i < n ensures 0 <= p[i] < n + 1 && p[i] != k && x[i] == y[p[i]] {
      assert x[i] == x[..n][i] == rest[q[i]];
    }
    forall i, j | 0 <= i < j < n + 1 ensures p[i] != p[j] {
      if j < n { assert q[i] != q[j]; }
    }
  }

  lemma {:induction false} PairedIsSame<T>(p: seq<int>, x: seq<T>, y: seq<T>)
    requires PairedAlike(p, x, y)
    ensures multiset(x) == multiset(y)
    decreases |x|
  {
    if x != [] {
      var n := |x| - 1;
      var k := p[n];
      var rest := y[..k] + y[k + 1..];
      var q := seq(n, i requires 0 <= i < n => if p[i] < k then p[i] else p[i] - 1);
      forall i | 0 <= i < n ensures 0 <= q[i] < n && x[i] == rest[q[i]] {
        assert p[i] != p[n];
      }
      forall i, j | 0 <= i < j < n ensures q[i] != q[j] {
        assert p[i] != p[j] && p[i] != p[n] && p[j] != p[n];
      }
      assert forall i | 0 <= i < n :: x[..n][i] == x[i];
      PairedIsSame(q, x[..n], rest);
      LastOff(x);
      OneOut(y, k);
    }
  }

  /** Row by row as they stand, or in some order. */
  ghost predicate SameRows(a: seq<Row>, e: seq<Row>, options: Options, rt: Runtime) {
    if options.orderSensitive then RowByRow(a, e, options, rt)
    else exists p :: PairedRows(p, a, e, options, rt)
  }

  ghost predicate RowByRow(a: seq<Row>, e: seq<Row>, options: Options, rt: Runtime) {
    |a| == |e| && forall i | 0 <= i < |a| :: SameRow(a[i], e[i], rt, options.coerce)
  }

  ghost predicate PairedRows(p: seq<int>, a: seq<Row>, e: seq<Row>, options: Options, rt: Runtime) {
    |a| == |e| && Pairing(p, |a|) && forall i | 0 <= i < |a| :: SameRow(a[i], e[p[i]], rt, options.coerce)
  }

  lemma PairedMeans(p: seq<int>, a: seq<Row>, e: seq<Row>, options: Options, rt: Runtime)
    requires Prints(rt)
    ensures PairedRows(p, a, e, options, rt) <==>
            PairedAlike(p, ShowsAll(a, rt, options.coerce), ShowsAll(e, rt, options.coerce))
  {
    if |a| == |e| && Pairing(p, |a|) {
      var x, y := ShowsAll(a, rt, options.coerce), ShowsAll(e, rt, options.coerce);
      forall i | 0 <= i < |a| ensures x[i] == y[p[i]] <==> SameRow(a[i], e[p[i]], rt, options.coerce) {
        RowsMean(a[i], e[p[i]], rt, options.coerce);
      }
    }
  }

  /** The verdict is about shape, and about the rows cell by cell. */
  lemma SameMeans(a: ResultSet, e: ResultSet, options: Options, rt: Runtime)
    requires Prints(rt)
    ensures Same(a, e, options, rt) <==> Comparable(a, e) && SameRows(a.rows, e.rows, options, rt)
  {
    if Comparable(a, e) {
      if options.orderSensitive { InOrderMeans(a.rows, e.rows, options, rt); }
      else { UnorderedMeans(a.rows, e.rows, options, rt); }
    }
  }

  lemma InOrderMeans(a: seq<Row>, e: seq<Row>, options: Options, rt: Runtime)
    requires Prints(rt)
    ensures ShowsAll(a, rt, options.coerce) == ShowsAll(e, rt, options.coerce) <==> RowByRow(a, e, options, rt)
  {
    var x, y := ShowsAll(a, rt, options.coerce), ShowsAll(e, rt, options.coerce);
    if |a| == |e| {
      forall i | 0 <= i < |a| ensures x[i] == y[i] <==> SameRow(a[i], e[i], rt, options.coerce) {
        RowsMean(a[i], e[i], rt, options.coerce);
      }
    }
  }

  lemma UnorderedMeans(a: seq<Row>, e: seq<Row>, options: Options, rt: Runtime)
    requires Prints(rt)
    ensures multiset(ShowsAll(a, rt, options.coerce)) == multiset(ShowsAll(e, rt, options.coerce)) <==>
            exists p :: PairedRows(p, a, e, options, rt)
  {
    var x, y := ShowsAll(a, rt, options.coerce), ShowsAll(e, rt, options.coerce);
    if multiset(x) == multiset(y) {
      var p := PairUp(x, y);
      PairedMeans(p, a, e, options, rt);
    }
    if p :| PairedRows(p, a, e, options, rt) {
      PairedMeans(p, a, e, options, rt);
      PairedIsSame(p, x, y);
    }
  }
}
