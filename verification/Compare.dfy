/** packages/eval/src/compare.ts: the result comparator. */
module Compare {
  import opened Framing
  import opened Schema

  // ---- cells ----

  datatype Num = NaN | PlusInfinity | MinusInfinity | Finite(value: real)

  /** What a driver can put in a cell. A Json cell carries its key-sorted text. */
  datatype Cell =
    | Absent
    | Number(n: Num)
    | Boolean(b: bool)
    | Date(iso: string)
    | Text(s: string)
    | Json(text: string)

  /** Number formatting and number parsing belong to the JavaScript runtime. */
  datatype Runtime = Runtime(precise: real -> string, literal: string -> Option<Num>)

  function Quantise(n: Num, rt: Runtime): string {
    match n
    case NaN => "#nan"
    case PlusInfinity => "#inf"
    case MinusInfinity => "#-inf"
    case Finite(x) => if x == 0.0 then "#0" else "#" + rt.precise(x)
  }

  function Normalise(c: Cell, rt: Runtime, coerce: bool): string {
    match c
    case Absent => "~"
    case Number(n) => Quantise(n, rt)
    case Boolean(b) => if b then "b:1" else "b:0"
    case Date(iso) => "d:" + iso
    case Text(s) => if coerce && rt.literal(s).Some? then Quantise(rt.literal(s).value, rt) else "s:" + s
    case Json(text) => "j:" + text
  }

  /** The number a cell is compared as, if it is compared as one. */
  function AsNumber(c: Cell, rt: Runtime, coerce: bool): Option<Num> {
    match c
    case Number(n) => Some(n)
    case Text(s) => if coerce then rt.literal(s) else None
    case _ => None
  }

  /** Cells are identified only within a kind: two numbers by their quantised text, anything else by value. */
  lemma NormaliseSeparates(c: Cell, d: Cell, rt: Runtime, coerce: bool)
    ensures Normalise(c, rt, coerce) == Normalise(d, rt, coerce) <==>
            var m, n := AsNumber(c, rt, coerce), AsNumber(d, rt, coerce);
            if m.Some? && n.Some? then Quantise(m.value, rt) == Quantise(n.value, rt)
            else m.None? && n.None? && c == d
  {
    var x, y := Normalise(c, rt, coerce), Normalise(d, rt, coerce);
    if x == y {
      assert x[0] == y[0];
      assert x[1..] == y[1..] && (|x| >= 2 ==> x[2..] == y[2..]);
    }
  }

  // ---- row keys ----

  type Row = seq<Cell>
  type Shown = seq<string>

  function Shows(row: Row, rt: Runtime, coerce: bool): (shown: Shown)
    ensures |shown| == |row|
  {
    seq(|row|, i requires 0 <= i < |row| => Normalise(row[i], rt, coerce))
  }

  function ShowsAll(rows: seq<Row>, rt: Runtime, coerce: bool): (shown: seq<Shown>)
    ensures |shown| == |rows|
  {
    seq(|rows|, i requires 0 <= i < |rows| => Shows(rows[i], rt, coerce))
  }

  function KeyOf(shown: Shown): string {
    if shown == [] then "" else Framed(shown[0], KeyOf(shown[1..]))
  }

  function KeysOf(rows: seq<Shown>): (keys: seq<string>)
    ensures |keys| == |rows|
  {
    seq(|rows|, i requires 0 <= i < |rows| => KeyOf(rows[i]))
  }

  /** A key determines its row, whatever the cells contain and however many there are. */
  lemma {:induction false} KeyInjective(r: Shown, s: Shown)
    requires KeyOf(r) == KeyOf(s)
    ensures r == s
  {
    if r != [] && s != [] {
      FramedInjective(r[0], KeyOf(r[1..]), s[0], KeyOf(s[1..]));
      KeyInjective(r[1..], s[1..]);
      assert r == [r[0]] + r[1..] && s == [s[0]] + s[1..];
    }
  }

  /** Under a key that no other row shares, a row is counted as often as it occurs. */
  lemma {:induction false} CountUnderKey<A, B>(key: A -> B, rows: seq<A>, keys: seq<B>, r: A)
    requires |keys| == |rows| && forall i | 0 <= i < |rows| :: keys[i] == key(rows[i])
    requires forall i | 0 <= i < |rows| :: key(rows[i]) == key(r) ==> rows[i] == r
    ensures multiset(keys)[key(r)] == multiset(rows)[r]
  {
    if rows != [] {
      var n := |rows| - 1;
      CountUnderKey(key, rows[..n], keys[..n], r);
      assert rows == rows[..n] + [rows[n]];
      assert keys == keys[..n] + [keys[n]];
    }
  }

  lemma KeyCount(rows: seq<Shown>, r: Shown)
    ensures multiset(KeysOf(rows))[KeyOf(r)] == multiset(rows)[r]
  {
    forall i | 0 <= i < |rows| ensures KeyOf(rows[i]) == KeyOf(r) ==> rows[i] == r {
      if KeyOf(rows[i]) == KeyOf(r) { KeyInjective(rows[i], r); }
    }
    CountUnderKey(KeyOf, rows, KeysOf(rows), r);
  }

  lemma {:induction false} KeyOfSomeRow(rows: seq<Shown>, k: string)
    requires k in multiset(KeysOf(rows))
    ensures exists i | 0 <= i < |rows| :: KeyOf(rows[i]) == k
  {
    assert k in KeysOf(rows);
    var i :| 0 <= i < |rows| && KeysOf(rows)[i] == k;
    assert KeyOf(rows[i]) == k;
  }

  /** Comparing keys as a multiset is comparing rows as a multiset. */
  lemma KeysDecideRows(xs: seq<Shown>, ys: seq<Shown>)
    ensures multiset(KeysOf(xs)) == multiset(KeysOf(ys)) <==> multiset(xs) == multiset(ys)
  {
    if multiset(KeysOf(xs)) == multiset(KeysOf(ys)) {
      forall r: Shown ensures multiset(xs)[r] == multiset(ys)[r] {
        KeyCount(xs, r);
        KeyCount(ys, r);
      }
    }
    if multiset(xs) == multiset(ys) {
      forall k: string ensures multiset(KeysOf(xs))[k] == multiset(KeysOf(ys))[k] {
        if k in multiset(KeysOf(xs)) {
          KeyOfSomeRow(xs, k);
          var i :| 0 <= i < |xs| && KeyOf(xs[i]) == k;
          KeyCount(xs, xs[i]);
          KeyCount(ys, xs[i]);
        } else if k in multiset(KeysOf(ys)) {
          KeyOfSomeRow(ys, k);
          var i :| 0 <= i < |ys| && KeyOf(ys[i]) == k;
          KeyCount(xs, ys[i]);
          KeyCount(ys, ys[i]);
        }
      }
    }
  }

  // ---- result sets ----

  datatype ResultSet = ResultSet(columns: seq<string>, rows: seq<Row>)

  datatype Options = Options(orderSensitive: bool, coerce: bool)

  datatype Side = Actual | Expected

  /** The reasons the source puts into words. Indices name rows of the side they speak of. */
  datatype Reason =
    | ColumnCount(got: nat, want: nat)
    | RowCount(got: nat, want: nat)
    | RowWidth(side: Side, row: nat)
    | RowDiffers(row: nat)
    | Unmatched(count: nat, first: nat, missing: int)

  datatype Outcome = Equal | Differs(reason: Reason)

  ghost predicate Rectangular(s: ResultSet, width: nat) {
    forall i | 0 <= i < |s.rows| :: |s.rows[i]| == width
  }

  ghost predicate Comparable(a: ResultSet, e: ResultSet) {
    && |a.columns| == |e.columns|
    && |a.rows| == |e.rows|
    && Rectangular(a, |e.columns|)
    && Rectangular(e, |e.columns|)
  }

  /** The relation that is decided: same shape, and the same rows in order or as a multiset. */
  ghost predicate Same(a: ResultSet, e: ResultSet, options: Options, rt: Runtime) {
    && Comparable(a, e)
    && var x, y := ShowsAll(a.rows, rt, options.coerce), ShowsAll(e.rows, rt, options.coerce);
       if options.orderSensitive then x == y else multiset(x) == multiset(y)
  }

  method FirstRaggedRow(s: ResultSet, width: nat) returns (row: Option<nat>)
    ensures row.None? <==> Rectangular(s, width)
    ensures row.Some? ==> row.value < |s.rows| && |s.rows[row.value]| != width
    ensures row.Some? ==> forall i | 0 <= i < row.value :: |s.rows[i]| == width
  {
    for i := 0 to |s.rows|
      invariant forall j | 0 <= j < i :: |s.rows[j]| == width
    {
      if |s.rows[i]| != width { return Some(i); }
    }
    return None;
  }

  function CountIn<K(==)>(m: map<K, nat>, k: K): nat {
    if k in m then m[k] else 0
  }

  ghost predicate Counts<K(!new)>(m: map<K, nat>, b: multiset<K>) {
    forall k :: CountIn(m, k) == b[k]
  }

  lemma CountsLess<K(!new)>(m: map<K, nat>, b: multiset<K>, key: K)
    requires Counts(m, b) && b[key] > 0
    ensures Counts(m[key := b[key] - 1], b - multiset{key})
  {
  }

  method Tally<K(==,!new)>(keys: seq<K>) returns (remaining: map<K, nat>)
    ensures Counts(remaining, multiset(keys))
  {
    remaining := map[];
    for i := 0 to |keys|
      invariant Counts(remaining, multiset(keys[..i]))
    {
      assert keys[..i + 1] == keys[..i] + [keys[i]];
      remaining := remaining[keys[i] := CountIn(remaining, keys[i]) + 1];
    }
    assert keys[..|keys|] == keys;
  }

  /** The first actual key with no partner left is at position u. */
  ghost predicate FirstExtra<K>(keys: seq<K>, u: int, b: multiset<K>) {
    0 <= u < |keys| && multiset(keys[..u]) <= b && multiset(keys[..u + 1])[keys[u]] > b[keys[u]]
  }

  /** What is left of the expected keys once the actual keys have each taken one. */
  ghost function Left<K>(keys: seq<K>, b: multiset<K>): multiset<K> {
    if keys == [] then b
    else
      var n := |keys| - 1;
      var left := Left(keys[..n], b);
      if left[keys[n]] == 0 then left else left - multiset{keys[n]}
  }

  /** The positions of the actual keys that found nothing to take. */
  ghost function Unpaired<K>(keys: seq<K>, b: multiset<K>): seq<int> {
    if keys == [] then []
    else
      var n := |keys| - 1;
      Unpaired(keys[..n], b) + if Left(keys[..n], b)[keys[n]] == 0 then [n] else []
  }

  lemma NothingExtra<K>(a: multiset<K>, b: multiset<K>)
    requires |a - b| == 0
    ensures a <= b
  {
    assert a - b == multiset{};
    forall k ensures a[k] <= b[k] { assert (a - b)[k] == 0; }
  }

  lemma LastOne<K>(keys: seq<K>)
    requires keys != []
    ensures multiset(keys) == multiset(keys[..|keys| - 1]) + multiset{keys[|keys| - 1]}
  {
    assert keys == keys[..|keys| - 1] + [keys[|keys| - 1]];
  }

  lemma TakeOneLeft<K>(before: multiset<K>, b: multiset<K>, key: K)
    ensures b - (before + multiset{key}) == if b[key] <= before[key] then b - before else (b - before) - multiset{key}
  {
  }

  lemma TakeOneExtra<K>(before: multiset<K>, b: multiset<K>, key: K)
    ensures |before + multiset{key} - b| == |before - b| + if b[key] <= before[key] then 1 else 0
  {
    if b[key] <= before[key] {
      assert before + multiset{key} - b == (before - b) + multiset{key};
    } else {
      assert before + multiset{key} - b == before - b;
    }
  }

  /** Taking keys one at a time computes the multiset difference. */
  lemma {:induction false} LeftIsDifference<K>(keys: seq<K>, b: multiset<K>)
    ensures Left(keys, b) == b - multiset(keys)
  {
    if keys == [] {
      assert b - multiset(keys) == b;
    } else {
      var n := |keys| - 1;
      LeftIsDifference(keys[..n], b);
      LastOne(keys);
      TakeOneLeft(multiset(keys[..n]), b, keys[n]);
    }
  }

  lemma {:induction false} UnpairedCount<K>(keys: seq<K>, b: multiset<K>)
    ensures |Unpaired(keys, b)| == |multiset(keys) - b|
  {
    if keys != [] {
      var n := |keys| - 1;
      UnpairedCount(keys[..n], b);
      LeftIsDifference(keys[..n], b);
      LastOne(keys);
      TakeOneExtra(multiset(keys[..n]), b, keys[n]);
    }
  }

  lemma ExtraOnPrefix<K>(keys: seq<K>, n: nat, u: int, b: multiset<K>)
    requires n <= |keys| && FirstExtra(keys[..n], u, b)
    ensures FirstExtra(keys, u, b)
  {
    assert keys[..n][..u] == keys[..u] && keys[..n][..u + 1] == keys[..u + 1];
  }

  lemma LastIsExtra<K>(keys: seq<K>, n: nat, b: multiset<K>)
    requires n == |keys| - 1 && Unpaired(keys[..n], b) == [] && Left(keys[..n], b)[keys[n]] == 0
    ensures FirstExtra(keys, n, b)
  {
    LeftIsDifference(keys[..n], b);
    UnpairedCount(keys[..n], b);
    NothingExtra(multiset(keys[..n]), b);
    LastOne(keys);
    assert keys[..n + 1] == keys;
  }

  lemma {:induction false} UnpairedStartsWithExtra<K>(keys: seq<K>, b: multiset<K>)
    requires Unpaired(keys, b) != []
    ensures FirstExtra(keys, Unpaired(keys, b)[0], b)
  {
    var n := |keys| - 1;
    if Unpaired(keys[..n], b) != [] {
      UnpairedStartsWithExtra(keys[..n], b);
      ExtraOnPrefix(keys, n, Unpaired(keys[..n], b)[0], b);
    } else {
      LastIsExtra(keys, n, b);
    }
  }

  lemma TakeNext<K>(keys: seq<K>, i: nat, b: multiset<K>)
    requires i < |keys|
    ensures var left, found := Left(keys[..i], b), Left(keys[..i], b)[keys[i]] > 0;
            && Left(keys[..i + 1], b) == (if found then left - multiset{keys[i]} else left)
            && Unpaired(keys[..i + 1], b) == Unpaired(keys[..i], b) + if found then [] else [i]
  {
    assert keys[..i + 1][..i] == keys[..i];
  }

  method Spend<K(==,!new)>(keys: seq<K>, tally: map<K, nat>, ghost b: multiset<K>)
      returns (unmatched: seq<int>, remaining: map<K, nat>)
    requires Counts(tally, b)
    ensures unmatched == Unpaired(keys, b)
    ensures Counts(remaining, Left(keys, b))
  {
    remaining := tally;
    unmatched := [];
    for i := 0 to |keys|
      invariant unmatched == Unpaired(keys[..i], b)
      invariant Counts(remaining, Left(keys[..i], b))
    {
      TakeNext(keys, i, b);
      var count := CountIn(remaining, keys[i]);
      if count == 0 {
        unmatched := unmatched + [i];
      } else {
        CountsLess(remaining, Left(keys[..i], b), keys[i]);
        remaining := remaining[keys[i] := count - 1];
      }
    }
    assert keys[..|keys|] == keys;
  }

  /** What an Unmatched verdict points at: rows that really are surplus on their side. */
  ghost predicate PointsAtSurplus(x: seq<Shown>, y: seq<Shown>, first: nat, missing: int) {
    && first < |x| && multiset(x)[x[first]] > multiset(y)[x[first]]
    && 0 <= missing < |y| && multiset(y)[y[missing]] > multiset(x)[y[missing]]
  }

  ghost predicate FirstDifference(x: seq<Shown>, y: seq<Shown>, i: nat) {
    i < |x| && i < |y| && x[i] != y[i] && x[..i] == y[..i]
  }

  method CompareInOrder(x: seq<Shown>, y: seq<Shown>) returns (r: Outcome)
    requires |x| == |y|
    ensures r.Equal? <==> x == y
    ensures r.Differs? ==> r.reason.RowDiffers? && FirstDifference(x, y, r.reason.row)
  {
    var a, b := KeysOf(x), KeysOf(y);
    for i := 0 to |a|
      invariant forall j | 0 <= j < i :: x[j] == y[j]
    {
      if a[i] != b[i] {
        assert x[..i] == y[..i];
        return Differs(RowDiffers(i));
      }
      KeyInjective(x[i], y[i]);
    }
    return Equal;
  }

  method CompareUnordered(x: seq<Shown>, y: seq<Shown>) returns (r: Outcome)
    requires |x| == |y|
    ensures r.Equal? <==> multiset(x) == multiset(y)
    ensures r.Differs? ==> r.reason.Unmatched? && PointsAtSurplus(x, y, r.reason.first, r.reason.missing)
  {
    var a, b := KeysOf(x), KeysOf(y);
    var tally := Tally(b);
    var unmatched, remaining := Spend(a, tally, multiset(b));
    LeftIsDifference(a, multiset(b));
    UnpairedCount(a, multiset(b));
    if |unmatched| > 0 {
      UnpairedStartsWithExtra(a, multiset(b));
      ExtraRow(x, y, unmatched[0]);
      var missing := FirstRemaining(b, remaining, multiset(a));
      KeyCount(x, y[missing]);
      KeyCount(y, y[missing]);
      return Differs(Unmatched(|unmatched|, unmatched[0], missing));
    }
    NothingExtra(multiset(a), multiset(b));
    SubsumedIsEqual(multiset(a), multiset(b));
    KeysDecideRows(x, y);
    return Equal;
  }

  /** What a verdict on the shape says is so. */
  predicate ShapeReason(a: ResultSet, e: ResultSet, reason: Reason) {
    match reason
    case ColumnCount(got, want) => got == |a.columns| && want == |e.columns| && got != want
    case RowCount(got, want) => got == |a.rows| && want == |e.rows| && got != want
    case RowWidth(Actual, row) => row < |a.rows| && |a.rows[row]| != |e.columns|
    case RowWidth(Expected, row) => row < |e.rows| && |e.rows[row]| != |e.columns|
    case _ => false
  }

  method ResultSetsEqual(actual: ResultSet, expected: ResultSet, options: Options, rt: Runtime) returns (r: Outcome)
    ensures r.Equal? <==> Same(actual, expected, options, rt)
    ensures Comparable(actual, expected) ==>
              var x, y := ShowsAll(actual.rows, rt, options.coerce), ShowsAll(expected.rows, rt, options.coerce);
              && (r.Differs? && options.orderSensitive ==> r.reason.RowDiffers? && FirstDifference(x, y, r.reason.row))
              && (r.Differs? && !options.orderSensitive ==>
                    r.reason.Unmatched? && PointsAtSurplus(x, y, r.reason.first, r.reason.missing))
    ensures !Comparable(actual, expected) ==> r.Differs? && ShapeReason(actual, expected, r.reason)
  {
    var width := |expected.columns|;
    if |actual.columns| != width { return Differs(ColumnCount(|actual.columns|, width)); }
    if |actual.rows| != |expected.rows| { return Differs(RowCount(|actual.rows|, |expected.rows|)); }
    var ragged := FirstRaggedRow(actual, width);
    if ragged.Some? { return Differs(RowWidth(Actual, ragged.value)); }
    ragged := FirstRaggedRow(expected, width);
    if ragged.Some? { return Differs(RowWidth(Expected, ragged.value)); }

    var x, y := ShowsAll(actual.rows, rt, options.coerce), ShowsAll(expected.rows, rt, options.coerce);
    if options.orderSensitive {
      r := CompareInOrder(x, y);
    } else {
      r := CompareUnordered(x, y);
    }
  }

  lemma ExtraRow(x: seq<Shown>, y: seq<Shown>, first: nat)
    requires first < |x|
    requires FirstExtra(KeysOf(x), first, multiset(KeysOf(y)))
    ensures multiset(x)[x[first]] > multiset(y)[x[first]]
    ensures multiset(x) != multiset(y)
  {
    var a := KeysOf(x);
    assert a == a[..first + 1] + a[first + 1..];
    KeyCount(x, x[first]);
    KeyCount(y, x[first]);
  }

  lemma SubsumedIsEqual<K>(a: multiset<K>, b: multiset<K>)
    requires a <= b && |a| == |b|
    ensures a == b
  {
    assert b == a + (b - a);
    assert b - a == multiset{};
  }

  /** Some expected key is left over whenever equally many rows do not all pair up. */
  lemma SomethingRemains<K>(b: seq<K>, a: multiset<K>)
    requires |a| == |b| && |a - multiset(b)| > 0
    ensures exists j | 0 <= j < |b| :: multiset(b)[b[j]] > a[b[j]]
  {
    if forall j | 0 <= j < |b| :: multiset(b)[b[j]] <= a[b[j]] {
      assert forall k :: k in multiset(b) ==> k in b;
      SubsumedIsEqual(multiset(b), a);
    }
  }

  method FirstRemaining<K(==,!new)>(b: seq<K>, remaining: map<K, nat>, ghost a: multiset<K>) returns (missing: nat)
    requires Counts(remaining, multiset(b) - a)
    requires |a| == |b| && |a - multiset(b)| > 0
    ensures missing < |b| && multiset(b)[b[missing]] > a[b[missing]]
    ensures forall j | 0 <= j < missing :: multiset(b)[b[j]] <= a[b[j]]
  {
    SomethingRemains(b, a);
    missing := 0;
    while CountIn(remaining, b[missing]) == 0
      invariant missing < |b|
      invariant forall j | 0 <= j < missing :: multiset(b)[b[j]] <= a[b[j]]
      decreases |b| - missing
    {
      assert (multiset(b) - a)[b[missing]] == 0;
      missing := missing + 1;
    }
  }

  // ---- what kind of relation it is ----

  lemma SameReflexive(a: ResultSet, options: Options, rt: Runtime)
    ensures Same(a, a, options, rt) <==> Rectangular(a, |a.columns|)
  {
  }

  lemma SameSymmetric(a: ResultSet, e: ResultSet, options: Options, rt: Runtime)
    requires Same(a, e, options, rt)
    ensures Same(e, a, options, rt)
  {
  }

  lemma SameTransitive(a: ResultSet, b: ResultSet, c: ResultSet, options: Options, rt: Runtime)
    requires Same(a, b, options, rt) && Same(b, c, options, rt)
    ensures Same(a, c, options, rt)
  {
  }

  lemma OrderedImpliesUnordered(a: ResultSet, e: ResultSet, coerce: bool, rt: Runtime)
    requires Same(a, e, Options(true, coerce), rt)
    ensures Same(a, e, Options(false, coerce), rt)
  {
  }
}
