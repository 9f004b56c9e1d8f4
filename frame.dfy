/**
 * The whole-table operations the engine takes from pandas, over tables
 * represented as sequences of rows: `concat`, boolean-mask selection,
 * `drop_duplicates` on a key, `groupby(key).sum()` and `merge(how='left')`.
 * Keys and values are extracted by functions passed in, as pandas does by
 * column name.
 */
module Frame {
  import opened Wrappers

  // ---------------------------------------------------------------------
  // pd.concat: partitions appended in the order they were found

  function Concat<T(!new)>(parts: seq<seq<T>>): (rows: seq<T>)
    ensures forall x :: x in rows <==> exists i :: 0 <= i < |parts| && x in parts[i]
  {
    if parts == [] then []
    else
      var rest := Concat(parts[1..]);
      assert forall x :: x in rest ==> exists i :: 0 <= i < |parts| && x in parts[i] by {
        forall x | x in rest ensures exists i :: 0 <= i < |parts| && x in parts[i] {
          var j :| 0 <= j < |parts[1..]| && x in parts[1..][j];
          assert x in parts[j + 1];
        }
      }
      parts[0] + rest
  }

  /** Total number of rows over all partitions. */
  function RowCount<T>(parts: seq<seq<T>>): nat {
    if parts == [] then 0 else |parts[0]| + RowCount(parts[1..])
  }

  /** Concatenation neither drops nor deduplicates rows. */
  lemma {:induction false} ConcatLength<T(!new)>(parts: seq<seq<T>>)
    ensures |Concat(parts)| == RowCount(parts)
  {
    if parts != [] {
      ConcatLength(parts[1..]);
    }
  }

  /** Concatenating two groups of partitions is concatenating their results: row order is partition order. */
  lemma {:induction false} ConcatAppend<T(!new)>(a: seq<seq<T>>, b: seq<seq<T>>)
    ensures Concat(a + b) == Concat(a) + Concat(b)
  {
    if a != [] {
      assert (a + b)[1..] == a[1..] + b;
      ConcatAppend(a[1..], b);
    } else {
      assert a + b == b;
    }
  }

  // ---------------------------------------------------------------------
  // Boolean-mask selection, `df[mask]`

  function Filter<T(!new)>(s: seq<T>, keep: T -> bool): (r: seq<T>)
    ensures |r| <= |s|
    ensures forall x :: x in r <==> x in s && keep(x)
  {
    if s == [] then []
    else (if keep(s[0]) then [s[0]] else []) + Filter(s[1..], keep)
  }

  /** Selection preserves relative order: it distributes over appending. */
  lemma {:induction false} FilterAppend<T(!new)>(a: seq<T>, b: seq<T>, keep: T -> bool)
    ensures Filter(a + b, keep) == Filter(a, keep) + Filter(b, keep)
  {
    if a != [] {
      assert (a + b)[1..] == a[1..] + b;
      FilterAppend(a[1..], b, keep);
    } else {
      assert a + b == b;
    }
  }

  /** Every occurrence of a kept row survives, and no other row does. */
  lemma {:induction false} FilterCount<T(!new)>(s: seq<T>, keep: T -> bool, x: T)
    ensures multiset(Filter(s, keep))[x] == if keep(x) then multiset(s)[x] else 0
  {
    if s != [] {
      FilterCount(s[1..], keep, x);
      assert s == [s[0]] + s[1..];
    }
  }

  // ---------------------------------------------------------------------
  // Looking rows up by key

  /** Some row of `rows` has key `k`. */
  predicate Occurs<T, K(==)>(rows: seq<T>, key: T -> K, k: K) {
    exists i :: 0 <= i < |rows| && key(rows[i]) == k
  }

  /** No two rows share a key. */
  predicate DistinctKeys<T, K(==)>(rows: seq<T>, key: T -> K) {
    forall i, j :: 0 <= i < j < |rows| ==> key(rows[i]) != key(rows[j])
  }

  /** Position of the first row with key `k`, or `|rows|` when there is none. */
  function FirstIndex<T, K(==)>(rows: seq<T>, key: T -> K, k: K): (i: nat)
    ensures i <= |rows|
    ensures forall j :: 0 <= j < i ==> key(rows[j]) != k
    ensures i < |rows| ==> key(rows[i]) == k
    ensures i < |rows| <==> Occurs(rows, key, k)
  {
    if rows == [] then 0
    else if key(rows[0]) == k then 0
    else
      var i := FirstIndex(rows[1..], key, k);
      assert forall j :: 1 <= j <= i ==> key(rows[j]) == key(rows[1..][j - 1]);
      1 + i
  }

  /** The first row with key `k`, if any. */
  function FirstWith<T, K(==)>(rows: seq<T>, key: T -> K, k: K): (r: Option<T>)
    ensures r.Some? <==> Occurs(rows, key, k)
    ensures r.Some? ==> r.value in rows && key(r.value) == k
  {
    var i := FirstIndex(rows, key, k);
    if i < |rows| then Some(rows[i]) else None
  }

  /** Appending a row changes the first match only for a key that did not occur before. */
  lemma FirstWithSnoc<T, K>(s: seq<T>, x: T, key: T -> K, k: K)
    ensures FirstWith(s + [x], key, k) ==
      if Occurs(s, key, k) then FirstWith(s, key, k)
      else if key(x) == k then Some(x) else None
  {
    var t := s + [x];
    var i, j := FirstIndex(t, key, k), FirstIndex(s, key, k);
    if j < |s| {
      assert key(t[j]) == k;
      assert i == j;
    } else if key(x) == k {
      assert key(t[|s|]) == k;
      assert i == |s|;
    } else {
      assert i == |t|;
    }
  }

  // ---------------------------------------------------------------------
  // drop_duplicates(subset=[key]): the first occurrence of each key stays

  function DropDuplicates<T, K(==)>(rows: seq<T>, key: T -> K): (r: seq<T>)
    ensures DistinctKeys(r, key)
    ensures forall x :: x in r ==> x in rows
    ensures |r| <= |rows|
  {
    if rows == [] then []
    else
      var d := DropDuplicates(rows[..|rows| - 1], key);
      var last := rows[|rows| - 1];
      if Occurs(d, key, key(last)) then d else d + [last]
  }

  /** Deduplicating keeps, for every key, exactly the row that came first in the input. */
  lemma {:induction false} DropDuplicatesKeepsFirst<T, K>(rows: seq<T>, key: T -> K, k: K)
    ensures FirstWith(DropDuplicates(rows, key), key, k) == FirstWith(rows, key, k)
  {
    if rows != [] {
      var init, last := rows[..|rows| - 1], rows[|rows| - 1];
      assert rows == init + [last];
      var d := DropDuplicates(init, key);
      DropDuplicatesKeepsFirst(init, key, k);
      DropDuplicatesKeepsFirst(init, key, key(last));
      FirstWithSnoc(init, last, key, k);
      if !Occurs(d, key, key(last)) {
        FirstWithSnoc(d, last, key, k);
      }
    }
  }

  // ---------------------------------------------------------------------
  // groupby(key)[val].sum().reset_index()

  /** The sum of `val` over the rows whose key is `k` (0 when there are none). */
  function SumWhere<T, K(==)>(rows: seq<T>, key: T -> K, val: T -> int, k: K): int {
    if rows == [] then 0
    else
      var last := rows[|rows| - 1];
      SumWhere(rows[..|rows| - 1], key, val, k) + (if key(last) == k then val(last) else 0)
  }

  /** A key no row carries sums to zero. */
  lemma {:induction false} SumWhereAbsent<T, K>(rows: seq<T>, key: T -> K, val: T -> int, k: K)
    ensures !Occurs(rows, key, k) ==> SumWhere(rows, key, val, k) == 0
  {
    if rows != [] && !Occurs(rows, key, k) {
      var init := rows[..|rows| - 1];
      assert !Occurs(init, key, k) by {
        forall i | 0 <= i < |init| ensures key(init[i]) != k {
          assert init[i] == rows[i];
        }
      }
      SumWhereAbsent(init, key, val, k);
    }
  }

  /** Two keyings that select the same rows give the same sum. */
  lemma {:induction false} SumWhereSameRows<T, K, J>(
    rows: seq<T>, key: T -> K, k: K, key': T -> J, k': J, val: T -> int)
    requires forall x :: x in rows ==> (key(x) == k <==> key'(x) == k')
    ensures SumWhere(rows, key, val, k) == SumWhere(rows, key', val, k')
  {
    if rows != [] {
      var init := rows[..|rows| - 1];
      assert forall x :: x in init ==> x in rows;
      SumWhereSameRows(init, key, k, key', k', val);
    }
  }

  /** One output row of a group-by: the group's key and its summed value. */
  datatype Group<K> = Group(key: K, total: int)

  function GroupKey<K>(g: Group<K>): K {
    g.key
  }

  /** Adds `v` to the group of key `k`, opening that group at the end if it is new. */
  function AddTo<K(==)>(groups: seq<Group<K>>, k: K, v: int): (r: seq<Group<K>>)
    requires DistinctKeys(groups, GroupKey)
    ensures DistinctKeys(r, GroupKey)
    ensures |r| == if Occurs(groups, GroupKey, k) then |groups| else |groups| + 1
    ensures forall i :: 0 <= i < |groups| ==>
      r[i].key == groups[i].key && r[i].total == groups[i].total + (if groups[i].key == k then v else 0)
    ensures !Occurs(groups, GroupKey, k) ==> r[|groups|] == Group(k, v)
  {
    var i := FirstIndex(groups, GroupKey, k);
    if i < |groups| then
      assert forall j :: 0 <= j < |groups| && j != i ==> GroupKey(groups[j]) != k;
      groups[i := Group(k, groups[i].total + v)]
    else
      groups + [Group(k, v)]
  }

  /** A key occurs after appending a row iff it occurred before or is the new row's key. */
  lemma OccursSnoc<T, K>(s: seq<T>, x: T, key: T -> K, k: K)
    ensures Occurs(s + [x], key, k) <==> Occurs(s, key, k) || key(x) == k
  {
    var t := s + [x];
    if Occurs(s, key, k) {
      var i :| 0 <= i < |s| && key(s[i]) == k;
      assert key(t[i]) == k;
    }
    if key(x) == k {
      assert key(t[|s|]) == k;
    }
    if Occurs(t, key, k) && key(x) != k {
      var i :| 0 <= i < |t| && key(t[i]) == k;
      assert key(s[i]) == k;
    }
  }

  /** Accumulating one more row opens a group exactly for a key not seen before. */
  lemma GroupSumStepKeys<T, K(!new)>(rows: seq<T>, key: T -> K, v: int, g: seq<Group<K>>, r: seq<Group<K>>)
    requires rows != []
    requires DistinctKeys(g, GroupKey)
    requires forall k :: Occurs(g, GroupKey, k) <==> Occurs(rows[..|rows| - 1], key, k)
    requires r == AddTo(g, key(rows[|rows| - 1]), v)
    ensures forall k :: Occurs(r, GroupKey, k) <==> Occurs(rows, key, k)
  {
    var init, last := rows[..|rows| - 1], rows[|rows| - 1];
    assert rows == init + [last];
    forall k ensures Occurs(r, GroupKey, k) <==> Occurs(rows, key, k) {
      OccursSnoc(init, last, key, k);
      if Occurs(g, GroupKey, k) {
        var i :| 0 <= i < |g| && GroupKey(g[i]) == k;
        assert GroupKey(r[i]) == k;
      }
      if key(last) == k && !Occurs(g, GroupKey, k) {
        assert GroupKey(r[|g|]) == k;
      }
      if Occurs(r, GroupKey, k) && key(last) != k {
        var i :| 0 <= i < |r| && GroupKey(r[i]) == k;
        assert GroupKey(g[i]) == k;
      }
    }
  }

  /** Accumulating one more row adds its value to its key's group total and to no other. */
  lemma GroupSumStepTotals<T, K>(rows: seq<T>, key: T -> K, val: T -> int, g: seq<Group<K>>, r: seq<Group<K>>)
    requires rows != []
    requires DistinctKeys(g, GroupKey)
    requires !Occurs(g, GroupKey, key(rows[|rows| - 1])) ==> !Occurs(rows[..|rows| - 1], key, key(rows[|rows| - 1]))
    requires forall i :: 0 <= i < |g| ==> g[i].total == SumWhere(rows[..|rows| - 1], key, val, g[i].key)
    requires r == AddTo(g, key(rows[|rows| - 1]), val(rows[|rows| - 1]))
    ensures forall i :: 0 <= i < |r| ==> r[i].total == SumWhere(rows, key, val, r[i].key)
  {
    var init, last := rows[..|rows| - 1], rows[|rows| - 1];
    forall i | 0 <= i < |r| ensures r[i].total == SumWhere(rows, key, val, r[i].key) {
      var k := r[i].key;
      assert SumWhere(rows, key, val, k) == SumWhere(init, key, val, k) + (if key(last) == k then val(last) else 0);
      if i == |g| {
        SumWhereAbsent(init, key, val, key(last));
      } else {
        assert g[i].key == k;
      }
    }
  }

  /**
   * The group-by-sum, accumulated row by row: one group per distinct key,
   * groups in order of the key's first appearance.
   */
  function GroupSum<T, K(==,!new)>(rows: seq<T>, key: T -> K, val: T -> int): (g: seq<Group<K>>)
    ensures DistinctKeys(g, GroupKey)
    ensures forall k :: Occurs(g, GroupKey, k) <==> Occurs(rows, key, k)
    ensures forall i :: 0 <= i < |g| ==> g[i].total == SumWhere(rows, key, val, g[i].key)
  {
    if rows == [] then []
    else
      var init, last := rows[..|rows| - 1], rows[|rows| - 1];
      var before := GroupSum(init, key, val);
      var r := AddTo(before, key(last), val(last));
      GroupSumStepKeys(rows, key, val(last), before, r);
      GroupSumStepTotals(rows, key, val, before, r);
      r
  }

  /** The group of key `k` in a group-by-sum exists exactly when some row has that key, and holds the key's sum. */
  lemma GroupSumLookup<T, K(!new)>(rows: seq<T>, key: T -> K, val: T -> int, k: K)
    ensures FirstWith(GroupSum(rows, key, val), GroupKey, k) ==
      if Occurs(rows, key, k) then Some(Group(k, SumWhere(rows, key, val, k))) else None
  {
  }

  /** A group with the largest total (the first such group). */
  function ArgMax<K>(groups: seq<Group<K>>): (g: Group<K>)
    requires groups != []
    ensures g in groups
    ensures forall h :: h in groups ==> h.total <= g.total
  {
    if |groups| == 1 then groups[0]
    else
      var best := ArgMax(groups[1..]);
      assert forall h :: h in groups ==> h == groups[0] || h in groups[1..];
      if groups[0].total >= best.total then groups[0] else best
  }

  // ---------------------------------------------------------------------
  // merge(left, right, how='left')

  /** The rows of `right` whose key is `k`, in order. */
  function Matches<R, K(==)>(right: seq<R>, rkey: R -> K, k: K): (ms: seq<R>)
    ensures forall m :: m in ms ==> m in right && rkey(m) == k
  {
    if right == [] then []
    else (if rkey(right[0]) == k then [right[0]] else []) + Matches(right[1..], rkey, k)
  }

  /** The output rows for one left row: one per matching right row, or one with the right columns missing. */
  function JoinRow<L, R, K(==)>(l: L, right: seq<R>, lkey: L -> K, rkey: R -> K, attach: (L, Option<R>) -> L): (out: seq<L>)
    ensures |out| >= 1
  {
    var ms := Matches(right, rkey, lkey(l));
    if ms == [] then [attach(l, None)]
    else seq(|ms|, i requires 0 <= i < |ms| => attach(l, Some(ms[i])))
  }

  /** A relational left join: every left row is kept, once per match, in left-row order. */
  function LeftJoin<L, R, K(==)>(left: seq<L>, right: seq<R>, lkey: L -> K, rkey: R -> K, attach: (L, Option<R>) -> L): (out: seq<L>)
    ensures |out| >= |left|
  {
    if left == [] then []
    else JoinRow(left[0], right, lkey, rkey, attach) + LeftJoin(left[1..], right, lkey, rkey, attach)
  }

  /** Left row i keeps its place: its block of output rows sits between the blocks of the rows before and after it. */
  lemma {:induction false} LeftJoinAt<L, R, K>(left: seq<L>, right: seq<R>, lkey: L -> K, rkey: R -> K, attach: (L, Option<R>) -> L, i: nat)
    requires i < |left|
    ensures LeftJoin(left, right, lkey, rkey, attach)
            == LeftJoin(left[..i], right, lkey, rkey, attach)
               + JoinRow(left[i], right, lkey, rkey, attach)
               + LeftJoin(left[i + 1..], right, lkey, rkey, attach)
  {
    if i > 0 {
      LeftJoinAt(left[1..], right, lkey, rkey, attach, i - 1);
      assert left[1..][..i - 1] == left[1..i];
      assert left[1..][i - 1 + 1..] == left[i + 1..];
      assert left[..i][1..] == left[1..i];
      assert left[..i][0] == left[0];
    }
  }

  /** Against a table with distinct keys, a key matches its one row or nothing. */
  lemma {:induction false} MatchesDistinct<R, K>(right: seq<R>, rkey: R -> K, k: K)
    requires DistinctKeys(right, rkey)
    ensures Matches(right, rkey, k) == if Occurs(right, rkey, k) then [FirstWith(right, rkey, k).value] else []
  {
    if right != [] {
      var tail := right[1..];
      assert DistinctKeys(tail, rkey) by {
        forall i, j | 0 <= i < j < |tail| ensures rkey(tail[i]) != rkey(tail[j]) {
          assert tail[i] == right[i + 1] && tail[j] == right[j + 1];
        }
      }
      MatchesDistinct(tail, rkey, k);
      if rkey(right[0]) == k {
        assert !Occurs(tail, rkey, k) by {
          forall i | 0 <= i < |tail| ensures rkey(tail[i]) != k {
            assert tail[i] == right[i + 1];
          }
        }
      } else {
        assert Occurs(right, rkey, k) <==> Occurs(tail, rkey, k) by {
          if Occurs(tail, rkey, k) {
            var i :| 0 <= i < |tail| && rkey(tail[i]) == k;
            assert rkey(right[i + 1]) == k;
          }
          if Occurs(right, rkey, k) {
            var i :| 0 <= i < |right| && rkey(right[i]) == k;
            assert rkey(tail[i - 1]) == k;
          }
        }
        assert FirstIndex(right, rkey, k) == 1 + FirstIndex(tail, rkey, k);
      }
    }
  }

  /**
   * A left join against a table with distinct keys keeps exactly one output
   * row per left row, in order, carrying that row's match if it has one.
   */
  lemma {:induction false} LeftJoinOneToOne<L, R, K>(left: seq<L>, right: seq<R>, lkey: L -> K, rkey: R -> K, attach: (L, Option<R>) -> L)
    requires DistinctKeys(right, rkey)
    ensures |LeftJoin(left, right, lkey, rkey, attach)| == |left|
    ensures forall i :: 0 <= i < |left| ==>
      LeftJoin(left, right, lkey, rkey, attach)[i] == attach(left[i], FirstWith(right, rkey, lkey(left[i])))
  {
    if left != [] {
      LeftJoinOneToOne(left[1..], right, lkey, rkey, attach);
      MatchesDistinct(right, rkey, lkey(left[0]));
      var head := JoinRow(left[0], right, lkey, rkey, attach);
      assert head == [attach(left[0], FirstWith(right, rkey, lkey(left[0])))];
    }
  }
}
