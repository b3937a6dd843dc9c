/** aggregateFindings of server/scan.go: rows for display, one for each (provider, source, item). */
module Aggregation {
  import opened Base
  import opened Calculator

  datatype Key = Key(provider: string, source: string, item: string)
  datatype Agg = Agg(row: FindingRow, order: nat)

  function KeyOf(r: FindingRow): Key { Key(r.provider, r.source, r.item) }

  /** Position of the first row with key `k`, or |rows| when there is none. */
  function Position(rows: seq<FindingRow>, k: Key): (i: nat)
    ensures i <= |rows|
    ensures i < |rows| ==> KeyOf(rows[i]) == k
    ensures forall j | 0 <= j < i :: KeyOf(rows[j]) != k
  {
    if rows == [] then 0 else if KeyOf(rows[0]) == k then 0 else 1 + Position(rows[1..], k)
  }

  /** Add one row to the merged rows: join its key's row, or open a new row without a region. */
  function MergeRow(acc: seq<FindingRow>, r: FindingRow): seq<FindingRow>
  {
    var i := Position(acc, KeyOf(r));
    if i < |acc| then acc[i := acc[i].(count := acc[i].count + r.count)] else acc + [r.(region := "")]
  }

  function Merge(rows: seq<FindingRow>): seq<FindingRow>
  {
    if rows == [] then [] else MergeRow(Merge(rows[..|rows| - 1]), rows[|rows| - 1])
  }

  function Retokenize(r: FindingRow): FindingRow
  {
    if r.tokensPerUnit > 0 then r.(managementTokens := Ceiling(r.count, r.tokensPerUnit)) else r
  }

  function RetokenizeAll(rows: seq<FindingRow>): (out: seq<FindingRow>)
    ensures |out| == |rows| && forall i | 0 <= i < |rows| :: out[i] == Retokenize(rows[i])
  {
    seq(|rows|, i requires 0 <= i < |rows| => Retokenize(rows[i]))
  }

  // ------------------------------------------------------------ the program

  /** The map `merged` holds exactly the rows of `acc`, each with its position. */
  ghost predicate Reflects(merged: map<Key, Agg>, acc: seq<FindingRow>)
  {
    && |merged| == |acc|
    && (forall i | 0 <= i < |acc| :: KeyOf(acc[i]) in merged && merged[KeyOf(acc[i])] == Agg(acc[i], i))
    && (forall k | k in merged :: merged[k].order < |acc| && KeyOf(acc[merged[k].order]) == k)
  }

  /** A repeated key: the entry's count grows. */
  function Joined(existing: Agg, count: int): Agg
  {
    existing.(row := existing.row.(count := existing.row.count + count))
  }

  /** A new key: a copy of the row without its region. */
  function Opened(r: FindingRow, order: nat): Agg { Agg(r.(region := ""), order) }

  lemma {:induction false} ReflectsRepeat(merged: map<Key, Agg>, acc: seq<FindingRow>, r: FindingRow)
    requires Reflects(merged, acc) && KeyOf(r) in merged
    ensures Reflects(merged[KeyOf(r) := Joined(merged[KeyOf(r)], r.count)], MergeRow(acc, r))
    ensures |MergeRow(acc, r)| == |acc|
  {
    var i, k := Position(acc, KeyOf(r)), KeyOf(r);
    assert KeyOf(acc[merged[k].order]) == k;
    assert merged[KeyOf(acc[i])].order == i;
    assert merged.Keys + {k} == merged.Keys;
  }

  lemma {:induction false} ReflectsFirst(merged: map<Key, Agg>, acc: seq<FindingRow>, r: FindingRow)
    requires Reflects(merged, acc) && KeyOf(r) !in merged
    ensures Reflects(merged[KeyOf(r) := Opened(r, |acc|)], MergeRow(acc, r))
    ensures |MergeRow(acc, r)| == |acc| + 1
  {
    forall j | 0 <= j < |acc|
      ensures KeyOf(acc[j]) != KeyOf(r)
    {
    }
  }

  lemma {:induction false} MergeNext(rows: seq<FindingRow>, n: nat)
    requires n < |rows|
    ensures Merge(rows[..n + 1]) == MergeRow(Merge(rows[..n]), rows[n])
  {
    assert rows[..n + 1][..n] == rows[..n];
  }

  method AggregateFindings(rows: seq<FindingRow>) returns (result: seq<FindingRow>)
    ensures result == RetokenizeAll(Merge(rows))
  {
    if rows == [] {
      return rows;
    }
    var merged := MergeRows(rows);
    var collected := CollectRows(merged, Merge(rows));
    var a := new FindingRow[|collected|](i requires 0 <= i < |collected| => collected[i]);
    assert a[..] == collected;
    var order := r => OrderOf(merged, r);
    SortByOrder(a, order);
    result := a[..];
    SameMembers(result, collected);
    ListsOrders(merged, Merge(rows));
    PlacedByOrder(result, RetokenizeAll(Merge(rows)), order);
  }

  method MergeRows(rows: seq<FindingRow>) returns (merged: map<Key, Agg>)
    ensures Reflects(merged, Merge(rows))
  {
    merged := map[];
    var order := 0;
    assert Reflects(merged, Merge([])) && |Merge([])| == 0;
    hide Reflects, MergeRow, Merge, Joined, Opened, KeyOf;
    for n := 0 to |rows|
      invariant Reflects(merged, Merge(rows[..n])) && order == |Merge(rows[..n])|
    {
      MergeNext(rows, n);
      var r := rows[n];
      var k := KeyOf(r);
      if k in merged {
        ReflectsRepeat(merged, Merge(rows[..n]), r);
        merged := merged[k := Joined(merged[k], r.count)];
      } else {
        ReflectsFirst(merged, Merge(rows[..n]), r);
        merged := merged[k := Opened(r, order)];
        order := order + 1;
      }
    }
    assert rows[..|rows|] == rows;
  }

  /** Walks the map in an arbitrary order: each row comes out once, with its tokens recalculated. */
  method CollectRows(merged: map<Key, Agg>, ghost acc: seq<FindingRow>) returns (collected: seq<FindingRow>)
    requires Reflects(merged, acc)
    ensures |collected| == |acc| && Distinct(collected)
    ensures forall r | r in collected :: r in RetokenizeAll(acc)
  {
    collected := [];
    var remaining := merged.Keys;
    while remaining != {}
      invariant remaining <= merged.Keys && |collected| + |remaining| == |merged|
      invariant Distinct(collected)
      invariant forall r | r in collected :: r in RetokenizeAll(acc) && KeyOf(r) !in remaining
    {
      var k :| k in remaining;
      var r := Retokenize(merged[k].row);
      assert KeyOf(r) == k && RetokenizeAll(acc)[merged[k].order] == r by {
        assert KeyOf(acc[merged[k].order]) == k;
      }
      DistinctSnoc(collected, r);
      collected := collected + [r];
      remaining := remaining - {k};
    }
  }

  /** sortByOrder of the source: the insertion order of a row's key, zero for an absent key. */
  function OrderOf(merged: map<Key, Agg>, r: FindingRow): nat
  {
    if KeyOf(r) in merged then merged[KeyOf(r)].order else 0
  }

  lemma {:induction false} ListsOrders(merged: map<Key, Agg>, acc: seq<FindingRow>)
    requires Reflects(merged, acc)
    ensures forall i | 0 <= i < |acc| :: OrderOf(merged, RetokenizeAll(acc)[i]) == i
  {
    forall i | 0 <= i < |acc|
      ensures OrderOf(merged, RetokenizeAll(acc)[i]) == i
    {
      assert merged[KeyOf(acc[i])].order == i && KeyOf(Retokenize(acc[i])) == KeyOf(acc[i]);
    }
  }

  method Exchange<T>(a: array<T>, i: nat, j: nat)
    requires i < j < a.Length
    modifies a
    ensures a[i] == old(a[j]) && a[j] == old(a[i])
    ensures forall k | 0 <= k < a.Length && k != i && k != j :: a[k] == old(a[k])
    ensures multiset(a[..]) == multiset(old(a[..]))
  {
    a[i], a[j] := a[j], a[i];
  }

  /** No element from `i` on comes before an element placed ahead of `i`. */
  ghost predicate Placed<T>(s: seq<T>, order: T -> nat, i: nat)
  {
    forall p, q | 0 <= p < q < |s| && p < i :: order(s[p]) <= order(s[q])
  }

  /** No element after the i-th and before the j-th comes before the i-th. */
  ghost predicate LeastSoFar<T>(s: seq<T>, order: T -> nat, i: nat, j: nat)
  {
    forall q | i < q < j && q < |s| :: order(s[i]) <= order(s[q])
  }

  /** The exchange sort that restores insertion order, in place. */
  method SortByOrder<T>(a: array<T>, order: T -> nat)
    modifies a
    ensures multiset(a[..]) == multiset(old(a[..]))
    ensures forall i, j | 0 <= i < j < a.Length :: order(a[i]) <= order(a[j])
  {
    ghost var m := multiset(a[..]);
    var i := 0;
    while i < a.Length - 1
      invariant multiset(a[..]) == m && Placed(a[..], order, i) && 0 <= i
      invariant i <= a.Length - 1 || a.Length == 0
    {
      var j := i + 1;
      while j < a.Length
        invariant i < j <= a.Length
        invariant multiset(a[..]) == m && Placed(a[..], order, i)
        invariant LeastSoFar(a[..], order, i, j)
      {
        if order(a[i]) > order(a[j]) {
          Exchange(a, i, j);
        }
        j := j + 1;
      }
      i := i + 1;
    }
  }

  /** n strictly increasing naturals below n are 0 .. n-1. */
  lemma {:induction false} IncreasingFillsRange(s: seq<nat>, i: nat)
    requires forall p, q | 0 <= p < q < |s| :: s[p] < s[q]
    requires forall p | 0 <= p < |s| :: s[p] < |s|
    requires i < |s|
    ensures s[i] == i
  {
    AtLeastIndex(s, i);
    AtMostIndex(s, i);
  }

  lemma {:induction false} AtLeastIndex(s: seq<nat>, i: nat)
    requires forall p, q | 0 <= p < q < |s| :: s[p] < s[q]
    requires i < |s|
    ensures s[i] >= i
  {
    if i > 0 {
      AtLeastIndex(s, i - 1);
    }
  }

  lemma {:induction false} AtMostIndex(s: seq<nat>, i: nat)
    requires forall p, q | 0 <= p < q < |s| :: s[p] < s[q]
    requires forall p | 0 <= p < |s| :: s[p] < |s|
    requires i < |s|
    ensures s[i] <= i
    decreases |s| - i
  {
    if i + 1 < |s| {
      AtMostIndex(s, i + 1);
    }
  }

  /** Distinct elements of `target`, as many as it has and sorted by their position in it, are `target`. */
  lemma {:induction false} PlacedByOrder<T>(result: seq<T>, target: seq<T>, order: T -> nat)
    requires |result| == |target| && Distinct(result)
    requires forall r | r in result :: r in target
    requires forall i | 0 <= i < |target| :: order(target[i]) == i
    requires forall i, j | 0 <= i < j < |result| :: order(result[i]) <= order(result[j])
    ensures result == target
  {
    var s: seq<nat> := seq(|result|, i requires 0 <= i < |result| => order(result[i]));
    forall i | 0 <= i < |result|
      ensures s[i] < |result| && target[s[i]] == result[i]
    {
      assert result[i] in target;
    }
    forall i, j | 0 <= i < j < |s|
      ensures s[i] < s[j]
    {
      assert result[i] != result[j];
    }
    forall i | 0 <= i < |result|
      ensures result[i] == target[i]
    {
      IncreasingFillsRange(s, i);
    }
  }

  lemma {:induction false} SameMembers<T>(result: seq<T>, collected: seq<T>)
    requires multiset(result) == multiset(collected) && Distinct(collected)
    ensures Distinct(result) && |result| == |collected|
    ensures forall r | r in result :: r in collected
  {
    DistinctPermutes(result, collected);
    assert |multiset(result)| == |result| && |multiset(collected)| == |collected|;
    forall r | r in result
      ensures r in collected
    {
      assert r in multiset(result);
    }
  }

  // ------------------------------------------------------- what the display keeps

  /** Rows with one key agree on category and on the number of objects per token. */
  ghost predicate Consistent(rows: seq<FindingRow>)
  {
    forall i, j | 0 <= i < j < |rows| && KeyOf(rows[i]) == KeyOf(rows[j]) ::
      rows[i].category == rows[j].category && rows[i].tokensPerUnit == rows[j].tokensPerUnit
  }

  /** Every row carries the tokens that CeilDiv gives its own count. */
  ghost predicate Tokenized(rows: seq<FindingRow>)
  {
    forall r | r in rows ::
      r.count >= 0 && r.tokensPerUnit > 0 && r.managementTokens == CeilDiv(r.count, r.tokensPerUnit)
  }

  function SumTokens(rows: seq<FindingRow>): int
  {
    if rows == [] then 0 else SumTokens(rows[..|rows| - 1]) + rows[|rows| - 1].managementTokens
  }

  function KeyTotal(rows: seq<FindingRow>, k: Key): int
  {
    if rows == [] then 0
    else KeyTotal(rows[..|rows| - 1], k) + (if KeyOf(rows[|rows| - 1]) == k then rows[|rows| - 1].count else 0)
  }

  ghost predicate DistinctKeys(acc: seq<FindingRow>)
  {
    forall i, j | 0 <= i < j < |acc| :: KeyOf(acc[i]) != KeyOf(acc[j])
  }

  ghost predicate HasAllKeys(acc: seq<FindingRow>, rows: seq<FindingRow>)
  {
    forall r | r in rows :: Position(acc, KeyOf(r)) < |acc|
  }

  /** A merged row: its key's first row without the region, with the sum of the key's counts. */
  ghost predicate SumsKey(m: FindingRow, rows: seq<FindingRow>)
  {
    var first := Position(rows, KeyOf(m));
    first < |rows| && m == rows[first].(region := "", count := KeyTotal(rows, KeyOf(m)))
  }

  /** One merged row for each key of the input, in order of first appearance. */
  ghost predicate Represents(acc: seq<FindingRow>, rows: seq<FindingRow>)
  {
    && DistinctKeys(acc) && HasAllKeys(acc, rows)
    && (forall i | 0 <= i < |acc| :: SumsKey(acc[i], rows))
    && (forall i, j | 0 <= i < j < |acc| :: Position(rows, KeyOf(acc[i])) < Position(rows, KeyOf(acc[j])))
  }

  // ------------------------------------------------------- merged rows, field by field

  predicate SameKey(a: FindingRow, b: FindingRow)
  {
    a.provider == b.provider && a.source == b.source && a.item == b.item
  }

  /** The counts of all rows that share the key of `m`, added up. */
  function CountsLike(rows: seq<FindingRow>, m: FindingRow): int
  {
    if rows == [] then 0
    else CountsLike(rows[..|rows| - 1], m) + (if SameKey(rows[|rows| - 1], m) then rows[|rows| - 1].count else 0)
  }

  /** The f-th row is the first with the key of `m`. */
  ghost predicate FirstLike(rows: seq<FindingRow>, f: nat, m: FindingRow)
  {
    f < |rows| && SameKey(rows[f], m) && forall j | 0 <= j < f :: !SameKey(rows[j], m)
  }

  /** The first row with this key, without its region and with all the counts of the key. */
  ghost predicate Condensed(m: FindingRow, rows: seq<FindingRow>)
  {
    exists f: nat :: FirstLike(rows, f, m) && m == rows[f].(region := "", count := CountsLike(rows, m))
  }

  /** One row for each provider, source and item, in order of first appearance: the first such row without its region
      and with all their counts. */
  ghost predicate Condenses(acc: seq<FindingRow>, rows: seq<FindingRow>)
  {
    && (forall i, j | 0 <= i < j < |acc| :: !SameKey(acc[i], acc[j]))
    && (forall r | r in rows :: exists i :: 0 <= i < |acc| && SameKey(acc[i], r))
    && (forall i | 0 <= i < |acc| :: Condensed(acc[i], rows))
    && (forall i, j, f: nat, g: nat | 0 <= i < j < |acc| && FirstLike(rows, f, acc[i]) && FirstLike(rows, g, acc[j]) ::
        f < g)
  }

  lemma {:induction false} CountsLikeIsTotal(rows: seq<FindingRow>, m: FindingRow)
    ensures CountsLike(rows, m) == KeyTotal(rows, KeyOf(m))
  {
    if rows != [] {
      CountsLikeIsTotal(rows[..|rows| - 1], m);
    }
  }

  lemma {:induction false} FirstLikeIsPosition(rows: seq<FindingRow>, f: nat, m: FindingRow)
    ensures FirstLike(rows, f, m) <==> f < |rows| && f == Position(rows, KeyOf(m))
  {
    var p := Position(rows, KeyOf(m));
    assert forall j | 0 <= j < |rows| :: SameKey(rows[j], m) <==> KeyOf(rows[j]) == KeyOf(m);
  }

  lemma {:induction false} RowCondenses(acc: seq<FindingRow>, rows: seq<FindingRow>, i: nat)
    requires Represents(acc, rows) && i < |acc|
    ensures Condensed(acc[i], rows)
  {
    assert SumsKey(acc[i], rows);
    CountsLikeIsTotal(rows, acc[i]);
    FirstLikeIsPosition(rows, Position(rows, KeyOf(acc[i])), acc[i]);
  }

  lemma {:induction false} RowsInOrder(acc: seq<FindingRow>, rows: seq<FindingRow>, i: nat, j: nat, f: nat, g: nat)
    requires Represents(acc, rows) && i < j < |acc| && FirstLike(rows, f, acc[i]) && FirstLike(rows, g, acc[j])
    ensures f < g && !SameKey(acc[i], acc[j])
  {
    FirstLikeIsPosition(rows, f, acc[i]);
    FirstLikeIsPosition(rows, g, acc[j]);
    assert KeyOf(acc[i]) != KeyOf(acc[j]);
  }

  lemma {:induction false} RepresentsCondenses(acc: seq<FindingRow>, rows: seq<FindingRow>)
    requires Represents(acc, rows)
    ensures Condenses(acc, rows)
  {
    forall r | r in rows
      ensures exists i :: 0 <= i < |acc| && SameKey(acc[i], r)
    {
      assert SameKey(acc[Position(acc, KeyOf(r))], r);
    }
    forall i | 0 <= i < |acc|
      ensures Condensed(acc[i], rows)
    {
      RowCondenses(acc, rows, i);
    }
    forall i, j, f: nat, g: nat | 0 <= i < j < |acc| && FirstLike(rows, f, acc[i]) && FirstLike(rows, g, acc[j])
      ensures f < g
    {
      RowsInOrder(acc, rows, i, j, f, g);
    }
    assert forall i, j | 0 <= i < j < |acc| :: KeyOf(acc[i]) != KeyOf(acc[j]);
  }

  lemma {:induction false} PositionSnoc(rows: seq<FindingRow>, r: FindingRow, k: Key)
    ensures Position(rows + [r], k) == (if Position(rows, k) < |rows| then Position(rows, k)
                                        else if KeyOf(r) == k then |rows| else |rows| + 1)
  {
    var all, p, q := rows + [r], Position(rows, k), Position(rows + [r], k);
    assert forall j | 0 <= j < |rows| :: all[j] == rows[j];
    assert all[|rows|] == r;
  }

  /** One row for each key, in order of first appearance: the key's first row without its region
      and with the sum of the key's counts. */
  lemma {:induction false} MergeCondenses(rows: seq<FindingRow>)
    ensures Condenses(Merge(rows), rows)
  {
    MergeRepresents(rows);
    RepresentsCondenses(Merge(rows), rows);
  }

  lemma {:induction false} MergeRepresents(rows: seq<FindingRow>)
    ensures Represents(Merge(rows), rows)
  {
    if rows != [] {
      var prior, r := rows[..|rows| - 1], rows[|rows| - 1];
      assert rows == prior + [r];
      MergeRepresents(prior);
      RepresentsMergeRow(Merge(prior), prior, r);
    }
  }

  lemma {:induction false} RepresentsMergeRow(acc: seq<FindingRow>, rows: seq<FindingRow>, r: FindingRow)
    requires Represents(acc, rows)
    ensures Represents(MergeRow(acc, r), rows + [r])
  {
    var all, out := rows + [r], MergeRow(acc, r);
    MergeRowKeys(acc, rows, r);
    forall i | 0 <= i < |out|
      ensures SumsKey(out[i], all)
      ensures Position(all, KeyOf(out[i])) == if i < |acc| then Position(rows, KeyOf(acc[i])) else |rows|
    {
      MergedAt(acc, rows, r, i);
    }
    assert forall i | 0 <= i < |acc| :: SumsKey(acc[i], rows);
  }

  lemma {:induction false} MergedAt(acc: seq<FindingRow>, rows: seq<FindingRow>, r: FindingRow, i: nat)
    requires DistinctKeys(acc) && HasAllKeys(acc, rows)
    requires i < |acc| ==> SumsKey(acc[i], rows)
    requires i < |MergeRow(acc, r)|
    ensures SumsKey(MergeRow(acc, r)[i], rows + [r])
    ensures Position(rows + [r], KeyOf(MergeRow(acc, r)[i]))
            == if i < |acc| then Position(rows, KeyOf(acc[i])) else |rows|
  {
    if i < |acc| {
      SumsKeySnoc(acc[i], rows, r);
      assert i != Position(acc, KeyOf(r)) ==> KeyOf(acc[i]) != KeyOf(r) || Position(acc, KeyOf(r)) < i;
    } else {
      AbsentKey(rows, KeyOf(r));
      OpensKey(rows, r);
    }
  }

  lemma {:induction false} AbsentKey(rows: seq<FindingRow>, k: Key)
    requires forall x | x in rows :: KeyOf(x) != k
    ensures Position(rows, k) == |rows|
  {
    if rows != [] {
      AbsentKey(rows[1..], k);
    }
  }

  lemma {:induction false} SumsKeySnoc(m: FindingRow, rows: seq<FindingRow>, r: FindingRow)
    requires SumsKey(m, rows)
    ensures SumsKey(if KeyOf(m) == KeyOf(r) then m.(count := m.count + r.count) else m, rows + [r])
    ensures Position(rows + [r], KeyOf(m)) == Position(rows, KeyOf(m))
  {
    PositionSnoc(rows, r, KeyOf(m));
    assert (rows + [r])[..|rows|] == rows;
  }

  lemma {:induction false} OpensKey(rows: seq<FindingRow>, r: FindingRow)
    requires Position(rows, KeyOf(r)) == |rows|
    ensures SumsKey(r.(region := ""), rows + [r]) && Position(rows + [r], KeyOf(r)) == |rows|
  {
    PositionSnoc(rows, r, KeyOf(r));
    NoKeyNoTotal(rows, KeyOf(r));
    assert (rows + [r])[..|rows|] == rows;
  }

  lemma {:induction false} MergeRowKeys(acc: seq<FindingRow>, rows: seq<FindingRow>, r: FindingRow)
    requires DistinctKeys(acc) && HasAllKeys(acc, rows)
    ensures var out := MergeRow(acc, r);
      && DistinctKeys(out) && HasAllKeys(out, rows + [r])
      && |out| >= |acc| && forall i | 0 <= i < |acc| :: KeyOf(out[i]) == KeyOf(acc[i])
  {
    var out := MergeRow(acc, r);
    forall x | x in rows + [r]
      ensures Position(out, KeyOf(x)) < |out|
    {
      var p := Position(acc, KeyOf(x));
      assert x in rows || x == r;
      assert KeyOf(out[p]) == KeyOf(x);
    }
  }

  lemma {:induction false} NoKeyNoTotal(rows: seq<FindingRow>, k: Key)
    ensures Position(rows, k) == |rows| ==> KeyTotal(rows, k) == 0
  {
    if rows != [] && Position(rows, k) == |rows| {
      var prior := rows[..|rows| - 1];
      NoKeyNoTotal(prior, k);
      PositionSnoc(prior, rows[|rows| - 1], k);
      assert rows == prior + [rows[|rows| - 1]];
    }
  }

  lemma {:induction false} CategoryTotalUpdate(acc: seq<FindingRow>, i: nat, extra: int, category: string)
    requires i < |acc|
    ensures CategoryTotal(acc[i := acc[i].(count := acc[i].count + extra)], category)
            == CategoryTotal(acc, category) + (if acc[i].category == category then extra else 0)
  {
    var x := acc[i].(count := acc[i].count + extra);
    assert acc[i := x] == acc[..i] + ([x] + acc[i + 1..]);
    assert acc == acc[..i] + ([acc[i]] + acc[i + 1..]);
    CategoryTotalAppend(acc[..i], [x] + acc[i + 1..], category);
    CategoryTotalAppend(acc[..i], [acc[i]] + acc[i + 1..], category);
    CategoryTotalAppend([x], acc[i + 1..], category);
    CategoryTotalAppend([acc[i]], acc[i + 1..], category);
    assert [x][..0] == [] && [acc[i]][..0] == [];
  }

  /** The last row of consistent rows agrees with the merged row of its key. */
  lemma {:induction false} AgreesWithMerged(prior: seq<FindingRow>, r: FindingRow)
    requires Consistent(prior + [r])
    ensures Consistent(prior)
    ensures var acc := Merge(prior);
      var i := Position(acc, KeyOf(r));
      i < |acc| ==> acc[i].category == r.category && acc[i].tokensPerUnit == r.tokensPerUnit
  {
    var all := prior + [r];
    assert forall i | 0 <= i < |prior| :: all[i] == prior[i];
    MergeRepresents(prior);
    var acc := Merge(prior);
    var i := Position(acc, KeyOf(r));
    if i < |acc| {
      var first := Position(prior, KeyOf(acc[i]));
      assert acc[i] == prior[first].(region := "", count := KeyTotal(prior, KeyOf(acc[i])));
      assert all[first] == prior[first] && KeyOf(all[first]) == KeyOf(all[|prior|]);
    }
  }

  lemma {:induction false} MergeRowAddsCount(acc: seq<FindingRow>, r: FindingRow, category: string)
    requires var i := Position(acc, KeyOf(r)); i < |acc| ==> acc[i].category == r.category
    ensures CategoryTotal(MergeRow(acc, r), category)
            == CategoryTotal(acc, category) + (if r.category == category then r.count else 0)
  {
    var i := Position(acc, KeyOf(r));
    if i < |acc| {
      CategoryTotalUpdate(acc, i, r.count, category);
    } else {
      assert (acc + [r.(region := "")])[..|acc|] == acc;
    }
  }

  lemma {:induction false} MergeKeepsTotals(rows: seq<FindingRow>, category: string)
    requires Consistent(rows)
    ensures CategoryTotal(Merge(rows), category) == CategoryTotal(rows, category)
  {
    if rows != [] {
      var prior, r := rows[..|rows| - 1], rows[|rows| - 1];
      assert rows == prior + [r];
      AgreesWithMerged(prior, r);
      MergeKeepsTotals(prior, category);
      MergeRowAddsCount(Merge(prior), r, category);
    }
  }

  /** Merging keeps every category total, hence everything Calculate derives from them. */
  lemma {:induction false} DisplayKeepsCategoryTotals(rows: seq<FindingRow>, category: string)
    requires Consistent(rows)
    ensures CategoryTotal(RetokenizeAll(Merge(rows)), category) == CategoryTotal(rows, category)
  {
    MergeKeepsTotals(rows, category);
    RetokenizeKeepsTotals(Merge(rows), category);
  }

  lemma {:induction false} RetokenizeKeepsTotals(acc: seq<FindingRow>, category: string)
    ensures CategoryTotal(RetokenizeAll(acc), category) == CategoryTotal(acc, category)
  {
    if acc != [] {
      var prior := acc[..|acc| - 1];
      RetokenizeKeepsTotals(prior, category);
      assert RetokenizeAll(acc)[..|acc| - 1] == RetokenizeAll(prior);
    }
  }

  /** The display changes no figure of the calculation. */
  method CalculateForDisplay(rows: seq<FindingRow>) returns (shown: TokenResult, raw: TokenResult)
    requires Consistent(rows)
    ensures shown.findings == RetokenizeAll(Merge(rows)) && raw.findings == rows
    ensures shown.(findings := rows) == raw
  {
    var result := AggregateFindings(rows);
    shown := Calculate(result);
    raw := Calculate(rows);
    DisplayKeepsCategoryTotals(rows, CATEGORY_DDI_OBJECTS);
    DisplayKeepsCategoryTotals(rows, CATEGORY_ACTIVE_IPS);
    DisplayKeepsCategoryTotals(rows, CATEGORY_MANAGED_ASSETS);
  }

  lemma {:induction false} SumTokensAppend(a: seq<FindingRow>, b: seq<FindingRow>)
    ensures SumTokens(a + b) == SumTokens(a) + SumTokens(b)
  {
    if b == [] {
      assert a + b == a;
    } else {
      assert (a + b)[..|a + b| - 1] == a + b[..|b| - 1];
      SumTokensAppend(a, b[..|b| - 1]);
    }
  }

  lemma {:induction false} SumTokensUpdate(acc: seq<FindingRow>, i: nat, x: FindingRow)
    requires i < |acc|
    ensures SumTokens(acc[i := x]) == SumTokens(acc) + x.managementTokens - acc[i].managementTokens
  {
    assert acc[i := x] == acc[..i] + ([x] + acc[i + 1..]);
    assert acc == acc[..i] + ([acc[i]] + acc[i + 1..]);
    SumTokensAppend(acc[..i], [x] + acc[i + 1..]);
    SumTokensAppend(acc[..i], [acc[i]] + acc[i + 1..]);
    SumTokensAppend([x], acc[i + 1..]);
    SumTokensAppend([acc[i]], acc[i + 1..]);
    assert [x][..0] == [] && [acc[i]][..0] == [];
  }

  /** Every merged row has a divisor. */
  ghost predicate Divisible(acc: seq<FindingRow>)
  {
    forall i | 0 <= i < |acc| :: acc[i].tokensPerUnit > 0
  }

  function ShownTokens(acc: seq<FindingRow>): int { SumTokens(RetokenizeAll(acc)) }

  lemma {:induction false} ShownTokensSnoc(acc: seq<FindingRow>, x: FindingRow)
    ensures ShownTokens(acc + [x]) == ShownTokens(acc) + Retokenize(x).managementTokens
  {
    assert RetokenizeAll(acc + [x]) == RetokenizeAll(acc) + [Retokenize(x)];
    SumTokensAppend(RetokenizeAll(acc), [Retokenize(x)]);
    assert [Retokenize(x)][..0] == [];
  }

  lemma {:induction false} ShownTokensUpdate(acc: seq<FindingRow>, i: nat, x: FindingRow)
    requires i < |acc|
    ensures ShownTokens(acc[i := x])
            == ShownTokens(acc) + Retokenize(x).managementTokens - Retokenize(acc[i]).managementTokens
  {
    assert RetokenizeAll(acc[i := x]) == RetokenizeAll(acc)[i := Retokenize(x)];
    SumTokensUpdate(RetokenizeAll(acc), i, Retokenize(x));
  }

  lemma {:induction false} MergeRowSavesAtMostOne(acc: seq<FindingRow>, r: FindingRow)
    requires Divisible(acc) && r.tokensPerUnit > 0
    requires r.managementTokens == Ceiling(r.count, r.tokensPerUnit)
    requires var i := Position(acc, KeyOf(r)); i < |acc| ==> acc[i].tokensPerUnit == r.tokensPerUnit
    ensures var out := MergeRow(acc, r);
      && Divisible(out) && |acc| <= |out| <= |acc| + 1
      && ShownTokens(out) <= ShownTokens(acc) + r.managementTokens <= ShownTokens(out) + 1 + |acc| - |out|
  {
    hide Ceiling, ShownTokens, Position, KeyOf;
    var i := Position(acc, KeyOf(r));
    if i < |acc| {
      CeilingSplit(acc[i].count, r.count, r.tokensPerUnit);
      ShownTokensUpdate(acc, i, acc[i].(count := acc[i].count + r.count));
    } else {
      ShownTokensSnoc(acc, r.(region := ""));
    }
  }

  /** Rounding after merging never shows more tokens, and at most one fewer for each row merged away. */
  lemma {:induction false} MergeSavesAtMostOneEach(rows: seq<FindingRow>)
    requires Consistent(rows) && Tokenized(rows)
    ensures Divisible(Merge(rows)) && |Merge(rows)| <= |rows|
    ensures ShownTokens(Merge(rows)) <= SumTokens(rows) <= ShownTokens(Merge(rows)) + |rows| - |Merge(rows)|
  {
    if rows != [] {
      var prior, r := rows[..|rows| - 1], rows[|rows| - 1];
      assert rows == prior + [r] && r in rows;
      AgreesWithMerged(prior, r);
      MergeSavesAtMostOneEach(prior);
      CeilingBounds(r.count, r.tokensPerUnit);
      MergeRowSavesAtMostOne(Merge(prior), r);
    }
  }
}
