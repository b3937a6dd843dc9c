/** MergeQPSData of internal/scanner/nios/scanner.go: peaks from Splunk are attached to members by
    full name, by identifier, or by short host name. */
module QpsMerge {
  import opened SplunkQps

  /** The fields that matter here; the others are copied. */
  datatype ServerMetric = ServerMetric(memberId: string, memberName: string, qps: int, objectCount: int)

  /** Position of the first dot, or |s|. */
  function FirstDot(s: string): (i: nat)
    ensures i <= |s|
  {
    if s == "" || s[0] == '.' then 0 else 1 + FirstDot(s[1..])
  }

  /** The host name before the first dot; a leading dot is left alone. */
  function Short(s: string): string
  {
    var i := FirstDot(s);
    if 0 < i < |s| then s[..i] else s
  }

  /** What a short name is: the host name before the first dot, or the whole name if it has no dot or begins with
      one. */
  ghost predicate IsShort(s: string, short: string)
  {
    && (s == "" || s[0] == '.' || '.' !in s ==> short == s)
    && (s != "" && s[0] != '.' && '.' in s ==> '.' !in short && exists rest :: s == short + ("." + rest))
  }

  lemma {:induction false} FirstDotFinds(s: string)
    ensures '.' !in s[..FirstDot(s)]
    ensures FirstDot(s) < |s| ==> s[FirstDot(s)] == '.'
    ensures FirstDot(s) == |s| <==> '.' !in s
  {
    if s != "" && s[0] != '.' {
      var i := FirstDot(s[1..]);
      FirstDotFinds(s[1..]);
      assert s == [s[0]] + s[1..] && s[..i + 1] == [s[0]] + s[1..][..i];
    } else if s != "" {
      assert '.' in s;
    }
  }

  lemma {:induction false} ShortIsShort(s: string)
    ensures IsShort(s, Short(s))
  {
    FirstDotFinds(s);
    var i := FirstDot(s);
    if 0 < i < |s| {
      assert s == s[..i] + ("." + s[i + 1..]);
    }
  }

  /** math.Round: halves go away from zero. */
  function Round(x: real): int { if x >= 0.0 then (x + 0.5).Floor else -((-x + 0.5).Floor) }

  /** `n` is an integer nearest to `x`, and the one farther from zero when there are two. */
  predicate Rounds(x: real, n: int)
  {
    && -0.5 <= n as real - x <= 0.5
    && (n as real - x == 0.5 ==> x > 0.0) && (n as real - x == -0.5 ==> x < 0.0)
  }

  lemma {:induction false} RoundIsNearest(x: real)
    ensures Rounds(x, Round(x))
    ensures forall n | Rounds(x, n) :: n == Round(x)
  {
  }

  /** The positive maximum of the values whose keys share a short name. */
  ghost predicate IsPeak(data: map<string, real>, short: string, v: real)
  {
    && v > 0.0 && (exists key :: key in data && Short(key) == short && data[key] == v)
    && forall key | key in data && Short(key) == short :: data[key] <= v
  }

  ghost predicate NoPeak(data: map<string, real>, short: string)
  {
    forall key | key in data && Short(key) == short :: data[key] <= 0.0
  }

  ghost predicate Indexes(index: map<string, real>, data: map<string, real>)
  {
    forall short :: if short in index then IsPeak(data, short, index[short]) else NoPeak(data, short)
  }

  /** The part of the data already indexed. */
  ghost predicate IndexesPart(index: map<string, real>, data: map<string, real>, done: set<string>)
  {
    && (forall short | short in index ::
          index[short] > 0.0 && exists key ::
            key in done && key in data && Short(key) == short && data[key] == index[short])
    && (forall key | key in done && key in data :: data[key] <= Peak(index, Short(key)))
  }

  lemma {:induction false} IndexesMore(index: map<string, real>, data: map<string, real>, done: set<string>,
                                       key: string)
    requires IndexesPart(index, data, done) && key in data
    ensures var short := Short(key);
      IndexesPart(if data[key] > Peak(index, short) then index[short := data[key]] else index, data, done + {key})
  {
    var short := Short(key);
    var after := if data[key] > Peak(index, short) then index[short := data[key]] else index;
    forall s | s in after
      ensures after[s] > 0.0 && exists k :: k in done + {key} && k in data && Short(k) == s && data[k] == after[s]
    {
      if s in index && after[s] == index[s] {
        var k :| k in done && k in data && Short(k) == s && data[k] == index[s];
        assert k in done + {key};
      } else {
        assert key in done + {key} && Short(key) == s && data[key] == after[s];
        assert short in index ==> index[short] > 0.0;
      }
    }
  }

  lemma {:induction false} IndexesAll(index: map<string, real>, data: map<string, real>)
    requires IndexesPart(index, data, data.Keys)
    ensures Indexes(index, data)
  {
    forall short
      ensures if short in index then IsPeak(data, short, index[short]) else NoPeak(data, short)
    {
      forall key | key in data && Short(key) == short
        ensures data[key] <= Peak(index, short)
      {
        assert key in data.Keys;
      }
      if short in index {
        var key :| key in data.Keys && key in data && Short(key) == short && data[key] == index[short];
      }
    }
  }

  /** Walks the map in an arbitrary order. */
  method BuildShortIndex(data: map<string, real>) returns (index: map<string, real>)
    ensures Indexes(index, data)
  {
    index := map[];
    var keys := data.Keys;
    ghost var done: set<string> := {};
    hide Short, Indexes;
    while keys != {}
      invariant keys !! done && keys + done == data.Keys && IndexesPart(index, data, done)
    {
      var key :| key in keys;
      IndexesMore(index, data, done, key);
      var short := Short(key);
      if data[key] > Peak(index, short) {
        index := index[short := data[key]];
      }
      keys, done := keys - {key}, done + {key};
    }
    assert done == data.Keys;
    IndexesAll(index, data);
  }

  /** What a member's metric becomes. */
  ghost predicate MergedFrom(m: ServerMetric, data: map<string, real>, r: ServerMetric)
  {
    && r == m.(qps := r.qps)
    && if m.memberName in data then Rounds(data[m.memberName], r.qps)
       else if m.memberId in data then Rounds(data[m.memberId], r.qps)
       else if NoPeak(data, Short(m.memberName)) then r.qps == m.qps
       else exists v :: IsPeak(data, Short(m.memberName), v) && Rounds(v, r.qps)
  }

  method MergeQPSData(metrics: seq<ServerMetric>, qpsData: map<string, real>) returns (result: seq<ServerMetric>)
    ensures |result| == |metrics| && forall i | 0 <= i < |metrics| :: MergedFrom(metrics[i], qpsData, result[i])
  {
    if |qpsData| == 0 {
      assert qpsData == map[];
      return metrics;
    }
    var shortIndex := BuildShortIndex(qpsData);
    result := [];
    for i := 0 to |metrics|
      invariant |result| == i && forall j | 0 <= j < i :: MergedFrom(metrics[j], qpsData, result[j])
    {
      var r := MergeOne(metrics[i], qpsData, shortIndex);
      result := result + [r];
    }
  }

  method MergeOne(m: ServerMetric, qpsData: map<string, real>, shortIndex: map<string, real>) returns (r: ServerMetric)
    requires Indexes(shortIndex, qpsData)
    ensures MergedFrom(m, qpsData, r)
  {
    r := m;
    forall x
      ensures Rounds(x, Round(x))
    {
      RoundIsNearest(x);
    }
    hide Rounds, Round, Short;
    if m.memberName in qpsData {
      return m.(qps := Round(qpsData[m.memberName]));
    }
    if m.memberId in qpsData {
      return m.(qps := Round(qpsData[m.memberId]));
    }
    var memberShort := Short(m.memberName);
    if memberShort in shortIndex {
      assert IsPeak(qpsData, memberShort, shortIndex[memberShort]);
      return m.(qps := Round(shortIndex[memberShort]));
    }
    assert NoPeak(qpsData, memberShort);
  }

  /** The merge is determined by its inputs: no iteration order can change it. */
  lemma {:induction false} MergeIsOrderIndependent(m: ServerMetric, data: map<string, real>, a: ServerMetric,
                                                   b: ServerMetric)
    requires MergedFrom(m, data, a) && MergedFrom(m, data, b)
    ensures a == b
  {
    forall x, i, j | Rounds(x, i) && Rounds(x, j)
      ensures i == j
    {
      RoundIsNearest(x);
    }
    hide Rounds;
    if m.memberName !in data && m.memberId !in data && !NoPeak(data, Short(m.memberName)) {
      var short := Short(m.memberName);
      var v :| IsPeak(data, short, v) && Rounds(v, a.qps);
      var w :| IsPeak(data, short, w) && Rounds(w, b.qps);
      var x :| x in data && Short(x) == short && data[x] == v;
      var y :| y in data && Short(y) == short && data[y] == w;
      assert v <= w && w <= v;
    }
  }

  /** From export to metric: a member named by a field of the export gets the rounded maximum of the
      field's readings, when that is positive. */
  lemma {:induction false} MemberGetsItsPeak(parse: ParseFloat, e: Export, m: ServerMetric, r: ServerMetric,
                                             reading: Reading, v: real)
    requires WellFormed(e) && MergedFrom(m, Run(parse, START, Print(e)).peaks, r)
    requires reading in Readings(e.items) && Counts(parse, reading, m.memberName, v) && v > 0.0
    requires forall x, w | x in Readings(e.items) && Counts(parse, x, m.memberName, w) :: w <= v
    ensures Rounds(v, r.qps)
  {
    hide Run, Readings, Rounds, Short;
    PeaksOfExport(parse, e);
    var peaks := Run(parse, START, Print(e)).peaks;
    assert v <= Peak(peaks, m.memberName);
    assert m.memberName in peaks;
  }
}
