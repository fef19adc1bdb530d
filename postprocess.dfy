/**
 * The integer post-processing of the solvers: the delay of a flight in
 * whole minutes, the outlier filter correct_data (with its bounds given), and
 * the per-minute histogram solver2 builds before plotting.
 */
module PostProcess {
  import opened Common
  import opened Flights

  /** (act - est).total_seconds() // 60: the delay in minutes, rounded down. */
  function DelayMinutes(f: Flight): (m: int)
    ensures 60 * m <= f.actTime - f.estTime < 60 * m + 60
  {
    (f.actTime - f.estTime) / 60
  }

  /** The delays of a list of flights, in list order. */
  function Delays(fs: seq<Flight>): (ds: seq<int>)
    ensures |ds| == |fs|
    ensures forall i :: 0 <= i < |fs| ==> 60 * ds[i] <= fs[i].actTime - fs[i].estTime < 60 * ds[i] + 60
  {
    seq(|fs|, i requires 0 <= i < |fs| => DelayMinutes(fs[i]))
  }

  /** A delay of a flight whose times are whole minutes apart is that number of minutes, negative or not. */
  lemma DelayOfWholeMinutes(f: Flight, minutes: int)
    requires f.actTime - f.estTime == 60 * minutes
    ensures DelayMinutes(f) == minutes
  {
    var m := DelayMinutes(f);
    if m < minutes {
      assert false;
    } else if m > minutes {
      assert false;
    }
  }

  // correct_data

  /** The values of `ds` inside [lb, rb], in their original order. */
  function InRange(ds: seq<int>, lb: int, rb: int): seq<int>
    decreases |ds|
  {
    if ds == [] then []
    else
      var x := ds[|ds| - 1];
      InRange(ds[..|ds| - 1], lb, rb) + (if lb <= x <= rb then [x] else [])
  }

  /** The positions of `ds` whose values lie inside [lb, rb], increasing. */
  function KeptPositions(ds: seq<int>, lb: int, rb: int): seq<nat>
    decreases |ds|
  {
    if ds == [] then []
    else
      var x := ds[|ds| - 1];
      KeptPositions(ds[..|ds| - 1], lb, rb) + (if lb <= x <= rb then [|ds| - 1] else [])
  }

  /** `a` is `b` read at the strictly increasing positions `at`. */
  predicate SubsequenceAt(a: seq<int>, b: seq<int>, at: seq<nat>) {
    && |at| == |a|
    && (forall k :: 0 <= k < |at| ==> at[k] < |b| && a[k] == b[at[k]])
    && (forall k, l :: 0 <= k < l < |at| ==> at[k] < at[l])
  }

  /**
   * The filter keeps a value exactly when it lies in [lb, rb], keeps it in
   * place order, and so returns a subsequence of its input.
   */
  lemma {:induction false} InRangeSubsequence(ds: seq<int>, lb: int, rb: int)
    ensures SubsequenceAt(InRange(ds, lb, rb), ds, KeptPositions(ds, lb, rb))
    ensures forall i :: 0 <= i < |ds| ==> (i in KeptPositions(ds, lb, rb) <==> lb <= ds[i] <= rb)
    ensures |InRange(ds, lb, rb)| <= |ds|
    decreases |ds|
  {
    if ds != [] {
      var n := |ds| - 1;
      var init := ds[..n];
      InRangeSubsequence(init, lb, rb);
      var a, at := InRange(ds, lb, rb), KeptPositions(ds, lb, rb);
      var a0, at0 := InRange(init, lb, rb), KeptPositions(init, lb, rb);
      forall k | 0 <= k < |at|
        ensures at[k] < |ds| && a[k] == ds[at[k]]
      {
        if k < |at0| {
          assert at[k] == at0[k] && a[k] == a0[k];
          assert ds[at0[k]] == init[at0[k]];
        }
      }
      forall i | 0 <= i < |ds|
        ensures i in at <==> lb <= ds[i] <= rb
      {
        if i < n {
          assert ds[i] == init[i];
          assert i in at <==> i in at0;
        }
      }
    }
  }

  /** Each value occurs in the result as often as in the input when it lies in [lb, rb], and never otherwise. */
  lemma {:induction false} InRangeCounts(ds: seq<int>, lb: int, rb: int)
    ensures forall v :: multiset(InRange(ds, lb, rb))[v] == if lb <= v <= rb then multiset(ds)[v] else 0
    decreases |ds|
  {
    if ds != [] {
      var init, x := ds[..|ds| - 1], ds[|ds| - 1];
      InRangeCounts(init, lb, rb);
      assert ds == init + [x];
    }
  }

  /**
   * correct_data with its bounds given: statistics.stdev rejects fewer than
   * two values; otherwise the values inside [lb, rb] are appended to the
   * result in order.
   */
  method CorrectData(delays: seq<int>, lb: int, rb: int) returns (r: Result<seq<int>>)
    ensures |delays| < 2 <==> r == Err(NotEnoughValues)
    ensures |delays| >= 2 ==> r == Ok(InRange(delays, lb, rb))
    ensures r.Ok? ==> forall i :: 0 <= i < |r.value| ==> lb <= r.value[i] <= rb
  {
    if |delays| < 2 {
      return Err(NotEnoughValues);
    }
    var res: seq<int> := [];
    var i := 0;
    while i < |delays|
      invariant 0 <= i <= |delays|
      invariant res == InRange(delays[..i], lb, rb)
      invariant forall k :: 0 <= k < |res| ==> lb <= res[k] <= rb
    {
      assert delays[..i + 1][..i] == delays[..i];
      if lb <= delays[i] && delays[i] <= rb {
        res := res + [delays[i]];
      }
      i := i + 1;
    }
    assert delays[..i] == delays;
    r := Ok(res);
  }

  // The counter histogram of solver2

  /** min(): the least value of a non-empty list. */
  function SeqMin(s: seq<int>): (m: int)
    requires s != []
    ensures m in s && forall i :: 0 <= i < |s| ==> m <= s[i]
    decreases |s|
  {
    if |s| == 1 then s[0]
    else
      var rest := SeqMin(s[..|s| - 1]);
      assert s[..|s| - 1][0] == s[0];
      if s[|s| - 1] < rest then s[|s| - 1] else rest
  }

  /** max(): the greatest value of a non-empty list. */
  function SeqMax(s: seq<int>): (m: int)
    requires s != []
    ensures m in s && forall i :: 0 <= i < |s| ==> s[i] <= m
    decreases |s|
  {
    if |s| == 1 then s[0]
    else
      var rest := SeqMax(s[..|s| - 1]);
      assert s[..|s| - 1][0] == s[0];
      if s[|s| - 1] > rest then s[|s| - 1] else rest
  }

  /** How often `v` occurs in `s`. */
  function CountOf(s: seq<int>, v: int): (n: nat)
    ensures n == multiset(s)[v]
    decreases |s|
  {
    if s == [] then 0
    else
      var init, x := s[..|s| - 1], s[|s| - 1];
      assert s == init + [x];
      CountOf(init, v) + (if x == v then 1 else 0)
  }

  /** The sum of m[lo], ..., m[hi] for a map holding every key in between. */
  function MapSum(m: map<int, int>, lo: int, hi: int): int
    requires forall k :: lo <= k <= hi ==> k in m
    decreases hi - lo
  {
    if hi < lo then 0 else MapSum(m, lo, hi - 1) + m[hi]
  }

  /** The number of values of `s` in [lo, hi], counted key by key. */
  function CountSum(s: seq<int>, lo: int, hi: int): int
    decreases hi - lo
  {
    if hi < lo then 0 else CountSum(s, lo, hi - 1) + CountOf(s, hi)
  }

  lemma {:induction false} CountSumSnoc(s: seq<int>, x: int, lo: int, hi: int)
    ensures CountSum(s + [x], lo, hi) == CountSum(s, lo, hi) + (if lo <= x <= hi then 1 else 0)
    decreases hi - lo
  {
    if lo <= hi {
      CountSumSnoc(s, x, lo, hi - 1);
      assert (s + [x])[..|s|] == s;
    }
  }

  /** When every value lies in [lo, hi], the counts of the keys lo..hi add up to the length. */
  lemma {:induction false} CountSumAll(s: seq<int>, lo: int, hi: int)
    requires forall i :: 0 <= i < |s| ==> lo <= s[i] <= hi
    ensures CountSum(s, lo, hi) == |s|
    decreases |s|
  {
    if s == [] {
      CountSumEmpty(lo, hi);
    } else {
      var init, x := s[..|s| - 1], s[|s| - 1];
      CountSumAll(init, lo, hi);
      CountSumSnoc(init, x, lo, hi);
      assert s == init + [x];
    }
  }

  lemma {:induction false} CountSumEmpty(lo: int, hi: int)
    ensures CountSum([], lo, hi) == 0
    decreases hi - lo
  {
    if lo <= hi {
      CountSumEmpty(lo, hi - 1);
    }
  }

  lemma {:induction false} MapSumOfCounts(m: map<int, int>, s: seq<int>, lo: int, hi: int)
    requires forall k :: lo <= k <= hi ==> k in m && m[k] == CountOf(s, k)
    ensures MapSum(m, lo, hi) == CountSum(s, lo, hi)
    decreases hi - lo
  {
    if lo <= hi {
      MapSumOfCounts(m, s, lo, hi - 1);
    }
  }

  /**
   * solver2's counter: a key for every minute from min(delays) to
   * max(delays), each holding how many delays equal it; min() of an empty
   * list raises.
   */
  method Histogram(delays: seq<int>) returns (r: Result<map<int, int>>)
    ensures delays == [] <==> r == Err(EmptySequence)
    ensures delays != [] ==> r.Ok?
    ensures r.Ok? ==> forall k :: k in r.value <==> SeqMin(delays) <= k <= SeqMax(delays)
    ensures r.Ok? ==> forall k :: k in r.value ==> r.value[k] == CountOf(delays, k)
  {
    if delays == [] {
      return Err(EmptySequence);
    }
    var lo, hi := SeqMin(delays), SeqMax(delays);
    var counter: map<int, int> := map[];
    var idx := lo;
    while idx < hi + 1
      invariant lo <= idx <= hi + 1
      invariant forall k :: k in counter <==> lo <= k < idx
      invariant forall k :: k in counter ==> counter[k] == 0
    {
      counter := counter[idx := 0];
      idx := idx + 1;
    }
    var i := 0;
    while i < |delays|
      invariant 0 <= i <= |delays|
      invariant forall k :: k in counter <==> lo <= k <= hi
      invariant forall k :: k in counter ==> counter[k] == CountOf(delays[..i], k)
    {
      var d := delays[i];
      assert delays[..i + 1][..i] == delays[..i];
      counter := counter[d := counter[d] + 1];
      i := i + 1;
    }
    assert delays[..i] == delays;
    r := Ok(counter);
  }

  /** The histogram's counts add up to the number of delays. */
  lemma HistogramTotal(delays: seq<int>, counter: map<int, int>)
    requires delays != []
    requires forall k :: k in counter <==> SeqMin(delays) <= k <= SeqMax(delays)
    requires forall k :: k in counter ==> counter[k] == CountOf(delays, k)
    ensures MapSum(counter, SeqMin(delays), SeqMax(delays)) == |delays|
  {
    var lo, hi := SeqMin(delays), SeqMax(delays);
    MapSumOfCounts(counter, delays, lo, hi);
    CountSumAll(delays, lo, hi);
  }
}
