/**
 * The Flight record, its ordering (__lt__) and its equality key (__hash__),
 * and the two collection steps the builder applies to flights: adding to a
 * set that identifies flights by their key, and sorting by actual time.
 */
module Flights {
  import opened Text

  /** One (flight number, airline) pair of a codeshare group. */
  datatype FlightIdentifier = FlightIdentifier(number: string, airline: string)

  /** A raw {"no": ..., "airline": ...} entry of a group's "flight" list. */
  datatype RawCode = RawCode(no: string, airline: string)

  /**
   * One arrival or departure event. The times are instants at +08:00
   * (seconds since 0001-01-01T00:00:00+08:00).
   */
  datatype Flight = Flight(
    arrival: bool,
    estTime: int,
    actTime: int,
    airports: seq<string>,
    codes: seq<FlightIdentifier>)

  /** Flight.__init__: airports are kept as given, each raw code becomes an identifier. */
  function MakeFlight(arrival: bool, estTime: int, actTime: int, airports: seq<string>, raw: seq<RawCode>): (f: Flight)
    ensures f.arrival == arrival && f.estTime == estTime && f.actTime == actTime
    ensures f.airports == airports
    ensures |f.codes| == |raw|
    ensures forall i :: 0 <= i < |raw| ==> f.codes[i].number == raw[i].no && f.codes[i].airline == raw[i].airline
  {
    Flight(arrival, estTime, actTime, airports, seq(|raw|, i requires 0 <= i < |raw| => FlightIdentifier(raw[i].no, raw[i].airline)))
  }

  /** Flight.__lt__: ordered by actual time only. */
  predicate Before(a: Flight, b: Flight) {
    a.actTime < b.actTime
  }

  /** The tuple Flight.__hash__ hashes; flights with equal keys are one flight. */
  datatype FlightKey = FlightKey(arrival: bool, estTime: int, actTime: int, airports: string, numbers: string)

  function Numbers(codes: seq<FlightIdentifier>): (r: seq<string>)
    ensures |r| == |codes| && forall i :: 0 <= i < |codes| ==> r[i] == codes[i].number
  {
    seq(|codes|, i requires 0 <= i < |codes| => codes[i].number)
  }

  function Key(f: Flight): FlightKey {
    FlightKey(f.arrival, f.estTime, f.actTime, Join(f.airports, "-"), Join(Numbers(f.codes), ";"))
  }

  /** The key ignores airlines: two flights that differ only in airline codes are one flight. */
  lemma KeyIgnoresAirlines(a: Flight, b: Flight)
    requires a.arrival == b.arrival && a.estTime == b.estTime && a.actTime == b.actTime
    requires a.airports == b.airports && Numbers(a.codes) == Numbers(b.codes)
    ensures Key(a) == Key(b)
  {
  }

  /**
   * For airport codes without '-' and flight numbers without ';' (and at least
   * one of each), the key determines the airports and the flight numbers.
   */
  lemma KeyDeterminesFlight(a: Flight, b: Flight)
    requires |a.airports| >= 1 && |b.airports| >= 1 && |a.codes| >= 1 && |b.codes| >= 1
    requires forall i :: 0 <= i < |a.airports| ==> '-' !in a.airports[i]
    requires forall i :: 0 <= i < |b.airports| ==> '-' !in b.airports[i]
    requires forall i :: 0 <= i < |a.codes| ==> ';' !in a.codes[i].number
    requires forall i :: 0 <= i < |b.codes| ==> ';' !in b.codes[i].number
    requires Key(a) == Key(b)
    ensures a.arrival == b.arrival && a.estTime == b.estTime && a.actTime == b.actTime
    ensures a.airports == b.airports && Numbers(a.codes) == Numbers(b.codes)
  {
    SplitOnJoin(a.airports, '-');
    SplitOnJoin(b.airports, '-');
    SplitOnJoin(Numbers(a.codes), ';');
    SplitOnJoin(Numbers(b.codes), ';');
  }

  predicate HasKey(s: seq<Flight>, k: FlightKey) {
    exists i :: 0 <= i < |s| && Key(s[i]) == k
  }

  /** No two flights of `s` share a key: what a set of Flights holds. */
  predicate DistinctKeys(s: seq<Flight>) {
    forall i, j :: 0 <= i < j < |s| ==> Key(s[i]) != Key(s[j])
  }

  /** set.add under key equality: a flight whose key is already present is not added again. */
  function Insert(s: seq<Flight>, f: Flight): seq<Flight> {
    if HasKey(s, Key(f)) then s else s + [f]
  }

  /**
   * set.add keeps a set a set: the keys stay distinct, the added flight's key
   * is present afterwards, and the set is unchanged exactly when that key was
   * already there, and otherwise gains the flight at its end.
   */
  lemma InsertKeepsKeySet(s: seq<Flight>, f: Flight)
    requires DistinctKeys(s)
    ensures DistinctKeys(Insert(s, f))
    ensures HasKey(Insert(s, f), Key(f))
    ensures Insert(s, f) == s <==> HasKey(s, Key(f))
    ensures !HasKey(s, Key(f)) ==> Insert(s, f) == s + [f]
    ensures forall k :: HasKey(Insert(s, f), k) <==> HasKey(s, k) || k == Key(f)
  {
    var r := Insert(s, f);
    if !HasKey(s, Key(f)) {
      assert r[|s|] == f;
      forall k | HasKey(r, k)
        ensures HasKey(s, k) || k == Key(f)
      {
        var i :| 0 <= i < |r| && Key(r[i]) == k;
        if i < |s| {
          assert r[i] == s[i];
        }
      }
      forall k | HasKey(s, k)
        ensures HasKey(r, k)
      {
        var i :| 0 <= i < |s| && Key(s[i]) == k;
        assert r[i] == s[i];
      }
      forall i, j | 0 <= i < j < |r|
        ensures Key(r[i]) != Key(r[j])
      {
        assert r[i] == s[i];
        if j < |s| {
          assert r[j] == s[j];
        }
      }
    }
  }

  /** The set built by adding the flights of `fs` in order, listed in order of first insertion. */
  function Dedup(fs: seq<Flight>): seq<Flight>
    decreases |fs|
  {
    if fs == [] then [] else Insert(Dedup(fs[..|fs| - 1]), fs[|fs| - 1])
  }

  /**
   * The deduplicated flights have distinct keys, each is the first flight of
   * `fs` with its key, and every flight of `fs` has its key among them.
   */
  lemma {:induction false} DedupIsKeySet(fs: seq<Flight>)
    ensures DistinctKeys(Dedup(fs))
    ensures |Dedup(fs)| <= |fs|
    ensures forall x :: x in Dedup(fs) ==> FirstWithKey(fs, x)
    ensures forall i :: 0 <= i < |fs| ==> HasKey(Dedup(fs), Key(fs[i]))
    decreases |fs|
  {
    if fs != [] {
      var init, f := fs[..|fs| - 1], fs[|fs| - 1];
      DedupIsKeySet(init);
      var d := Dedup(init);
      assert fs == init + [f];
      forall x | x in Dedup(fs)
        ensures FirstWithKey(fs, x)
      {
        if x in d {
          FirstWithKeyExtends(init, f, x);
        } else {
          assert x == f && !HasKey(d, Key(f));
          assert FirstWithKey(fs, x) by {
            forall j | 0 <= j < |init|
              ensures Key(fs[j]) != Key(x)
            {
              assert fs[j] == init[j];
              assert HasKey(d, Key(init[j]));
            }
            assert fs[|fs| - 1] == x;
          }
        }
      }
      forall i | 0 <= i < |fs|
        ensures HasKey(Dedup(fs), Key(fs[i]))
      {
        if i < |fs| - 1 {
          assert fs[i] == init[i];
          var k :| 0 <= k < |d| && Key(d[k]) == Key(init[i]);
          assert Dedup(fs)[k] == d[k];
        } else if !HasKey(d, Key(f)) {
          assert Dedup(fs)[|d|] == f;
        }
      }
    }
  }

  /** `x` occurs in `fs` at a position where no earlier flight has its key. */
  predicate FirstWithKey(fs: seq<Flight>, x: Flight) {
    exists i :: 0 <= i < |fs| && fs[i] == x && forall j :: 0 <= j < i ==> Key(fs[j]) != Key(x)
  }

  lemma FirstWithKeyExtends(fs: seq<Flight>, f: Flight, x: Flight)
    requires FirstWithKey(fs, x)
    ensures FirstWithKey(fs + [f], x)
  {
    var i :| 0 <= i < |fs| && fs[i] == x && forall j :: 0 <= j < i ==> Key(fs[j]) != Key(x);
    assert (fs + [f])[i] == x;
    forall j | 0 <= j < i
      ensures Key((fs + [f])[j]) != Key(x)
    {
      assert (fs + [f])[j] == fs[j];
    }
  }

  /** What sorted() guarantees under __lt__: no flight is Before one listed ahead of it. */
  predicate SortedByAct(s: seq<Flight>) {
    forall i, j :: 0 <= i < j < |s| ==> !Before(s[j], s[i])
  }

  /** Places `f` before the first flight of `s` that is not earlier than it. */
  function InsertByAct(f: Flight, s: seq<Flight>): (r: seq<Flight>)
    ensures multiset(r) == multiset(s) + multiset{f}
  {
    if s == [] || f.actTime <= s[0].actTime then [f] + s
    else
      assert s == [s[0]] + s[1..];
      [s[0]] + InsertByAct(f, s[1..])
  }

  lemma InInsertByAct(f: Flight, s: seq<Flight>, y: Flight)
    requires y in InsertByAct(f, s)
    ensures y == f || y in s
  {
    assert y in multiset(InsertByAct(f, s));
  }

  /** Inserting into a sorted list keeps it sorted. */
  lemma {:induction false} InsertByActSorted(f: Flight, s: seq<Flight>)
    requires SortedByAct(s)
    ensures SortedByAct(InsertByAct(f, s))
    decreases |s|
  {
    if s == [] || f.actTime <= s[0].actTime {
    } else {
      var rest := InsertByAct(f, s[1..]);
      InsertByActSorted(f, s[1..]);
      forall y | y in rest
        ensures s[0].actTime <= y.actTime
      {
        InInsertByAct(f, s[1..], y);
      }
      var r := [s[0]] + rest;
      forall i, j | 0 <= i < j < |r|
        ensures !Before(r[j], r[i])
      {
        assert r[j] == rest[j - 1];
        if i > 0 {
          assert r[i] == rest[i - 1];
        }
      }
    }
  }

  /** sorted(): the flights in non-decreasing order of actual time (a stable insertion sort). */
  function SortByAct(s: seq<Flight>): (r: seq<Flight>)
    ensures SortedByAct(r)
    ensures multiset(r) == multiset(s)
    ensures |r| == |s|
  {
    if s == [] then []
    else
      assert s == [s[0]] + s[1..];
      var sorted := SortByAct(s[1..]);
      InsertByActSorted(s[0], sorted);
      InsertByAct(s[0], sorted)
  }

  lemma DistinctKeysCons(x: Flight, t: seq<Flight>)
    requires DistinctKeys(t) && !HasKey(t, Key(x))
    ensures DistinctKeys([x] + t)
  {
    var r := [x] + t;
    forall i, j | 0 <= i < j < |r|
      ensures Key(r[i]) != Key(r[j])
    {
      assert r[j] == t[j - 1];
      if i > 0 {
        assert r[i] == t[i - 1];
      }
    }
  }

  lemma DistinctKeysTail(s: seq<Flight>)
    requires DistinctKeys(s) && s != []
    ensures DistinctKeys(s[1..]) && !HasKey(s[1..], Key(s[0]))
  {
    var t := s[1..];
    forall i, j | 0 <= i < j < |t|
      ensures Key(t[i]) != Key(t[j])
    {
      assert t[i] == s[i + 1] && t[j] == s[j + 1];
    }
    forall k | 0 <= k < |t|
      ensures Key(t[k]) != Key(s[0])
    {
      assert t[k] == s[k + 1];
    }
  }

  lemma KeyOfMember(s: seq<Flight>, y: Flight)
    requires y in s
    ensures HasKey(s, Key(y))
  {
    var k :| 0 <= k < |s| && s[k] == y;
  }

  lemma {:induction false} InsertByActDistinct(f: Flight, s: seq<Flight>)
    requires DistinctKeys(s) && !HasKey(s, Key(f))
    ensures DistinctKeys(InsertByAct(f, s))
    decreases |s|
  {
    if s == [] || f.actTime <= s[0].actTime {
      DistinctKeysCons(f, s);
    } else {
      DistinctKeysTail(s);
      assert !HasKey(s[1..], Key(f)) by {
        forall k | 0 <= k < |s[1..]| ensures Key(s[1..][k]) != Key(f) {
          assert s[1..][k] == s[k + 1];
        }
      }
      InsertByActDistinct(f, s[1..]);
      var rest := InsertByAct(f, s[1..]);
      assert !HasKey(rest, Key(s[0])) by {
        forall k | 0 <= k < |rest| ensures Key(rest[k]) != Key(s[0]) {
          InInsertByAct(f, s[1..], rest[k]);
          if rest[k] != f {
            KeyOfMember(s[1..], rest[k]);
          } else {
            assert HasKey(s, Key(s[0])) by { assert Key(s[0]) == Key(s[0]); }
          }
        }
      }
      DistinctKeysCons(s[0], rest);
    }
  }

  /** Sorting keeps the keys distinct: the sorted list still holds one flight per key. */
  lemma {:induction false} SortKeepsDistinctKeys(s: seq<Flight>)
    requires DistinctKeys(s)
    ensures DistinctKeys(SortByAct(s))
    decreases |s|
  {
    if s != [] {
      DistinctKeysTail(s);
      SortKeepsDistinctKeys(s[1..]);
      var sorted := SortByAct(s[1..]);
      assert !HasKey(sorted, Key(s[0])) by {
        forall k | 0 <= k < |sorted| ensures Key(sorted[k]) != Key(s[0]) {
          assert sorted[k] in multiset(s[1..]);
          KeyOfMember(s[1..], sorted[k]);
        }
      }
      InsertByActDistinct(s[0], sorted);
    }
  }

  /** Adding one more flight to the input adds it to the set under key equality. */
  lemma DedupSnoc(fs: seq<Flight>, f: Flight)
    ensures Dedup(fs + [f]) == Insert(Dedup(fs), f)
  {
    assert (fs + [f])[..|fs|] == fs;
  }

  /** Sorting keeps exactly the same flights, so it keeps the same keys. */
  lemma SortKeepsMembers(s: seq<Flight>)
    ensures forall x :: x in SortByAct(s) <==> x in s
    ensures forall k :: HasKey(SortByAct(s), k) <==> HasKey(s, k)
  {
    var r := SortByAct(s);
    assert forall x :: x in r <==> x in multiset(r);
    assert forall x :: x in s <==> x in multiset(s);
    forall k | HasKey(r, k)
      ensures HasKey(s, k)
    {
      var i :| 0 <= i < |r| && Key(r[i]) == k;
      assert r[i] in s;
      KeyOfMember(s, r[i]);
    }
    forall k | HasKey(s, k)
      ensures HasKey(r, k)
    {
      var i :| 0 <= i < |s| && Key(s[i]) == k;
      assert s[i] in r;
      KeyOfMember(r, s[i]);
    }
  }

  /**
   * Flight.__eq__ as written compares the objects' __dict__. The flight_code
   * lists hold FlightIdentifier objects that each Flight builds afresh and that
   * compare by identity, so two distinct Flight objects are equal only when
   * their other fields agree and both have no flight codes at all.
   */
  predicate EqualAsWritten(a: Flight, b: Flight) {
    && a.arrival == b.arrival && a.estTime == b.estTime && a.actTime == b.actTime
    && a.airports == b.airports && a.codes == [] && b.codes == []
  }

  /** set.add with that equality: the flight is dropped only if an as-written-equal flight is present. */
  function InsertAsWritten(s: seq<Flight>, f: Flight): seq<Flight> {
    if exists i :: 0 <= i < |s| && EqualAsWritten(s[i], f) then s else s + [f]
  }

  /**
   * The same group reported twice (flight CX 501 from NRT, at gate at the same
   * time) gives two Flight objects; the set as written keeps both, so two
   * flights with one key remain, while insertion by key keeps one.
   */
  lemma AsWrittenKeepsDuplicates()
    ensures
      var f := Flight(true, 100, 160, ["NRT"], [FlightIdentifier("CX 501", "CX")]);
      && InsertAsWritten([f], f) == [f, f]
      && !DistinctKeys(InsertAsWritten([f], f))
      && Insert([f], f) == [f]
  {
    var f := Flight(true, 100, 160, ["NRT"], [FlightIdentifier("CX 501", "CX")]);
    assert !EqualAsWritten(f, f);
    assert HasKey([f], Key(f)) by {
      assert Key([f][0]) == Key(f);
    }
    var r := InsertAsWritten([f], f);
    assert r[0] == f && r[1] == f;
  }
}
