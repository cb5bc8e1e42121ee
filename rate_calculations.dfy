/** The rate-calculation hook: partition the city's records by denomination,
    put them in chronological order, pick the record to display, and derive
    the current rate and its change against the previous observation.

    The ordering is the engine's stable sort with the comparator
    "older timestamp first". It is modelled as a stable insertion sort:
    `SortByTime` is the specification, `SortInPlace` the in-place algorithm
    proved equal to it. */
module RateCalculations {
  import opened ExchangeRate

  // ---------------------------------------------------------------------
  // Filtering

  /** The order-preserving subsequence of `s` whose elements satisfy `p`
      (the engine's `Array.prototype.filter`). */
  function Keep(s: seq<Record>, p: Record -> bool): (r: seq<Record>)
    ensures |r| <= |s|
    ensures forall k :: 0 <= k < |r| ==> r[k] in s && p(r[k])
  {
    if s == [] then []
    else
      var init, last := s[..|s| - 1], s[|s| - 1];
      assert s == init + [last];
      Keep(init, p) + (if p(last) then [last] else [])
  }

  /** The filter predicate of the hook: the record's type string equals the selected name.
      Any other string, known denomination or not, never matches. */
  function OfType(t: RateType): Record -> bool {
    (r: Record) => r.rateType == t.Name()
  }

  /** Records stamped with the instant `ts`. */
  function AtTime(ts: int): Record -> bool {
    (r: Record) => r.timestamp == ts
  }

  function FilterByType(s: seq<Record>, t: RateType): (r: seq<Record>)
    ensures forall k :: 0 <= k < |r| ==> r[k] in s && r[k].rateType == t.Name()
  {
    Keep(s, OfType(t))
  }

  lemma {:induction false} KeepAppend(s: seq<Record>, x: Record, p: Record -> bool)
    ensures Keep(s + [x], p) == Keep(s, p) + (if p(x) then [x] else [])
  {
    assert (s + [x])[..|s + [x]| - 1] == s;
  }

  /** The filter keeps every occurrence of a matching record and nothing else:
      its result is a permutation of the matching part of the input. */
  lemma {:induction false} KeepCount(s: seq<Record>, p: Record -> bool)
    ensures forall x :: multiset(Keep(s, p))[x] == if p(x) then multiset(s)[x] else 0
  {
    if s != [] {
      var init, last := s[..|s| - 1], s[|s| - 1];
      assert s == init + [last];
      KeepCount(init, p);
    }
  }

  lemma KeepMember(s: seq<Record>, p: Record -> bool, x: Record)
    requires x in Keep(s, p)
    ensures x in s && p(x)
  {
    KeepCount(s, p);
    assert x in multiset(Keep(s, p));
  }

  // ---------------------------------------------------------------------
  // Chronological order

  ghost predicate SortedByTime(s: seq<Record>) {
    forall i, j :: 0 <= i < j < |s| ==> s[i].timestamp <= s[j].timestamp
  }

  /** Inserts `x` into `s` from the back: `x` goes after every element whose
      timestamp is not later than its own, which is what keeps the sort stable. */
  function Insert(s: seq<Record>, x: Record): (r: seq<Record>)
    ensures |r| == |s| + 1
  {
    if s == [] || s[|s| - 1].timestamp <= x.timestamp then s + [x]
    else Insert(s[..|s| - 1], x) + [s[|s| - 1]]
  }

  /** Stable sort of `s`, oldest first (insertion sort, one element at a time
      from the front, each inserted from the back). */
  function SortByTime(s: seq<Record>): (r: seq<Record>)
    ensures |r| == |s|
  {
    if s == [] then []
    else Insert(SortByTime(s[..|s| - 1]), s[|s| - 1])
  }

  lemma {:induction false} InsertCount(s: seq<Record>, x: Record)
    ensures multiset(Insert(s, x)) == multiset(s) + multiset{x}
  {
    if s != [] && s[|s| - 1].timestamp > x.timestamp {
      var init, last := s[..|s| - 1], s[|s| - 1];
      assert s == init + [last];
      InsertCount(init, x);
    }
  }

  lemma {:induction false} InsertSorted(s: seq<Record>, x: Record)
    requires SortedByTime(s)
    ensures SortedByTime(Insert(s, x))
  {
    if s == [] || s[|s| - 1].timestamp <= x.timestamp {
    } else {
      var init, last := s[..|s| - 1], s[|s| - 1];
      InsertSorted(init, x);
      InsertCount(init, x);
      var r := Insert(init, x);
      forall z | z in r ensures z.timestamp <= last.timestamp {
        assert z in multiset(r);
        if z != x {
          assert z in multiset(init);
        }
      }
      assert Insert(s, x) == r + [last];
    }
  }

  /** The sort yields the same records, in chronological order. */
  lemma {:induction false} SortByTimeSpec(s: seq<Record>)
    ensures SortedByTime(SortByTime(s))
    ensures multiset(SortByTime(s)) == multiset(s)
  {
    if s != [] {
      var init, last := s[..|s| - 1], s[|s| - 1];
      assert s == init + [last];
      SortByTimeSpec(init);
      InsertSorted(SortByTime(init), last);
      InsertCount(SortByTime(init), last);
    }
  }

  lemma {:induction false} SortByTimeAppend(s: seq<Record>, x: Record)
    ensures SortByTime(s + [x]) == Insert(SortByTime(s), x)
  {
    assert (s + [x])[..|s + [x]| - 1] == s;
  }

  /** `Insert` places `x` at position `j` when everything before `j` is not
      later than `x` and everything from `j` on is strictly later. */
  lemma {:induction false} InsertAt(s: seq<Record>, x: Record, j: nat)
    requires j <= |s|
    requires j == 0 || s[j - 1].timestamp <= x.timestamp
    requires forall k :: j <= k < |s| ==> s[k].timestamp > x.timestamp
    ensures Insert(s, x) == s[..j] + [x] + s[j..]
  {
    if j == |s| {
      assert s[..j] == s;
    } else {
      var init := s[..|s| - 1];
      InsertAt(init, x, j);
      assert init[..j] == s[..j];
      assert init[j..] + [s[|s| - 1]] == s[j..];
    }
  }

  lemma {:induction false} KeepSorted(s: seq<Record>, p: Record -> bool)
    requires SortedByTime(s)
    ensures SortedByTime(Keep(s, p))
  {
    if s != [] {
      var init, last := s[..|s| - 1], s[|s| - 1];
      KeepSorted(init, p);
      var k := Keep(init, p);
      forall z | z in k ensures z.timestamp <= last.timestamp {
        KeepMember(init, p, z);
      }
    }
  }

  /** Filtering an inserted sequence is inserting into the filtered sequence. */
  lemma {:induction false} KeepInsert(s: seq<Record>, x: Record, p: Record -> bool)
    requires SortedByTime(s)
    ensures Keep(Insert(s, x), p) == if p(x) then Insert(Keep(s, p), x) else Keep(s, p)
  {
    if s == [] {
      KeepAppend([], x, p);
    } else if s[|s| - 1].timestamp <= x.timestamp {
      assert Insert(s, x) == s + [x];
      KeepAppend(s, x, p);
      var k := Keep(s, p);
      if p(x) && k != [] {
        var z := k[|k| - 1];
        KeepMember(s, p, z);
        var i :| 0 <= i < |s| && s[i] == z;
        assert z.timestamp <= s[|s| - 1].timestamp;
        assert Insert(k, x) == k + [x];
      }
    } else {
      var init, last := s[..|s| - 1], s[|s| - 1];
      assert s == init + [last];
      assert Insert(s, x) == Insert(init, x) + [last];
      KeepInsert(init, x, p);
      KeepAppend(Insert(init, x), last, p);
      KeepAppend(init, last, p);
      var ki := Keep(Insert(init, x), p);
      if p(last) {
        assert Keep(s, p) == Keep(init, p) + [last];
        assert Keep(Insert(s, x), p) == ki + [last];
        if p(x) {
          assert Insert(Keep(s, p), x) == Insert(Keep(init, p), x) + [last];
        }
      } else {
        assert Keep(s, p) == Keep(init, p);
        assert Keep(Insert(s, x), p) == ki;
      }
    }
  }

  /** Stability: sorting commutes with every filter. */
  lemma {:induction false} KeepSortByTime(s: seq<Record>, p: Record -> bool)
    ensures Keep(SortByTime(s), p) == SortByTime(Keep(s, p))
  {
    if s != [] {
      var init, last := s[..|s| - 1], s[|s| - 1];
      assert s == init + [last];
      var sortedInit := SortByTime(init);
      assert SortByTime(s) == Insert(sortedInit, last);
      KeepSortByTime(init, p);
      SortByTimeSpec(init);
      KeepInsert(sortedInit, last, p);
      KeepAppend(init, last, p);
      var kept := Keep(s, p);
      if p(last) {
        assert kept == Keep(init, p) + [last];
        SortByTimeAppend(Keep(init, p), last);
        assert SortByTime(kept) == Insert(SortByTime(Keep(init, p)), last);
        assert Keep(SortByTime(s), p) == Insert(SortByTime(Keep(init, p)), last);
      } else {
        assert kept == Keep(init, p);
        assert Keep(SortByTime(s), p) == SortByTime(Keep(init, p));
      }
    }
  }

  /** Sorting a sequence that is already in order changes nothing. */
  lemma {:induction false} SortByTimeSorted(s: seq<Record>)
    requires SortedByTime(s)
    ensures SortByTime(s) == s
  {
    if s != [] {
      var init, last := s[..|s| - 1], s[|s| - 1];
      assert s == init + [last];
      SortByTimeSorted(init);
    }
  }

  lemma SortByTimeIdempotent(s: seq<Record>)
    ensures SortByTime(SortByTime(s)) == SortByTime(s)
  {
    SortByTimeSpec(s);
    SortByTimeSorted(SortByTime(s));
  }

  /** Stability stated directly: records sharing a timestamp keep their input order. */
  lemma SortByTimeStable(s: seq<Record>, ts: int)
    ensures Keep(SortByTime(s), AtTime(ts)) == Keep(s, AtTime(ts))
  {
    KeepSortByTime(s, AtTime(ts));
    var k := Keep(s, AtTime(ts));
    forall i, j | 0 <= i < j < |k| ensures k[i].timestamp <= k[j].timestamp {
      KeepMember(s, AtTime(ts), k[i]);
      KeepMember(s, AtTime(ts), k[j]);
    }
    SortByTimeSorted(k);
  }

  // ---------------------------------------------------------------------
  // The in-place sort (`Array.prototype.sort` with the timestamp comparator)

  /** One pass of insertion sort: `a[i]` is moved back into the sorted prefix
      `a[..i]`, past every element that is strictly later than it. */
  method InsertIntoPrefix(a: array<Record>, i: nat)
    requires i < a.Length
    modifies a
    ensures a[..i + 1] == Insert(old(a[..i]), old(a[i]))
    ensures a[i + 1..] == old(a[i + 1..])
  {
    ghost var prefix := a[..i];
    var x := a[i];
    var j := i;
    while j > 0 && a[j - 1].timestamp > x.timestamp
      invariant 0 <= j <= i
      invariant forall k :: 0 <= k < j ==> a[k] == prefix[k]
      invariant forall k :: j < k <= i ==> a[k] == prefix[k - 1]
      invariant forall k :: j <= k < i ==> prefix[k].timestamp > x.timestamp
      invariant forall k :: i < k < a.Length ==> a[k] == old(a[k])
    {
      a[j] := a[j - 1];
      j := j - 1;
    }
    a[j] := x;
    InsertAt(prefix, x, j);
    assert a[..i + 1] == prefix[..j] + [x] + prefix[j..];
  }

  method SortInPlace(a: array<Record>)
    modifies a
    ensures a[..] == SortByTime(old(a[..]))
  {
    ghost var input := a[..];
    var i := 0;
    while i < a.Length
      invariant 0 <= i <= a.Length
      invariant a[..i] == SortByTime(input[..i])
      invariant a[i..] == input[i..]
    {
      InsertIntoPrefix(a, i);
      assert input[..i + 1] == input[..i] + [input[i]];
      SortByTimeAppend(input[..i], input[i]);
      i := i + 1;
    }
    assert input[..a.Length] == input;
  }

  // ---------------------------------------------------------------------
  // Partition and selection

  /** `filteredRates`: the records of the selected type, oldest first. */
  function FilteredRates(data: seq<Record>, t: RateType): (r: seq<Record>)
    ensures SortedByTime(r) && multiset(r) == multiset(FilterByType(data, t))
  {
    SortByTimeSpec(FilterByType(data, t));
    SortByTime(FilterByType(data, t))
  }

  /** `filteredRates` holds every record of the selected type, as often as the
      data holds it, and nothing else, in chronological order. */
  lemma FilteredRatesSpec(data: seq<Record>, t: RateType)
    ensures SortedByTime(FilteredRates(data, t))
    ensures forall x ::
              multiset(FilteredRates(data, t))[x] == if x.rateType == t.Name() then multiset(data)[x] else 0
  {
    SortByTimeSpec(FilterByType(data, t));
    KeepCount(data, OfType(t));
  }

  /** `latestRate`: the newest record of the selected type, or, when there is
      none, the newest record of any type, or nothing for an empty city. */
  function LatestRate(data: seq<Record>, t: RateType): (r: Option<Record>)
    ensures r.None? <==> data == []
  {
    var filtered := FilteredRates(data, t);
    if |filtered| == 0 then
      var all := SortByTime(data);
      if |all| > 0 then Some(all[|all| - 1]) else None
    else Some(filtered[|filtered| - 1])
  }

  /** The last element of the sorted sequence is one of its records, and no
      record is newer. */
  lemma LastIsNewest(s: seq<Record>)
    requires s != []
    ensures SortByTime(s)[|s| - 1] in s
    ensures forall x :: x in s ==> x.timestamp <= SortByTime(s)[|s| - 1].timestamp
  {
    var sorted := SortByTime(s);
    SortByTimeSpec(s);
    assert sorted[|s| - 1] in multiset(sorted);
    forall x | x in s ensures x.timestamp <= sorted[|s| - 1].timestamp {
      assert x in multiset(sorted);
      var k :| 0 <= k < |sorted| && sorted[k] == x;
    }
  }

  /** Among the records sharing its timestamp, the last element of the
      sorted sequence is the last one in input order. */
  lemma LastIsLastAtItsTime(s: seq<Record>)
    requires s != []
    ensures var z := SortByTime(s)[|s| - 1];
      var k := Keep(s, AtTime(z.timestamp));
      k != [] && k[|k| - 1] == z
  {
    var sorted := SortByTime(s);
    var z := sorted[|s| - 1];
    SortByTimeStable(s, z.timestamp);
    assert sorted == sorted[..|s| - 1] + [z];
    KeepAppend(sorted[..|s| - 1], z, AtTime(z.timestamp));
  }

  lemma NoneOfType(data: seq<Record>, t: RateType)
    requires FilterByType(data, t) == []
    ensures forall x :: x in data ==> x.rateType != t.Name()
  {
    KeepCount(data, OfType(t));
    forall x | x in data ensures x.rateType != t.Name() {
      assert multiset(FilterByType(data, t))[x] == 0;
    }
  }

  lemma AllOfTypeKept(data: seq<Record>, t: RateType)
    ensures forall x :: x in data && x.rateType == t.Name() ==> x in FilterByType(data, t)
  {
    var kept := FilterByType(data, t);
    KeepCount(data, OfType(t));
    forall x | x in data && x.rateType == t.Name() ensures x in kept {
      assert x in multiset(data);
      assert x in multiset(kept);
    }
  }

  /** What the selection promises: a record is shown exactly when the city has
      data; it comes from the data; it has the selected type whenever any
      record does; and no record it competes with is newer. */
  lemma LatestRateSpec(data: seq<Record>, t: RateType)
    ensures LatestRate(data, t).None? <==> data == []
    ensures LatestRate(data, t).Some? ==>
      var r := LatestRate(data, t).value;
      && r in data
      && ((exists x :: x in data && x.rateType == t.Name()) ==>
            r.rateType == t.Name() &&
            forall x :: x in data && x.rateType == t.Name() ==> x.timestamp <= r.timestamp)
      && ((forall x :: x in data ==> x.rateType != t.Name()) ==>
            forall x :: x in data ==> x.timestamp <= r.timestamp)
      && ((exists x :: x in data && x.rateType == t.Name()) ==>
            var ties := Keep(FilterByType(data, t), AtTime(r.timestamp));
            ties != [] && ties[|ties| - 1] == r)
      && ((forall x :: x in data ==> x.rateType != t.Name()) ==>
            var ties := Keep(data, AtTime(r.timestamp));
            ties != [] && ties[|ties| - 1] == r)
  {
    var kept := FilterByType(data, t);
    if kept == [] {
      NoneOfType(data, t);
      if data != [] {
        LastIsNewest(data);
        LastIsLastAtItsTime(data);
        assert LatestRate(data, t) == Some(SortByTime(data)[|data| - 1]);
      }
    } else {
      AllOfTypeKept(data, t);
      LastIsNewest(kept);
      LastIsLastAtItsTime(kept);
      assert LatestRate(data, t) == Some(SortByTime(kept)[|kept| - 1]);
      KeepMember(data, OfType(t), SortByTime(kept)[|kept| - 1]);
    }
  }


  /** Sorting with and without the filter agree: the type's records in the
      whole data sorted chronologically are exactly `filteredRates`. */
  lemma FilteredRatesFromSortedData(data: seq<Record>, t: RateType)
    ensures FilteredRates(data, t) == Keep(SortByTime(data), OfType(t))
  {
    KeepSortByTime(data, OfType(t));
  }

  /** The fallback sorts the caller's array in place. That reordering is
      harmless: recomputing from the reordered array gives the same
      partition and the same selection. */
  lemma FallbackSortHarmless(data: seq<Record>, t: RateType)
    ensures FilteredRates(SortByTime(data), t) == FilteredRates(data, t)
    ensures LatestRate(SortByTime(data), t) == LatestRate(data, t)
  {
    var sorted := SortByTime(data);
    KeepSortByTime(data, OfType(t));
    assert FilterByType(sorted, t) == SortByTime(FilterByType(data, t));
    SortByTimeIdempotent(FilterByType(data, t));
    assert FilteredRates(sorted, t) == FilteredRates(data, t);
    SortByTimeIdempotent(data);
  }

  // ---------------------------------------------------------------------
  // Change calculation

  datatype Snapshot = Snapshot(currentRate: real, rateChange: real, rateChangePercent: real)

  /** `rateCalculations`: the current rate from the selected record, the
      previous rate from the second-newest filtered record (or the current
      rate when there is no history), and a percentage that is 0 by rule when
      the previous rate is 0. */
  function Calculate(latest: Option<Record>, filtered: seq<Record>): (snap: Snapshot)
    ensures snap.currentRate == 0.0 <==> latest.None? || latest.value.rate == 0
    ensures |filtered| < 2 ==> snap.rateChange == 0.0 && snap.rateChangePercent == 0.0
  {
    var currentRate := if latest.Some? then Scale(latest.value.rate) else 0.0;
    var previousRate := if |filtered| > 1 then Scale(filtered[|filtered| - 2].rate) else currentRate;
    var rateChange := currentRate - previousRate;
    var rateChangePercent := if previousRate != 0.0 then rateChange / previousRate * 100.0 else 0.0;
    Snapshot(currentRate, rateChange, rateChangePercent)
  }

  /** The whole hook as a value: partition, selection, snapshot. */
  function RateCalculationsOf(data: seq<Record>, t: RateType): (r: (seq<Record>, Option<Record>, Snapshot))
    ensures r.0 != [] ==> r.1 == Some(r.0[|r.0| - 1])
    ensures r.1.None? ==> r.0 == [] && r.2 == Snapshot(0.0, 0.0, 0.0)
  {
    var filtered := FilteredRates(data, t);
    var latest := LatestRate(data, t);
    (filtered, latest, Calculate(latest, filtered))
  }

  /** No rate shown means a zero current rate; otherwise the current rate is
      the selected record's rate, descaled once. */
  lemma CurrentRateSpec(data: seq<Record>, t: RateType)
    ensures var (_, latest, snap) := RateCalculationsOf(data, t);
      && (data == [] ==> snap.currentRate == 0.0)
      && (latest.Some? ==> snap.currentRate * 100.0 == latest.value.rate as real)
  {
    LatestRateSpec(data, t);
  }

  /** Without two observations of the selected type there is no change to
      report, even when the fallback record of another type is shown. */
  lemma NoHistoryNoChange(data: seq<Record>, t: RateType)
    requires |FilteredRates(data, t)| < 2
    ensures var snap := RateCalculationsOf(data, t).2;
      snap.rateChange == 0.0 && snap.rateChangePercent == 0.0
  {
  }

  /** With two or more observations, the change is taken between the two newest. */
  lemma ChangeFromLastTwo(data: seq<Record>, t: RateType)
    requires |FilteredRates(data, t)| >= 2
    ensures var (f, latest, snap) := RateCalculationsOf(data, t);
      var current, previous := Scale(f[|f| - 1].rate), Scale(f[|f| - 2].rate);
      && latest == Some(f[|f| - 1])
      && snap.currentRate == current
      && snap.rateChange == current - previous
      && (previous != 0.0 ==> snap.rateChangePercent * previous == snap.rateChange * 100.0)
      && (previous == 0.0 ==> snap.rateChangePercent == 0.0)
  {
  }

  /** The percentage is a faithful relative change: applying it to the
      previous rate gives back the current rate, and its sign is the
      direction of the move. */
  lemma PercentRecoversCurrent(latest: Option<Record>, filtered: seq<Record>)
    requires |filtered| >= 2
    requires Scale(filtered[|filtered| - 2].rate) > 0.0
    ensures var snap := Calculate(latest, filtered);
      var previous := Scale(filtered[|filtered| - 2].rate);
      && previous + previous * snap.rateChangePercent / 100.0 == snap.currentRate
      && (snap.rateChangePercent > 0.0 <==> snap.currentRate > previous)
      && (snap.rateChangePercent < 0.0 <==> snap.currentRate < previous)
  {
    var snap := Calculate(latest, filtered);
    var previous := Scale(filtered[|filtered| - 2].rate);
    assert snap.rateChangePercent == snap.rateChange / previous * 100.0;
    assert previous * snap.rateChangePercent / 100.0 == snap.rateChange;
    if snap.rateChangePercent > 0.0 {
      assert snap.rateChange > 0.0;
    }
    if snap.rateChangePercent < 0.0 {
      assert snap.rateChange < 0.0;
    }
  }

  /** Two penji observations of 1500.00 and 1520.00: the later one is shown,
      the change is 20 and the percentage 4/3. */
  lemma TwoObservationScenario()
    ensures
      var older := Record(1, "Erbil", "penji", 150000, 1000, None);
      var newer := Record(2, "Erbil", "penji", 152000, 2000, None);
      var (f, latest, snap) := RateCalculationsOf([newer, older], Penji);
      && f == [older, newer]
      && latest == Some(newer)
      && snap == Snapshot(1520.0, 20.0, 4.0 / 3.0)
  {
    var older := Record(1, "Erbil", "penji", 150000, 1000, None);
    var newer := Record(2, "Erbil", "penji", 152000, 2000, None);
    assert [newer, older][..1] == [newer];
    assert [newer, older][..0] == [];
    KeepAppend([], newer, OfType(Penji));
    KeepAppend([newer], older, OfType(Penji));
    assert FilterByType([newer, older], Penji) == [newer, older];
    SortByTimeAppend([newer], older);
    SortByTimeAppend([], newer);
    assert SortByTime([newer]) == [newer];
    assert FilteredRates([newer, older], Penji) == Insert([newer], older);
    assert Insert([newer], older) == Insert([], older) + [newer];
  }

  // ---------------------------------------------------------------------
  // The hook as the program runs it

  /** The filter at the start of the hook, into a fresh array. */
  method FilterToArray(data: array<Record>, t: RateType) returns (b: array<Record>)
    ensures fresh(b)
    ensures b[..] == FilterByType(data[..], t)
  {
    var acc: seq<Record> := [];
    for i := 0 to data.Length
      invariant acc == FilterByType(data[..i], t)
    {
      assert data[..i + 1] == data[..i] + [data[i]];
      KeepAppend(data[..i], data[i], OfType(t));
      if data[i].rateType == t.Name() {
        acc := acc + [data[i]];
      }
    }
    assert data[..data.Length] == data[..];
    b := new Record[|acc|](k requires 0 <= k < |acc| => acc[k]);
  }

  /** `useRateCalculations`: the filtered array is sorted in place; when it
      is empty the caller's array is sorted in place too, and its newest
      record is taken. */
  method UseRateCalculations(exchangeData: array<Record>, t: RateType)
    returns (filtered: array<Record>, latest: Option<Record>, calculations: Snapshot)
    modifies exchangeData
    ensures fresh(filtered)
    ensures filtered[..] == FilteredRates(old(exchangeData[..]), t)
    ensures latest == LatestRate(old(exchangeData[..]), t)
    ensures calculations == Calculate(latest, filtered[..])
    ensures exchangeData[..] ==
      if filtered.Length == 0 then SortByTime(old(exchangeData[..])) else old(exchangeData[..])
  {
    filtered := FilterToArray(exchangeData, t);
    SortInPlace(filtered);
    if filtered.Length == 0 {
      SortInPlace(exchangeData);
      latest := if exchangeData.Length > 0 then Some(exchangeData[exchangeData.Length - 1]) else None;
    } else {
      latest := Some(filtered[filtered.Length - 1]);
    }
    calculations := Calculate(latest, filtered[..]);
  }
}
