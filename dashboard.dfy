/** The sensors dashboard page: the cleat-type classifier, the per-poll
    derivation of `history` and `latestReading` from the fetched rows, and
    the projection of `history` into chart values. */
module Dashboard {
  import opened Readings

  const SuelaDura := "Suela dura"
  const TacosIntermedios := "Tacos intermedios"
  const TacosLargos := "Tacos largos"

  /** The only location the dashboard shows a latest reading for. */
  const Ubicacion1 := "Ubicacion 1"

  // ---------------------------------------------------------------------
  // Cleat type
  // ---------------------------------------------------------------------

  /** Maps a humidity percentage to the recommended cleat type. */
  function DetermineCleatsType(humidity: real): (r: string)
    ensures r == SuelaDura <==> humidity <= 30.0
    ensures r == TacosIntermedios <==> 30.0 < humidity <= 60.0
    ensures r == TacosLargos <==> 60.0 < humidity
  {
    if humidity <= 30.0 then SuelaDura
    else if humidity <= 60.0 then TacosIntermedios
    else TacosLargos
  }

  /** Orders the three cleat types from dry to wet ground. */
  function CleatsRank(cleats: string): nat
  {
    if cleats == SuelaDura then 0
    else if cleats == TacosIntermedios then 1
    else 2
  }

  /** Wetter ground never calls for a harder sole. */
  lemma CleatsTypeMonotone(h1: real, h2: real)
    requires h1 <= h2
    ensures CleatsRank(DetermineCleatsType(h1)) <= CleatsRank(DetermineCleatsType(h2))
  {
  }

  // ---------------------------------------------------------------------
  // Sorting the fetched rows
  // ---------------------------------------------------------------------

  /** Timestamps are non-decreasing from left to right. */
  predicate SortedByTime(s: seq<HumidityData>)
  {
    forall i, j :: 0 <= i < j < |s| ==> s[i].timestamp <= s[j].timestamp
  }

  /** Exchanges the neighbours `a[j - 1]` and `a[j]`. */
  method SwapWithPrevious(a: array<HumidityData>, j: nat)
    requires 0 < j < a.Length
    modifies a
    ensures a[..] == old(a[..])[j - 1 := old(a[j])][j := old(a[j - 1])]
    ensures multiset(a[..]) == multiset(old(a[..]))
  {
    a[j - 1], a[j] := a[j], a[j - 1];
  }

  /** Moves `a[i]` left into the sorted prefix `a[..i]`, one adjacent swap
      at a time, while the row before it has a strictly later timestamp. */
  method InsertIntoSorted(a: array<HumidityData>, i: nat)
    requires i < a.Length
    requires SortedByTime(a[..i])
    modifies a
    ensures SortedByTime(a[..i + 1])
    ensures a[i + 1..] == old(a[i + 1..])
    ensures multiset(a[..]) == multiset(old(a[..]))
  {
    var j := i;
    while 0 < j && a[j - 1].timestamp > a[j].timestamp
      invariant 0 <= j <= i
      invariant forall k, l :: 0 <= k < l <= i && l != j ==> a[k].timestamp <= a[l].timestamp
      invariant a[i + 1..] == old(a[i + 1..])
      invariant multiset(a[..]) == multiset(old(a[..]))
    {
      SwapWithPrevious(a, j);
      j := j - 1;
    }
  }

  /** The page's `data.sort`, whose comparator subtracts the two rows'
      `getTime()` values: sorts the fetched rows in place, ascending by
      their integer timestamps. */
  method SortByTimestamp(a: array<HumidityData>)
    modifies a
    ensures SortedByTime(a[..])
    ensures multiset(a[..]) == multiset(old(a[..]))
  {
    var i := 0;
    while i < a.Length
      invariant 0 <= i <= a.Length
      invariant SortedByTime(a[..i])
      invariant multiset(a[..]) == multiset(old(a[..]))
    {
      InsertIntoSorted(a, i);
      i := i + 1;
    }
    assert a[..a.Length] == a[..];
  }

  // ---------------------------------------------------------------------
  // Latest reading for a location
  // ---------------------------------------------------------------------

  /** `s.filter((item) => item.location === loc)`, written from the right
      so that its last element is the last match of `s`. */
  function FilterLocation(s: seq<HumidityData>, loc: string): (r: seq<HumidityData>)
    ensures |r| <= |s|
    ensures forall x :: x in r ==> x in s && x.location == loc
    ensures forall i :: 0 <= i < |s| && s[i].location == loc ==> s[i] in r
  {
    if |s| == 0 then []
    else
      var init := FilterLocation(s[..|s| - 1], loc);
      if s[|s| - 1].location == loc then init + [s[|s| - 1]] else init
  }

  /** `Array.prototype.pop` read as a value: the last element, if any. */
  function Pop(s: seq<HumidityData>): (r: Option<HumidityData>)
    ensures r == None <==> |s| == 0
    ensures r.Some? ==> r.value == s[|s| - 1]
  {
    if |s| == 0 then None else Some(s[|s| - 1])
  }

  /** `filter(...).pop() || null`: the reading shown for location `loc`. */
  function LatestReading(s: seq<HumidityData>, loc: string): (r: Option<HumidityData>)
    ensures r.Some? ==> r.value in s && r.value.location == loc
  {
    Pop(FilterLocation(s, loc))
  }

  /** The latest reading is missing exactly when no row is at `loc`. */
  lemma LatestReadingNoneIff(s: seq<HumidityData>, loc: string)
    ensures LatestReading(s, loc) == None <==> forall i :: 0 <= i < |s| ==> s[i].location != loc
  {
  }

  /** When present, the latest reading is a row of `s` at `loc` after which
      no row of `s` is at `loc`. */
  lemma {:induction false} LatestReadingIsLastMatch(s: seq<HumidityData>, loc: string)
    requires LatestReading(s, loc).Some?
    ensures exists i :: 0 <= i < |s| && s[i] == LatestReading(s, loc).value && s[i].location == loc
                        && forall j :: i < j < |s| ==> s[j].location != loc
  {
    var n := |s| - 1;
    if s[n].location == loc {
      assert s[n] == LatestReading(s, loc).value;
    } else {
      var init := s[..n];
      assert FilterLocation(s, loc) == FilterLocation(init, loc);
      LatestReadingIsLastMatch(init, loc);
      var i :| 0 <= i < |init| && init[i] == LatestReading(init, loc).value && init[i].location == loc
               && forall j :: i < j < |init| ==> init[j].location != loc;
      assert s[i] == init[i];
      forall j | i < j < |s| ensures s[j].location != loc {
        if j < n { assert s[j] == init[j]; }
      }
    }
  }

  /** On sorted rows, the latest reading has the largest timestamp of all
      the rows at `loc`. */
  lemma LatestReadingIsNewest(s: seq<HumidityData>, loc: string)
    requires SortedByTime(s)
    requires LatestReading(s, loc).Some?
    ensures LatestReading(s, loc).value.location == loc
    ensures forall x :: x in s && x.location == loc ==> x.timestamp <= LatestReading(s, loc).value.timestamp
  {
    LatestReadingIsLastMatch(s, loc);
    var r := LatestReading(s, loc).value;
    var i :| 0 <= i < |s| && s[i] == r && s[i].location == loc
             && forall j :: i < j < |s| ==> s[j].location != loc;
    forall x | x in s && x.location == loc ensures x.timestamp <= r.timestamp {
      var k :| 0 <= k < |s| && s[k] == x;
      assert k <= i;
    }
  }

  /** The labels the sensor simulator posts: "Ubicación 1" to
      "Ubicación 5", with an accented o. */
  function SimulatorLocation(n: nat): (name: string)
    requires 1 <= n <= 5
    ensures name != Ubicacion1
  {
    assert "Ubicaci\U{00F3}n "[7] != Ubicacion1[7];
    "Ubicaci\U{00F3}n " + [('0' as int + n) as char]
  }

  /** Location matching is exact, so rows the simulator posted never give
      a latest reading. */
  lemma SimulatedRowsHaveNoLatestReading(s: seq<HumidityData>)
    requires forall x :: x in s ==> exists n :: 1 <= n <= 5 && x.location == SimulatorLocation(n)
    ensures LatestReading(s, Ubicacion1) == None
  {
  }

  // ---------------------------------------------------------------------
  // Chart values
  // ---------------------------------------------------------------------

  /** `history.map((item) => item.humidity_value)`: one chart point per row. */
  function ChartValues(history: seq<HumidityData>): (data: seq<real>)
    ensures |data| == |history|
    ensures forall i :: 0 <= i < |history| ==> data[i] == history[i].humidity_value
  {
    if |history| == 0 then []
    else [history[0].humidity_value] + ChartValues(history[1..])
  }

  // ---------------------------------------------------------------------
  // Component state
  // ---------------------------------------------------------------------

  /** The state of the `SensorsPage` component. */
  class SensorsPage {
    var history: seq<HumidityData>
    var latestReading: Option<HumidityData>

    /** Initial state: `useState([])` and `useState(null)`. */
    constructor ()
      ensures history == [] && latestReading == None
    {
      history := [];
      latestReading := None;
    }

    /** One poll, given the rows the query endpoint returned: sort them in
        place, store them as the history and pick the latest reading of
        location "Ubicacion 1". */
    method FetchHumidityData(data: array<HumidityData>)
      modifies this, data
      ensures history == data[..]
      ensures SortedByTime(history)
      ensures multiset(history) == multiset(old(data[..]))
      ensures latestReading == LatestReading(history, Ubicacion1)
    {
      SortByTimestamp(data);
      history := data[..];
      latestReading := LatestReading(history, Ubicacion1);
    }

    /** The data set plotted by the line chart. */
    function ChartData(): (values: seq<real>)
      reads this
      ensures |values| == |history|
      ensures forall i :: 0 <= i < |history| ==> values[i] == history[i].humidity_value
    {
      ChartValues(history)
    }
  }
}
