/** The `/api/sensors` route: a module-level database client with a
    connection flag, a POST handler that validates and inserts one reading,
    and a GET handler that returns the ten newest readings. The database
    table is a sequence of rows; whether connecting, inserting or querying
    succeeds, and the timestamp the database assigns, are parameters. */
module SensorsRoute {
  import opened Readings

  const MissingDataMessage := "Faltan datos requeridos"
  const InternalErrorMessage := "Error interno del servidor"

  /** The LIMIT of the GET query. */
  const QueryLimit: nat := 10

  /** The parsed JSON body of a POST. An absent field and `null` are both
      `None`. */
  datatype RequestBody = RequestBody(humidity_value: Option<real>, location: Option<string>)

  /** The JSON a handler answers with. */
  datatype Payload =
    | InsertedRow(row: HumidityData)
    | RowList(rows: seq<HumidityData>)
    | ErrorMessage(error: string)

  datatype Response = Response(status: int, payload: Payload)

  /** The 500 answer of both catch blocks. */
  const ServerError := Response(500, ErrorMessage(InternalErrorMessage))

  // ---------------------------------------------------------------------
  // Validation
  // ---------------------------------------------------------------------

  /** JavaScript truthiness of a number field: absent, `null` and `0` are falsy. */
  predicate TruthyNumber(v: Option<real>)
  {
    v.Some? && v.value != 0.0
  }

  /** JavaScript truthiness of a string field: absent, `null` and `""` are falsy. */
  predicate TruthyString(v: Option<string>)
  {
    v.Some? && v.value != ""
  }

  /** `!humidity_value || !location`: the condition for the 400 answer. */
  predicate MissingRequiredData(body: RequestBody)
    ensures !MissingRequiredData(body) ==> body.humidity_value.Some? && body.location.Some?
  {
    !TruthyNumber(body.humidity_value) || !TruthyString(body.location)
  }

  /** The row an accepted body is inserted as, with the database's timestamp. */
  function NewRow(body: RequestBody, now: int): (row: HumidityData)
    requires !MissingRequiredData(body)
    ensures row.timestamp == now
    ensures Some(row.humidity_value) == body.humidity_value && row.humidity_value != 0.0
    ensures Some(row.location) == body.location && row.location != ""
  {
    HumidityData(now, body.humidity_value.value, body.location.value)
  }

  /** A body passes validation exactly when it has a non-zero humidity and a
      non-empty location. */
  lemma AcceptedBodies(body: RequestBody)
    ensures !MissingRequiredData(body) <==>
              exists h: real, loc: string :: h != 0.0 && |loc| > 0 && body == RequestBody(Some(h), Some(loc))
  {
  }

  /** A genuine reading of 0 % humidity is turned away as missing data. */
  lemma ZeroHumidityIsRejected(loc: string)
    ensures MissingRequiredData(RequestBody(Some(0.0), Some(loc)))
  {
  }

  // ---------------------------------------------------------------------
  // The ten newest rows
  // ---------------------------------------------------------------------

  /** Timestamps are non-increasing from left to right (`ORDER BY timestamp DESC`). */
  predicate SortedNewestFirst(s: seq<HumidityData>)
  {
    forall i, j :: 0 <= i < j < |s| ==> s[i].timestamp >= s[j].timestamp
  }

  /** Putting a row no older than any row of a newest-first sequence in
      front of it gives a newest-first sequence. */
  lemma PrependNewest(h: HumidityData, t: seq<HumidityData>)
    requires SortedNewestFirst(t)
    requires forall j :: 0 <= j < |t| ==> t[j].timestamp <= h.timestamp
    ensures SortedNewestFirst([h] + t)
  {
  }

  /** Inserts `x` into `s` before the first row that is not newer than it. */
  function InsertNewestFirst(x: HumidityData, s: seq<HumidityData>): (r: seq<HumidityData>)
    ensures multiset(r) == multiset(s) + multiset{x}
  {
    if |s| == 0 then [x]
    else if x.timestamp >= s[0].timestamp then [x] + s
    else
      assert s == [s[0]] + s[1..];
      [s[0]] + InsertNewestFirst(x, s[1..])
  }

  /** Inserting into a newest-first sequence keeps it newest first. */
  lemma {:induction false} InsertKeepsNewestFirst(x: HumidityData, s: seq<HumidityData>)
    requires SortedNewestFirst(s)
    ensures SortedNewestFirst(InsertNewestFirst(x, s))
  {
    if |s| != 0 && x.timestamp < s[0].timestamp {
      var t := InsertNewestFirst(x, s[1..]);
      InsertKeepsNewestFirst(x, s[1..]);
      forall j | 0 <= j < |t| ensures t[j].timestamp <= s[0].timestamp {
        assert t[j] in multiset(t);
        if t[j] != x {
          assert t[j] in multiset(s[1..]);
          var i :| 0 <= i < |s[1..]| && s[1..][i] == t[j];
          assert s[i + 1] == t[j];
        }
      }
      PrependNewest(s[0], t);
    }
  }

  /** `ORDER BY timestamp DESC`: the table's rows, newest first. */
  function OrderNewestFirst(s: seq<HumidityData>): (r: seq<HumidityData>)
    ensures multiset(r) == multiset(s)
  {
    if |s| == 0 then []
    else
      assert s == [s[0]] + s[1..];
      InsertNewestFirst(s[0], OrderNewestFirst(s[1..]))
  }

  /** The ordered table is newest first. */
  lemma {:induction false} OrderNewestFirstIsSorted(s: seq<HumidityData>)
    ensures SortedNewestFirst(OrderNewestFirst(s))
  {
    if |s| != 0 {
      OrderNewestFirstIsSorted(s[1..]);
      InsertKeepsNewestFirst(s[0], OrderNewestFirst(s[1..]));
    }
  }

  /** `SELECT * ... ORDER BY timestamp DESC LIMIT n`. Among rows with equal
      timestamps the order is this function's, as SQL leaves it open. */
  function Newest(s: seq<HumidityData>, n: nat): (r: seq<HumidityData>)
    ensures |r| <= n
    ensures forall i :: 0 <= i < |r| ==> r[i] in s
  {
    var ordered := OrderNewestFirst(s);
    assert forall i :: 0 <= i < |ordered| ==> ordered[i] in multiset(s);
    if n < |ordered| then ordered[..n] else ordered
  }

  /** The rows of the table that `Newest(s, n)` leaves out. */
  function Omitted(s: seq<HumidityData>, n: nat): seq<HumidityData>
  {
    var ordered := OrderNewestFirst(s);
    if n < |ordered| then ordered[n..] else []
  }

  /** The query returns `n` rows, or the whole table when it is smaller. */
  lemma NewestLength(s: seq<HumidityData>, n: nat)
    ensures |Newest(s, n)| == if n < |s| then n else |s|
  {
  }

  /** The query result is newest first. */
  lemma NewestIsSortedNewestFirst(s: seq<HumidityData>, n: nat)
    ensures SortedNewestFirst(Newest(s, n))
  {
    OrderNewestFirstIsSorted(s);
  }

  /** The query result and the omitted rows together are the table. */
  lemma NewestSplitsTable(s: seq<HumidityData>, n: nat)
    ensures multiset(Newest(s, n)) + multiset(Omitted(s, n)) == multiset(s)
  {
    var ordered := OrderNewestFirst(s);
    if n < |ordered| {
      assert ordered == ordered[..n] + ordered[n..];
      assert multiset(ordered) == multiset(ordered[..n]) + multiset(ordered[n..]);
    } else {
      assert Omitted(s, n) == [];
    }
  }

  /** No omitted row is newer than a row of the query result. */
  lemma OmittedRowsAreNotNewer(s: seq<HumidityData>, n: nat)
    ensures forall x, y :: x in Omitted(s, n) && y in Newest(s, n) ==> x.timestamp <= y.timestamp
  {
    var ordered := OrderNewestFirst(s);
    OrderNewestFirstIsSorted(s);
    forall x, y | x in Omitted(s, n) && y in Newest(s, n) ensures x.timestamp <= y.timestamp {
      var i :| 0 <= i < |Omitted(s, n)| && Omitted(s, n)[i] == x;
      var j :| 0 <= j < |Newest(s, n)| && Newest(s, n)[j] == y;
      assert ordered[n + i] == x && ordered[j] == y;
    }
  }

  /** A table of at most `n` rows comes back whole, newest first. */
  lemma NewestOfSmallTable(s: seq<HumidityData>, n: nat)
    requires |s| <= n
    ensures multiset(Newest(s, n)) == multiset(s)
    ensures SortedNewestFirst(Newest(s, n))
  {
    NewestSplitsTable(s, n);
    NewestIsSortedNewestFirst(s, n);
    assert |OrderNewestFirst(s)| == |multiset(s)|;
  }

  /** A row inserted with a timestamp later than every other row's is the
      first row the query returns. */
  lemma InsertedRowComesFirst(s: seq<HumidityData>, row: HumidityData, n: nat)
    requires 0 < n
    requires forall i :: 0 <= i < |s| ==> s[i].timestamp < row.timestamp
    ensures |Newest(s + [row], n)| > 0 && Newest(s + [row], n)[0] == row
  {
    var t := s + [row];
    var ordered := OrderNewestFirst(t);
    OrderNewestFirstIsSorted(t);
    assert row in multiset(ordered) by { assert t[|s|] == row; assert row in multiset(t); }
    var k :| 0 <= k < |ordered| && ordered[k] == row;
    var first := ordered[0];
    assert first.timestamp >= row.timestamp;
    assert first in multiset(t) by { assert first in multiset(ordered); }
    var i :| 0 <= i < |t| && t[i] == first;
    assert i == |s|;
  }

  /** On an empty table the query result is empty. */
  lemma NewestOfEmptyTable(n: nat)
    ensures Newest([], n) == []
  {
  }

  // ---------------------------------------------------------------------
  // The route's state and its handlers
  // ---------------------------------------------------------------------

  /** The module-level PostgreSQL client together with the table it reaches. */
  class SensorsApi {
    /** `client._connected` */
    var connected: bool
    /** The rows of the `humedad` table, in insertion order. */
    var table: seq<HumidityData>

    /** Module load: the client is created but not connected. */
    constructor (rows: seq<HumidityData>)
      ensures !connected && table == rows
    {
      connected := false;
      table := rows;
    }

    /** `connectToDatabase`: connect unless already connected. `connectSucceeds`
        is whether `client.connect()` resolves; `ok` is false where the source
        throws. */
    method ConnectToDatabase(connectSucceeds: bool) returns (ok: bool)
      modifies this`connected
      ensures ok == (old(connected) || connectSucceeds)
      ensures connected == ok
    {
      if !connected {
        if connectSucceeds {
          connected := true;
        }
      }
      ok := connected;
    }

    /** `POST`: connect, read the body, validate, insert. `body` is `None`
        when `req.json()` throws; `insertSucceeds` is whether the INSERT
        succeeds; `now` is the timestamp the database gives the new row. */
    method Post(body: Option<RequestBody>, connectSucceeds: bool, insertSucceeds: bool, now: int)
      returns (response: Response)
      modifies this
      ensures connected == (old(connected) || connectSucceeds)
      ensures !connected ==> response == ServerError
      ensures connected && body.None? ==> response == ServerError
      ensures connected && body.Some? && MissingRequiredData(body.value) ==>
                response == Response(400, ErrorMessage(MissingDataMessage))
      ensures connected && body.Some? && !MissingRequiredData(body.value) ==>
                response == if insertSucceeds then Response(200, InsertedRow(NewRow(body.value, now)))
                            else ServerError
      ensures response.status == 200 ==> table == old(table) + [response.payload.row]
      ensures response.status != 200 ==> table == old(table)
    {
      var ok := ConnectToDatabase(connectSucceeds);
      if !ok {
        return ServerError;
      }
      if body.None? {
        return ServerError;
      }
      var b := body.value;
      if MissingRequiredData(b) {
        return Response(400, ErrorMessage(MissingDataMessage));
      }
      if !insertSucceeds {
        return ServerError;
      }
      var row := NewRow(b, now);
      table := table + [row];
      response := Response(200, InsertedRow(row));
    }

    /** `GET`: connect, then return the ten newest rows. `querySucceeds` is
        whether the SELECT succeeds. */
    method Get(connectSucceeds: bool, querySucceeds: bool) returns (response: Response)
      modifies this`connected
      ensures connected == (old(connected) || connectSucceeds)
      ensures response == if connected && querySucceeds then Response(200, RowList(Newest(table, QueryLimit)))
                          else ServerError
    {
      var ok := ConnectToDatabase(connectSucceeds);
      if !ok || !querySucceeds {
        return ServerError;
      }
      response := Response(200, RowList(Newest(table, QueryLimit)));
    }
  }
}
