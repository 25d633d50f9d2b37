/** The sensor database writer of db.py: SensorDataParser turns an accepted
    sensor payload into one series point, and InfluxDBWriter numbers the
    point and writes it. The database client is reduced to a flag saying
    whether it was connected, and what it is asked to write is recorded in
    a ghost log. */
module Db {
  import opened Wire

  /** A point value: what int() or, failing that, float() made of the text. */
  datatype Field = IntField(i: int) | RealField(r: real)

  /** The jsonBody handed to write_points: one series with one point. */
  datatype Body = Body(name: string, columns: seq<string>, points: seq<Field>)

  /** The keys that name the point rather than measure it. */
  predicate Excluded(key: string) {
    key == "node" || key == "ts" || key == "t"
  }

  /** int(text), or float(text) when int() raises; float() raising ends the
      callback. */
  function ParsePoint(text: string): Result<Field> {
    match ParseInt(text)
    case Some(i) => Ok(IntField(i))
    case None =>
      match ParseReal(text)
      case Some(r) => Ok(RealField(r))
      case None => Fail(BadNumber(text))
  }

  function FieldValue(f: Field): real {
    match f
    case IntField(i) => i as real
    case RealField(r) => r
  }

  /** Reading a point as an int first loses nothing: its value is the one
      float() gives, and it parses exactly when float() does. */
  lemma ParsePointIsFloat(text: string)
    ensures ParsePoint(text).Ok? <==> ParseReal(text).Some?
    ensures ParsePoint(text).Ok? ==> FieldValue(ParsePoint(text).value) == ParseReal(text).value
  {
    if ParseInt(text).Some? {
      ParseIntIsParseReal(text);
    }
  }

  /** _BuildSeriesName: the node's configured name, or "node.<id>" for an
      id the configuration does not know; a payload without a node raises. */
  function SeriesName(nodeMap: Table, data: Query): Result<string> {
    if "node" !in data then Fail(MissingKey("node"))
    else match Lookup(nodeMap, First(data, "node"))
      case Some(name) => Ok(name)
      case None => Ok("node." + First(data, "node"))
  }

  /** Two unconfigured nodes never share a series. */
  lemma UnknownNodesGetDistinctSeries(nodeMap: Table, d1: Query, d2: Query)
    requires "node" in d1 && "node" in d2 && First(d1, "node") != First(d2, "node")
    requires Lookup(nodeMap, First(d1, "node")).None? && Lookup(nodeMap, First(d2, "node")).None?
    ensures SeriesName(nodeMap, d1).Ok? && SeriesName(nodeMap, d2).Ok?
    ensures SeriesName(nodeMap, d1).value != SeriesName(nodeMap, d2).value
  {
    var a, b := "node." + First(d1, "node"), "node." + First(d2, "node");
    assert a[5..] == First(d1, "node") && b[5..] == First(d2, "node");
  }

  /** _GetEpoch: long(ts, 10). */
  function Epoch(data: Query): Result<int> {
    if "ts" !in data then Fail(MissingKey("ts"))
    else match ParseInt(First(data, "ts"))
      case Some(t) => Ok(t)
      case None => Fail(BadNumber(First(data, "ts")))
  }

  /** _BuildPointsColumns, in dict order: every key that is not excluded
      gives one column and, at the same position, the point parsed from its
      first value; the first value that is not a number raises. */
  method BuildPointsColumns(data: Query) returns (r: Result<(seq<Field>, seq<string>)>)
    ensures r.Ok? <==> forall key :: key in data && !Excluded(key) ==> ParsePoint(First(data, key)).Ok?
    ensures r.Fail? ==> exists key :: key in data && !Excluded(key) && ParsePoint(First(data, key)) == Fail(r.error)
    ensures r.Ok? ==>
              var (points, columns) := r.value;
              && |points| == |columns|
              && (forall key :: key in columns <==> key in data && !Excluded(key))
              && (forall i, j :: 0 <= i < j < |columns| ==> columns[i] != columns[j])
              && (forall i :: 0 <= i < |columns| ==> Ok(points[i]) == ParsePoint(First(data, columns[i])))
  {
    var points: seq<Field> := [];
    var columns: seq<string> := [];
    var todo := data.Keys;
    while todo != {}
      invariant todo <= data.Keys && |points| == |columns|
      invariant forall key :: key in columns <==> key in data && key !in todo && !Excluded(key)
      invariant forall i, j :: 0 <= i < j < |columns| ==> columns[i] != columns[j]
      invariant forall i :: 0 <= i < |columns| ==> Ok(points[i]) == ParsePoint(First(data, columns[i]))
      invariant forall key :: key in data && key !in todo && !Excluded(key) ==> ParsePoint(First(data, key)).Ok?
      decreases todo
    {
      var key :| key in todo;
      todo := todo - {key};
      if !Excluded(key) {
        var value := ParsePoint(First(data, key));
        if value.Fail? {
          return Fail(value.error);
        }
        columns := columns + [key];
        points := points + [value.value];
      }
    }
    return Ok((points, columns));
  }

  class InfluxDBWriter {
    var sequence: int
    var connected: bool             // Connect was called and Disconnect was not
    ghost var written: seq<Body>    // every body handed to write_points

    constructor ()
      ensures sequence == 0 && !connected && written == []
    {
      sequence := 0;
      connected := false;
      written := [];
    }

    method Connect()
      modifies this`connected
      ensures connected
    {
      connected := true;
    }

    method Disconnect()
      modifies this`connected
      ensures !connected
    {
      connected := false;
    }

    /** Write: without an explicit sequence number the counter goes up by
      one and numbers the point; the body's columns and points start with
      the time and the sequence number. Writing with no client raises, after
      the counter has moved. */
    method Write(seriesName: string, points: seq<Field>, columns: seq<string>, epoch: int, explicit: Option<int>)
      returns (raised: Option<Error>)
      modifies this`sequence, this`written
      ensures sequence == if explicit.None? then old(sequence) + 1 else old(sequence)
      ensures connected ==>
                var number := if explicit.Some? then explicit.value else sequence;
                var body := Body(seriesName, ["time", "sequence_number"] + columns, [IntField(epoch), IntField(number)] + points);
                raised.None? && written == old(written) + [body]
      ensures !connected ==> raised == Some(NoClient) && written == old(written)
    {
      var number: int;
      if explicit.None? {
        sequence := sequence + 1;
        number := sequence;
      } else {
        number := explicit.value;
      }
      var body := Body(seriesName, ["time", "sequence_number"], [IntField(epoch), IntField(number)]);
      body := body.(points := body.points + points);
      body := body.(columns := body.columns + columns);
      if !connected {
        return Some(NoClient);
      }
      written := written + [body];
      raised := None;
    }
  }

  class SensorDataParser {
    const dbWriter: Option<InfluxDBWriter>
    const acceptType: set<string>
    const nodeMap: Table

    constructor (dbWriter: Option<InfluxDBWriter>, acceptType: set<string>, nodeMap: Table)
      ensures this.dbWriter == dbWriter && this.acceptType == acceptType && this.nodeMap == nodeMap
    {
      this.dbWriter := dbWriter;
      this.acceptType := acceptType;
      this.nodeMap := nodeMap;
    }

    predicate Dropped(payload: Option<Query>) {
      payload.None? || "t" !in payload.value || First(payload.value, "t") !in acceptType || dbWriter.None?
    }

    /** Callback: a payload that does not decode, has no accepted type, or
      arrives with no writer writes nothing and leaves the counter alone;
      otherwise its points, its series name and its epoch are built, in that
      order, and written with the next sequence number. A payload whose
      points, name or epoch do not parse raises before the counter moves; a
      writer with no client raises after it has moved. */
    method Callback(payload: Option<Query>) returns (raised: Option<Error>)
      modifies if dbWriter.Some? then {dbWriter.value} else {}
      ensures Dropped(payload) ==> raised.None?
      ensures dbWriter.Some? ==> dbWriter.value.connected == old(dbWriter.value.connected)
      ensures dbWriter.Some? && Dropped(payload) ==>
                dbWriter.value.written == old(dbWriter.value.written) && dbWriter.value.sequence == old(dbWriter.value.sequence)
      ensures dbWriter.Some? && !Dropped(payload) ==>
                var w := dbWriter.value;
                var d := payload.value;
                var parsed := (forall key :: key in d && !Excluded(key) ==> ParsePoint(First(d, key)).Ok?)
                              && SeriesName(nodeMap, d).Ok? && Epoch(d).Ok?;
                && (!parsed ==> raised.Some? && w.written == old(w.written) && w.sequence == old(w.sequence))
                && (parsed && !w.connected ==>
                      raised == Some(NoClient) && w.written == old(w.written) && w.sequence == old(w.sequence) + 1)
                && (parsed && w.connected ==>
                      && raised.None? && w.sequence == old(w.sequence) + 1
                      && |w.written| == |old(w.written)| + 1 && w.written[..|old(w.written)|] == old(w.written)
                      && var body := w.written[|old(w.written)|];
                         && body.name == SeriesName(nodeMap, d).value
                         && |body.points| == |body.columns| >= 2
                         && body.columns[..2] == ["time", "sequence_number"]
                         && body.points[..2] == [IntField(Epoch(d).value), IntField(w.sequence)]
                         && (forall key :: key in body.columns[2..] <==> key in d && !Excluded(key))
                         && (forall i, j :: 2 <= i < j < |body.columns| ==> body.columns[i] != body.columns[j])
                         && (forall i :: 2 <= i < |body.columns| ==> Ok(body.points[i]) == ParsePoint(First(d, body.columns[i]))))
    {
      raised := None;
      if payload.None? {
        return;
      }
      var d := payload.value;
      if "t" !in d || First(d, "t") !in acceptType {
        return;
      }
      if dbWriter.None? {
        return;
      }
      var pc := BuildPointsColumns(d);
      if pc.Fail? {
        return Some(pc.error);
      }
      var name := SeriesName(nodeMap, d);
      if name.Fail? {
        return Some(name.error);
      }
      var epoch := Epoch(d);
      if epoch.Fail? {
        return Some(epoch.error);
      }
      var (points, columns) := pc.value;
      raised := dbWriter.value.Write(name.value, points, columns, epoch.value, None);
    }
  }
}
