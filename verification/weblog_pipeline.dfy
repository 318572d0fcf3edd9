/** From a generated line to a reporting row: what create_weblogs.py writes, read
    back and transformed by transform_logs_load.py. */
module WeblogPipeline {
  import opened Wrappers
  import opened Text
  import opened WeblogFormat
  import opened WeblogDomains
  import opened WeblogParse
  import opened WeblogTransform

  /** A generated line reads back into ten columns: the address, `-`, the user,
      the timestamp split at its space (bracket attached to each half), the request,
      status, byte count, referer and agent. */
  lemma GeneratedLineRead(d: Draw)
    requires ValidDraw(d)
    ensures var f := FieldsOf(d);
      ParseLine(FormatLine(f)) == Success(RawLog(
        f.host, "-", f.user, "[" + DatePart(d), Zone(d.utcOffset) + "]",
        Request, f.status, f.bytes, Referer, f.agent))
  {
    GeneratedFieldsPlain(d);
    ReadFormattedLine(FieldsOf(d), DatePart(d), Zone(d.utcOffset));
  }

  /** The reporting row a draw should give: its address and user, the bracketed
      timestamp, the offset's name, the country looked up by that name and the
      agent's device. */
  function ExpectedRow(d: Draw, table: seq<Place>): WeblogRow
    requires ValidDraw(d) && KeysUnique(table)
  {
    var f := FieldsOf(d);
    WeblogRow(
      f.host, f.user, "[" + f.timestamp + "]", ZoneName(d.utcOffset),
      Country(table, ZoneName(d.utcOffset)), ClientDevice(f.agent))
  }

  /** Transforming the read-back line of a draw gives its expected row. */
  lemma GeneratedRow(d: Draw, table: seq<Place>)
    requires ValidDraw(d) && KeysUnique(table)
    ensures ParseLine(FormatLine(FieldsOf(d))).Success?
    ensures var raw := ParseLine(FormatLine(FieldsOf(d))).value;
      TransformRow(raw, Country(table, NormaliseTimezone(raw.timezone))) == ExpectedRow(d, table)
  {
    GeneratedLineRead(d);
    var f := FieldsOf(d);
    var raw := ParseLine(FormatLine(f)).value;
    RowOfColumns(raw, f.host, f.user, DatePart(d), d.utcOffset, f.agent, table);
    assert f.timestamp == DatePart(d) + " " + Zone(d.utcOffset);
  }

  /** The row transformed from columns shaped like a generated line's. */
  lemma RowOfColumns(raw: RawLog, host: string, user: string, date: string, utcOffset: int, agent: string, table: seq<Place>)
    requires -1440 < utcOffset < 1440 && KeysUnique(table)
    requires raw.ipAddress == host && raw.userName == user && raw.userAgent == agent
    requires raw.timestamp == "[" + date && raw.timezone == Zone(utcOffset) + "]"
    ensures TransformRow(raw, Country(table, NormaliseTimezone(raw.timezone))) == WeblogRow(
      host, user, "[" + (date + " " + Zone(utcOffset)) + "]", ZoneName(utcOffset),
      Country(table, ZoneName(utcOffset)), ClientDevice(agent))
  {
    NormaliseZone(utcOffset);
    assert "[" + date + " " + (Zone(utcOffset) + "]") == "[" + (date + " " + Zone(utcOffset)) + "]";
  }

  /** A whole generated log, one line per draw, transforms into one row per line,
      in line order, each the expected row of its draw, when the sampled mapping
      has one row per offset. A log without lines (`number_of_logs` of 1 or less)
      cannot be read. */
  lemma GeneratedLogTransforms(ds: seq<Draw>, lines: seq<string>, table: seq<Place>)
    requires KeysUnique(table)
    requires forall k :: 0 <= k < |ds| ==> ValidDraw(ds[k])
    requires |lines| == |ds|
    requires forall k :: 0 <= k < |ds| ==> lines[k] == FormatLine(FieldsOf(ds[k]))
    ensures |ds| == 0 ==> TransformWeblogs(table, lines) == Failure(EmptyFile)
    ensures var r := TransformWeblogs(table, lines);
      |ds| > 0 ==>
        && r.Success?
        && |r.value| == |ds|
        && forall k :: 0 <= k < |ds| ==> r.value[k] == ExpectedRow(ds[k], table)
  {
    if |ds| > 0 {
      GeneratedLinesTransform(ds, lines, table);
    }
  }

  /** `GeneratedLogTransforms` for a log with lines. */
  lemma GeneratedLinesTransform(ds: seq<Draw>, lines: seq<string>, table: seq<Place>)
    requires KeysUnique(table) && |ds| > 0
    requires forall k :: 0 <= k < |ds| ==> ValidDraw(ds[k])
    requires |lines| == |ds|
    requires forall k :: 0 <= k < |ds| ==> lines[k] == FormatLine(FieldsOf(ds[k]))
    ensures var r := TransformWeblogs(table, lines);
      && r.Success?
      && |r.value| == |ds|
      && forall k :: 0 <= k < |ds| ==> r.value[k] == ExpectedRow(ds[k], table)
  {
    forall k | 0 <= k < |ds|
      ensures ParseLine(lines[k]).Success?
      ensures RowOfLine(table, ParseLine(lines[k]).value) == ExpectedRow(ds[k], table)
    {
      GeneratedRow(ds[k], table);
    }
    LinesTransform(table, lines);
  }

  /** The row the transformation makes of one read log row, with unique offsets. */
  function RowOfLine(table: seq<Place>, raw: RawLog): WeblogRow
    requires KeysUnique(table)
  {
    TransformRow(raw, Country(table, NormaliseTimezone(raw.timezone)))
  }

  /** A log whose lines all read transforms into one row per line, in order. */
  lemma LinesTransform(table: seq<Place>, lines: seq<string>)
    requires KeysUnique(table) && |lines| > 0
    requires forall k :: 0 <= k < |lines| ==> ParseLine(lines[k]).Success?
    ensures var r := TransformWeblogs(table, lines);
      && r.Success?
      && |r.value| == |lines|
      && forall k :: 0 <= k < |lines| ==> r.value[k] == RowOfLine(table, ParseLine(lines[k]).value)
  {
  }
}
