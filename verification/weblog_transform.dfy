/** `transform_weblogs` in transform_logs_load.py, row by row: the timestamp is
    re-joined from its two columns, the offset text is rewritten as `UTC +HH:MM`
    (or `UTC` for a zero offset), a country is looked up by that text with a left
    merge, and a client device is cut out of the user agent. Only six columns are
    kept. */
module WeblogTransform {
  import opened Wrappers
  import opened Seqs
  import opened Text
  import opened WeblogFormat
  import opened WeblogParse

  /** One output row, columns in the order the data frame ends up with. */
  datatype WeblogRow = WeblogRow(
    ipAddress: string, userName: string, timestamp: string,
    timezone: string, country: string, clientDevice: string)

  /** Line 36: the timestamp column and the timezone column joined by a space,
      before the bracket is stripped from the zone. Splitting the result at its
      space gives the two columns back. */
  function JoinTimestamp(raw: RawLog): (t: string)
    ensures ' ' !in raw.timestamp && ' ' !in raw.timezone ==>
      Split(t, ' ') == [raw.timestamp, raw.timezone]
  {
    if ' ' !in raw.timestamp && ' ' !in raw.timezone then
      SplitAt(raw.timestamp, raw.timezone, ' ');
      SplitFree(raw.timezone, ' ');
      raw.timestamp + " " + raw.timezone
    else
      raw.timestamp + " " + raw.timezone
  }

  /** Lines 37-38: every `]` removed, then `UTC `, the first three characters, a
      colon and the next three (Python slices, so a short text gives short parts). */
  function ReformatZone(tz: string): (u: string)
    ensures 5 <= |u| <= 11 && u[..4] == "UTC " && ']' !in u
  {
    var s := RemoveAll(tz, ']');
    var hours := Slice(s, 0, 3);
    var minutes := Slice(s, 3, 6);
    UtcTextShape(hours, minutes);
    "UTC " + hours + ":" + minutes
  }

  lemma UtcTextShape(hours: string, minutes: string)
    requires |hours| <= 3 && |minutes| <= 3 && ']' !in hours && ']' !in minutes
    ensures var u := "UTC " + hours + ":" + minutes;
      5 <= |u| <= 11 && u[..4] == "UTC " && ']' !in u
  {
    var u := "UTC " + hours + ":" + minutes;
    assert forall k :: 4 <= k < |u| ==> u[k] == ':' || u[k] in hours || u[k] in minutes;
  }

  /** Line 39: `Series.replace` swaps whole values, so exactly the two zero
      offsets become `UTC` and every other text passes through. */
  function CollapseZero(u: string): (r: string)
    ensures u == "UTC +00:00" || u == "UTC -00:00" ==> r == "UTC"
    ensures u != "UTC +00:00" && u != "UTC -00:00" ==> r == u
  {
    if u == "UTC +00:00" then "UTC" else if u == "UTC -00:00" then "UTC" else u
  }

  /** Lines 37-39 together. */
  function NormaliseTimezone(tz: string): (r: string)
    ensures ']' !in r
    ensures r == "UTC" <==> ReformatZone(tz) == "UTC +00:00" || ReformatZone(tz) == "UTC -00:00"
    ensures r != "UTC" ==> r == ReformatZone(tz)
  {
    CollapseZero(ReformatZone(tz))
  }

  /** The name a UTC offset (in minutes) should get, built from the number:
      `UTC` for zero, otherwise the sign, hours and minutes. */
  function ZoneName(utcOffset: int): string
    requires -1440 < utcOffset < 1440
  {
    if utcOffset == 0 then "UTC"
    else
      var a := if utcOffset < 0 then -utcOffset else utcOffset;
      "UTC " + [if utcOffset < 0 then '-' else '+'] + Pad2(a / 60) + ":" + Pad2(a % 60)
  }

  /** The `%z` text holds a sign and four digits, so removing brackets from it
      followed by one bracket leaves the text itself. */
  lemma ZoneCleaned(utcOffset: int)
    requires -1440 < utcOffset < 1440
    ensures RemoveAll(Zone(utcOffset) + "]", ']') == Zone(utcOffset)
  {
    var a := if utcOffset < 0 then -utcOffset else utcOffset;
    var z := Zone(utcOffset);
    assert z == [if utcOffset < 0 then '-' else '+'] + Pad2(a / 60) + Pad2(a % 60);
    assert forall k :: 1 <= k < 5 ==> IsDigit(z[k]);
    assert ']' !in z;
    RemoveAllAppend(z, "]", ']');
  }

  /** The `%z` text reformatted by lines 37-38: the sign and hours, a colon, the
      minutes. */
  lemma ReformatGenerated(utcOffset: int)
    requires -1440 < utcOffset < 1440
    ensures var a := if utcOffset < 0 then -utcOffset else utcOffset;
      ReformatZone(Zone(utcOffset) + "]")
        == "UTC " + [if utcOffset < 0 then '-' else '+'] + Pad2(a / 60) + ":" + Pad2(a % 60)
  {
    var a := if utcOffset < 0 then -utcOffset else utcOffset;
    var sign := if utcOffset < 0 then '-' else '+';
    var z := Zone(utcOffset);
    ZoneCleaned(utcOffset);
    assert z == [sign] + Pad2(a / 60) + Pad2(a % 60);
    assert Slice(z, 0, 3) == [sign] + Pad2(a / 60);
    assert Slice(z, 3, 6) == Pad2(a % 60);
  }

  /** The generator's `%z` text, with the bracket the line puts after it, is
      normalised into the offset's name. */
  lemma NormaliseZone(utcOffset: int)
    requires -1440 < utcOffset < 1440
    ensures NormaliseTimezone(Zone(utcOffset) + "]") == ZoneName(utcOffset)
  {
    var a := if utcOffset < 0 then -utcOffset else utcOffset;
    ReformatGenerated(utcOffset);
    if utcOffset == 0 {
      assert Pad2(0) == "00";
    } else {
      NonzeroKept(a, if utcOffset < 0 then '-' else '+');
    }
  }

  /** A non-zero offset's text is neither of the two zero texts. */
  lemma NonzeroKept(a: nat, sign: char)
    requires 0 < a < 1440
    ensures var u := "UTC " + [sign] + Pad2(a / 60) + ":" + Pad2(a % 60);
      u != "UTC +00:00" && u != "UTC -00:00"
  {
    var u := "UTC " + [sign] + Pad2(a / 60) + ":" + Pad2(a % 60);
    assert u[5..7] == Pad2(a / 60) && u[8..10] == Pad2(a % 60);
    Pad2RoundTrip(a / 60);
    Pad2RoundTrip(a % 60);
    assert "UTC +00:00"[5..7] == "00" && "UTC +00:00"[8..10] == "00";
    assert "UTC -00:00"[5..7] == "00" && "UTC -00:00"[8..10] == "00";
    assert DecimalValue("00") == 0;
  }

  /** Different offsets get different names, so the country lookup tells them apart. */
  lemma ZoneNameInjective(x: int, y: int)
    requires -1440 < x < 1440 && -1440 < y < 1440
    ensures ZoneName(x) == ZoneName(y) <==> x == y
  {
    if x != y && x != 0 && y != 0 {
      ZoneNameParts(x);
      ZoneNameParts(y);
    }
  }

  /** A non-zero offset's name reads back into its sign, hours and minutes. */
  lemma ZoneNameParts(x: int)
    requires -1440 < x < 1440 && x != 0
    ensures var n := ZoneName(x); var a := if x < 0 then -x else x;
      && |n| == 10
      && (n[4] == '-' <==> x < 0)
      && DecimalValue(n[5..7]) == a / 60
      && DecimalValue(n[8..10]) == a % 60
  {
    var a := if x < 0 then -x else x;
    var n := ZoneName(x);
    assert n[5..7] == Pad2(a / 60) && n[8..10] == Pad2(a % 60);
    Pad2RoundTrip(a / 60);
    Pad2RoundTrip(a % 60);
  }

  /** Normalisation keeps generated offsets apart: two zones normalise to the same
      text exactly when their offsets are equal. */
  lemma NormalisedZonesDistinct(x: int, y: int)
    requires -1440 < x < 1440 && -1440 < y < 1440
    ensures NormaliseTimezone(Zone(x) + "]") == NormaliseTimezone(Zone(y) + "]") <==> x == y
  {
    NormaliseZone(x);
    NormaliseZone(y);
    ZoneNameInjective(x, y);
  }

  /** The characters that end the device text. */
  const DeviceStops: set<char> := {'(', ')', ';'}

  /** Line 53 with the fill of line 55: the second piece of a split at `(`, then
      the first piece of that at `)`, then at `;`; a missing second piece (the
      agent has no `(`) is filled with `Unknown`. The result is the text after the
      first `(` up to the next `(`, `)` or `;`. */
  function ClientDevice(ua: string): (device: string)
    ensures '(' !in ua ==> device == "Unknown"
    ensures '(' in ua ==> device == Before(After(ua, '('), DeviceStops)
  {
    var parts := Split(ua, '(');
    SplitSecond(ua, '(');
    if |parts| < 2 then "Unknown"
    else
      CutAtStops(After(ua, '('), parts[1]);
      Split(Split(parts[1], ')')[0], ';')[0]
  }

  /** The two later cuts of line 53, at `)` and then at `;`, applied to the text
      up to the next `(`, leave the text up to the first of the three stops. */
  lemma CutAtStops(rest: string, second: string)
    requires second == Before(rest, {'('})
    ensures Split(Split(second, ')')[0], ';')[0] == Before(rest, DeviceStops)
  {
    var inner := Split(second, ')')[0];
    assert inner == Before(rest, {'(', ')'}) by {
      SplitFirst(second, ')');
      BeforeBefore(rest, {'('}, {')'});
      assert {'('} + {')'} == {'(', ')'};
    }
    SplitFirst(inner, ';');
    BeforeBefore(rest, {'(', ')'}, {';'});
    assert {'(', ')'} + {';'} == DeviceStops;
  }

  /** One row of `references/country_time_zone.csv` reduced to the two columns
      the merge uses. */
  datatype Place = Place(country: string, utcOffset: string)

  /** No two mapping rows share an offset. */
  predicate KeysUnique(table: seq<Place>) {
    forall i, j :: 0 <= i < j < |table| ==> table[i].utcOffset != table[j].utcOffset
  }

  /** Line 46: the sample keeps one row per offset, each row taken from the full
      mapping, and every offset of the full mapping is kept. Which row is kept is
      random, so the sample is a parameter bound by this predicate. */
  predicate SampledFrom(sample: seq<Place>, full: seq<Place>) {
    && KeysUnique(sample)
    && (forall i :: 0 <= i < |sample| ==> sample[i] in full)
    && (forall i :: 0 <= i < |full| ==> exists j :: 0 <= j < |sample| && sample[j].utcOffset == full[i].utcOffset)
  }

  /** The mapping rows a log row's zone meets in the merge, in mapping order. */
  function Matches(table: seq<Place>, zone: string): seq<Place> {
    Where(table, (p: Place) => p.utcOffset == zone)
  }

  /** With unique offsets a zone meets at most one mapping row: the row holding it. */
  lemma {:induction false} MatchesUnique(table: seq<Place>, zone: string)
    requires KeysUnique(table)
    ensures |Matches(table, zone)| <= 1
    ensures forall i :: 0 <= i < |table| && table[i].utcOffset == zone ==> Matches(table, zone) == [table[i]]
  {
    if |table| > 0 {
      var rest := table[1..];
      assert KeysUnique(rest) by {
        forall i, j | 0 <= i < j < |rest| ensures rest[i].utcOffset != rest[j].utcOffset {
          assert rest[i] == table[i + 1] && rest[j] == table[j + 1];
        }
      }
      MatchesUnique(rest, zone);
      if table[0].utcOffset == zone {
        assert forall i :: 0 <= i < |rest| ==> rest[i].utcOffset != zone by {
          forall i | 0 <= i < |rest| ensures rest[i].utcOffset != zone {
            assert rest[i] == table[i + 1];
          }
        }
        WhereEmpty(rest, (p: Place) => p.utcOffset == zone);
      }
      forall i | 0 <= i < |table| && table[i].utcOffset == zone
        ensures Matches(table, zone) == [table[i]]
      {
        if i > 0 {
          assert rest[i - 1] == table[i];
        }
      }
    }
  }

  /** The country column of mapping rows that all hold `zone`, one entry per row. */
  function CountryColumn(m: seq<Place>, zone: string): (cs: seq<string>)
    requires forall k :: 0 <= k < |m| ==> m[k].utcOffset == zone
    ensures |cs| == |m| && forall k :: 0 <= k < |m| ==> m[k] == Place(cs[k], zone)
  {
    if |m| == 0 then [] else [m[0].country] + CountryColumn(m[1..], zone)
  }

  /** The column holds each country as often as the rows hold it with `zone`. */
  lemma {:induction false} ColumnCount(m: seq<Place>, zone: string, c: string)
    requires forall k :: 0 <= k < |m| ==> m[k].utcOffset == zone
    ensures multiset(CountryColumn(m, zone))[c] == multiset(m)[Place(c, zone)]
  {
    if |m| > 0 {
      var rest := CountryColumn(m[1..], zone);
      ColumnCount(m[1..], zone, c);
      MultisetHead(m);
      MultisetCons(m[0].country, rest);
      assert m[0] == Place(m[0].country, zone);
    }
  }

  /** The countries of the rows a zone matches: each pairs with the zone in the
      mapping, and each occurs as often as the mapping pairs it with the zone. */
  lemma MatchedColumn(table: seq<Place>, zone: string)
    ensures var cs := CountryColumn(Matches(table, zone), zone);
      && (forall k :: 0 <= k < |cs| ==> Place(cs[k], zone) in table)
      && (forall c :: multiset(cs)[c] == multiset(table)[Place(c, zone)])
  {
    var m := Matches(table, zone);
    var cs := CountryColumn(m, zone);
    WhereCount(table, (p: Place) => p.utcOffset == zone);
    forall k | 0 <= k < |cs| ensures Place(cs[k], zone) in table {
      assert m[k] in table;
    }
    forall c ensures multiset(cs)[c] == multiset(table)[Place(c, zone)] {
      ColumnCount(m, zone, c);
      assert multiset(m)[Place(c, zone)] == multiset(table)[Place(c, zone)];
    }
  }

  /** With unique offsets a zone held by a mapping row matches that row alone. */
  lemma UniqueColumn(table: seq<Place>, zone: string)
    requires KeysUnique(table)
    ensures forall i :: 0 <= i < |table| && table[i].utcOffset == zone ==>
      CountryColumn(Matches(table, zone), zone) == [table[i].country]
  {
    MatchesUnique(table, zone);
  }

  /** Lines 49 and 56: the countries a left merge pairs with one log row (one output
      row each), `Unknown` filling in when the zone meets no mapping row. Every
      mapping row holding the zone gives one country, so with unique offsets there
      is exactly one. */
  function Countries(table: seq<Place>, zone: string): (cs: seq<string>)
    ensures |cs| >= 1
    ensures (forall i :: 0 <= i < |table| ==> table[i].utcOffset != zone) ==> cs == ["Unknown"]
    ensures (exists i :: 0 <= i < |table| && table[i].utcOffset == zone) ==>
      forall k :: 0 <= k < |cs| ==> Place(cs[k], zone) in table
    ensures (exists i :: 0 <= i < |table| && table[i].utcOffset == zone) ==>
      forall c :: multiset(cs)[c] == multiset(table)[Place(c, zone)]
    ensures KeysUnique(table) ==>
      forall i :: 0 <= i < |table| && table[i].utcOffset == zone ==> cs == [table[i].country]
  {
    var m := Matches(table, zone);
    WhereEmpty(table, (p: Place) => p.utcOffset == zone);
    if |m| == 0 then
      ["Unknown"]
    else
      MatchedColumn(table, zone);
      if KeysUnique(table) then
        UniqueColumn(table, zone);
        CountryColumn(m, zone)
      else
        CountryColumn(m, zone)
  }

  /** The six output columns of one log row paired with one country. */
  function TransformRow(raw: RawLog, country: string): (row: WeblogRow)
    ensures row.ipAddress == raw.ipAddress && row.userName == raw.userName && row.country == country
    ensures ' ' !in raw.timestamp && ' ' !in raw.timezone ==>
      Split(row.timestamp, ' ') == [raw.timestamp, raw.timezone]
    ensures ']' !in row.timezone && (row.timezone == "UTC" || (|row.timezone| >= 5 && row.timezone[..4] == "UTC "))
    ensures '(' !in raw.userAgent ==> row.clientDevice == "Unknown"
    ensures row.timezone == NormaliseTimezone(raw.timezone)
    ensures row.clientDevice == ClientDevice(raw.userAgent)
    ensures row.timestamp == JoinTimestamp(raw)
  {
    WeblogRow(
      raw.ipAddress, raw.userName, JoinTimestamp(raw),
      NormaliseTimezone(raw.timezone), country, ClientDevice(raw.userAgent))
  }

  /** The rows the merge makes of one log row. */
  function RowsOf(table: seq<Place>, raw: RawLog): (rows: seq<WeblogRow>)
    ensures |rows| >= 1
  {
    var cs := Countries(table, NormaliseTimezone(raw.timezone));
    seq(|cs|, k requires 0 <= k < |cs| => TransformRow(raw, cs[k]))
  }

  /** Lines 32-56 over all log rows, in input order. */
  function TransformRows(table: seq<Place>, raws: seq<RawLog>): (rows: seq<WeblogRow>)
    ensures |rows| >= |raws|
    ensures KeysUnique(table) ==> |rows| == |raws|
    ensures KeysUnique(table) ==> forall i :: 0 <= i < |raws| ==>
      rows[i] == TransformRow(raws[i], Country(table, NormaliseTimezone(raws[i].timezone)))
  {
    if |raws| == 0 then []
    else
      var rest := TransformRows(table, raws[1..]);
      if KeysUnique(table) then
        OneRowOf(table, raws[0]);
        OneRowEachCons(table, raws, rest);
        RowsOf(table, raws[0]) + rest
      else
        RowsOf(table, raws[0]) + rest
  }

  /** The country one log row gets when mapping offsets are unique. */
  function Country(table: seq<Place>, zone: string): (c: string)
    requires KeysUnique(table)
    ensures (forall i :: 0 <= i < |table| ==> table[i].utcOffset != zone) ==> c == "Unknown"
    ensures forall i :: 0 <= i < |table| && table[i].utcOffset == zone ==> c == table[i].country
  {
    MatchesUnique(table, zone);
    Countries(table, zone)[0]
  }

  /** Row `i` of `rows` is log row `i` transformed with its own country. */
  predicate OneRowEach(table: seq<Place>, raws: seq<RawLog>, rows: seq<WeblogRow>)
    requires KeysUnique(table)
  {
    && |rows| == |raws|
    && forall i :: 0 <= i < |raws| ==>
         rows[i] == TransformRow(raws[i], Country(table, NormaliseTimezone(raws[i].timezone)))
  }

  lemma OneRowEachCons(table: seq<Place>, raws: seq<RawLog>, rest: seq<WeblogRow>)
    requires KeysUnique(table) && |raws| > 0
    requires OneRowEach(table, raws[1..], rest)
    ensures OneRowEach(table, raws, [TransformRow(raws[0], Country(table, NormaliseTimezone(raws[0].timezone)))] + rest)
  {
    var rows := [TransformRow(raws[0], Country(table, NormaliseTimezone(raws[0].timezone)))] + rest;
    forall i | 0 <= i < |raws|
      ensures rows[i] == TransformRow(raws[i], Country(table, NormaliseTimezone(raws[i].timezone)))
    {
      if i > 0 {
        assert raws[1..][i - 1] == raws[i];
      }
    }
  }

  /** With unique offsets a log row's merge gives exactly one row. */
  lemma OneRowOf(table: seq<Place>, raw: RawLog)
    requires KeysUnique(table)
    ensures RowsOf(table, raw) == [TransformRow(raw, Country(table, NormaliseTimezone(raw.timezone)))]
  {
    var zone := NormaliseTimezone(raw.timezone);
    MatchesUnique(table, zone);
    assert |Countries(table, zone)| == 1;
  }

  /** A country looked up in the sampled mapping belongs to the zone in the full
      mapping, and `Unknown` comes exactly from a zone the full mapping lacks. */
  lemma SampledCountry(sample: seq<Place>, full: seq<Place>, zone: string)
    requires SampledFrom(sample, full)
    ensures (forall i :: 0 <= i < |full| ==> full[i].utcOffset != zone) ==> Country(sample, zone) == "Unknown"
    ensures (exists i :: 0 <= i < |full| && full[i].utcOffset == zone) ==> Place(Country(sample, zone), zone) in full
  {
    if exists i :: 0 <= i < |full| && full[i].utcOffset == zone {
      var i :| 0 <= i < |full| && full[i].utcOffset == zone;
      var j :| 0 <= j < |sample| && sample[j].utcOffset == full[i].utcOffset;
      FoundCountry(sample, full, zone, j);
    } else {
      MissingCountry(sample, full, zone);
    }
  }

  lemma FoundCountry(sample: seq<Place>, full: seq<Place>, zone: string, j: nat)
    requires KeysUnique(sample) && j < |sample| && sample[j].utcOffset == zone && sample[j] in full
    ensures Place(Country(sample, zone), zone) in full
  {
    assert Country(sample, zone) == sample[j].country;
    assert sample[j] == Place(sample[j].country, zone);
  }

  lemma MissingCountry(sample: seq<Place>, full: seq<Place>, zone: string)
    requires KeysUnique(sample)
    requires forall i :: 0 <= i < |sample| ==> sample[i] in full
    requires forall i :: 0 <= i < |full| ==> full[i].utcOffset != zone
    ensures Country(sample, zone) == "Unknown"
  {
    forall j | 0 <= j < |sample| ensures sample[j].utcOffset != zone {
      assert sample[j] in full;
    }
  }

  /** `pd.read_csv` over the log file: a file without lines cannot be read at all,
      and otherwise the first line without ten fields fails the read. */
  function ReadWeblogs(lines: seq<string>): (r: Result<seq<RawLog>, ParseError>)
    ensures |lines| == 0 ==> r == Failure(EmptyFile)
    ensures r.Success? <==> |lines| > 0 && forall i :: 0 <= i < |lines| ==> ParseLine(lines[i]).Success?
    ensures r.Success? ==> |r.value| == |lines|
    ensures r.Success? ==> forall i :: 0 <= i < |lines| ==> r.value[i] == ParseLine(lines[i]).value
    ensures r.Failure? && |lines| > 0 ==> exists i :: 0 <= i < |lines| && ParseLine(lines[i]) == Failure(r.error)
  {
    if |lines| == 0 then Failure(EmptyFile) else ReadLines(lines)
  }

  /** The lines read one after another; the first line without ten fields fails. */
  function ReadLines(lines: seq<string>): (r: Result<seq<RawLog>, ParseError>)
    ensures r.Success? <==> forall i :: 0 <= i < |lines| ==> ParseLine(lines[i]).Success?
    ensures r.Success? ==> |r.value| == |lines|
    ensures r.Success? ==> forall i :: 0 <= i < |lines| ==> r.value[i] == ParseLine(lines[i]).value
    ensures r.Failure? ==> exists i :: 0 <= i < |lines| && ParseLine(lines[i]) == Failure(r.error)
  {
    if |lines| == 0 then Success([])
    else
      match ParseLine(lines[0])
      case Failure(e) => Failure(e)
      case Success(raw) =>
        match ReadLines(lines[1..])
        case Failure(e) =>
          ghost var i :| 0 <= i < |lines[1..]| && ParseLine(lines[1..][i]) == Failure(e);
          assert lines[1..][i] == lines[i + 1];
          Failure(e)
        case Success(rest) =>
          assert forall i :: 1 <= i < |lines| ==> lines[i] == lines[1..][i - 1];
          Success([raw] + rest)
  }

  /** `transform_weblogs()`: read the log file, then transform every row. */
  function TransformWeblogs(table: seq<Place>, lines: seq<string>): (r: Result<seq<WeblogRow>, ParseError>)
    ensures |lines| == 0 ==> r == Failure(EmptyFile)
    ensures r.Success? <==> |lines| > 0 && forall i :: 0 <= i < |lines| ==> ParseLine(lines[i]).Success?
    ensures r.Failure? && |lines| > 0 ==> exists i :: 0 <= i < |lines| && ParseLine(lines[i]) == Failure(r.error)
  {
    match ReadWeblogs(lines)
    case Failure(e) => Failure(e)
    case Success(raws) => Success(TransformRows(table, raws))
  }

  /** An agent that starts with `a`, `(`, `b`, a stop character and `c` has the
      device `b`. */
  lemma DeviceOf(a: string, b: string, stop: char, c: string)
    requires '(' !in a && stop in DeviceStops
    requires forall k :: 0 <= k < |b| ==> b[k] !in DeviceStops
    ensures ClientDevice(a + ['('] + b + [stop] + c) == b
  {
    var ua := a + ['('] + b + [stop] + c;
    assert ua == a + ['('] + (b + [stop] + c);
    AfterAt(a, b + [stop] + c, '(');
    BeforeAt(b, stop, c, DeviceStops);
  }

  /** A device read off an agent whose first piece holds the parenthesis. */
  lemma DeviceOfFirstPiece(ua: string, head: string, rest: string, a: string, b: string, stop: char, c: string)
    requires ua == head + rest && head == a + ['('] + b + [stop] + c
    requires '(' !in a && stop in DeviceStops
    requires forall k :: 0 <= k < |b| ==> b[k] !in DeviceStops
    ensures ClientDevice(ua) == b
  {
    assert ua == a + ['('] + b + [stop] + (c + rest);
    DeviceOf(a, b, stop, c + rest);
  }

  /** Line 53 on the Windows agent: the device is `Windows NT 10.0`. */
  lemma WindowsDevice()
    ensures ClientDevice(Agent3) == "Windows NT 10.0"
  {
    var head := "Mozilla/5.0 (Windows NT 10.0; ";
    Associative4(head, "Win64; x64) AppleWebKit/537.36 ", "(KHTML, like Gecko) ", "Chrome/95.0.4638.69 Safari/537.36");
    WindowsHead();
    DeviceOfFirstPiece(Agent3, head, "Win64; x64) AppleWebKit/537.36 " + "(KHTML, like Gecko) " + "Chrome/95.0.4638.69 Safari/537.36",
      "Mozilla/5.0 ", "Windows NT 10.0", ';', " ");
  }

  lemma WindowsHead()
    ensures "Mozilla/5.0 (Windows NT 10.0; " == "Mozilla/5.0 " + ['('] + "Windows NT 10.0" + [';'] + " "
  {
  }

  /** Line 53 on the iPad agent, which has no space before its `(`: the device is
      `iPad`. */
  lemma IPadDevice()
    ensures ClientDevice(Agent5) == "iPad"
  {
    var head := "Mozilla/5.0(iPad; U; CPU iPhone OS ";
    Associative5(head, "3_2 like Mac OS X; en-us) ", "AppleWebKit/531.21.10 (KHTML, like ",
      "Gecko) Version/4.0.4 Mobile/7B314 ", "Safari/531.21.10");
    IPadHead();
    DeviceOfFirstPiece(Agent5, head, "3_2 like Mac OS X; en-us) " + "AppleWebKit/531.21.10 (KHTML, like "
      + "Gecko) Version/4.0.4 Mobile/7B314 " + "Safari/531.21.10",
      "Mozilla/5.0", "iPad", ';', " U; CPU iPhone OS ");
  }

  lemma IPadHead()
    ensures "Mozilla/5.0(iPad; U; CPU iPhone OS " == "Mozilla/5.0" + ['('] + "iPad" + [';'] + " U; CPU iPhone OS "
  {
  }
}
