/** The synthetic weblog generator of create_weblogs.py: each line is in the Apache
    HTTP Server Combined Log Format
    `%h %l %u %t "%r" %>s %b "%{Referer}i" "%{User-agent}i"`.
    The random choices of one loop iteration are taken as a `Draw`: the indices
    `random.choice` picks (it returns `seq[randbelow(len(seq))]`), the clock fields,
    the address `random.randint` returns and the UTC offset of the chosen zone. */
module WeblogFormat {
  import opened Wrappers
  import opened Text

  const StatusCodes: seq<nat> := [200, 201, 202, 204, 301, 302, 304, 400, 404]

  /** The eight agent strings of `user_agent_list`, each written as a concatenation
      of short pieces so that facts about their characters stay within the
      verifier's reach. */
  const UserAgents: seq<string> := [Agent0, Agent1, Agent2, Agent3, Agent4, Agent5, Agent6, Agent7]

  const Agent0: string :=
    "Mozilla/5.0 (iPhone; CPU iPhone OS "
      + "10_3_1 like Mac OS X) "
      + "AppleWebKit/603.1.30 (KHTML, like "
      + "Gecko) Version/10.0 Mobile/14E304 "
      + "Safari/602.1"
  const Agent1: string :=
    "Mozilla/5.0 (Linux; U; Android "
      + "4.4.2; en-us; SCH-I535 "
      + "Build/KOT49H) AppleWebKit/534.30 "
      + "(KHTML, like Gecko) Version/4.0 "
      + "Mobile Safari/534.30"
  const Agent2: string :=
    "Mozilla/5.0 (Linux; Android 7.0; "
      + "SM-G930V Build/NRD90M) "
      + "AppleWebKit/537.36 (KHTML, like "
      + "Gecko) Chrome/59.0.3071.125 Mobile "
      + "Safari/537.36"
  const Agent3: string :=
    "Mozilla/5.0 (Windows NT 10.0; "
      + "Win64; x64) AppleWebKit/537.36 "
      + "(KHTML, like Gecko) "
      + "Chrome/95.0.4638.69 Safari/537.36"
  const Agent4: string :=
    "Mozilla/5.0 (iPhone; CPU iPhone OS "
      + "15_5 like Mac OS X) "
      + "AppleWebKit/605.1.15 (KHTML, like "
      + "Gecko) PKeyAuth/1.0"
  const Agent5: string :=
    "Mozilla/5.0(iPad; U; CPU iPhone OS "
      + "3_2 like Mac OS X; en-us) "
      + "AppleWebKit/531.21.10 (KHTML, like "
      + "Gecko) Version/4.0.4 Mobile/7B314 "
      + "Safari/531.21.10"
  const Agent6: string :=
    "Mozilla/5.0 (Macintosh; Intel Mac "
      + "OS X 12_5_1) AppleWebKit/537.36 "
      + "(KHTML, like Gecko) "
      + "Chrome/105.0.0.0 Safari/537.36 "
      + "Vivaldi/5.4.2753.47"
  const Agent7: string :=
    "Mozilla/5.0 (Macintosh; Intel Mac "
      + "OS X 12_5_1) AppleWebKit/537.36 "
      + "(KHTML, like Gecko) "
      + "Chrome/105.0.0.0 Safari/537.36 "
      + "Edg/105.0.1343.27"

  const Years: seq<nat> := [2019, 2020, 2021, 2022]

  /** `[m for m in range(1, 13) if m != 2]`. */
  const Months: seq<nat> := [1, 3, 4, 5, 6, 7, 8, 9, 10, 11, 12]

  /** strftime's `%B` in the C locale. */
  const MonthNames: seq<string> := [
    "January", "February", "March", "April", "May", "June",
    "July", "August", "September", "October", "November", "December"
  ]

  const Request: string := "GET /apache_pb.gif HTTP/1.0"
  const Referer: string := "http://www.b2bwebsite.com/start.html"

  /** The random choices of one iteration of the generator loop. */
  datatype Draw = Draw(
    yearIdx: nat, monthIdx: nat, dayIdx: nat,
    hour: nat, minute: nat, second: nat,
    utcOffset: int,
    statusIdx: nat, bytesIdx: nat, agentIdx: nat, userIdx: nat,
    address: nat)

  /** What the random module promises about a draw: every index is below the length
      of the list it indexes, `randint(1, 0xffffffff)` stays in its bounds, and a
      zone's offset (in minutes) is less than a day. The agent bound is written
      as the number of agents so that it does not bring the agent texts along. */
  predicate ValidDraw(d: Draw) {
    && d.yearIdx < |Years| && d.monthIdx < |Months| && d.dayIdx < 30
    && d.hour < 24 && d.minute < 60 && d.second < 60
    && -1440 < d.utcOffset < 1440
    && d.statusIdx < |StatusCodes| && d.bytesIdx < 2000 && d.agentIdx < 8
    && d.userIdx < 10
    && 1 <= d.address <= 0xffff_ffff
  }

  /** The already-chosen field values of one log line. */
  datatype LogFields = LogFields(host: string, user: string, timestamp: string, status: string, bytes: string, agent: string)

  /** A string that stays one field when read back: no space, no double quote. */
  predicate Plain(s: string) {
    ' ' !in s && '"' !in s
  }

  /** `socket.inet_ntoa(struct.pack('>I', address))`: four decimal octets, most
      significant first. */
  function Dotted(address: nat): (s: string)
    requires address <= 0xffff_ffff
    ensures Plain(s)
  {
    Decimal(address / 0x100_0000) + "." + Decimal(address / 0x1_0000 % 0x100) + "."
      + Decimal(address / 0x100 % 0x100) + "." + Decimal(address % 0x100)
  }

  /** strftime's `%z`: sign, then hours and minutes, two digits each. */
  function Zone(utcOffset: int): (s: string)
    requires -1440 < utcOffset < 1440
    ensures |s| == 5 && Plain(s)
  {
    var a := if utcOffset < 0 then -utcOffset else utcOffset;
    [if utcOffset < 0 then '-' else '+'] + Pad2(a / 60) + Pad2(a % 60)
  }

  function Year(d: Draw): nat requires ValidDraw(d) { Years[d.yearIdx] }
  function Month(d: Draw): nat requires ValidDraw(d) { Months[d.monthIdx] }
  /** `random.choice(range(1, 31))`. */
  function Day(d: Draw): nat requires ValidDraw(d) { 1 + d.dayIdx }

  /** strftime's `%d/%B/%Y:%H:%M:%S`, the part of the timestamp before the space. */
  function DatePart(d: Draw): (s: string)
    requires ValidDraw(d)
    ensures Plain(s)
  {
    MonthNamesPlain(Month(d));
    DateTextPlain(Pad2(Day(d)), MonthNames[Month(d) - 1], Decimal(Year(d)), Pad2(d.hour), Pad2(d.minute), Pad2(d.second));
    Pad2(Day(d)) + "/" + MonthNames[Month(d) - 1] + "/" + Decimal(Year(d)) + ":"
      + Pad2(d.hour) + ":" + Pad2(d.minute) + ":" + Pad2(d.second)
  }

  lemma DateTextPlain(day: string, month: string, year: string, h: string, m: string, sec: string)
    requires AllDigits(day) && Plain(month) && AllDigits(year)
    requires AllDigits(h) && AllDigits(m) && AllDigits(sec)
    ensures Plain(day + "/" + month + "/" + year + ":" + h + ":" + m + ":" + sec)
  {
    var t := day + "/" + month + "/" + year + ":" + h + ":" + m + ":" + sec;
    assert forall k :: 0 <= k < |t| ==>
      (t[k] in day || t[k] in month || t[k] in year || t[k] in h || t[k] in m || t[k] in sec
       || t[k] == '/' || t[k] == ':');
  }

  lemma MonthNamesPlain(m: nat)
    requires 1 <= m <= 12
    ensures Plain(MonthNames[m - 1])
  {
  }

  /** `strftime("%d/%B/%Y:%H:%M:%S %z")` of the localised login time. */
  function Timestamp(d: Draw): string
    requires ValidDraw(d)
  {
    DatePart(d) + " " + Zone(d.utcOffset)
  }

  /** The field values line 64 interpolates for one draw. */
  function FieldsOf(d: Draw): LogFields
    requires ValidDraw(d)
  {
    LogFields(
      Dotted(d.address),
      Decimal(100 + d.userIdx),
      Timestamp(d),
      Decimal(StatusCodes[d.statusIdx]),
      Decimal(2000 + d.bytesIdx),
      UserAgents[d.agentIdx])
  }

  /** The line written by `logging.info` (format `%(message)s`). */
  function FormatLine(f: LogFields): (line: string)
    ensures |line| >= |f.host| + 3 && line[..|f.host| + 3] == f.host + " - "
    ensures |line| >= |f.agent| + 2 && line[|line| - |f.agent| - 2..] == "\"" + f.agent + "\""
  {
    f.host + " - " + f.user + " [" + f.timestamp + "] \"" + Request + "\" "
      + f.status + " " + f.bytes + " \"" + Referer + "\" \"" + f.agent + "\""
  }

  /** `create_weblogs(number_of_logs)`: `for i in range(1, number_of_logs)` writes one
      line per iteration, so `number_of_logs - 1` lines, and none for 1 or less;
      iteration `i` formats the values chosen for it, `chosen[i - 1]`. */
  method CreateWeblogs(numberOfLogs: int, chosen: seq<LogFields>) returns (lines: seq<string>)
    requires numberOfLogs - 1 <= |chosen|
    ensures |lines| == if numberOfLogs <= 1 then 0 else numberOfLogs - 1
    ensures forall k :: 0 <= k < |lines| ==> lines[k] == FormatLine(chosen[k])
  {
    lines := [];
    var i := 1;
    while i < numberOfLogs
      invariant 1 <= i
      invariant i == 1 || i <= numberOfLogs
      invariant |lines| == i - 1
      invariant forall k :: 0 <= k < |lines| ==> lines[k] == FormatLine(chosen[k])
    {
      lines := lines + [FormatLine(chosen[i - 1])];
      i := i + 1;
    }
  }

  /** `main`: a missing `--number_of_logs` means 10, so 9 lines. */
  method WeblogsMain(numberOfLogs: Option<int>, chosen: seq<LogFields>) returns (lines: seq<string>)
    requires numberOfLogs.GetOr(10) - 1 <= |chosen|
    ensures numberOfLogs.None? ==> |lines| == 9
    ensures numberOfLogs.Some? ==> |lines| == if numberOfLogs.value <= 1 then 0 else numberOfLogs.value - 1
    ensures forall k :: 0 <= k < |lines| ==> lines[k] == FormatLine(chosen[k])
  {
    var n := if numberOfLogs.None? then 10 else numberOfLogs.value;
    lines := CreateWeblogs(n, chosen);
  }
}

/** The value domains of the generated fields. */
module WeblogDomains {
  import opened Text
  import opened WeblogFormat

  /** Days in a month of the proleptic Gregorian calendar `datetime` uses. */
  function DaysInMonth(year: nat, month: nat): nat
    requires 1 <= month <= 12
  {
    if month == 2 then (if year % 4 == 0 && (year % 100 != 0 || year % 400 == 0) then 29 else 28)
    else if month == 4 || month == 6 || month == 9 || month == 11 then 30
    else 31
  }

  /** `[m for m in range(1, 13) if m != 2]` lists the months other than February, in order. */
  lemma MonthsListed()
    ensures forall m :: m in Months <==> 1 <= m <= 12 && m != 2
    ensures forall i, j :: 0 <= i < j < |Months| ==> Months[i] < Months[j]
  {
  }

  /** strftime's `%z` reads back as the offset: the sign, then hours and minutes
      (below 60) whose total in minutes is the offset's magnitude. */
  lemma ZoneReadsBack(utcOffset: int)
    requires -1440 < utcOffset < 1440
    ensures var s := Zone(utcOffset);
      var a := if utcOffset < 0 then -utcOffset else utcOffset;
      && s[0] == (if utcOffset < 0 then '-' else '+')
      && AllDigits(s[1..3]) && AllDigits(s[3..5])
      && DecimalValue(s[3..5]) < 60
      && DecimalValue(s[1..3]) * 60 + DecimalValue(s[3..5]) == a
  {
    var a := if utcOffset < 0 then -utcOffset else utcOffset;
    var s := Zone(utcOffset);
    assert s[1..3] == Pad2(a / 60);
    assert s[3..5] == Pad2(a % 60);
    Pad2RoundTrip(a / 60);
    Pad2RoundTrip(a % 60);
  }

  /** Every generated login date exists: the year is 2019 to 2022, the month is
      never February and the day, 1 to 30, fits every other month, so the
      `datetime(...)` call never raises. */
  lemma GeneratedDateValid(d: Draw)
    requires ValidDraw(d)
    ensures 2019 <= Year(d) <= 2022
    ensures 1 <= Month(d) <= 12 && Month(d) != 2
    ensures 1 <= Day(d) <= 30
    ensures Day(d) <= DaysInMonth(Year(d), Month(d))
  {
    MonthsListed();
    assert Month(d) in Months;
  }

  /** The numeric fields of a generated line read back as values of their lists
      and ranges: the status is one of the 9 codes, the byte count is in
      [2000, 4000), the user is in [100, 110); the agent is one of the 8 strings. */
  lemma GeneratedFieldDomains(d: Draw)
    requires ValidDraw(d)
    ensures var f := FieldsOf(d);
      && AllDigits(f.status) && DecimalValue(f.status) in StatusCodes
      && AllDigits(f.bytes) && 2000 <= DecimalValue(f.bytes) < 4000
      && AllDigits(f.user) && 100 <= DecimalValue(f.user) < 110
      && f.agent in UserAgents
  {
    DecimalRoundTrip(StatusCodes[d.statusIdx]);
    DecimalRoundTrip(2000 + d.bytesIdx);
    DecimalRoundTrip(100 + d.userIdx);
  }

  /** The shape the log reader relies on: host, user, status and byte count hold
      no space and no double quote, the timestamp holds exactly one space, between
      two such parts, and the agent holds no double quote. */
  lemma GeneratedFieldsPlain(d: Draw)
    requires ValidDraw(d)
    ensures var f := FieldsOf(d);
      && Plain(f.host) && Plain(f.user) && Plain(f.status) && Plain(f.bytes)
      && f.timestamp == DatePart(d) + " " + Zone(d.utcOffset)
      && Plain(DatePart(d)) && Plain(Zone(d.utcOffset))
      && '"' !in f.agent
  {
    var f := FieldsOf(d);
    DigitsPlain(f.user);
    DigitsPlain(f.status);
    DigitsPlain(f.bytes);
    AgentsUnquoted(d.agentIdx);
  }

  /** The dotted address reads back: four decimal octets between dots, each below
      256, whose base-256 value is the drawn address. */
  lemma DottedOctets(address: nat)
    requires address <= 0xffff_ffff
    ensures var parts := Split(Dotted(address), '.');
      && |parts| == 4
      && (forall k :: 0 <= k < 4 ==> AllDigits(parts[k]) && DecimalValue(parts[k]) < 256)
      && ((DecimalValue(parts[0]) * 256 + DecimalValue(parts[1])) * 256 + DecimalValue(parts[2])) * 256
         + DecimalValue(parts[3]) == address
  {
    var o0 := address / 0x100_0000;
    var o1 := address / 0x1_0000 % 0x100;
    var o2 := address / 0x100 % 0x100;
    var o3 := address % 0x100;
    var ds := [Decimal(o0), Decimal(o1), Decimal(o2), Decimal(o3)];
    DottedJoin(ds[0], ds[1], ds[2], ds[3]);
    forall k | 0 <= k < 4 ensures '.' !in ds[k] {
      assert AllDigits(ds[k]);
    }
    SplitJoin(ds, '.');
    DecimalRoundTrip(o0);
    DecimalRoundTrip(o1);
    DecimalRoundTrip(o2);
    DecimalRoundTrip(o3);
    OctetsValue(address);
  }

  lemma DottedJoin(a: string, b: string, c: string, d: string)
    ensures a + "." + b + "." + c + "." + d == Join([a, b, c, d], '.')
  {
    assert [a, b, c, d][1..] == [b, c, d];
    assert [b, c, d][1..] == [c, d];
    assert [c, d][1..] == [d];
    assert Join([c, d], '.') == c + "." + d;
    assert Join([b, c, d], '.') == b + "." + (c + "." + d);
    assert Join([a, b, c, d], '.') == a + "." + (b + "." + (c + "." + d));
  }

  /** The four octets of a 32-bit number, most significant first. */
  lemma OctetsValue(address: nat)
    requires address <= 0xffff_ffff
    ensures address / 0x100_0000 < 256
    ensures ((address / 0x100_0000 * 256 + address / 0x1_0000 % 0x100) * 256 + address / 0x100 % 0x100) * 256
      + address % 0x100 == address
  {
    var q1 := address / 0x100;
    var q2 := q1 / 0x100;
    assert address / 0x1_0000 == q2;
    assert address / 0x100_0000 == q2 / 0x100;
  }

  lemma DigitsPlain(s: string)
    requires AllDigits(s)
    ensures Plain(s)
  {
  }

  /** No agent string holds a double quote. Each literal piece is checked by a
      lemma of its own: the verifier's search over a string literal grows quickly
      with its length. */
  lemma AgentsUnquoted(i: nat)
    requires i < |UserAgents|
    ensures '"' !in UserAgents[i]
  {
    if i == 0 { Agent0Unquoted(); }
    else if i == 1 { Agent1Unquoted(); }
    else if i == 2 { Agent2Unquoted(); }
    else if i == 3 { Agent3Unquoted(); }
    else if i == 4 { Agent4Unquoted(); }
    else if i == 5 { Agent5Unquoted(); }
    else if i == 6 { Agent6Unquoted(); }
    else { Agent7Unquoted(); }
  }

  lemma Agent0Unquoted() ensures '"' !in Agent0 { Agent0Piece0(); Agent0Piece1(); Agent0Piece2(); Agent0Piece3(); Agent0Piece4(); }
  lemma Agent0Piece0() ensures '"' !in "Mozilla/5.0 (iPhone; CPU iPhone OS " { }
  lemma Agent0Piece1() ensures '"' !in "10_3_1 like Mac OS X) " { }
  lemma Agent0Piece2() ensures '"' !in "AppleWebKit/603.1.30 (KHTML, like " { }
  lemma Agent0Piece3() ensures '"' !in "Gecko) Version/10.0 Mobile/14E304 " { }
  lemma Agent0Piece4() ensures '"' !in "Safari/602.1" { }
  lemma Agent1Unquoted() ensures '"' !in Agent1 { Agent1Piece0(); Agent1Piece1(); Agent1Piece2(); Agent1Piece3(); Agent1Piece4(); }
  lemma Agent1Piece0() ensures '"' !in "Mozilla/5.0 (Linux; U; Android " { }
  lemma Agent1Piece1() ensures '"' !in "4.4.2; en-us; SCH-I535 " { }
  lemma Agent1Piece2() ensures '"' !in "Build/KOT49H) AppleWebKit/534.30 " { }
  lemma Agent1Piece3() ensures '"' !in "(KHTML, like Gecko) Version/4.0 " { }
  lemma Agent1Piece4() ensures '"' !in "Mobile Safari/534.30" { }
  lemma Agent2Unquoted() ensures '"' !in Agent2 { Agent2Piece0(); Agent2Piece1(); Agent2Piece2(); Agent2Piece3(); Agent2Piece4(); }
  lemma Agent2Piece0() ensures '"' !in "Mozilla/5.0 (Linux; Android 7.0; " { }
  lemma Agent2Piece1() ensures '"' !in "SM-G930V Build/NRD90M) " { }
  lemma Agent2Piece2() ensures '"' !in "AppleWebKit/537.36 (KHTML, like " { }
  lemma Agent2Piece3() ensures '"' !in "Gecko) Chrome/59.0.3071.125 Mobile " { }
  lemma Agent2Piece4() ensures '"' !in "Safari/537.36" { }
  lemma Agent3Unquoted() ensures '"' !in Agent3 { Agent3Piece0(); Agent3Piece1(); Agent3Piece2(); Agent3Piece3(); }
  lemma Agent3Piece0() ensures '"' !in "Mozilla/5.0 (Windows NT 10.0; " { }
  lemma Agent3Piece1() ensures '"' !in "Win64; x64) AppleWebKit/537.36 " { }
  lemma Agent3Piece2() ensures '"' !in "(KHTML, like Gecko) " { }
  lemma Agent3Piece3() ensures '"' !in "Chrome/95.0.4638.69 Safari/537.36" { }
  lemma Agent4Unquoted() ensures '"' !in Agent4 { Agent4Piece0(); Agent4Piece1(); Agent4Piece2(); Agent4Piece3(); }
  lemma Agent4Piece0() ensures '"' !in "Mozilla/5.0 (iPhone; CPU iPhone OS " { }
  lemma Agent4Piece1() ensures '"' !in "15_5 like Mac OS X) " { }
  lemma Agent4Piece2() ensures '"' !in "AppleWebKit/605.1.15 (KHTML, like " { }
  lemma Agent4Piece3() ensures '"' !in "Gecko) PKeyAuth/1.0" { }
  lemma Agent5Unquoted() ensures '"' !in Agent5 { Agent5Piece0(); Agent5Piece1(); Agent5Piece2(); Agent5Piece3(); Agent5Piece4(); }
  lemma Agent5Piece0() ensures '"' !in "Mozilla/5.0(iPad; U; CPU iPhone OS " { }
  lemma Agent5Piece1() ensures '"' !in "3_2 like Mac OS X; en-us) " { }
  lemma Agent5Piece2() ensures '"' !in "AppleWebKit/531.21.10 (KHTML, like " { }
  lemma Agent5Piece3() ensures '"' !in "Gecko) Version/4.0.4 Mobile/7B314 " { }
  lemma Agent5Piece4() ensures '"' !in "Safari/531.21.10" { }
  lemma Agent6Unquoted() ensures '"' !in Agent6 { Agent6Piece0(); Agent6Piece1(); Agent6Piece2(); Agent6Piece3(); Agent6Piece4(); }
  lemma Agent6Piece0() ensures '"' !in "Mozilla/5.0 (Macintosh; Intel Mac " { }
  lemma Agent6Piece1() ensures '"' !in "OS X 12_5_1) AppleWebKit/537.36 " { }
  lemma Agent6Piece2() ensures '"' !in "(KHTML, like Gecko) " { }
  lemma Agent6Piece3() ensures '"' !in "Chrome/105.0.0.0 Safari/537.36 " { }
  lemma Agent6Piece4() ensures '"' !in "Vivaldi/5.4.2753.47" { }
  lemma Agent7Unquoted() ensures '"' !in Agent7 { Agent7Piece0(); Agent7Piece1(); Agent7Piece2(); Agent7Piece3(); Agent7Piece4(); }
  lemma Agent7Piece0() ensures '"' !in "Mozilla/5.0 (Macintosh; Intel Mac " { }
  lemma Agent7Piece1() ensures '"' !in "OS X 12_5_1) AppleWebKit/537.36 " { }
  lemma Agent7Piece2() ensures '"' !in "(KHTML, like Gecko) " { }
  lemma Agent7Piece3() ensures '"' !in "Chrome/105.0.0.0 Safari/537.36 " { }
  lemma Agent7Piece4() ensures '"' !in "Edg/105.0.1343.27" { }
}
