/** Reading a weblog line back, as `pd.read_csv(..., sep=" ", header=None)` does:
    pandas' tokenizer splits on single spaces, except inside double-quoted fields,
    and a doubled quote inside a quoted field stands for one quote. A run of spaces
    gives empty fields; nothing is trimmed. */
module WeblogParse {
  import opened Wrappers
  import opened Seqs
  import opened WeblogFormat

  /** The tokenizer's states for one field. */
  datatype Mode = StartField | Unquoted | Quoted | QuoteInQuoted

  /** The tokenizer part-way through a line: the fields ended so far and the
      text of the current one. */
  datatype Scanner = Scanner(mode: Mode, fields: seq<string>, cur: string)

  function Start(fields: seq<string>): Scanner {
    Scanner(StartField, fields, "")
  }

  /** One character through the tokenizer. A quote opens a quoted field only at
      the start of a field; elsewhere in an unquoted field it is kept as text. */
  function Step(sc: Scanner, ch: char): Scanner {
    match sc.mode
    case StartField =>
      if ch == '"' then sc.(mode := Quoted)
      else if ch == ' ' then Start(sc.fields + [sc.cur])
      else sc.(mode := Unquoted, cur := sc.cur + [ch])
    case Unquoted =>
      if ch == ' ' then Start(sc.fields + [sc.cur])
      else sc.(cur := sc.cur + [ch])
    case Quoted =>
      if ch == '"' then sc.(mode := QuoteInQuoted)
      else sc.(cur := sc.cur + [ch])
    case QuoteInQuoted =>
      if ch == '"' then sc.(mode := Quoted, cur := sc.cur + [ch])
      else if ch == ' ' then Start(sc.fields + [sc.cur])
      else sc.(mode := Unquoted, cur := sc.cur + [ch])
  }

  /** The tokenizer over a run of characters, first to last. */
  function Scan(sc: Scanner, s: string): Scanner
    decreases |s|
  {
    if |s| == 0 then sc else Scan(Step(sc, s[0]), s[1..])
  }

  /** The end of the line ends the current field. */
  function Finish(sc: Scanner): seq<string> {
    sc.fields + [sc.cur]
  }

  /** The fields of one line. */
  function Tokenize(line: string): (fields: seq<string>)
    ensures |fields| >= 1
  {
    Finish(Scan(Start([]), line))
  }

  lemma {:induction false} ScanAppend(sc: Scanner, a: string, b: string)
    ensures Scan(sc, a + b) == Scan(Scan(sc, a), b)
    decreases |a|
  {
    if |a| == 0 {
      assert a + b == b;
    } else {
      assert (a + b)[1..] == a[1..] + b;
      ScanAppend(Step(sc, a[0]), a[1..], b);
    }
  }

  /** Inside an unquoted field every character but a space is text. */
  lemma {:induction false} ScanUnquoted(fields: seq<string>, cur: string, a: string)
    requires ' ' !in a
    ensures Scan(Scanner(Unquoted, fields, cur), a) == Scanner(Unquoted, fields, cur + a)
    decreases |a|
  {
    if |a| == 0 {
      assert cur + a == cur;
    } else {
      assert cur + a == (cur + [a[0]]) + a[1..];
      ScanUnquoted(fields, cur + [a[0]], a[1..]);
    }
  }

  /** Inside a quoted field every character but a quote is text, spaces included. */
  lemma {:induction false} ScanQuoted(fields: seq<string>, cur: string, a: string)
    requires '"' !in a
    ensures Scan(Scanner(Quoted, fields, cur), a) == Scanner(Quoted, fields, cur + a)
    decreases |a|
  {
    if |a| == 0 {
      assert cur + a == cur;
    } else {
      assert cur + a == (cur + [a[0]]) + a[1..];
      ScanQuoted(fields, cur + [a[0]], a[1..]);
    }
  }

  /** A field as it is written into a line: bare, or between double quotes. */
  datatype Field = Bare(text: string) | InQuotes(text: string)

  function Render(f: Field): string {
    match f
    case Bare(t) => t
    case InQuotes(t) => "\"" + t + "\""
  }

  /** A field the tokenizer gives back unchanged: a bare one holds no space and no
      quote, a quoted one no quote. */
  predicate Readable(f: Field) {
    match f
    case Bare(t) => Plain(t)
    case InQuotes(t) => '"' !in t
  }

  /** Fields written one after another, separated by single spaces. */
  function Unparse(fs: seq<Field>): string
    requires |fs| >= 1
  {
    Render(fs[0]) + (if |fs| == 1 then "" else " " + Unparse(fs[1..]))
  }

  function Texts(fs: seq<Field>): (ts: seq<string>)
    ensures |ts| == |fs|
    ensures forall i :: 0 <= i < |fs| ==> ts[i] == fs[i].text
  {
    if |fs| == 0 then [] else [fs[0].text] + Texts(fs[1..])
  }

  /** Reading one readable field: at the end of the line it completes the fields;
      followed by a space it is ended and the next field starts. */
  lemma ScanField(fields: seq<string>, f: Field)
    requires Readable(f)
    ensures Finish(Scan(Start(fields), Render(f))) == fields + [f.text]
    ensures Step(Scan(Start(fields), Render(f)), ' ') == Start(fields + [f.text])
  {
    var t := f.text;
    match f
    case Bare(_) =>
      if |t| > 0 {
        assert t[0] in t;
        assert [t[0]] + t[1..] == t;
        ScanAppend(Start(fields), [t[0]], t[1..]);
        assert Scan(Start(fields), [t[0]]) == Scanner(Unquoted, fields, [t[0]]);
        ScanUnquoted(fields, [t[0]], t[1..]);
      }
    case InQuotes(_) =>
      ScanAppend(Start(fields), "\"" + t, "\"");
      ScanAppend(Start(fields), "\"", t);
      ScanQuoted(fields, "", t);
      assert "" + t == t;
  }

  /** Reading a line of readable fields from any point between fields. */
  lemma {:induction false} ScanFields(fields: seq<string>, fs: seq<Field>)
    requires |fs| >= 1
    requires forall i :: 0 <= i < |fs| ==> Readable(fs[i])
    ensures Finish(Scan(Start(fields), Unparse(fs))) == fields + Texts(fs)
    decreases |fs|
  {
    if |fs| > 1 {
      ScanFields(fields + [fs[0].text], fs[1..]);
      ScanFieldsStep(fields, fs);
      TextsCons(fields, fs);
    } else {
      ScanField(fields, fs[0]);
      assert Unparse(fs) == Render(fs[0]);
    }
  }

  /** Reading past the first of several fields starts the rest with that field done. */
  lemma ScanFieldsStep(fields: seq<string>, fs: seq<Field>)
    requires |fs| > 1 && Readable(fs[0])
    ensures Scan(Start(fields), Unparse(fs)) == Scan(Start(fields + [fs[0].text]), Unparse(fs[1..]))
  {
    var rest := Unparse(fs[1..]);
    assert Unparse(fs) == Render(fs[0]) + (" " + rest);
    ScanPastField(fields, fs[0], rest);
  }

  lemma TextsCons(fields: seq<string>, fs: seq<Field>)
    requires |fs| > 0
    ensures fields + [fs[0].text] + Texts(fs[1..]) == fields + Texts(fs)
  {
    var ts := Texts(fs[1..]);
    assert Texts(fs) == [fs[0].text] + ts;
    Associative(fields, [fs[0].text], ts);
  }

  /** A readable field and the space after it are read as one complete field. */
  lemma ScanPastField(fields: seq<string>, f: Field, rest: string)
    requires Readable(f)
    ensures Scan(Start(fields), Render(f) + (" " + rest)) == Scan(Start(fields + [f.text]), rest)
  {
    ScanField(fields, f);
    var sc := Scan(Start(fields), Render(f));
    ScanAppend(Start(fields), Render(f), " " + rest);
    ScanAppend(sc, " ", rest);
    assert Scan(sc, " ") == Step(sc, ' ');
  }

  /** The tokenizer inverts writing: readable fields joined by spaces read back as
      their texts, quotes removed. */
  lemma TokenizeUnparse(fs: seq<Field>)
    requires |fs| >= 1
    requires forall i :: 0 <= i < |fs| ==> Readable(fs[i])
    ensures Tokenize(Unparse(fs)) == Texts(fs)
  {
    ScanFields([], fs);
    assert [] + Texts(fs) == Texts(fs);
  }

  /** The ten columns named when the log is read, in line order. */
  datatype RawLog = RawLog(
    ipAddress: string, identityOfClient: string, userName: string,
    timestamp: string, timezone: string, httpRequest: string,
    httpStatusCode: string, bytesTransferred: string, referer: string,
    userAgent: string)

  function Columns(raw: RawLog): seq<string> {
    [raw.ipAddress, raw.identityOfClient, raw.userName, raw.timestamp, raw.timezone,
     raw.httpRequest, raw.httpStatusCode, raw.bytesTransferred, raw.referer, raw.userAgent]
  }

  /** Why the log cannot be read: a line whose field count differs from the ten
      column names, or a file with no line at all (pandas' `EmptyDataError`). */
  datatype ParseError = FieldCount(found: nat) | EmptyFile

  /** One line read into the ten named columns. */
  function ParseLine(line: string): (r: Result<RawLog, ParseError>)
    ensures r.Success? <==> |Tokenize(line)| == 10
    ensures r.Success? ==> Columns(r.value) == Tokenize(line)
    ensures r.Failure? ==> r.error == FieldCount(|Tokenize(line)|)
  {
    var t := Tokenize(line);
    if |t| != 10 then Failure(FieldCount(|t|))
    else Success(RawLog(t[0], t[1], t[2], t[3], t[4], t[5], t[6], t[7], t[8], t[9]))
  }

  /** How the formatter writes a line whose timestamp is `date + " " + zone`: the
      bracketed timestamp falls apart at its space into two bare fields. */
  function LineFields(f: LogFields, date: string, zone: string): seq<Field> {
    [Bare(f.host), Bare("-"), Bare(f.user), Bare("[" + date), Bare(zone + "]"),
     InQuotes(Request), Bare(f.status), Bare(f.bytes), InQuotes(Referer), InQuotes(f.agent)]
  }

  lemma UnparseCons(f: Field, rest: seq<Field>)
    requires |rest| >= 1
    ensures Unparse([f] + rest) == Render(f) + " " + Unparse(rest)
  {
    assert ([f] + rest)[1..] == rest;
  }

  /** The line's literal separators regrouped field by field. */
  lemma LineLayout(h: string, u: string, d: string, z: string, rq: string, st: string, bt: string, rf: string, ag: string)
    ensures h + " - " + u + " [" + (d + " " + z) + "] \"" + rq + "\" " + st + " " + bt + " \"" + rf + "\" \"" + ag + "\""
      == h + " " + ("-" + " " + (u + " " + ("[" + d + " " + (z + "]" + " " + ("\"" + rq + "\"" + " "
        + (st + " " + (bt + " " + ("\"" + rf + "\"" + " " + ("\"" + ag + "\"")))))))))
  {
    assert " - " == " " + "-" + " ";
    assert " [" == " " + "[";
    assert "] \"" == "]" + " " + "\"";
    assert "\" " == "\"" + " ";
    assert " \"" == " " + "\"";
    assert "\" \"" == "\"" + " " + "\"";
    Regroup(h, u, d, z, rq, st, bt, rf, ag, " ", "-", "[", "]", "\"");
  }

  /** `LineLayout` with the separator characters as parameters. */
  lemma Regroup<T>(h: seq<T>, u: seq<T>, d: seq<T>, z: seq<T>, rq: seq<T>, st: seq<T>, bt: seq<T>, rf: seq<T>, ag: seq<T>,
                   sp: seq<T>, dash: seq<T>, lb: seq<T>, rb: seq<T>, q: seq<T>)
    ensures h + (sp + dash + sp) + u + (sp + lb) + (d + sp + z) + (rb + sp + q) + rq + (q + sp)
        + st + sp + bt + (sp + q) + rf + (q + sp + q) + ag + q
      == h + sp + (dash + sp + (u + sp + (lb + d + sp + (z + rb + sp + (q + rq + q + sp
        + (st + sp + (bt + sp + (q + rf + q + sp + (q + ag + q)))))))))
  {
    var head := h + (sp + dash + sp) + u + (sp + lb) + (d + sp + z) + (rb + sp + q) + rq + (q + sp);
    var tail := st + sp + bt + (sp + q) + rf + (q + sp + q) + ag + q;
    SplitTail(head, st, sp, bt, sp + q, rf, q + sp + q, ag, q);
    RegroupTail(st, bt, rf, ag, sp, q);
    RegroupHead(h, u, d, z, rq, sp, dash, lb, rb, q, st + sp + (bt + sp + (q + rf + q + sp + (q + ag + q))));
  }

  lemma SplitTail<T>(a: seq<T>, b: seq<T>, c: seq<T>, d: seq<T>, e: seq<T>, f: seq<T>, g: seq<T>, h: seq<T>, i: seq<T>)
    ensures a + b + c + d + e + f + g + h + i == a + (b + c + d + e + f + g + h + i)
  {
  }

  lemma RegroupTail<T>(st: seq<T>, bt: seq<T>, rf: seq<T>, ag: seq<T>, sp: seq<T>, q: seq<T>)
    ensures st + sp + bt + (sp + q) + rf + (q + sp + q) + ag + q
      == st + sp + (bt + sp + (q + rf + q + sp + (q + ag + q)))
  {
  }

  lemma RegroupHead<T>(h: seq<T>, u: seq<T>, d: seq<T>, z: seq<T>, rq: seq<T>,
                       sp: seq<T>, dash: seq<T>, lb: seq<T>, rb: seq<T>, q: seq<T>, t: seq<T>)
    ensures h + (sp + dash + sp) + u + (sp + lb) + (d + sp + z) + (rb + sp + q) + rq + (q + sp) + t
      == h + sp + (dash + sp + (u + sp + (lb + d + sp + (z + rb + sp + (q + rq + q + sp + t)))))
  {
  }

  lemma FormatUnparse(f: LogFields, date: string, zone: string)
    requires f.timestamp == date + " " + zone
    ensures FormatLine(f) == Unparse(LineFields(f, date, zone))
  {
    var q := "\"";
    var s9 := [InQuotes(f.agent)];
    var s8 := [InQuotes(Referer)] + s9;
    var s7 := [Bare(f.bytes)] + s8;
    var s6 := [Bare(f.status)] + s7;
    var s5 := [InQuotes(Request)] + s6;
    var s4 := [Bare(zone + "]")] + s5;
    var s3 := [Bare("[" + date)] + s4;
    var s2 := [Bare(f.user)] + s3;
    var s1 := [Bare("-")] + s2;
    var s0 := [Bare(f.host)] + s1;
    assert s0 == LineFields(f, date, zone);
    var u9 := q + f.agent + q;
    assert Unparse(s9) == u9;
    UnparseCons(InQuotes(Referer), s9);
    var u8 := q + Referer + q + " " + u9;
    UnparseCons(Bare(f.bytes), s8);
    var u7 := f.bytes + " " + u8;
    UnparseCons(Bare(f.status), s7);
    var u6 := f.status + " " + u7;
    UnparseCons(InQuotes(Request), s6);
    var u5 := q + Request + q + " " + u6;
    UnparseCons(Bare(zone + "]"), s5);
    var u4 := zone + "]" + " " + u5;
    UnparseCons(Bare("[" + date), s4);
    var u3 := "[" + date + " " + u4;
    UnparseCons(Bare(f.user), s3);
    var u2 := f.user + " " + u3;
    UnparseCons(Bare("-"), s2);
    var u1 := "-" + " " + u2;
    UnparseCons(Bare(f.host), s1);
    var u0 := f.host + " " + u1;
    assert Unparse(s0) == u0;
    LineLayout(f.host, f.user, date, zone, Request, f.status, f.bytes, Referer, f.agent);
  }

  /** A formatted line reads back into its columns: ten fields, aligned with the
      column names, with the bracketed timestamp split at its one space and the
      request, referer and agent unquoted. Joining the two timestamp columns with a
      space gives back the bracketed timestamp. */
  lemma ReadFormattedLine(f: LogFields, date: string, zone: string)
    requires f.timestamp == date + " " + zone
    requires Plain(f.host) && Plain(f.user) && Plain(date) && Plain(zone)
    requires Plain(f.status) && Plain(f.bytes) && '"' !in f.agent
    ensures ParseLine(FormatLine(f)) == Success(RawLog(
      f.host, "-", f.user, "[" + date, zone + "]",
      Request, f.status, f.bytes, Referer, f.agent))
    ensures var raw := ParseLine(FormatLine(f)).value;
      raw.timestamp + " " + raw.timezone == "[" + f.timestamp + "]"
  {
    FormattedTokens(f, date, zone);
    BracketJoin(date, zone);
  }

  /** The tokens of a formatted line: its field texts, quotes removed. */
  lemma FormattedTokens(f: LogFields, date: string, zone: string)
    requires f.timestamp == date + " " + zone
    requires Plain(f.host) && Plain(f.user) && Plain(date) && Plain(zone)
    requires Plain(f.status) && Plain(f.bytes) && '"' !in f.agent
    ensures Tokenize(FormatLine(f)) ==
      [f.host, "-", f.user, "[" + date, zone + "]", Request, f.status, f.bytes, Referer, f.agent]
  {
    var fs := LineFields(f, date, zone);
    FormatUnparse(f, date, zone);
    LineFieldsReadable(f, date, zone);
    TokenizeUnparse(fs);
    LineTexts(f, date, zone);
  }

  lemma LineTexts(f: LogFields, date: string, zone: string)
    ensures Texts(LineFields(f, date, zone)) ==
      [f.host, "-", f.user, "[" + date, zone + "]", Request, f.status, f.bytes, Referer, f.agent]
  {
  }

  lemma BracketJoin(date: string, zone: string)
    ensures "[" + date + " " + (zone + "]") == "[" + (date + " " + zone) + "]"
  {
  }

  lemma LineFieldsReadable(f: LogFields, date: string, zone: string)
    requires Plain(f.host) && Plain(f.user) && Plain(date) && Plain(zone)
    requires Plain(f.status) && Plain(f.bytes) && '"' !in f.agent
    ensures forall i :: 0 <= i < 10 ==> Readable(LineFields(f, date, zone)[i])
  {
    RequestUnquoted();
    RefererUnquoted();
    assert Plain("[" + date) && Plain(zone + "]");
  }

  lemma RequestUnquoted() ensures '"' !in Request { }
  lemma RefererUnquoted() ensures '"' !in Referer { }
}
