/**
  The packet files: written row by row by the simulator's logger (ns3/scratch/CSVLogger.h) and read back
  whole by the browser (`parsePacketCsv` in frontend/app/page.tsx), on characters.
*/
module Csv {
  import opened Text

  datatype Option<+T> = None | Some(value: T)

  /** A logged packet; times in nanoseconds. */
  datatype Row = Row(id: int, size: int, enqueueTime: int, dequeueTime: int, arriveTime: int)

  // ---------- the printer ----------

  function Header(): string {
    Five("id", "size", "enqueue_time", "dequeue_time", "arrive_time")
  }

  /** Five columns, separated by commas. */
  function Five(a: string, b: string, c: string, d: string, e: string): string {
    a + "," + (b + "," + (c + "," + (d + "," + e)))
  }

  lemma FiveSolid(a: string, b: string, c: string, d: string, e: string)
    requires a != "" && e != ""
    ensures var s := Five(a, b, c, d, e); s != "" && s[0] == a[0] && s[|s| - 1] == e[|e| - 1]
    ensures forall x :: x in Five(a, b, c, d, e) ==> x == ',' || x in a || x in b || x in c || x in d || x in e
  {
  }

  lemma SplitFive(a: string, b: string, c: string, d: string, e: string)
    requires ',' !in a && ',' !in b && ',' !in c && ',' !in d && ',' !in e
    ensures Split(Five(a, b, c, d, e), ',') == [a, b, c, d, e]
  {
    hide Split;
    SplitAt(a, ',', b + "," + (c + "," + (d + "," + e)));
    SplitAt(b, ',', c + "," + (d + "," + e));
    SplitAt(c, ',', d + "," + e);
    SplitAt(d, ',', e);
    SplitWhole(e, ',');
  }

  /** The columns are named in the order in which the values stand on a line. */
  lemma HeaderNamesColumns(row: Row)
    ensures Split(Header(), ',') == ["id", "size", "enqueue_time", "dequeue_time", "arrive_time"]
    ensures Split(Line(row), ',') ==
      [Integer(row.id), Integer(row.size), Integer(row.enqueueTime), Integer(row.dequeueTime), Integer(row.arriveTime)]
  {
    hide Integer, Split, Five;
    LineColumns(row);
    SplitFive("id", "size", "enqueue_time", "dequeue_time", "arrive_time");
  }

  lemma HeaderIsSolid()
    ensures Header() != "" && !IsSpace(Header()[0]) && !IsSpace(Header()[|Header()| - 1]) && '\n' !in Header()
  {
  }

  function Integer(n: int): string {
    if n < 0 then "-" + Decimal(-n) else Decimal(n)
  }

  function Columns(row: Row): seq<string> {
    [Integer(row.id), Integer(row.size), Integer(row.enqueueTime), Integer(row.dequeueTime), Integer(row.arriveTime)]
  }

  /** One line of the file, without its newline. */
  function Line(row: Row): string {
    var c := Columns(row);
    Five(c[0], c[1], c[2], c[3], c[4])
  }

  /** The lines of a file, each ended by a newline. */
  function Lines(rows: seq<Row>): string {
    if rows == [] then "" else Lines(rows[..|rows| - 1]) + Line(rows[|rows| - 1]) + "\n"
  }

  function FileText(rows: seq<Row>): string {
    Header() + "\n" + Lines(rows)
  }

  lemma OneMoreLine(rows: seq<Row>, row: Row)
    ensures FileText([]) == Header() + "\n"
    ensures FileText(rows + [row]) == FileText(rows) + Line(row) + "\n"
  {
    hide Header, Line;
    assert (rows + [row])[..|rows|] == rows;
  }

  function FileName(directory: string, key: string): string {
    directory + "/packets_" + key + ".csv"
  }

  /** The key is what stands between the directory's `/packets_` and `.csv`. */
  lemma FileNameHoldsKey(directory: string, key: string)
    ensures var name := FileName(directory, key);
      && |name| == |directory| + |key| + 13
      && name[..|directory| + 9] == directory + "/packets_"
      && name[|directory| + 9..|name| - 4] == key
      && name[|name| - 4..] == ".csv"
  {
  }

  lemma FileNameInjective(directory: string, a: string, b: string)
    requires FileName(directory, a) == FileName(directory, b)
    ensures a == b
  {
    var (p, q) := (FileName(directory, a), FileName(directory, b));
    var n := |directory| + |"/packets_"|;
    assert p == (directory + "/packets_") + (a + ".csv") && q == (directory + "/packets_") + (b + ".csv");
    assert a == p[n..|p| - 4] && b == q[n..|q| - 4];
  }

  /** The logger: one open stream per key. Opening a stream empties the file of that name; `CloseAll`
      forgets the streams, so logging a key again afterwards starts its file anew. */
  class CsvLogger {
    const directory: string
    var files: set<string>
    var disk: map<string, string>
    /** The rows each file holds. */
    ghost var rows: map<string, seq<Row>>

    /** Every key in `rows` has a file with the header once and then its rows in order. */
    ghost predicate Valid()
      reads this
    {
      && files <= rows.Keys
      && forall key :: key in rows ==> FileName(directory, key) in disk && disk[FileName(directory, key)] == FileText(rows[key])
    }

    constructor (directory: string, disk: map<string, string>)
      ensures Valid() && this.directory == directory && files == {} && rows == map[] && this.disk == disk
    {
      this.directory := directory;
      this.disk := disk;
      files := {};
      rows := map[];
    }

    /** Opens the stream of `key` unless it is open. */
    method GetFile(key: string) returns (isNew: bool)
      modifies this`files, this`disk
      ensures isNew <==> key !in old(files)
      ensures files == old(files) + {key}
      ensures disk == if isNew then old(disk)[FileName(directory, key) := ""] else old(disk)
    {
      isNew := key !in files;
      if isNew {
        disk := disk[FileName(directory, key) := ""];
        files := files + {key};
      }
    }

    method Log(key: string, row: Row)
      requires Valid()
      modifies this
      ensures Valid()
      ensures files == old(files) + {key}
      ensures rows == old(rows)[key := (if key in old(files) then old(rows)[key] else []) + [row]]
      ensures disk.Keys == old(disk).Keys + {FileName(directory, key)}
      ensures forall name :: name in old(disk) && name != FileName(directory, key) ==> disk[name] == old(disk)[name]
    {
      hide Line, Header, FileName, FileText;
      var isNew := GetFile(key);
      var name := FileName(directory, key);
      if isNew {
        disk := disk[name := disk[name] + Header() + "\n"];
      }
      disk := disk[name := disk[name] + Line(row) + "\n"];
      ghost var before := if isNew then [] else old(rows)[key];
      rows := rows[key := before + [row]];
      OneMoreLine(before, row);
      assert disk[name] == FileText(rows[key]);
      forall other | other in rows && other != key
        ensures FileName(directory, other) in disk && disk[FileName(directory, other)] == FileText(rows[other])
      {
        if FileName(directory, other) == name { FileNameInjective(directory, other, key); }
      }
    }

    method CloseAll()
      requires Valid()
      modifies this`files
      ensures Valid() && files == {}
    {
      files := {};
    }
  }

  // ---------- any interleaving of calls ----------

  /** The rows per key after a sequence of calls to a fresh logger. */
  function AfterCalls(calls: seq<(string, Row)>): map<string, seq<Row>> {
    if calls == [] then map[]
    else
      var before := AfterCalls(calls[..|calls| - 1]);
      var (key, row) := calls[|calls| - 1];
      before[key := (if key in before then before[key] else []) + [row]]
  }

  /** The calls for one key, in call order. */
  function RowsFor(calls: seq<(string, Row)>, key: string): seq<Row> {
    if calls == [] then []
    else
      var last := calls[|calls| - 1];
      RowsFor(calls[..|calls| - 1], key) + if last.0 == key then [last.1] else []
  }

  /** Each key's file holds exactly that key's rows, whatever the other links logged in between. */
  lemma {:induction false} KeysAreSeparate(calls: seq<(string, Row)>, key: string)
    ensures key in AfterCalls(calls) <==> RowsFor(calls, key) != []
    ensures key in AfterCalls(calls) ==> AfterCalls(calls)[key] == RowsFor(calls, key)
    decreases |calls|
  {
    if calls != [] {
      KeysAreSeparate(calls[..|calls| - 1], key);
    }
  }

  /** One of the calls goes to the file of this name. */
  ghost predicate LogsTo(directory: string, calls: seq<(string, Row)>, name: string) {
    exists i :: 0 <= i < |calls| && FileName(directory, calls[i].0) == name
  }

  /** Any sequence of calls to a fresh logger: the file of each key holds the header and that key's rows in
      call order, and all other files are as they were. */
  method LogCalls(directory: string, disk: map<string, string>, calls: seq<(string, Row)>) returns (logger: CsvLogger)
    ensures forall key :: RowsFor(calls, key) != [] ==>
      FileName(directory, key) in logger.disk && logger.disk[FileName(directory, key)] == FileText(RowsFor(calls, key))
    ensures forall name :: name in disk && !LogsTo(directory, calls, name) ==>
      name in logger.disk && logger.disk[name] == disk[name]
  {
    hide FileName, FileText, LogsTo;
    logger := new CsvLogger(directory, disk);
    var i := 0;
    while i < |calls|
      invariant 0 <= i <= |calls| && fresh(logger) && logger.Valid() && logger.directory == directory
      invariant logger.rows == AfterCalls(calls[..i]) && logger.files == logger.rows.Keys
      invariant forall name :: name in disk && !LogsTo(directory, calls[..i], name) ==>
        name in logger.disk && logger.disk[name] == disk[name]
    {
      assert calls[..i + 1][..i] == calls[..i];
      logger.Log(calls[i].0, calls[i].1);
      forall name | name in disk && !LogsTo(directory, calls[..i + 1], name)
        ensures name in logger.disk && logger.disk[name] == disk[name]
      {
        OneMoreCall(directory, calls, i, name);
      }
      i := i + 1;
    }
    assert calls[..i] == calls;
    forall key | RowsFor(calls, key) != []
      ensures FileName(directory, key) in logger.disk && logger.disk[FileName(directory, key)] == FileText(RowsFor(calls, key))
    {
      KeysAreSeparate(calls, key);
    }
  }

  lemma OneMoreCall(directory: string, calls: seq<(string, Row)>, i: nat, name: string)
    requires i < |calls|
    ensures LogsTo(directory, calls[..i + 1], name) <==>
      LogsTo(directory, calls[..i], name) || FileName(directory, calls[i].0) == name
  {
    hide FileName;
    assert calls[..i + 1][i] == calls[i];
    assert forall j :: 0 <= j < i ==> calls[..i + 1][j] == calls[..i][j];
  }

  // ---------- the parser ----------

  /** What JavaScript's `trim` removes. */
  predicate IsSpace(c: char) {
    || '\t' <= c <= '\r' || c == ' ' || c == '\U{00A0}' || c == '\U{1680}' || '\U{2000}' <= c <= '\U{200A}'
    || c == '\U{2028}' || c == '\U{2029}' || c == '\U{202F}' || c == '\U{205F}' || c == '\U{3000}' || c == '\U{FEFF}'
  }

  function TrimStart(s: string): string {
    if s != "" && IsSpace(s[0]) then TrimStart(s[1..]) else s
  }

  function TrimEnd(s: string): string {
    if s != "" && IsSpace(s[|s| - 1]) then TrimEnd(s[..|s| - 1]) else s
  }

  function Trim(s: string): string {
    TrimEnd(TrimStart(s))
  }

  /** The number a column stands for, None for NaN: an optionally signed run of digits, or 0 for a blank. */
  function JsNumber(column: string): Option<int> {
    var s := Trim(column);
    if s == "" then Some(0)
    else if IsNumeral(s) then Some(Value(s))
    else if s[0] == '-' && IsNumeral(s[1..]) then Some(-(Value(s[1..]) as int))
    else if s[0] == '+' && IsNumeral(s[1..]) then Some(Value(s[1..]))
    else None
  }

  /** A packet as the browser holds it; times in seconds. */
  datatype PacketRow = PacketRow(id: int, size: int, enqueueTime: real, dequeueTime: real, arriveTime: real)

  const NANOS_PER_SECOND := 1000000000.0

  function Seconds(nanos: int): real {
    nanos as real / NANOS_PER_SECOND
  }

  function ToPacket(row: Row): PacketRow {
    PacketRow(row.id, row.size, Seconds(row.enqueueTime), Seconds(row.dequeueTime), Seconds(row.arriveTime))
  }

  /** The packet on a line; None when the line is blank, a column is missing or a column is not a number. */
  function ParseLine(line: string): Option<PacketRow> {
    var p := Split(line, ',');
    if Trim(line) == "" || |p| < 5 then None
    else
      match (JsNumber(p[0]), JsNumber(p[1]), JsNumber(p[2]), JsNumber(p[3]), JsNumber(p[4]))
      case (Some(id), Some(size), Some(e), Some(d), Some(a)) => Some(ToPacket(Row(id, size, e, d, a)))
      case _ => None
  }

  /** The packets on a list of lines. */
  function ParseLines(lines: seq<string>): seq<PacketRow> {
    if lines == [] then []
    else
      ParseLines(lines[..|lines| - 1]) +
      match ParseLine(lines[|lines| - 1]) case Some(packet) => [packet] case None => []
  }

  method ParsePacketCsv(csvText: string) returns (packets: seq<PacketRow>)
    ensures packets == ParseLines(Split(Trim(csvText), '\n')[1..])
  {
    hide Trim, Split, JsNumber, Seconds;
    var rows := Split(Trim(csvText), '\n');
    packets := [];
    if |rows| <= 1 {
      return;
    }
    var i := 1;
    while i < |rows|
      invariant 1 <= i <= |rows| && packets == ParseLines(rows[1..i])
    {
      assert rows[1..i + 1][..i - 1] == rows[1..i];
      var row := rows[i];
      i := i + 1;
      if Trim(row) == "" {
        continue;
      }
      var p := Split(row, ',');
      if |p| < 5 {
        continue;
      }
      var (id, size, e, d, a) := (JsNumber(p[0]), JsNumber(p[1]), JsNumber(p[2]), JsNumber(p[3]), JsNumber(p[4]));
      if id.None? || size.None? || e.None? || d.None? || a.None? {
        continue;
      }
      packets := packets + [PacketRow(id.value, size.value, Seconds(e.value), Seconds(d.value), Seconds(a.value))];
    }
    assert rows[1..i] == rows[1..];
  }

  // ---------- the round trip ----------

  predicate Plain(s: string) {
    forall i :: 0 <= i < |s| ==> IsDigit(s[i]) || s[i] == '-'
  }

  lemma PlainIsSolid(s: string)
    requires Plain(s)
    ensures Trim(s) == s
  {
  }

  lemma IntegerRoundTrip(n: int)
    ensures Integer(n) != "" && Plain(Integer(n)) && JsNumber(Integer(n)) == Some(n)
  {
    hide Decimal, Value, IsSpace, Trim;
    DecimalRoundTrip(if n < 0 then -n else n);
    PlainIsSolid(Integer(n));
    if n < 0 {
      assert Integer(n)[1..] == Decimal(-n);
    }
  }

  lemma IntegerIsPlain(n: int)
    ensures Integer(n) != "" && Plain(Integer(n)) && ',' !in Integer(n)
  {
    hide JsNumber, Integer;
    IntegerRoundTrip(n);
  }

  lemma LineColumns(row: Row)
    ensures Split(Line(row), ',') == Columns(row)
    ensures forall i :: 0 <= i < 5 ==> Columns(row)[i] != "" && Plain(Columns(row)[i])
  {
    hide Integer, Split, Five;
    IntegerIsPlain(row.id);
    IntegerIsPlain(row.size);
    IntegerIsPlain(row.enqueueTime);
    IntegerIsPlain(row.dequeueTime);
    IntegerIsPlain(row.arriveTime);
    var c := Columns(row);
    SplitFive(c[0], c[1], c[2], c[3], c[4]);
  }

  /** A line neither is blank, nor starts or ends with a space, nor contains a newline. */
  lemma LineIsSolid(row: Row)
    ensures Line(row) != "" && !IsSpace(Line(row)[0]) && !IsSpace(Line(row)[|Line(row)| - 1]) && '\n' !in Line(row)
    ensures Trim(Line(row)) == Line(row)
  {
    hide Five, Integer, Split;
    LineColumns(row);
    var c := Columns(row);
    FiveSolid(c[0], c[1], c[2], c[3], c[4]);
  }

  /** A packet's times are the row's nanoseconds in seconds. */
  lemma PacketTimes(row: Row)
    ensures var p := ToPacket(row);
      && p.id == row.id && p.size == row.size
      && p.enqueueTime * 1000000000.0 == row.enqueueTime as real
      && p.dequeueTime * 1000000000.0 == row.dequeueTime as real
      && p.arriveTime * 1000000000.0 == row.arriveTime as real
  {
  }

  lemma TrimSolid(s: string)
    requires s != "" && !IsSpace(s[0]) && !IsSpace(s[|s| - 1])
    ensures Trim(s) == s
  {
  }

  lemma TrimPadded(s: string, c: char)
    requires s != "" && !IsSpace(s[0]) && !IsSpace(s[|s| - 1]) && IsSpace(c)
    ensures Trim([c] + s + [c]) == s
  {
    hide IsSpace;
    var padded := [c] + s + [c];
    assert padded[1..] == s + [c];
    assert TrimStart(padded) == TrimStart(s + [c]) == s + [c];
    assert (s + [c])[..|s|] == s && (s + [c])[|s|] == c;
    assert TrimEnd(s + [c]) == TrimEnd(s) == s;
  }

  /** The forms of a number: a numeral, a sign before it, spaces around it; and nothing at all for 0. */
  lemma NumberForms(s: string, c: char)
    requires IsNumeral(s) && IsSpace(c)
    ensures JsNumber(s) == JsNumber("+" + s) == JsNumber([c] + s + [c]) == Some(Value(s))
    ensures JsNumber("-" + s) == Some(-(Value(s) as int))
    ensures JsNumber("") == JsNumber([c]) == Some(0)
  {
    hide Value, Trim;
    assert Trim("") == "" && Trim([c]) == "" by { TrimNothing(c); }
    assert IsDigit(s[0]) && IsDigit(s[|s| - 1]);
    TrimSolid(s);
    TrimSolid("+" + s);
    TrimSolid("-" + s);
    TrimPadded(s, c);
    assert ("+" + s)[1..] == s && ("-" + s)[1..] == s;
  }

  lemma TrimNothing(c: char)
    requires IsSpace(c)
    ensures Trim("") == "" && Trim([c]) == ""
  {
    assert [c][1..] == "";
  }

  /** Which lines are left out. */
  lemma LeftOut(line: string)
    ensures ParseLine(line).None? <==>
      Trim(line) == "" || |Split(line, ',')| < 5 || exists i :: 0 <= i < 5 && JsNumber(Split(line, ',')[i]).None?
  {
    hide JsNumber, Split, Trim, Seconds;
  }

  lemma LineParses(row: Row)
    ensures ParseLine(Line(row)) == Some(ToPacket(row))
  {
    LineColumns(row);
    LineIsSolid(row);
    IntegerRoundTrip(row.id);
    IntegerRoundTrip(row.size);
    IntegerRoundTrip(row.enqueueTime);
    IntegerRoundTrip(row.dequeueTime);
    IntegerRoundTrip(row.arriveTime);
  }

  function LinesOf(rows: seq<Row>): seq<string> {
    seq(|rows|, i requires 0 <= i < |rows| => Line(rows[i]))
  }

  function Packets(rows: seq<Row>): seq<PacketRow> {
    seq(|rows|, i requires 0 <= i < |rows| => ToPacket(rows[i]))
  }

  lemma {:induction false} LinesParse(rows: seq<Row>)
    ensures ParseLines(LinesOf(rows)) == Packets(rows)
    decreases |rows|
  {
    hide ParseLine, Line, ToPacket;
    if rows != [] {
      var front := rows[..|rows| - 1];
      LinesParse(front);
      assert LinesOf(rows)[..|rows| - 1] == LinesOf(front);
      LineParses(rows[|rows| - 1]);
    }
  }

  /** The text of the lines after `prefix`, without the last newline. */
  function Joined(prefix: string, rows: seq<Row>): string {
    if rows == [] then prefix else Joined(prefix, rows[..|rows| - 1]) + "\n" + Line(rows[|rows| - 1])
  }

  lemma {:induction false} JoinedIsText(prefix: string, rows: seq<Row>)
    ensures prefix + "\n" + Lines(rows) == Joined(prefix, rows) + "\n"
    decreases |rows|
  {
    hide Line;
    if rows != [] {
      JoinedIsText(prefix, rows[..|rows| - 1]);
      var last := Line(rows[|rows| - 1]);
      assert prefix + "\n" + Lines(rows) == (prefix + "\n" + Lines(rows[..|rows| - 1])) + last + "\n";
    }
  }

  lemma {:induction false} JoinedEnds(rows: seq<Row>)
    ensures var s := Joined(Header(), rows); s != "" && !IsSpace(s[0]) && !IsSpace(s[|s| - 1])
    decreases |rows|
  {
    hide Header, Line, IsSpace;
    HeaderIsSolid();
    if rows != [] {
      JoinedEnds(rows[..|rows| - 1]);
      LineIsSolid(rows[|rows| - 1]);
    }
  }

  lemma TrimNewline(s: string)
    requires s != "" && !IsSpace(s[0]) && !IsSpace(s[|s| - 1])
    ensures Trim(s + "\n") == s
  {
    var t := s + "\n";
    assert TrimStart(t) == t;
    assert t[..|t| - 1] == s;
    assert TrimEnd(s) == s;
  }

  /** Appending a line to a text appends it to the pieces. */
  lemma {:induction false} SplitLast(a: string, sep: char, b: string)
    requires sep !in b
    ensures Split(a + [sep] + b, sep) == Split(a, sep) + [b]
    decreases |a|
  {
    var s := a + [sep] + b;
    if a == "" {
      assert s[1..] == b;
      SplitWhole(b, sep);
    } else {
      assert s[1..] == a[1..] + [sep] + b;
      SplitLast(a[1..], sep, b);
    }
  }

  lemma {:induction false} JoinedSplits(rows: seq<Row>)
    ensures Split(Joined(Header(), rows), '\n') == [Header()] + LinesOf(rows)
    decreases |rows|
  {
    hide Header, Line, IsSpace, Split;
    HeaderIsSolid();
    if rows == [] {
      SplitWhole(Header(), '\n');
    } else {
      var front := rows[..|rows| - 1];
      JoinedSplits(front);
      LineIsSolid(rows[|rows| - 1]);
      SplitLast(Joined(Header(), front), '\n', Line(rows[|rows| - 1]));
      assert LinesOf(rows) == LinesOf(front) + [Line(rows[|rows| - 1])];
    }
  }

  /** A file reads back as exactly its rows, in order, with times scaled to seconds. */
  lemma CsvRoundTrip(rows: seq<Row>)
    ensures ParseLines(Split(Trim(FileText(rows)), '\n')[1..]) == Packets(rows)
  {
    JoinedIsText(Header(), rows);
    JoinedEnds(rows);
    TrimNewline(Joined(Header(), rows));
    JoinedSplits(rows);
    LinesParse(rows);
    assert ([Header()] + LinesOf(rows))[1..] == LinesOf(rows);
  }
}
