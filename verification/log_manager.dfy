/** Execution logs: one text file per day holding one `|`-separated line
    per entry, a reader that parses a day's file back into entries, the
    list of days that have a file, and the fan-out of each new entry to the
    queues of the connected live-log clients. */
module Logs {
  import opened Records
  import opened Strings

  /** A log entry. The timestamp is kept as the text the line holds (its
      ISO form to the millisecond). */
  datatype LogEntry = LogEntry(timestamp: string, scriptId: int, scriptName: string, level: string, message: string)

  const Separator := '|'

  /** The capacity the live-log endpoints give each client queue. */
  const ClientQueueSize := 100

  /** `LogEntry.to_line`: timestamp, script name, level and message joined
      by `|`; the script id is not written. */
  function ToLine(e: LogEntry): (line: string)
    ensures line == Join([e.timestamp, e.scriptName, e.level, e.message], Separator)
  {
    JoinCons(e.level, [e.message], Separator);
    assert [e.level] + [e.message] == [e.level, e.message];
    JoinCons(e.scriptName, [e.level, e.message], Separator);
    assert [e.scriptName] + [e.level, e.message] == [e.scriptName, e.level, e.message];
    JoinCons(e.timestamp, [e.scriptName, e.level, e.message], Separator);
    assert [e.timestamp] + [e.scriptName, e.level, e.message] == [e.timestamp, e.scriptName, e.level, e.message];
    e.timestamp + [Separator] + (e.scriptName + [Separator] + (e.level + [Separator] + e.message))
  }

  /** `LogEntry.from_line`: strip the line, split it at the first three
      `|`, and refuse it unless that gives four parts whose first is a
      timestamp `stampOk` accepts (`datetime.fromisoformat`). The script id
      comes back as 0. */
  function FromLine(line: string, stampOk: string -> bool): (r: Option<LogEntry>)
    ensures r.Some? ==> r.value.scriptId == 0 && stampOk(r.value.timestamp)
  {
    var parts := Split(Strip(line), Separator, 3);
    if |parts| != 4 || !stampOk(parts[0]) then None
    else Some(LogEntry(parts[0], 0, parts[1], parts[2], parts[3]))
  }

  /** Text with at least three `|` splits into four fields whose join is
      the text, the first three without `|`; with fewer it does not. */
  lemma FourFields(s: string)
    ensures |Split(s, Separator, 3)| == 4 <==> Count(s, Separator) >= 3
    ensures |Split(s, Separator, 3)| == 4 ==>
      var p := Split(s, Separator, 3);
      && Join([p[0], p[1], p[2], p[3]], Separator) == s
      && Free(p[0], Separator) && Free(p[1], Separator) && Free(p[2], Separator)
  {
    var p := Split(s, Separator, 3);
    SplitFull(s, Separator, 3);
    if |p| == 4 {
      JoinSplit(s, Separator, 3);
      SplitPartsFree(s, Separator, 3);
      assert p == [p[0], p[1], p[2], p[3]];
    }
  }

  /** A line parses iff its stripped text has at least three `|` and a
      timestamp before the first; what it parses to is the stripped line
      cut into fields, the first three of which hold no `|`. */
  lemma FromLineAccepts(line: string, stampOk: string -> bool)
    ensures FromLine(line, stampOk).Some? <==>
      Count(Strip(line), Separator) >= 3 && stampOk(Split(Strip(line), Separator, 3)[0])
    ensures var r := FromLine(line, stampOk);
      r.Some? ==>
        && Join([r.value.timestamp, r.value.scriptName, r.value.level, r.value.message], Separator) == Strip(line)
        && Free(r.value.timestamp, Separator) && Free(r.value.scriptName, Separator) && Free(r.value.level, Separator)
  {
    FourFields(Strip(line));
  }

  /** The conditions under which a written entry reads back: no `|` in the
      timestamp, the script name or the level, a timestamp the parser takes
      and no whitespace at either end of the line. A `|` in the message is
      fine. */
  predicate Restorable(e: LogEntry, stampOk: string -> bool)
  {
    && Free(e.timestamp, Separator) && Free(e.scriptName, Separator) && Free(e.level, Separator)
    && stampOk(e.timestamp)
    && (|e.timestamp| == 0 || !IsSpace(e.timestamp[0]))
    && (|e.message| == 0 || !IsSpace(e.message[|e.message| - 1]))
  }

  /** The line of a restorable entry has no whitespace at either end. */
  lemma LineTrimmed(e: LogEntry, stampOk: string -> bool)
    requires Restorable(e, stampOk)
    ensures Trimmed(ToLine(e))
  {
    var line := ToLine(e);
    var tail := e.scriptName + [Separator] + (e.level + [Separator] + e.message);
    var last := e.level + [Separator] + e.message;
    assert line[0] == if |e.timestamp| == 0 then Separator else e.timestamp[0];
    assert line[|line| - 1] == tail[|tail| - 1] == last[|last| - 1];
    assert last[|last| - 1] == if |e.message| == 0 then Separator else e.message[|e.message| - 1];
  }

  /** Four fields, the first three without `|`, split back out of their
      join. */
  lemma SplitFields(a: string, b: string, c: string, d: string)
    requires Free(a, Separator) && Free(b, Separator) && Free(c, Separator)
    ensures Split(Join([a, b, c, d], Separator), Separator, 3) == [a, b, c, d]
  {
    var parts := [a, b, c, d];
    forall k | 0 <= k < |parts| - 1 ensures Free(parts[k], Separator) {
      if k == 0 {
        assert parts[k] == a;
      } else if k == 1 {
        assert parts[k] == b;
      } else {
        assert parts[k] == c;
      }
    }
    SplitJoin(parts, Separator);
  }

  /** Round trip: parsing the line of an entry gives the entry back, with
      script id 0. */
  lemma LineRoundTrip(e: LogEntry, stampOk: string -> bool)
    requires Restorable(e, stampOk)
    ensures FromLine(ToLine(e), stampOk) == Some(e.(scriptId := 0))
  {
    var line := ToLine(e);
    LineTrimmed(e, stampOk);
    StripTrimmed(line);
    SplitFields(e.timestamp, e.scriptName, e.level, e.message);
    assert Split(Strip(line), Separator, 3) == [e.timestamp, e.scriptName, e.level, e.message];
  }

  /** A line with fewer than three `|` once stripped is refused. */
  lemma ShortLineRefused(line: string, stampOk: string -> bool)
    requires Count(Strip(line), Separator) < 3
    ensures FromLine(line, stampOk).None?
  {
    FromLineAccepts(line, stampOk);
  }

  predicate IsBreak(c: char) { c == '\n' || c == '\r' }

  /** The position of the first line break in `s`, or `|s|`. */
  function BreakAt(s: string): (i: nat)
    ensures i <= |s|
    ensures forall j :: 0 <= j < i ==> !IsBreak(s[j])
    ensures i < |s| ==> IsBreak(s[i])
  {
    if |s| == 0 || IsBreak(s[0]) then 0 else 1 + BreakAt(s[1..])
  }

  /** The lines a reader gets back from `s + "\n"` written to the file:
      text files are read with universal newlines, so `\n`, `\r` and `\r\n`
      each end a line, and the terminator is not part of the line. */
  function Lines(s: string): (lines: seq<string>)
    ensures |lines| >= 1
    decreases |s|
  {
    var i := BreakAt(s);
    if i == |s| then [s]
    else if s[i] == '\r' && i + 1 == |s| then [s[..i]]
    else if s[i] == '\r' && s[i + 1] == '\n' then [s[..i]] + Lines(s[i + 2..])
    else [s[..i]] + Lines(s[i + 1..])
  }

  /** Text with no line break is read back as exactly one line. */
  lemma OneLine(s: string)
    requires forall j :: 0 <= j < |s| ==> !IsBreak(s[j])
    ensures Lines(s) == [s]
  {
  }

  /** The line of an entry whose fields hold no line break is one line. */
  lemma EntryIsOneLine(e: LogEntry)
    requires forall j :: 0 <= j < |e.timestamp| ==> !IsBreak(e.timestamp[j])
    requires forall j :: 0 <= j < |e.scriptName| ==> !IsBreak(e.scriptName[j])
    requires forall j :: 0 <= j < |e.level| ==> !IsBreak(e.level[j])
    requires forall j :: 0 <= j < |e.message| ==> !IsBreak(e.message[j])
    ensures Lines(ToLine(e)) == [ToLine(e)]
  {
    var line := ToLine(e);
    OneLine(line);
  }

  /** What `read_logs` keeps of one line. */
  function Kept(line: string, scriptName: Option<string>, stampOk: string -> bool): seq<LogEntry>
  {
    var e := FromLine(line, stampOk);
    if e.Some? && (scriptName.None? || e.value.scriptName == scriptName.value) then [e.value] else []
  }

  /** The entries `read_logs` returns for the lines of a file, in file
      order. */
  function Parsed(lines: seq<string>, scriptName: Option<string>, stampOk: string -> bool): seq<LogEntry>
  {
    if |lines| == 0 then []
    else Parsed(lines[..|lines| - 1], scriptName, stampOk) + Kept(lines[|lines| - 1], scriptName, stampOk)
  }

  /** Reading distributes over the concatenation of files. */
  lemma {:induction false} ParsedAppend(a: seq<string>, b: seq<string>, scriptName: Option<string>, stampOk: string -> bool)
    ensures Parsed(a + b, scriptName, stampOk) == Parsed(a, scriptName, stampOk) + Parsed(b, scriptName, stampOk)
    decreases |b|
  {
    if |b| > 0 {
      assert (a + b)[..|a + b| - 1] == a + b[..|b| - 1];
      ParsedAppend(a, b[..|b| - 1], scriptName, stampOk);
    } else {
      assert a + b == a;
    }
  }

  /** Every entry read parses from some line of the file and passes the
      name filter; malformed lines contribute nothing. */
  lemma {:induction false} ParsedEntriesCome(lines: seq<string>, scriptName: Option<string>, stampOk: string -> bool)
    ensures forall e :: e in Parsed(lines, scriptName, stampOk) ==>
      e.scriptId == 0 && (scriptName.None? || e.scriptName == scriptName.value)
      && exists k :: 0 <= k < |lines| && FromLine(lines[k], stampOk) == Some(e)
    ensures |Parsed(lines, scriptName, stampOk)| <= |lines|
  {
    if |lines| > 0 {
      var init := lines[..|lines| - 1];
      ParsedEntriesCome(init, scriptName, stampOk);
      forall e | e in Parsed(lines, scriptName, stampOk)
        ensures exists k :: 0 <= k < |lines| && FromLine(lines[k], stampOk) == Some(e)
      {
        if e in Parsed(init, scriptName, stampOk) {
          var k :| 0 <= k < |init| && FromLine(init[k], stampOk) == Some(e);
          assert lines[k] == init[k];
        } else {
          assert FromLine(lines[|lines| - 1], stampOk) == Some(e);
        }
      }
    }
  }

  /** Writing an entry and reading the day back: the entry comes out last,
      with script id 0, when it passes the name filter. */
  lemma WriteThenRead(lines: seq<string>, e: LogEntry, scriptName: Option<string>, stampOk: string -> bool)
    requires Restorable(e, stampOk)
    requires forall j :: 0 <= j < |e.timestamp| ==> !IsBreak(e.timestamp[j])
    requires forall j :: 0 <= j < |e.scriptName| ==> !IsBreak(e.scriptName[j])
    requires forall j :: 0 <= j < |e.level| ==> !IsBreak(e.level[j])
    requires forall j :: 0 <= j < |e.message| ==> !IsBreak(e.message[j])
    ensures Parsed(lines + Lines(ToLine(e)), scriptName, stampOk) ==
      Parsed(lines, scriptName, stampOk)
      + (if scriptName.None? || scriptName.value == e.scriptName then [e.(scriptId := 0)] else [])
  {
    EntryIsOneLine(e);
    LineRoundTrip(e, stampOk);
    ParsedAppend(lines, [ToLine(e)], scriptName, stampOk);
    assert [ToLine(e)][..0] == [];
  }

  /** `_get_log_file`: the file of the given day, or of today when no day is
      given, named `<date>.log` (days as their ISO text). */
  function LogFileName(logDate: Option<string>, today: string): (name: string)
    ensures IsLogFile(name)
    ensures name[..|name| - 4] == if logDate.Some? then logDate.value else today
  {
    var day := if logDate.Some? then logDate.value else today;
    assert (day + ".log")[..|day|] == day;
    day + ".log"
  }

  /** A name the `*.log` pattern matches. */
  predicate IsLogFile(name: string)
  {
    |name| >= 4 && name[|name| - 4..] == ".log"
  }

  /** The stem of a `.log` name: the name without its suffix, except that
      a name that is only `.log` has no suffix. */
  function Stem(name: string): string
    requires IsLogFile(name)
  {
    if name == ".log" then name else name[..|name| - 4]
  }

  /** A day's file is a `.log` file whose stem is the day that was asked
      for, or today's. */
  lemma LogFileNameStem(logDate: Option<string>, today: string)
    requires logDate.Some? ==> |logDate.value| > 0
    requires |today| > 0
    ensures IsLogFile(LogFileName(logDate, today))
    ensures Stem(LogFileName(logDate, today)) == if logDate.Some? then logDate.value else today
  {
    var d := if logDate.Some? then logDate.value else today;
    assert (d + ".log")[..|d|] == d;
  }

  /** The days of a directory listing, in listing order: the `.log` names
      whose stem the date parser accepts. */
  function DatesIn(listing: seq<string>, parseDate: string -> Option<int>): seq<int>
  {
    if |listing| == 0 then []
    else
      var name := listing[|listing| - 1];
      DatesIn(listing[..|listing| - 1], parseDate)
      + (if IsLogFile(name) && parseDate(Stem(name)).Some? then [parseDate(Stem(name)).value] else [])
  }

  /** A day is listed exactly when some `.log` name in the listing parses
      to it. */
  lemma {:induction false} DatesInMembers(listing: seq<string>, parseDate: string -> Option<int>, d: int)
    ensures d in DatesIn(listing, parseDate) <==>
      exists k :: 0 <= k < |listing| && IsLogFile(listing[k]) && parseDate(Stem(listing[k])) == Some(d)
  {
    if |listing| > 0 {
      var init := listing[..|listing| - 1];
      DatesInMembers(init, parseDate, d);
      if exists k :: 0 <= k < |listing| && IsLogFile(listing[k]) && parseDate(Stem(listing[k])) == Some(d) {
        var k :| 0 <= k < |listing| && IsLogFile(listing[k]) && parseDate(Stem(listing[k])) == Some(d);
        if k < |init| {
          assert init[k] == listing[k];
        }
      }
      if exists k :: 0 <= k < |init| && IsLogFile(init[k]) && parseDate(Stem(init[k])) == Some(d) {
        var k :| 0 <= k < |init| && IsLogFile(init[k]) && parseDate(Stem(init[k])) == Some(d);
        assert listing[k] == init[k];
      }
    }
  }

  predicate Descending(s: seq<int>)
  {
    forall j, k :: 0 <= j < k < |s| ==> s[j] >= s[k]
  }

  /** Insert into a list that is newest first. */
  function InsertDescending(s: seq<int>, x: int): (r: seq<int>)
    requires Descending(s)
    ensures Descending(r)
    ensures multiset(r) == multiset(s) + multiset{x}
  {
    if |s| == 0 then [x]
    else if x >= s[0] then [x] + s
    else
      var rest := InsertDescending(s[1..], x);
      assert s == [s[0]] + s[1..];
      HeadBounds(s[0], s[1..], x, rest);
      [s[0]] + rest
  }

  /** `[h] + rest` is newest first when `h` is at least every element of
      `rest`. */
  lemma HeadBounds(h: int, tail: seq<int>, x: int, rest: seq<int>)
    requires Descending([h] + tail) && x < h
    requires Descending(rest) && multiset(rest) == multiset(tail) + multiset{x}
    ensures Descending([h] + rest)
  {
    forall k | 0 <= k < |rest| ensures rest[k] <= h {
      var y := rest[k];
      assert y in multiset(rest);
      if y != x {
        assert y in multiset(tail);
        assert y in tail;
        var j :| 0 <= j < |tail| && tail[j] == y;
        assert ([h] + tail)[0] == h && ([h] + tail)[j + 1] == y;
      }
    }
    var r := [h] + rest;
    forall j, k | 0 <= j < k < |r| ensures r[j] >= r[k] {
      if j > 0 {
        assert r[j] == rest[j - 1] && r[k] == rest[k - 1];
      } else {
        assert r[k] == rest[k - 1];
      }
    }
  }

  /** `sorted(dates, reverse=True)` */
  function SortDescending(s: seq<int>): (r: seq<int>)
    ensures Descending(r)
    ensures multiset(r) == multiset(s)
  {
    if |s| == 0 then []
    else
      assert s == s[..|s| - 1] + [s[|s| - 1]];
      InsertDescending(SortDescending(s[..|s| - 1]), s[|s| - 1])
  }

  /** The queue of one live-log client (`asyncio.Queue`). A `maxsize` of 0
      or less means unbounded. */
  class ClientQueue {
    var items: seq<LogEntry>
    const maxsize: int

    predicate Full()
      reads this
    {
      maxsize > 0 && |items| >= maxsize
    }

    constructor (maxsize: int)
      ensures this.maxsize == maxsize && items == []
    {
      this.maxsize := maxsize;
      items := [];
    }

    /** `put_nowait`: refused (`QueueFull`) when the queue is full. */
    method PutNoWait(e: LogEntry) returns (accepted: bool)
      modifies this
      ensures accepted <==> !old(Full())
      ensures items == if accepted then old(items) + [e] else old(items)
    {
      if Full() {
        return false;
      }
      items := items + [e];
      accepted := true;
    }
  }

  /** The log manager: the files of the log directory, by name, as lines,
      and the set of registered client queues. */
  class LogManager {
    var files: map<string, seq<string>>
    var clients: seq<ClientQueue>

    /** The client queues form a set: none is registered twice. */
    ghost predicate Valid()
      reads this
    {
      forall j, k :: 0 <= j < k < |clients| ==> clients[j] != clients[k]
    }

    constructor ()
      ensures Valid() && files == map[] && clients == []
    {
      files := map[];
      clients := [];
    }

    /** `register_client`: adding a queue already registered changes
        nothing. */
    method RegisterClient(q: ClientQueue)
      requires Valid()
      modifies this
      ensures Valid() && files == old(files)
      ensures forall c :: c in clients <==> c in old(clients) || c == q
    {
      if q !in clients {
        clients := clients + [q];
      }
    }

    /** `unregister_client`: discarding an unknown queue does nothing. */
    method UnregisterClient(q: ClientQueue)
      requires Valid()
      modifies this
      ensures Valid() && files == old(files)
      ensures forall c :: c in clients <==> c in old(clients) && c != q
    {
      var kept: seq<ClientQueue> := [];
      for i := 0 to |clients|
        invariant Valid()
        invariant forall c :: c in kept <==> c in clients[..i] && c != q
        invariant forall j, k :: 0 <= j < k < |kept| ==> kept[j] != kept[k]
      {
        if clients[i] != q {
          assert clients[i] !in clients[..i];
          kept := kept + [clients[i]];
        }
      }
      assert clients[..|clients|] == clients;
      clients := kept;
    }

    /** `broadcast`: offer the entry once to every registered queue; a full
        queue is skipped and keeps what it had. */
    method Broadcast(e: LogEntry)
      requires Valid()
      modifies clients
      ensures forall k :: 0 <= k < |clients| ==>
        clients[k].items == if old(clients[k].Full()) then old(clients[k].items) else old(clients[k].items) + [e]
    {
      for i := 0 to |clients|
        invariant forall k :: 0 <= k < i ==>
          clients[k].items == if old(clients[k].Full()) then old(clients[k].items) else old(clients[k].items) + [e]
        invariant forall k :: i <= k < |clients| ==> clients[k].items == old(clients[k].items)
      {
        var _ := clients[i].PutNoWait(e);
      }
    }

    /** `write`: append the entry's line to today's file (creating it) and
        broadcast the entry. `stamp` is the current UTC time as text and
        `today` the local date. */
    method Write(scriptId: int, scriptName: string, level: string, message: string, stamp: string, today: string)
      requires Valid()
      modifies this, clients
      ensures Valid() && clients == old(clients)
      ensures var e := LogEntry(stamp, scriptId, scriptName, level, message);
        var name := LogFileName(None, today);
        && files == old(files)[name := (if name in old(files) then old(files)[name] else []) + Lines(ToLine(e))]
        && forall k :: 0 <= k < |clients| ==>
             clients[k].items == if old(clients[k].Full()) then old(clients[k].items) else old(clients[k].items) + [e]
    {
      var e := LogEntry(stamp, scriptId, scriptName, level, message);
      var name := LogFileName(None, today);
      var lines := if name in files then files[name] else [];
      files := files[name := lines + Lines(ToLine(e))];
      Broadcast(e);
    }

    /** `read_logs`: the parsed entries of the day's file in file order,
        skipping malformed lines and, given a name, entries of other
        scripts; nothing when the file does not exist. */
    method ReadLogs(logDate: Option<string>, today: string, scriptName: Option<string>, stampOk: string -> bool)
      returns (entries: seq<LogEntry>)
      ensures var name := LogFileName(logDate, today);
        entries == if name in files then Parsed(files[name], scriptName, stampOk) else []
    {
      var name := LogFileName(logDate, today);
      if name !in files {
        return [];
      }
      var lines := files[name];
      entries := [];
      for i := 0 to |lines|
        invariant entries == Parsed(lines[..i], scriptName, stampOk)
      {
        assert lines[..i + 1][..i] == lines[..i];
        var e := FromLine(lines[i], stampOk);
        if e.Some? && (scriptName.None? || e.value.scriptName == scriptName.value) {
          entries := entries + [e.value];
        }
      }
      assert lines[..|lines|] == lines;
    }

    /** `get_available_dates`: the days of the `.log` files whose stem is a
        date, newest first. `listing` is the directory's names in the order
        the directory yields them. */
    method GetAvailableDates(listing: seq<string>, parseDate: string -> Option<int>) returns (dates: seq<int>)
      requires forall n :: n in listing <==> n in files
      ensures Descending(dates)
      ensures multiset(dates) == multiset(DatesIn(listing, parseDate))
      ensures forall d :: d in dates <==> exists n :: n in files && IsLogFile(n) && parseDate(Stem(n)) == Some(d)
    {
      var found: seq<int> := [];
      for i := 0 to |listing|
        invariant found == DatesIn(listing[..i], parseDate)
      {
        assert listing[..i + 1][..i] == listing[..i];
        var name := listing[i];
        if IsLogFile(name) {
          var d := parseDate(Stem(name));
          if d.Some? {
            found := found + [d.value];
          }
        }
      }
      assert listing[..|listing|] == listing;
      dates := SortDescending(found);
      forall d ensures d in dates <==> exists n :: n in files && IsLogFile(n) && parseDate(Stem(n)) == Some(d) {
        assert d in dates <==> d in multiset(found);
        DatesInMembers(listing, parseDate, d);
        if d in found {
          var k :| 0 <= k < |listing| && IsLogFile(listing[k]) && parseDate(Stem(listing[k])) == Some(d);
          assert listing[k] in files;
        }
        if exists n :: n in files && IsLogFile(n) && parseDate(Stem(n)) == Some(d) {
          var n :| n in files && IsLogFile(n) && parseDate(Stem(n)) == Some(d);
          assert n in listing;
          var k :| 0 <= k < |listing| && listing[k] == n;
        }
      }
    }
  }
}
