/** The walk over cgroup.procs at session teardown: one process per line, read as it may be. */
module ProcMetrics {
  import opened Options
  import opened Strings
  import Cmdline
  import opened OomReader

  datatype ProcessInfo = ProcessInfo(pid: int, kind: string, rss: nat, peakRss: nat)

  // VmRSS and VmHWM in a process's status file.
  datatype Status = Status(rss: nat, hwm: nat)

  // What /proc shows: the status files and the cmdlines that can be read.
  datatype ProcFs = ProcFs(status: map<int, Status>, cmdline: map<int, string>)

  datatype Error = NoError | ProcsUnreadable | CurrentUnreadable | CurrentUnparsable

  const INT64_END: nat := 0x8000_0000_0000_0000

  // strconv.Atoi, and strconv.ParseInt with base 10 and 64 bits
  function Atoi(s: string): Option<int> {
    var negative := s != [] && s[0] == '-';
    var digits := if s != [] && (s[0] == '-' || s[0] == '+') then s[1..] else s;
    if digits == [] || !AllDigits(digits) then None
    else
      var n: int := Decimal(digits);
      if negative then (if n <= INT64_END then Some(-n) else None)
      else (if n < INT64_END then Some(n) else None)
  }

  // strings.Split with the separator "\n"
  function Split(s: string): (lines: seq<string>)
    ensures lines != []
  {
    if s == [] then [[]]
    else
      var rest := Split(s[1..]);
      if s[0] == '\n' then [[]] + rest else [[s[0]] + rest[0]] + rest[1..]
  }

  // The strings that are numbers, and which: digits, perhaps after a sign, within 64 bits.
  lemma AtoiIsExact(digits: string)
    requires digits != [] && AllDigits(digits)
    ensures var n: int := Decimal(digits);
            && Atoi(digits) == (if n < 9223372036854775808 then Some(n) else None)
            && Atoi("+" + digits) == (if n < 9223372036854775808 then Some(n) else None)
            && Atoi("-" + digits) == (if n <= 9223372036854775808 then Some(-n) else None)
  {
    assert IsDigit(digits[0]);
    assert ("+" + digits)[1..] == digits && ("-" + digits)[1..] == digits;
  }

  lemma NothingElseIsANumber(s: string)
    requires Atoi(s).Some?
    ensures exists digits ::
              digits != [] && AllDigits(digits) && (s == digits || s == "+" + digits || s == "-" + digits)
  {
    if s[0] == '-' || s[0] == '+' {
      assert s == [s[0]] + s[1..] && AllDigits(s[1..]);
      assert s[0] == '+' ==> s == "+" + s[1..];
      assert s[0] == '-' ==> s == "-" + s[1..];
    }
  }

  // The text that the lines come from.
  function Joined(lines: seq<string>): string
    requires lines != []
  {
    if |lines| == 1 then lines[0] else lines[0] + ['\n'] + Joined(lines[1..])
  }

  lemma {:induction false} JoinedPrefixed(c: char, lines: seq<string>)
    requires lines != []
    ensures Joined([[c] + lines[0]] + lines[1..]) == [c] + Joined(lines)
  {
    assert ([[c] + lines[0]] + lines[1..])[1..] == lines[1..];
  }

  // The lines are what stands between the newlines, all of it.
  lemma {:induction false} SplitIsExact(s: string)
    ensures Joined(Split(s)) == s && forall line :: line in Split(s) ==> '\n' !in line
  {
    if s != [] {
      var rest := Split(s[1..]);
      SplitIsExact(s[1..]);
      if s[0] == '\n' {
        assert ([[]] + rest)[1..] == rest;
      } else {
        JoinedPrefixed(s[0], rest);
        assert rest[0] in rest;
      }
      assert s == [s[0]] + s[1..];
    }
  }

  // processMemoryStats
  function MemoryStats(fs: ProcFs, pid: int): Option<Status> {
    if pid in fs.status && (fs.status[pid].rss != 0 || fs.status[pid].hwm != 0) then Some(fs.status[pid]) else None
  }

  function ProcessKind(fs: ProcFs, pid: int): string {
    Cmdline.ProcessType(if pid in fs.cmdline then Some(fs.cmdline[pid]) else None)
  }

  // ---- The reference: filter, then map

  // The number on a line, as a list.
  function Number(line: string): seq<int> {
    match Atoi(line)
    case Some(n) => [n]
    case None => []
  }

  // The numbers among the lines.
  function Pids(lines: seq<string>): seq<int> {
    if lines == [] then []
    else Number(lines[0]) + Pids(lines[1..])
  }

  // The processes among the numbers whose statistics can be read.
  function Described(fs: ProcFs, pids: seq<int>): seq<ProcessInfo> {
    if pids == [] then []
    else
      Description(fs, pids[0]) + Described(fs, pids[1..])
  }

  function Description(fs: ProcFs, pid: int): seq<ProcessInfo> {
    match MemoryStats(fs, pid)
    case Some(st) => [ProcessInfo(pid, ProcessKind(fs, pid), st.rss, st.hwm)]
    case None => []
  }

  lemma {:induction false} PidsAppend(a: seq<string>, b: seq<string>)
    ensures Pids(a + b) == Pids(a) + Pids(b)
  {
    if a == [] {
      assert a + b == b;
    } else {
      PidsAppend(a[1..], b);
      assert (a + b)[1..] == a[1..] + b;
    }
  }

  lemma {:induction false} DescribedAppend(fs: ProcFs, a: seq<int>, b: seq<int>)
    ensures Described(fs, a + b) == Described(fs, a) + Described(fs, b)
  {
    if a == [] {
      assert a + b == b;
    } else {
      DescribedAppend(fs, a[1..], b);
      assert (a + b)[1..] == a[1..] + b;
    }
  }

  // ---- The same, line by line

  // There is something to tell about the process: its status can be read and is not all zero.
  predicate Readable(fs: ProcFs, pid: int) {
    pid in fs.status && !(fs.status[pid].rss == 0 && fs.status[pid].hwm == 0)
  }

  // The line is the number of a readable process.
  predicate Telling(fs: ProcFs, line: string) {
    Atoi(line).Some? && Readable(fs, Atoi(line).value)
  }

  // p describes the process of the line.
  ghost predicate Describes(fs: ProcFs, line: string, p: ProcessInfo) {
    && Atoi(line) == Some(p.pid) && Readable(fs, p.pid)
    && p.rss == fs.status[p.pid].rss && p.peakRss == fs.status[p.pid].hwm
    && p.kind == Cmdline.ProcessType(if p.pid in fs.cmdline then Some(fs.cmdline[p.pid]) else None)
  }

  // The processes are those of the lines at the given places, which are in order, and no other line tells anything.
  ghost predicate Collected(fs: ProcFs, lines: seq<string>, places: seq<nat>, processes: seq<ProcessInfo>) {
    && |places| == |processes|
    && (forall i, j :: 0 <= i < j < |places| ==> places[i] < places[j])
    && (forall i :: 0 <= i < |places| ==> places[i] < |lines| && Describes(fs, lines[places[i]], processes[i]))
    && (forall k :: 0 <= k < |lines| && Telling(fs, lines[k]) ==> k in places)
  }

  lemma OneMoreLine(fs: ProcFs, lines: seq<string>, n: nat)
    requires n < |lines|
    ensures Described(fs, Pids(lines[..n + 1]))
            == Described(fs, Pids(lines[..n]))
               + if Telling(fs, lines[n]) then Description(fs, Atoi(lines[n]).value) else []
  {
    var line := lines[n];
    assert lines[..n + 1] == lines[..n] + [line];
    PidsAppend(lines[..n], [line]);
    DescribedAppend(fs, Pids(lines[..n]), Pids([line]));
    assert [line][1..] == [] && Pids([line]) == Number(line);
    if Atoi(line).Some? {
      assert [Atoi(line).value][1..] == [];
    }
  }

  lemma CollectedSkips(fs: ProcFs, lines: seq<string>, n: nat, places: seq<nat>, processes: seq<ProcessInfo>)
    requires n < |lines| && Collected(fs, lines[..n], places, processes) && !Telling(fs, lines[n])
    ensures Collected(fs, lines[..n + 1], places, processes)
  {
    assert forall k :: 0 <= k < n ==> lines[..n + 1][k] == lines[..n][k];
  }

  lemma CollectedGrows(fs: ProcFs, lines: seq<string>, n: nat, places: seq<nat>, processes: seq<ProcessInfo>,
                       p: ProcessInfo)
    requires n < |lines| && Collected(fs, lines[..n], places, processes) && Describes(fs, lines[n], p)
    ensures Collected(fs, lines[..n + 1], places + [n], processes + [p])
  {
    assert forall k :: 0 <= k < n ==> lines[..n + 1][k] == lines[..n][k];
    assert forall k :: k in places ==> k in places + [n];
    assert n in places + [n];
  }

  lemma DescribedIs(fs: ProcFs, line: string, p: ProcessInfo)
    requires Describes(fs, line, p)
    ensures Telling(fs, line) && Description(fs, Atoi(line).value) == [p]
  {
  }

  // The first n lines have been dealt with.
  ghost predicate Done(fs: ProcFs, lines: seq<string>, n: nat, places: seq<nat>, processes: seq<ProcessInfo>)
    requires n <= |lines|
  {
    processes == Described(fs, Pids(lines[..n])) && Collected(fs, lines[..n], places, processes)
  }

  lemma LineSkipped(fs: ProcFs, lines: seq<string>, n: nat, places: seq<nat>, processes: seq<ProcessInfo>)
    requires n < |lines| && Done(fs, lines, n, places, processes) && !Telling(fs, lines[n])
    ensures Done(fs, lines, n + 1, places, processes)
  {
    OneMoreLine(fs, lines, n);
    CollectedSkips(fs, lines, n, places, processes);
  }

  lemma LineCollected(fs: ProcFs, lines: seq<string>, n: nat, places: seq<nat>, processes: seq<ProcessInfo>,
                      p: ProcessInfo)
    requires n < |lines| && Done(fs, lines, n, places, processes) && Describes(fs, lines[n], p)
    ensures Done(fs, lines, n + 1, places + [n], processes + [p])
  {
    OneMoreLine(fs, lines, n);
    DescribedIs(fs, lines[n], p);
    CollectedGrows(fs, lines, n, places, processes, p);
  }

  /** collectProcessMetrics. The list of processes is returned even if the cgroup's total cannot be read. */
  method CollectProcessMetrics(fs: ProcFs, procs: Option<string>, current: Option<string>)
    returns (processes: seq<ProcessInfo>, cgroupRss: int, error: Error, ghost places: seq<nat>)
    ensures error == ProcsUnreadable <==> procs.None?
    ensures procs.None? ==> processes == []
    ensures procs.Some? ==> processes == Described(fs, Pids(Split(Trim(procs.value))))
    ensures procs.Some? ==> Collected(fs, Split(Trim(procs.value)), places, processes)
    ensures procs.Some? ==> (error == CurrentUnreadable <==> current.None?)
    ensures procs.Some? && current.Some? ==> (error == CurrentUnparsable <==> Atoi(Trim(current.value)).None?)
    ensures if error == NoError then Atoi(Trim(current.value)) == Some(cgroupRss) else cgroupRss == 0
  {
    processes, cgroupRss, error, places := [], 0, NoError, [];
    if procs.None? {
      error := ProcsUnreadable;
      return;
    }
    var lines := Split(Trim(procs.value));
    var i: nat := 0;
    while i < |lines|
      invariant i <= |lines|
      invariant Done(fs, lines, i, places, processes)
    {
      var line := lines[i];
      ghost var n: nat := i;
      if !Telling(fs, line) {
        LineSkipped(fs, lines, i, places, processes);
      }
      i := i + 1;
      if line == "" {
        continue;
      }
      var pid := Atoi(line);
      if pid.None? {
        continue;
      }
      var stats := MemoryStats(fs, pid.value);
      if stats.None? {
        continue;
      }
      var p := ProcessInfo(pid.value, ProcessKind(fs, pid.value), stats.value.rss, stats.value.hwm);
      LineCollected(fs, lines, n, places, processes, p);
      processes := processes + [p];
      places := places + [n];
    }
    assert lines[..i] == lines;
    if current.None? {
      error := CurrentUnreadable;
      return;
    }
    var total := Atoi(Trim(current.value));
    if total.None? {
      error := CurrentUnparsable;
      return;
    }
    cgroupRss := total.value;
  }

  // ---- What trimming the whole file does to its lines

  lemma SpacedIsNoNumber(s: string, i: nat)
    requires i < |s| && IsSpace(s[i])
    ensures Atoi(s).None?
  {
    var digits := if s[0] == '-' || s[0] == '+' then s[1..] else s;
    assert i > 0 ==> s[i] == s[1..][i - 1];
    assert s[i] in digits;
  }

  // The first number of the text has white space before it on its line, which trimming removes.
  predicate LeftPadded(s: string) {
    var t := TrimLeft(s);
    |t| < |s| && s[|s| - |t| - 1] != '\n' && Atoi(Split(t)[0]).Some?
  }

  // The last number of the text has white space after it on its line, which trimming removes.
  predicate RightPadded(s: string) {
    var t := TrimRight(s);
    |t| < |s| && s[|t|] != '\n' && Atoi(Last(Split(t))).Some?
  }

  lemma SplitFirst(c: char, s: string)
    requires c != '\n'
    ensures Split([c] + s) == [[c] + Split(s)[0]] + Split(s)[1..]
  {
  }

  // Taking one space off the front adds the number it hid, if it hid one.
  lemma DropOneLeft(s: string)
    requires s != [] && IsSpace(s[0])
    ensures Pids(Split(s[1..])) == (if s[0] == '\n' then [] else Number(Split(s[1..])[0])) + Pids(Split(s))
  {
    var c, t := s[0], s[1..];
    var lines := Split(t);
    if c == '\n' {
      assert Split(s) == [[]] + lines;
      assert ([[]] + lines)[1..] == lines;
    } else {
      assert s == [c] + t;
      SplitFirst(c, t);
      SpacedIsNoNumber([c] + lines[0], 0);
      assert Split(s)[0] == [c] + lines[0] && Split(s)[1..] == lines[1..];
    }
  }

  lemma FirstLineOfSpaced(s: string)
    requires s != [] && IsSpace(s[0])
    ensures Atoi(Split(s)[0]).None?
  {
    if s[0] != '\n' {
      assert s == [s[0]] + s[1..];
      SplitFirst(s[0], s[1..]);
      SpacedIsNoNumber([s[0]] + Split(s[1..])[0], 0);
    }
  }

  lemma {:induction false} TrimLeftIsSuffix(s: string)
    ensures |TrimLeft(s)| <= |s| && TrimLeft(s) == s[|s| - |TrimLeft(s)|..]
  {
    if s != [] && IsSpace(s[0]) {
      TrimLeftIsSuffix(s[1..]);
    }
  }

  lemma LeftPaddedStep(s: string)
    requires s != [] && IsSpace(s[0])
    ensures LeftPadded(s) <==> if |TrimLeft(s[1..])| < |s[1..]| then LeftPadded(s[1..])
                               else s[0] != '\n' && Atoi(Split(s[1..])[0]).Some?
  {
    var t := s[1..];
    TrimLeftIsSuffix(t);
    if |TrimLeft(t)| < |t| {
      assert s[|s| - |TrimLeft(t)| - 1] == t[|t| - |TrimLeft(t)| - 1];
    }
  }

  // What trimming on the left adds to the numbers of a text.
  function HiddenLeft(s: string): seq<int> {
    if LeftPadded(s) then Number(Split(TrimLeft(s))[0]) else []
  }

  lemma {:induction false} TrimLeftPids(s: string)
    ensures Pids(Split(TrimLeft(s))) == HiddenLeft(s) + Pids(Split(s))
  {
    if s != [] && IsSpace(s[0]) {
      var t := s[1..];
      TrimLeftPids(t);
      DropOneLeft(s);
      LeftPaddedStep(s);
      if |TrimLeft(t)| < |t| {
        FirstLineOfSpaced(t);
        assert HiddenLeft(s) == HiddenLeft(t);
      } else {
        TrimLeftIsSuffix(t);
        assert TrimLeft(t) == t;
      }
    }
  }

  // ---- The same on the right

  lemma {:induction false} SplitLast(s: string, c: char)
    ensures Split(s + [c]) == Extended(Split(s), c)
  {
    if s == [] {
      assert s + [c] == [c] && [c][1..] == [] && [c] + "" == [c];
      assert Split([c]) == if c == '\n' then [[], []] else [[c]];
      assert Extended([[]], c) == if c == '\n' then [[], []] else [[c]];
    } else {
      SplitLast(s[1..], c);
      assert (s + [c])[1..] == s[1..] + [c] && (s + [c])[0] == s[0];
      if s[0] == '\n' {
        assert Extended([[]] + Split(s[1..]), c) == [[]] + Extended(Split(s[1..]), c);
      } else {
        ExtendPrefixed(Split(s[1..]), s[0], c);
      }
    }
  }

  function Prefixed(lines: seq<string>, x: char): seq<string>
    requires lines != []
  {
    [[x] + lines[0]] + lines[1..]
  }

  lemma ExtendPrefixed(lines: seq<string>, x: char, c: char)
    requires lines != []
    ensures Extended(Prefixed(lines, x), c) == Prefixed(Extended(lines, c), x)
  {
    var n := |lines| - 1;
    if c == '\n' {
      assert (lines + [[]])[1..] == lines[1..] + [[]];
    } else if n == 0 {
      assert ([x] + lines[0]) + [c] == [x] + (lines[0] + [c]);
      assert Prefixed(lines, x) == [[x] + lines[0]] && Extended(lines, c) == [lines[0] + [c]];
    } else {
      assert Extended(lines, c)[1..] == lines[1..n] + [lines[n] + [c]];
      assert Prefixed(lines, x)[..n] == [[x] + lines[0]] + lines[1..n];
    }
  }

  // The lines of a text that goes on with c.
  function Extended(lines: seq<string>, c: char): (r: seq<string>)
    requires lines != []
    ensures r != []
  {
    if c == '\n' then lines + [[]] else lines[..|lines| - 1] + [lines[|lines| - 1] + [c]]
  }

  lemma PidsLast(lines: seq<string>, line: string)
    ensures Pids(lines + [line]) == Pids(lines) + Number(line)
  {
    PidsAppend(lines, [line]);
    assert [line][1..] == [];
    assert Pids([line]) == Number(line) + Pids([]);
  }

  function Last(lines: seq<string>): string
    requires lines != []
  {
    lines[|lines| - 1]
  }

  lemma DropOneRight(s: string, c: char)
    requires IsSpace(c)
    ensures Pids(Split(s)) == Pids(Split(s + [c])) + (if c == '\n' then [] else Number(Last(Split(s))))
    ensures Atoi(Last(Split(s + [c]))).None?
  {
    var lines := Split(s);
    SplitLast(s, c);
    if c == '\n' {
      PidsLast(lines, []);
    } else {
      DropFromLast(lines, c);
    }
  }

  lemma DropFromLast(lines: seq<string>, c: char)
    requires lines != [] && IsSpace(c) && c != '\n'
    ensures Pids(lines) == Pids(Extended(lines, c)) + Number(Last(lines))
    ensures Atoi(Last(Extended(lines, c))).None?
  {
    var before := lines[..|lines| - 1];
    assert lines == before + [Last(lines)];
    PidsLast(before, Last(lines));
    PidsLast(before, Last(lines) + [c]);
    SpacedIsNoNumber(Last(lines) + [c], |Last(lines)|);
  }

  lemma {:induction false} TrimRightIsPrefix(s: string)
    ensures |TrimRight(s)| <= |s| && TrimRight(s) == s[..|TrimRight(s)|]
  {
    if s != [] && IsSpace(s[|s| - 1]) {
      TrimRightIsPrefix(s[..|s| - 1]);
    }
  }

  lemma TrimRightStep(t: string, c: char)
    requires IsSpace(c)
    ensures TrimRight(t + [c]) == TrimRight(t)
  {
  }

  lemma RightPaddedStep(t: string, c: char)
    requires IsSpace(c)
    ensures |TrimRight(t)| < |t| ==> (RightPadded(t + [c]) <==> RightPadded(t))
    ensures |TrimRight(t)| == |t| ==> (RightPadded(t + [c]) <==> c != '\n' && Atoi(Last(Split(t))).Some?)
  {
    TrimRightStep(t, c);
    TrimRightIsPrefix(t);
    var n := |TrimRight(t)|;
    if n < |t| {
      assert (t + [c])[n] == t[n];
    } else {
      assert (t + [c])[n] == c && TrimRight(t) == t;
    }
  }

  // What trimming on the right adds to the numbers of a text.
  function HiddenRight(s: string): seq<int> {
    if RightPadded(s) then Number(Last(Split(TrimRight(s)))) else []
  }

  lemma LastOfSpaced(t: string)
    requires |TrimRight(t)| < |t|
    ensures Number(Last(Split(t))) == []
  {
    assert t == t[..|t| - 1] + [t[|t| - 1]];
    DropOneRight(t[..|t| - 1], t[|t| - 1]);
  }

  lemma {:induction false} TrimRightPids(s: string)
    ensures Pids(Split(TrimRight(s))) == Pids(Split(s)) + HiddenRight(s)
  {
    if s != [] && IsSpace(s[|s| - 1]) {
      var t, c := s[..|s| - 1], s[|s| - 1];
      assert s == t + [c];
      TrimRightPids(t);
      DropOneRight(t, c);
      RightPaddedStep(t, c);
      TrimRightStep(t, c);
      if |TrimRight(t)| < |t| {
        LastOfSpaced(t);
        assert HiddenRight(s) == HiddenRight(t);
      } else {
        TrimRightIsPrefix(t);
        assert TrimRight(t) == t;
      }
    }
  }

  /** The collected processes are those of the lines that are numbers, in order and with multiplicity, if and only if
      trimming does not turn a padded first or last number into one. */
  lemma CollectedAreTheNumbers(text: string)
    ensures Pids(Split(Trim(text))) == Pids(Split(text)) <==> !LeftPadded(text) && !RightPadded(TrimLeft(text))
  {
    TrimLeftPids(text);
    TrimRightPids(TrimLeft(text));
  }

  lemma {:induction false} OneLine(s: string)
    requires '\n' !in s
    ensures Split(s) == [s]
  {
    if s != [] {
      OneLine(s[1..]);
      assert s == [s[0]] + s[1..];
    }
  }

  lemma TwelveIsTwelve()
    ensures Atoi("12") == Some(12) && Trim(" 12") == "12"
  {
    assert "12"[..1] == "1" && "1"[..0] == "";
    assert Decimal("1") == 1 && Decimal("12") == 12;
    assert " 12"[1..] == "12" && "12"[0] == '1';
  }

  // The gap is real: a padded first line is not a number, but it is collected.
  lemma PaddedNumberIsCollected()
    ensures Pids(Split(" 12")) == [] && Pids(Split(Trim(" 12"))) == [12]
  {
    OneLine(" 12");
    OneLine("12");
    TwelveIsTwelve();
    SpacedIsNoNumber(" 12", 0);
    assert ["12"][1..] == [] && [" 12"][1..] == [];
  }

  // ---- Files that the kernel may have written, with lines in between that are not numbers

  // Without the white space around it the line says the same.
  ghost predicate Clean(line: string) {
    Atoi(line) == Atoi(Trim(line))
  }

  ghost predicate AllClean(lines: seq<string>) {
    forall i :: 0 <= i < |lines| ==> Clean(lines[i])
  }

  lemma TrimOfNumber(line: string)
    requires Atoi(line).Some?
    ensures Trim(line) == line
  {
    if IsSpace(line[0]) {
      SpacedIsNoNumber(line, 0);
    } else if IsSpace(line[|line| - 1]) {
      SpacedIsNoNumber(line, |line| - 1);
    }
  }

  lemma {:induction false} TrimSpaceRight(line: string, c: char)
    requires IsSpace(c)
    ensures Trim(line + [c]) == Trim(line)
  {
    if line == [] {
      assert line + [c] == [c] && [c][1..] == [];
    } else if IsSpace(line[0]) {
      TrimSpaceRight(line[1..], c);
      assert (line + [c])[1..] == line[1..] + [c];
    } else {
      TrimRightStep(line, c);
    }
  }

  // A line that is clean with a space before or after it is clean, and no number, without that space.
  lemma CleanWithout(line: string, spaced: string)
    requires Clean(spaced) && Atoi(spaced).None? && Trim(spaced) == Trim(line)
    ensures Clean(line) && Atoi(line).None?
  {
    if Atoi(line).Some? {
      TrimOfNumber(line);
    }
  }

  lemma CleanWithoutFirst(c: char, t: string)
    requires IsSpace(c) && c != '\n' && AllClean(Split([c] + t))
    ensures AllClean(Split(t)) && Atoi(Split(t)[0]).None?
  {
    var lines, all := Split(t), Split([c] + t);
    SplitFirst(c, t);
    assert Clean(all[0]) && all[0][1..] == lines[0];
    SpacedIsNoNumber(all[0], 0);
    CleanWithout(lines[0], all[0]);
    forall i | 1 <= i < |lines|
      ensures Clean(lines[i])
    {
      assert lines[i] == all[i];
    }
  }

  lemma CleanBeforeSpace(line: string, c: char)
    requires IsSpace(c) && Clean(line + [c])
    ensures Clean(line) && Atoi(line).None?
  {
    SpacedIsNoNumber(line + [c], |line|);
    TrimSpaceRight(line, c);
    CleanWithout(line, line + [c]);
  }

  lemma CleanLast(lines: seq<string>, all: seq<string>, c: char)
    requires IsSpace(c) && lines != [] && |all| == |lines| && AllClean(all)
    requires all[|lines| - 1] == Last(lines) + [c] && forall i :: 0 <= i < |lines| - 1 ==> all[i] == lines[i]
    ensures AllClean(lines) && Atoi(Last(lines)).None?
  {
    var n := |lines| - 1;
    assert Clean(all[n]);
    CleanBeforeSpace(lines[n], c);
    forall i | 0 <= i < n
      ensures Clean(lines[i])
    {
      assert Clean(all[i]);
    }
  }

  // Without a newline at one end there are the same lines but for an empty one.
  lemma CleanWithoutNewline(t: string)
    ensures AllClean(Split(['\n'] + t)) ==> AllClean(Split(t))
    ensures AllClean(Split(t + ['\n'])) ==> AllClean(Split(t))
  {
    var lines := Split(t);
    SplitLast(t, '\n');
    assert (['\n'] + t)[1..] == t;
    assert forall i :: 0 <= i < |lines| ==> lines[i] == Split(['\n'] + t)[i + 1] == Split(t + ['\n'])[i];
  }

  lemma {:induction false} TrimLeftClean(s: string)
    requires AllClean(Split(s))
    ensures AllClean(Split(TrimLeft(s))) && !LeftPadded(s)
  {
    if s != [] && IsSpace(s[0]) {
      assert s == [s[0]] + s[1..];
      if s[0] == '\n' {
        CleanWithoutNewline(s[1..]);
      } else {
        CleanWithoutFirst(s[0], s[1..]);
      }
      TrimLeftClean(s[1..]);
      LeftPaddedStep(s);
    }
  }

  lemma {:induction false} TrimRightClean(s: string)
    requires AllClean(Split(s))
    ensures !RightPadded(s)
  {
    if s != [] && IsSpace(s[|s| - 1]) {
      var t, c := s[..|s| - 1], s[|s| - 1];
      assert s == t + [c];
      if c == '\n' {
        CleanWithoutNewline(t);
      } else {
        SplitLast(t, c);
        CleanLast(Split(t), Split(s), c);
      }
      TrimRightClean(t);
      TrimRightIsPrefix(t);
      RightPaddedStep(t, c);
    }
  }

  // A PID, or a line of another kind.
  datatype Item = Pid(n: nat) | Noise(text: string)

  function ItemLine(item: Item): string {
    match item
    case Pid(n) => Digits(n)
    case Noise(text) => text
  }

  function Write(items: seq<Item>): string {
    if items == [] then [] else ItemLine(items[0]) + ['\n'] + Write(items[1..])
  }

  function PidsOf(items: seq<Item>): seq<int> {
    if items == [] then []
    else (match items[0] case Pid(n) => [n] case Noise(_) => []) + PidsOf(items[1..])
  }

  ghost predicate Writable(item: Item) {
    match item
    case Pid(n) => n < INT64_END
    case Noise(text) => '\n' !in text && Atoi(Trim(text)).None?
  }

  lemma ItemIsClean(item: Item)
    requires Writable(item)
    ensures '\n' !in ItemLine(item) && Clean(ItemLine(item))
    ensures Number(ItemLine(item)) == match item case Pid(n) => [n] case Noise(_) => []
  {
    match item
    case Pid(n) =>
      DecimalOfDigits(n);
      assert IsDigit(Digits(n)[0]);
      TrimOfNumber(Digits(n));
    case Noise(text) =>
      if Atoi(text).Some? {
        TrimOfNumber(text);
      }
  }

  lemma {:induction false} SplitAtNewline(line: string, rest: string)
    requires '\n' !in line
    ensures Split(line + ['\n'] + rest) == [line] + Split(rest)
  {
    if line == [] {
      assert line + ['\n'] + rest == ['\n'] + rest;
    } else {
      SplitAtNewline(line[1..], rest);
      var s := line[1..] + ['\n'] + rest;
      assert line + ['\n'] + rest == [line[0]] + s;
      SplitFirst(line[0], s);
      assert [line[0]] + line[1..] == line;
    }
  }

  lemma {:induction false} WrittenLines(items: seq<Item>)
    requires forall item :: item in items ==> Writable(item)
    ensures AllClean(Split(Write(items))) && Pids(Split(Write(items))) == PidsOf(items)
  {
    if items == [] {
      assert Pids([[]]) == Number([]) + Pids([[]][1..]);
    } else {
      assert items[0] in items;
      ItemIsClean(items[0]);
      var line, rest := ItemLine(items[0]), Write(items[1..]);
      SplitAtNewline(line, rest);
      WrittenLines(items[1..]);
      assert ([line] + Split(rest))[1..] == Split(rest);
    }
  }

  /** Collecting reads back exactly the PIDs that were written one per line, in order and with multiplicity, whatever
      blank or unparsable lines stand between them. */
  lemma WrittenPidsAreCollected(items: seq<Item>)
    requires forall item :: item in items ==> Writable(item)
    ensures Pids(Split(Trim(Write(items)))) == PidsOf(items)
  {
    var text := Write(items);
    WrittenLines(items);
    TrimLeftClean(text);
    TrimRightClean(TrimLeft(text));
    CollectedAreTheNumbers(text);
  }
}
