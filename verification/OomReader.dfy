/** The reader of the cgroup's OOM kill counter: a scan of the memory events file for the line `oom_kill <N>`. */
module OomReader {
  import opened Options
  import opened Strings

  const KEY := "oom_kill"
  const PREFIX := "oom_kill "
  const UINT64_END: nat := 0x1_0000_0000_0000_0000

  // bufio.Scanner gives up on a line that does not fit, with its newline, into a buffer of this size.
  const MAX_TOKEN: nat := 65536

  // What the file system gives: no such file, a file that cannot be opened, or its content and, possibly, a read
  // error after it.
  datatype File = Missing | Unopenable | Content(text: string, broken: bool)

  datatype Count = Value(n: nat) | OpenError | ParseError | ScanError

  // strconv.ParseUint with base 10 and 64 bits.
  function ParseUint(s: string): Option<nat> {
    if s != [] && AllDigits(s) && Decimal(s) < UINT64_END then Some(Decimal(s)) else None
  }

  function DropCR(line: string): string {
    if line != [] && line[|line| - 1] == '\r' then line[..|line| - 1] else line
  }

  // The line that starts a text, without its newline.
  function FirstLine(text: string): (line: string)
    ensures |line| <= |text| && line == text[..|line|] && '\n' !in line && (|line| < |text| ==> text[|line|] == '\n')
  {
    if text == [] || text[0] == '\n' then [] else [text[0]] + FirstLine(text[1..])
  }

  function AfterFirstLine(text: string): (rest: string)
    requires text != []
    ensures |rest| < |text|
  {
    var n := |FirstLine(text)|;
    if n == |text| then [] else text[n + 1..]
  }

  function Lines(text: string): seq<string>
    decreases |text|
  {
    if text == [] then [] else [FirstLine(text)] + Lines(AfterFirstLine(text))
  }

  // What the lines say, given whether a read error follows them.
  function CountIn(lines: seq<string>, broken: bool): Count
    decreases |lines|
  {
    if lines == [] then (if broken then ScanError else Value(0))
    else if |lines[0]| >= MAX_TOKEN then ScanError
    else
      var line := DropCR(lines[0]);
      if PREFIX <= line then
        match ParseUint(line[|PREFIX|..])
        case Some(n) => Value(n)
        case None => ParseError
      else CountIn(lines[1..], broken)
  }

  // ---- What the scan finds, for every text

  // A carriage return at the end of a line is not part of it.
  lemma OneCRIsDropped(s: string)
    ensures DropCR(s + "\r") == s
    ensures s == "" || s[|s| - 1] != '\r' ==> DropCR(s) == s
  {
  }

  // A line that the scan goes past.
  predicate Passed(line: string) {
    |line| < 65536 && !("oom_kill " <= DropCR(line))
  }

  // The line has the key, and the number n below 2^64 after it.
  ghost predicate Carries(line: string, n: nat) {
    var s := DropCR(line);
    && "oom_kill " <= s && s[9..] != [] && AllDigits(s[9..])
    && Decimal(s[9..]) == n < 18446744073709551616
  }

  // What is read from a line that has the key.
  function CountOf(line: string): Option<nat>
    requires PREFIX <= DropCR(line)
  {
    ParseUint(DropCR(line)[|PREFIX|..])
  }

  // The first line that the scan does not go past is the k-th.
  ghost predicate StopsAt(lines: seq<string>, k: nat) {
    k < |lines| && !Passed(lines[k]) && forall i :: 0 <= i < k ==> Passed(lines[i])
  }

  ghost predicate Through(lines: seq<string>) {
    forall i :: 0 <= i < |lines| ==> Passed(lines[i])
  }

  ghost predicate FoundAt(lines: seq<string>, k: nat, n: nat) {
    StopsAt(lines, k) && |lines[k]| < 65536 && Carries(lines[k], n)
  }

  ghost predicate MalformedAt(lines: seq<string>, k: nat) {
    StopsAt(lines, k) && |lines[k]| < 65536 && forall n: nat :: !Carries(lines[k], n)
  }

  ghost predicate OverlongAt(lines: seq<string>, k: nat) {
    StopsAt(lines, k) && |lines[k]| >= 65536
  }

  lemma {:induction false} ScanStops(lines: seq<string>, k: nat, broken: bool)
    requires StopsAt(lines, k)
    ensures CountIn(lines, broken)
            == if |lines[k]| >= MAX_TOKEN then ScanError
               else match CountOf(lines[k]) case Some(n) => Value(n) case None => ParseError
  {
    if k > 0 {
      ScanStops(lines[1..], k - 1, broken);
    }
  }

  lemma {:induction false} ScanEnds(lines: seq<string>, broken: bool)
    requires Through(lines)
    ensures CountIn(lines, broken) == if broken then ScanError else Value(0)
  {
    if lines != [] {
      ScanEnds(lines[1..], broken);
    }
  }

  lemma {:induction false} StopsOrNot(lines: seq<string>)
    ensures Through(lines) || exists k: nat :: StopsAt(lines, k)
  {
    if lines != [] {
      if !Passed(lines[0]) {
        assert StopsAt(lines, 0);
      } else {
        StopsOrNot(lines[1..]);
        if !Through(lines[1..]) {
          var k: nat :| StopsAt(lines[1..], k);
          assert forall i :: 0 < i < k + 1 ==> lines[i] == lines[1..][i - 1];
          assert StopsAt(lines, k + 1);
        }
      }
    }
  }

  /** For every text whatever, which answer is given and when: a number if the first line with the key, before which all
      lines fit the scanner's buffer, carries one below 2^64, and also, as zero, if there is no such line and reading
      does not fail; a parse error if it carries anything else; a scan error if a line before it, or itself, does not
      fit, or if reading fails after lines that all pass. */
  lemma CountIsExact(lines: seq<string>, broken: bool)
    ensures var count := CountIn(lines, broken);
            && (forall n: nat :: count == Value(n) <==>
                  (exists k: nat :: FoundAt(lines, k, n)) || (Through(lines) && !broken && n == 0))
            && (count.ParseError? <==> exists k: nat :: MalformedAt(lines, k))
            && (count.ScanError? <==> (exists k: nat :: OverlongAt(lines, k)) || (Through(lines) && broken))
            && !count.OpenError?
  {
    StopsOrNot(lines);
    if k: nat :| StopsAt(lines, k) {
      ScanStops(lines, k, broken);
      forall j: nat | StopsAt(lines, j)
        ensures j == k
      {
      }
      if |lines[k]| < MAX_TOKEN {
        match CountOf(lines[k])
        case Some(n) => assert Carries(lines[k], n) && FoundAt(lines, k, n);
        case None => assert MalformedAt(lines, k);
      } else {
        assert OverlongAt(lines, k);
      }
    } else {
      ScanEnds(lines, broken);
    }
  }

  /** An error without any I/O failure: exactly when the scan stops at a line that is malformed or too long. */
  lemma ErrorsBesideFailures(lines: seq<string>)
    ensures !CountIn(lines, false).Value? <==>
              (exists k: nat :: MalformedAt(lines, k)) || exists k: nat :: OverlongAt(lines, k)
  {
    CountIsExact(lines, false);
  }

  // A counter that is not a number is an error, though nothing has failed.
  lemma MalformedIsAnError(broken: bool)
    ensures CountIn(Lines("oom_kill " + "x"), broken) == ParseError
  {
    WholeLine(PREFIX + "x");
    KeyIsCutOff(Entry(KEY, "x"));
    assert Line(Entry(KEY, "x")) == PREFIX + "x" && 'x' in "x";
  }

  lemma {:induction false} WholeLine(text: string)
    requires text != [] && '\n' !in text
    ensures FirstLine(text) == text && Lines(text) == [text]
  {
    if |text| > 1 {
      WholeLine(text[1..]);
    }
  }

  // So is a line that does not fit, though a counter comes after it.
  lemma OverlongIsAnError(line: string, rest: string, broken: bool)
    requires '\n' !in line && |line| >= 65536
    ensures CountIn(Lines(line + ['\n'] + rest), broken) == ScanError
  {
    PrintedLine(line, rest);
  }

  /** readOOMKillCount. Without a path, or without a file, the count is zero. */
  method ReadOomKillCount(path: string, file: File) returns (count: Count)
    ensures path == "" || file.Missing? ==> count == Value(0)
    ensures path != "" && file.Unopenable? ==> count == OpenError
    ensures path != "" && file.Content? ==> count == CountIn(Lines(file.text), file.broken)
  {
    if path == "" || file.Missing? {
      return Value(0);
    }
    if file.Unopenable? {
      return OpenError;
    }
    var rest := file.text;
    while rest != []
      invariant CountIn(Lines(rest), file.broken) == CountIn(Lines(file.text), file.broken)
      decreases |rest|
    {
      var token := FirstLine(rest);
      assert Lines(rest)[1..] == Lines(AfterFirstLine(rest));
      if |token| >= MAX_TOKEN {
        return ScanError;
      }
      var line := DropCR(token);
      if PREFIX <= line {
        match ParseUint(line[|PREFIX|..])
        case Some(n) => return Value(n);
        case None => return ParseError;
      }
      rest := AfterFirstLine(rest);
    }
    count := if file.broken then ScanError else Value(0);
  }

  // ---- Files written as lines of a key and a value

  datatype Entry = Entry(key: string, value: string)

  function Line(e: Entry): string { e.key + [' '] + e.value }

  function Print(entries: seq<Entry>): string {
    if entries == [] then [] else Line(entries[0]) + ['\n'] + Print(entries[1..])
  }

  ghost predicate Proper(e: Entry) {
    ' ' !in e.key && '\n' !in Line(e) && |Line(e)| < MAX_TOKEN
  }

  lemma {:induction false} PrintedLine(line: string, rest: string)
    requires '\n' !in line
    ensures FirstLine(line + ['\n'] + rest) == line && AfterFirstLine(line + ['\n'] + rest) == rest
  {
    if line == [] {
      assert line + ['\n'] + rest == ['\n'] + rest;
    } else {
      PrintedLine(line[1..], rest);
      assert (line + ['\n'] + rest)[1..] == line[1..] + ['\n'] + rest;
    }
  }

  function LinesOf(entries: seq<Entry>): seq<string> {
    if entries == [] then [] else [Line(entries[0])] + LinesOf(entries[1..])
  }

  lemma {:induction false} PrintedLines(entries: seq<Entry>)
    requires forall e :: e in entries ==> Proper(e)
    ensures Lines(Print(entries)) == LinesOf(entries)
  {
    if entries != [] {
      assert entries[0] in entries;
      PrintedLine(Line(entries[0]), Print(entries[1..]));
      PrintedLines(entries[1..]);
    }
  }

  // The whole key decides, so oom, oom_kill_disable and oom_group_kill are passed over.
  lemma KeyDecides(e: Entry)
    requires ' ' !in e.key
    ensures PREFIX <= DropCR(Line(e)) <==> e.key == "oom_kill"
  {
    var line := DropCR(Line(e));
    var n := |e.key|;
    assert Line(e)[n] == ' ';
    assert line[..n] == e.key && n < |line| && line[n] == ' ';
    if PREFIX <= line {
      assert line[|KEY|] == PREFIX[|KEY|] == ' ';
      assert forall i :: 0 <= i < |KEY| ==> line[i] == PREFIX[i] == KEY[i] != ' ';
      assert n <= |KEY|;
      if n > |KEY| {
        assert false;
      }
      assert e.key == KEY;
    }
  }

  ghost predicate FirstKeyAt(entries: seq<Entry>, k: nat) {
    k < |entries| && entries[k].key == "oom_kill" && forall i :: 0 <= i < k ==> entries[i].key != "oom_kill"
  }

  /** The first line with the key oom_kill decides, whatever the other lines are and whatever comes after it: if it
      carries a decimal number below 2^64, that number is returned; anything else there is an error. */
  lemma CounterIsRead(entries: seq<Entry>, k: nat, broken: bool)
    requires (forall e :: e in entries ==> Proper(e)) && FirstKeyAt(entries, k)
    ensures CountIn(Lines(Print(entries)), broken)
            == match ParseUint(DropCR(entries[k].value)) case Some(n) => Value(n) case None => ParseError
  {
    PrintedLines(entries);
    CounterIsFound(entries, k, broken);
  }

  lemma KeyIsCutOff(e: Entry)
    requires e.key == KEY
    ensures PREFIX <= DropCR(Line(e)) && DropCR(Line(e))[|PREFIX|..] == DropCR(e.value)
  {
    var line := Line(e);
    assert line == PREFIX + e.value;
    if e.value != [] {
      var n := |e.value| - 1;
      assert line[|line| - 1] == e.value[n] && line[..|line| - 1] == PREFIX + e.value[..n];
    }
  }

  lemma {:induction false} CounterIsFound(entries: seq<Entry>, k: nat, broken: bool)
    requires (forall e :: e in entries ==> Proper(e)) && FirstKeyAt(entries, k)
    ensures CountIn(LinesOf(entries), broken)
            == match ParseUint(DropCR(entries[k].value)) case Some(n) => Value(n) case None => ParseError
    decreases k
  {
    var e := entries[0];
    assert e in entries;
    KeyDecides(e);
    assert LinesOf(entries)[1..] == LinesOf(entries[1..]);
    if k == 0 {
      KeyIsCutOff(e);
    } else {
      CounterIsFound(entries[1..], k - 1, broken);
    }
  }

  // Without a line for the key the count is zero, unless reading fails.
  lemma {:induction false} AbsentCounterIsZero(entries: seq<Entry>, broken: bool)
    requires forall e :: e in entries ==> Proper(e) && e.key != KEY
    ensures CountIn(Lines(Print(entries)), broken) == if broken then ScanError else Value(0)
  {
    PrintedLines(entries);
    AbsentCounterIsNotFound(entries, broken);
  }

  lemma {:induction false} AbsentCounterIsNotFound(entries: seq<Entry>, broken: bool)
    requires forall e :: e in entries ==> Proper(e) && e.key != KEY
    ensures CountIn(LinesOf(entries), broken) == if broken then ScanError else Value(0)
  {
    if entries != [] {
      assert entries[0] in entries;
      KeyDecides(entries[0]);
      assert LinesOf(entries)[1..] == LinesOf(entries[1..]);
      AbsentCounterIsNotFound(entries[1..], broken);
    }
  }

  // ---- Round trip

  function Digit(d: nat): char
    requires d < 10
  {
    '0' + d as char
  }

  // The decimal digits of a number, as the kernel prints it.
  function Digits(n: nat): (s: string)
    ensures s != [] && AllDigits(s)
  {
    if n < 10 then [Digit(n)] else Digits(n / 10) + [Digit(n % 10)]
  }

  lemma {:induction false} DecimalOfDigits(n: nat)
    ensures Decimal(Digits(n)) == n
  {
    if n < 10 {
      assert Digits(n)[..0] == [];
    } else {
      DecimalOfDigits(n / 10);
      var s := Digits(n);
      assert s[..|s| - 1] == Digits(n / 10);
    }
  }

  // A counter that the kernel has printed is read back, as long as it fits 64 bits.
  lemma PrintedCounterRoundTrips(before: seq<Entry>, n: nat, after: seq<Entry>, broken: bool)
    requires forall e :: e in before + [Entry("oom_kill", Digits(n))] + after ==> Proper(e)
    requires forall e :: e in before ==> e.key != "oom_kill"
    ensures CountIn(Lines(Print(before + [Entry("oom_kill", Digits(n))] + after)), broken)
            == if n < 18446744073709551616 then Value(n) else ParseError
  {
    DecimalOfDigits(n);
    CounterIsRead(before + [Entry("oom_kill", Digits(n))] + after, |before|, broken);
    var digits := Digits(n);
    assert digits[|digits| - 1] in digits;
  }
}
