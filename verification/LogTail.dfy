/** The log-file fallback of internal/antivpn/supervisor.go: the offset
    arithmetic, the line scanner it drives, and the poll loop. A character of a
    file stands for one byte. */
module LogTail {
  import opened Text

  const MAX_BYTES_PER_POLL := 1048576
  /** The longest token, line feed included, that the scanner's buffer holds. */
  const MAX_TOKEN := 1048576
  const LF := '\n'
  const CR := '\r'

  // ----- the offset ----------------------------------------------------------

  datatype Action = Steady | ReattachAfterShrink | SkipBacklog

  datatype Adjusted = Adjusted(offset: int, action: Action, skipped: int)

  /** The new offset never passes the end of the file and leaves at most the cap
      unread; unless the file shrank it only moves forward, by the skipped bytes. */
  function NextLogOffset(previous: int, size: int, cap: int): (a: Adjusted)
    ensures a.offset <= size
    ensures cap > 0 ==> size - a.offset <= cap
    ensures a.action == ReattachAfterShrink <==> size < previous
    ensures size < previous ==> a.offset == size && a.skipped == 0
    ensures size >= previous ==> a.offset == previous + a.skipped && a.skipped >= 0
    ensures a.action == SkipBacklog <==> a.skipped > 0
  {
    if size < previous then Adjusted(size, ReattachAfterShrink, 0)
    else if cap > 0 && size - previous > cap then Adjusted(size - cap, SkipBacklog, size - previous - cap)
    else Adjusted(previous, Steady, 0)
  }

  // ----- the scanner ---------------------------------------------------------

  function DropCR(s: string): string {
    if s != "" && s[|s| - 1] == CR then s[..|s| - 1] else s
  }

  datatype Token = NoToken | Token(line: string, rest: string)

  /** One scanner.Scan: a line without its line feed and without one carriage
      return before it, or an unterminated last line; nothing at the end, and
      nothing for a line that does not fit the buffer. */
  function NextToken(s: string): (t: Token)
    ensures t.Token? ==> |t.rest| < |s|
  {
    var i := IndexOf(s, LF);
    if s == "" then NoToken
    else if i == -1 then (if |s| < MAX_TOKEN then Token(DropCR(s), "") else NoToken)
    else if i >= MAX_TOKEN then NoToken
    else Token(DropCR(s[..i]), s[i + 1..])
  }

  /** Everything bufio.Scanner hands out. */
  function Lines(s: string): seq<string>
    decreases |s|
  {
    match NextToken(s)
    case NoToken => []
    case Token(line, rest) => [line] + Lines(rest)
  }

  /** How far the poll loop moves the offset for the lines it was handed. */
  function Advance(lines: seq<string>): nat {
    if lines == [] then 0 else |lines[0]| + 1 + Advance(lines[1..])
  }

  predicate Complete(s: string) { s == "" || s[|s| - 1] == LF }

  predicate OneLine(s: string, from: nat, to: nat)
    requires from <= to <= |s|
  {
    forall k :: from <= k < to ==> s[k] != LF
  }

  /** No stretch without a line feed fills the buffer. */
  ghost predicate ShortLines(s: string) {
    forall i: nat, j: nat :: i <= j <= |s| && OneLine(s, i, j) ==> j - i < 1048576
  }

  /** Carriage returns that end a line. */
  function LineEndCRs(s: string): nat {
    if s == "" then 0
    else (if s[0] == CR && (|s| == 1 || s[1] == LF) then 1 else 0) + LineEndCRs(s[1..])
  }

  lemma ShortLinesSlice(s: string, lo: nat, hi: nat)
    requires ShortLines(s) && lo <= hi <= |s|
    ensures ShortLines(s[lo..hi])
  {
    var t := s[lo..hi];
    forall i: nat, j: nat | i <= j <= |t| && OneLine(t, i, j)
      ensures j - i < 1048576
    {
      assert forall k :: lo + i <= k < lo + j ==> s[k] == t[k - lo];
      assert OneLine(s, lo + i, lo + j);
    }
  }

  lemma ShortLinesFrom(s: string, lo: nat)
    requires ShortLines(s) && lo <= |s|
    ensures ShortLines(s[lo..])
  {
    ShortLinesSlice(s, lo, |s|);
    assert s[lo..|s|] == s[lo..];
  }

  lemma ShortLinesFirst(s: string)
    requires ShortLines(s)
    ensures IndexOf(s, LF) == -1 ==> |s| < 1048576
    ensures IndexOf(s, LF) < 1048576
  {
    var i := IndexOf(s, LF);
    if i == -1 {
      assert OneLine(s, 0, |s|);
    } else {
      assert forall k :: 0 <= k < i ==> s[k] == s[..i][k];
      assert OneLine(s, 0, i);
    }
  }

  /** Counting line-end carriage returns over one line. */
  lemma {:induction false} LineEndCRsOfLine(a: string)
    requires LF !in a
    ensures LineEndCRs(a) == |a| - |DropCR(a)|
  {
    if a == "" {
    } else if |a| == 1 {
      assert a[1..] == "";
    } else {
      LineEndCRsOfLine(a[1..]);
      assert a[1] in a;
    }
  }

  lemma {:induction false} LineEndCRsAppend(a: string, rest: string)
    ensures LineEndCRs(a + [LF] + rest) == LineEndCRs(a) + LineEndCRs(rest)
  {
    if a == "" {
      assert a + [LF] + rest == [LF] + rest;
      assert ([LF] + rest)[1..] == rest;
    } else {
      assert (a + [LF] + rest)[1..] == a[1..] + [LF] + rest;
      LineEndCRsAppend(a[1..], rest);
    }
  }

  lemma AdvanceCons(line: string, lines: seq<string>)
    ensures Advance([line] + lines) == |line| + 1 + Advance(lines)
  {
    assert ([line] + lines)[1..] == lines;
  }

  /** The exact drift of the offset: scanning text without an oversized line moves
      it to the end of the text, less the carriage returns dropped at line ends,
      plus one for an unterminated last line. */
  lemma {:induction false} AdvanceIsExact(s: string)
    requires ShortLines(s)
    ensures Advance(Lines(s)) == |s| - LineEndCRs(s) + if Complete(s) then 0 else 1
    decreases |s|
  {
    var i := IndexOf(s, LF);
    ShortLinesFirst(s);
    if s == "" {
    } else if i == -1 {
      AdvanceOverTheTail(s);
    } else {
      ShortLinesFrom(s, i + 1);
      AdvanceIsExact(s[i + 1..]);
      AdvanceOverALine(s, i);
    }
  }

  lemma AdvanceOverALine(s: string, i: nat)
    requires IndexOf(s, LF) == i < 1048576
    ensures Advance(Lines(s)) - |s| + LineEndCRs(s) ==
            Advance(Lines(s[i + 1..])) - |s[i + 1..]| + LineEndCRs(s[i + 1..])
    ensures Complete(s) <==> Complete(s[i + 1..])
  {
    var head, rest := s[..i], s[i + 1..];
    AdvanceCons(DropCR(head), Lines(rest));
    LineEndCRsOfLine(head);
    LineEndCRsAppend(head, rest);
    assert s == head + [LF] + rest;
    CompleteTail(s, i + 1);
  }

  lemma AdvanceOverTheTail(s: string)
    requires s != "" && IndexOf(s, LF) == -1 && |s| < 1048576
    ensures Advance(Lines(s)) == |s| - LineEndCRs(s) + 1 && !Complete(s)
  {
    LineEndCRsOfLine(s);
    assert Lines("") == [];
    AdvanceCons(DropCR(s), []);
  }

  lemma CompleteTail(s: string, k: nat)
    requires 0 < k <= |s| && s[k - 1] == LF
    ensures Complete(s) <==> Complete(s[k..])
  {
  }

  lemma {:induction false} NoCRsNoDrift(s: string)
    requires CR !in s
    ensures LineEndCRs(s) == 0
  {
    if s == "" {
    } else {
      assert s[0] in s;
      NoCRsNoDrift(s[1..]);
    }
  }

  /** One line that fits the buffer is handed out, and scanning goes on behind it. */
  lemma LinesStep(head: string, rest: string)
    requires LF !in head && |head| < 1048576
    ensures Lines(head + [LF] + rest) == [DropCR(head)] + Lines(rest)
  {
    var s := head + [LF] + rest;
    IndexOfFirst(head, LF, rest);
    assert s[..|head|] == head && s[|head| + 1..] == rest;
  }

  lemma Assoc<T>(a: seq<T>, b: seq<T>, c: seq<T>)
    ensures a + (b + c) == (a + b) + c
  {
  }

  /** Splitting a text at a line feed, with and without more text behind. */
  lemma SplitAtLF(a: string, b: string, i: nat)
    requires i < |a| && a[i] == LF
    ensures a == a[..i] + [LF] + a[i + 1..]
    ensures a + b == a[..i] + [LF] + (a[i + 1..] + b)
  {
    assert a == a[..i] + [LF] + a[i + 1..];
    Assoc(a[..i] + [LF], a[i + 1..], b);
  }

  /** Scanning in two goes at a line boundary is scanning in one. */
  lemma {:induction false} LinesAppend(a: string, b: string)
    requires Complete(a) && ShortLines(a)
    ensures Lines(a + b) == Lines(a) + Lines(b)
    decreases |a|
  {
    if a == "" {
      assert a + b == b;
    } else {
      var i := IndexOf(a, LF);
      ShortLinesFirst(a);
      assert a[|a| - 1] == LF;
      var head, rest := a[..i], a[i + 1..];
      ShortLinesFrom(a, i + 1);
      calc {
        Lines(a + b);
        { SplitAtLF(a, b, i); }
        Lines(head + [LF] + (rest + b));
        { LinesStep(head, rest + b); }
        [DropCR(head)] + Lines(rest + b);
        { LinesAppend(rest, b); }
        [DropCR(head)] + (Lines(rest) + Lines(b));
        { Assoc([DropCR(head)], Lines(rest), Lines(b)); }
        [DropCR(head)] + Lines(rest) + Lines(b);
        { LinesStep(head, rest); SplitAtLF(a, b, i); }
        Lines(a) + Lines(b);
      }
    }
  }

  /** A line of a mebibyte or more ends the scan: neither it nor anything behind it is
      handed on. */
  lemma OverlongLineEndsTheScan(a: string, b: string)
    requires Complete(a) && ShortLines(a)
    requires |b| >= 1048576 && LF !in b[..1048576]
    ensures Lines(a + b) == Lines(a)
  {
    LinesAppend(a, b);
    var head := b[..1048576];
    assert forall k :: 0 <= k < 1048576 ==> b[k] == head[k] && head[k] in head;
    assert Lines(b) == [];
  }

  // ----- the poll loop --------------------------------------------------------

  datatype Tail = Tail(attached: bool, offset: int)

  /** One turn of the loop: the file could not be opened or examined, or its size
      was taken and then, if the seek worked, its content was read. The file may
      change in between. */
  datatype Poll = Unavailable | Snapshot(size: nat, data: string, seekWorks: bool)

  function From(data: string, offset: int): string {
    if 0 <= offset <= |data| then data[offset..] else ""
  }

  function Settle(t: Tail, size: nat): Tail {
    var offset := if t.attached then t.offset else size;
    Tail(true, NextLogOffset(offset, size, MAX_BYTES_PER_POLL).offset)
  }

  function PollStep(t: Tail, p: Poll): (Tail, seq<string>) {
    match p
    case Unavailable => (t, [])
    case Snapshot(size, data, seekWorks) =>
      var at := Settle(t, size);
      if !seekWorks then (at, [])
      else
        var lines := Lines(From(data, at.offset));
        (at.(offset := at.offset + Advance(lines)), lines)
  }

  class Tailer {
    var attached: bool
    var offset: int

    ghost function Model(): Tail
      reads this
    {
      Tail(attached, offset)
    }

    constructor ()
      ensures Model() == Tail(false, 0)
    {
      attached, offset := false, 0;
    }

    /** One turn of monitorLogFile; the lines are handed to handleLogLine. */
    method PollOnce(p: Poll) returns (handed: seq<string>)
      modifies this
      ensures Model() == PollStep(old(Model()), p).0
      ensures handed == PollStep(old(Model()), p).1
    {
      handed := [];
      if p.Unavailable? {
        return;
      }
      if !attached {
        offset := p.size;
        attached := true;
      }
      offset := NextLogOffset(offset, p.size, MAX_BYTES_PER_POLL).offset;
      if p.seekWorks {
        var moved: nat;
        handed, moved := ScanAll(From(p.data, offset));
        offset := offset + moved;
      }
    }
  }

  /** The loop over scanner.Scan. */
  method ScanAll(all: string) returns (handed: seq<string>, moved: nat)
    ensures handed == Lines(all)
    ensures moved == Advance(Lines(all))
  {
    handed, moved := [], 0;
    var text := all;
    while true
      invariant Lines(all) == handed + Lines(text)
      invariant Advance(Lines(all)) == moved + Advance(Lines(text))
      decreases |text|
    {
      match NextToken(text) {
        case NoToken => return;
        case Token(line, rest) =>
          AdvanceCons(line, Lines(rest));
          moved := moved + |line| + 1;
          handed := handed + [line];
          text := rest;
      }
    }
  }

  function Run(t: Tail, polls: seq<Poll>): (Tail, seq<string>)
    decreases |polls|
  {
    if polls == [] then (t, [])
    else
      var (t1, first) := PollStep(t, polls[0]);
      var (t2, more) := Run(t1, polls[1..]);
      (t2, first + more)
  }

  // ----- every line once, in order ---------------------------------------------

  /** The polls see an append-only file grow from `from`: each content is a prefix
      of `file` made of whole lines, the size was taken no later than the read, and
      no poll finds more than the cap unread. */
  ghost predicate Grows(file: string, from: nat, polls: seq<Poll>)
    decreases |polls|
  {
    polls == [] ||
    (match polls[0]
     case Unavailable => Grows(file, from, polls[1..])
     case Snapshot(size, data, seekWorks) =>
       && seekWorks && data <= file && Complete(data)
       && from <= size <= |data|
       && size - from <= 1048576
       && Grows(file, |data|, polls[1..]))
  }

  function End(from: nat, polls: seq<Poll>): nat
    decreases |polls|
  {
    if polls == [] then from
    else if polls[0].Unavailable? then End(from, polls[1..])
    else End(|polls[0].data|, polls[1..])
  }

  lemma SliceHasNo(s: string, c: char, lo: nat, hi: nat)
    requires c !in s && lo <= hi <= |s|
    ensures c !in s[lo..hi]
  {
  }

  lemma PrefixSlice(file: string, data: string, at: nat)
    requires data <= file && at <= |data|
    ensures data[at..] == file[at..|data|]
    ensures Complete(data) ==> Complete(data[at..])
  {
  }

  /** Whole regular lines move the offset to their end. */
  lemma RegularTextAdvances(s: string)
    requires ShortLines(s) && CR !in s && Complete(s)
    ensures Advance(Lines(s)) == |s|
  {
    NoCRsNoDrift(s);
    AdvanceIsExact(s);
  }

  lemma AddedTextIsRegular(file: string, data: string, from: nat)
    requires ShortLines(file) && CR !in file
    requires data <= file && Complete(data) && from <= |data|
    ensures ShortLines(data[from..]) && Complete(data[from..])
    ensures Advance(Lines(data[from..])) == |data| - from
  {
    PrefixSlice(file, data, from);
    ShortLinesSlice(file, from, |data|);
    SliceHasNo(file, CR, from, |data|);
    RegularTextAdvances(data[from..]);
  }

  lemma SteadyPoll(from: nat, size: nat, data: string)
    requires from <= size <= |data| && size - from <= 1048576
    ensures PollStep(Tail(true, from), Snapshot(size, data, true)) ==
            (Tail(true, from + Advance(Lines(data[from..]))), Lines(data[from..]))
  {
    assert Settle(Tail(true, from), size) == Tail(true, from);
  }

  /** One poll of a growing file hands on the new lines and stops at its end. */
  lemma GrowingPoll(file: string, from: nat, size: nat, data: string)
    requires ShortLines(file) && CR !in file
    requires data <= file && Complete(data) && from <= size <= |data| && size - from <= 1048576
    ensures PollStep(Tail(true, from), Snapshot(size, data, true)) == (Tail(true, |data|), Lines(data[from..]))
  {
    AddedTextIsRegular(file, data, from);
    SteadyPoll(from, size, data);
  }

  lemma RunCons(t: Tail, polls: seq<Poll>, t1: Tail, first: seq<string>, t2: Tail, more: seq<string>)
    requires polls != [] && PollStep(t, polls[0]) == (t1, first) && Run(t1, polls[1..]) == (t2, more)
    ensures Run(t, polls) == (t2, first + more)
  {
  }

  lemma SlicesMeet(file: string, data: string, from: nat, end: nat)
    requires data <= file && from <= |data| <= end <= |file|
    ensures file[from..end] == data[from..] + file[|data|..end]
  {
  }

  /** The lines handed on over all polls are exactly the file's lines after the
      attach point, in order, each once. */
  lemma {:induction false} EveryLineOnce(file: string, from: nat, polls: seq<Poll>)
    requires ShortLines(file) && CR !in file && from <= |file|
    requires Grows(file, from, polls)
    ensures from <= End(from, polls) <= |file|
    ensures Run(Tail(true, from), polls) == (Tail(true, End(from, polls)), Lines(file[from..End(from, polls)]))
    decreases |polls|
  {
    if polls == [] {
      NoPolls(file, from);
    } else if polls[0].Unavailable? {
      EveryLineOnce(file, from, polls[1..]);
      SkippedPoll(Tail(true, from), polls);
    } else {
      var data := polls[0].data;
      EveryLineOnce(file, |data|, polls[1..]);
      OneMorePoll(file, from, polls, End(|data|, polls[1..]));
    }
  }

  lemma NoPolls(file: string, from: nat)
    requires from <= |file|
    ensures Lines(file[from..from]) == []
  {
  }

  lemma SkippedPoll(t: Tail, polls: seq<Poll>)
    requires polls != [] && polls[0].Unavailable?
    ensures Run(t, polls) == Run(t, polls[1..])
  {
    var (t2, more) := Run(t, polls[1..]);
    assert [] + more == more;
  }

  lemma OneMorePoll(file: string, from: nat, polls: seq<Poll>, end: nat)
    requires ShortLines(file) && CR !in file && from <= |file|
    requires polls != [] && polls[0].Snapshot? && Grows(file, from, polls)
    requires |polls[0].data| <= end <= |file|
    requires Run(Tail(true, |polls[0].data|), polls[1..]) == (Tail(true, end), Lines(file[|polls[0].data|..end]))
    ensures Run(Tail(true, from), polls) == (Tail(true, end), Lines(file[from..end]))
  {
    var data := polls[0].data;
    GrowingPoll(file, from, polls[0].size, data);
    RunCons(Tail(true, from), polls, Tail(true, |data|), Lines(data[from..]),
      Tail(true, end), Lines(file[|data|..end]));
    AddedTextIsRegular(file, data, from);
    SlicesMeet(file, data, from, end);
    LinesAppend(data[from..], file[|data|..end]);
  }

  /** The same from the first poll on: whatever was there when the size was first
      taken is not replayed. */
  lemma AttachThenEveryLineOnce(file: string, polls: seq<Poll>)
    requires ShortLines(file) && CR !in file
    requires polls != [] && polls[0].Snapshot? && polls[0].size <= |file|
    requires Grows(file, polls[0].size, polls)
    ensures polls[0].size <= End(polls[0].size, polls) <= |file|
    ensures var start := polls[0].size;
            Run(Tail(false, 0), polls) ==
            (Tail(true, End(start, polls)), Lines(file[start..End(start, polls)]))
  {
    var start := polls[0].size;
    assert PollStep(Tail(false, 0), polls[0]) == PollStep(Tail(true, start), polls[0]);
    assert Run(Tail(false, 0), polls) == Run(Tail(true, start), polls);
    EveryLineOnce(file, start, polls);
  }

  // ----- backlogs, failed seeks and unavailable files ---------------------------------

  /** As Grows, without the cap and with seeks that may fail; floor is the size seen so
      far. */
  ghost predicate Swells(file: string, floor: nat, polls: seq<Poll>)
    decreases |polls|
  {
    polls == [] ||
    (match polls[0]
     case Unavailable => Swells(file, floor, polls[1..])
     case Snapshot(size, data, seekWorks) =>
       && floor <= size <= |file|
       && (seekWorks ==> data <= file && Complete(data) && size <= |data|)
       && Swells(file, if seekWorks then |data| else size, polls[1..]))
  }

  /** Where reading starts: where it stopped, or the cap before the size taken. */
  function StartAt(offset: nat, size: nat): (r: nat)
    requires offset <= size
    ensures offset <= r <= size
    ensures r == offset || r == size - 1048576
    ensures size - r <= 1048576
  {
    NextLogOffset(offset, size, MAX_BYTES_PER_POLL).offset
  }

  /** A stretch of the file that one poll reads. */
  datatype Stretch = Stretch(start: nat, end: nat)

  /** The stretches read from an offset on, and the offset they leave. */
  function Reads(file: string, floor: nat, from: nat, polls: seq<Poll>): (seq<Stretch>, nat)
    requires from <= floor && Swells(file, floor, polls)
    decreases |polls|
  {
    if polls == [] then ([], from)
    else match polls[0]
      case Unavailable => Reads(file, floor, from, polls[1..])
      case Snapshot(size, data, seekWorks) =>
        var at := StartAt(from, size);
        if !seekWorks then Reads(file, size, at, polls[1..])
        else
          var (more, end) := Reads(file, |data|, |data|, polls[1..]);
          ([Stretch(at, |data|)] + more, end)
  }

  /** Stretches in order within the file, between two offsets. */
  ghost predicate Ascending(file: string, from: nat, stretches: seq<Stretch>, end: nat)
    decreases |stretches|
  {
    if stretches == [] then from <= end <= |file|
    else
      && from <= stretches[0].start <= stretches[0].end <= |file|
      && Ascending(file, stretches[0].end, stretches[1..], end)
  }

  function LinesOf(file: string, stretches: seq<Stretch>): seq<string>
    decreases |stretches|
  {
    if stretches == [] then []
    else if stretches[0].start <= stretches[0].end <= |file| then
      Lines(file[stretches[0].start..stretches[0].end]) + LinesOf(file, stretches[1..])
    else LinesOf(file, stretches[1..])
  }

  lemma AscendingEnds(file: string, from: nat, stretches: seq<Stretch>, end: nat)
    requires Ascending(file, from, stretches, end)
    ensures from <= end <= |file|
    decreases |stretches|
  {
    if stretches == [] {
    } else {
      AscendingEnds(file, stretches[0].end, stretches[1..], end);
    }
  }

  lemma PollFrom(from: nat, size: nat, data: string)
    requires from <= size <= |data|
    ensures var at := StartAt(from, size);
            PollStep(Tail(true, from), Snapshot(size, data, true)) ==
            (Tail(true, at + Advance(Lines(data[at..]))), Lines(data[at..]))
  {
    assert Settle(Tail(true, from), size) == Tail(true, StartAt(from, size));
  }

  /** One poll with any backlog lands on the end of the content, and hands on the lines
      behind its starting point. */
  lemma BacklogPoll(file: string, from: nat, size: nat, data: string)
    requires ShortLines(file) && CR !in file
    requires data <= file && Complete(data) && from <= size <= |data|
    ensures var at := StartAt(from, size);
            PollStep(Tail(true, from), Snapshot(size, data, true)) == (Tail(true, |data|), Lines(file[at..|data|]))
  {
    var at := StartAt(from, size);
    AddedTextIsRegular(file, data, at);
    PollFrom(from, size, data);
    PrefixSlice(file, data, at);
  }

  lemma ReadsStep(file: string, floor: nat, from: nat, polls: seq<Poll>)
    requires from <= floor && Swells(file, floor, polls) && polls != [] && polls[0].Snapshot? && polls[0].seekWorks
    ensures var (size, data) := (polls[0].size, polls[0].data);
            var (more, end) := Reads(file, |data|, |data|, polls[1..]);
            var stretches := [Stretch(StartAt(from, size), |data|)] + more;
            && Reads(file, floor, from, polls) == (stretches, end)
            && LinesOf(file, stretches) == Lines(file[StartAt(from, size)..|data|]) + LinesOf(file, more)
            && (Ascending(file, |data|, more, end) ==> Ascending(file, from, stretches, end))
  {
    var more := Reads(file, |polls[0].data|, |polls[0].data|, polls[1..]).0;
    assert ([Stretch(StartAt(from, polls[0].size), |polls[0].data|)] + more)[1..] == more;
  }

  /** Through any backlogs, failed seeks and unavailable files: the offset moves forward
      and never passes the end of the file, and what is handed on are the lines of
      ascending stretches of it, each beginning where reading stopped or exactly the cap
      before the size taken. */
  lemma {:induction false} BacklogKeepsTheOffsetInside(file: string, floor: nat, from: nat, polls: seq<Poll>)
    requires ShortLines(file) && CR !in file && from <= floor <= |file|
    requires Swells(file, floor, polls)
    ensures var (stretches, end) := Reads(file, floor, from, polls);
            && Run(Tail(true, from), polls) == (Tail(true, end), LinesOf(file, stretches))
            && Ascending(file, from, stretches, end) && from <= end <= |file|
    decreases |polls|
  {
    if polls == [] {
    } else if polls[0].Unavailable? {
      BacklogKeepsTheOffsetInside(file, floor, from, polls[1..]);
      SkippedPoll(Tail(true, from), polls);
    } else if !polls[0].seekWorks {
      var at := StartAt(from, polls[0].size);
      BacklogKeepsTheOffsetInside(file, polls[0].size, at, polls[1..]);
      FailedSeek(file, floor, from, polls);
    } else {
      var data := polls[0].data;
      BacklogKeepsTheOffsetInside(file, |data|, |data|, polls[1..]);
      BacklogPoll(file, from, polls[0].size, data);
      ReadsStep(file, floor, from, polls);
      var (more, end) := Reads(file, |data|, |data|, polls[1..]);
      RunCons(Tail(true, from), polls, Tail(true, |data|), Lines(file[StartAt(from, polls[0].size)..|data|]),
        Tail(true, end), LinesOf(file, more));
    }
  }

  lemma FailedSeek(file: string, floor: nat, from: nat, polls: seq<Poll>)
    requires from <= floor && Swells(file, floor, polls) && polls != [] && polls[0].Snapshot? && !polls[0].seekWorks
    ensures var at := StartAt(from, polls[0].size);
            && Run(Tail(true, from), polls) == Run(Tail(true, at), polls[1..])
            && Reads(file, floor, from, polls) == Reads(file, polls[0].size, at, polls[1..])
            && forall stretches, end ::
                 Ascending(file, at, stretches, end) ==> Ascending(file, from, stretches, end)
  {
    var at := StartAt(from, polls[0].size);
    var (t2, more) := Run(Tail(true, at), polls[1..]);
    assert [] + more == more;
    assert PollStep(Tail(true, from), polls[0]) == (Tail(true, at), []);
    forall stretches, end | Ascending(file, at, stretches, end)
      ensures Ascending(file, from, stretches, end)
    {
    }
  }

  predicate IsSuffix(a: string, b: string) { |a| <= |b| && a == b[|b| - |a|..] }

  /** some is the end of all, but for a cut in its first line. */
  predicate CutAt(some: seq<string>, all: seq<string>, k: nat) {
    k < |all| && some != [] && some[1..] == all[k + 1..] && IsSuffix(some[0], all[k])
  }

  lemma CutAfterOneMore(some: seq<string>, line: string, all: seq<string>, k: nat)
    requires CutAt(some, all, k)
    ensures CutAt(some, [line] + all, k + 1)
  {
    assert ([line] + all)[k + 2..] == all[k + 1..];
  }

  lemma CutAtOnce(cut: string, line: string, rest: seq<string>)
    requires IsSuffix(cut, line)
    ensures CutAt([cut] + rest, [line] + rest, 0)
  {
    assert ([cut] + rest)[1..] == rest == ([line] + rest)[1..];
  }

  lemma DropTwice(s: string, i: nat, at: nat)
    requires i < at <= |s|
    ensures s[at..] == s[i + 1..][at - i - 1..]
  {
  }

  /** Whole lines, split after the first. */
  lemma FirstLine(s: string, i: nat)
    requires i < |s| && s[i] == LF && LF !in s[..i] && CR !in s && i < 1048576
    ensures Lines(s) == [s[..i]] + Lines(s[i + 1..])
  {
    CutInFirstLine(s, 0, i);
    assert s[0..] == s && s[0..i] == s[..i];
  }

  lemma FirstLineEnds(s: string)
    requires ShortLines(s) && Complete(s) && s != ""
    ensures var i := IndexOf(s, LF); 0 <= i < 1048576 && i < |s| && s[i] == LF && LF !in s[..i]
  {
    ShortLinesFirst(s);
    assert s[|s| - 1] == LF;
  }

  lemma RestIsRegular(s: string, i: nat)
    requires ShortLines(s) && CR !in s && Complete(s) && i < |s|
    ensures ShortLines(s[i + 1..]) && CR !in s[i + 1..] && Complete(s[i + 1..])
  {
    ShortLinesFrom(s, i + 1);
    SliceHasNo(s, CR, i + 1, |s|);
    assert s[i + 1..|s|] == s[i + 1..];
  }

  /** What a skip hands on: reading complete lines from the middle gives the whole
      text's lines from some line on, of which the first may have lost its beginning. */
  lemma {:induction false} SkippedLinesAreCut(s: string, at: nat, tail: string) returns (k: nat)
    requires ShortLines(s) && CR !in s && Complete(s) && at < |s| && tail == s[at..]
    ensures CutAt(Lines(tail), Lines(s), k)
    decreases |s|
  {
    FirstLineEnds(s);
    var i := IndexOf(s, LF);
    FirstLine(s, i);
    if at <= i {
      k := 0;
      CutInFirstLine(s, at, i);
      CutAtOnce(s[at..i], s[..i], Lines(s[i + 1..]));
    } else {
      k := CutBehindFirstLine(s, at, tail, i, s[i + 1..]);
      CutAfterOneMore(Lines(tail), s[..i], Lines(s[i + 1..]), k);
      k := k + 1;
    }
  }

  lemma {:induction false} CutBehindFirstLine(s: string, at: nat, tail: string, i: nat, rest: string) returns (k: nat)
    requires ShortLines(s) && CR !in s && Complete(s) && i < at < |s| && tail == s[at..] && rest == s[i + 1..]
    ensures CutAt(Lines(tail), Lines(rest), k)
    decreases |s|, 0
  {
    RestIsRegular(s, i);
    DropTwice(s, i, at);
    k := SkippedLinesAreCut(rest, at - i - 1, tail);
  }

  lemma CutInFirstLine(s: string, at: nat, i: nat)
    requires at <= i < |s| && s[i] == LF && LF !in s[..i] && CR !in s && i < 1048576
    ensures Lines(s[at..]) == [s[at..i]] + Lines(s[i + 1..])
    ensures IsSuffix(s[at..i], s[..i])
  {
    var cut := s[at..i];
    assert forall c :: c in cut ==> c in s[..i];
    assert s[at..] == cut + [LF] + s[i + 1..];
    LinesStep(cut, s[i + 1..]);
    assert forall c :: c in cut ==> c in s;
    assert DropCR(cut) == cut;
  }

  /** When the offset after a poll of a short-line file is the end of the content:
      exactly when the dropped carriage returns balance the missing line feed. */
  lemma OffsetMeetsEndExactly(from: nat, size: nat, data: string)
    requires ShortLines(data) && from <= size <= |data|
    ensures var at := Settle(Tail(true, from), size).offset;
            PollStep(Tail(true, from), Snapshot(size, data, true)).0.offset == |data| <==>
            LineEndCRs(data[at..]) == if Complete(data[at..]) then 0 else 1
  {
    var at := Settle(Tail(true, from), size).offset;
    ShortLinesFrom(data, at);
    AdvanceIsExact(data[at..]);
  }

  lemma CarriageReturnIsDropped()
    ensures Lines("a\r\n") == ["a"]
  {
    assert DropCR("a\r") == "a";
    LinesStep("a\r", "");
    assert "a\r" + [LF] + "" == "a\r\n" && Lines("") == [];
  }

  /** Both ways to miss it: a carriage return leaves the offset short of the end of the
      content, and an unterminated line takes it past the end, after which the next poll
      sees the file as shrunk. */
  lemma OffsetMissesTheEnd()
    ensures PollStep(Tail(true, 0), Snapshot(3, "a\r\n", true)) == (Tail(true, 2), ["a"])
    ensures PollStep(Tail(true, 0), Snapshot(1, "a", true)) == (Tail(true, 2), ["a"])
    ensures NextLogOffset(2, 1, 1048576).action == ReattachAfterShrink
  {
    CarriageReturnIsDropped();
    assert Lines("") == [] && Lines("a") == ["a"];
    PollFrom(0, 3, "a\r\n");
    PollFrom(0, 1, "a");
    assert ("a\r\n")[0..] == "a\r\n" && ("a")[0..] == "a";
    AdvanceCons("a", []);
  }

  // ----- nothing old is ever read -----------------------------------------------

  /** A byte of the live file together with the moment it was written. */
  datatype Cell = Cell(byte: char, birth: nat)

  /** The file and the tailer side by side. `barrier` is the moment of the last
      attach or observed shrink; `seen` collects everything read so far. */
  datatype World = World(file: seq<Cell>, clock: nat, tail: Tail, barrier: nat, seen: seq<Cell>)

  datatype Move = Append(text: string) | Truncate(length: nat) | TakeSize | Read

  function Written(text: string, at: nat): (r: seq<Cell>)
    ensures |r| == |text|
  {
    seq(|text|, i requires 0 <= i < |text| => Cell(text[i], at))
  }

  function Bytes(cells: seq<Cell>): (s: string)
    ensures |s| == |cells|
  {
    seq(|cells|, i requires 0 <= i < |cells| => cells[i].byte)
  }

  predicate Reattaches(w: World) {
    !w.tail.attached || |w.file| < w.tail.offset
  }

  function Unread(w: World): seq<Cell> {
    if w.tail.attached && 0 <= w.tail.offset <= |w.file| then w.file[w.tail.offset..] else []
  }

  function Next(w: World, m: Move): World {
    match m
    case Append(text) => w.(file := w.file + Written(text, w.clock), clock := w.clock + 1)
    case Truncate(length) => w.(file := if length <= |w.file| then w.file[..length] else w.file)
    case TakeSize =>
      if Reattaches(w) then w.(tail := Settle(w.tail, |w.file|), barrier := w.clock)
      else w.(tail := Settle(w.tail, |w.file|))
    case Read =>
      var cells := Unread(w);
      w.(tail := w.tail.(offset := w.tail.offset + Advance(Lines(Bytes(cells)))), seen := w.seen + cells)
  }

  predicate Inv(w: World) {
    && (forall i :: 0 <= i < |w.file| ==> w.file[i].birth < w.clock)
    && w.barrier <= w.clock
    && (w.tail.attached ==>
          && w.tail.offset >= 0
          && forall i :: w.tail.offset <= i < |w.file| ==> w.file[i].birth >= w.barrier)
  }

  lemma InvHolds(w: World, m: Move)
    requires Inv(w)
    ensures Inv(Next(w, m))
  {
  }

  function Runs(w: World, moves: seq<Move>): World
    decreases |moves|
  {
    if moves == [] then w else Runs(Next(w, moves[0]), moves[1..])
  }

  /** What a run reads was written after the barrier it started behind. */
  lemma {:induction false} ReadsOnlyNewBytes(w: World, moves: seq<Move>)
    requires Inv(w)
    ensures w.seen <= Runs(w, moves).seen
    ensures forall i :: |w.seen| <= i < |Runs(w, moves).seen| ==> Runs(w, moves).seen[i].birth >= w.barrier
    decreases |moves|
  {
    if moves == [] {
    } else {
      var w1 := Next(w, moves[0]);
      InvHolds(w, moves[0]);
      ReadsOnlyNewBytes(w1, moves[1..]);
      assert w.seen <= w1.seen;
      assert forall i :: |w.seen| <= i < |w1.seen| ==> w1.seen[i].birth >= w.barrier;
    }
  }

  /** Through any appends, truncations and polls after an attach or an observed
      shrink, no byte that was in the file at that time is ever read: everything
      read from then on was written later. */
  lemma NoOldByteIsRead(w: World, moves: seq<Move>)
    requires Inv(w) && Reattaches(w)
    ensures var at := Next(w, TakeSize);
            var later := Runs(at, moves);
            && (forall c :: c in at.file ==> c.birth < w.clock)
            && at.seen == w.seen <= later.seen
            && (forall i :: |w.seen| <= i < |later.seen| ==> later.seen[i].birth >= w.clock)
  {
    InvHolds(w, TakeSize);
    ReadsOnlyNewBytes(Next(w, TakeSize), moves);
  }
}
