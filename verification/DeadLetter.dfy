/** The dead-letter queue: entries as one JSON line each, appended to a file while it is open and logged after. */
module DeadLetter {
  import opened Outcomes
  import opened JsonText
  import opened Translator
  import opened TranslatorLaws
  import opened Base64

  /** A nil byte slice is encoded as null. */
  datatype Entry = Entry(receivedAt: string, source: string, reason: string, raw: Option<seq<byte>>)

  function RawJson(raw: Option<seq<byte>>): Json {
    match raw
    case None => Null
    case Some(bytes) => Str(Encode(bytes))
  }

  function EntryJson(e: Entry): Json {
    Obj(Member("received_at", Str(e.receivedAt),
        Member("source", Str(e.source),
        Member("reason", Str(e.reason),
        Member("raw", RawJson(e.raw), NoMembers)))))
  }

  /** The text of an entry, without the newline that ends its line. */
  function EntryText(e: Entry): string { Print(EntryJson(e)) }

  function ReadRaw(members: Members): Option<Option<seq<byte>>> {
    match RawField(members, "raw")
    case Some(Str(s)) =>
      var bytes :- Decode(s);
      Some(Some(bytes))
    case Some(Null) => Some(None)
    case None => Some(None)
    case Some(_) => None
  }

  /** A line of the file decoded into an entry. */
  function ReadEntry(line: string): Option<Entry> {
    var top :- Unmarshal(line);
    match top
    case Obj(members) =>
      var receivedAt :- StringField(members, "received_at", "");
      var source :- StringField(members, "source", "");
      var reason :- StringField(members, "reason", "");
      var raw :- ReadRaw(members);
      Some(Entry(receivedAt, source, reason, raw))
    case _ => None
  }

  lemma EntryJsonWellFormed(e: Entry)
    ensures WellFormed(EntryJson(e))
  {
    var m3 := Member("raw", RawJson(e.raw), NoMembers);
    var m2 := Member("reason", Str(e.reason), m3);
    var m1 := Member("source", Str(e.source), m2);
    assert WellFormedMembers(NoMembers);
    OneMore("raw", RawJson(e.raw), NoMembers);
    OneMore("reason", Str(e.reason), m3);
    OneMore("source", Str(e.source), m2);
    OneMore("received_at", Str(e.receivedAt), m1);
  }

  lemma FieldFront(key: string, value: string, rest: Members)
    ensures forall k, soFar :: StringField(Member(key, Str(value), rest), k, soFar) ==
                               StringField(rest, k, if Names(key, k) then value else soFar)
  {
  }

  lemma EntryFields(e: Entry)
    ensures
      var members := EntryJson(e).members;
      && StringField(members, "received_at", "") == Some(e.receivedAt)
      && StringField(members, "source", "") == Some(e.source)
      && StringField(members, "reason", "") == Some(e.reason)
      && ReadRaw(members) == Some(e.raw)
  {
    var m3 := Member("raw", RawJson(e.raw), NoMembers);
    var m2 := Member("reason", Str(e.reason), m3);
    var m1 := Member("source", Str(e.source), m2);
    FieldFront("reason", e.reason, m3);
    FieldFront("source", e.source, m2);
    FieldFront("received_at", e.receivedAt, m1);
    RawReads(e, m3);
    assert Folded("source"[0]) != Folded("reason"[0]);
  }

  lemma RawReads(e: Entry, m3: Members)
    requires m3 == Member("raw", RawJson(e.raw), NoMembers)
    ensures ReadRaw(EntryJson(e).members) == Some(e.raw)
    ensures forall k, soFar :: !Names("raw", k) ==> StringField(m3, k, soFar) == Some(soFar)
  {
    var m2 := Member("reason", Str(e.reason), m3);
    var m1 := Member("source", Str(e.source), m2);
    assert RawField(m3, "raw") == Some(RawJson(e.raw));
    assert RawField(m2, "raw") == Some(RawJson(e.raw));
    assert RawField(m1, "raw") == Some(RawJson(e.raw));
    if e.raw.Some? {
      RoundTrip(e.raw.value);
    }
  }

  /** An entry survives its encoding, and its text stays on one line. */
  lemma {:induction false} EntryRoundTrip(e: Entry)
    ensures ReadEntry(EntryText(e)) == Some(e)
    ensures '\n' !in EntryText(e)
  {
    EntryJsonWellFormed(e);
    EntryDepth(e);
    UnmarshalOfPrint(EntryJson(e));
    PrintPrintable(EntryJson(e));
    EntryFields(e);
  }

  /** The four members of a record, in order; the bytes are in base64, and null where there are none. */
  lemma EntryMembers(e: Entry)
    ensures Parse(EntryText(e)).Some? && Parse(EntryText(e)).value.Obj?
    ensures Pairs(Parse(EntryText(e)).value.members) ==
            [("received_at", Str(e.receivedAt)), ("source", Str(e.source)), ("reason", Str(e.reason)),
             ("raw", if e.raw.Some? then Str(Encode(e.raw.value)) else Null)]
  {
    EntryJsonWellFormed(e);
    ParseOfPrint(EntryJson(e));
    EntryPairs(e);
  }

  lemma EntryPairs(e: Entry)
    ensures Pairs(EntryJson(e).members) ==
            [("received_at", Str(e.receivedAt)), ("source", Str(e.source)), ("reason", Str(e.reason)),
             ("raw", RawJson(e.raw))]
  {
    var m3 := Member("raw", RawJson(e.raw), NoMembers);
    var m2 := Member("reason", Str(e.reason), m3);
    var m1 := Member("source", Str(e.source), m2);
    assert Pairs(m3) == [("raw", RawJson(e.raw))] + Pairs(NoMembers);
    assert Pairs(m2) == [("reason", Str(e.reason))] + Pairs(m3);
    assert Pairs(m1) == [("source", Str(e.source))] + Pairs(m2);
  }

  lemma EntryDepth(e: Entry)
    ensures Depth(EntryJson(e)) == 1
  {
    var m3 := Member("raw", RawJson(e.raw), NoMembers);
    var m2 := Member("reason", Str(e.reason), m3);
    var m1 := Member("source", Str(e.source), m2);
    DepthFront("raw", RawJson(e.raw), NoMembers);
    DepthFront("reason", Str(e.reason), m3);
    DepthFront("source", Str(e.source), m2);
    DepthFront("received_at", Str(e.receivedAt), m1);
  }

  // ---- Framing ----

  /** Length of the first line, without its newline. */
  function LineRun(s: string): (n: nat)
    ensures n <= |s| && '\n' !in s[..n] && (n < |s| ==> s[n] == '\n')
  {
    if s == "" || s[0] == '\n' then 0
    else
      var n := 1 + LineRun(s[1..]);
      assert s[..n] == [s[0]] + s[1..][..n - 1];
      n
  }

  /** A file split on newlines; an unfinished last line counts as one. */
  function Lines(s: string): seq<string> {
    if s == "" then []
    else
      var n := LineRun(s);
      if n == |s| then [s] else [s[..n]] + Lines(s[n + 1..])
  }

  lemma {:induction false} LineRunStops(line: string, rest: string)
    requires '\n' !in line
    ensures LineRun(line + "\n" + rest) == |line|
  {
    var s := line + "\n" + rest;
    if line != "" {
      LineRunStops(line[1..], rest);
      assert s[1..] == line[1..] + "\n" + rest;
    }
  }

  lemma FirstLine(line: string, rest: string)
    requires '\n' !in line
    ensures Lines(line + "\n" + rest) == [line] + Lines(rest)
  {
    var s := line + "\n" + rest;
    LineRunStops(line, rest);
    assert s[..|line|] == line && s[|line| + 1..] == rest;
  }

  /** A file that an appender may continue: empty, or ended by a newline. */
  predicate Terminated(s: string) { s == "" || s[|s| - 1] == '\n' }

  lemma CutFirstLine(s: string) returns (line: string, rest: string)
    requires s != "" && Terminated(s)
    ensures s == line + "\n" + rest && '\n' !in line && Terminated(rest) && |rest| < |s|
  {
    var n := LineRun(s);
    assert s[..|s|] == s && s[|s| - 1] in s;
    assert n < |s|;
    line, rest := s[..n], s[n + 1..];
  }

  lemma {:induction false} LinesOfJoin(s: string, t: string)
    requires Terminated(s)
    ensures Lines(s + t) == Lines(s) + Lines(t)
    decreases |s|
  {
    if s == "" {
      assert s + t == t;
    } else {
      var line, rest := CutFirstLine(s);
      LinesOfJoin(rest, t);
      JoinAfterLine(line, rest, t, Lines(rest), Lines(t));
    }
  }

  lemma JoinAfterLine(line: string, rest: string, t: string, restLines: seq<string>, tLines: seq<string>)
    requires '\n' !in line && Lines(rest) == restLines && Lines(rest + t) == restLines + tLines
    ensures Lines(line + "\n" + rest) == [line] + restLines
    ensures Lines(line + "\n" + rest + t) == [line] + restLines + tLines
  {
    FirstLine(line, rest);
    FirstLine(line, rest + t);
    Associate(line + "\n", rest, t);
    AssociateLines([line], restLines, tLines);
  }

  lemma AssociateLines(a: seq<string>, b: seq<string>, c: seq<string>)
    ensures (a + b) + c == a + (b + c)
  {
  }

  lemma OneLine(line: string)
    requires '\n' !in line
    ensures Lines(line + "\n") == [line]
  {
    FirstLine(line, "");
    assert line + "\n" + "" == line + "\n";
  }

  lemma LineAppended(file: string, line: string)
    requires Terminated(file) && '\n' !in line
    ensures Terminated(file + line + "\n")
    ensures Lines(file + line + "\n") == Lines(file) + [line]
  {
    OneLine(line);
    LinesOfJoin(file, line + "\n");
    Associate(file, line, "\n");
  }

  /** Where the last line begins that has no newline yet. */
  function LastBreak(s: string): (n: nat)
    ensures n <= |s| && Terminated(s[..n]) && '\n' !in s[n..]
  {
    if Terminated(s) then |s|
    else
      var n := LastBreak(s[..|s| - 1]);
      assert s[..n] == s[..|s| - 1][..n] && s[n..] == s[..|s| - 1][n..] + [s[|s| - 1]];
      n
  }

  /** The finished lines of a file, and the unfinished one. */
  function Whole(s: string): string { s[..LastBreak(s)] }

  function Torn(s: string): string { s[LastBreak(s)..] }

  // ---- Pushing and closing ----

  /** `file` is the content on disk; `open` says whether pushes still go there. */
  datatype State = State(open: bool, file: string, log: seq<string>)

  /** `wrote` is how much of the line reaches the file: all of it unless the write fails. */
  datatype Op = PushOp(entry: Entry, wrote: nat) | CloseOp

  function Line(e: Entry): string { EntryText(e) + "\n" }

  function Pushes(s: State, e: Entry, wrote: nat): State {
    if !s.open then s.(log := s.log + [EntryText(e)])
    else s.(file := s.file + if wrote < |Line(e)| then Line(e)[..wrote] else Line(e))
  }

  function Closed(s: State): State { s.(open := false) }

  function Perform(s: State, ops: seq<Op>): State {
    if ops == [] then s
    else
      var before := Perform(s, ops[..|ops| - 1]);
      match ops[|ops| - 1]
      case PushOp(e, wrote) => Pushes(before, e, wrote)
      case CloseOp => Closed(before)
  }

  /** Entries pushed while the file was open, or (filed = false) after it was closed, in lock order. */
  function Pushed(open: bool, ops: seq<Op>, filed: bool): seq<Entry> {
    if ops == [] then []
    else
      var before := ops[..|ops| - 1];
      Pushed(open, before, filed) +
      match ops[|ops| - 1]
      case PushOp(e, _) => if (open && CloseOp !in before) == filed then [e] else []
      case CloseOp => []
  }

  /** All lines read back as exactly these entries. */
  ghost predicate ReadBackAs(lines: seq<string>, entries: seq<Entry>) {
    |lines| == |entries| && forall i | 0 <= i < |lines| :: ReadEntry(lines[i]) == Some(entries[i])
  }

  lemma {:induction false} OpenUntilClosed(s: State, ops: seq<Op>)
    ensures Perform(s, ops).open <==> s.open && CloseOp !in ops
  {
    if ops != [] {
      OpenUntilClosed(s, ops[..|ops| - 1]);
      assert ops == ops[..|ops| - 1] + [ops[|ops| - 1]];
    }
  }

  // ---- All writes succeed ----

  ghost predicate WritesSucceed(ops: seq<Op>) {
    forall op | op in ops && op.PushOp? :: op.wrote >= |Line(op.entry)|
  }

  function Texts(entries: seq<Entry>): seq<string> {
    if entries == [] then [] else Texts(entries[..|entries| - 1]) + [EntryText(entries[|entries| - 1])]
  }

  /** Lines that begin with an unfinished one: the first entry shares a line with it, all others have their own. */
  function Continued(torn: string, entries: seq<Entry>): seq<string> {
    if entries != [] then [torn + EntryText(entries[0])] + Texts(entries[1..])
    else if torn != "" then [torn]
    else []
  }

  /** The finished lines of before are still there, the filed entries follow, and the log has the others. */
  ghost predicate Framed(prior: string, s: State, filed: seq<Entry>, logged: seq<Entry>) {
    && (if filed == [] then s.file == prior else Terminated(s.file))
    && Lines(s.file) == Lines(Whole(prior)) + Continued(Torn(prior), filed)
    && ReadBackAs(s.log, logged)
  }

  /** Whatever the file held before, the finished lines stay, and every entry pushed while the file was open follows on
      a line of its own, in lock order; only the first one continues an unfinished line if there was one. The entries
      pushed later are in the log alone. */
  lemma {:induction false} Framing(open: bool, prior: string, ops: seq<Op>)
    requires WritesSucceed(ops)
    ensures Framed(prior, Perform(State(open, prior, []), ops), Pushed(open, ops, true), Pushed(open, ops, false))
  {
    if ops == [] {
      LinesOfPrior(prior);
    } else {
      var front := ops[..|ops| - 1];
      Framing(open, prior, front);
      OpenUntilClosed(State(open, prior, []), front);
      PushedSnoc(open, ops);
      var before := Perform(State(open, prior, []), front);
      match ops[|ops| - 1]
      case PushOp(e, wrote) =>
        assert ops[|ops| - 1] in ops;
        if before.open {
          FiledPush(prior, before, Pushed(open, front, true), Pushed(open, front, false), e, wrote);
        } else {
          LoggedPush(prior, before, Pushed(open, front, true), Pushed(open, front, false), e, wrote);
        }
      case CloseOp =>
    }
  }

  lemma LinesOfPrior(prior: string)
    ensures Lines(prior) == Lines(Whole(prior)) + Continued(Torn(prior), [])
  {
    LinesOfJoin(Whole(prior), Torn(prior));
    assert Whole(prior) + Torn(prior) == prior;
    if Torn(prior) != "" {
      UnfinishedLine(Torn(prior));
    }
  }

  lemma UnfinishedLine(line: string)
    requires line != "" && '\n' !in line
    ensures Lines(line) == [line]
  {
    var n := LineRun(line);
  }

  lemma PushedSnoc(open: bool, ops: seq<Op>)
    requires ops != []
    ensures
      var front, last := ops[..|ops| - 1], ops[|ops| - 1];
      if last.CloseOp? then
        Pushed(open, ops, true) == Pushed(open, front, true) && Pushed(open, ops, false) == Pushed(open, front, false)
      else if open && CloseOp !in front then
        && Pushed(open, ops, true) == Pushed(open, front, true) + [last.entry]
        && Pushed(open, ops, false) == Pushed(open, front, false)
      else
        && Pushed(open, ops, true) == Pushed(open, front, true)
        && Pushed(open, ops, false) == Pushed(open, front, false) + [last.entry]
  {
  }

  lemma LoggedPush(prior: string, s: State, filed: seq<Entry>, logged: seq<Entry>, e: Entry, wrote: nat)
    requires !s.open && Framed(prior, s, filed, logged)
    ensures Framed(prior, Pushes(s, e, wrote), filed, logged + [e])
  {
    EntryRoundTrip(e);
  }

  lemma FiledPush(prior: string, s: State, filed: seq<Entry>, logged: seq<Entry>, e: Entry, wrote: nat)
    requires s.open && Framed(prior, s, filed, logged) && wrote >= |Line(e)|
    ensures Framed(prior, Pushes(s, e, wrote), filed + [e], logged)
  {
    EntryRoundTrip(e);
    Associate(s.file, EntryText(e), "\n");
    if filed == [] {
      FirstFiled(prior, e);
    } else {
      LineAppended(s.file, EntryText(e));
      ContinuedSnoc(Torn(prior), filed, e);
      AssociateLines(Lines(Whole(prior)), Continued(Torn(prior), filed), [EntryText(e)]);
    }
  }

  lemma FirstFiled(prior: string, e: Entry)
    requires '\n' !in EntryText(e)
    ensures Terminated(prior + Line(e))
    ensures Lines(prior + Line(e)) == Lines(Whole(prior)) + Continued(Torn(prior), [e])
  {
    LineAppended(Whole(prior), Torn(prior) + EntryText(e));
    TornContinues(prior, EntryText(e));
    assert Line(e) == EntryText(e) + "\n";
    assert [e][1..] == [];
  }

  lemma TornContinues(prior: string, text: string)
    ensures Whole(prior) + (Torn(prior) + text) + "\n" == prior + (text + "\n")
  {
    Regroup(Whole(prior), Torn(prior), text, "\n");
    assert Whole(prior) + Torn(prior) == prior;
  }

  lemma Regroup(a: string, b: string, c: string, d: string)
    ensures a + (b + c) + d == (a + b) + (c + d)
  {
  }

  lemma ContinuedSnoc(torn: string, filed: seq<Entry>, e: Entry)
    requires filed != []
    ensures Continued(torn, filed + [e]) == Continued(torn, filed) + [EntryText(e)]
  {
    assert (filed + [e])[1..] == filed[1..] + [e];
    assert (filed[1..] + [e])[..|filed[1..]|] == filed[1..];
    AssociateLines([torn + EntryText(filed[0])], Texts(filed[1..]), [EntryText(e)]);
  }

  lemma {:induction false} TextsReadBack(entries: seq<Entry>)
    ensures ReadBackAs(Texts(entries), entries)
  {
    if entries != [] {
      TextsReadBack(entries[..|entries| - 1]);
      EntryRoundTrip(entries[|entries| - 1]);
    }
  }

  /** So splitting the file on newlines and decoding gives, after the finished lines of before, exactly the entries
      pushed while it was open; if the file ended in an unfinished line, all but the first of them. */
  lemma FramingRoundTrip(open: bool, prior: string, ops: seq<Op>)
    requires WritesSucceed(ops)
    ensures
      var lines, n := Lines(Perform(State(open, prior, []), ops).file), |Lines(Whole(prior))|;
      var filed := Pushed(open, ops, true);
      && n <= |lines| && lines[..n] == Lines(Whole(prior))
      && (Torn(prior) == "" ==> ReadBackAs(lines[n..], filed))
      && (filed != [] ==> n < |lines| && ReadBackAs(lines[n + 1..], filed[1..]))
    ensures ReadBackAs(Perform(State(open, prior, []), ops).log, Pushed(open, ops, false))
  {
    Framing(open, prior, ops);
    var filed := Pushed(open, ops, true);
    CutLines(Lines(Whole(prior)), Continued(Torn(prior), filed));
    ContinuedReadsBack(Torn(prior), filed);
  }

  lemma ContinuedReadsBack(torn: string, filed: seq<Entry>)
    ensures torn == "" ==> ReadBackAs(Continued(torn, filed), filed)
    ensures filed != [] ==> Continued(torn, filed) != [] && ReadBackAs(Continued(torn, filed)[1..], filed[1..])
  {
    if filed != [] {
      TextsReadBack(filed[1..]);
      EntryRoundTrip(filed[0]);
      assert "" + EntryText(filed[0]) == EntryText(filed[0]);
    }
  }

  lemma CutLines(a: seq<string>, b: seq<string>)
    ensures (a + b)[..|a|] == a && (a + b)[|a|..] == b
    ensures b != [] ==> (a + b)[|a| + 1..] == b[1..]
  {
  }

  // ---- Writes may fail ----

  /** What is on disk stays on disk. */
  lemma {:induction false} FileGrows(s: State, ops: seq<Op>, k: nat)
    requires k <= |ops|
    ensures Perform(s, ops[..k]).file <= Perform(s, ops).file
  {
    if k == |ops| {
      assert ops[..k] == ops;
    } else {
      FileGrows(s, ops[..|ops| - 1], k);
      assert ops[..|ops| - 1][..k] == ops[..k];
    }
  }

  lemma LineStays(before: string, line: string, after: string)
    requires Terminated(before) && '\n' !in line && before + line + "\n" <= after
    ensures |Lines(before)| < |Lines(after)| && Lines(after)[|Lines(before)|] == line
  {
    var whole := before + line + "\n";
    LineAppended(before, line);
    LinesOfJoin(whole, after[|whole|..]);
    assert whole + after[|whole|..] == after;
  }

  /** Whichever writes fail or stop short: an entry whose own write succeeded, onto a file whose last line was finished,
      is on a line of its own in the file for good, and reads back. */
  lemma {:induction false} IntactEntryReadsBack(s: State, ops: seq<Op>, k: nat)
    requires k < |ops| && ops[k].PushOp? && ops[k].wrote >= |Line(ops[k].entry)|
    requires Perform(s, ops[..k]).open && Terminated(Perform(s, ops[..k]).file)
    ensures
      var lines, at := Lines(Perform(s, ops).file), |Lines(Perform(s, ops[..k]).file)|;
      at < |lines| && ReadEntry(lines[at]) == Some(ops[k].entry)
  {
    var e, before := ops[k].entry, Perform(s, ops[..k]);
    assert ops[..k + 1][..k] == ops[..k] && ops[..k + 1][k] == ops[k];
    assert Perform(s, ops[..k + 1]) == Pushes(before, e, ops[k].wrote);
    FileGrows(s, ops, k + 1);
    EntryRoundTrip(e);
    Associate(before.file, EntryText(e), "\n");
    LineStays(before.file, EntryText(e), Perform(s, ops).file);
  }

  /** Whether the file's last line is unfinished after these operations on an open file. */
  predicate TornAfter(prior: string, ops: seq<Op>) {
    if ops == [] then !Terminated(prior)
    else
      match ops[|ops| - 1]
      case PushOp(e, wrote) => if wrote == 0 then TornAfter(prior, ops[..|ops| - 1]) else wrote < |Line(e)|
      case CloseOp => TornAfter(prior, ops[..|ops| - 1])
  }

  /** Writes that stop in the middle of a line. */
  function ShortWrites(ops: seq<Op>): nat {
    if ops == [] then 0
    else
      var op := ops[|ops| - 1];
      ShortWrites(ops[..|ops| - 1]) + if op.PushOp? && 0 < op.wrote < |Line(op.entry)| then 1 else 0
  }

  /** The k-th operation wrote its whole line. */
  predicate WroteAll(ops: seq<Op>, k: nat)
    requires k < |ops|
  {
    ops[k].PushOp? && ops[k].wrote >= |Line(ops[k].entry)|
  }

  /** Entries written in full, but behind an unfinished line. */
  function Spoiled(prior: string, ops: seq<Op>): nat {
    if ops == [] then 0
    else
      var n := |ops| - 1;
      Spoiled(prior, ops[..n]) + if WroteAll(ops, n) && TornAfter(prior, ops[..n]) then 1 else 0
  }

  lemma PartOfLine(e: Entry, file: string, wrote: nat)
    requires 0 < wrote < |Line(e)|
    ensures !Terminated(file + Line(e)[..wrote])
  {
    EntryRoundTrip(e);
    assert Line(e)[wrote - 1] == EntryText(e)[wrote - 1];
    assert EntryText(e)[wrote - 1] in EntryText(e);
  }

  lemma {:induction false} TornMeansUnfinished(prior: string, ops: seq<Op>)
    requires CloseOp !in ops
    ensures Perform(State(true, prior, []), ops).open
    ensures TornAfter(prior, ops) <==> !Terminated(Perform(State(true, prior, []), ops).file)
  {
    if ops != [] {
      var front, op := ops[..|ops| - 1], ops[|ops| - 1];
      assert op in ops;
      TornMeansUnfinished(prior, front);
      var file := Perform(State(true, prior, []), front).file;
      if op.wrote == 0 {
        assert file + Line(op.entry)[..0] == file;
      } else if op.wrote < |Line(op.entry)| {
        PartOfLine(op.entry, file, op.wrote);
      }
    }
  }

  /** Some line of the file reads back as the entry. */
  ghost predicate InFile(e: Entry, file: string) {
    exists at :: 0 <= at < |Lines(file)| && ReadEntry(Lines(file)[at]) == Some(e)
  }

  lemma UnspoiledInFile(prior: string, ops: seq<Op>, k: nat)
    requires CloseOp !in ops && k < |ops| && WroteAll(ops, k) && !TornAfter(prior, ops[..k])
    ensures InFile(ops[k].entry, Perform(State(true, prior, []), ops).file)
  {
    TornMeansUnfinished(prior, ops[..k]);
    IntactEntryReadsBack(State(true, prior, []), ops, k);
  }

  /** An entry written in full while the file is open reads back unless the write before it stopped short, or the file
      itself began with an unfinished line; and there are at most as many such entries as there are such causes. So a
      failed write costs at most its own entry and one more. */
  lemma {:induction false} FailedWriteCostsTwo(prior: string, ops: seq<Op>)
    requires CloseOp !in ops
    ensures forall k: nat | k < |ops| && WroteAll(ops, k) && !TornAfter(prior, ops[..k]) ::
              InFile(ops[k].entry, Perform(State(true, prior, []), ops).file)
    ensures Spoiled(prior, ops) <= ShortWrites(ops) + if Terminated(prior) then 0 else 1
  {
    forall k: nat | k < |ops| && WroteAll(ops, k) && !TornAfter(prior, ops[..k])
      ensures InFile(ops[k].entry, Perform(State(true, prior, []), ops).file)
    {
      UnspoiledInFile(prior, ops, k);
    }
    SpoiledAtMost(prior, ops);
  }

  lemma {:induction false} SpoiledAtMost(prior: string, ops: seq<Op>)
    ensures Spoiled(prior, ops) + (if TornAfter(prior, ops) then 1 else 0)
            <= ShortWrites(ops) + if Terminated(prior) then 0 else 1
  {
    if ops != [] {
      SpoiledAtMost(prior, ops[..|ops| - 1]);
    }
  }

  class Queue {
    var open: bool
    var file: string
    var log: seq<string>
    ghost var pushed: seq<Entry>

    ghost function View(): State
      reads this
    {
      State(open, file, log)
    }

    /** Opens the target in append mode when the backend is a file with a path, and logs otherwise. */
    constructor (fileBackend: bool, prior: string)
      ensures View() == State(fileBackend, prior, []) && pushed == []
    {
      open := fileBackend;
      file := prior;
      log := [];
      pushed := [];
    }

    /** `wrote` says how much of the line the file system takes; a failed write is not reported to the caller. */
    method Push(source: string, reason: string, raw: Option<seq<byte>>, now: string, wrote: nat)
      modifies this
      ensures View() == Pushes(old(View()), Entry(now, source, reason, raw), wrote)
      ensures pushed == old(pushed) + [Entry(now, source, reason, raw)]
    {
      var entry := Entry(now, source, reason, raw);
      var text := EntryText(entry);
      pushed := pushed + [entry];
      if open {
        var line := text + "\n";
        file := file + if wrote < |line| then line[..wrote] else line;
        return;
      }
      log := log + [text];
    }

    method Close()
      modifies this
      ensures View() == Closed(old(View())) && pushed == old(pushed)
    {
      if !open {
        return;
      }
      open := false;
    }
  }
}
