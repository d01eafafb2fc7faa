/**
 The attempts file of a review request (project_a_ai_review/audit.py): one printed object a line,
 appended after reading the whole file, and verified by reading it once more.
 */
module AttemptsFile {
  import opened Outcomes
  import opened DecimalText
  import opened CanonicalJson
  import opened SemanticEvidence
  import opened StoredText
  import HashChain

  // ------------------------------------------------------ lines

  function LineRun(t: string): (n: nat)
    ensures n <= |t| && !HasBreak(t[..n])
    ensures n < |t| ==> IsBreak(t[n])
  {
    if t == "" || IsBreak(t[0]) then 0
    else
      var n := 1 + LineRun(t[1..]);
      assert t[..n] == [t[0]] + t[1..][..n - 1];
      BreakIn([t[0]], t[1..][..n - 1]);
      n
  }

  /** Where the next line starts: "\r\n" is one line end. */
  function AfterLine(t: string): (e: nat)
    requires LineRun(t) < |t|
    ensures LineRun(t) < e <= |t|
  {
    var n := LineRun(t);
    n + if t[n] == '\r' && n + 1 < |t| && t[n + 1] == '\n' then 2 else 1
  }

  /** `str.splitlines`. */
  function SplitLines(t: string): seq<string>
    decreases |t|
  {
    if t == "" then []
    else if LineRun(t) == |t| then [t]
    else [t[..LineRun(t)]] + SplitLines(t[AfterLine(t)..])
  }

  /** `not line.strip()`. */
  predicate Blank(line: string) { forall i | 0 <= i < |line| :: IsWhite(line[i]) }

  predicate IsWhite(c: char) {
    var n := c as int;
    9 <= n <= 13 || 28 <= n <= 32 || 0x2000 <= n <= 0x200A ||
    n in {0x85, 0xA0, 0x1680, 0x2028, 0x2029, 0x202F, 0x205F, 0x3000}
  }

  // ------------------------------------------------------ appending and verifying

  datatype AppendError = Unreadable | NotPrintable(error: NumberError)

  function Envelope(previous: Json, record: Json): Json {
    Obj(map["previous_hash" := previous, "record" := record])
  }

  function Persisted(previous: Json, record: Json, hash: string): Json {
    Obj(map["previous_hash" := previous, "record" := record, "record_hash" := Str(hash)])
  }

  /** The member of a parsed line; nothing when the line is unreadable or lacks it. */
  function Member(line: string, key: string, nearest: Nearest): Option<Json> {
    match Loads(line, nearest)
    case None => None
    case Some(item) => if item.Obj? && key in item.fields then Some(item.fields[key]) else None
  }

  /** The `record_hash` that the next row is chained to; nothing when reading the lines raises. */
  function LastHash(lines: seq<string>, nearest: Nearest): Option<Json> {
    if lines == [] then Some(Str(Zeros(64)))
    else
      var line := lines[|lines| - 1];
      var before := LastHash(lines[..|lines| - 1], nearest);
      if before.None? || Blank(line) then before else Member(line, "record_hash", nearest)
  }

  /** What `append_attempt` is about to write: a record, and the hash it read as the last. */
  datatype Entry = Entry(previous: Json, record: Json)

  function HashIn(e: Entry): string {
    match Render(Envelope(e.previous, e.record))
    case Ok(envelope) => Sha256(envelope)
    case Err(_) => ""
  }

  function LineOf(e: Entry): string {
    match Render(Persisted(e.previous, e.record, HashIn(e)))
    case Ok(line) => line
    case Err(_) => ""
  }

  /** `append_attempt` up to its write; an absent file is empty. */
  function Prepared(text: string, record: Json, nearest: Nearest): Result<Entry, AppendError> {
    match LastHash(SplitLines(text), nearest)
    case None => Err(Unreadable)
    case Some(previous) =>
      match Render(Envelope(previous, record))
      case Err(e) => Err(NotPrintable(e))
      case Ok(envelope) =>
        match Render(Persisted(previous, record, Sha256(envelope)))
        case Err(e) => Err(NotPrintable(e))
        case Ok(line) => Ok(Entry(previous, record))
  }

  /** `append_attempt`, undisturbed. */
  function Appended(text: string, record: Json, nearest: Nearest): Result<string, AppendError> {
    match Prepared(text, record, nearest)
    case Err(e) => Err(e)
    case Ok(entry) => Ok(text + (LineOf(entry) + "\n"))
  }

  /** One line of `verify_chain`: the hash it carries, or nothing when it fails or raises. */
  function LinkAfter(line: string, previous: Json, nearest: Nearest): Option<Json> {
    var link := Member(line, "previous_hash", nearest);
    var record := Member(line, "record", nearest);
    var hash := Member(line, "record_hash", nearest);
    if link != Some(previous) || record.None? || hash.None? then None
    else
      match Render(Envelope(previous, record.value))
      case Err(_) => None
      case Ok(envelope) => if hash.value == Str(Sha256(envelope)) then hash else None
  }

  /** The hash the verified chain ends in, or nothing when it does not verify. */
  function ChainEnd(lines: seq<string>, nearest: Nearest): Option<Json> {
    if lines == [] then Some(Str(Zeros(64)))
    else
      var line := lines[|lines| - 1];
      match ChainEnd(lines[..|lines| - 1], nearest)
      case None => None
      case Some(previous) => if Blank(line) then Some(previous) else LinkAfter(line, previous, nearest)
  }

  /** `verify_chain`. */
  predicate Verifies(text: string, nearest: Nearest) { ChainEnd(SplitLines(text), nearest).Some? }

  /** `attempt_count`: the lines that are not blank. */
  function NonBlank(lines: seq<string>): nat {
    if lines == [] then 0 else NonBlank(lines[..|lines| - 1]) + if Blank(lines[|lines| - 1]) then 0 else 1
  }

  /** What `final_attempt` makes of the file. */
  datatype Final = Damaged | NoAttempt | Attempt(item: Json)

  function FinalItem(lines: seq<string>, nearest: Nearest): Final {
    if lines == [] then NoAttempt
    else
      var line := lines[|lines| - 1];
      var before := FinalItem(lines[..|lines| - 1], nearest);
      if before.Damaged? || Blank(line) then before
      else match Loads(line, nearest) case Some(item) => if item.Obj? then Attempt(item) else Damaged case None => Damaged
  }

  lemma {:induction false} FailedStays(lines: seq<string>, n: nat, nearest: Nearest)
    requires n <= |lines|
    ensures ChainEnd(lines[..n], nearest).None? ==> ChainEnd(lines, nearest).None?
    ensures LastHash(lines[..n], nearest).None? ==> LastHash(lines, nearest).None?
    ensures FinalItem(lines[..n], nearest).Damaged? ==> FinalItem(lines, nearest).Damaged?
    ensures NonBlank(lines[..n]) <= NonBlank(lines)
  {
    hide LinkAfter;
    hide Member;
    hide Blank;
    hide Loads;
    if n < |lines| {
      assert lines[..|lines| - 1][..n] == lines[..n];
      FailedStays(lines[..|lines| - 1], n, nearest);
    } else {
      assert lines[..n] == lines;
    }
  }

  /** The file with its writer and its two readers. */
  class AttemptsLog {
    var text: string

    constructor ()
      ensures text == ""
    {
      text := "";
    }

    /** The first loop of `append_attempt`. */
    method FindLastHash(nearest: Nearest) returns (last: Option<Json>)
      ensures last == LastHash(SplitLines(text), nearest)
    {
      hide Member;
      hide Blank;
      var lines := SplitLines(text);
      hide SplitLines;
      var previous := Str(Zeros(64));
      for n := 0 to |lines|
        invariant LastHash(lines[..n], nearest) == Some(previous)
      {
        assert lines[..n + 1][..n] == lines[..n] && lines[..n + 1][n] == lines[n];
        if !Blank(lines[n]) {
          var hash := Member(lines[n], "record_hash", nearest);
          if hash.None? {
            FailedStays(lines, n + 1, nearest);
            return None;
          }
          previous := hash.value;
        }
      }
      assert lines[..|lines|] == lines;
      return Some(previous);
    }

    /** `append_attempt` up to its write. */
    method PrepareAttempt(record: Json, nearest: Nearest) returns (entry: Result<Entry, AppendError>)
      ensures entry == Prepared(text, record, nearest)
    {
      hide LastHash;
      hide SplitLines;
      hide Render;
      var previous := FindLastHash(nearest);
      if previous.None? { return Err(Unreadable); }
      var envelope := Render(Envelope(previous.value, record));
      if envelope.Err? { return Err(NotPrintable(envelope.error)); }
      var line := Render(Persisted(previous.value, record, Sha256(envelope.value)));
      if line.Err? { return Err(NotPrintable(line.error)); }
      return Ok(Entry(previous.value, record));
    }

    /** The write itself: one line. */
    method WriteLine(entry: Entry)
      modifies this
      ensures text == old(text) + (LineOf(entry) + "\n")
    {
      hide LineOf;
      text := text + (LineOf(entry) + "\n");
    }

    method AppendAttempt(record: Json, nearest: Nearest) returns (raised: Option<AppendError>)
      modifies this
      ensures match Appended(old(text), record, nearest)
              case Ok(longer) => text == longer && raised == None
              case Err(e) => text == old(text) && raised == Some(e)
    {
      hide Prepared;
      hide LineOf;
      var entry := PrepareAttempt(record, nearest);
      if entry.Err? { return Some(entry.error); }
      WriteLine(entry.value);
      return None;
    }

    method AttemptCount() returns (count: nat)
      ensures count == NonBlank(SplitLines(text))
    {
      hide Blank;
      var lines := SplitLines(text);
      hide SplitLines;
      count := 0;
      for n := 0 to |lines|
        invariant count == NonBlank(lines[..n])
      {
        assert lines[..n + 1][..n] == lines[..n] && lines[..n + 1][n] == lines[n];
        if !Blank(lines[n]) { count := count + 1; }
      }
      assert lines[..|lines|] == lines;
    }

    method FinalAttempt(nearest: Nearest) returns (final: Final)
      ensures final == FinalItem(SplitLines(text), nearest)
    {
      hide Blank;
      hide Loads;
      var lines := SplitLines(text);
      hide SplitLines;
      final := NoAttempt;
      for n := 0 to |lines|
        invariant final == FinalItem(lines[..n], nearest) && !final.Damaged?
      {
        assert lines[..n + 1][..n] == lines[..n] && lines[..n + 1][n] == lines[n];
        if !Blank(lines[n]) {
          var item := Loads(lines[n], nearest);
          if item.None? || !item.value.Obj? {
            FailedStays(lines, n + 1, nearest);
            return Damaged;
          }
          final := Attempt(item.value);
        }
      }
      assert lines[..|lines|] == lines;
    }

    method VerifyChain(nearest: Nearest) returns (valid: bool)
      ensures valid == Verifies(text, nearest)
    {
      hide LinkAfter;
      hide Blank;
      var lines := SplitLines(text);
      hide SplitLines;
      var previous := Str(Zeros(64));
      for n := 0 to |lines|
        invariant ChainEnd(lines[..n], nearest) == Some(previous)
      {
        assert lines[..n + 1][..n] == lines[..n] && lines[..n + 1][n] == lines[n];
        if !Blank(lines[n]) {
          var link := LinkAfter(lines[n], previous, nearest);
          if link.None? {
            FailedStays(lines, n + 1, nearest);
            return false;
          }
          previous := link.value;
        }
      }
      assert lines[..|lines|] == lines;
      return true;
    }
  }

  // ------------------------------------------------------ lines of appended text

  predicate Ended(text: string) { text == "" || text[|text| - 1] == '\n' }

  lemma RunStops(t: string, i: nat)
    requires i < |t| && IsBreak(t[i])
    ensures LineRun(t) <= i
  {
    assert forall j | 0 <= j < LineRun(t) :: t[..LineRun(t)][j] == t[j];
  }

  lemma LineRunOf(line: string, rest: string)
    requires !HasBreak(line) && (rest == "" || IsBreak(rest[0]))
    ensures LineRun(line + rest) == |line|
  {
    var t := line + rest;
    assert forall i | 0 <= i < |line| :: t[i] == line[i];
    if rest != "" { RunStops(t, |line|); }
  }

  lemma EndedRun(text: string)
    requires Ended(text) && text != ""
    ensures LineRun(text) < |text|
  {
    RunStops(text, |text| - 1);
  }

  lemma RunKept(text: string, more: string)
    requires Ended(text) && text != ""
    ensures LineRun(text) < |text| && LineRun(text + more) == LineRun(text)
  {
    EndedRun(text);
    var n := LineRun(text);
    var front, back := text[..n], text[n..];
    assert front + back == text;
    Concat(front, back, more);
    assert (back + more)[0] == text[n];
    hide IsBreak;
    LineRunOf(front, back + more);
    hide LineRun;
  }

  lemma AfterLineExtends(text: string, more: string)
    requires Ended(text) && text != ""
    ensures LineRun(text) < |text| && LineRun(text + more) == LineRun(text) && AfterLine(text + more) == AfterLine(text)
    ensures (text + more)[..LineRun(text)] == text[..LineRun(text)]
    ensures (text + more)[AfterLine(text)..] == text[AfterLine(text)..] + more
  {
    RunKept(text, more);
    hide LineRun;
    hide IsBreak;
    hide HasBreak;
    var n := LineRun(text);
    assert (text + more)[n] == text[n];
    assert n + 1 < |text| ==> (text + more)[n + 1] == text[n + 1];
    var e := AfterLine(text);
    assert AfterLine(text + more) == e;
    hide AfterLine;
    DropExtends(text, more, e);
  }

  lemma DropExtends(text: string, more: string, e: nat)
    requires e <= |text|
    ensures (text + more)[e..] == text[e..] + more
  {
  }

  /** Lines that end are split off whatever follows. */
  lemma {:induction false} SplitAppended(text: string, more: string)
    requires Ended(text)
    ensures SplitLines(text + more) == SplitLines(text) + SplitLines(more)
    decreases |text|
  {
    hide LineRun;
    hide HasBreak;
    if text == "" {
      assert text + more == more;
    } else {
      AfterLineExtends(text, more);
      hide AfterLine;
      var first, rest := text[..LineRun(text)], text[AfterLine(text)..];
      SplitAppended(rest, more);
      assert SplitLines(text) == [first] + SplitLines(rest);
      assert SplitLines(text + more) == [first] + SplitLines(rest + more);
      hide SplitLines;
      Regroup([first], SplitLines(rest), SplitLines(more));
    }
  }

  lemma Regroup(a: seq<string>, b: seq<string>, c: seq<string>)
    ensures a + (b + c) == (a + b) + c
  {
  }

  /** An unbroken line is one line; a broken one loses its end. */
  lemma SplitLine(line: string)
    requires line != "" && line[0] == '{'
    ensures !HasBreak(line) ==> SplitLines(line + "\n") == [line]
    ensures HasBreak(line) ==>
              exists n :: 0 < n < |line| && SplitLines(line + "\n") != [] && SplitLines(line + "\n")[0] == line[..n]
  {
    var t := line + "\n";
    assert t != "";
    if HasBreak(line) {
      BrokenRun(line);
      hide LineRun;
      assert t[..LineRun(t)] == line[..LineRun(t)];
      assert SplitLines(t)[0] == line[..LineRun(t)];
    } else {
      LineRunOf(line, "\n");
      hide LineRun;
      assert t[..|line|] == line && t[AfterLine(t)..] == "";
    }
  }

  lemma BrokenRun(line: string)
    requires line != "" && line[0] == '{' && HasBreak(line)
    ensures 0 < LineRun(line + "\n") < |line|
  {
    var t := line + "\n";
    var i :| 0 <= i < |line| && IsBreak(line[i]);
    RunStops(t, i);
    assert !IsBreak(t[0]);
  }

  // ------------------------------------------------------ one appended line

  /** A hash such as the chain carries. */
  predicate Link(previous: Json) { previous.Str? && !HasSeparator(previous.s) }

  lemma EnvelopePrints(previous: Json, record: Json)
    requires Link(previous)
    ensures Render(Envelope(previous, record)).Ok? <==> Render(record).Ok?
  {
    var e := Envelope(previous, record);
    assert e.fields["record"] == record && e.fields["previous_hash"] == previous;
    RendersIff(e);
    RendersIff(record);
    hide Render;
  }

  lemma EnvelopeStable(previous: Json, record: Json, nearest: Nearest)
    requires Link(previous)
    ensures Stable(Envelope(previous, record), nearest) <==> Stable(record, nearest)
  {
    var e := Envelope(previous, record);
    assert e.fields["record"] == record && e.fields["previous_hash"] == previous;
  }

  lemma KeysUnbroken()
    ensures !HasSeparator("record") && !HasSeparator("previous_hash") && !HasSeparator("record_hash")
  {
  }

  lemma EnvelopeUnbroken(previous: Json, record: Json)
    requires Link(previous)
    ensures Unbroken(Envelope(previous, record)) <==> Unbroken(record)
  {
    var e := Envelope(previous, record);
    KeysUnbroken();
    hide HasSeparator;
    assert e.fields["record"] == record && e.fields["previous_hash"] == previous;
  }

  lemma TextBack(s: string, nearest: Nearest)
    ensures Returned(Str(s), nearest) == Str(s)
  {
  }

  lemma EnvelopeBack(previous: Json, record: Json, nearest: Nearest)
    requires Link(previous)
    ensures Returned(Envelope(previous, record), nearest) == Envelope(previous, Returned(record, nearest))
  {
    var e, back := Envelope(previous, record), Envelope(previous, Returned(record, nearest));
    MembersReturned(e, nearest);
    TextBack(previous.s, nearest);
    hide Returned;
    assert Returned(e, nearest).fields == back.fields;
  }

  lemma PersistedPrints(previous: Json, record: Json, hash: string)
    requires Link(previous)
    ensures Render(Persisted(previous, record, hash)).Ok? <==> Render(record).Ok?
  {
    var e := Persisted(previous, record, hash);
    assert e.fields["record"] == record && e.fields["previous_hash"] == previous && e.fields["record_hash"] == Str(hash);
    RendersIff(e);
    RendersIff(record);
    hide Render;
  }

  lemma PersistedUnbroken(previous: Json, record: Json, hash: string)
    requires Link(previous)
    ensures Unbroken(Persisted(previous, record, hash)) <==> Unbroken(record) && !HasSeparator(hash)
  {
    var e := Persisted(previous, record, hash);
    KeysUnbroken();
    hide HasSeparator;
    assert e.fields["record"] == record && e.fields["previous_hash"] == previous && e.fields["record_hash"] == Str(hash);
  }

  lemma PersistedBack(previous: Json, record: Json, hash: string, nearest: Nearest)
    requires Link(previous)
    ensures Returned(Persisted(previous, record, hash), nearest) == Persisted(previous, Returned(record, nearest), hash)
  {
    var e, back := Persisted(previous, record, hash), Persisted(previous, Returned(record, nearest), hash);
    MembersReturned(e, nearest);
    TextBack(previous.s, nearest);
    TextBack(hash, nearest);
    hide Returned;
    assert Returned(e, nearest).fields == back.fields;
  }

  /** A separator anywhere is a line end, so the hash of an unbroken record has none. */
  lemma HashUnbroken(envelope: Json)
    requires Render(envelope).Ok? && Unbroken(envelope)
    ensures !HasSeparator(Sha256(Render(envelope).value))
  {
    TextBreaks(envelope);
    hide Unbroken;
    hide Render;
    DigestUnbroken(Render(envelope).value);
  }

  lemma DigestUnbroken(text: string)
    requires !HasBreak(text)
    ensures !HasSeparator(Sha256(text))
  {
    var hash := Sha256(text);
    forall i | 0 <= i < |hash| ensures !IsSeparator(hash[i]) {
      if i >= 7 {
        assert hash[i] == text[i - 7] && !IsBreak(text[i - 7]);
      }
    }
  }

  /** The line an attempt is written as, and the hash in it. */
  function HashOf(previous: Json, record: Json): string
    requires Render(Envelope(previous, record)).Ok?
  {
    Sha256(Render(Envelope(previous, record)).value)
  }

  lemma LineStart(previous: Json, record: Json, hash: string)
    requires Render(Persisted(previous, record, hash)).Ok?
    ensures var line := Render(Persisted(previous, record, hash)).value;
            line != "" && line[0] == '{'
  {
    PrintedObject(Persisted(previous, record, hash));
    hide Render;
    hide ReadValue;
    hide Reread;
  }

  lemma NotBlank(line: string)
    requires line != "" && line[0] == '{'
    ensures !Blank(line)
  {
    assert !IsWhite(line[0]);
  }

  lemma LineMembers(previous: Json, record: Json, hash: string, nearest: Nearest)
    requires Link(previous) && Render(Persisted(previous, record, hash)).Ok?
    ensures var line := Render(Persisted(previous, record, hash)).value;
            Member(line, "previous_hash", nearest) == Some(previous) &&
            Member(line, "record", nearest) == Some(Returned(record, nearest)) &&
            Member(line, "record_hash", nearest) == Some(Str(hash))
  {
    var item := Persisted(previous, record, hash);
    LoadsRendered(item, nearest);
    PersistedBack(previous, record, hash, nearest);
    hide Render;
    hide Loads;
    hide Returned;
    var back := Persisted(previous, Returned(record, nearest), hash);
    assert back.fields["record"] == Returned(record, nearest) && back.fields["previous_hash"] == previous &&
           back.fields["record_hash"] == Str(hash);
    hide Persisted;
  }

  /** An appended line is a link of the chain exactly when its record is stable. */
  lemma LineLinksIff(previous: Json, record: Json, nearest: Nearest)
    requires Link(previous) && Render(record).Ok? && Doubles(nearest)
    ensures Render(Envelope(previous, record)).Ok?
    ensures var hash := HashOf(previous, record);
            Render(Persisted(previous, record, hash)).Ok? &&
            LinkAfter(Render(Persisted(previous, record, hash)).value, previous, nearest) ==
              if Stable(record, nearest) then Some(Str(hash)) else None
  {
    EnvelopePrints(previous, record);
    var hash := HashOf(previous, record);
    PersistedPrints(previous, record, hash);
    LineMembers(previous, record, hash, nearest);
    EnvelopeBack(previous, record, nearest);
    EnvelopeStable(previous, record, nearest);
    hide Render;
    hide Stable;
    hide Returned;
    hide Member;
    hide Persisted;
    hide Envelope;
    hide Doubles;
    ReprintIff(Envelope(previous, record), nearest);
    var again := Render(Envelope(previous, Returned(record, nearest)));
    if again.Ok? { Sha256Injective(again.value, Render(Envelope(previous, record)).value); }
  }

  lemma LinkOfUnbroken(previous: Json, record: Json)
    requires Link(previous) && Unbroken(record) && Render(Envelope(previous, record)).Ok?
    ensures Link(Str(HashOf(previous, record)))
    ensures var hash := HashOf(previous, record);
            Render(Persisted(previous, record, hash)).Ok? ==> !HasBreak(Render(Persisted(previous, record, hash)).value)
  {
    EnvelopeUnbroken(previous, record);
    HashUnbroken(Envelope(previous, record));
    var hash := HashOf(previous, record);
    PersistedUnbroken(previous, record, hash);
    hide Render;
    hide Unbroken;
    hide Persisted;
    if Render(Persisted(previous, record, hash)).Ok? { TextBreaks(Persisted(previous, record, hash)); }
  }

  lemma LineOfBroken(previous: Json, record: Json, hash: string)
    requires Link(previous) && !Unbroken(record) && Render(Persisted(previous, record, hash)).Ok?
    ensures HasBreak(Render(Persisted(previous, record, hash)).value)
  {
    PersistedUnbroken(previous, record, hash);
    hide Render;
    hide Unbroken;
    hide Persisted;
    TextBreaks(Persisted(previous, record, hash));
  }

  /** What reading makes of the lines before and one more line. */
  lemma OneMoreLine(lines: seq<string>, line: string, nearest: Nearest)
    requires !Blank(line)
    ensures LastHash(lines + [line], nearest) ==
            if LastHash(lines, nearest).None? then None else Member(line, "record_hash", nearest)
    ensures ChainEnd(lines + [line], nearest) ==
            if ChainEnd(lines, nearest).None? then None else LinkAfter(line, ChainEnd(lines, nearest).value, nearest)
    ensures Loads(line, nearest).Some? && Loads(line, nearest).value.Obj? && !FinalItem(lines, nearest).Damaged? ==>
              FinalItem(lines + [line], nearest) == Attempt(Loads(line, nearest).value)
    ensures NonBlank(lines + [line]) == NonBlank(lines) + 1
  {
    hide Member;
    hide LinkAfter;
    hide Blank;
    hide Loads;
    assert (lines + [line])[..|lines|] == lines;
  }

  lemma UnreadableLine(lines: seq<string>, line: string, more: seq<string>, nearest: Nearest)
    requires !Blank(line) && Loads(line, nearest).None?
    ensures LastHash(lines + [line] + more, nearest).None? && ChainEnd(lines + [line] + more, nearest).None?
    ensures NonBlank(lines + [line] + more) > NonBlank(lines)
  {
    OneMoreLine(lines, line, nearest);
    hide Loads;
    hide Blank;
    hide Render;
    var all := lines + [line] + more;
    assert all[..|lines| + 1] == lines + [line];
    FailedStays(all, |lines| + 1, nearest);
    hide LastHash;
    hide ChainEnd;
  }

  /** The first piece of a broken line is unreadable. */
  lemma FirstPiece(previous: Json, record: Json, hash: string, nearest: Nearest)
    requires Link(previous) && !Unbroken(record) && Render(Persisted(previous, record, hash)).Ok?
    ensures var pieces := SplitLines(Render(Persisted(previous, record, hash)).value + "\n");
            pieces != [] && !Blank(pieces[0]) && Loads(pieces[0], nearest).None?
  {
    LineOfBroken(previous, record, hash);
    LineStart(previous, record, hash);
    hide Render;
    hide HasBreak;
    hide SplitLines;
    hide Loads;
    hide Blank;
    var line := Render(Persisted(previous, record, hash)).value;
    SplitLine(line);
    var pieces := SplitLines(line + "\n");
    var n :| 0 < n < |line| && pieces != [] && pieces[0] == line[..n];
    PartRefused(Persisted(previous, record, hash), n, nearest);
    NotBlank(line[..n]);
  }

  // ------------------------------------------------------ a file of entries

  /** Fit to be written: chained to a hash, and printable. */
  predicate Writable(e: Entry) { Link(e.previous) && Render(e.record).Ok? }

  predicate AllWritable(entries: seq<Entry>) { forall e | e in entries :: Writable(e) }

  predicate AllUnbroken(entries: seq<Entry>) { forall e | e in entries :: Unbroken(e.record) }

  predicate AllStable(entries: seq<Entry>, nearest: Nearest) { forall e | e in entries :: Stable(e.record, nearest) }

  /** The text of a file with these lines. */
  function FileOf(entries: seq<Entry>): string {
    if entries == [] then "" else FileOf(entries[..|entries| - 1]) + (LineOf(entries[|entries| - 1]) + "\n")
  }

  /** The hash the next line should be chained to. */
  function Prior(entries: seq<Entry>): Json {
    if entries == [] then Str(Zeros(64)) else Str(HashIn(entries[|entries| - 1]))
  }

  /** Every line is chained to the one before it. */
  predicate Chained(entries: seq<Entry>) { forall i | 0 <= i < |entries| :: entries[i].previous == Prior(entries[..i]) }

  lemma EntriesSnoc(entries: seq<Entry>, last: Entry, nearest: Nearest)
    ensures AllWritable(entries + [last]) <==> AllWritable(entries) && Writable(last)
    ensures AllUnbroken(entries + [last]) <==> AllUnbroken(entries) && Unbroken(last.record)
    ensures AllStable(entries + [last], nearest) <==> AllStable(entries, nearest) && Stable(last.record, nearest)
    ensures FileOf(entries + [last]) == FileOf(entries) + (LineOf(last) + "\n")
    ensures Prior(entries + [last]) == Str(HashIn(last))
    ensures Chained(entries + [last]) <==> Chained(entries) && last.previous == Prior(entries)
  {
    hide Writable;
    hide Unbroken;
    hide Stable;
    hide HashIn;
    hide LineOf;
    var all := entries + [last];
    assert last in all && all[..|entries|] == entries && all[|entries|] == last;
    ChainedSnoc(entries, last);
    hide Chained;
    hide Prior;
    assert forall e :: e in all <==> e in entries || e == last;
  }

  lemma ChainedSnoc(entries: seq<Entry>, last: Entry)
    ensures Chained(entries + [last]) <==> Chained(entries) && last.previous == Prior(entries)
  {
    hide Prior;
    var all := entries + [last];
    assert all[..|entries|] == entries;
    assert forall i | 0 <= i < |entries| :: all[i] == entries[i] && all[..i] == entries[..i];
    if Chained(all) {
      assert all[|entries|].previous == Prior(all[..|entries|]);
    }
  }

  /** Hash and line of an entry are those of its printed object. */
  lemma LineFacts(e: Entry)
    requires Writable(e)
    ensures Render(Envelope(e.previous, e.record)).Ok? && HashIn(e) == HashOf(e.previous, e.record)
    ensures Render(Persisted(e.previous, e.record, HashIn(e))).Ok?
    ensures LineOf(e) == Render(Persisted(e.previous, e.record, HashIn(e))).value
    ensures LineOf(e) != "" && LineOf(e)[0] == '{'
  {
    EnvelopePrints(e.previous, e.record);
    PersistedPrints(e.previous, e.record, HashIn(e));
    hide Render;
    LineStart(e.previous, e.record, HashIn(e));
  }

  /** What the readers make of an unbroken entry's line. */
  lemma UnbrokenLine(e: Entry, previous: Json, nearest: Nearest)
    requires Writable(e) && Unbroken(e.record) && Doubles(nearest)
    ensures SplitLines(LineOf(e) + "\n") == [LineOf(e)] && !Blank(LineOf(e)) && Link(Str(HashIn(e)))
    ensures Member(LineOf(e), "record_hash", nearest) == Some(Str(HashIn(e)))
    ensures Loads(LineOf(e), nearest) == Some(Persisted(e.previous, Returned(e.record, nearest), HashIn(e)))
    ensures LinkAfter(LineOf(e), previous, nearest) ==
            if e.previous == previous && Stable(e.record, nearest) then Some(Str(HashIn(e))) else None
  {
    LineFacts(e);
    var hash := HashIn(e);
    LinkOfUnbroken(e.previous, e.record);
    LineMembers(e.previous, e.record, hash, nearest);
    LineLinksIff(e.previous, e.record, nearest);
    LoadsRendered(Persisted(e.previous, e.record, hash), nearest);
    PersistedBack(e.previous, e.record, hash, nearest);
    NotBlank(LineOf(e));
    SplitLine(LineOf(e));
    hide Render;
    hide Doubles;
    hide SplitLines;
    hide Blank;
    hide Loads;
    hide Returned;
    hide Stable;
    hide Unbroken;
    hide HashIn;
    hide LineOf;
    hide Member;
    hide Persisted;
  }

  /** What the readers make of a file of entries: it counts each of them; while none is broken the
      last is found, and the chain ends in its hash exactly when it is chained and stable; a broken
      entry anywhere leaves the file unreadable. */
  predicate ReadsAs(entries: seq<Entry>, nearest: Nearest) {
    var lines := SplitLines(FileOf(entries));
    Ended(FileOf(entries)) && |entries| <= NonBlank(lines) &&
    if AllUnbroken(entries) then
      LastHash(lines, nearest) == Some(Prior(entries)) && Link(Prior(entries)) && NonBlank(lines) == |entries| &&
      FinalItem(lines, nearest) == FinalOf(entries, nearest) &&
      ChainEnd(lines, nearest) == if Chained(entries) && AllStable(entries, nearest) then Some(Prior(entries)) else None
    else
      LastHash(lines, nearest).None? && ChainEnd(lines, nearest).None?
  }

  function FinalOf(entries: seq<Entry>, nearest: Nearest): Final {
    if entries == [] then NoAttempt
    else
      var last := entries[|entries| - 1];
      Attempt(Persisted(last.previous, Returned(last.record, nearest), HashIn(last)))
  }

  lemma NothingReads(nearest: Nearest)
    ensures ReadsAs([], nearest)
  {
    assert SplitLines("") == [];
    ZerosUnbroken(64);
  }

  lemma ZerosUnbroken(n: nat)
    ensures !HasSeparator(Zeros(n))
  {
    if n > 0 { ZerosUnbroken(n - 1); }
  }

  lemma UnbrokenReads(entries: seq<Entry>, last: Entry, nearest: Nearest)
    requires ReadsAs(entries, nearest) && AllUnbroken(entries)
    requires Writable(last) && Unbroken(last.record) && Doubles(nearest)
    ensures ReadsAs(entries + [last], nearest)
  {
    EntriesSnoc(entries, last, nearest);
    UnbrokenLine(last, Prior(entries), nearest);
    SplitAppended(FileOf(entries), LineOf(last) + "\n");
    OneMoreLine(SplitLines(FileOf(entries)), LineOf(last), nearest);
    hide AllUnbroken;
    hide AllStable;
    hide AllWritable;
    hide Chained;
    hide Prior;
    hide FileOf;
    hide SplitLines;
    hide LastHash;
    hide ChainEnd;
    hide FinalItem;
    hide NonBlank;
    hide LinkAfter;
    hide Member;
    hide Loads;
    hide Blank;
    hide HashIn;
    hide LineOf;
    hide Persisted;
    hide Returned;
    hide Unbroken;
    hide Stable;
    hide Writable;
    hide Link;
    hide Doubles;
  }

  /** The lines that an entry makes of the file; the first is unreadable when it is broken. */
  lemma PiecesOf(e: Entry, nearest: Nearest) returns (first: string, more: seq<string>)
    requires Writable(e)
    ensures SplitLines(LineOf(e) + "\n") == [first] + more && !Blank(first)
    ensures !Unbroken(e.record) ==> Loads(first, nearest).None?
  {
    LineFacts(e);
    FirstIsNotBlank(LineOf(e));
    if !Unbroken(e.record) { FirstPiece(e.previous, e.record, HashIn(e), nearest); }
    hide HashIn;
    hide LineOf;
    hide Render;
    hide Unbroken;
    hide Blank;
    hide Loads;
    hide SplitLines;
    var pieces := SplitLines(LineOf(e) + "\n");
    first, more := pieces[0], pieces[1..];
  }

  lemma BrokenReads(entries: seq<Entry>, last: Entry, nearest: Nearest)
    requires ReadsAs(entries, nearest) && Writable(last) && !(AllUnbroken(entries) && Unbroken(last.record))
    ensures ReadsAs(entries + [last], nearest)
  {
    EntriesSnoc(entries, last, nearest);
    SplitAppended(FileOf(entries), LineOf(last) + "\n");
    hide AllUnbroken;
    hide AllStable;
    hide AllWritable;
    hide Chained;
    hide Prior;
    hide FileOf;
    hide FinalOf;
    hide SplitLines;
    hide LastHash;
    hide ChainEnd;
    hide FinalItem;
    hide NonBlank;
    hide Loads;
    hide Blank;
    hide HashIn;
    hide LineOf;
    hide Unbroken;
    hide Stable;
    hide Writable;
    hide Link;
    var lines := SplitLines(FileOf(entries));
    var first, more := PiecesOf(last, nearest);
    RegroupLine(lines, first, more);
    MoreLines(lines, first, more, nearest);
    if !Unbroken(last.record) { UnreadableLine(lines, first, more, nearest); }
  }

  lemma RegroupLine(lines: seq<string>, first: string, more: seq<string>)
    ensures lines + ([first] + more) == lines + [first] + more
  {
  }

  lemma FirstIsNotBlank(line: string)
    requires line != "" && line[0] == '{'
    ensures SplitLines(line + "\n") != [] && !Blank(SplitLines(line + "\n")[0])
  {
    SplitLine(line);
    hide SplitLines;
    if HasBreak(line) {
      var n :| 0 < n < |line| && SplitLines(line + "\n")[0] == line[..n];
      NotBlank(line[..n]);
    } else {
      NotBlank(line);
    }
  }

  lemma MoreLines(lines: seq<string>, line: string, more: seq<string>, nearest: Nearest)
    requires !Blank(line)
    ensures NonBlank(lines + [line] + more) > NonBlank(lines)
    ensures LastHash(lines, nearest).None? ==> LastHash(lines + [line] + more, nearest).None?
    ensures ChainEnd(lines, nearest).None? ==> ChainEnd(lines + [line] + more, nearest).None?
  {
    OneMoreLine(lines, line, nearest);
    hide Blank;
    var all := lines + [line] + more;
    assert all[..|lines| + 1] == lines + [line];
    FailedStays(all, |lines| + 1, nearest);
    hide LastHash;
    hide ChainEnd;
    hide FinalItem;
    hide NonBlank;
  }

  lemma {:induction false} FileReads(entries: seq<Entry>, nearest: Nearest)
    requires AllWritable(entries) && Doubles(nearest)
    ensures ReadsAs(entries, nearest)
  {
    hide Doubles;
    hide ReadsAs;
    if entries == [] {
      NothingReads(nearest);
    } else {
      var front, last := entries[..|entries| - 1], entries[|entries| - 1];
      assert entries == front + [last];
      EntriesSnoc(front, last, nearest);
      hide AllWritable;
      hide AllUnbroken;
      hide Unbroken;
      hide Writable;
      FileReads(front, nearest);
      if AllUnbroken(front) && Unbroken(last.record) {
        UnbrokenReads(front, last, nearest);
      } else {
        BrokenReads(front, last, nearest);
      }
    }
  }

  // ------------------------------------------------------ appends that may overlap

  /** The file, the entries its lines were printed from, and whether some line was written after
      another had come between its own reading and writing. */
  datatype Shared = Shared(text: string, entries: seq<Entry>, overlapped: bool)

  const NO_FILE := Shared("", [], false)

  /** An append between its reading and its write: what it will write, and how many lines there
      were when it read. */
  datatype Pending = Pending(entry: Entry, seen: nat)

  /** `append_attempt` up to its write; nothing when it raises. */
  function Look(f: Shared, record: Json, nearest: Nearest): Option<Pending> {
    match Prepared(f.text, record, nearest)
    case Ok(entry) => Some(Pending(entry, |f.entries|))
    case Err(_) => None
  }

  /** Its write. */
  function Land(f: Shared, p: Pending): Shared {
    Shared(f.text + (LineOf(p.entry) + "\n"), f.entries + [p.entry], f.overlapped || p.seen != |f.entries|)
  }

  predicate SharedOk(f: Shared) {
    f.text == FileOf(f.entries) && AllWritable(f.entries) && (Chained(f.entries) <==> !f.overlapped)
  }

  predicate PendingOk(f: Shared, p: Pending) {
    Writable(p.entry) && p.seen <= |f.entries| && p.entry.previous == Prior(f.entries[..p.seen])
  }

  lemma NoFileOk()
    ensures SharedOk(NO_FILE)
  {
  }

  lemma PreparedIs(text: string, record: Json, previous: Json, nearest: Nearest)
    requires LastHash(SplitLines(text), nearest) == Some(previous) && Link(previous)
    ensures Prepared(text, record, nearest).Ok? <==> Render(record).Ok?
    ensures Prepared(text, record, nearest).Ok? ==> Prepared(text, record, nearest).value == Entry(previous, record)
  {
    hide LastHash;
    hide SplitLines;
    EnvelopePrints(previous, record);
    if Render(Envelope(previous, record)).Ok? {
      PersistedPrints(previous, record, Sha256(Render(Envelope(previous, record)).value));
    }
    hide Envelope;
    hide Persisted;
    hide Render;
    hide Link;
  }

  lemma FileLastHash(f: Shared, nearest: Nearest)
    requires SharedOk(f) && Doubles(nearest)
    ensures LastHash(SplitLines(f.text), nearest) == if AllUnbroken(f.entries) then Some(Prior(f.entries)) else None
    ensures AllUnbroken(f.entries) ==> Link(Prior(f.entries))
  {
    hide AllUnbroken;
    hide AllStable;
    hide AllWritable;
    hide Chained;
    hide Prior;
    hide FileOf;
    hide SplitLines;
    hide LastHash;
    hide ChainEnd;
    hide FinalItem;
    hide NonBlank;
    hide FinalOf;
    hide Link;
    hide Doubles;
    FileReads(f.entries, nearest);
  }

  /** An append gets past its reading exactly when no broken record was written before and its own
      can be printed; it is then chained to the last line. */
  lemma LookIff(f: Shared, record: Json, nearest: Nearest)
    requires SharedOk(f) && Doubles(nearest)
    ensures Look(f, record, nearest).Some? <==> AllUnbroken(f.entries) && Render(record).Ok?
    ensures Look(f, record, nearest).Some? ==>
              Look(f, record, nearest).value == Pending(Entry(Prior(f.entries), record), |f.entries|) &&
              PendingOk(f, Look(f, record, nearest).value)
    ensures !AllUnbroken(f.entries) ==> Prepared(f.text, record, nearest) == Err(Unreadable)
  {
    hide AllUnbroken;
    hide SharedOk;
    hide Prior;
    hide SplitLines;
    hide LastHash;
    hide Render;
    hide Link;
    hide Doubles;
    FileLastHash(f, nearest);
    if AllUnbroken(f.entries) {
      PreparedIs(f.text, record, Prior(f.entries), nearest);
      hide Prepared;
      assert f.entries[..|f.entries|] == f.entries;
    }
  }

  /** Entries with one hash are chained to one hash. */
  lemma SameHashSamePrevious(a: Entry, b: Entry, nearest: Nearest)
    requires Writable(a) && Writable(b) && HashIn(a) == HashIn(b)
    ensures a.previous == b.previous
  {
    LineFacts(a);
    LineFacts(b);
    var x, y := Envelope(a.previous, a.record), Envelope(b.previous, b.record);
    Sha256Injective(Render(x).value, Render(y).value);
    LoadsRendered(x, nearest);
    LoadsRendered(y, nearest);
    EnvelopeBack(a.previous, a.record, nearest);
    EnvelopeBack(b.previous, b.record, nearest);
    hide Render;
    hide Loads;
    hide Returned;
    hide LineOf;
    assert Envelope(a.previous, Returned(a.record, nearest)).fields["previous_hash"] == a.previous;
    assert Envelope(b.previous, Returned(b.record, nearest)).fields["previous_hash"] == b.previous;
    hide Envelope;
  }

  /** The zeros a file starts from are no hash. */
  lemma ZerosAreNoHash(e: Entry)
    requires Writable(e)
    ensures HashIn(e) != Zeros(64)
  {
    LineFacts(e);
    hide Render;
    hide LineOf;
    var text := Render(Envelope(e.previous, e.record)).value;
    assert Sha256(text)[0] == 's' && Zeros(64)[0] == '0';
  }

  lemma ChainedEarlier(entries: seq<Entry>, n: nat, i: nat)
    requires i < n <= |entries| && Chained(entries[..n])
    ensures entries[i].previous == Prior(entries[..i]) && Chained(entries[..i])
  {
    hide Prior;
    assert entries[..n][i] == entries[i] && entries[..n][..i] == entries[..i];
    forall j | 0 <= j < i ensures entries[..i][j].previous == Prior(entries[..i][..j]) {
      assert entries[..i][j] == entries[..n][j] && entries[..i][..j] == entries[..n][..j];
    }
  }

  lemma PriorIs(entries: seq<Entry>, n: nat)
    requires 0 < n <= |entries| && AllWritable(entries)
    ensures Prior(entries[..n]) == Str(HashIn(entries[n - 1])) && Writable(entries[n - 1])
  {
    hide HashIn;
    hide Writable;
    assert entries[..n][n - 1] == entries[n - 1];
  }

  /** In a chain no hash comes twice. */
  lemma {:induction false} PriorsDiffer(entries: seq<Entry>, m: nat, n: nat, nearest: Nearest)
    requires m < n <= |entries| && AllWritable(entries) && Chained(entries[..n])
    ensures Prior(entries[..m]) != Prior(entries[..n])
    decreases n
  {
    hide HashIn;
    hide Writable;
    hide AllWritable;
    hide Chained;
    PriorIs(entries, n);
    ChainedEarlier(entries, n, n - 1);
    if m == 0 {
      ZerosAreNoHash(entries[n - 1]);
    } else if Prior(entries[..m]) == Prior(entries[..n]) {
      PriorIs(entries, m);
      hide Prior;
      ChainedEarlier(entries, n, m - 1);
      SameHashSamePrevious(entries[m - 1], entries[n - 1], nearest);
      PriorsDiffer(entries, m - 1, n - 1, nearest);
    }
  }

  /** A stale line breaks the chain; one that is not continues it. */
  lemma LandedChain(f: Shared, p: Pending, nearest: Nearest)
    requires SharedOk(f) && PendingOk(f, p)
    ensures Chained(f.entries + [p.entry]) <==> !f.overlapped && p.seen == |f.entries|
  {
    ChainedSnoc(f.entries, p.entry);
    assert f.entries[..|f.entries|] == f.entries;
    hide FileOf;
    hide Writable;
    if Chained(f.entries) && p.seen < |f.entries| {
      PriorsDiffer(f.entries, p.seen, |f.entries|, nearest);
    }
    hide AllWritable;
    hide Chained;
    hide Prior;
  }

  lemma PendingStays(f: Shared, p: Pending, q: Pending)
    requires PendingOk(f, q)
    ensures PendingOk(Land(f, p), q)
  {
    hide Writable;
    hide Prior;
    hide LineOf;
    assert (f.entries + [p.entry])[..q.seen] == f.entries[..q.seen];
  }

  lemma LandedOk(f: Shared, p: Pending, nearest: Nearest)
    requires SharedOk(f) && PendingOk(f, p)
    ensures SharedOk(Land(f, p))
  {
    hide AllUnbroken;
    hide AllStable;
    hide AllWritable;
    hide Chained;
    hide Prior;
    hide FileOf;
    hide LineOf;
    hide Writable;
    LandedChain(f, p, nearest);
    EntriesSnoc(f.entries, p.entry, nearest);
  }

  /** A write keeps all this, for the appends still under way too. */
  lemma LandKeeps(f: Shared, p: Pending, nearest: Nearest)
    requires SharedOk(f) && PendingOk(f, p)
    ensures SharedOk(Land(f, p)) && forall q | PendingOk(f, q) :: PendingOk(Land(f, p), q)
  {
    hide SharedOk;
    hide PendingOk;
    hide Land;
    LandedOk(f, p, nearest);
    forall q | PendingOk(f, q) ensures PendingOk(Land(f, p), q) {
      PendingStays(f, p, q);
    }
  }

  lemma SharedVerifiesIff(f: Shared, nearest: Nearest)
    requires SharedOk(f) && Doubles(nearest)
    ensures Verifies(f.text, nearest) <==>
            AllStable(f.entries, nearest) && AllUnbroken(f.entries) && !f.overlapped
  {
    FileReads(f.entries, nearest);
    hide AllUnbroken;
    hide AllStable;
    hide AllWritable;
    hide Chained;
    hide Prior;
    hide FileOf;
    hide SplitLines;
    hide LastHash;
    hide ChainEnd;
    hide FinalItem;
    hide NonBlank;
  }

  // ------------------------------------------------------ any number of appends at once

  datatype Race = Race(file: Shared, pending: seq<Pending>)

  datatype RaceMove = Begins(record: Json) | Lands(append: nat) | Dies(append: nat)

  function Without(pending: seq<Pending>, i: nat): seq<Pending>
    requires i < |pending|
  {
    pending[..i] + pending[i + 1..]
  }

  function RaceStep(r: Race, move: RaceMove, nearest: Nearest): Race {
    match move
    case Begins(record) =>
      (match Look(r.file, record, nearest)
       case Some(p) => r.(pending := r.pending + [p])
       case None => r)
    case Lands(i) =>
      if i < |r.pending| then Race(Land(r.file, r.pending[i]), Without(r.pending, i)) else r
    case Dies(i) => if i < |r.pending| then r.(pending := Without(r.pending, i)) else r
  }

  function RunRace(moves: seq<RaceMove>, nearest: Nearest): Race {
    if moves == [] then Race(NO_FILE, []) else RaceStep(RunRace(moves[..|moves| - 1], nearest), moves[|moves| - 1], nearest)
  }

  predicate AllPendingOk(f: Shared, pending: seq<Pending>) { forall p | p in pending :: PendingOk(f, p) }

  predicate RaceOk(r: Race) { SharedOk(r.file) && AllPendingOk(r.file, r.pending) }

  lemma LookKeeps(f: Shared, pending: seq<Pending>, record: Json, nearest: Nearest)
    requires SharedOk(f) && AllPendingOk(f, pending) && Doubles(nearest) && Look(f, record, nearest).Some?
    ensures AllPendingOk(f, pending + [Look(f, record, nearest).value])
  {
    LookIff(f, record, nearest);
    hide Look;
    hide PendingOk;
    hide SharedOk;
    hide AllUnbroken;
    hide Render;
  }

  lemma LandKeepsAll(f: Shared, pending: seq<Pending>, p: Pending, nearest: Nearest)
    requires SharedOk(f) && AllPendingOk(f, pending) && PendingOk(f, p)
    ensures SharedOk(Land(f, p)) && AllPendingOk(Land(f, p), pending)
  {
    LandKeeps(f, p, nearest);
    hide Land;
    hide PendingOk;
    hide SharedOk;
  }

  lemma WithoutKeeps(f: Shared, pending: seq<Pending>, i: nat)
    requires AllPendingOk(f, pending) && i < |pending|
    ensures AllPendingOk(f, Without(pending, i)) && PendingOk(f, pending[i])
  {
    hide PendingOk;
    forall p | p in Without(pending, i) ensures p in pending {}
  }

  lemma RaceStepKeeps(r: Race, move: RaceMove, nearest: Nearest)
    requires RaceOk(r) && Doubles(nearest)
    ensures RaceOk(RaceStep(r, move, nearest))
  {
    hide SharedOk;
    hide AllPendingOk;
    hide Look;
    hide Land;
    hide Without;
    hide Doubles;
    match move
    case Begins(record) => if Look(r.file, record, nearest).Some? { LookKeeps(r.file, r.pending, record, nearest); }
    case Lands(i) =>
      if i < |r.pending| {
        WithoutKeeps(r.file, r.pending, i);
        LandKeepsAll(r.file, Without(r.pending, i), r.pending[i], nearest);
      }
    case Dies(i) => if i < |r.pending| { WithoutKeeps(r.file, r.pending, i); }
  }

  lemma {:induction false} RunRaceOk(moves: seq<RaceMove>, nearest: Nearest)
    requires Doubles(nearest)
    ensures RaceOk(RunRace(moves, nearest))
  {
    hide RaceStep;
    hide Doubles;
    if moves == [] {
      NoFileOk();
    } else {
      RunRaceOk(moves[..|moves| - 1], nearest);
      hide RaceOk;
      RaceStepKeeps(RunRace(moves[..|moves| - 1], nearest), moves[|moves| - 1], nearest);
    }
  }

  /** However many appends overlap on one file, and however many die half way, the file verifies
      exactly when every record written is stable and unbroken and no line was written after
      another had come between its own reading and writing. */
  lemma RacesVerifyIff(moves: seq<RaceMove>, nearest: Nearest)
    requires Doubles(nearest)
    ensures var f := RunRace(moves, nearest).file;
            Verifies(f.text, nearest) <==> AllStable(f.entries, nearest) && AllUnbroken(f.entries) && !f.overlapped
  {
    RunRaceOk(moves, nearest);
    hide RunRace;
    hide Verifies;
    hide SharedOk;
    hide AllStable;
    hide AllUnbroken;
    SharedVerifiesIff(RunRace(moves, nearest).file, nearest);
  }

  // ------------------------------------------------------ one append after another

  /** All attempts in order; one that raises writes nothing. */
  function AppendAll(records: seq<Json>, nearest: Nearest): Shared {
    if records == [] then NO_FILE
    else
      var before := AppendAll(records[..|records| - 1], nearest);
      match Look(before, records[|records| - 1], nearest)
      case Some(p) => Land(before, p)
      case None => before
  }

  lemma {:induction false} AppendAllOk(records: seq<Json>, nearest: Nearest)
    requires Doubles(nearest)
    ensures SharedOk(AppendAll(records, nearest)) && !AppendAll(records, nearest).overlapped
  {
    hide Doubles;
    hide SharedOk;
    if records == [] {
      NoFileOk();
    } else {
      var before, last := AppendAll(records[..|records| - 1], nearest), records[|records| - 1];
      AppendAllOk(records[..|records| - 1], nearest);
      LookIff(before, last, nearest);
      hide Look;
      hide PendingOk;
      hide AllUnbroken;
      hide Render;
      if Look(before, last, nearest).Some? { LandKeeps(before, Look(before, last, nearest).value, nearest); }
    }
  }

  /** One more record, as `append_attempt` does it. */
  lemma AppendIsAppended(records: seq<Json>, last: Json, nearest: Nearest)
    ensures var before, after := AppendAll(records, nearest), AppendAll(records + [last], nearest);
            match Appended(before.text, last, nearest)
            case Ok(text) => after.text == text && |after.entries| == |before.entries| + 1 &&
                             after.entries[..|before.entries|] == before.entries &&
                             after.entries[|before.entries|].record == last
            case Err(_) => after == before
  {
    hide LineOf;
    hide SplitLines;
    hide LastHash;
    hide Render;
    assert (records + [last])[..|records|] == records;
  }

  /** A file built by any appends, one after another, verifies exactly when every record written to
      it comes back the same from its own text and has no separator in its strings: in it every
      number is an int, zero, a whole number below 10^64 in magnitude or a fraction that is a
      double's, and no string or key holds U+0085, U+2028 or U+2029. */
  lemma AttemptsVerifyIff(records: seq<Json>, nearest: Nearest)
    requires Doubles(nearest)
    ensures var f := AppendAll(records, nearest);
            Verifies(f.text, nearest) <==> AllStable(f.entries, nearest) && AllUnbroken(f.entries)
  {
    AppendAllOk(records, nearest);
    hide AppendAll;
    hide Verifies;
    hide SharedOk;
    hide AllStable;
    hide AllUnbroken;
    SharedVerifiesIff(AppendAll(records, nearest), nearest);
  }

  /** Once a record with a separator is written, every further append raises. */
  lemma SeparatorEndsTheFile(records: seq<Json>, next: Json, nearest: Nearest)
    requires Doubles(nearest)
    ensures var f := AppendAll(records, nearest);
            !AllUnbroken(f.entries) ==> Appended(f.text, next, nearest) == Err(Unreadable)
  {
    AppendAllOk(records, nearest);
    hide AppendAll;
    hide AllUnbroken;
    hide SharedOk;
    LookIff(AppendAll(records, nearest), next, nearest);
    hide Look;
    hide PendingOk;
    hide Prepared;
    hide Render;
  }

  /** Until then exactly the printable records are written. */
  lemma PrintableIsWritten(records: seq<Json>, next: Json, nearest: Nearest)
    requires Doubles(nearest)
    ensures var f := AppendAll(records, nearest);
            AllUnbroken(f.entries) ==> (Appended(f.text, next, nearest).Ok? <==> Render(next).Ok?)
  {
    AppendAllOk(records, nearest);
    hide AppendAll;
    hide AllUnbroken;
    hide SharedOk;
    LookIff(AppendAll(records, nearest), next, nearest);
    hide PendingOk;
    hide Prepared;
    hide Render;
    hide LineOf;
  }

  /** A refused dispatch whose correlation id is the number 1E+64 is logged, and its own log no
      longer verifies. */
  lemma LargePowerBreaksAttempts(nearest: Nearest)
    requires Doubles(nearest)
    ensures var record := Obj(map["correlation_id" := Dec(Decimal(false, 1, 64))]);
            var f := AppendAll([record], nearest);
            |f.entries| == 1 && f.entries[0].record == record && !Verifies(f.text, nearest)
  {
    var n := Dec(Decimal(false, 1, 64));
    var record := Obj(map["correlation_id" := n]);
    LargePowerIsUnstable(nearest);
    OneMember("correlation_id", n, nearest);
    AttemptsVerifyIff([record], nearest);
    PrintableIsWritten([], record, nearest);
    AppendIsAppended([], record, nearest);
    hide Render;
    hide Stable;
    hide Appended;
    hide Verifies;
    hide Unbroken;
    assert [] + [record] == [record];
    assert AppendAll([], nearest).entries == [];
    hide AppendAll;
    assert AppendAll([record], nearest).entries[0] in AppendAll([record], nearest).entries;
  }
}
