/**
The append-only, newline-framed transcript journal: appending, and reading it
back after a crash may have cut the file anywhere.
*/
module TranscriptJournals {
  import opened Primitives
  import opened SessionIdentities
  import opened ProjectModel
  import opened TranscriptCodec

  const RECORD_VERSION: u32 := 1
  const MAX_RECORD_BYTES := 1024 * 1024
  const MAX_FILE_BYTES := 64 * 1024 * 1024

  datatype Recovery = Refuse | TruncatePartialTail

  datatype JournalError =
    | FileTooLarge | BadLine | Undecodable | WrongVersion | WrongIdentity | SequenceGap
    | SequenceExhausted | IncompleteTail | RecordTooLarge

  // ---- framing --------------------------------------------------------------

  /** Complete lines, without their line feeds, and what follows the last of them. */
  datatype Framed = Framed(lines: seq<seq<byte>>, tail: seq<byte>)

  /** Split `b` at line feeds, `begun` being the line already begun. */
  function Split(begun: seq<byte>, b: seq<byte>): Framed
    decreases |b|
  {
    if b == [] then Framed([], begun)
    else if b[0] == LF then
      var rest := Split([], b[1..]);
      Framed([begun] + rest.lines, rest.tail)
    else Split(begun + [b[0]], b[1..])
  }

  function Lines(b: seq<byte>): seq<seq<byte>> {
    Split([], b).lines
  }

  function Tail(b: seq<byte>): seq<byte> {
    Split([], b).tail
  }

  /** Splitting goes on where it stopped. */
  lemma {:induction false} SplitAppend(begun: seq<byte>, a: seq<byte>, b: seq<byte>)
    ensures var first := Split(begun, a);
            Split(begun, a + b) == Framed(first.lines + Split(first.tail, b).lines, Split(first.tail, b).tail)
    decreases |a|
  {
    if a == [] {
      assert a + b == b && [] + Split(begun, b).lines == Split(begun, b).lines;
    } else {
      assert (a + b)[0] == a[0] && (a + b)[1..] == a[1..] + b;
      if a[0] == LF {
        SplitAppend([], a[1..], b);
        var x, y := Split([], a[1..]).lines, Split(Split([], a[1..]).tail, b).lines;
        assert [begun] + (x + y) == [begun] + x + y;
      } else {
        SplitAppend(begun + [a[0]], a[1..], b);
      }
    }
  }

  /** Without a line feed there is only a tail. */
  lemma {:induction false} SplitPlain(begun: seq<byte>, b: seq<byte>)
    requires LF !in b
    ensures Split(begun, b) == Framed([], begun + b)
    decreases |b|
  {
    if b == [] {
      assert begun + b == begun;
    } else {
      assert b[0] in b;
      assert forall x :: x in b[1..] ==> x in b;
      SplitPlain(begun + [b[0]], b[1..]);
      assert begun + [b[0]] + b[1..] == begun + b;
    }
  }

  lemma SplitLine(begun: seq<byte>, line: seq<byte>)
    requires LF !in line
    ensures Split(begun, line + [LF]) == Framed([begun + line], [])
  {
    SplitAppend(begun, line, [LF]);
    SplitPlain(begun, line);
    assert [LF][1..] == [];
    assert [] + [begun + line] == [begun + line];
  }

  /** There are as many lines as line feeds. */
  lemma {:induction false} LinesCountLineFeeds(begun: seq<byte>, b: seq<byte>)
    ensures |Split(begun, b).lines| == multiset(b)[LF]
    decreases |b|
  {
    if b != [] {
      assert b == [b[0]] + b[1..];
      assert multiset(b) == multiset{b[0]} + multiset(b[1..]);
      if b[0] == LF { LinesCountLineFeeds([], b[1..]); } else { LinesCountLineFeeds(begun + [b[0]], b[1..]); }
    }
  }

  /** Appending a whole line to whole lines adds exactly that line. */
  lemma AppendLine(b: seq<byte>, line: seq<byte>)
    requires Tail(b) == [] && LF !in line
    ensures Lines(b + (line + [LF])) == Lines(b) + [line] && Tail(b + (line + [LF])) == []
  {
    SplitAppend([], b, line + [LF]);
    SplitLine([], line);
    assert [] + line == line;
  }

  /** A file ends on a line boundary exactly when it is empty or its last byte is a line feed. */
  lemma TailIsEmptyIff(b: seq<byte>)
    ensures Tail(b) == [] <==> b == [] || b[|b| - 1] == LF
  {
    if b != [] {
      var front, last := b[..|b| - 1], b[|b| - 1];
      assert b == front + [last] && [last][1..] == [];
      SplitAppend([], front, [last]);
    }
  }

  /** The split position: everything up to it is whole lines, nothing after it ends one. */
  lemma SplitPosition(b: seq<byte>, n: nat)
    requires n <= |b| && (n == 0 || b[n - 1] == LF) && LF !in b[n..]
    ensures Lines(b[..n]) == Lines(b) && Tail(b[..n]) == [] && Tail(b) == b[n..]
  {
    assert b == b[..n] + b[n..];
    SplitAppend([], b[..n], b[n..]);
    TailIsEmptyIff(b[..n]);
    SplitPlain([], b[n..]);
    assert [] + b[n..] == b[n..];
    assert Lines(b[..n]) + [] == Lines(b[..n]);
  }

  /** A cut keeps a prefix of the lines, as many as the line feeds it keeps. */
  lemma CutLines(b: seq<byte>, k: nat)
    requires k <= |b|
    ensures var m := multiset(b[..k])[LF];
            m <= |Lines(b)| && Lines(b[..k]) == Lines(b)[..m]
  {
    assert b == b[..k] + b[k..];
    SplitAppend([], b[..k], b[k..]);
    LinesCountLineFeeds([], b[..k]);
  }

  /** One past the last line feed, or zero. */
  function LastComplete(b: seq<byte>): (n: nat)
    ensures n <= |b| && (n == 0 || b[n - 1] == LF) && LF !in b[n..]
  {
    if b == [] then 0
    else if b[|b| - 1] == LF then |b|
    else
      var n := LastComplete(b[..|b| - 1]);
      assert b[n..] == b[..|b| - 1][n..] + [b[|b| - 1]];
      n
  }

  // ---- reading --------------------------------------------------------------

  function ParseLine(line: seq<byte>, identity: SessionIdentity, expected: u64): Result<Record, JournalError> {
    if line == [] || |line| + 1 > MAX_RECORD_BYTES then Err(BadLine)
    else
      var record := Decode(line);
      if record.None? then Err(Undecodable)
      else if record.value.version != RECORD_VERSION then Err(WrongVersion)
      else if record.value.identity != identity then Err(WrongIdentity)
      else if record.value.sequence != expected then Err(SequenceGap)
      else if expected == U64_MAX then Err(SequenceExhausted)
      else Ok(record.value)
  }

  function ParseLines(lines: seq<seq<byte>>, identity: SessionIdentity, expected: u64)
    : (r: Result<seq<Record>, JournalError>)
    ensures r.Ok? ==> |r.value| == |lines|
    decreases |lines|
  {
    if lines == [] then Ok([])
    else
      var first := ParseLine(lines[0], identity, expected);
      if first.Err? then Err(first.error)
      else
        Join([first.value], ParseLines(lines[1..], identity, expected + 1))
  }

  /** What reading leaves: the records, and the file's bytes afterwards. */
  datatype Recovered = Recovered(records: Result<seq<Record>, JournalError>, file: seq<byte>)

  function Recover(file: seq<byte>, identity: SessionIdentity, recovery: Recovery): Recovered {
    if |file| > MAX_FILE_BYTES then Recovered(Err(FileTooLarge), file)
    else
      var whole := file[..LastComplete(file)];
      var records := ParseLines(Lines(whole), identity, 1);
      if records.Err? || |whole| == |file| then Recovered(records, file)
      else if recovery == Refuse then Recovered(Err(IncompleteTail), file)
      else Recovered(records, whole)
  }

  function Join(front: seq<Record>, rest: Result<seq<Record>, JournalError>): Result<seq<Record>, JournalError> {
    if rest.Err? then rest else Ok(front + rest.value)
  }

  lemma JoinJoin(a: seq<Record>, b: seq<Record>, rest: Result<seq<Record>, JournalError>)
    ensures Join(a, Join(b, rest)) == Join(a + b, rest)
  {
    if rest.Ok? { assert a + (b + rest.value) == a + b + rest.value; }
  }

  lemma JoinNothing(rest: Result<seq<Record>, JournalError>)
    ensures Join([], rest) == rest
  {
    if rest.Ok? { assert [] + rest.value == rest.value; }
  }

  lemma ParseCons(line: seq<byte>, rest: seq<seq<byte>>, identity: SessionIdentity, expected: u64)
    requires ParseLine(line, identity, expected).Ok?
    ensures ParseLines([line] + rest, identity, expected)
            == Join([ParseLine(line, identity, expected).value], ParseLines(rest, identity, expected + 1))
  {
    assert ([line] + rest)[1..] == rest;
  }

  /** One more good line is one more record. */
  lemma {:induction false} ParseOneMore(lines: seq<seq<byte>>, line: seq<byte>, identity: SessionIdentity,
                                        expected: u64)
    requires ParseLines(lines, identity, expected).Ok? && expected + |lines| <= U64_MAX
    requires ParseLine(line, identity, expected + |lines|).Ok?
    ensures ParseLines(lines + [line], identity, expected)
            == Ok(ParseLines(lines, identity, expected).value + [ParseLine(line, identity, expected + |lines|).value])
    decreases |lines|
  {
    if lines == [] {
      ParseSingle(line, identity, expected);
      assert lines + [line] == [line];
      assert [] + [ParseLine(line, identity, expected).value] == [ParseLine(line, identity, expected).value];
    } else {
      var first := ParseLine(lines[0], identity, expected).value;
      var rest := ParseLines(lines[1..], identity, expected + 1).value;
      var last := ParseLine(line, identity, expected + |lines|).value;
      ParseOneMore(lines[1..], line, identity, expected + 1);
      assert ParseLines(lines[1..] + [line], identity, expected + 1) == Ok(rest + [last]);
      assert lines + [line] == [lines[0]] + (lines[1..] + [line]) by { Regroup(lines, line); }
      ParseCons(lines[0], lines[1..] + [line], identity, expected);
      JoinOk(first, rest, last);
    }
  }

  lemma Regroup(lines: seq<seq<byte>>, line: seq<byte>)
    requires lines != []
    ensures lines + [line] == [lines[0]] + (lines[1..] + [line])
  {
  }

  lemma JoinOk(first: Record, rest: seq<Record>, last: Record)
    ensures Join([first], Ok(rest + [last])) == Ok(([first] + rest) + [last])
  {
    assert [first] + (rest + [last]) == ([first] + rest) + [last];
  }

  lemma {:induction false} ParsePrefix(lines: seq<seq<byte>>, identity: SessionIdentity, expected: u64, m: nat)
    requires m <= |lines| && ParseLines(lines, identity, expected).Ok?
    ensures ParseLines(lines[..m], identity, expected) == Ok(ParseLines(lines, identity, expected).value[..m])
    decreases |lines|
  {
    if m > 0 {
      ParsePrefix(lines[1..], identity, expected + 1, m - 1);
      assert lines[..m][1..] == lines[1..][..m - 1];
      var rest := ParseLines(lines[1..], identity, expected + 1).value;
      var first := ParseLine(lines[0], identity, expected).value;
      assert ([first] + rest)[..m] == [first] + rest[..m - 1];
    }
  }

  lemma {:induction false} SequencesCount(lines: seq<seq<byte>>, identity: SessionIdentity, expected: u64, i: nat)
    requires ParseLines(lines, identity, expected).Ok? && i < |lines|
    ensures ParseLines(lines, identity, expected).value[i].sequence == expected + i
    decreases |lines|
  {
    if i > 0 { SequencesCount(lines[1..], identity, expected + 1, i - 1); }
  }

  // ---- crashes --------------------------------------------------------------

  /** A complete journal: whole lines that read back as these records. */
  ghost predicate Complete(file: seq<byte>, identity: SessionIdentity, records: seq<Record>) {
    && |file| <= MAX_FILE_BYTES && Tail(file) == []
    && ParseLines(Lines(file), identity, 1) == Ok(records)
  }

  /** How many records a cut leaves whole: one for each line feed it keeps. */
  function Survivors(file: seq<byte>, k: nat): nat
    requires k <= |file|
  {
    multiset(file[..k])[LF]
  }

  /** The whole lines of a cut: same lines, and nothing after them. */
  lemma WholePart(cut: seq<byte>)
    ensures var n := LastComplete(cut);
            Lines(cut[..n]) == Lines(cut) && Tail(cut[..n]) == []
  {
    SplitPosition(cut, LastComplete(cut));
  }

  lemma WholeIff(cut: seq<byte>)
    ensures LastComplete(cut) == |cut| <==> cut == [] || cut[|cut| - 1] == LF
  {
  }

  /**
  A complete journal cut at any byte. Truncating recovery reads exactly the
  records whose line feed survived and leaves a complete journal of them.
  Refusing recovery never changes the file, and opens exactly when the cut falls
  on a record boundary, with the same records.
  */
  lemma CutRecovery(file: seq<byte>, identity: SessionIdentity, records: seq<Record>, k: nat)
    requires Complete(file, identity, records) && k <= |file|
    ensures Survivors(file, k) <= |records|
    ensures var kept := records[..Survivors(file, k)];
            var truncated := Recover(file[..k], identity, TruncatePartialTail);
            truncated.records == Ok(kept) && Complete(truncated.file, identity, kept) && truncated.file <= file
    ensures var refused := Recover(file[..k], identity, Refuse);
            && refused.file == file[..k]
            && (refused.records.Ok? <==> k == 0 || file[k - 1] == LF)
            && (refused.records.Ok? ==> refused.records == Ok(records[..Survivors(file, k)]))
  {
    var cut := file[..k];
    CutLines(file, k);
    ParsePrefix(Lines(file), identity, 1, Survivors(file, k));
    WholePart(cut);
    WholeIff(cut);
    var n := LastComplete(cut);
    assert cut[..n] == file[..n];
    assert cut[..|cut|] == cut;
    assert k > 0 ==> cut[|cut| - 1] == file[k - 1];
  }

  /** A file within the size cap cannot exhaust the sequence numbers. */
  lemma RecordsAreFew(b: seq<byte>)
    ensures |Lines(b)| <= |b|
  {
    LinesCountLineFeeds([], b);
    assert multiset(b)[LF] <= |multiset(b)|;
  }

  // ---- appending ------------------------------------------------------------

  function NextRecord(identity: SessionIdentity, records: seq<Record>, role: ChatMessageRole, text: seq<byte>): Record
    requires |records| < U64_MAX
  {
    Record(RECORD_VERSION, identity, |records| + 1, role, text)
  }

  /** The record and the file with it are within their caps. */
  predicate Fits(file: seq<byte>, record: Record) {
    |Encode(record)| + 1 <= MAX_RECORD_BYTES && |file| + |Encode(record)| + 1 <= MAX_FILE_BYTES
  }

  lemma CompleteIsShort(file: seq<byte>, identity: SessionIdentity, records: seq<Record>)
    requires Complete(file, identity, records)
    ensures |records| <= MAX_FILE_BYTES
  {
    RecordsAreFew(file);
  }

  lemma AppendKeepsComplete(file: seq<byte>, identity: SessionIdentity, records: seq<Record>,
                            role: ChatMessageRole, text: seq<byte>)
    requires Complete(file, identity, records) && |records| <= MAX_FILE_BYTES
    requires Fits(file, NextRecord(identity, records, role, text))
    ensures var record := NextRecord(identity, records, role, text);
            Complete(file + (Encode(record) + [LF]), identity, records + [record])
  {
    var record := NextRecord(identity, records, role, text);
    RecordRoundTrip(record);
    AppendLine(file, Encode(record));
    ParseOneMore(Lines(file), Encode(record), identity, 1);
  }

  // ---- whole lives ----------------------------------------------------------

  /** An append, or a crash that leaves `k` bytes and a truncating recovery after it. */
  datatype Event = Appended(role: ChatMessageRole, text: seq<byte>) | Crashed(k: nat)

  datatype Life = Life(file: seq<byte>, records: seq<Record>)

  function Live(life: Life, identity: SessionIdentity, e: Event): Life {
    match e
    case Appended(role, text) =>
      if |life.records| >= U64_MAX || !Fits(life.file, NextRecord(identity, life.records, role, text)) then life
      else
        var record := NextRecord(identity, life.records, role, text);
        Life(life.file + (Encode(record) + [LF]), life.records + [record])
    case Crashed(k) =>
      if k > |life.file| || Survivors(life.file, k) > |life.records| then life
      else Life(Recover(life.file[..k], identity, TruncatePartialTail).file, life.records[..Survivors(life.file, k)])
  }

  function Lifetime(identity: SessionIdentity, es: seq<Event>): Life {
    if es == [] then Life([], []) else Live(Lifetime(identity, es[..|es| - 1]), identity, es[|es| - 1])
  }

  /**
  Any run of appends and crashes, from an empty file: what is in the file reads
  back as exactly the records appended and not cut, numbered from one without a gap.
  */
  lemma {:induction false} LifetimeReadsBack(identity: SessionIdentity, es: seq<Event>)
    ensures var life := Lifetime(identity, es);
            && Complete(life.file, identity, life.records)
            && forall i :: 0 <= i < |life.records| ==> life.records[i].sequence == i + 1
    decreases |es|
  {
    if es == [] {
      assert Complete([], identity, []);
    } else {
      LifetimeReadsBack(identity, es[..|es| - 1]);
      LiveKeepsComplete(Lifetime(identity, es[..|es| - 1]), identity, es[|es| - 1]);
    }
    var life := Lifetime(identity, es);
    forall i | 0 <= i < |life.records| ensures life.records[i].sequence == i + 1 {
      SequencesCount(Lines(life.file), identity, 1, i);
    }
  }

  lemma LiveKeepsComplete(life: Life, identity: SessionIdentity, e: Event)
    requires Complete(life.file, identity, life.records)
    ensures var next := Live(life, identity, e); Complete(next.file, identity, next.records)
  {
    CompleteIsShort(life.file, identity, life.records);
    match e {
      case Appended(role, text) =>
        if Fits(life.file, NextRecord(identity, life.records, role, text)) {
          AppendKeepsComplete(life.file, identity, life.records, role, text);
        }
      case Crashed(k) =>
        if k <= |life.file| { CutRecovery(life.file, identity, life.records, k); }
    }
  }

  // ---- the journal ----------------------------------------------------------

  class File {
    var bytes: seq<byte>

    constructor (bytes: seq<byte>)
      ensures this.bytes == bytes
    {
      this.bytes := bytes;
    }
  }

  lemma ParseAt(lines: seq<seq<byte>>, i: nat, identity: SessionIdentity, expected: u64)
    requires i < |lines|
    ensures var first := ParseLine(lines[i], identity, expected);
            ParseLines(lines[i..], identity, expected)
            == if first.Err? then Err(first.error)
               else Join([first.value], ParseLines(lines[i + 1..], identity, expected + 1))
  {
    assert lines[i..][1..] == lines[i + 1..];
  }

  /** The checks on one line, in order. */
  method ReadLine(line: seq<byte>, identity: SessionIdentity, expected: u64) returns (r: Result<Record, JournalError>)
    ensures r == ParseLine(line, identity, expected)
  {
    if line == [] || |line| + 1 > MAX_RECORD_BYTES { return Err(BadLine); }
    var record := Decode(line);
    if record.None? { return Err(Undecodable); }
    if record.value.version != RECORD_VERSION { return Err(WrongVersion); }
    if record.value.identity != identity { return Err(WrongIdentity); }
    if record.value.sequence != expected { return Err(SequenceGap); }
    if expected == U64_MAX { return Err(SequenceExhausted); }
    return Ok(record.value);
  }

  method ReadLines(lines: seq<seq<byte>>, identity: SessionIdentity) returns (r: Result<seq<Record>, JournalError>)
    ensures r == ParseLines(lines, identity, 1)
  {
    var records: seq<Record> := [];
    var expected: u64 := 1;
    assert lines[0..] == lines;
    JoinNothing(ParseLines(lines, identity, 1));
    for i := 0 to |lines|
      invariant expected == 1 + i
      invariant ParseLines(lines, identity, 1) == Join(records, ParseLines(lines[i..], identity, expected))
    {
      ParseAt(lines, i, identity, expected);
      var record := ReadLine(lines[i], identity, expected);
      if record.Err? { return Err(record.error); }
      JoinJoin(records, [record.value], ParseLines(lines[i + 1..], identity, expected + 1));
      expected := expected + 1;
      records := records + [record.value];
    }
    assert records + [] == records;
    return Ok(records);
  }

  method ReadAndRecover(file: File, identity: SessionIdentity, recovery: Recovery)
    returns (r: Result<(seq<Record>, nat), JournalError>)
    modifies file
    ensures var wanted := Recover(old(file.bytes), identity, recovery);
            && file.bytes == wanted.file
            && (if r.Ok? then wanted.records == Ok(r.value.0) && r.value.1 == |file.bytes|
                else wanted.records == Err(r.error))
  {
    var bytes := file.bytes;
    if |bytes| > MAX_FILE_BYTES { return Err(FileTooLarge); }
    var lastComplete := LastComplete(bytes);
    var records := ReadLines(Lines(bytes[..lastComplete]), identity);
    if records.Err? { return Err(records.error); }
    if lastComplete != |bytes| {
      if recovery == Refuse { return Err(IncompleteTail); }
      file.bytes := bytes[..lastComplete];
    }
    return Ok((records.value, lastComplete));
  }

  class TranscriptJournal {
    const identity: SessionIdentity
    const file: File
    var records: seq<Record>
    var nextSequence: u64
    var bytes: nat

    ghost predicate Valid()
      reads this, file
    {
      && Complete(file.bytes, identity, records)
      && bytes == |file.bytes| && nextSequence == |records| + 1
    }

    constructor Opened(file: File, identity: SessionIdentity, records: seq<Record>, nextSequence: u64, bytes: nat)
      ensures this.file == file && this.identity == identity && this.records == records
      ensures this.nextSequence == nextSequence && this.bytes == bytes
    {
      this.file, this.identity, this.records := file, identity, records;
      this.nextSequence, this.bytes := nextSequence, bytes;
    }

    static method OpenWithRecovery(file: File, identity: SessionIdentity, recovery: Recovery)
      returns (r: Result<TranscriptJournal, JournalError>)
      modifies file
      ensures var wanted := Recover(old(file.bytes), identity, recovery);
              && file.bytes == wanted.file
              && (if r.Ok? then wanted.records == Ok(r.value.records) else wanted.records == Err(r.error))
      ensures r.Ok? ==> r.value.file == file && r.value.identity == identity && r.value.Valid() && fresh(r.value)
    {
      ghost var before := file.bytes;
      RecoveredIsComplete(before, identity, recovery);
      var read := ReadAndRecover(file, identity, recovery);
      if read.Err? { return Err(read.error); }
      var (records, bytes) := read.value;
      var last := if records == [] then 0 else records[|records| - 1].sequence;
      var next: u64 := last + 1;
      var journal := new TranscriptJournal.Opened(file, identity, records, next, bytes);
      return Ok(journal);
    }

    /** On success one record is added, with the next number, as one more line; otherwise nothing moves. */
    method Append(role: ChatMessageRole, text: seq<byte>) returns (r: Result<u64, JournalError>)
      requires Valid()
      modifies this, file
      ensures Valid()
      ensures r.Ok? ==>
                && r.value == old(nextSequence) && nextSequence == r.value + 1
                && records == old(records) + [Record(RECORD_VERSION, identity, r.value, role, text)]
                && file.bytes == old(file.bytes) + (Encode(records[|records| - 1]) + [LF])
      ensures r.Err? ==> records == old(records) && file.bytes == old(file.bytes) && nextSequence == old(nextSequence)
      ensures r.Ok? <==>
                var line := Encode(Record(RECORD_VERSION, identity, old(nextSequence), role, text));
                |line| + 1 <= MAX_RECORD_BYTES && old(|file.bytes|) + |line| + 1 <= MAX_FILE_BYTES
    {
      var sequence := nextSequence;
      var record := Record(RECORD_VERSION, identity, sequence, role, text);
      var encoded := Encode(record) + [LF];
      if |encoded| > MAX_RECORD_BYTES { return Err(RecordTooLarge); }
      var newSize := bytes + |encoded|;
      if newSize > MAX_FILE_BYTES { return Err(FileTooLarge); }
      CompleteIsShort(file.bytes, identity, records);
      AppendKeepsComplete(file.bytes, identity, records, role, text);
      file.bytes := file.bytes + encoded;
      records := records + [record];
      nextSequence := sequence + 1;
      bytes := newSize;
      return Ok(sequence);
    }
  }

  lemma ParseSingle(line: seq<byte>, identity: SessionIdentity, expected: u64)
    requires ParseLine(line, identity, expected).Ok?
    ensures ParseLines([line], identity, expected) == Ok([ParseLine(line, identity, expected).value])
  {
    assert [line][1..] == [];
    var record := ParseLine(line, identity, expected).value;
    assert [record] + [] == [record];
  }

  /** Whatever opens is a complete journal, numbered from one. */
  lemma RecoveredIsComplete(file: seq<byte>, identity: SessionIdentity, recovery: Recovery)
    ensures var r := Recover(file, identity, recovery);
            r.records.Ok? ==>
              && Complete(r.file, identity, r.records.value) && |r.records.value| <= MAX_FILE_BYTES
              && forall i :: 0 <= i < |r.records.value| ==> r.records.value[i].sequence == i + 1
  {
    WholePart(file);
    var whole := file[..LastComplete(file)];
    assert file[..|file|] == file;
    RecordsAreFew(whole);
    var r := Recover(file, identity, recovery);
    if r.records.Ok? {
      forall i | 0 <= i < |r.records.value| ensures r.records.value[i].sequence == i + 1 {
        SequencesCount(Lines(whole), identity, 1, i);
      }
    }
  }
}
