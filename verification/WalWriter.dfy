/** The group-commit writer thread and flip-flop compaction (walrq/src/engine/disk_log.rs).

    `Writer` is the state of the disk log as a value and the functions say what one turn of the
    writer loop and one compaction do to it; `class DiskLogs.DiskLog` does the same in place. */
module WalWriter {
  import opened Basics
  import opened Framing
  import opened WalCodec
  import opened Recovery

  /** The writer stops coalescing once its buffer is larger than this. */
  const BATCH_LIMIT: nat := 128 * 1024

  /** What is sent to the writer thread; `notify` asks for an answer once the record is on disk. */
  datatype Command =
    | Append(record: WalRecord, notify: bool)
    | Flush

  predicate Waits(c: Command) {
    c.Flush? || c.notify
  }

  /** What the writer and the compactor do to the outside world, in order. */
  datatype Event =
    | Wrote(toB: bool, bytes: Bytes)
    | Truncated(isB: bool)
    | Notified(command: nat)

  function Perform(s: Segments, e: Event): Segments {
    match e
    case Wrote(toB, bytes) => WithSegment(s, toB, Segment(s, toB) + bytes)
    case Truncated(isB) => WithSegment(s, isB, [])
    case Notified(_) => s
  }

  function PerformAll(s: Segments, trace: seq<Event>): Segments {
    if trace == [] then s else Perform(PerformAll(s, trace[..|trace| - 1]), trace[|trace| - 1])
  }

  /** All bytes written so far, to whichever segment. */
  function Written(trace: seq<Event>): Bytes {
    if trace == [] then []
    else
      var e := trace[|trace| - 1];
      Written(trace[..|trace| - 1]) + if e.Wrote? then e.bytes else []
  }

  function Flat(parts: seq<Bytes>): Bytes {
    if parts == [] then [] else Flat(parts[..|parts| - 1]) + parts[|parts| - 1]
  }

  lemma {:induction false} FlatSplit(a: seq<Bytes>, b: seq<Bytes>)
    ensures Flat(a + b) == Flat(a) + Flat(b)
  {
    if b == [] {
      EmptyRight(a);
    } else {
      assert (a + b)[..|a + b| - 1] == a + b[..|b| - 1];
      FlatSplit(a, b[..|b| - 1]);
      Assoc(Flat(a), Flat(b[..|b| - 1]), b[|b| - 1]);
    }
  }

  lemma FlatPrefix(parts: seq<Bytes>, n: nat)
    requires n <= |parts|
    ensures Flat(parts[..n]) <= Flat(parts)
  {
    assert parts == parts[..n] + parts[n..];
    FlatSplit(parts[..n], parts[n..]);
  }

  /** How a record is written when the queue names known so far are `names`. */
  type Encoder = (seq<string>, WalRecord) -> Bytes

  /** Registering further names does not change how records of earlier queues are written. */
  ghost predicate Stable(enc: Encoder) {
    forall names: seq<string>, more: seq<string>, r: WalRecord {:trigger enc(names + more, r)} ::
      r.queue in names ==> enc(names + more, r) == enc(names, r)
  }

  lemma EncodeStable()
    ensures Stable(Encode)
  {
    forall names: seq<string>, more: seq<string>, r: WalRecord | r.queue in names
      ensures Encode(names + more, r) == Encode(names, r)
    {
      NumberStable(names, more, r.queue);
    }
  }

  function Register(names: seq<string>, queue: string): seq<string> {
    if queue in names then names else names + [queue]
  }

  /** Registering further names leaves the numbers of earlier ones alone. */
  lemma {:induction false} NumberStable(names: seq<string>, more: seq<string>, queue: string)
    requires queue in names
    ensures NumberOf(names + more, queue) == NumberOf(names, queue)
  {
    if names[0] != queue {
      assert (names + more)[1..] == names[1..] + more;
      NumberStable(names[1..], more, queue);
    }
  }

  function BytesFor(enc: Encoder, names: seq<string>, c: Command): Bytes {
    match c
    case Append(r, _) => enc(names, r)
    case Flush => []
  }

  predicate Knows(names: seq<string>, c: Command) {
    c.Append? ==> c.record.queue in names
  }

  /** `parts` are the encodings of the commands, one by one. */
  ghost predicate Encodes(enc: Encoder, names: seq<string>, sent: seq<Command>, parts: seq<Bytes>) {
    && |parts| == |sent|
    && (sent == []
        || (var n := |sent| - 1;
            Encodes(enc, names, sent[..n], parts[..n]) && Knows(names, sent[n])
              && parts[n] == BytesFor(enc, names, sent[n])))
  }

  lemma {:induction false} EncodesGrow(enc: Encoder, names: seq<string>, more: seq<string>, sent: seq<Command>,
                                       parts: seq<Bytes>)
    requires Stable(enc) && Encodes(enc, names, sent, parts)
    ensures Encodes(enc, names + more, sent, parts)
  {
    if sent != [] {
      var n := |sent| - 1;
      EncodesGrow(enc, names, more, sent[..n], parts[..n]);
    }
  }

  function NamesAfter(names: seq<string>, c: Command): seq<string> {
    if c.Append? then Register(names, c.record.queue) else names
  }

  lemma EncodesMore(enc: Encoder, names: seq<string>, sent: seq<Command>, parts: seq<Bytes>, c: Command)
    requires Stable(enc) && Encodes(enc, names, sent, parts)
    ensures Encodes(enc, NamesAfter(names, c), sent + [c], parts + [BytesFor(enc, NamesAfter(names, c), c)])
  {
    var more := NamesAfter(names, c)[|names|..];
    assert NamesAfter(names, c) == names + more;
    EncodesGrow(enc, names, more, sent, parts);
    Snoc(sent, c);
    Snoc(parts, BytesFor(enc, NamesAfter(names, c), c));
  }

  /** Whoever asked for command `c` may be told that it is on disk. */
  ghost predicate OnDisk(parts: seq<Bytes>, c: nat, trace: seq<Event>) {
    c < |parts| && Flat(parts[..c + 1]) <= Written(trace)
  }

  /** Group commit: at every answer in the trace, all commands sent up to and including the answered
      one had already been written, in order. */
  ghost predicate AnsweredAfterWrite(parts: seq<Bytes>, trace: seq<Event>) {
    trace == []
    || (var front, e := trace[..|trace| - 1], trace[|trace| - 1];
        AnsweredAfterWrite(parts, front) && (e.Notified? ==> OnDisk(parts, e.command, front)))
  }

  lemma {:induction false} AnsweredAfterWriteAt(parts: seq<Bytes>, trace: seq<Event>, p: nat)
    requires AnsweredAfterWrite(parts, trace) && p < |trace| && trace[p].Notified?
    ensures OnDisk(parts, trace[p].command, trace[..p])
  {
    var front := trace[..|trace| - 1];
    if p < |front| {
      AnsweredAfterWriteAt(parts, front, p);
      assert front[..p] == trace[..p];
    }
  }

  /** Every waiter belongs to one of the first `n` commands. */
  ghost predicate AllBelow(waiters: seq<nat>, n: nat) {
    waiters == [] || (waiters[0] < n && AllBelow(waiters[1..], n))
  }

  /** Every command that asked for an answer is waiting for it or has had it. */
  ghost predicate NobodyForgotten(sent: seq<Command>, waiters: seq<nat>, trace: seq<Event>) {
    sent == []
    || (var c := |sent| - 1;
        && NobodyForgotten(sent[..c], waiters, trace)
        && (Waits(sent[c]) ==> c in waiters || Notified(c) in trace))
  }

  lemma {:induction false} AnswersKept(parts: seq<Bytes>, part: Bytes, trace: seq<Event>)
    requires AnsweredAfterWrite(parts, trace)
    ensures AnsweredAfterWrite(parts + [part], trace)
  {
    if trace != [] {
      AnswersKept(parts, part, trace[..|trace| - 1]);
      var e := trace[|trace| - 1];
      if e.Notified? {
        assert (parts + [part])[..e.command + 1] == parts[..e.command + 1];
      }
    }
  }

  /** Only answers, and writes to one segment. */
  ghost predicate OnlyWrites(trace: seq<Event>, toB: bool) {
    trace == []
    || (var e := trace[|trace| - 1];
        OnlyWrites(trace[..|trace| - 1], toB) && (e.Notified? || (e.Wrote? && e.toB == toB)))
  }

  lemma {:induction false} WritesGoTo(s: Segments, trace: seq<Event>, toB: bool)
    requires OnlyWrites(trace, toB)
    ensures PerformAll(s, trace) == WithSegment(s, toB, Segment(s, toB) + Written(trace))
  {
    if trace != [] {
      WritesGoTo(s, trace[..|trace| - 1], toB);
    }
  }

  /** The writer loop's invariant: what is written and what is buffered are, in order, the encodings
      of all commands received, and the answers given and owed are the right ones. */
  ghost predicate InStep(enc: Encoder, names: seq<string>, sent: seq<Command>, parts: seq<Bytes>, trace: seq<Event>,
                         batch: Bytes, waiters: seq<nat>)
  {
    && Encodes(enc, names, sent, parts)
    && Written(trace) + batch == Flat(parts)
    && AnsweredAfterWrite(parts, trace)
    && AllBelow(waiters, |sent|)
    && NobodyForgotten(sent, waiters, trace)
  }

  lemma InStepAccept(enc: Encoder, names: seq<string>, sent: seq<Command>, parts: seq<Bytes>, trace: seq<Event>,
                     batch: Bytes, waiters: seq<nat>, c: Command, names': seq<string>, part: Bytes)
    requires InStep(enc, names, sent, parts, trace, batch, waiters)
    requires Encodes(enc, names', sent + [c], parts + [part])
    ensures InStep(enc, names', sent + [c], parts + [part], trace, batch + part,
                   if Waits(c) then waiters + [|sent|] else waiters)
  {
    AnswersKept(parts, part, trace);
    FlatSnoc(Written(trace), batch, parts, part);
    WaitersAccept(sent, waiters, trace, c);
  }

  lemma FlatSnoc(written: Bytes, batch: Bytes, parts: seq<Bytes>, part: Bytes)
    requires written + batch == Flat(parts)
    ensures written + (batch + part) == Flat(parts + [part])
  {
    Snoc(parts, part);
    assert written + (batch + part) == (written + batch) + part;
  }

  lemma WaitersAccept(sent: seq<Command>, waiters: seq<nat>, trace: seq<Event>, c: Command)
    requires AllBelow(waiters, |sent|) && NobodyForgotten(sent, waiters, trace)
    ensures var waiters' := if Waits(c) then waiters + [|sent|] else waiters;
            AllBelow(waiters', |sent| + 1) && NobodyForgotten(sent + [c], waiters', trace)
  {
    var waiters' := if Waits(c) then waiters + [|sent|] else waiters;
    BelowMore(waiters, |sent|);
    WaitersCover(sent, waiters, trace, waiters', trace);
    Snoc(sent, c);
  }

  lemma {:induction false} BelowMore(waiters: seq<nat>, n: nat)
    requires AllBelow(waiters, n)
    ensures AllBelow(waiters, n + 1) && AllBelow(waiters + [n], n + 1)
  {
    if waiters == [] {
      assert [n][1..] == [];
    } else {
      BelowMore(waiters[1..], n);
      assert (waiters + [n])[1..] == waiters[1..] + [n];
    }
  }

  lemma {:induction false} WaitersCover(sent: seq<Command>, waiters: seq<nat>, trace: seq<Event>,
                                        waiters': seq<nat>, trace': seq<Event>)
    requires NobodyForgotten(sent, waiters, trace)
    requires forall c :: c in waiters || Notified(c) in trace ==> c in waiters' || Notified(c) in trace'
    ensures NobodyForgotten(sent, waiters', trace')
  {
    if sent != [] {
      WaitersCover(sent[..|sent| - 1], waiters, trace, waiters', trace');
    }
  }

  lemma {:induction false} NobodyForgottenAt(sent: seq<Command>, waiters: seq<nat>, trace: seq<Event>, c: nat)
    requires NobodyForgotten(sent, waiters, trace) && c < |sent| && Waits(sent[c])
    ensures c in waiters || Notified(c) in trace
  {
    if c < |sent| - 1 {
      NobodyForgottenAt(sent[..|sent| - 1], waiters, trace, c);
    }
  }

  lemma InStepWrite(enc: Encoder, names: seq<string>, sent: seq<Command>, parts: seq<Bytes>, trace: seq<Event>,
                    batch: Bytes, waiters: seq<nat>, toB: bool)
    requires InStep(enc, names, sent, parts, trace, batch, waiters)
    ensures InStep(enc, names, sent, parts, trace + [Wrote(toB, batch)], [], waiters)
  {
    Snoc(trace, Wrote(toB, batch));
    WaitersCover(sent, waiters, trace, waiters, trace + [Wrote(toB, batch)]);
  }

  lemma InStepNotify(enc: Encoder, names: seq<string>, sent: seq<Command>, parts: seq<Bytes>, trace: seq<Event>,
                     waiters: seq<nat>)
    requires InStep(enc, names, sent, parts, trace, [], waiters) && waiters != []
    ensures InStep(enc, names, sent, parts, trace + [Notified(waiters[0])], [], waiters[1..])
  {
    var e := Notified(waiters[0]);
    FlatPrefix(parts, waiters[0] + 1);
    Snoc(trace, e);
    assert Written(trace) == Flat(parts);
    assert waiters == [waiters[0]] + waiters[1..];
    WaitersCover(sent, waiters, trace, waiters[1..], trace + [e]);
  }

  lemma {:induction false} PerformSplit(s: Segments, a: seq<Event>, b: seq<Event>)
    ensures PerformAll(s, a + b) == PerformAll(PerformAll(s, a), b)
  {
    if b == [] {
      assert a + b == a;
    } else {
      assert (a + b)[..|a + b| - 1] == a + b[..|b| - 1];
      PerformSplit(s, a, b[..|b| - 1]);
    }
  }

  lemma {:induction false} OnlyWritesSplit(a: seq<Event>, b: seq<Event>, toB: bool)
    requires OnlyWrites(a, toB) && OnlyWrites(b, toB)
    ensures OnlyWrites(a + b, toB)
  {
    if b == [] {
      assert a + b == a;
    } else {
      assert (a + b)[..|a + b| - 1] == a + b[..|b| - 1];
      OnlyWritesSplit(a, b[..|b| - 1], toB);
    }
  }

  // ---------------------------------------------------------------- what has been written, as a log

  function RecordsOf(sent: seq<Command>): seq<WalRecord> {
    if sent == [] then []
    else
      var c := sent[|sent| - 1];
      RecordsOf(sent[..|sent| - 1]) + if c.Append? then [c.record] else []
  }

  lemma {:induction false} RecordsSplit(a: seq<Command>, b: seq<Command>)
    ensures RecordsOf(a + b) == RecordsOf(a) + RecordsOf(b)
  {
    if b == [] {
      assert a + b == a;
    } else {
      assert (a + b)[..|a + b| - 1] == a + b[..|b| - 1];
      RecordsSplit(a, b[..|b| - 1]);
    }
  }

  /** `f` writes records as `enc` does once `names` are known. */
  ghost predicate WritesAs(f: Format<WalRecord>, enc: Encoder, names: seq<string>) {
    forall r :: f.enc(r) == enc(names, r)
  }

  lemma EncodeOne(f: Format<WalRecord>, r: WalRecord)
    ensures EncodeAll(f, [r]) == f.enc(r)
  {
    assert [r][1..] == [];
  }

  /** The bytes of the commands are the log of their records. */
  lemma {:induction false} PartsAreLog(f: Format<WalRecord>, enc: Encoder, names: seq<string>,
                                       sent: seq<Command>, parts: seq<Bytes>)
    requires WritesAs(f, enc, names) && Encodes(enc, names, sent, parts)
    ensures Flat(parts) == EncodeAll(f, RecordsOf(sent))
  {
    if sent != [] {
      var n := |sent| - 1;
      var c := sent[n];
      PartsAreLog(f, enc, names, sent[..n], parts[..n]);
      if c.Append? {
        EncodeAllSplit(f, RecordsOf(sent[..n]), [c.record]);
        EncodeOne(f, c.record);
      } else {
        assert RecordsOf(sent[..n]) + [] == RecordsOf(sent[..n]);
      }
    }
  }

  lemma {:induction false} WrittenSplit(a: seq<Event>, b: seq<Event>)
    ensures Written(a + b) == Written(a) + Written(b)
  {
    if b == [] {
      assert a + b == a;
    } else {
      assert (a + b)[..|a + b| - 1] == a + b[..|b| - 1];
      WrittenSplit(a, b[..|b| - 1]);
    }
  }

  /** Between two idle moments exactly the records of the commands sent in between were written. */
  lemma WrittenSince(f: Format<WalRecord>, enc: Encoder, names: seq<string>, sent: seq<Command>, parts: seq<Bytes>,
                     trace: seq<Event>, names': seq<string>, more: seq<Command>, parts': seq<Bytes>, did: seq<Event>)
    requires Stable(enc) && names <= names' && WritesAs(f, enc, names')
    requires Encodes(enc, names, sent, parts) && Written(trace) == Flat(parts)
    requires Encodes(enc, names', sent + more, parts') && Written(trace + did) == Flat(parts')
    ensures Written(did) == EncodeAll(f, RecordsOf(more))
  {
    assert names' == names + names'[|names|..];
    EncodesGrow(enc, names, names'[|names|..], sent, parts);
    PartsAreLog(f, enc, names', sent, parts);
    PartsAreLog(f, enc, names', sent + more, parts');
    RecordsSplit(sent, more);
    EncodeAllSplit(f, RecordsOf(sent), RecordsOf(more));
    WrittenSplit(trace, did);
    Cancel(Written(trace), Written(did), EncodeAll(f, RecordsOf(more)));
  }

  function Appends(records: seq<WalRecord>): seq<Command> {
    if records == [] then [] else Appends(records[..|records| - 1]) + [Append(records[|records| - 1], false)]
  }

  lemma {:induction false} AppendsRecords(records: seq<WalRecord>)
    ensures RecordsOf(Appends(records)) == records
  {
    if records != [] {
      AppendsRecords(records[..|records| - 1]);
      Snoc(Appends(records[..|records| - 1]), Append(records[|records| - 1], false));
    }
  }

  lemma CompactChannel(survivors: seq<WalRecord>)
    ensures RecordsOf([Flush]) == [] && RecordsOf(Appends(survivors) + [Flush]) == survivors
  {
    assert [Flush][..0] == [];
    AppendsRecords(survivors);
    Snoc(Appends(survivors), Flush);
    EmptyRight(survivors);
  }

  // ---------------------------------------------------------------- crashes

  /** `s` is what a crash during `trace` can leave: the last write may have reached the disk in part. */
  ghost predicate Crashed(s0: Segments, trace: seq<Event>, s: Segments) {
    if trace == [] then s == s0
    else
      var front, e := trace[..|trace| - 1], trace[|trace| - 1];
      || Crashed(s0, front, s)
      || s == PerformAll(s0, trace)
      || (e.Wrote? &&
          exists k :: 0 <= k <= |e.bytes| && s == Perform(PerformAll(s0, front), Wrote(e.toB, e.bytes[..k])))
  }

  lemma {:induction false} CrashWhileWriting(s0: Segments, trace: seq<Event>, toB: bool, s: Segments)
    requires OnlyWrites(trace, toB) && Crashed(s0, trace, s)
    ensures Segment(s, !toB) == Segment(s0, !toB)
    ensures Segment(s0, toB) <= Segment(s, toB) <= Segment(s0, toB) + Written(trace)
  {
    if trace != [] {
      var front := trace[..|trace| - 1];
      WritesGoTo(s0, front, toB);
      WritesGoTo(s0, trace, toB);
      if Crashed(s0, front, s) {
        CrashWhileWriting(s0, front, toB, s);
      }
    }
  }

  lemma {:induction false} CrashSplit(s0: Segments, a: seq<Event>, b: seq<Event>, s: Segments)
    requires Crashed(s0, a + b, s)
    ensures Crashed(s0, a, s) || Crashed(PerformAll(s0, a), b, s)
  {
    if b == [] {
      assert a + b == a;
    } else {
      assert (a + b)[..|a + b| - 1] == a + b[..|b| - 1];
      PerformSplit(s0, a, b);
      PerformSplit(s0, a, b[..|b| - 1]);
      if Crashed(s0, a + b[..|b| - 1], s) {
        CrashSplit(s0, a, b[..|b| - 1], s);
      }
    }
  }

  lemma EmptyLeft<T>(s: seq<T>)
    ensures [] + s == s
  {
  }

  /** A crash at any event of a compaction leaves one of its crash points. */
  lemma CompactionCrashes(s0: Segments, wasB: bool, flushed: seq<Event>, copied: seq<Event>, s: Segments)
    requires Segment(s0, !wasB) == []
    requires OnlyWrites(flushed, wasB) && Written(flushed) == []
    requires OnlyWrites(copied, !wasB)
    requires Crashed(s0, flushed + copied + [Truncated(wasB)], s)
    ensures MidCopy(wasB, Segment(s0, wasB), Written(copied), s)
  {
    var all := flushed + copied;
    WritesGoTo(s0, flushed, wasB);
    EmptyRight(Segment(s0, wasB));
    PerformSplit(s0, flushed, copied);
    WritesGoTo(s0, copied, !wasB);
    EmptyLeft(Written(copied));
    Snoc(all, Truncated(wasB));
    if Crashed(s0, all, s) {
      CrashSplit(s0, flushed, copied, s);
      if Crashed(s0, flushed, s) {
        CrashWhileWriting(s0, flushed, wasB, s);
      } else {
        CrashWhileWriting(s0, copied, !wasB, s);
      }
    }
  }

  // ---------------------------------------------------------------- the writer as a value

  datatype Writer = Writer(
    names: seq<string>,
    files: Segments,
    activeIsB: bool,
    activeBytes: nat,
    batch: Bytes,
    waiters: seq<nat>,
    /** Number of commands received; a waiter is known by the position of its command. */
    received: nat)

  /** The state after opening the two segments: B is active only when A is empty and B is not. */
  function Opened(names: seq<string>, files: Segments): Writer {
    var isB := files.b != [] && files.a == [];
    Writer(names, files, isB, |Segment(files, isB)|, [], [], 0)
  }

  /** One arm of the writer's match: encode into the buffer and note who waits. */
  function Accept(enc: Encoder, w: Writer, c: Command): Writer {
    var names := NamesAfter(w.names, c);
    w.(names := names,
       batch := w.batch + BytesFor(enc, names, c),
       waiters := if Waits(c) then w.waiters + [w.received] else w.waiters,
       received := w.received + 1)
  }

  datatype Turned = Turned(writer: Writer, taken: nat)

  /** Coalesces commands from position `at` on until the channel is empty or the buffer is large. */
  function Coalesce(enc: Encoder, w: Writer, channel: seq<Command>, at: nat): (r: Turned)
    requires at <= |channel|
    ensures at <= r.taken <= |channel| && (at < |channel| ==> at < r.taken)
    decreases |channel| - at
  {
    if at == |channel| then Turned(w, at)
    else
      var w' := Accept(enc, w, channel[at]);
      if BATCH_LIMIT < |w'.batch| then Turned(w', at + 1) else Coalesce(enc, w', channel, at + 1)
  }

  function Answers(waiters: seq<nat>): seq<Event> {
    if waiters == [] then [] else [Notified(waiters[0])] + Answers(waiters[1..])
  }

  /** A commit writes the buffer, if any, and then answers everyone who waits. */
  function CommitEvents(w: Writer): seq<Event> {
    (if w.batch == [] then [] else [Wrote(w.activeIsB, w.batch)]) + Answers(w.waiters)
  }

  function Commit(w: Writer): Writer {
    w.(files := WithSegment(w.files, w.activeIsB, Segment(w.files, w.activeIsB) + w.batch),
       activeBytes := w.activeBytes + |w.batch|,
       batch := [],
       waiters := [])
  }

  datatype Served = Served(writer: Writer, events: seq<Event>)

  /** Turns of the writer thread, each taking at least the first command, until the channel is empty. */
  function Serve(enc: Encoder, w: Writer, channel: seq<Command>): Served
    decreases |channel|
  {
    if channel == [] then Served(w, [])
    else
      var t := Coalesce(enc, Accept(enc, w, channel[0]), channel, 1);
      var rest := Serve(enc, Commit(t.writer), channel[t.taken..]);
      Served(rest.writer, CommitEvents(t.writer) + rest.events)
  }

  /** Copies the survivors to the other segment and truncates the one that was active. */
  function Compact(enc: Encoder, w: Writer, survivors: seq<WalRecord>): Served {
    var flushed := Serve(enc, w, [Flush]);
    var copied := Serve(enc, flushed.writer.(activeIsB := !w.activeIsB, activeBytes := 0),
      Appends(survivors) + [Flush]);
    Served(copied.writer.(files := WithSegment(copied.writer.files, w.activeIsB, [])),
           flushed.events + copied.events + [Truncated(w.activeIsB)])
  }

  // ---------------------------------------------------------------- its invariant over whole runs

  /** Everything received so far, its encodings, and everything done. */
  datatype History = History(sent: seq<Command>, parts: seq<Bytes>, trace: seq<Event>)

  ghost predicate Coherent(enc: Encoder, w: Writer, h: History) {
    w.received == |h.sent| && InStep(enc, w.names, h.sent, h.parts, h.trace, w.batch, w.waiters)
  }

  /** Between turns nothing is buffered and nobody waits. */
  ghost predicate Idle(enc: Encoder, w: Writer, h: History) {
    Coherent(enc, w, h) && w.batch == [] && w.waiters == []
  }

  lemma AcceptCoherent(enc: Encoder, w: Writer, h: History, c: Command) returns (h': History)
    requires Stable(enc) && Coherent(enc, w, h)
    ensures Coherent(enc, Accept(enc, w, c), h') && h'.sent == h.sent + [c] && h'.trace == h.trace
  {
    var names' := NamesAfter(w.names, c);
    var part := BytesFor(enc, names', c);
    EncodesMore(enc, w.names, h.sent, h.parts, c);
    InStepAccept(enc, w.names, h.sent, h.parts, h.trace, w.batch, w.waiters, c, names', part);
    h' := History(h.sent + [c], h.parts + [part], h.trace);
  }

  lemma {:induction false} CoalesceCoherent(enc: Encoder, w: Writer, h: History, channel: seq<Command>,
                                            at: nat) returns (h': History)
    requires Stable(enc) && at <= |channel| && Coherent(enc, w, h)
    ensures var r := Coalesce(enc, w, channel, at);
            Coherent(enc, r.writer, h') && h'.sent == h.sent + channel[at..r.taken] && h'.trace == h.trace
    decreases |channel| - at
  {
    if at == |channel| {
      h' := h;
      EmptyRight(h.sent);
    } else {
      var w' := Accept(enc, w, channel[at]);
      var h1 := AcceptCoherent(enc, w, h, channel[at]);
      SnocSlice(h.sent, channel, at, Coalesce(enc, w, channel, at).taken);
      if BATCH_LIMIT < |w'.batch| {
        h' := h1;
        EmptyRight(h1.sent);
      } else {
        h' := CoalesceCoherent(enc, w', h1, channel, at + 1);
      }
    }
  }

  lemma {:induction false} CoalesceFrame(enc: Encoder, w: Writer, channel: seq<Command>, at: nat)
    requires at <= |channel|
    ensures var r := Coalesce(enc, w, channel, at);
            && w.names <= r.writer.names && r.writer.files == w.files && r.writer.activeIsB == w.activeIsB
            && r.writer.activeBytes == w.activeBytes
    decreases |channel| - at
  {
    if at < |channel| && |Accept(enc, w, channel[at]).batch| <= BATCH_LIMIT {
      CoalesceFrame(enc, Accept(enc, w, channel[at]), channel, at + 1);
    }
  }

  lemma {:induction false} AnswersCoherent(enc: Encoder, w: Writer, h: History)
    requires Coherent(enc, w, h) && w.batch == []
    ensures Idle(enc, w.(waiters := []), h.(trace := h.trace + Answers(w.waiters)))
    decreases |w.waiters|
  {
    if w.waiters == [] {
      assert h.trace + [] == h.trace;
    } else {
      var e := Notified(w.waiters[0]);
      InStepNotify(enc, w.names, h.sent, h.parts, h.trace, w.waiters);
      AnswersCoherent(enc, w.(waiters := w.waiters[1..]), h.(trace := h.trace + [e]));
      assert h.trace + [e] + Answers(w.waiters[1..]) == h.trace + Answers(w.waiters);
    }
  }

  lemma CommitCoherent(enc: Encoder, w: Writer, h: History)
    requires Coherent(enc, w, h)
    ensures Idle(enc, Commit(w), h.(trace := h.trace + CommitEvents(w)))
  {
    var wrote := if w.batch == [] then [] else [Wrote(w.activeIsB, w.batch)];
    assert h.trace + CommitEvents(w) == h.trace + wrote + Answers(w.waiters);
    if w.batch != [] {
      InStepWrite(enc, w.names, h.sent, h.parts, h.trace, w.batch, w.waiters, w.activeIsB);
    } else {
      assert h.trace + wrote == h.trace;
    }
    AnswersCoherent(enc, Commit(w).(waiters := w.waiters), h.(trace := h.trace + wrote));
  }

  lemma {:induction false} AnswersOnly(waiters: seq<nat>, toB: bool)
    ensures OnlyWrites(Answers(waiters), toB) && Written(Answers(waiters)) == []
    ensures forall s :: PerformAll(s, Answers(waiters)) == s
  {
    if waiters != [] {
      var e := [Notified(waiters[0])];
      AnswersOnly(waiters[1..], toB);
      assert e[..0] == [];
      OnlyWritesSplit(e, Answers(waiters[1..]), toB);
      WrittenSplit(e, Answers(waiters[1..]));
      forall s
        ensures PerformAll(s, Answers(waiters)) == s
      {
        PerformSplit(s, e, Answers(waiters[1..]));
      }
    }
  }

  lemma CommitPerforms(w: Writer)
    ensures OnlyWrites(CommitEvents(w), w.activeIsB)
    ensures Commit(w).files == PerformAll(w.files, CommitEvents(w))
  {
    var wrote := if w.batch == [] then [] else [Wrote(w.activeIsB, w.batch)];
    AnswersOnly(w.waiters, w.activeIsB);
    assert wrote != [] ==> wrote[..0] == [];
    OnlyWritesSplit(wrote, Answers(w.waiters), w.activeIsB);
    PerformSplit(w.files, wrote, Answers(w.waiters));
    assert w.batch == [] ==> Segment(w.files, w.activeIsB) + w.batch == Segment(w.files, w.activeIsB);
  }

  /** Group commit over whole runs: serving any commands keeps the invariant, so at every answer the
      bytes written are, in order, the encodings of at least all commands up to the answered one. */
  lemma {:induction false} ServeCoherent(enc: Encoder, w: Writer, h: History,
                                         channel: seq<Command>) returns (h': History)
    requires Stable(enc) && Idle(enc, w, h)
    ensures Idle(enc, Serve(enc, w, channel).writer, h')
    ensures h'.sent == h.sent + channel && h'.trace == h.trace + Serve(enc, w, channel).events
    decreases |channel|
  {
    if channel == [] {
      h' := h;
      EmptyRight(h.sent);
      EmptyRight(h.trace);
    } else {
      var h1 := AcceptCoherent(enc, w, h, channel[0]);
      var h2 := CoalesceCoherent(enc, Accept(enc, w, channel[0]), h1, channel, 1);
      var t := Coalesce(enc, Accept(enc, w, channel[0]), channel, 1);
      CommitCoherent(enc, t.writer, h2);
      h' := ServeCoherent(enc, Commit(t.writer), h2.(trace := h2.trace + CommitEvents(t.writer)), channel[t.taken..]);
      TakenAndRest(h.sent, channel, t.taken);
      Assoc(h.trace, CommitEvents(t.writer), Serve(enc, Commit(t.writer), channel[t.taken..]).events);
    }
  }

  lemma TakenAndRest<T>(before: seq<T>, channel: seq<T>, taken: nat)
    requires 0 < taken <= |channel|
    ensures (before + [channel[0]]) + channel[1..taken] + channel[taken..] == before + channel
  {
  }

  lemma PerformNone(s: Segments, isB: bool)
    ensures PerformAll(s, []) == s && OnlyWrites([], isB)
  {
  }

  lemma AcceptFrame(enc: Encoder, w: Writer, c: Command)
    ensures var w' := Accept(enc, w, c);
            w.names <= w'.names && w'.files == w.files && w'.activeIsB == w.activeIsB && w'.activeBytes == w.activeBytes
  {
  }

  /** Serving commands appends to the active segment and touches nothing else. */
  lemma {:induction false} ServePerforms(enc: Encoder, w: Writer, channel: seq<Command>)
    ensures var r := Serve(enc, w, channel);
            && w.names <= r.writer.names && r.writer.activeIsB == w.activeIsB
            && OnlyWrites(r.events, w.activeIsB)
            && r.writer.files == PerformAll(w.files, r.events)
    decreases |channel|
  {
    hide Coalesce, CommitEvents, PerformAll, OnlyWrites, Accept;
    if channel == [] {
      PerformNone(w.files, w.activeIsB);
    } else {
      var t := Coalesce(enc, Accept(enc, w, channel[0]), channel, 1);
      AcceptFrame(enc, w, channel[0]);
      CoalesceFrame(enc, Accept(enc, w, channel[0]), channel, 1);
      CommitPerforms(t.writer);
      var rest := Serve(enc, Commit(t.writer), channel[t.taken..]);
      ServePerforms(enc, Commit(t.writer), channel[t.taken..]);
      OnlyWritesSplit(CommitEvents(t.writer), rest.events, w.activeIsB);
      PerformSplit(w.files, CommitEvents(t.writer), rest.events);
    }
  }

  /** The command answered at event `p` and all before it were written by then. */
  ghost predicate Durable(f: Format<WalRecord>, channel: seq<Command>, events: seq<Event>, p: nat)
    requires p < |events| && events[p].Notified?
  {
    var c := events[p].command;
    c < |channel| && EncodeAll(f, RecordsOf(channel[..c + 1])) <= Written(events[..p])
  }

  lemma AnswerIsDurable(f: Format<WalRecord>, enc: Encoder, names: seq<string>, channel: seq<Command>,
                        parts: seq<Bytes>, events: seq<Event>, p: nat)
    requires WritesAs(f, enc, names) && Encodes(enc, names, channel, parts) && AnsweredAfterWrite(parts, events)
    requires p < |events| && events[p].Notified?
    ensures Durable(f, channel, events, p)
  {
    var n := events[p].command + 1;
    AnsweredAfterWriteAt(parts, events, p);
    EncodesPrefix(enc, names, channel, parts, n);
    PartsAreLog(f, enc, names, channel[..n], parts[..n]);
  }

  /** The writer sleeps until commands arrive: it serves one burst after another. */
  function ServeAll(enc: Encoder, w: Writer, bursts: seq<seq<Command>>): Served {
    if bursts == [] then Served(w, [])
    else
      var before := ServeAll(enc, w, bursts[..|bursts| - 1]);
      var r := Serve(enc, before.writer, bursts[|bursts| - 1]);
      Served(r.writer, before.events + r.events)
  }

  function Sent(bursts: seq<seq<Command>>): seq<Command> {
    if bursts == [] then [] else Sent(bursts[..|bursts| - 1]) + bursts[|bursts| - 1]
  }

  lemma {:induction false} ServeAllCoherent(enc: Encoder, w: Writer, h: History,
                                            bursts: seq<seq<Command>>) returns (h': History)
    requires Stable(enc) && Idle(enc, w, h)
    ensures Idle(enc, ServeAll(enc, w, bursts).writer, h')
    ensures h'.sent == h.sent + Sent(bursts) && h'.trace == h.trace + ServeAll(enc, w, bursts).events
  {
    hide Idle, Serve;
    h' := h;
    if bursts == [] {
      EmptyRight(h.sent);
      EmptyRight(h.trace);
    } else {
      var front, last := bursts[..|bursts| - 1], bursts[|bursts| - 1];
      var before := ServeAll(enc, w, front);
      h' := ServeAllCoherent(enc, w, h, front);
      h' := ServeCoherent(enc, before.writer, h', last);
      Assoc(h.sent, Sent(front), last);
      Assoc(h.trace, before.events, Serve(enc, before.writer, last).events);
    }
  }

  /** Group commit, however the commands arrive: when the writer answers a command, everything sent up
      to and including that command has been written, in order, and whenever the writer goes back to
      sleep nobody who asked is left without an answer. */
  lemma GroupCommit(f: Format<WalRecord>, enc: Encoder, names: seq<string>, files: Segments, bursts: seq<seq<Command>>)
    requires Stable(enc) && WritesAs(f, enc, ServeAll(enc, Opened(names, files), bursts).writer.names)
    ensures var sent, events := Sent(bursts), ServeAll(enc, Opened(names, files), bursts).events;
            && (forall p :: 0 <= p < |events| && events[p].Notified? ==> Durable(f, sent, events, p))
            && (forall c :: 0 <= c < |sent| && Waits(sent[c]) ==> Notified(c) in events)
            && Written(events) == EncodeAll(f, RecordsOf(sent))
  {
    var w, h := Opened(names, files), History([], [], []);
    var h' := ServeAllCoherent(enc, w, h, bursts);
    var sent, r := Sent(bursts), ServeAll(enc, w, bursts);
    EmptyLeft(sent);
    EmptyLeft(r.events);
    forall p | 0 <= p < |r.events| && r.events[p].Notified?
      ensures Durable(f, sent, r.events, p)
    {
      AnswerIsDurable(f, enc, r.writer.names, sent, h'.parts, r.events, p);
    }
    forall c | 0 <= c < |sent| && Waits(sent[c])
      ensures Notified(c) in r.events
    {
      NobodyForgottenAt(sent, [], r.events, c);
    }
    PartsAreLog(f, enc, r.writer.names, sent, h'.parts);
    EmptyRight(Written(r.events));
  }

  lemma {:induction false} EncodesPrefix(enc: Encoder, names: seq<string>, sent: seq<Command>, parts: seq<Bytes>,
                                         n: nat)
    requires Encodes(enc, names, sent, parts) && n <= |sent|
    ensures Encodes(enc, names, sent[..n], parts[..n])
  {
    if n < |sent| {
      var m := |sent| - 1;
      EncodesPrefix(enc, names, sent[..m], parts[..m], n);
      assert sent[..m][..n] == sent[..n] && parts[..m][..n] == parts[..n];
    } else {
      assert sent[..n] == sent && parts[..n] == parts;
    }
  }

  /** What serving `channel` from an idle state writes: the log of its records. */
  lemma ServeWrites(f: Format<WalRecord>, enc: Encoder, w: Writer, h: History, channel: seq<Command>,
                    names': seq<string>)
    requires Stable(enc) && Idle(enc, w, h)
    requires Serve(enc, w, channel).writer.names <= names' && WritesAs(f, enc, names')
    ensures Written(Serve(enc, w, channel).events) == EncodeAll(f, RecordsOf(channel))
  {
    var names1 := Serve(enc, w, channel).writer.names;
    var h' := ServeCoherent(enc, w, h, channel);
    ServePerforms(enc, w, channel);
    assert names' == names1 + names'[|names1|..];
    EncodesGrow(enc, names1, names'[|names1|..], h'.sent, h'.parts);
    WrittenSince(f, enc, w.names, h.sent, h.parts, h.trace, names', channel, h'.parts, Serve(enc, w, channel).events);
  }

  /** The two phases of a compaction: a flush that writes nothing, then the copy of the survivors. */
  lemma CompactPhases(f: Format<WalRecord>, enc: Encoder, w: Writer, h: History, survivors: seq<WalRecord>)
      returns (flushed: seq<Event>, copied: seq<Event>, h': History)
    requires Stable(enc) && Idle(enc, w, h) && WritesAs(f, enc, Compact(enc, w, survivors).writer.names)
    ensures Compact(enc, w, survivors).events == flushed + copied + [Truncated(w.activeIsB)]
    ensures OnlyWrites(flushed, w.activeIsB) && Written(flushed) == []
    ensures OnlyWrites(copied, !w.activeIsB) && Written(copied) == EncodeAll(f, survivors)
    ensures Compact(enc, w, survivors).writer.files
            == WithSegment(PerformAll(PerformAll(w.files, flushed), copied), w.activeIsB, [])
    ensures Compact(enc, w, survivors).writer.activeIsB == !w.activeIsB
    ensures Idle(enc, Compact(enc, w, survivors).writer, h')
  {
    var a := Serve(enc, w, [Flush]);
    var mid := a.writer.(activeIsB := !w.activeIsB, activeBytes := 0);
    var channel := Appends(survivors) + [Flush];
    var b := Serve(enc, mid, channel);
    flushed, copied := a.events, b.events;
    var h1 := ServeCoherent(enc, w, h, [Flush]);
    ServePerforms(enc, w, [Flush]);
    ServePerforms(enc, mid, channel);
    CompactChannel(survivors);
    ServeWrites(f, enc, w, h, [Flush], b.writer.names);
    assert Idle(enc, mid, h1);
    ServeWrites(f, enc, mid, h1, channel, b.writer.names);
    var h2 := ServeCoherent(enc, mid, h1, channel);
    h' := TruncateCoherent(enc, b.writer, h2, w.activeIsB);
  }

  /** Compaction leaves the survivors in the other segment, an empty old one, and one of its crash
      points wherever it is interrupted. */
  lemma CompactEffect(ctx: Context, w: Writer, h: History, survivors: seq<WalRecord>)
    requires Idle(Encode, w, h) && Segment(w.files, !w.activeIsB) == []
    requires ctx.names == Compact(Encode, w, survivors).writer.names
    ensures var r := Compact(Encode, w, survivors);
            && r.writer.activeIsB == !w.activeIsB
            && Segment(r.writer.files, w.activeIsB) == []
            && Segment(r.writer.files, !w.activeIsB) == EncodeAll(WalFormat(ctx), survivors)
            && (forall s :: Crashed(w.files, r.events, s) ==>
                  CrashPoint(ctx, w.activeIsB, Segment(w.files, w.activeIsB), survivors, s))
  {
    EncodeStable();
    CompactEffectOf(WalFormat(ctx), Encode, w, h, survivors);
  }

  lemma CompactEffectOf(f: Format<WalRecord>, enc: Encoder, w: Writer, h: History, survivors: seq<WalRecord>)
    requires Stable(enc) && Idle(enc, w, h) && WritesAs(f, enc, Compact(enc, w, survivors).writer.names)
    requires Segment(w.files, !w.activeIsB) == []
    ensures var r := Compact(enc, w, survivors);
            && r.writer.activeIsB == !w.activeIsB
            && Segment(r.writer.files, w.activeIsB) == []
            && Segment(r.writer.files, !w.activeIsB) == EncodeAll(f, survivors)
            && (forall s :: Crashed(w.files, r.events, s) ==>
                  MidCopy(w.activeIsB, Segment(w.files, w.activeIsB), EncodeAll(f, survivors), s))
  {
    var flushed, copied, h' := CompactPhases(f, enc, w, h, survivors);
    WritesGoTo(w.files, flushed, w.activeIsB);
    WritesGoTo(PerformAll(w.files, flushed), copied, !w.activeIsB);
    forall s | Crashed(w.files, flushed + copied + [Truncated(w.activeIsB)], s)
      ensures MidCopy(w.activeIsB, Segment(w.files, w.activeIsB), EncodeAll(f, survivors), s)
    {
      CompactionCrashes(w.files, w.activeIsB, flushed, copied, s);
    }
  }

  lemma {:induction false} CoalesceNames(enc: Encoder, w: Writer, channel: seq<Command>, at: nat)
    requires at <= |channel| && forall k :: 0 <= k < |channel| ==> Knows(w.names, channel[k])
    ensures Coalesce(enc, w, channel, at).writer.names == w.names
    decreases |channel| - at
  {
    if at < |channel| && |Accept(enc, w, channel[at]).batch| <= BATCH_LIMIT {
      CoalesceNames(enc, Accept(enc, w, channel[at]), channel, at + 1);
    }
  }

  lemma {:induction false} ServeNames(enc: Encoder, w: Writer, channel: seq<Command>)
    requires forall k :: 0 <= k < |channel| ==> Knows(w.names, channel[k])
    ensures Serve(enc, w, channel).writer.names == w.names
    decreases |channel|
  {
    if channel != [] {
      var t := Coalesce(enc, Accept(enc, w, channel[0]), channel, 1);
      CoalesceNames(enc, Accept(enc, w, channel[0]), channel, 1);
      assert forall k :: 0 <= k < |channel| - t.taken ==> channel[t.taken..][k] == channel[t.taken + k];
      ServeNames(enc, Commit(t.writer), channel[t.taken..]);
    }
  }

  lemma {:induction false} AppendsKnown(names: seq<string>, records: seq<WalRecord>)
    requires forall k :: 0 <= k < |records| ==> records[k].queue in names
    ensures forall k :: 0 <= k < |Appends(records)| ==> Knows(names, Appends(records)[k])
  {
    if records != [] {
      AppendsKnown(names, records[..|records| - 1]);
    }
  }

  /** A compaction of records whose queues are registered registers none. */
  lemma CompactNames(w: Writer, survivors: seq<WalRecord>)
    requires forall k :: 0 <= k < |survivors| ==> survivors[k].queue in w.names
    ensures Compact(Encode, w, survivors).writer.names == w.names
  {
    hide Serve, Encode;
    AppendsKnown(w.names, survivors);
    ServeNames(Encode, w, [Flush]);
    ServeNames(Encode, Serve(Encode, w, [Flush]).writer.(activeIsB := !w.activeIsB, activeBytes := 0),
      Appends(survivors) + [Flush]);
  }

  lemma OneAnswer(c: nat)
    ensures Answers([c]) == [Notified(c)]
  {
    assert [c][1..] == [] && Answers([]) == [];
  }

  lemma ServeOne(enc: Encoder, w: Writer, c: Command)
    requires w.batch == [] && w.waiters == [] && c.Append? && c.notify && enc(NamesAfter(w.names, c), c.record) != []
    ensures var r, bytes := Serve(enc, w, [c]), enc(NamesAfter(w.names, c), c.record);
            && r.events == [Wrote(w.activeIsB, bytes), Notified(w.received)]
            && r.writer.files == WithSegment(w.files, w.activeIsB, Segment(w.files, w.activeIsB) + bytes)
  {
    hide NamesAfter;
    var t, bytes := Coalesce(enc, Accept(enc, w, [c][0]), [c], 1), enc(NamesAfter(w.names, c), c.record);
    assert [] + bytes == bytes;
    assert [] + [w.received] == [w.received] && [w.received][1..] == [];
    assert t == Turned(Accept(enc, w, c), 1);
    assert t.writer.batch == bytes && t.writer.waiters == [w.received];
    OneAnswer(w.received);
    assert [c][1..] == [];
    EmptyRight(CommitEvents(t.writer));
  }

  /** An answered Ack goes to segment A and is read back there. */
  lemma AckServed(ctx: Context, s: Segments, log: seq<WalRecord>, survivors: seq<WalRecord>, a: WalRecord)
    requires AllFit(ctx.names, log) && AllFit(ctx.names, survivors) && Fits(ctx.names, a) && log != []
    requires s == Segments(EncodeAll(WalFormat(ctx), log), EncodeAll(WalFormat(ctx), survivors))
    ensures var f, r := WalFormat(ctx), Serve(Encode, Opened(ctx.names, s), [Append(a, true)]);
            && Notified(0) in r.events && Progress(f)
            && DecodeAll(f, r.writer.files.a) == log + [a] && DecodeAll(f, r.writer.files.b) == survivors
  {
    hide Encode, Decode, Serve, DecodeAll;
    var f := WalFormat(ctx);
    WalCarries(ctx, log);
    WalCarries(ctx, [a]);
    SomeEncoding(f, log);
    EncodeOne(f, a);
    SomeEncoding(f, [a]);
    assert NamesAfter(ctx.names, Append(a, true)) == ctx.names;
    ServeOne(Encode, Opened(ctx.names, s), Append(a, true));
    EncodeAllSplit(f, log, [a]);
    WalTornTail(ctx, log + [a], 0);
    WalTornTail(ctx, survivors, 0);
  }

  // ---------------------------------------------------------------- counting the bytes of the active segment

  /** `active_bytes` is the length of the active segment. */
  ghost predicate Counted(w: Writer) {
    w.activeBytes == |Segment(w.files, w.activeIsB)|
  }

  /** A turn adds as many to the counter as it adds to the active segment. */
  lemma {:induction false} ServeCounts(enc: Encoder, w: Writer, channel: seq<Command>)
    ensures var r := Serve(enc, w, channel).writer;
            && r.activeIsB == w.activeIsB && Segment(r.files, !w.activeIsB) == Segment(w.files, !w.activeIsB)
            && r.activeBytes - w.activeBytes == |Segment(r.files, w.activeIsB)| - |Segment(w.files, w.activeIsB)|
    decreases |channel|
  {
    hide Coalesce, Accept;
    if channel != [] {
      var t := Coalesce(enc, Accept(enc, w, channel[0]), channel, 1);
      AcceptFrame(enc, w, channel[0]);
      CoalesceFrame(enc, Accept(enc, w, channel[0]), channel, 1);
      ServeCounts(enc, Commit(t.writer), channel[t.taken..]);
    }
  }

  /** The counter is exact after a compaction if and only if the other segment was empty before it: the
      copies go after whatever is there, while the counter starts from zero. */
  lemma CompactCountsIff(enc: Encoder, w: Writer, survivors: seq<WalRecord>)
    ensures var r := Compact(enc, w, survivors).writer;
            && r.activeIsB == !w.activeIsB && Segment(r.files, w.activeIsB) == []
            && (Counted(r) <==> Segment(w.files, !w.activeIsB) == [])
  {
    hide Serve;
    var flushed := Serve(enc, w, [Flush]).writer;
    ServeCounts(enc, w, [Flush]);
    ServeCounts(enc, flushed.(activeIsB := !w.activeIsB, activeBytes := 0), Appends(survivors) + [Flush]);
  }

  /** What happens to a disk log. */
  datatype Act = Burst(commands: seq<Command>) | Compaction(survivors: seq<WalRecord>)

  function Acted(enc: Encoder, w: Writer, acts: seq<Act>): Writer {
    if acts == [] then w
    else
      var before := Acted(enc, w, acts[..|acts| - 1]);
      match acts[|acts| - 1]
      case Burst(commands) => Serve(enc, before, commands).writer
      case Compaction(survivors) => Compact(enc, before, survivors).writer
  }

  /** Over every sequence of bursts and compactions of a log opened with at most one segment filled,
      `active_bytes` is the length of the active segment, and the other one is empty. */
  lemma {:induction false} AlwaysCounted(enc: Encoder, names: seq<string>, files: Segments, acts: seq<Act>)
    requires files.a == [] || files.b == []
    ensures var w := Acted(enc, Opened(names, files), acts);
            Counted(w) && Segment(w.files, !w.activeIsB) == []
  {
    hide Serve, Compact;
    if acts != [] {
      var before := Acted(enc, Opened(names, files), acts[..|acts| - 1]);
      AlwaysCounted(enc, names, files, acts[..|acts| - 1]);
      match acts[|acts| - 1]
      case Burst(commands) => ServeCounts(enc, before, commands);
      case Compaction(survivors) => CompactCountsIff(enc, before, survivors);
    }
  }

  // ---------------------------------------------------------------- how much one turn takes

  function AcceptAll(enc: Encoder, w: Writer, commands: seq<Command>): Writer {
    if commands == [] then w else Accept(enc, AcceptAll(enc, w, commands[..|commands| - 1]), commands[|commands| - 1])
  }

  lemma {:induction false} CoalesceTakes(enc: Encoder, w: Writer, start: Writer, channel: seq<Command>, at: nat)
    requires at <= |channel| && w == AcceptAll(enc, start, channel[..at])
    ensures var t := Coalesce(enc, w, channel, at);
            && t.writer == AcceptAll(enc, start, channel[..t.taken])
            && (t.taken < |channel| ==> 131072 < |t.writer.batch|)
            && forall k :: at < k < t.taken ==> |AcceptAll(enc, start, channel[..k]).batch| <= 131072
    decreases |channel| - at
  {
    hide Accept;
    if at < |channel| {
      var w' := Accept(enc, w, channel[at]);
      PrefixStep(channel, at);
      if |w'.batch| <= BATCH_LIMIT {
        CoalesceTakes(enc, w', start, channel, at + 1);
      }
    }
  }

  /** A turn of the writer takes everything in the channel, or stops with the first command after its
      first one that takes the buffer above 128 KiB. */
  lemma TurnTakes(enc: Encoder, w: Writer, channel: seq<Command>)
    requires channel != []
    ensures var t := Coalesce(enc, Accept(enc, w, channel[0]), channel, 1);
            && t.writer == AcceptAll(enc, w, channel[..t.taken])
            && (t.taken < |channel| ==> 131072 < |t.writer.batch|)
            && forall k :: 1 < k < t.taken ==> |AcceptAll(enc, w, channel[..k]).batch| <= 131072
  {
    hide Accept, Coalesce;
    assert channel[..1] == [channel[0]] && [channel[0]][..0] == [];
    assert AcceptAll(enc, w, []) == w;
    CoalesceTakes(enc, Accept(enc, w, channel[0]), w, channel, 1);
  }

  /** The state just before the truncation is one a crash can leave. */
  lemma CrashBeforeLast(s0: Segments, trace: seq<Event>, e: Event)
    ensures Crashed(s0, trace + [e], PerformAll(s0, trace))
  {
    Snoc(trace, e);
  }

  /** A compaction out of segment A can crash so that an acknowledgement is forgotten: the copy is
      complete, A is not yet truncated, so A is active again after the restart. The acknowledgement of
      a copied message then goes to A and is answered, but the next restart brings the message back. */
  lemma AckForgotten(ctx: Context, shardOf: Sharding, log: seq<WalRecord>, survivors: seq<WalRecord>, id: Id,
                     queue: string) returns (s: Segments)
    requires log != [] && AllFit(ctx.names, log) && AllFit(ctx.names, survivors) && Fits(ctx.names, Ack(id, queue))
    requires Key(shardOf(queue), id) in Live(shardOf, survivors)
    ensures var w := Opened(ctx.names, Segments(EncodeAll(WalFormat(ctx), log), []));
            Crashed(w.files, Compact(Encode, w, survivors).events, s)
    ensures var r := Serve(Encode, Opened(ctx.names, s), [Append(Ack(id, queue), true)]);
            && Notified(0) in r.events
            && Progress(WalFormat(ctx)) && Key(shardOf(queue), id) in Recovered(ctx, shardOf, r.writer.files)
  {
    hide Encode, Decode, Serve, Compact, Live, Coherent;
    var f, a := WalFormat(ctx), Ack(id, queue);
    var files := Segments(EncodeAll(f, log), []);
    var w := Opened(ctx.names, files);
    s := Segments(files.a, EncodeAll(f, survivors));
    EncodeStable();
    CompactNames(w, survivors);
    var flushed, copied, h' := CompactPhases(f, Encode, w, History([], [], []), survivors);
    BeforeTruncation(files, flushed, copied);
    PerformSplit(files, flushed, copied);
    CrashBeforeLast(files, flushed + copied, Truncated(false));
    AckServed(ctx, s, log, survivors, a);
    AckHoldsIff(shardOf, log, survivors, false, id, queue);
  }

  lemma BeforeTruncation(files: Segments, flushed: seq<Event>, copied: seq<Event>)
    requires files.b == [] && OnlyWrites(flushed, false) && Written(flushed) == [] && OnlyWrites(copied, true)
    ensures PerformAll(PerformAll(files, flushed), copied) == Segments(files.a, Written(copied))
  {
    WritesGoTo(files, flushed, false);
    EmptyRight(files.a);
    WritesGoTo(files, copied, true);
    EmptyLeft(Written(copied));
  }

  lemma TruncateCoherent(enc: Encoder, w: Writer, h: History, isB: bool) returns (h': History)
    requires Idle(enc, w, h)
    ensures Idle(enc, w.(files := WithSegment(w.files, isB, [])), h')
    ensures h' == h.(trace := h.trace + [Truncated(isB)])
  {
    var e := Truncated(isB);
    h' := h.(trace := h.trace + [e]);
    Snoc(h.trace, e);
    WaitersCover(h.sent, w.waiters, h.trace, w.waiters, h.trace + [e]);
  }
}

/** The disk log as the source runs it, updating its state in place. */
module DiskLogs {
  import opened Basics
  import opened WalCodec
  import opened Recovery
  import opened WalWriter

  class DiskLog {
    const enc: Encoder
    var names: seq<string>
    var files: Segments
    var activeIsB: bool
    var activeBytes: nat
    var batch: Bytes
    var waiters: seq<nat>
    var received: nat
    /** Writes, truncations and answers in the order they happened. */
    ghost var trace: seq<Event>

    function State(): Writer
      reads this
    {
      Writer(names, files, activeIsB, activeBytes, batch, waiters, received)
    }

    constructor (enc: Encoder, names: seq<string>, files: Segments)
      ensures State() == Opened(names, files) && trace == [] && this.enc == enc
    {
      this.enc := enc;
      var isB := files.b != [] && files.a == [];
      this.names, this.files, activeIsB, activeBytes := names, files, isB, |Segment(files, isB)|;
      batch, waiters, received, trace := [], [], 0, [];
    }

    method Accept(c: Command)
      modifies this`names, this`batch, this`waiters, this`received
      ensures State() == WalWriter.Accept(enc, old(State()), c)
    {
      match c {
        case Append(r, notify) =>
          if r.queue !in names {
            names := names + [r.queue];
          }
          batch := batch + enc(names, r);
          if notify {
            waiters := waiters + [received];
          }
        case Flush =>
          waiters := waiters + [received];
      }
      received := received + 1;
    }

    method Commit()
      modifies this`files, this`activeBytes, this`batch, this`waiters, this`trace
      ensures State() == WalWriter.Commit(old(State()))
      ensures trace == old(trace) + CommitEvents(old(State()))
    {
      if batch != [] {
        files := WithSegment(files, activeIsB, Segment(files, activeIsB) + batch);
        trace := trace + [Wrote(activeIsB, batch)];
        activeBytes := activeBytes + |batch|;
        batch := [];
      } else {
        assert Segment(files, activeIsB) + batch == Segment(files, activeIsB);
      }
      while waiters != []
        invariant State().(waiters := []) == WalWriter.Commit(old(State()))
        invariant trace + Answers(waiters) == old(trace) + CommitEvents(old(State()))
        decreases |waiters|
      {
        trace := trace + [Notified(waiters[0])];
        waiters := waiters[1..];
      }
    }

    /** The writer thread: it runs until the channel is empty. */
    method Serve(channel: seq<Command>)
      modifies this
      ensures State() == WalWriter.Serve(enc, old(State()), channel).writer
      ensures trace == old(trace) + WalWriter.Serve(enc, old(State()), channel).events
    {
      hide WalWriter.Accept, WalWriter.Commit, WalWriter.CommitEvents;
      var rest := channel;
      ghost var goal := WalWriter.Serve(enc, State(), channel);
      ghost var end := trace + goal.events;
      while rest != []
        invariant WalWriter.Serve(enc, State(), rest).writer == goal.writer
        invariant trace + WalWriter.Serve(enc, State(), rest).events == end
        decreases |rest|
      {
        ghost var start, before := WalWriter.Accept(enc, State(), rest[0]), trace;
        Accept(rest[0]);
        var taken := 1;
        while taken < |rest|
          invariant taken <= |rest| && trace == before
          invariant WalWriter.Coalesce(enc, State(), rest, taken) == WalWriter.Coalesce(enc, start, rest, 1)
        {
          Accept(rest[taken]);
          taken := taken + 1;
          if BATCH_LIMIT < |batch| {
            break;
          }
        }
        assert WalWriter.Coalesce(enc, start, rest, 1) == Turned(State(), taken);
        ghost var after := WalWriter.Serve(enc, WalWriter.Commit(State()), rest[taken..]);
        Assoc(before, CommitEvents(State()), after.events);
        Commit();
        rest := rest[taken..];
      }
    }

    method FlipFlopCompaction(survivors: seq<WalRecord>)
      modifies this
      ensures State() == Compact(enc, old(State()), survivors).writer
      ensures trace == old(trace) + Compact(enc, old(State()), survivors).events
    {
      Serve([Flush]);
      var wasB := activeIsB;
      activeIsB := !wasB;
      activeBytes := 0;
      ghost var mid := State();
      Serve(Appends(survivors) + [Flush]);
      ghost var a, b := WalWriter.Serve(enc, old(State()), [Flush]).events,
                        WalWriter.Serve(enc, mid, Appends(survivors) + [Flush]).events;
      Assoc(old(trace), a, b);
      Assoc(old(trace), a + b, [Truncated(wasB)]);
      files := WithSegment(files, wasB, []);
      trace := trace + [Truncated(wasB)];
    }
  }
}
