/** Logs of self-delimiting records, for any record format.

    The write-ahead log is read in two ways: a whole segment at a time on recovery, and in bounded
    chunks when spilled messages are paged in. Both only rely on a record saying where it ends, so
    their theory is stated here once, away from the byte layout. */
module Framing {
  import opened Basics

  datatype Parsed<+R> = Torn | Whole(record: R, size: nat)

  /** How records are written, how one is read off the front of some bytes, and how long it is. */
  datatype Format<!R> = Format(enc: R -> Bytes, dec: Bytes -> Parsed<R>, size: R -> nat)

  ghost predicate Progress<R>(f: Format<R>) {
    forall b :: f.dec(b).Whole? ==> 0 < f.dec(b).size <= |b|
  }

  /** On a prefix the record is found exactly when the prefix covers it. */
  ghost predicate Local<R>(f: Format<R>) {
    forall b, k {:trigger f.dec(b[..k])} :: 0 <= k <= |b| ==>
      f.dec(b[..k]) == if f.dec(b).Whole? && f.dec(b).size <= k then f.dec(b) else Torn
  }

  ghost predicate SelfDelimiting<R>(f: Format<R>) {
    Progress(f) && Local(f)
  }

  /** `r` is read back from its encoding, whatever follows. */
  ghost predicate Carries<R>(f: Format<R>, r: R) {
    && 0 < |f.enc(r)| == f.size(r)
    && forall tail :: f.dec(f.enc(r) + tail) == Whole(r, f.size(r))
  }

  ghost predicate CarriesAll<R>(f: Format<R>, log: seq<R>) {
    forall i :: 0 <= i < |log| ==> Carries(f, log[i])
  }

  function EncodeAll<R>(f: Format<R>, log: seq<R>): Bytes {
    if log == [] then [] else f.enc(log[0]) + EncodeAll(f, log[1..])
  }

  /** All whole records from the front, up to the first one the bytes end inside. */
  ghost function DecodeAll<R>(f: Format<R>, b: Bytes): seq<R>
    requires Progress(f)
    decreases |b|
  {
    match f.dec(b)
    case Torn => []
    case Whole(r, size) => [r] + DecodeAll(f, b[size..])
  }

  /** The bytes that `DecodeAll` leaves unread: a record torn by a crash, or nothing. */
  ghost function Leftover<R>(f: Format<R>, b: Bytes): Bytes
    requires Progress(f)
    decreases |b|
  {
    match f.dec(b)
    case Torn => b
    case Whole(_, size) => Leftover(f, b[size..])
  }

  /** Recovery: reads one segment and appends its records to those recovered so far. */
  method ReadSegment<R>(f: Format<R>, raw: Bytes, prior: seq<R>) returns (out: seq<R>)
    requires Progress(f)
    ensures out == prior + DecodeAll(f, raw)
  {
    out := prior;
    var cur := raw;
    while cur != []
      invariant out + DecodeAll(f, cur) == prior + DecodeAll(f, raw)
      decreases |cur|
    {
      var d := f.dec(cur);
      if d.Torn? {
        return;
      }
      out := out + [d.record];
      cur := cur[d.size..];
    }
    assert f.dec([]).Torn?;
  }

  // ---------------------------------------------------------------- round trip and torn tails

  /** How many records of the log lie wholly within its first `k` bytes. */
  function WholeWithin<R>(size: R -> nat, log: seq<R>, k: nat): (n: nat)
    ensures n <= |log|
  {
    if log == [] || k < size(log[0]) then 0 else 1 + WholeWithin(size, log[1..], k - size(log[0]))
  }

  lemma TornHead<R>(f: Format<R>, r: R, rest: Bytes, k: nat)
    requires SelfDelimiting(f) && Carries(f, r) && k <= |f.enc(r)| + |rest|
    ensures DecodeAll(f, (f.enc(r) + rest)[..k])
            == if k < f.size(r) then [] else [r] + DecodeAll(f, rest[..k - f.size(r)])
  {
    var b := f.enc(r) + rest;
    if f.size(r) <= k {
      assert b[..k][f.size(r)..] == rest[..k - f.size(r)];
    }
  }

  lemma NothingDecoded<R>(f: Format<R>)
    requires Progress(f)
    ensures f.dec([]) == Torn && DecodeAll(f, []) == []
  {
  }

  lemma ConsPrefix<R>(s: seq<R>, n: nat)
    requires n < |s|
    ensures s[..n + 1] == [s[0]] + s[1..][..n]
  {
  }

  /** Torn tails: any byte prefix of an encoded log decodes to exactly the records it holds whole. */
  lemma {:induction false} TornTail<R>(f: Format<R>, log: seq<R>, k: nat)
    requires SelfDelimiting(f) && CarriesAll(f, log) && k <= |EncodeAll(f, log)|
    ensures DecodeAll(f, EncodeAll(f, log)[..k]) == log[..WholeWithin(f.size, log, k)]
  {
    hide DecodeAll;
    if log == [] {
      NothingDecoded(f);
    } else {
      var r, rest := log[0], EncodeAll(f, log[1..]);
      TornHead(f, r, rest, k);
      if f.size(r) <= k {
        TornTail(f, log[1..], k - f.size(r));
        ConsPrefix(log, WholeWithin(f.size, log[1..], k - f.size(r)));
      }
    }
  }

  lemma {:induction false} WholeWithinAll<R>(f: Format<R>, log: seq<R>)
    requires CarriesAll(f, log)
    ensures WholeWithin(f.size, log, |EncodeAll(f, log)|) == |log|
  {
    if log != [] {
      WholeWithinAll(f, log[1..]);
    }
  }

  lemma LogRoundTrip<R>(f: Format<R>, log: seq<R>)
    requires SelfDelimiting(f) && CarriesAll(f, log)
    ensures DecodeAll(f, EncodeAll(f, log)) == log
  {
    var b := EncodeAll(f, log);
    TornTail(f, log, |b|);
    WholeWithinAll(f, log);
    assert b[..|b|] == b && log[..|log|] == log;
  }

  // ---------------------------------------------------------------- reading in chunks

  /** The most bytes one read takes from the file. */
  const CHUNK: nat := 1024 * 1024

  datatype Chunk<+R> = Chunk(records: seq<R>, next: nat)

  /** Decodes records off the front of `b`, at most `max` of them and within `room` bytes; `next`
      counts the bytes consumed. */
  ghost function TakeRecords<R>(f: Format<R>, b: Bytes, room: nat, max: nat): (c: Chunk<R>)
    requires Progress(f)
    ensures c.next <= |b| && (c.records != [] ==> 0 < c.next)
    decreases max
  {
    if max == 0 then Chunk([], 0)
    else
      match f.dec(b)
      case Torn => Chunk([], 0)
      case Whole(r, size) =>
        if room < size then Chunk([], 0)
        else
          var rest := TakeRecords(f, b[size..], room - size, max - 1);
          Chunk([r] + rest.records, size + rest.next)
  }

  ghost function ReadFrom<R>(f: Format<R>, file: Bytes, offset: nat, max: nat): (c: Chunk<R>)
    requires Progress(f)
    ensures c.next <= |file| && (c.records != [] ==> offset < c.next)
  {
    if |file| <= offset then Chunk([], |file|)
    else
      var c := TakeRecords(f, file[offset..], CHUNK, max);
      Chunk(c.records, offset + c.next)
  }

  /** Paging: reads one chunk of the file and returns its records and where to read on. */
  method ReadChunk<R>(f: Format<R>, file: Bytes, offset: nat, max: nat) returns (records: seq<R>, next: nat)
    requires SelfDelimiting(f)
    ensures Chunk(records, next) == ReadFrom(f, file, offset, max)
  {
    if |file| <= offset {
      return [], |file|;
    }
    var toRead := Min(|file| - offset, CHUNK);
    var consumed: nat;
    records, consumed := ReadWindow(f, file[offset..], toRead, max);
    next := offset + consumed;
  }

  method ReadWindow<R>(f: Format<R>, b: Bytes, toRead: nat, max: nat) returns (records: seq<R>, consumed: nat)
    requires SelfDelimiting(f) && toRead == Min(|b|, CHUNK)
    ensures Chunk(records, consumed) == TakeRecords(f, b, CHUNK, max)
  {
    hide Resumes;
    ghost var goal := TakeRecords(f, b, CHUNK, max);
    records, consumed := [], 0;
    ReadStart(f, b, max);
    while consumed < toRead && |records| < max
      invariant |records| <= max && consumed <= toRead
      invariant Resumes(f, b, consumed, records, max, goal)
    {
      var d := f.dec(b[consumed..toRead]);
      WindowDec(f, b, consumed, toRead);
      ReadTurn(f, b, consumed, records, max, goal);
      if d.Torn? {
        return;
      }
      records := records + [d.record];
      consumed := consumed + d.size;
    }
    ReadEnd(f, b, consumed, records, max, goal);
  }

  /** Reading on from `at` after `records` completes the read to `goal`. */
  ghost predicate Resumes<R>(f: Format<R>, b: Bytes, at: nat, records: seq<R>, max: nat, goal: Chunk<R>)
    requires Progress(f) && at <= Min(|b|, CHUNK) && |records| <= max
  {
    var c := TakeRecords(f, b[at..], CHUNK - at, max - |records|);
    goal == Chunk(records + c.records, at + c.next)
  }

  lemma ReadStart<R>(f: Format<R>, b: Bytes, max: nat)
    requires Progress(f)
    ensures Resumes(f, b, 0, [], max, TakeRecords(f, b, CHUNK, max))
  {
    assert b[0..] == b;
  }

  /** The window shows a record exactly when the file does and the window covers it. */
  lemma WindowDec<R>(f: Format<R>, b: Bytes, at: nat, end: nat)
    requires SelfDelimiting(f) && at <= end <= |b|
    ensures f.dec(b[at..end]) ==
            if f.dec(b[at..]).Whole? && f.dec(b[at..]).size <= end - at then f.dec(b[at..]) else Torn
  {
    assert b[at..end] == b[at..][..end - at];
  }

  lemma ReadTurn<R>(f: Format<R>, b: Bytes, at: nat, records: seq<R>, max: nat, goal: Chunk<R>)
    requires Progress(f) && at <= Min(|b|, CHUNK) && |records| < max && Resumes(f, b, at, records, max, goal)
    ensures match f.dec(b[at..])
            case Torn => goal == Chunk(records, at)
            case Whole(r, n) =>
              if CHUNK - at < n then goal == Chunk(records, at)
              else Resumes(f, b, at + n, records + [r], max, goal)
  {
    hide TakeRecords;
    TakeStep(f, b[at..], CHUNK - at, max - |records|);
    EmptyRight(records);
    var d := f.dec(b[at..]);
    if d.Whole? && d.size <= CHUNK - at {
      assert b[at..][d.size..] == b[at + d.size..];
      var c := TakeRecords(f, b[at + d.size..], CHUNK - (at + d.size), max - |records| - 1);
      Assoc(records, [d.record], c.records);
    }
  }

  lemma ReadEnd<R>(f: Format<R>, b: Bytes, at: nat, records: seq<R>, max: nat, goal: Chunk<R>)
    requires Progress(f) && at <= Min(|b|, CHUNK) && |records| <= max && Resumes(f, b, at, records, max, goal)
    requires at == Min(|b|, CHUNK) || |records| == max
    ensures goal == Chunk(records, at)
  {
  }

  /** The records found by reading on from `offset` until a read brings nothing more. */
  ghost function Scan<R>(f: Format<R>, file: Bytes, offset: nat, max: nat): seq<R>
    requires Progress(f)
    decreases |file| - offset
  {
    var c := ReadFrom(f, file, offset, max);
    if c.records == [] then [] else c.records + Scan(f, file, c.next, max)
  }

  /** `offset` is where a record of `b` starts or where the last one ends. */
  ghost predicate IsBoundary<R>(f: Format<R>, b: Bytes, offset: nat)
    requires Progress(f)
    decreases |b|
  {
    offset == 0
    || match f.dec(b)
       case Torn => false
       case Whole(_, size) => size <= offset && IsBoundary(f, b[size..], offset - size)
  }

  /** Every whole record of `b` fits in one read. */
  ghost predicate AllSmall<R>(f: Format<R>, b: Bytes)
    requires Progress(f)
    decreases |b|
  {
    match f.dec(b)
    case Torn => true
    case Whole(_, size) => size <= CHUNK && AllSmall(f, b[size..])
  }

  /** The records before the first one that does not fit in one read. */
  ghost function SmallPrefix<R>(f: Format<R>, b: Bytes): seq<R>
    requires Progress(f)
    decreases |b|
  {
    match f.dec(b)
    case Torn => []
    case Whole(r, size) => if CHUNK < size then [] else [r] + SmallPrefix(f, b[size..])
  }

  lemma {:induction false} SmallPrefixComplete<R>(f: Format<R>, b: Bytes)
    requires Progress(f)
    ensures SmallPrefix(f, b) == DecodeAll(f, b) <==> AllSmall(f, b)
    decreases |b|
  {
    if f.dec(b).Whole? {
      var r, rest := f.dec(b).record, b[f.dec(b).size..];
      SmallPrefixComplete(f, rest);
      assert ([r] + SmallPrefix(f, rest))[1..] == SmallPrefix(f, rest);
      assert ([r] + DecodeAll(f, rest))[1..] == DecodeAll(f, rest);
    }
  }

  /** One read continues the scan from a record boundary to a record boundary. */
  lemma {:induction false} TakeAdvances<R>(f: Format<R>, b: Bytes, room: nat, max: nat)
    requires Progress(f) && room <= CHUNK
    ensures var c := TakeRecords(f, b, room, max);
            && IsBoundary(f, b, c.next)
            && SmallPrefix(f, b) == c.records + SmallPrefix(f, b[c.next..])
    decreases max
  {
    hide TakeRecords, SmallPrefix, IsBoundary;
    TakeStep(f, b, room, max);
    if 0 < max && f.dec(b).Whole? && f.dec(b).size <= room {
      var n := f.dec(b).size;
      TakeAdvances(f, b[n..], room - n, max - 1);
      AdvanceStep(f, b, TakeRecords(f, b[n..], room - n, max - 1));
    } else {
      AdvanceNone(f, b);
    }
  }

  lemma TakeStep<R>(f: Format<R>, b: Bytes, room: nat, max: nat)
    requires Progress(f)
    ensures TakeRecords(f, b, room, max) ==
            if 0 < max && f.dec(b).Whole? && f.dec(b).size <= room then
              var n := f.dec(b).size;
              var c := TakeRecords(f, b[n..], room - n, max - 1);
              Chunk([f.dec(b).record] + c.records, n + c.next)
            else Chunk([], 0)
  {
  }

  lemma AdvanceNone<R>(f: Format<R>, b: Bytes)
    requires Progress(f)
    ensures IsBoundary(f, b, 0) && SmallPrefix(f, b) == [] + SmallPrefix(f, b[0..])
  {
    assert b[0..] == b;
  }

  lemma AdvanceStep<R>(f: Format<R>, b: Bytes, c: Chunk<R>)
    requires Progress(f) && f.dec(b).Whole? && f.dec(b).size <= CHUNK
    requires var rest := b[f.dec(b).size..];
             && c.next <= |rest| && IsBoundary(f, rest, c.next)
             && SmallPrefix(f, rest) == c.records + SmallPrefix(f, rest[c.next..])
    ensures var d := f.dec(b);
            && IsBoundary(f, b, d.size + c.next)
            && SmallPrefix(f, b) == ([d.record] + c.records) + SmallPrefix(f, b[d.size + c.next..])
  {
    var d := f.dec(b);
    assert b[d.size..][c.next..] == b[d.size + c.next..];
    assert [d.record] + (c.records + SmallPrefix(f, b[d.size + c.next..]))
        == ([d.record] + c.records) + SmallPrefix(f, b[d.size + c.next..]);
  }

  lemma {:induction false} BoundaryChain<R>(f: Format<R>, b: Bytes, m: nat, n: nat)
    requires Progress(f) && m <= |b| && IsBoundary(f, b, m) && IsBoundary(f, b[m..], n)
    ensures IsBoundary(f, b, m + n)
    decreases |b|
  {
    if m == 0 {
      assert b[0..] == b;
    } else {
      var size := f.dec(b).size;
      assert b[size..][m - size..] == b[m..];
      BoundaryChain(f, b[size..], m - size, n);
    }
  }

  /** A read that starts at a record boundary returns the next records and stops at a boundary. */
  lemma ReadAdvances<R>(f: Format<R>, file: Bytes, offset: nat, max: nat)
    requires Progress(f) && offset <= |file| && IsBoundary(f, file, offset)
    ensures var c := ReadFrom(f, file, offset, max);
            && (c.records != [] ==> IsBoundary(f, file, c.next))
            && (c.records != [] || 0 < max ==>
                  SmallPrefix(f, file[offset..])
                  == c.records + if c.records == [] then [] else SmallPrefix(f, file[c.next..]))
  {
    hide IsBoundary;
    var b := file[offset..];
    var c := TakeRecords(f, b, CHUNK, max);
    TakeAdvances(f, b, CHUNK, max);
    BoundaryChain(f, file, offset, c.next);
    assert b[c.next..] == file[offset + c.next..];
  }

  lemma {:induction false} ScanIsSmallPrefix<R>(f: Format<R>, file: Bytes, offset: nat, max: nat)
    requires Progress(f) && offset <= |file| && IsBoundary(f, file, offset) && 0 < max
    ensures Scan(f, file, offset, max) == SmallPrefix(f, file[offset..])
    decreases |file| - offset
  {
    ReadAdvances(f, file, offset, max);
    var c := ReadFrom(f, file, offset, max);
    if c.records != [] {
      ScanIsSmallPrefix(f, file, c.next, max);
    }
  }

  /** Reading in chunks from the start finds what whole-file reading finds exactly when every record
      fits in one read. A larger record stops the scan for good and hides all that follow it. */
  lemma ScanCompleteIff<R>(f: Format<R>, file: Bytes, max: nat)
    requires Progress(f) && 0 < max
    ensures Scan(f, file, 0, max) == DecodeAll(f, file) <==> AllSmall(f, file)
  {
    assert file[0..] == file;
    ScanIsSmallPrefix(f, file, 0, max);
    SmallPrefixComplete(f, file);
  }

  // ---------------------------------------------------------------- reading an encoded log by records

  function BytesOf<R>(size: R -> nat, log: seq<R>): nat {
    if log == [] then 0 else size(log[0]) + BytesOf(size, log[1..])
  }

  /** How many records one read of at most `room` bytes and `max` entries returns. */
  function RecordsInRead<R>(size: R -> nat, log: seq<R>, room: nat, max: nat): (n: nat)
    ensures n <= |log| && n <= max
  {
    if log == [] || max == 0 || room < size(log[0]) then 0
    else 1 + RecordsInRead(size, log[1..], room - size(log[0]), max - 1)
  }

  /** A read takes as many records as it can: it stops only at the end, at `max` entries, or in front of a
      record that does not fit in what is left of the window. */
  lemma {:induction false} ReadTakesMost<R>(size: R -> nat, log: seq<R>, room: nat, max: nat)
    ensures var n := RecordsInRead(size, log, room, max);
            && BytesOf(size, log[..n]) <= room
            && (n == |log| || n == max || room < BytesOf(size, log[..n]) + size(log[n]))
  {
    if log != [] && max > 0 && size(log[0]) <= room {
      var n := RecordsInRead(size, log[1..], room - size(log[0]), max - 1);
      ReadTakesMost(size, log[1..], room - size(log[0]), max - 1);
      BytesOfCons(size, log, n);
    }
  }

  lemma {:induction false} BytesOfSplit<R>(size: R -> nat, a: seq<R>, b: seq<R>)
    ensures BytesOf(size, a + b) == BytesOf(size, a) + BytesOf(size, b)
  {
    if a == [] {
      assert a + b == b;
    } else {
      assert (a + b)[1..] == a[1..] + b;
      BytesOfSplit(size, a[1..], b);
    }
  }

  lemma TakeCons<R>(f: Format<R>, r: R, rest: Bytes, room: nat, max: nat)
    requires Progress(f) && Carries(f, r) && 0 < max && f.size(r) <= room
    ensures var c := TakeRecords(f, rest, room - f.size(r), max - 1);
            TakeRecords(f, f.enc(r) + rest, room, max) == Chunk([r] + c.records, f.size(r) + c.next)
  {
    assert (f.enc(r) + rest)[f.size(r)..] == rest;
  }

  lemma TakeNone<R>(f: Format<R>, log: seq<R>, room: nat, max: nat)
    requires Progress(f) && CarriesAll(f, log)
    requires log == [] || max == 0 || room < f.size(log[0])
    ensures TakeRecords(f, EncodeAll(f, log), room, max) == Chunk([], 0)
  {
    if log == [] {
      assert f.dec([]).Torn?;
    } else {
      assert f.dec(f.enc(log[0]) + EncodeAll(f, log[1..])) == Whole(log[0], f.size(log[0]));
    }
  }

  lemma {:induction false} TakeOfEncoded<R>(f: Format<R>, log: seq<R>, room: nat, max: nat)
    requires Progress(f) && CarriesAll(f, log)
    ensures var n := RecordsInRead(f.size, log, room, max);
            TakeRecords(f, EncodeAll(f, log), room, max) == Chunk(log[..n], BytesOf(f.size, log[..n]))
  {
    hide TakeRecords;
    if log == [] || max == 0 || room < f.size(log[0]) {
      TakeNone(f, log, room, max);
    } else {
      var r, tail := log[0], log[1..];
      TakeCons(f, r, EncodeAll(f, tail), room, max);
      TakeOfEncoded(f, tail, room - f.size(r), max - 1);
      var n := RecordsInRead(f.size, tail, room - f.size(r), max - 1);
      PrefixOfCons(f.size, log, n);
    }
  }

  lemma PrefixOfCons<R>(size: R -> nat, log: seq<R>, n: nat)
    requires n < |log|
    ensures log[..n + 1] == [log[0]] + log[1..][..n]
    ensures BytesOf(size, log[..n + 1]) == size(log[0]) + BytesOf(size, log[1..][..n])
  {
    assert log[..n + 1][1..] == log[1..][..n];
  }

  lemma {:induction false} EncodeAllSplit<R>(f: Format<R>, a: seq<R>, b: seq<R>)
    ensures EncodeAll(f, a + b) == EncodeAll(f, a) + EncodeAll(f, b)
  {
    if a == [] {
      assert a + b == b;
    } else {
      assert (a + b)[1..] == a[1..] + b;
      EncodeAllSplit(f, a[1..], b);
    }
  }

  lemma {:induction false} EncodeAllBytes<R>(f: Format<R>, log: seq<R>)
    requires CarriesAll(f, log)
    ensures |EncodeAll(f, log)| == BytesOf(f.size, log)
  {
    if log != [] {
      EncodeAllBytes(f, log[1..]);
    }
  }

  /** A segment holding the encoding of `log` may be read record by record: a read that starts at
      record `i` returns the next records of `log`, and its offset is the size of those before. */
  lemma ReadOfEncoded<R>(f: Format<R>, log: seq<R>, i: nat, max: nat)
    requires Progress(f) && CarriesAll(f, log) && i <= |log|
    ensures var n := RecordsInRead(f.size, log[i..], CHUNK, max);
            ReadFrom(f, EncodeAll(f, log), BytesOf(f.size, log[..i]), max)
            == Chunk(log[i..i + n], BytesOf(f.size, log[..i + n]))
  {
    hide TakeRecords, EncodeAll, BytesOf, RecordsInRead;
    var a, b := log[..i], log[i..];
    var n := RecordsInRead(f.size, b, CHUNK, max);
    Cut(log, i, n);
    BytesOfSplit(f.size, a, b[..n]);
    EncodingFrom(f, log, i);
    TakeOfEncoded(f, b, CHUNK, max);
    if b == [] {
      assert log[..i + n] == a;
    } else {
      SomeEncoding(f, b);
    }
  }

  lemma Cut<R>(s: seq<R>, i: nat, n: nat)
    requires i + n <= |s|
    ensures s[i..i + n] == s[i..][..n] && s[..i + n] == s[..i] + s[i..][..n]
  {
  }

  lemma EncodingFrom<R>(f: Format<R>, log: seq<R>, i: nat)
    requires CarriesAll(f, log) && i <= |log|
    ensures var file, off := EncodeAll(f, log), BytesOf(f.size, log[..i]);
            off <= |file| && file[off..] == EncodeAll(f, log[i..])
  {
    EncodeAllSplit(f, log[..i], log[i..]);
    EncodeAllBytes(f, log[..i]);
    assert log == log[..i] + log[i..];
  }

  lemma {:induction false} SmallEncoding<R>(f: Format<R>, log: seq<R>)
    requires Progress(f) && CarriesAll(f, log)
    ensures AllSmall(f, EncodeAll(f, log)) <==> forall i :: 0 <= i < |log| ==> f.size(log[i]) <= CHUNK
  {
    if log == [] {
      assert f.dec([]).Torn?;
    } else {
      var r, rest := log[0], EncodeAll(f, log[1..]);
      assert (f.enc(r) + rest)[f.size(r)..] == rest;
      SmallEncoding(f, log[1..]);
      assert forall i :: 0 < i < |log| ==> log[i] == log[1..][i - 1];
    }
  }

  lemma SomeEncoding<R>(f: Format<R>, log: seq<R>)
    requires CarriesAll(f, log) && log != []
    ensures EncodeAll(f, log) != []
  {
  }

  // ---------------------------------------------------------------- appending after a crash

  lemma {:induction false} DecodeAppended<R>(f: Format<R>, b: Bytes, more: Bytes)
    requires SelfDelimiting(f)
    ensures DecodeAll(f, b + more) == DecodeAll(f, b) + DecodeAll(f, Leftover(f, b) + more)
    decreases |b|
  {
    if f.dec(b).Whole? {
      var n := f.dec(b).size;
      assert (b + more)[..|b|] == b;
      assert (b + more)[n..] == b[n..] + more;
      DecodeAppended(f, b[n..], more);
    }
  }

  lemma LeftHead<R>(f: Format<R>, r: R, rest: Bytes, k: nat)
    requires SelfDelimiting(f) && Carries(f, r) && k <= |f.enc(r)| + |rest|
    ensures Leftover(f, (f.enc(r) + rest)[..k])
            == if k < f.size(r) then (f.enc(r) + rest)[..k] else Leftover(f, rest[..k - f.size(r)])
  {
    var b := f.enc(r) + rest;
    if f.size(r) <= k {
      assert b[..k][f.size(r)..] == rest[..k - f.size(r)];
    }
  }

  lemma NothingLeft<R>(f: Format<R>)
    requires Progress(f)
    ensures Leftover(f, []) == []
  {
  }

  /** A byte prefix of an encoded log leaves unread what follows its last whole record. */
  lemma {:induction false} TornLeft<R>(f: Format<R>, log: seq<R>, k: nat)
    requires SelfDelimiting(f) && CarriesAll(f, log) && k <= |EncodeAll(f, log)|
    ensures |Leftover(f, EncodeAll(f, log)[..k])| == k - BytesOf(f.size, log[..WholeWithin(f.size, log, k)])
  {
    hide Leftover;
    if log == [] {
      NothingLeft(f);
    } else {
      var r, rest := log[0], EncodeAll(f, log[1..]);
      LeftHead(f, r, rest, k);
      if f.size(r) <= k {
        TornLeft(f, log[1..], k - f.size(r));
        BytesOfCons(f.size, log, WholeWithin(f.size, log[1..], k - f.size(r)));
      }
    }
  }

  lemma BytesOfCons<R>(size: R -> nat, log: seq<R>, n: nat)
    requires n < |log|
    ensures BytesOf(size, log[..n + 1]) == size(log[0]) + BytesOf(size, log[1..][..n])
  {
    assert log[..n + 1][1..] == log[1..][..n];
  }

  lemma {:induction false} WholeAtBoundary<R>(f: Format<R>, log: seq<R>, n: nat)
    requires CarriesAll(f, log) && n <= |log|
    ensures WholeWithin(f.size, log, BytesOf(f.size, log[..n])) == n
  {
    if 0 < n {
      BytesOfCons(f.size, log, n - 1);
      WholeAtBoundary(f, log[1..], n - 1);
    } else if log != [] {
      assert Carries(f, log[0]);
    }
  }

  /** Whatever is appended to segment `b` is read back after what `b` already held. */
  ghost predicate AppendsReadBack<R(!new)>(f: Format<R>, b: Bytes)
    requires Progress(f)
  {
    forall log :: CarriesAll(f, log) ==> DecodeAll(f, b + EncodeAll(f, log)) == DecodeAll(f, b) + log
  }

  /** One record that is not read back first after the leftover shows that appends go wrong. */
  lemma SpoiledAppend<R(!new)>(f: Format<R>, b: Bytes, r: R)
    requires SelfDelimiting(f) && CarriesAll(f, [r])
    requires var read := DecodeAll(f, Leftover(f, b) + EncodeAll(f, [r])); read == [] || read[0] != r
    ensures !AppendsReadBack(f, b)
  {
    var read := DecodeAll(f, Leftover(f, b) + EncodeAll(f, [r]));
    DecodeAppended(f, b, EncodeAll(f, [r]));
    assert DecodeAll(f, b) + read != DecodeAll(f, b) + [r] by {
      Cancel(DecodeAll(f, b), read, [r]);
    }
  }

  lemma CleanAppends<R(!new)>(f: Format<R>, b: Bytes)
    requires SelfDelimiting(f) && Leftover(f, b) == []
    ensures AppendsReadBack(f, b)
  {
    forall log | CarriesAll(f, log)
      ensures DecodeAll(f, b + EncodeAll(f, log)) == DecodeAll(f, b) + log
    {
      DecodeAppended(f, b, EncodeAll(f, log));
      assert [] + EncodeAll(f, log) == EncodeAll(f, log);
      LogRoundTrip(f, log);
    }
  }
}
