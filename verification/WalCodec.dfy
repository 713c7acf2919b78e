/** The byte format of the write-ahead log (walrq/src/engine/disk_log.rs).

    A Push is flag 0x00, the 16-byte id, 4 bytes of seconds since 2020, the 2-byte queue id, a
    4-byte payload length and the payload; an Ack is flag 0x01, the id and the queue id. All
    numbers are big-endian. */
module WalCodec {
  import opened Basics
  import opened Framing

  const EPOCH_2020_SEC: nat := 1577836800

  datatype WalRecord =
    | Push(id: Id, queue: string, visibleAt: nat, payload: Bytes)
    | Ack(id: Id, queue: string)

  /** What decoding depends on besides the bytes: the queue names by number, and how a payload
      flagged as compressed unpacks (the encoder never sets that flag). */
  datatype Context = Context(names: seq<string>, unzip: Bytes -> Option<Bytes>)

  function NameOf(names: seq<string>, q: nat): string {
    if q < |names| then names[q] else "default"
  }

  /** The number under which a name is written: its position in the registry. */
  function NumberOf(names: seq<string>, queue: string): (q: nat)
    ensures q <= |names|
    ensures q < |names| ==> names[q] == queue
    ensures forall i :: 0 <= i < q ==> names[i] != queue
  {
    if names == [] || names[0] == queue then 0 else 1 + NumberOf(names[1..], queue)
  }

  // ---------------------------------------------------------------- big-endian numbers

  function Pow256(n: nat): (p: nat)
    ensures 0 < p
  {
    if n == 0 then 1 else 256 * Pow256(n - 1)
  }

  /** The low `n` bytes of `x`, most significant first. */
  function PutUint(n: nat, x: nat): (b: Bytes)
    ensures |b| == n
  {
    if n == 0 then [] else PutUint(n - 1, x / 256) + [x % 256]
  }

  function GetUint(b: Bytes): nat {
    if b == [] then 0 else GetUint(b[..|b| - 1]) * 256 + b[|b| - 1]
  }

  lemma {:induction false} UintRoundTrip(n: nat, x: nat)
    requires x < Pow256(n)
    ensures GetUint(PutUint(n, x)) == x
  {
    if n > 0 {
      UintRoundTrip(n - 1, x / 256);
      assert PutUint(n, x)[..n - 1] == PutUint(n - 1, x / 256);
    }
  }

  lemma FieldWidths()
    ensures Pow256(2) == 0x1_0000 && Pow256(4) == 0x1_0000_0000
    ensures Pow256(16) == 0x1_0000_0000_0000_0000_0000_0000_0000_0000
  {
    assert Pow256(2) == 256 * Pow256(1) == 0x1_0000;
    assert Pow256(4) == 256 * Pow256(3) == 0x1_0000_0000;
    assert Pow256(6) == 256 * Pow256(5) == 0x1_0000_0000_0000;
    assert Pow256(8) == 256 * Pow256(7) == 0x1_0000_0000_0000_0000;
    assert Pow256(10) == 256 * Pow256(9) == 0x1_0000_0000_0000_0000_0000;
    assert Pow256(12) == 256 * Pow256(11) == 0x1_0000_0000_0000_0000_0000_0000;
    assert Pow256(14) == 256 * Pow256(13) == 0x1_0000_0000_0000_0000_0000_0000_0000;
    assert Pow256(16) == 256 * Pow256(15);
  }

  // ---------------------------------------------------------------- encoding

  function EncodePush(id: Id, q: nat, visibleAt: nat, payload: Bytes): Bytes {
    [0] + PutUint(16, id) + PutUint(4, SatSub(visibleAt, EPOCH_2020_SEC)) + PutUint(2, q)
    + PutUint(4, |payload|) + payload
  }

  function EncodeAck(id: Id, q: nat): Bytes {
    [1] + PutUint(16, id) + PutUint(2, q)
  }

  function Encode(names: seq<string>, r: WalRecord): Bytes {
    match r
    case Push(id, queue, visibleAt, payload) => EncodePush(id, NumberOf(names, queue), visibleAt, payload)
    case Ack(id, queue) => EncodeAck(id, NumberOf(names, queue))
  }

  lemma DivTwice(x: nat, p: nat)
    requires 0 < p
    ensures x / 256 / p == x / (256 * p)
  {
    var q, d := x / 256 / p, 256 * p;
    var r := x - q * d;
    assert q * d == 256 * (q * p);
    assert 0 <= x / 256 - q * p < p;
    assert 0 <= r < d;
    assert x == q * d + r;
    DivModUnique(x, q, r, d);
  }

  /** Byte `i` of a number written in `n` bytes, most significant first. */
  lemma {:induction false} UintByte(n: nat, x: nat, i: nat)
    requires i < n
    ensures PutUint(n, x)[i] == x / Pow256(n - 1 - i) % 256
  {
    if i < n - 1 {
      UintByte(n - 1, x / 256, i);
      DivTwice(x, Pow256(n - 2 - i));
    }
  }

  lemma SmallFields(x: nat)
    ensures PutUint(2, x) == [x / 256 % 256, x % 256]
    ensures PutUint(4, x) == [x / 16777216 % 256, x / 65536 % 256, x / 256 % 256, x % 256]
  {
    assert PutUint(0, x / 65536) == [];
    forall i | 0 <= i < 4 { UintByte(4, x, i); }
    forall i | 0 <= i < 2 { UintByte(2, x, i); }
    assert Pow256(0) == 1 && Pow256(1) == 256 && Pow256(2) == 65536 && Pow256(3) == 16777216;
  }

  /** The bytes of a Push on disk, whatever `Decode` makes of them: flag 0, the 128-bit id most significant
      byte first, seconds since 2020-01-01 in 4 bytes, the queue number in 2, the payload length in 4,
      and the payload from byte 27 on. */
  lemma PushBytes(names: seq<string>, id: Id, queue: string, visibleAt: nat, payload: Bytes)
    ensures var b := Encode(names, Push(id, queue, visibleAt, payload));
            var sec, q := if 1577836800 <= visibleAt then visibleAt - 1577836800 else 0, NumberOf(names, queue);
            && |b| == 27 + |payload| && b[0] == 0
            && (forall i :: 1 <= i < 17 ==> b[i] == id / Pow256(16 - i) % 256)
            && b[17..21] == [sec / 16777216 % 256, sec / 65536 % 256, sec / 256 % 256, sec % 256]
            && b[21..23] == [q / 256 % 256, q % 256]
            && b[23..27]
               == [|payload| / 16777216 % 256, |payload| / 65536 % 256, |payload| / 256 % 256, |payload| % 256]
            && b[27..] == payload
  {
    hide PutUint, Pow256;
    var sec, q := SatSub(visibleAt, EPOCH_2020_SEC), NumberOf(names, queue);
    var b := Encode(names, Push(id, queue, visibleAt, payload));
    SmallFields(sec);
    SmallFields(q);
    SmallFields(|payload|);
    forall i | 1 <= i < 17
      ensures b[i] == id / Pow256(16 - i) % 256
    {
      UintByte(16, id, i - 1);
    }
  }

  /** And of an Ack: flag 1, the id, and the queue number. */
  lemma AckBytes(names: seq<string>, id: Id, queue: string)
    ensures var b := Encode(names, Ack(id, queue));
            var q := NumberOf(names, queue);
            && |b| == 19 && b[0] == 1
            && (forall i :: 1 <= i < 17 ==> b[i] == id / Pow256(16 - i) % 256)
            && b[17..] == [q / 256 % 256, q % 256]
  {
    hide PutUint, Pow256;
    var b := Encode(names, Ack(id, queue));
    SmallFields(NumberOf(names, queue));
    forall i | 1 <= i < 17
      ensures b[i] == id / Pow256(16 - i) % 256
    {
      UintByte(16, id, i - 1);
    }
  }

  /** Bytes a record takes on disk. */
  function Size(r: WalRecord): nat {
    match r
    case Push(_, _, _, payload) => 27 + |payload|
    case Ack(_, _) => 19
  }

  // ---------------------------------------------------------------- decoding

  function Unpack(ctx: Context, compressed: bool, raw: Bytes): Bytes {
    if !compressed then raw
    else match ctx.unzip(raw)
         case Some(data) => data
         case None => raw
  }

  /** Reads one record off the front of `b`, or reports that `b` ends inside it. */
  function Decode(ctx: Context, b: Bytes): (d: Parsed<WalRecord>)
    ensures d.Whole? ==> 0 < d.size <= |b|
  {
    if b == [] then Torn
    else if b[0] % 2 == 1 then
      if |b| < 19 then Torn
      else Whole(Ack(GetUint(b[1..17]), NameOf(ctx.names, GetUint(b[17..19]))), 19)
    else if |b| < 27 then Torn
    else
      var size := 27 + GetUint(b[23..27]);
      if |b| < size then Torn
      else
        var payload := Unpack(ctx, b[0] / 2 % 2 == 1, b[27..size]);
        Whole(Push(GetUint(b[1..17]), NameOf(ctx.names, GetUint(b[21..23])),
                   GetUint(b[17..21]) + EPOCH_2020_SEC, payload), size)
  }

  /** The write-ahead log as a record format. */
  function WalFormat(ctx: Context): Format<WalRecord> {
    Format(r => Encode(ctx.names, r), b => Decode(ctx, b), Size)
  }

  /** What both reading loops do at a record: the cursor is at the flag byte. */
  method NextRecord(ctx: Context, cur: Bytes) returns (d: Parsed<WalRecord>)
    requires cur != []
    ensures d == Decode(ctx, cur)
  {
    var isAck, isCompressed := cur[0] % 2 == 1, cur[0] / 2 % 2 == 1;
    if isAck {
      if |cur| - 1 < 18 {
        return Torn;
      }
      return Whole(Ack(GetUint(cur[1..17]), NameOf(ctx.names, GetUint(cur[17..19]))), 19);
    }
    if |cur| - 1 < 26 {
      return Torn;
    }
    var id, relTs, q, len := GetUint(cur[1..17]), GetUint(cur[17..21]), GetUint(cur[21..23]), GetUint(cur[23..27]);
    if |cur| - 27 < len {
      return Torn;
    }
    var payload := Unpack(ctx, isCompressed, cur[27..27 + len]);
    return Whole(Push(id, NameOf(ctx.names, q), relTs + EPOCH_2020_SEC, payload), 27 + len);
  }

  // ---------------------------------------------------------------- round trip and torn tails

  /** What the format can carry: a registered queue, a 128-bit id, a time within 2^32 seconds of
      2020 and a payload shorter than 2^32 bytes. */
  ghost predicate Fits(names: seq<string>, r: WalRecord) {
    && |names| <= 0x1_0000
    && r.queue in names
    && r.id < 0x1_0000_0000_0000_0000_0000_0000_0000_0000
    && (r.Push? ==> EPOCH_2020_SEC <= r.visibleAt < EPOCH_2020_SEC + 0x1_0000_0000 && |r.payload| < 0x1_0000_0000)
  }

  ghost predicate AllFit(names: seq<string>, log: seq<WalRecord>) {
    forall i :: 0 <= i < |log| ==> Fits(names, log[i])
  }

  lemma DecodeAck(ctx: Context, id: Id, q: nat, tail: Bytes)
    requires id < Pow256(16) && q < Pow256(2)
    ensures Decode(ctx, EncodeAck(id, q) + tail) == Whole(Ack(id, NameOf(ctx.names, q)), 19)
  {
    hide PutUint, GetUint;
    var b := EncodeAck(id, q) + tail;
    UintRoundTrip(16, id);
    UintRoundTrip(2, q);
    assert b[1..17] == PutUint(16, id) && b[17..19] == PutUint(2, q);
  }

  lemma DecodePush(ctx: Context, id: Id, q: nat, ts: nat, payload: Bytes, tail: Bytes)
    requires id < Pow256(16) && q < Pow256(2) && ts < Pow256(4) && |payload| < Pow256(4)
    ensures Decode(ctx, EncodePush(id, q, EPOCH_2020_SEC + ts, payload) + tail)
            == Whole(Push(id, NameOf(ctx.names, q), EPOCH_2020_SEC + ts, payload), 27 + |payload|)
  {
    hide PutUint, GetUint;
    var b := EncodePush(id, q, EPOCH_2020_SEC + ts, payload) + tail;
    UintRoundTrip(16, id);
    UintRoundTrip(4, ts);
    UintRoundTrip(2, q);
    UintRoundTrip(4, |payload|);
    assert b[0] == 0;
    assert b[1..17] == PutUint(16, id);
    assert b[17..21] == PutUint(4, ts);
    assert b[21..23] == PutUint(2, q);
    assert b[23..27] == PutUint(4, |payload|);
    assert b[27..27 + |payload|] == payload;
  }

  lemma DecodeWhole(ctx: Context, r: WalRecord, tail: Bytes)
    requires Fits(ctx.names, r)
    ensures |Encode(ctx.names, r)| == Size(r)
    ensures Decode(ctx, Encode(ctx.names, r) + tail) == Whole(r, Size(r))
  {
    var q := NumberOf(ctx.names, r.queue);
    FieldWidths();
    if r.Ack? {
      DecodeAck(ctx, r.id, q, tail);
    } else {
      DecodePush(ctx, r.id, q, r.visibleAt - EPOCH_2020_SEC, r.payload, tail);
    }
  }

  /** Decoding a record depends on its own bytes only. */
  lemma DecodeLocal(ctx: Context, b: Bytes, c: Bytes)
    requires Decode(ctx, b).Whole?
    requires Decode(ctx, b).size <= |c| && c[..Decode(ctx, b).size] == b[..Decode(ctx, b).size]
    ensures Decode(ctx, c) == Decode(ctx, b)
  {
    var n := Decode(ctx, b).size;
    var x, y := b[..n], c[..n];
    assert b[0] == x[0] && c[0] == y[0];
    assert b[1..17] == x[1..17] && c[1..17] == y[1..17];
    if b[0] % 2 == 1 {
      assert b[17..19] == x[17..19] && c[17..19] == y[17..19];
    } else {
      assert b[17..21] == x[17..21] && c[17..21] == y[17..21];
      assert b[21..23] == x[21..23] && c[21..23] == y[21..23];
      assert b[23..27] == x[23..27] && c[23..27] == y[23..27];
      assert b[27..n] == x[27..n] && c[27..n] == y[27..n];
    }
  }

  /** On a prefix the record is found exactly when the prefix covers it. */
  lemma DecodePrefix(ctx: Context, b: Bytes, k: nat)
    requires k <= |b|
    ensures Decode(ctx, b[..k]) ==
            (if Decode(ctx, b).Whole? && Decode(ctx, b).size <= k then Decode(ctx, b) else Torn)
  {
    var p := b[..k];
    if Decode(ctx, p).Whole? {
      var n := Decode(ctx, p).size;
      assert p[..n] == b[..n];
      DecodeLocal(ctx, p, b);
    } else if Decode(ctx, b).Whole? && Decode(ctx, b).size <= k {
      assert p[..Decode(ctx, b).size] == b[..Decode(ctx, b).size];
      DecodeLocal(ctx, b, p);
    }
  }

  lemma WalProgress(ctx: Context)
    ensures Progress(WalFormat(ctx))
  {
  }

  lemma WalSelfDelimiting(ctx: Context)
    ensures SelfDelimiting(WalFormat(ctx))
  {
    var f := WalFormat(ctx);
    forall b: Bytes, k | 0 <= k <= |b|
      ensures f.dec(b[..k]) == if f.dec(b).Whole? && f.dec(b).size <= k then f.dec(b) else Torn
    {
      DecodePrefix(ctx, b, k);
    }
  }

  lemma WalCarries(ctx: Context, log: seq<WalRecord>)
    requires AllFit(ctx.names, log)
    ensures CarriesAll(WalFormat(ctx), log)
  {
    var f := WalFormat(ctx);
    forall i | 0 <= i < |log|
      ensures Carries(f, log[i])
    {
      forall tail: Bytes
        ensures f.dec(f.enc(log[i]) + tail) == Whole(log[i], f.size(log[i]))
      {
        DecodeWhole(ctx, log[i], tail);
      }
    }
  }

  /** Torn tails: decoding any byte prefix of an encoded log yields exactly the records that lie
      wholly within the prefix; the complete log decodes to itself. */
  lemma WalTornTail(ctx: Context, log: seq<WalRecord>, k: nat)
    requires AllFit(ctx.names, log) && k <= |EncodeAll(WalFormat(ctx), log)|
    ensures Progress(WalFormat(ctx))
    ensures DecodeAll(WalFormat(ctx), EncodeAll(WalFormat(ctx), log)[..k])
            == log[..WholeWithin(WalFormat(ctx).size, log, k)]
    ensures DecodeAll(WalFormat(ctx), EncodeAll(WalFormat(ctx), log)) == log
  {
    WalSelfDelimiting(ctx);
    WalCarries(ctx, log);
    TornTail(WalFormat(ctx), log, k);
    LogRoundTrip(WalFormat(ctx), log);
  }

  /** Reading the log in chunks finds all its records if and only if each fits in one chunk. */
  lemma WalScanCompleteIff(ctx: Context, log: seq<WalRecord>, max: nat)
    requires AllFit(ctx.names, log) && 0 < max
    ensures Progress(WalFormat(ctx))
    ensures Scan(WalFormat(ctx), EncodeAll(WalFormat(ctx), log), 0, max) == log
            <==> forall i :: 0 <= i < |log| ==> Size(log[i]) <= 1048576
  {
    var f := WalFormat(ctx);
    WalSelfDelimiting(ctx);
    WalCarries(ctx, log);
    LogRoundTrip(f, log);
    ScanCompleteIff(f, EncodeAll(f, log), max);
    SmallEncoding(f, log);
  }

  /** Reopening a segment appends to it without cutting off a record torn by the crash. What is
      appended from then on is read back if and only if no torn record was left. */
  lemma WalAppendsReadBackIff(ctx: Context, b: Bytes)
    requires 0 < |ctx.names| <= 0x1_0000
    ensures Progress(WalFormat(ctx))
    ensures AppendsReadBack(WalFormat(ctx), b) <==> Leftover(WalFormat(ctx), b) == []
  {
    var f := WalFormat(ctx);
    WalSelfDelimiting(ctx);
    var t := Leftover(f, b);
    if t == [] {
      CleanAppends(f, b);
    } else {
      // a record of the other kind than the torn one cannot be the first one read
      var q := ctx.names[0];
      var r := if t[0] % 2 == 1 then Push(0, q, EPOCH_2020_SEC, []) else Ack(0, q);
      var more := EncodeAll(f, [r]);
      WalCarries(ctx, [r]);
      KindOfFirst(ctx, t + more);
      SpoiledAppend(f, b, r);
    }
  }

  /** So a crash that cuts the log after byte `k` spoils what is appended later if and only if it cuts
      inside a record. */
  lemma CutSpoilsIff(ctx: Context, log: seq<WalRecord>, k: nat)
    requires 0 < |ctx.names| <= 0x1_0000 && AllFit(ctx.names, log) && k <= |EncodeAll(WalFormat(ctx), log)|
    ensures Progress(WalFormat(ctx))
    ensures !AppendsReadBack(WalFormat(ctx), EncodeAll(WalFormat(ctx), log)[..k])
            <==> forall n :: 0 <= n <= |log| ==> k != BytesOf(Size, log[..n])
  {
    hide AppendsReadBack, Leftover, EncodeAll, Carries, BytesOf;
    var f := WalFormat(ctx);
    WalSelfDelimiting(ctx);
    WalCarries(ctx, log);
    WalAppendsReadBackIff(ctx, EncodeAll(f, log)[..k]);
    TornLeft(f, log, k);
    forall n | 0 <= n <= |log|
      ensures WholeWithin(f.size, log, BytesOf(f.size, log[..n])) == n
    {
      WholeAtBoundary(f, log, n);
    }
  }

  lemma KindOfFirst(ctx: Context, b: Bytes)
    requires b != []
    ensures Progress(WalFormat(ctx))
    ensures var read := DecodeAll(WalFormat(ctx), b);
            read != [] ==> (read[0].Ack? <==> b[0] % 2 == 1)
  {
    assert WalFormat(ctx).dec(b) == Decode(ctx, b);
  }
}
