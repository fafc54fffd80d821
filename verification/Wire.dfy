/** Byte formats shared by the two languages: request framing (db.go, ingest.go against split_req and
    split_stream_req of rust/src/lib.rs) and the ingest receipt (encode_receipt against decodeReceipt). */
module Wire {
  import opened Wrappers
  import opened Ordering

  type u64 = x: int | 0 <= x < 0x1_0000_0000_0000_0000

  /** Lsn: a non-zero u64. */
  type Lsn = x: u64 | x != 0 witness 1

  // ---------------------------------------------------------------- little-endian integers

  function Pow256(n: nat): (p: nat)
    ensures p > 0
  {
    if n == 0 then 1 else 256 * Pow256(n - 1)
  }

  /** The `n` low bytes of `v`, lowest first. */
  function LeBytes(v: nat, n: nat): (b: Bytes)
    ensures |b| == n
  {
    if n == 0 then [] else [v % 256] + LeBytes(v / 256, n - 1)
  }

  function LeValue(b: Bytes): nat {
    if b == [] then 0 else b[0] + 256 * LeValue(b[1..])
  }

  lemma {:induction false} LeValueOfBytes(v: nat, n: nat)
    requires v < Pow256(n)
    ensures LeValue(LeBytes(v, n)) == v
  {
    if n > 0 {
      LeValueOfBytes(v / 256, n - 1);
      assert LeBytes(v, n)[1..] == LeBytes(v / 256, n - 1);
    }
  }

  lemma {:induction false} LeBytesOfValue(b: Bytes)
    ensures LeValue(b) < Pow256(|b|)
    ensures LeBytes(LeValue(b), |b|) == b
  {
    if b != [] {
      LeBytesOfValue(b[1..]);
      assert b == [b[0]] + b[1..];
      assert LeValue(b) % 256 == b[0] && LeValue(b) / 256 == LeValue(b[1..]);
    }
  }

  lemma Pow256Of8()
    ensures Pow256(8) == 0x1_0000_0000_0000_0000
  {
    assert Pow256(4) == 0x1_0000_0000;
    assert Pow256(8) == 256 * (256 * (256 * (256 * Pow256(4))));
  }

  function PutU64(v: u64): (b: Bytes)
    ensures |b| == 8
  {
    LeBytes(v, 8)
  }

  function GetU64(b: Bytes): u64
    requires |b| == 8
  {
    Pow256Of8();
    LeBytesOfValue(b);
    LeValue(b)
  }

  lemma U64RoundTrip(v: u64, b: Bytes)
    requires |b| == 8
    ensures GetU64(PutU64(v)) == v && PutU64(GetU64(b)) == b
  {
    Pow256Of8();
    LeValueOfBytes(v, 8);
    LeBytesOfValue(b);
  }

  /** The bytes are the digits of the number to the base 256, lowest first. */
  lemma LittleEndian(b: Bytes)
    requires |b| == 8
    ensures var d := i requires 0 <= i < 8 => b[i] as int;
            GetU64(b) == d(0) + 0x100 * d(1) + 0x1_0000 * d(2) + 0x100_0000 * d(3) + 0x1_0000_0000 * d(4)
                         + 0x100_0000_0000 * d(5) + 0x1_0000_0000_0000 * d(6) + 0x100_0000_0000_0000 * d(7)
  {
    assert LeValue(b[6..]) == b[6] as int + 256 * (b[7] as int) by {
      assert b[6..][1..] == b[7..] && b[7..][1..] == [];
      assert LeValue([]) == 0;
    }
    assert b[4..][1..] == b[5..] && b[5..][1..] == b[6..];
    assert LeValue(b[4..]) == b[4] + 256 * (b[5] + 256 * LeValue(b[6..]));
    assert b[2..][1..] == b[3..] && b[3..][1..] == b[4..];
    assert LeValue(b[2..]) == b[2] + 256 * (b[3] + 256 * LeValue(b[4..]));
    assert b[1..][1..] == b[2..];
    assert LeValue(b) == b[0] + 256 * (b[1] + 256 * LeValue(b[2..]));
  }

  // ---------------------------------------------------------------- requests

  /** split_req: the database id and the body. */
  function SplitReq(req: Bytes): Option<(u64, Bytes)> {
    if |req| < 8 then None else Some((GetU64(req[..8]), req[8..]))
  }

  /** split_stream_req: the database id, the query id and the payload. */
  function SplitStreamReq(req: Bytes): Option<(u64, u64, Bytes)> {
    if |req| < 16 then None else Some((GetU64(req[..8]), GetU64(req[8..16]), req[16..]))
  }

  lemma SplitReqInverse(req: Bytes, id: u64, body: Bytes)
    ensures SplitReq(req) == Some((id, body)) <==> req == PutU64(id) + body
  {
    if |req| >= 8 {
      U64RoundTrip(id, req[..8]);
      assert req == req[..8] + req[8..];
    }
    if req == PutU64(id) + body {
      assert req[..8] == PutU64(id) && req[8..] == body;
    }
  }

  /** A request is read as these ids and this payload exactly when it is their framing: nothing framed is
      ever rejected as short or read as something else, and nothing else is accepted in its place. */
  lemma SplitStreamReqInverse(req: Bytes, dbId: u64, queryId: u64, payload: Bytes)
    ensures SplitStreamReq(req) == Some((dbId, queryId, payload)) <==> req == PutU64(dbId) + PutU64(queryId) + payload
  {
    if |req| >= 16 {
      U64RoundTrip(dbId, req[..8]);
      U64RoundTrip(queryId, req[8..16]);
      assert req == req[..8] + req[8..16] + req[16..];
    }
    if req == PutU64(dbId) + PutU64(queryId) + payload {
      assert req[..8] == PutU64(dbId) && req[8..16] == PutU64(queryId) && req[16..] == payload;
    }
  }

  /** binary.LittleEndian.PutUint64 on req[at:at+8]. */
  method PutUint64(req: array<byte>, at: nat, v: u64)
    requires at + 8 <= req.Length
    modifies req
    ensures req[..] == old(req[..at]) + PutU64(v) + old(req[at + 8..])
  {
    var x: nat := v;
    ghost var head, tail, done: Bytes := req[..at], req[at + 8..], [];
    for i := 0 to 8
      invariant |done| == i && done + LeBytes(x, 8 - i) == LeBytes(v, 8)
      invariant req[..at + i] == head + done && req[at + 8..] == tail
    {
      req[at + i] := x % 256;
      assert req[..at + i] == head + done;
      done := done + [x % 256];
      assert req[..at + i + 1] == head + done;
      x := x / 256;
    }
    assert req[..] == req[..at + 8] + req[at + 8..];
  }

  /** copy(req[at:], body) */
  method CopyTail(req: array<byte>, at: nat, body: Bytes)
    requires at + |body| == req.Length
    modifies req
    ensures req[..] == old(req[..at]) + body
  {
    for i := 0 to |body|
      invariant req[..at] == old(req[..at]) && req[at..at + i] == body[..i]
    {
      req[at + i] := body[i];
      assert req[at..at + i + 1] == req[at..at + i] + [body[i]];
    }
    assert req[..] == req[..at] + req[at..at + |body|];
  }

  /** The request of ingest; the handler reads back what went in. */
  method FrameIngest(dbId: u64, otlp: Bytes) returns (req: array<byte>)
    ensures req[..] == PutU64(dbId) + otlp
    ensures SplitReq(req[..]) == Some((dbId, otlp))
  {
    req := new byte[8 + |otlp|];
    PutUint64(req, 0, dbId);
    CopyTail(req, 8, otlp);
    assert req[..] == PutU64(dbId) + otlp;
    SplitReqInverse(req[..], dbId, otlp);
  }

  /** The request of openStream; the handler reads back what went in. */
  method FrameStream(dbId: u64, queryId: u64, payload: Bytes) returns (req: array<byte>)
    ensures req[..] == PutU64(dbId) + PutU64(queryId) + payload
    ensures SplitStreamReq(req[..]) == Some((dbId, queryId, payload))
  {
    req := new byte[16 + |payload|];
    PutUint64(req, 0, dbId);
    assert req[..8] == PutU64(dbId);
    PutUint64(req, 8, queryId);
    assert req[..16] == PutU64(dbId) + PutU64(queryId);
    CopyTail(req, 16, payload);
    SplitStreamReqInverse(req[..], dbId, queryId, payload);
  }

  // ---------------------------------------------------------------- receipts

  /** imbh's receipt. */
  datatype IngestReceipt = IngestReceipt(accepted: u64, rejected: u64, lsn: Option<Lsn>, durable: bool, queued: bool)

  /** Its Go counterpart. */
  datatype Receipt = Receipt(accepted: u64, rejected: u64, lsn: u64, durable: bool, queued: bool)

  function Flag(b: bool): byte {
    if b then 1 else 0
  }

  function LsnOrZero(lsn: Option<Lsn>): u64 {
    if lsn.Some? then lsn.value else 0
  }

  function ReceiptBytes(r: IngestReceipt): (b: Bytes)
    ensures |b| == 26
  {
    PutU64(r.accepted) + PutU64(r.rejected) + PutU64(LsnOrZero(r.lsn)) + [Flag(r.durable), Flag(r.queued)]
  }

  /** encode_receipt */
  method EncodeReceipt(r: IngestReceipt) returns (b: Bytes)
    ensures DecodeReceipt(b) ==
            Ok(Receipt(r.accepted, r.rejected, LsnOrZero(r.lsn), r.durable, r.queued))
    ensures b == ReceiptBytes(r)
  {
    b := [];
    b := b + PutU64(r.accepted);
    b := b + PutU64(r.rejected);
    b := b + PutU64(LsnOrZero(r.lsn));
    b := b + [Flag(r.durable)];
    b := b + [Flag(r.queued)];
    assert b == ReceiptBytes(r);
    ReceiptRoundTrip(r, []);
    assert ReceiptBytes(r) + [] == ReceiptBytes(r);
  }

  function DecodeReceipt(b: Bytes): Result<Receipt, string> {
    if |b| < 26 then Err("imbhgo: short ingest receipt")
    else Ok(Receipt(GetU64(b[0..8]), GetU64(b[8..16]), GetU64(b[16..24]), b[24] != 0, b[25] != 0))
  }

  /** Go reads every field as Rust wrote it, whatever follows the record. */
  lemma ReceiptRoundTrip(r: IngestReceipt, rest: Bytes)
    ensures DecodeReceipt(ReceiptBytes(r) + rest) ==
            Ok(Receipt(r.accepted, r.rejected, LsnOrZero(r.lsn), r.durable, r.queued))
  {
    var b := ReceiptBytes(r) + rest;
    assert b[0..8] == PutU64(r.accepted);
    assert b[8..16] == PutU64(r.rejected);
    assert b[16..24] == PutU64(LsnOrZero(r.lsn));
    U64RoundTrip(r.accepted, b[0..8]);
    U64RoundTrip(r.rejected, b[8..16]);
    U64RoundTrip(LsnOrZero(r.lsn), b[16..24]);
  }

  /** Where the 26 bytes come from ... */
  lemma ReceiptLayout(r: IngestReceipt)
    ensures var b := ReceiptBytes(r);
            && GetU64(b[0..8]) == r.accepted && GetU64(b[8..16]) == r.rejected
            && GetU64(b[16..24]) == (match r.lsn case None => 0 case Some(lsn) => lsn)
            && b[24] == (if r.durable then 1 else 0) && b[25] == (if r.queued then 1 else 0)
  {
    var b := ReceiptBytes(r);
    assert b[0..8] == PutU64(r.accepted) && b[8..16] == PutU64(r.rejected) && b[16..24] == PutU64(LsnOrZero(r.lsn));
    U64RoundTrip(r.accepted, b[0..8]);
    U64RoundTrip(r.rejected, b[8..16]);
    U64RoundTrip(LsnOrZero(r.lsn), b[16..24]);
  }

  /** ... and what Go makes of any bytes: short ones are an error, any non-zero flag byte is set. */
  lemma DecodesEveryRecord(b: Bytes)
    ensures DecodeReceipt(b).Err? <==> |b| < 26
    ensures |b| >= 26 ==>
              var r := DecodeReceipt(b).value;
              && r.accepted == GetU64(b[0..8]) && r.rejected == GetU64(b[8..16]) && r.lsn == GetU64(b[16..24])
              && (r.durable <==> b[24] != 0) && (r.queued <==> b[25] != 0)
  {
  }

  /** No receipt is lost in encoding: a missing LSN cannot be mistaken for a present one. */
  lemma ReceiptsTell(r: IngestReceipt, s: IngestReceipt)
    ensures ReceiptBytes(r) == ReceiptBytes(s) ==> r == s
  {
    ReceiptRoundTrip(r, []);
    ReceiptRoundTrip(s, []);
    assert ReceiptBytes(r) + [] == ReceiptBytes(r) && ReceiptBytes(s) + [] == ReceiptBytes(s);
  }

  /** imbh's receipt behind a decoded one. */
  function Undecoded(r: Receipt): IngestReceipt {
    IngestReceipt(r.accepted, r.rejected, if r.lsn == 0 then None else Some(r.lsn), r.durable, r.queued)
  }

  /** Of all 26-byte records, the decoder keeps exactly those whose flag bytes are 0 or 1; it reads any
      other non-zero flag as set. */
  lemma RecordRoundTripIff(b: Bytes)
    requires |b| == 26
    ensures DecodeReceipt(b).Ok?
    ensures ReceiptBytes(Undecoded(DecodeReceipt(b).value)) == b <==> b[24] <= 1 && b[25] <= 1
  {
    var r := Undecoded(DecodeReceipt(b).value);
    U64RoundTrip(r.accepted, b[0..8]);
    U64RoundTrip(r.rejected, b[8..16]);
    U64RoundTrip(LsnOrZero(r.lsn), b[16..24]);
    assert b == b[0..8] + b[8..16] + b[16..24] + [b[24], b[25]];
    var e := ReceiptBytes(r);
    assert e[24] == Flag(r.durable) && e[25] == Flag(r.queued);
  }
}
