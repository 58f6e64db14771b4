/**
  The wallet's receipt journal (permanode/src/receipts.rs, `parse_journal`): a log of
  checksummed frames that a crash may cut short anywhere. The checksum and the JSON
  codec are uninterpreted; the frame header is modelled byte by byte.
 */
module Journal {
  import opened Wrappers

  type byte = x: int | 0 <= x < 256

  const U64 := 0x1_0000_0000_0000_0000
  const MAGIC: seq<byte> := [78, 79, 73, 68, 82, 67, 74, 49]   // "NOIDRCJ1"
  const HEADER_BYTES := 16
  const DIGEST_BYTES := 32

  /** A decoded frame: the changes in the order of their keys, `None` deleting a receipt. */
  datatype Delta = Delta(reset: bool, changes: seq<(string, Option<string>)>)

  datatype Codec = Codec(hash: seq<byte> -> seq<byte>, decode: seq<byte> -> Option<Delta>, domain: seq<byte>) {
    ghost predicate Valid() {
      forall x :: |hash(x)| == DIGEST_BYTES
    }
  }

  datatype JournalError =
    | NotAJournal
    | CorruptLength(pos: nat)
    | LengthOverflow(pos: nat)
    | CorruptChecksum(pos: nat)
    | BadPayload(pos: nat)
    | NoSnapshot
    | NotATxid(pos: nat, key: string)
    | KeyTwice(pos: nat, key: string)
    | SnapshotDeletes(pos: nat)
    | NoFrame

  type Receipts = map<string, string>

  // ---------------------------------------------------------------- numbers as bytes

  function ToLe(n: nat, width: nat): (s: seq<byte>)
    ensures |s| == width
  {
    if width == 0 then [] else [n % 256] + ToLe(n / 256, width - 1)
  }

  function FromLe(s: seq<byte>): nat {
    if s == [] then 0 else s[0] + 256 * FromLe(s[1..])
  }

  function Power256(width: nat): nat {
    if width == 0 then 1 else 256 * Power256(width - 1)
  }

  lemma {:induction false} LeRoundTrip(n: nat, width: nat)
    requires n < Power256(width)
    ensures FromLe(ToLe(n, width)) == n
  {
    if width > 0 {
      LeRoundTrip(n / 256, width - 1);
      assert ToLe(n, width)[1..] == ToLe(n / 256, width - 1);
    }
  }

  lemma {:induction false} LeRoundTripBack(s: seq<byte>)
    ensures FromLe(s) < Power256(|s|)
    ensures ToLe(FromLe(s), |s|) == s
  {
    if s != [] {
      LeRoundTripBack(s[1..]);
      assert s == [s[0]] + s[1..];
    }
  }

  lemma U64IsEightBytes()
    ensures Power256(8) == U64
  {
    assert Power256(4) == 0x1_0000_0000;
  }

  // ---------------------------------------------------------------- frames

  /** The header the wallet writes: the payload length and its bitwise complement. */
  function Header(length: nat): (h: seq<byte>)
    requires length < U64
    ensures |h| == HEADER_BYTES
  {
    ToLe(length, 8) + ToLe(U64 - 1 - length, 8)
  }

  /** One frame as the wallet writes it. */
  function Frame(codec: Codec, payload: seq<byte>): seq<byte>
    requires Fits(payload)
  {
    var header := Header(|payload|);
    header + payload + codec.hash(codec.domain + MAGIC + header + payload)
  }

  predicate Fits(payload: seq<byte>) {
    |payload| + HEADER_BYTES + DIGEST_BYTES < U64
  }

  ghost predicate AllFit(payloads: seq<seq<byte>>) {
    forall i :: 0 <= i < |payloads| ==> Fits(payloads[i])
  }

  ghost function Frames(codec: Codec, payloads: seq<seq<byte>>): seq<byte>
    requires AllFit(payloads)
  {
    if payloads == [] then [] else Frame(codec, payloads[0]) + Frames(codec, payloads[1..])
  }

  /** What stands at the start of `rest`. */
  datatype FrameRead = Complete(payload: seq<byte>, size: nat) | Incomplete | Bad(error: JournalError)

  function ReadFrame(codec: Codec, rest: seq<byte>, pos: nat): (r: FrameRead)
    ensures r.Complete? ==> HEADER_BYTES + DIGEST_BYTES <= r.size <= |rest|
  {
    if |rest| < HEADER_BYTES then Incomplete else
      var length := FromLe(rest[..8]);
      var inverted := FromLe(rest[8..16]);
      if length + inverted != U64 - 1 then Bad(CorruptLength(pos))
      else if length + HEADER_BYTES + DIGEST_BYTES >= U64 then Bad(LengthOverflow(pos))
      else if length + HEADER_BYTES + DIGEST_BYTES > |rest| then Incomplete
      else
        var size := length + HEADER_BYTES + DIGEST_BYTES;
        var payload := rest[HEADER_BYTES..size - DIGEST_BYTES];
        if codec.hash(codec.domain + MAGIC + rest[..HEADER_BYTES] + payload) != rest[size - DIGEST_BYTES..size]
        then Bad(CorruptChecksum(pos))
        else Complete(payload, size)
  }

  // ---------------------------------------------------------------- changes

  function LowerChar(c: char): char {
    if 'A' <= c <= 'Z' then (c as int + 32) as char else c
  }

  function Lower(s: string): string {
    seq(|s|, i requires 0 <= i < |s| => LowerChar(s[i]))
  }

  predicate IsHexDigit(c: char) {
    '0' <= c <= '9' || 'a' <= c <= 'f' || 'A' <= c <= 'F'
  }

  predicate IsTxid(key: string) {
    |key| == 64 && forall i :: 0 <= i < |key| ==> IsHexDigit(key[i])
  }

  function ApplyChanges(changes: seq<(string, Option<string>)>, reset: bool, receipts: Receipts, seen: set<string>, pos: nat)
    : Result<Receipts, JournalError>
  {
    if changes == [] then Success(receipts) else
      var key := Lower(changes[0].0);
      if !IsTxid(key) then Failure(NotATxid(pos, key))
      else if key in seen then Failure(KeyTwice(pos, key))
      else match changes[0].1
        case Some(hex) => ApplyChanges(changes[1..], reset, receipts[key := hex], seen + {key}, pos)
        case None =>
          if reset then Failure(SnapshotDeletes(pos))
          else ApplyChanges(changes[1..], reset, receipts - {key}, seen + {key}, pos)
  }

  function ApplyDelta(delta: Delta, receipts: Receipts, pos: nat): Result<Receipts, JournalError> {
    ApplyChanges(delta.changes, delta.reset, if delta.reset then map[] else receipts, {}, pos)
  }

  /** One payload on top of what `frames` earlier ones left. */
  function ApplyPayload(codec: Codec, payload: seq<byte>, frames: nat, receipts: Receipts, pos: nat): Result<Receipts, JournalError> {
    match codec.decode(payload)
    case None => Failure(BadPayload(pos))
    case Some(delta) =>
      if frames == 0 && !delta.reset then Failure(NoSnapshot) else ApplyDelta(delta, receipts, pos)
  }

  /** The fold of whole payloads, independent of any byte layout but their sizes. */
  ghost function Fold(codec: Codec, payloads: seq<seq<byte>>, frames: nat, receipts: Receipts, pos: nat): Result<Receipts, JournalError> {
    if payloads == [] then Success(receipts) else
      match ApplyPayload(codec, payloads[0], frames, receipts, pos)
      case Failure(e) => Failure(e)
      case Success(m) =>
        Fold(codec, payloads[1..], frames + 1, m, pos + |payloads[0]| + HEADER_BYTES + DIGEST_BYTES)
  }

  // ---------------------------------------------------------------- the parser

  /** What the frame loop computes from byte `pos` on. */
  ghost function ParseFrom(codec: Codec, rest: seq<byte>, frames: nat, receipts: Receipts, pos: nat): Result<(Receipts, nat), JournalError>
    decreases |rest|
  {
    match ReadFrame(codec, rest, pos)
    case Incomplete => Success((receipts, frames))
    case Bad(e) => Failure(e)
    case Complete(payload, size) =>
      match ApplyPayload(codec, payload, frames, receipts, pos)
      case Failure(e) => Failure(e)
      case Success(m) => ParseFrom(codec, rest[size..], frames + 1, m, pos + size)
  }

  ghost function Parse(codec: Codec, bytes: seq<byte>): Result<Receipts, JournalError> {
    if !(MAGIC <= bytes) then Failure(NotAJournal) else
      match ParseFrom(codec, bytes[|MAGIC|..], 0, map[], |MAGIC|)
      case Failure(e) => Failure(e)
      case Success((m, frames)) => if frames == 0 then Failure(NoFrame) else Success(m)
  }

  method ParseJournal(codec: Codec, bytes: seq<byte>) returns (r: Result<Receipts, JournalError>)
    ensures r == Parse(codec, bytes)
  {
    hide ReadFrame, ApplyChanges;
    if !(MAGIC <= bytes) { return Failure(NotAJournal); }
    var receipts: Receipts := map[];
    var pos: nat := |MAGIC|;
    var frames: nat := 0;
    while true
      invariant pos <= |bytes|
      invariant ParseFrom(codec, bytes[|MAGIC|..], 0, map[], |MAGIC|) == ParseFrom(codec, bytes[pos..], frames, receipts, pos)
      decreases |bytes| - pos
    {
      var read := ReadFrame(codec, bytes[pos..], pos);
      if read.Incomplete? { break; }
      if read.Bad? { return Failure(read.error); }
      var decoded := codec.decode(read.payload);
      if decoded.None? { return Failure(BadPayload(pos)); }
      var delta := decoded.value;
      if frames == 0 && !delta.reset { return Failure(NoSnapshot); }
      if delta.reset {
        receipts := map[];
      }
      var applied := ApplyInPlace(delta, receipts, pos);
      if applied.Failure? { return Failure(applied.error); }
      assert bytes[pos..][read.size..] == bytes[pos + read.size..];
      receipts := applied.value;
      frames := frames + 1;
      pos := pos + read.size;
    }
    if frames == 0 { return Failure(NoFrame); }
    r := Success(receipts);
  }

  /** The inner loop over one frame's changes. */
  method ApplyInPlace(delta: Delta, start: Receipts, pos: nat) returns (r: Result<Receipts, JournalError>)
    ensures r == ApplyChanges(delta.changes, delta.reset, start, {}, pos)
  {
    hide Lower, IsTxid;
    var receipts := start;
    var seen: set<string> := {};
    for i := 0 to |delta.changes|
      invariant ApplyChanges(delta.changes, delta.reset, start, {}, pos)
             == ApplyChanges(delta.changes[i..], delta.reset, receipts, seen, pos)
    {
      assert delta.changes[i..][1..] == delta.changes[i + 1..];
      var key := Lower(delta.changes[i].0);
      if !IsTxid(key) { return Failure(NotATxid(pos, key)); }
      if key in seen { return Failure(KeyTwice(pos, key)); }
      seen := seen + {key};
      match delta.changes[i].1
      case Some(hex) =>
        receipts := receipts[key := hex];
      case None =>
        if delta.reset { return Failure(SnapshotDeletes(pos)); }
        receipts := receipts - {key};
    }
    r := Success(receipts);
  }
}
