/**
  The receipt journal down to its bytes and characters (permanode/src/receipts.rs,
  `parse_journal`): which bytes are a whole frame, which texts are txids, and which
  changes are accepted - said of the bytes and texts themselves.
 */
module JournalBytes {
  import opened Wrappers
  import opened Journal
  import opened JournalLaws

  // ---------------------------------------------------------------- eight bytes

  lemma FromOne(x: byte)
    ensures FromLe([x]) == x
  {
    assert [x][1..] == [];
  }

  /** Later bytes weigh more: by 256 for each byte before them. */
  lemma {:induction false} FromConcat(a: seq<byte>, b: seq<byte>)
    ensures FromLe(a + b) == FromLe(a) + Power256(|a|) * FromLe(b)
  {
    if a == [] {
      assert a + b == b;
    } else {
      assert (a + b)[1..] == a[1..] + b;
      FromConcat(a[1..], b);
      Weighs(FromLe(a[1..]), Power256(|a| - 1), FromLe(b));
    }
  }

  lemma Weighs(low: nat, weight: nat, high: nat)
    ensures 256 * (low + weight * high) == 256 * low + 256 * weight * high
  {
  }

  /** The number eight bytes stand for, lowest first. */
  function Number(s: seq<byte>): nat
    requires |s| >= 8
  {
    At(s, 0) + 0x100 * At(s, 1) + 0x1_0000 * At(s, 2) + 0x100_0000 * At(s, 3) + 0x1_0000_0000 * At(s, 4) + 0x100_0000_0000 * At(s, 5)
    + 0x1_0000_0000_0000 * At(s, 6) + 0x100_0000_0000_0000 * At(s, 7)
  }

  function At(s: seq<byte>, i: nat): nat
    requires i < |s|
  {
    s[i]
  }

  lemma LowestFirst(s: seq<byte>)
    requires |s| == 8
    ensures FromLe(s) == Number(s)
  {
    FourBytes(s[..4]);
    FourBytes(s[4..]);
    assert s == s[..4] + s[4..];
    FromConcat(s[..4], s[4..]);
    FourWeights();
    hide FromLe, Power256;
  }

  lemma FourWeights()
    ensures Power256(4) == 0x1_0000_0000
  {
  }

  lemma FourBytes(s: seq<byte>)
    requires |s| == 4
    ensures FromLe(s) == At(s, 0) + 0x100 * At(s, 1) + 0x1_0000 * At(s, 2) + 0x100_0000 * At(s, 3)
  {
    assert s[1..][1..] == s[2..] && s[2..][1..] == s[3..] && s[3..][1..] == [];
    assert FromLe(s[3..]) == At(s, 3) && FromLe(s[2..]) == At(s, 2) + 0x100 * At(s, 3);
  }

  /** Two numbers add up to all ones exactly when their bytes do, one by one. */
  lemma {:induction false} ComplementBytes(a: seq<byte>, b: seq<byte>)
    requires |a| == |b|
    ensures FromLe(a) + FromLe(b) == Power256(|a|) - 1 <==> forall i :: 0 <= i < |a| ==> At(a, i) + At(b, i) == 255
  {
    if a != [] {
      ComplementBytes(a[1..], b[1..]);
      LeRoundTripBack(a[1..]);
      LeRoundTripBack(b[1..]);
      FirstByte(a[0], b[0], FromLe(a[1..]), FromLe(b[1..]), Power256(|a| - 1));
      hide FromLe, Power256;
      FirstThenRest(a, b);
    }
  }

  lemma FirstThenRest(a: seq<byte>, b: seq<byte>)
    requires |a| == |b| > 0
    ensures (forall i :: 0 <= i < |a| ==> At(a, i) + At(b, i) == 255) <==>
            At(a, 0) + At(b, 0) == 255 && forall i :: 0 <= i < |a[1..]| ==> At(a[1..], i) + At(b[1..], i) == 255
  {
    forall i | 0 <= i < |a| - 1 ensures At(a[1..], i) == At(a, i + 1) && At(b[1..], i) == At(b, i + 1) {}
    if At(a, 0) + At(b, 0) == 255 && forall i :: 0 <= i < |a[1..]| ==> At(a[1..], i) + At(b[1..], i) == 255 {
      forall i | 0 <= i < |a| ensures At(a, i) + At(b, i) == 255 { if i > 0 { assert At(a[1..], i - 1) + At(b[1..], i - 1) == 255; } }
    }
  }

  lemma FirstByte(x: nat, y: nat, m: nat, n: nat, weight: nat)
    requires x < 256 && y < 256 && m < weight && n < weight
    ensures x + 256 * m + (y + 256 * n) == 256 * weight - 1 <==> x + y == 255 && m + n == weight - 1
  {
  }

  // ---------------------------------------------------------------- whole frames

  /** The header's second half is the first with every bit turned. */
  ghost predicate SoundLength(rest: seq<byte>) {
    |rest| >= 16 && forall i :: 0 <= i < 8 ==> At(rest, i) + At(rest, 8 + i) == 255
  }

  lemma SoundLengthReads(rest: seq<byte>)
    requires |rest| >= 16
    ensures FromLe(rest[..8]) == Number(rest)
    ensures FromLe(rest[..8]) + FromLe(rest[8..16]) == U64 - 1 <==> SoundLength(rest)
  {
    LowestFirst(rest[..8]);
    ComplementBytes(rest[..8], rest[8..16]);
    U64IsEightBytes();
    hide FromLe, Power256;
    HalvesOf(rest);
  }

  lemma HalvesOf(rest: seq<byte>)
    requires |rest| >= 16
    ensures Number(rest[..8]) == Number(rest)
    ensures (forall i :: 0 <= i < |rest[..8]| ==> At(rest[..8], i) + At(rest[8..16], i) == 255) <==> SoundLength(rest)
  {
    forall i | 0 <= i < 8 ensures At(rest[..8], i) == At(rest, i) && At(rest[8..16], i) == At(rest, 8 + i) {}
    if SoundLength(rest) {
      forall i | 0 <= i < |rest[..8]| ensures At(rest[..8], i) + At(rest[8..16], i) == 255 { assert At(rest, i) + At(rest, 8 + i) == 255; }
    }
    if forall i :: 0 <= i < |rest[..8]| ==> At(rest[..8], i) + At(rest[8..16], i) == 255 {
      forall i | 0 <= i < 8 ensures At(rest, i) + At(rest, 8 + i) == 255 { assert At(rest[..8], i) + At(rest[8..16], i) == 255; }
    }
  }

  /** The 32 bytes after header and payload are the digest of domain, magic, header and payload. */
  predicate Sealed(codec: Codec, rest: seq<byte>, length: nat)
    requires 16 + length + 32 <= |rest|
  {
    codec.hash(codec.domain + MAGIC + rest[..16 + length]) == rest[16 + length..48 + length]
  }

  /**
    What the bytes at a frame's place are: too few, a length whose complement is not there,
    one that does not fit 64 bits, less than announced, not sealed, or a whole frame.
   */
  lemma FrameByBytes(codec: Codec, rest: seq<byte>, pos: nat)
    ensures ReadFrame(codec, rest, pos) ==
            if |rest| < 16 then Incomplete
            else if !SoundLength(rest) then Bad(CorruptLength(pos))
            else if Number(rest) + 48 >= 0x1_0000_0000_0000_0000 then Bad(LengthOverflow(pos))
            else if |rest| < Number(rest) + 48 then Incomplete
            else if !Sealed(codec, rest, Number(rest)) then Bad(CorruptChecksum(pos))
            else Complete(rest[16..16 + Number(rest)], Number(rest) + 48)
  {
    if |rest| >= 16 {
      SoundLengthReads(rest);
      hide FromLe, SoundLength;
      var n := Number(rest);
      hide Number;
      if n + 48 <= |rest| {
        var payload := rest[16..16 + n];
        assert codec.domain + MAGIC + rest[..16] + payload == codec.domain + MAGIC + rest[..16 + n];
      }
    }
  }

  /** The magic, by its letters. */
  lemma MagicIs()
    ensures |MAGIC| == 8
    ensures forall i :: 0 <= i < 8 ==> MAGIC[i] == "NOIDRCJ1"[i] as int
  {
    assert MAGIC[0] == 'N' as int && MAGIC[1] == 'O' as int && MAGIC[2] == 'I' as int && MAGIC[3] == 'D' as int;
    assert MAGIC[4] == 'R' as int && MAGIC[5] == 'C' as int && MAGIC[6] == 'J' as int && MAGIC[7] == '1' as int;
  }

  /** A frame as the wallet writes it, byte by byte. */
  lemma FrameBytes(codec: Codec, payload: seq<byte>)
    requires codec.Valid() && Fits(payload)
    ensures var f := Frame(codec, payload);
            && |f| == |payload| + 48 && SoundLength(f) && Number(f) == |payload| && f[16..16 + |payload|] == payload && Sealed(codec, f, |payload|)
  {
    hide FromLe, Frame, Fits;
    WrittenFrameReads(codec, payload, [], 0);
    assert Frame(codec, payload) + [] == Frame(codec, payload);
    FrameByBytes(codec, Frame(codec, payload), 0);
  }

  // ---------------------------------------------------------------- txids

  const DIGITS := "0123456789abcdef"
  const CAPITALS := "0123456789ABCDEF"

  /** The hex text of some bytes, two digits each, each digit in either case. */
  ghost predicate IsHexOf(key: string, bytes: seq<byte>) {
    |key| == 2 * |bytes| && forall i :: 0 <= i < |bytes| ==> IsDigit(key[2 * i], bytes[i] / 16) && IsDigit(key[2 * i + 1], bytes[i] % 16)
  }

  predicate IsDigit(c: char, value: nat)
    requires value < 16
  {
    c == DIGITS[value] || c == CAPITALS[value]
  }

  /** The same in lower case. */
  ghost predicate IsLowerHexOf(key: string, bytes: seq<byte>) {
    |key| == 2 * |bytes| && forall i :: 0 <= i < |bytes| ==> key[2 * i] == DIGITS[bytes[i] / 16] && key[2 * i + 1] == DIGITS[bytes[i] % 16]
  }

  /** The value of a hex digit. */
  function DigitValue(c: char): (value: nat)
    requires IsHexDigit(c)
    ensures value < 16 && IsDigit(c, value)
  {
    if c <= '9' then c as int - '0' as int else if c <= 'F' then c as int - 'A' as int + 10 else c as int - 'a' as int + 10
  }

  lemma DigitIsHex(c: char, value: nat)
    requires value < 16 && IsDigit(c, value)
    ensures IsHexDigit(c) && LowerChar(c) == DIGITS[value]
  {
  }

  /** The hex text of 32 bytes, in whatever case, is a txid, and its lower-case form is the bytes' lower-case text. */
  lemma HexIsTxid(key: string, bytes: seq<byte>)
    requires |bytes| == 32 && IsHexOf(key, bytes)
    ensures IsTxid(key) && IsTxid(Lower(key)) && IsLowerHexOf(Lower(key), bytes)
  {
    hide IsDigit, IsHexDigit, LowerChar;
    forall i | 0 <= i < 64
      ensures IsHexDigit(key[i]) && IsHexDigit(Lower(key)[i])
    {
      HexPair(key, bytes, i / 2);
      assert i == 2 * (i / 2) || i == 2 * (i / 2) + 1;
      LowerIsHex(key[i]);
    }
    forall i | 0 <= i < 32
      ensures Lower(key)[2 * i] == DIGITS[bytes[i] / 16] && Lower(key)[2 * i + 1] == DIGITS[bytes[i] % 16]
    {
      HexPair(key, bytes, i);
    }
  }

  lemma HexPair(key: string, bytes: seq<byte>, i: nat)
    requires |bytes| == 32 && IsHexOf(key, bytes) && i < 32
    ensures IsHexDigit(key[2 * i]) && LowerChar(key[2 * i]) == DIGITS[bytes[i] / 16]
    ensures IsHexDigit(key[2 * i + 1]) && LowerChar(key[2 * i + 1]) == DIGITS[bytes[i] % 16]
  {
    hide IsDigit, IsHexDigit, LowerChar;
    assert IsDigit(key[2 * i], bytes[i] / 16) && IsDigit(key[2 * i + 1], bytes[i] % 16);
    DigitIsHex(key[2 * i], bytes[i] / 16);
    DigitIsHex(key[2 * i + 1], bytes[i] % 16);
  }

  lemma LowerIsHex(c: char)
    requires IsHexDigit(c)
    ensures IsHexDigit(LowerChar(c))
  {
  }

  lemma LowerKeepsHex(c: char)
    ensures IsHexDigit(LowerChar(c)) ==> IsHexDigit(c)
  {
  }

  /** And every txid is the hex text of some 32 bytes. */
  lemma TxidIsHex(key: string) returns (bytes: seq<byte>)
    requires IsTxid(key)
    ensures |bytes| == 32 && IsHexOf(key, bytes)
  {
    hide IsDigit, IsHexDigit;
    bytes := seq(32, i requires 0 <= i < 32 => ByteAt(key, i));
    forall i | 0 <= i < 32
      ensures IsDigit(key[2 * i], bytes[i] / 16) && IsDigit(key[2 * i + 1], bytes[i] % 16)
    {
      ByteDigits(DigitValue(key[2 * i]), DigitValue(key[2 * i + 1]));
    }
  }

  function ByteAt(key: string, i: nat): byte
    requires IsTxid(key) && i < 32
  {
    16 * DigitValue(key[2 * i]) + DigitValue(key[2 * i + 1])
  }

  lemma ByteDigits(high: nat, low: nat)
    requires high < 16 && low < 16
    ensures (16 * high + low) / 16 == high && (16 * high + low) % 16 == low
  {
  }

  // ---------------------------------------------------------------- changes

  /** Changes are accepted that name txids, none twice however written, and delete nothing from a snapshot. */
  ghost predicate Acceptable(delta: Delta) {
    && (forall i :: 0 <= i < |delta.changes| ==> IsTxid(delta.changes[i].0))
    && (forall i, j :: 0 <= i < j < |delta.changes| ==> Lower(delta.changes[i].0) != Lower(delta.changes[j].0))
    && (delta.reset ==> forall i :: 0 <= i < |delta.changes| ==> delta.changes[i].1.Some?)
  }

  function Lowered(changes: seq<(string, Option<string>)>): seq<(string, Option<string>)> {
    seq(|changes|, i requires 0 <= i < |changes| => (Lower(changes[i].0), changes[i].1))
  }

  lemma LowerTwice(s: string)
    ensures Lower(Lower(s)) == Lower(s) && |Lower(s)| == |s|
  {
  }

  lemma LowerTxid(key: string)
    ensures IsTxid(Lower(key)) <==> IsTxid(key)
  {
    hide IsHexDigit, LowerChar;
    forall i | 0 <= i < |key| ensures IsHexDigit(Lower(key)[i]) <==> IsHexDigit(key[i]) {
      LowerKeepsHex(key[i]);
      if IsHexDigit(key[i]) { LowerIsHex(key[i]); }
    }
  }

  /** Keys are folded before they are used. */
  lemma {:induction false} OnlyLowerMatters(changes: seq<(string, Option<string>)>, reset: bool, receipts: Receipts, seen: set<string>, pos: nat)
    ensures ApplyChanges(changes, reset, receipts, seen, pos) == ApplyChanges(Lowered(changes), reset, receipts, seen, pos)
    decreases |changes|
  {
    hide IsTxid, Lower;
    if changes != [] {
      var key := Lower(changes[0].0);
      LowerTwice(changes[0].0);
      assert Lowered(changes)[1..] == Lowered(changes[1..]);
      OnlyLowerMatters(changes[1..], reset, receipts, seen, pos);
      match changes[0].1
      case Some(hex) => OnlyLowerMatters(changes[1..], reset, receipts[key := hex], seen + {key}, pos);
      case None => OnlyLowerMatters(changes[1..], reset, receipts - {key}, seen + {key}, pos);
    }
  }

  lemma LoweredIsWellFormed(delta: Delta)
    requires Acceptable(delta)
    ensures WellFormed(Delta(delta.reset, Lowered(delta.changes)))
  {
    hide IsTxid, Lower;
    forall i | 0 <= i < |delta.changes|
      ensures IsTxid(Lower(delta.changes[i].0)) && Lower(Lower(delta.changes[i].0)) == Lower(delta.changes[i].0)
    {
      LowerTwice(delta.changes[i].0);
      LowerTxid(delta.changes[i].0);
    }
  }

  /** The change at `i` is the first that is not accepted, and why. */
  ghost predicate FirstBad(changes: seq<(string, Option<string>)>, reset: bool, seen: set<string>, i: nat, pos: nat, e: JournalError) {
    && i < |changes|
    && (forall j :: 0 <= j < i ==> Fine(changes, reset, seen, j))
    && var key := Lower(changes[i].0);
       if !IsTxid(key) then e == NotATxid(pos, key)
       else if Again(changes, seen, i) then e == KeyTwice(pos, key)
       else reset && changes[i].1.None? && e == SnapshotDeletes(pos)
  }

  ghost predicate Again(changes: seq<(string, Option<string>)>, seen: set<string>, i: nat)
    requires i < |changes|
  {
    Lower(changes[i].0) in seen || exists j :: 0 <= j < i && Lower(changes[j].0) == Lower(changes[i].0)
  }

  ghost predicate Fine(changes: seq<(string, Option<string>)>, reset: bool, seen: set<string>, i: nat)
    requires i < |changes|
  {
    IsTxid(changes[i].0) && !Again(changes, seen, i) && (reset ==> changes[i].1.Some?)
  }

  lemma AgainLater(changes: seq<(string, Option<string>)>, seen: set<string>, i: nat)
    requires 0 < i < |changes|
    ensures Again(changes, seen, i) <==> Again(changes[1..], seen + {Lower(changes[0].0)}, i - 1)
  {
    hide Lower;
    if Again(changes, seen, i) && Lower(changes[i].0) !in seen {
      var j :| 0 <= j < i && Lower(changes[j].0) == Lower(changes[i].0);
      if j > 0 { assert changes[1..][j - 1] == changes[j]; }
    }
    if exists j :: 0 <= j < i - 1 && Lower(changes[1..][j].0) == Lower(changes[i].0) {
      var j :| 0 <= j < i - 1 && Lower(changes[1..][j].0) == Lower(changes[i].0);
      assert changes[j + 1] == changes[1..][j];
    }
  }

  /** A frame is refused for its first change that is not accepted. */
  lemma {:induction false} RefusedForFirstBad(changes: seq<(string, Option<string>)>, reset: bool, receipts: Receipts, seen: set<string>, pos: nat)
    ensures var r := ApplyChanges(changes, reset, receipts, seen, pos);
            match r
            case Failure(e) => exists i: nat :: FirstBad(changes, reset, seen, i, pos, e)
            case Success(m) => forall i :: 0 <= i < |changes| ==> Fine(changes, reset, seen, i)
    decreases |changes|
  {
    hide IsTxid, Lower;
    if changes != [] {
      var key := Lower(changes[0].0);
      LowerTxid(changes[0].0);
      var r := ApplyChanges(changes, reset, receipts, seen, pos);
      if !IsTxid(key) || key in seen || (reset && changes[0].1.None?) {
        assert FirstBad(changes, reset, seen, 0, pos, r.error);
      } else {
        var next := if changes[0].1.Some? then receipts[key := changes[0].1.value] else receipts - {key};
        RefusedForFirstBad(changes[1..], reset, next, seen + {key}, pos);
        LaterChanges(changes, reset, seen, r, pos);
      }
    }
  }

  lemma LaterChanges(changes: seq<(string, Option<string>)>, reset: bool, seen: set<string>, r: Result<Receipts, JournalError>, pos: nat)
    requires changes != [] && Fine(changes, reset, seen, 0)
    requires var later, more := changes[1..], seen + {Lower(changes[0].0)};
             match r
             case Failure(e) => exists i: nat :: FirstBad(later, reset, more, i, pos, e)
             case Success(m) => forall i :: 0 <= i < |later| ==> Fine(later, reset, more, i)
    ensures match r
            case Failure(e) => exists i: nat :: FirstBad(changes, reset, seen, i, pos, e)
            case Success(m) => forall i :: 0 <= i < |changes| ==> Fine(changes, reset, seen, i)
  {
    hide IsTxid, Lower, Again, Fine;
    var later, more := changes[1..], seen + {Lower(changes[0].0)};
    forall i | 0 < i < |changes|
      ensures Fine(changes, reset, seen, i) <==> Fine(later, reset, more, i - 1)
    {
      FineLater(changes, reset, seen, i);
    }
    match r
    case Failure(e) =>
      var i: nat :| FirstBad(later, reset, more, i, pos, e);
      AgainLater(changes, seen, i + 1);
      forall j | 0 <= j < i + 1 ensures Fine(changes, reset, seen, j) { if j > 0 { assert Fine(later, reset, more, j - 1); } }
      assert FirstBad(changes, reset, seen, i + 1, pos, e);
    case Success(m) =>
      forall i | 0 <= i < |changes| ensures Fine(changes, reset, seen, i) { if i > 0 { assert Fine(later, reset, more, i - 1); } }
  }

  lemma FineLater(changes: seq<(string, Option<string>)>, reset: bool, seen: set<string>, i: nat)
    requires 0 < i < |changes|
    ensures Fine(changes, reset, seen, i) <==> Fine(changes[1..], reset, seen + {Lower(changes[0].0)}, i - 1)
  {
    hide IsTxid, Lower, Again;
    AgainLater(changes, seen, i);
  }

  lemma FineIsAcceptable(delta: Delta)
    requires forall i :: 0 <= i < |delta.changes| ==> Fine(delta.changes, delta.reset, {}, i)
    ensures Acceptable(delta)
  {
    hide IsTxid, Lower;
    forall i | 0 <= i < |delta.changes|
      ensures IsTxid(delta.changes[i].0) && (delta.reset ==> delta.changes[i].1.Some?)
    {
      assert Fine(delta.changes, delta.reset, {}, i);
    }
    forall i, j | 0 <= i < j < |delta.changes|
      ensures Lower(delta.changes[i].0) != Lower(delta.changes[j].0)
    {
      assert Fine(delta.changes, delta.reset, {}, j);
    }
  }

  /** A delta is applied exactly when its changes are acceptable, and then its lower-case form tells what it leaves. */
  lemma AppliesWhen(delta: Delta, receipts: Receipts, pos: nat)
    ensures ApplyDelta(delta, receipts, pos).Success? <==> Acceptable(delta)
    ensures Acceptable(delta) ==> ApplyDelta(delta, receipts, pos) == Success(JournalLaws.After(Delta(delta.reset, Lowered(delta.changes)), receipts))
  {
    hide IsTxid, Lower, ApplyChanges;
    var start := if delta.reset then map[] else receipts;
    RefusedForFirstBad(delta.changes, delta.reset, start, {}, pos);
    if ApplyDelta(delta, receipts, pos).Success? { FineIsAcceptable(delta); }
    if Acceptable(delta) {
      LoweredIsWellFormed(delta);
      OnlyLowerMatters(delta.changes, delta.reset, start, {}, pos);
      DeltaMeans(Delta(delta.reset, Lowered(delta.changes)), receipts, pos);
    }
  }

  // ---------------------------------------------------------------- the whole journal

  /** The first payload is a snapshot, and all of them decode to acceptable deltas. */
  ghost predicate Good(codec: Codec, payloads: seq<seq<byte>>) {
    && (forall i :: 0 <= i < |payloads| ==> codec.decode(payloads[i]).Some? && Acceptable(codec.decode(payloads[i]).value))
    && (payloads != [] ==> codec.decode(payloads[0]).value.reset)
  }

  ghost function DeltaOf(codec: Codec, payload: seq<byte>): Delta
    requires codec.decode(payload).Some?
  {
    var delta := codec.decode(payload).value;
    Delta(delta.reset, Lowered(delta.changes))
  }

  /** What the payloads leave, one after the other. */
  ghost function Left(codec: Codec, payloads: seq<seq<byte>>, receipts: Receipts): Receipts
    requires forall i :: 0 <= i < |payloads| ==> codec.decode(payloads[i]).Some?
  {
    if payloads == [] then receipts else Left(codec, payloads[1..], JournalLaws.After(DeltaOf(codec, payloads[0]), receipts))
  }

  /** One payload: what it may not be, or what it leaves. */
  lemma PayloadMeans(codec: Codec, payload: seq<byte>, frames: nat, receipts: Receipts, pos: nat)
    ensures var r := ApplyPayload(codec, payload, frames, receipts, pos);
            && (codec.decode(payload).None? <==> r == Failure(BadPayload(pos)))
            && (codec.decode(payload).Some? && frames == 0 && !codec.decode(payload).value.reset <==> r == Failure(NoSnapshot))
            && (r.Success? <==> codec.decode(payload).Some? && Acceptable(codec.decode(payload).value) && (frames == 0 ==> codec.decode(payload).value.reset))
            && (r.Success? ==> r.value == JournalLaws.After(DeltaOf(codec, payload), receipts))
  {
    hide ApplyDelta, Acceptable;
    if codec.decode(payload).Some? {
      AppliesWhen(codec.decode(payload).value, receipts, pos);
      NoOtherErrors(codec.decode(payload).value, receipts, pos);
    }
  }

  lemma NoOtherErrors(delta: Delta, receipts: Receipts, pos: nat)
    ensures ApplyDelta(delta, receipts, pos) != Failure(BadPayload(pos)) && ApplyDelta(delta, receipts, pos) != Failure(NoSnapshot)
  {
    hide ApplyChanges, IsTxid, Lower, Again, Fine;
    RefusedForFirstBad(delta.changes, delta.reset, if delta.reset then map[] else receipts, {}, pos);
    var r := ApplyDelta(delta, receipts, pos);
    if r.Failure? {
      var i: nat :| FirstBad(delta.changes, delta.reset, {}, i, pos, r.error);
    }
  }

  lemma {:induction false} FoldMeans(codec: Codec, payloads: seq<seq<byte>>, frames: nat, receipts: Receipts, pos: nat)
    ensures var r := Fold(codec, payloads, frames, receipts, pos);
            && (r.Success? <==> (forall i :: 0 <= i < |payloads| ==> codec.decode(payloads[i]).Some? && Acceptable(codec.decode(payloads[i]).value))
                                && (frames == 0 && payloads != [] ==> codec.decode(payloads[0]).value.reset))
            && (r.Success? ==> r.value == Left(codec, payloads, receipts))
    decreases |payloads|
  {
    hide ApplyPayload, Acceptable;
    if payloads != [] {
      PayloadMeans(codec, payloads[0], frames, receipts, pos);
      var later := payloads[1..];
      var first := ApplyPayload(codec, payloads[0], frames, receipts, pos);
      assert forall i :: 0 <= i < |later| ==> later[i] == payloads[i + 1];
      if first.Success? {
        FoldMeans(codec, later, frames + 1, first.value, pos + |payloads[0]| + HEADER_BYTES + DIGEST_BYTES);
      }
    }
  }

  /**
    A journal is read exactly when it is the magic, at least one sealed frame, the first a
    snapshot and all of them acceptable, and an incomplete tail; it holds what they leave.
   */
  lemma ReadExactlyWhen(codec: Codec, bytes: seq<byte>, m: Receipts)
    requires codec.Valid()
    ensures Parse(codec, bytes) == Success(m) <==>
            exists payloads, tail :: IsSplit(codec, bytes, payloads, tail) && payloads != [] && Good(codec, payloads) && Left(codec, payloads, map[]) == m
  {
    hide Parse, IsSplit, Fold, Left, Acceptable;
    AcceptsExactlySplits(codec, bytes, m);
    if Parse(codec, bytes) == Success(m) {
      var payloads, tail :| IsSplit(codec, bytes, payloads, tail) && payloads != [] && Fold(codec, payloads, 0, map[], |MAGIC|) == Success(m);
      FoldMeans(codec, payloads, 0, map[], |MAGIC|);
      assert Good(codec, payloads) && Left(codec, payloads, map[]) == m;
    }
    if exists payloads, tail :: IsSplit(codec, bytes, payloads, tail) && payloads != [] && Good(codec, payloads) && Left(codec, payloads, map[]) == m {
      var payloads, tail :| IsSplit(codec, bytes, payloads, tail) && payloads != [] && Good(codec, payloads) && Left(codec, payloads, map[]) == m;
      FoldMeans(codec, payloads, 0, map[], |MAGIC|);
    }
  }

  /** The tail of a journal in bytes: no whole header, or a sound length that announces more than there is. */
  lemma TailByBytes(tail: seq<byte>)
    ensures IncompleteTail(tail) <==>
            |tail| < 16 || (SoundLength(tail) && Number(tail) + 48 < 0x1_0000_0000_0000_0000 && |tail| < Number(tail) + 48)
  {
    hide IncompleteTail, Number, SoundLength;
    var codec := Codec(x => [], x => None, []);
    StopsAtIncompleteTail(codec, tail, 0);
    FrameByBytes(codec, tail, 0);
    hide ReadFrame;
  }
}
