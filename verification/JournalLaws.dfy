/**
  What the journal parser accepts and what it returns (permanode/src/receipts.rs,
  `parse_journal`): exactly magic, whole valid frames and an incomplete tail, and the
  fold of those frames; so a write cut short anywhere loses only its own frame.
 */
module JournalLaws {
  import opened Wrappers
  import opened Journal

  /** The start of a frame that is not all there: no whole header, or less than the header announces. */
  ghost predicate IncompleteTail(tail: seq<byte>) {
    || |tail| < HEADER_BYTES
    || (exists length: nat :: HeaderOfMore(tail, length))
  }

  ghost predicate HeaderOfMore(tail: seq<byte>, length: nat) {
    && length + HEADER_BYTES + DIGEST_BYTES < U64
    && Header(length) <= tail
    && |tail| < length + HEADER_BYTES + DIGEST_BYTES
  }

  /** `bytes` is a journal of these whole frames followed by an incomplete one. */
  ghost predicate IsSplit(codec: Codec, bytes: seq<byte>, payloads: seq<seq<byte>>, tail: seq<byte>) {
    AllFit(payloads) && bytes == MAGIC + Frames(codec, payloads) + tail && IncompleteTail(tail)
  }

  // ---------------------------------------------------------------- one frame

  lemma HeaderReads(length: nat, rest: seq<byte>)
    requires length < U64 && Header(length) <= rest
    ensures FromLe(rest[..8]) == length && FromLe(rest[8..16]) == U64 - 1 - length
  {
    U64IsEightBytes();
    var header := Header(length);
    assert rest[..16] == header;
    assert rest[..8] == header[..8] == ToLe(length, 8);
    assert rest[8..16] == header[8..16] == ToLe(U64 - 1 - length, 8);
    LeRoundTrip(length, 8);
    LeRoundTrip(U64 - 1 - length, 8);
  }

  /** A header that reads as a length and its complement is the header the wallet writes. */
  lemma ReadHeaderIsWritten(rest: seq<byte>)
    requires |rest| >= HEADER_BYTES
    requires FromLe(rest[..8]) + FromLe(rest[8..16]) == U64 - 1
    ensures FromLe(rest[..8]) < U64 && Header(FromLe(rest[..8])) == rest[..HEADER_BYTES]
  {
    hide FromLe, ToLe;
    U64IsEightBytes();
    LeRoundTripBack(rest[..8]);
    LeRoundTripBack(rest[8..16]);
    assert rest[..HEADER_BYTES] == rest[..8] + rest[8..16];
  }

  lemma WrittenFrameReads(codec: Codec, payload: seq<byte>, more: seq<byte>, pos: nat)
    requires codec.Valid() && Fits(payload)
    ensures ReadFrame(codec, Frame(codec, payload) + more, pos) == Complete(payload, |Frame(codec, payload)|)
    ensures |Frame(codec, payload)| == |payload| + HEADER_BYTES + DIGEST_BYTES
  {
    hide FromLe, Header;
    var header := Header(|payload|);
    var digest := codec.hash(codec.domain + MAGIC + header + payload);
    var frame := Frame(codec, payload);
    var rest := frame + more;
    var size := |payload| + HEADER_BYTES + DIGEST_BYTES;
    assert |frame| == size;
    assert rest[..HEADER_BYTES] == header;
    HeaderReads(|payload|, rest);
    assert rest[HEADER_BYTES..size - DIGEST_BYTES] == payload;
    assert rest[size - DIGEST_BYTES..size] == digest;
  }

  lemma ReadFrameIsWritten(codec: Codec, rest: seq<byte>, pos: nat)
    requires ReadFrame(codec, rest, pos).Complete?
    ensures var r := ReadFrame(codec, rest, pos);
            Fits(r.payload) && Frame(codec, r.payload) == rest[..r.size]
  {
    hide FromLe, Header;
    ReadHeaderIsWritten(rest);
    var r := ReadFrame(codec, rest, pos);
    assert rest[..r.size] == rest[..HEADER_BYTES] + r.payload + rest[r.size - DIGEST_BYTES..r.size];
  }

  /** The parser stops quietly at exactly the incomplete tails. */
  lemma StopsAtIncompleteTail(codec: Codec, tail: seq<byte>, pos: nat)
    ensures ReadFrame(codec, tail, pos).Incomplete? <==> IncompleteTail(tail)
  {
    hide FromLe, Header;
    if |tail| >= HEADER_BYTES {
      if ReadFrame(codec, tail, pos).Incomplete? {
        ReadHeaderIsWritten(tail);
        assert HeaderOfMore(tail, FromLe(tail[..8]));
      }
      if IncompleteTail(tail) {
        var length: nat :| HeaderOfMore(tail, length);
        HeaderReads(length, tail);
      }
    }
  }

  // ---------------------------------------------------------------- the whole journal

  lemma {:induction false} WholeFramesFold(codec: Codec, payloads: seq<seq<byte>>, tail: seq<byte>, frames: nat, receipts: Receipts, pos: nat)
    requires codec.Valid() && AllFit(payloads) && IncompleteTail(tail)
    ensures ParseFrom(codec, Frames(codec, payloads) + tail, frames, receipts, pos)
         == match Fold(codec, payloads, frames, receipts, pos)
            case Failure(e) => Failure(e)
            case Success(m) => Success((m, frames + |payloads|))
    decreases |payloads|
  {
    hide ReadFrame, ApplyPayload, Frame, IncompleteTail;
    if payloads == [] {
      assert Frames(codec, payloads) + tail == tail;
      StopsAtIncompleteTail(codec, tail, pos);
    } else {
      var first := Frame(codec, payloads[0]);
      var more := Frames(codec, payloads[1..]) + tail;
      assert Frames(codec, payloads) + tail == first + more;
      WrittenFrameReads(codec, payloads[0], more, pos);
      assert (first + more)[|first|..] == more;
      var applied := ApplyPayload(codec, payloads[0], frames, receipts, pos);
      if applied.Success? {
        WholeFramesFold(codec, payloads[1..], tail, frames + 1, applied.value, pos + |first|);
      }
    }
  }

  /** Every split decides the outcome: the fold of its frames, or that there is none. */
  lemma SplitDecides(codec: Codec, bytes: seq<byte>, payloads: seq<seq<byte>>, tail: seq<byte>)
    requires codec.Valid() && IsSplit(codec, bytes, payloads, tail)
    ensures Parse(codec, bytes) == if payloads == [] then Failure(NoFrame) else Fold(codec, payloads, 0, map[], |MAGIC|)
  {
    hide ReadFrame, Fold, Frames, ParseFrom, IncompleteTail;
    assert bytes == MAGIC + (Frames(codec, payloads) + tail);
    assert bytes[|MAGIC|..] == Frames(codec, payloads) + tail;
    WholeFramesFold(codec, payloads, tail, 0, map[], |MAGIC|);
    if payloads == [] { EmptyFold(codec); }
  }

  lemma EmptyFold(codec: Codec)
    ensures Fold(codec, [], 0, map[], |MAGIC|) == Success(map[])
  {
  }

  lemma {:induction false} AcceptedRestSplits(codec: Codec, rest: seq<byte>, frames: nat, receipts: Receipts, pos: nat)
    returns (payloads: seq<seq<byte>>, tail: seq<byte>)
    requires ParseFrom(codec, rest, frames, receipts, pos).Success?
    ensures AllFit(payloads) && rest == Frames(codec, payloads) + tail && IncompleteTail(tail)
    decreases |rest|
  {
    hide ReadFrame, ApplyPayload, Frame, IncompleteTail;
    var read := ReadFrame(codec, rest, pos);
    if read.Incomplete? {
      payloads, tail := [], rest;
      StopsAtIncompleteTail(codec, rest, pos);
    } else {
      ReadFrameIsWritten(codec, rest, pos);
      var applied := ApplyPayload(codec, read.payload, frames, receipts, pos);
      var later;
      later, tail := AcceptedRestSplits(codec, rest[read.size..], frames + 1, applied.value, pos + read.size);
      payloads := [read.payload] + later;
      assert payloads[1..] == later;
      assert rest == rest[..read.size] + rest[read.size..];
    }
  }

  /**
    The parser accepts exactly magic, at least one valid frame and an incomplete tail,
    and returns the fold of those frames.
   */
  lemma AcceptsExactlySplits(codec: Codec, bytes: seq<byte>, m: Receipts)
    requires codec.Valid()
    ensures Parse(codec, bytes) == Success(m) <==>
            exists payloads, tail :: IsSplit(codec, bytes, payloads, tail) && payloads != []
                                     && Fold(codec, payloads, 0, map[], |MAGIC|) == Success(m)
  {
    hide ReadFrame, Fold, Frames, ParseFrom, IncompleteTail;
    if Parse(codec, bytes) == Success(m) {
      var payloads, tail := AcceptedRestSplits(codec, bytes[|MAGIC|..], 0, map[], |MAGIC|);
      assert bytes == MAGIC + bytes[|MAGIC|..];
      assert bytes == MAGIC + Frames(codec, payloads) + tail;
      assert IsSplit(codec, bytes, payloads, tail);
      SplitDecides(codec, bytes, payloads, tail);
    }
    if exists payloads, tail :: IsSplit(codec, bytes, payloads, tail) && payloads != [] && Fold(codec, payloads, 0, map[], |MAGIC|) == Success(m) {
      var payloads, tail :| IsSplit(codec, bytes, payloads, tail) && payloads != [] && Fold(codec, payloads, 0, map[], |MAGIC|) == Success(m);
      SplitDecides(codec, bytes, payloads, tail);
    }
  }

  lemma {:induction false} FramesSplitUniquely(codec: Codec, p: seq<seq<byte>>, s: seq<byte>, q: seq<seq<byte>>, t: seq<byte>)
    requires codec.Valid() && AllFit(p) && AllFit(q)
    requires IncompleteTail(s) && IncompleteTail(t)
    requires Frames(codec, p) + s == Frames(codec, q) + t
    ensures p == q && s == t
    decreases |p| + |q|
  {
    hide ReadFrame, Frame, IncompleteTail;
    var rest := Frames(codec, p) + s;
    if p == [] || q == [] {
      StopsAtIncompleteTail(codec, s, 0);
      StopsAtIncompleteTail(codec, t, 0);
      if p != [] {
        assert rest == Frame(codec, p[0]) + (Frames(codec, p[1..]) + s) && rest == t;
        WrittenFrameReads(codec, p[0], Frames(codec, p[1..]) + s, 0);
        assert false;
      } else if q != [] {
        assert rest == Frame(codec, q[0]) + (Frames(codec, q[1..]) + t) && rest == s;
        WrittenFrameReads(codec, q[0], Frames(codec, q[1..]) + t, 0);
        assert false;
      } else {
        assert rest == s && rest == t;
      }
    } else {
      var a, b := Frames(codec, p[1..]) + s, Frames(codec, q[1..]) + t;
      assert rest == Frame(codec, p[0]) + a && rest == Frame(codec, q[0]) + b;
      WrittenFrameReads(codec, p[0], a, 0);
      WrittenFrameReads(codec, q[0], b, 0);
      assert a == rest[|Frame(codec, p[0])|..] && b == rest[|Frame(codec, q[0])|..];
      FramesSplitUniquely(codec, p[1..], s, q[1..], t);
      assert p == [p[0]] + p[1..] && q == [q[0]] + q[1..];
    }
  }

  /** No byte string splits in two ways. */
  lemma SplitIsUnique(codec: Codec, bytes: seq<byte>, p: seq<seq<byte>>, s: seq<byte>, q: seq<seq<byte>>, t: seq<byte>)
    requires codec.Valid()
    requires IsSplit(codec, bytes, p, s) && IsSplit(codec, bytes, q, t)
    ensures p == q && s == t
  {
    hide Frames, IncompleteTail;
    assert bytes == MAGIC + (Frames(codec, p) + s) && bytes == MAGIC + (Frames(codec, q) + t);
    assert bytes[|MAGIC|..] == Frames(codec, p) + s && bytes[|MAGIC|..] == Frames(codec, q) + t;
    FramesSplitUniquely(codec, p, s, q, t);
  }

  // ---------------------------------------------------------------- what a list of deltas means

  ghost function Additions(changes: seq<(string, Option<string>)>): Receipts {
    if changes == [] then map[] else
      var (key, value) := changes[0];
      if value.Some? then Additions(changes[1..])[key := value.value] else Additions(changes[1..])
  }

  ghost function Deletions(changes: seq<(string, Option<string>)>): set<string> {
    set i | 0 <= i < |changes| && changes[i].1.None? :: changes[i].0
  }

  /** What a delta means: a snapshot replaces everything, a later delta adds, overwrites and deletes. */
  ghost function After(delta: Delta, receipts: Receipts): Receipts {
    (if delta.reset then map[] else receipts) - Deletions(delta.changes) + Additions(delta.changes)
  }

  ghost function AfterAll(deltas: seq<Delta>): Receipts {
    if deltas == [] then map[] else After(deltas[|deltas| - 1], AfterAll(deltas[..|deltas| - 1]))
  }

  /** A delta as the wallet writes it: distinct lower-case txids, and no deletion in a snapshot. */
  ghost predicate WellFormed(delta: Delta) {
    && (forall i :: 0 <= i < |delta.changes| ==> IsTxid(delta.changes[i].0) && Lower(delta.changes[i].0) == delta.changes[i].0)
    && (forall i, j :: 0 <= i < j < |delta.changes| ==> delta.changes[i].0 != delta.changes[j].0)
    && (delta.reset ==> forall i :: 0 <= i < |delta.changes| ==> delta.changes[i].1.Some?)
  }

  lemma {:induction false} AdditionKeys(changes: seq<(string, Option<string>)>)
    ensures forall k :: k in Additions(changes) ==> exists i :: 0 <= i < |changes| && changes[i].0 == k && changes[i].1.Some?
  {
    if changes != [] {
      AdditionKeys(changes[1..]);
      forall k | k in Additions(changes)
        ensures exists i :: 0 <= i < |changes| && changes[i].0 == k && changes[i].1.Some?
      {
        if k == changes[0].0 && changes[0].1.Some? {
        } else {
          assert k in Additions(changes[1..]);
          var i :| 0 <= i < |changes[1..]| && changes[1..][i].0 == k && changes[1..][i].1.Some?;
          assert changes[i + 1].0 == k;
        }
      }
    }
  }

  lemma {:induction false} ChangesMean(changes: seq<(string, Option<string>)>, reset: bool, receipts: Receipts, seen: set<string>, pos: nat)
    requires WellFormed(Delta(reset, changes))
    requires forall i :: 0 <= i < |changes| ==> changes[i].0 !in seen
    ensures ApplyChanges(changes, reset, receipts, seen, pos) == Success(receipts - Deletions(changes) + Additions(changes))
    decreases |changes|
  {
    hide Lower, IsTxid;
    if changes == [] {
      assert receipts - Deletions(changes) + Additions(changes) == receipts;
    } else {
      var (key, value) := changes[0];
      var later := changes[1..];
      var next := if value.Some? then receipts[key := value.value] else receipts - {key};
      assert forall i :: 0 <= i < |later| ==> later[i] == changes[i + 1];
      ChangesMean(later, reset, next, seen + {key}, pos);
      AdditionKeys(later);
      assert key !in Additions(later);
      assert key !in Deletions(later);
      FirstChangeFolds(changes, receipts);
    }
  }

  lemma FirstChangeFolds(changes: seq<(string, Option<string>)>, receipts: Receipts)
    requires changes != []
    requires changes[0].0 !in Additions(changes[1..]) && changes[0].0 !in Deletions(changes[1..])
    ensures var (key, value) := changes[0];
            (if value.Some? then receipts[key := value.value] else receipts - {key}) - Deletions(changes[1..]) + Additions(changes[1..])
            == receipts - Deletions(changes) + Additions(changes)
  {
    DeletionsOfFirst(changes);
    hide Deletions;
  }

  lemma DeletionsOfFirst(changes: seq<(string, Option<string>)>)
    requires changes != []
    ensures Deletions(changes) == Deletions(changes[1..]) + (if changes[0].1.None? then {changes[0].0} else {})
  {
    var later := changes[1..];
    forall k | k in Deletions(changes)
      ensures k in Deletions(later) + (if changes[0].1.None? then {changes[0].0} else {})
    {
      var i :| 0 <= i < |changes| && changes[i].1.None? && changes[i].0 == k;
      if i > 0 { assert later[i - 1] == changes[i]; }
    }
    forall k | k in Deletions(later)
      ensures k in Deletions(changes)
    {
      var i :| 0 <= i < |later| && later[i].1.None? && later[i].0 == k;
      assert changes[i + 1].1.None? && changes[i + 1].0 == k;
    }
  }

  // ---------------------------------------------------------------- crash tolerance

  /** The wallet's journal of these deltas: the first is a snapshot, each payload decodes to its delta. */
  ghost predicate Writes(codec: Codec, payloads: seq<seq<byte>>, deltas: seq<Delta>) {
    && |payloads| == |deltas| && AllFit(payloads)
    && (forall i :: 0 <= i < |deltas| ==> codec.decode(payloads[i]) == Some(deltas[i]) && WellFormed(deltas[i]))
    && (deltas != [] ==> deltas[0].reset)
  }

  lemma {:induction false} FoldAppends(codec: Codec, payloads: seq<seq<byte>>, last: seq<byte>, frames: nat, receipts: Receipts, pos: nat)
    returns (end: nat)
    requires Fold(codec, payloads, frames, receipts, pos).Success?
    ensures Fold(codec, payloads + [last], frames, receipts, pos)
         == ApplyPayload(codec, last, frames + |payloads|, Fold(codec, payloads, frames, receipts, pos).value, end)
    decreases |payloads|
  {
    hide ApplyPayload;
    if payloads == [] {
      end := pos;
      assert payloads + [last] == [last];
      assert [last][1..] == [];
    } else {
      var m := ApplyPayload(codec, payloads[0], frames, receipts, pos).value;
      end := FoldAppends(codec, payloads[1..], last, frames + 1, m, pos + |payloads[0]| + HEADER_BYTES + DIGEST_BYTES);
      assert (payloads + [last])[1..] == payloads[1..] + [last];
    }
  }

  lemma {:induction false} WrittenDeltasFold(codec: Codec, payloads: seq<seq<byte>>, deltas: seq<Delta>)
    requires Writes(codec, payloads, deltas)
    ensures Fold(codec, payloads, 0, map[], |MAGIC|) == Success(AfterAll(deltas))
    decreases |deltas|
  {
    hide ApplyChanges, WellFormed, After;
    if deltas == [] {
      EmptyFold(codec);
    } else {
      var n := |deltas| - 1;
      assert Writes(codec, payloads[..n], deltas[..n]);
      WrittenDeltasFold(codec, payloads[..n], deltas[..n]);
      var end := FoldAppends(codec, payloads[..n], payloads[n], 0, map[], |MAGIC|);
      assert payloads == payloads[..n] + [payloads[n]];
      DeltaMeans(deltas[n], AfterAll(deltas[..n]), end);
    }
  }

  lemma DeltaMeans(delta: Delta, receipts: Receipts, pos: nat)
    requires WellFormed(delta)
    ensures ApplyDelta(delta, receipts, pos) == Success(After(delta, receipts))
  {
    ChangesMean(delta.changes, delta.reset, if delta.reset then map[] else receipts, {}, pos);
  }

  /** The bytes of the first `k` frames. */
  ghost function BytesOf(codec: Codec, payloads: seq<seq<byte>>, k: nat): nat
    requires AllFit(payloads) && k <= |payloads|
  {
    |MAGIC| + |Frames(codec, payloads[..k])|
  }

  lemma {:induction false} FramesConcat(codec: Codec, a: seq<seq<byte>>, b: seq<seq<byte>>)
    requires AllFit(a) && AllFit(b)
    ensures AllFit(a + b) && Frames(codec, a + b) == Frames(codec, a) + Frames(codec, b)
  {
    hide Frame;
    if a == [] {
      assert a + b == b;
    } else {
      FramesConcat(codec, a[1..], b);
      assert (a + b)[1..] == a[1..] + b;
    }
  }

  /** A proper prefix of a written frame is an incomplete tail. */
  lemma CutFrameIsIncomplete(codec: Codec, payload: seq<byte>, n: nat)
    requires codec.Valid() && Fits(payload)
    requires n < |payload| + HEADER_BYTES + DIGEST_BYTES
    ensures |Frame(codec, payload)| == |payload| + HEADER_BYTES + DIGEST_BYTES
    ensures IncompleteTail(Frame(codec, payload)[..n])
  {
    hide Header;
    var frame := Frame(codec, payload);
    if n >= HEADER_BYTES {
      assert frame[..n][..HEADER_BYTES] == Header(|payload|);
      assert HeaderOfMore(frame[..n], |payload|);
    }
  }

  /** The bytes after the last whole frame before the cut are an incomplete tail. */
  lemma CutLeavesIncompleteTail(codec: Codec, rest: seq<seq<byte>>, n: nat)
    requires codec.Valid() && AllFit(rest)
    requires n <= |Frames(codec, rest)|
    requires rest != [] ==> n < |Frame(codec, rest[0])|
    ensures IncompleteTail(Frames(codec, rest)[..n])
  {
    hide Frame, IncompleteTail;
    if rest == [] {
      EmptyTail();
    } else {
      FrameSize(codec, rest[0]);
      CutFrameIsIncomplete(codec, rest[0], n);
      assert Frames(codec, rest)[..n] == Frame(codec, rest[0])[..n];
    }
  }

  lemma BytesOfNext(codec: Codec, payloads: seq<seq<byte>>, k: nat)
    requires AllFit(payloads) && k < |payloads|
    ensures BytesOf(codec, payloads, k + 1) == BytesOf(codec, payloads, k) + |Frame(codec, payloads[k])|
  {
    hide Frame;
    var next: seq<seq<byte>> := [payloads[k]];
    assert payloads[..k + 1] == payloads[..k] + next;
    FramesConcat(codec, payloads[..k], next);
    OneFrame(codec, payloads[k]);
  }

  /** A cut journal splits into the frames complete before the cut and an incomplete tail. */
  lemma CutJournalSplits(codec: Codec, payloads: seq<seq<byte>>, cut: nat, k: nat)
    requires codec.Valid() && AllFit(payloads)
    requires k <= |payloads|
    requires BytesOf(codec, payloads, k) <= cut <= BytesOf(codec, payloads, |payloads|)
    requires k < |payloads| ==> cut < BytesOf(codec, payloads, k + 1)
    ensures payloads[..|payloads|] == payloads
    ensures cut <= |MAGIC + Frames(codec, payloads)|
    ensures var tail := Frames(codec, payloads[k..]);
            var n := cut - BytesOf(codec, payloads, k);
            n <= |tail| && IsSplit(codec, (MAGIC + Frames(codec, payloads))[..cut], payloads[..k], tail[..n])
  {
    hide Frame, IncompleteTail, Frames;
    var whole, rest := payloads[..k], payloads[k..];
    assert payloads == whole + rest && payloads[..|payloads|] == payloads;
    FramesConcat(codec, whole, rest);
    var n := cut - BytesOf(codec, payloads, k);
    if k < |payloads| { BytesOfNext(codec, payloads, k); }
    CutLeavesIncompleteTail(codec, rest, n);
    var tail := Frames(codec, rest)[..n];
    assert (MAGIC + Frames(codec, payloads))[..cut] == MAGIC + Frames(codec, whole) + tail;
  }

  /**
    Crash tolerance: for every written journal and every cut point at or after its first
    whole frame, the parser returns exactly what the frames complete before the cut mean.
   */
  lemma CutJournalParses(codec: Codec, payloads: seq<seq<byte>>, deltas: seq<Delta>, cut: nat, k: nat)
    requires codec.Valid() && Writes(codec, payloads, deltas)
    requires 1 <= k <= |payloads|
    requires BytesOf(codec, payloads, k) <= cut <= BytesOf(codec, payloads, |payloads|)
    requires k < |payloads| ==> cut < BytesOf(codec, payloads, k + 1)
    ensures cut <= |MAGIC + Frames(codec, payloads)|
    ensures Parse(codec, (MAGIC + Frames(codec, payloads))[..cut]) == Success(AfterAll(deltas[..k]))
  {
    hide Frame, Frames, IncompleteTail, Fold, WellFormed, AfterAll, Parse, IsSplit, BytesOf;
    CutJournalSplits(codec, payloads, cut, k);
    var tail := Frames(codec, payloads[k..])[..cut - BytesOf(codec, payloads, k)];
    SplitDecides(codec, (MAGIC + Frames(codec, payloads))[..cut], payloads[..k], tail);
    assert Writes(codec, payloads[..k], deltas[..k]);
    WrittenDeltasFold(codec, payloads[..k], deltas[..k]);
  }

  /** How many of the first `k` frames are whole before the cut. */
  ghost function WholeBefore(codec: Codec, payloads: seq<seq<byte>>, cut: nat, k: nat): (n: nat)
    requires AllFit(payloads) && k <= |payloads|
    ensures n <= k
  {
    if k == 0 || BytesOf(codec, payloads, k) <= cut then k else WholeBefore(codec, payloads, cut, k - 1)
  }

  lemma {:induction false} WholeBeforeFits(codec: Codec, payloads: seq<seq<byte>>, cut: nat, k: nat)
    requires AllFit(payloads) && k <= |payloads| && |MAGIC| <= cut
    requires k < |payloads| ==> cut < BytesOf(codec, payloads, k + 1)
    ensures var n := WholeBefore(codec, payloads, cut, k);
            n <= k && BytesOf(codec, payloads, n) <= cut && (n < |payloads| ==> cut < BytesOf(codec, payloads, n + 1))
  {
    hide Frame;
    if k == 0 {
      NoFrames(codec, payloads);
    } else if BytesOf(codec, payloads, k) > cut {
      WholeBeforeFits(codec, payloads, cut, k - 1);
    }
  }

  lemma NoFrames(codec: Codec, payloads: seq<seq<byte>>)
    requires AllFit(payloads)
    ensures BytesOf(codec, payloads, 0) == |MAGIC|
  {
  }

  /**
    Every cut of a written journal: before the end of the magic it is no journal, before
    the end of the first frame there is none, and from there on the parser returns exactly
    what the frames whole before the cut mean.
   */
  lemma EveryCutDecides(codec: Codec, payloads: seq<seq<byte>>, deltas: seq<Delta>, cut: nat)
    requires codec.Valid() && Writes(codec, payloads, deltas) && cut <= |MAGIC + Frames(codec, payloads)|
    ensures var k := WholeBefore(codec, payloads, cut, |payloads|);
            Parse(codec, (MAGIC + Frames(codec, payloads))[..cut]) ==
            if cut < |MAGIC| then Failure(NotAJournal) else if k == 0 then Failure(NoFrame) else Success(AfterAll(deltas[..k]))
  {
    hide Frame, Frames, IncompleteTail, Fold, WellFormed, AfterAll, IsSplit, BytesOf, ParseFrom, WholeBefore;
    var bytes := (MAGIC + Frames(codec, payloads))[..cut];
    if cut >= |MAGIC| {
      var k := WholeBefore(codec, payloads, cut, |payloads|);
      WholeBeforeFits(codec, payloads, cut, |payloads|);
      AllBytes(codec, payloads);
      hide Parse;
      if k == 0 {
        CutJournalSplits(codec, payloads, cut, 0);
        SplitDecides(codec, bytes, payloads[..0], Frames(codec, payloads[0..])[..cut - BytesOf(codec, payloads, 0)]);
      } else {
        CutJournalParses(codec, payloads, deltas, cut, k);
      }
    }
  }

  lemma AllBytes(codec: Codec, payloads: seq<seq<byte>>)
    requires AllFit(payloads)
    ensures BytesOf(codec, payloads, |payloads|) == |MAGIC + Frames(codec, payloads)|
  {
    assert payloads[..|payloads|] == payloads;
  }

  lemma OneFrame(codec: Codec, payload: seq<byte>)
    requires Fits(payload)
    ensures Frames(codec, [payload]) == Frame(codec, payload)
  {
    var one: seq<seq<byte>> := [payload];
    assert one[1..] == [];
  }

  lemma EmptyTail()
    ensures IncompleteTail([])
  {
  }

  lemma FrameSize(codec: Codec, payload: seq<byte>)
    requires codec.Valid() && Fits(payload)
    ensures |Frame(codec, payload)| == |payload| + HEADER_BYTES + DIGEST_BYTES
  {
  }
}
