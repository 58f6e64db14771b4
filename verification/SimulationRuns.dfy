/**
  Whole runs of the picture against the node (permanode/src/indexer.rs): every transaction
  of the indexer - blocks recorded with or without their bodies, replaced, recovered late
  and pruned, header batches - segments swept, and a node that mines and reorganises, in
  any order. A segment shows exactly the node's coins at every height from the last sweep,
  fork or body that came too late on.
 */
module SimulationRuns {
  import opened Wrappers
  import opened Sums
  import opened Tables
  import opened View
  import opened Sweep
  import opened SweepLaws
  import opened Figures
  import opened BodyLaws
  import opened StatusLog
  import opened Runs
  import opened RunLaws
  import opened Chains
  import opened Simulation
  import opened PictureHistory
  import opened Reorg
  import opened PictureRows

  // ---------------------------------------------------------------- events

  /** A transaction of the indexer, a segment swept, flags cleared, the archive level with one more block of the node's, the node leaving blocks. */
  datatype Event =
    | Commit(step: Step)
    | Cleared
    | Swept(segment: nat, found: seq<SlotRead>, now: nat)
    | Settle(block: BlockKey)
    | Unwind(fork: nat)

  /**
    The archive and the part of the node's chain it is level with: from its start to the
    height below which all its canonical blocks are the node's. For every segment, the
    height from which on its picture is exact.
   */
  datatype Moment = Moment(t: Tables, first: nat, lowest: nat, chain: seq<Mined>, since: Since)

  /** Transactions are those the blocks' hashes stand for. */
  ghost predicate Genuine(t: Tables, step: Step, bodyOf: Reorg.Bodies) {
    match step
    case Ingest(offer, now) => OfferGenuine(offer, bodyOf)
    case Recheck(height, seen, offer, orphanedAt, now) => offer.Some? ==> OfferGenuine(offer.value, bodyOf)
    case RecoverGap(height, body, source, now) => CanonicalAt(t.log, height).Some? ==> body.txs == bodyOf(CanonicalAt(t.log, height).value).txs
    case HeaderBatch(headers, expected, low, now) => true
    case Prune(b) => true
    case Elsewhere(after) => false
  }

  ghost predicate OfferGenuine(offer: Offer, bodyOf: Reorg.Bodies) {
    offer.body.Some? ==> offer.body.value.txs == bodyOf(KeyOf(offer.header)).txs
  }

  /** Where the archive is level with the node, the node serves the blocks it has. */
  ghost predicate ServesChain(s: Moment, origin: Origin, step: Step) {
    match step
    case Ingest(offer, now) => offer.header.height > Tip(origin, s.chain)
    case Recheck(height, seen, offer, orphanedAt, now) =>
      height > origin.height && (height <= Tip(origin, s.chain) ==> seen == s.chain[height - origin.height - 1].key.hash)
    case RecoverGap(height, body, source, now) => height > origin.height
    case _ => true
  }

  /** The node's blocks are valid, and a sweep reads the node's state while nothing is recorded beyond it. */
  ghost predicate Happens(s: Moment, origin: Origin, bodyOf: Reorg.Bodies, size: nat, e: Event) {
    match e
    case Commit(step) => Enabled(s.t, s.first, s.lowest, step) && Genuine(s.t, step, bodyOf) && ServesChain(s, origin, step)
    case Cleared => true
    case Swept(segment, found, now) =>
      ReadsNode(found, NodeAt(origin, s.chain), segment * size, (segment + 1) * size) && NothingAbove(ViewOf(s.t), Tip(origin, s.chain))
    case Settle(b) => IsCanonical(s.t, b) && ChainOk(origin, s.chain + [Mined(b, bodyOf(b))])
    case Unwind(fork) => fork <= |s.chain|
  }

  // ---------------------------------------------------------------- what stays exact, and what comes next

  ghost predicate BodyMissing(t: Tables, height: nat) {
    CanonicalAt(t.log, height).Some? && Uncaptured(t, CanonicalAt(t.log, height).value)
  }

  /** The step brings a block the archive is level with the rows it lacked. */
  ghost predicate BringsRows(s: Moment, origin: Origin, step: Step) {
    && step.RecoverGap? && origin.height < step.height <= Tip(origin, s.chain) && BodyMissing(s.t, step.height)
    && NoRows(s.t, CanonicalAt(s.t.log, step.height).value)
  }

  /** A late body must have its outputs spent by then, a pruned one must not be needed any more; other steps leave the chain's record alone. */
  ghost function SinceCommitted(s: Moment, origin: Origin, size: nat, step: Step): Since
    requires size > 0
  {
    var tip := Tip(origin, s.chain);
    if BringsRows(s, origin, step) then
      Late(s.since, tip, (segment: nat, g: nat) => OutputsSpent(Record(Apply(s.t, step), tip), s.chain[step.height - origin.height - 1], segment, size, g))
    else if step.Prune? then
      Late(s.since, tip, (segment: nat, g: nat) => PrunedShown(Record(s.t, tip), s.t.slots, step.block, segment, size, g))
    else s.since
  }

  ghost function SinceCleared(s: Moment, origin: Origin, size: nat): Since
    requires size > 0
  {
    var tip := Tip(origin, s.chain);
    Late(s.since, tip, (segment: nat, g: nat) => ClearedSpent(Record(s.t, tip), Record(ClearFlags(s.t), tip), segment, size, g))
  }

  /** A block on record without its body must have moved no coin there; one that was on record before must have its flagged outputs spent. */
  ghost function SinceSettled(s: Moment, origin: Origin, bodyOf: Reorg.Bodies, size: nat, b: BlockKey): Since
    requires size > 0
  {
    var tip := Tip(origin, s.chain);
    var next := s.chain + [Mined(b, bodyOf(b))];
    if NoRows(s.t, b) then Keep(s.since, tip, tip + 1, (segment: nat) => SameCoins(NodeAt(origin, s.chain), NodeAt(origin, next), segment, size))
    else Keep(s.since, tip, tip + 1, (segment: nat) => FlaggedSpent(Record(s.t, tip + 1), b, segment, size, tip + 1))
  }

  ghost function SinceUnwound(s: Moment, origin: Origin, size: nat, f: nat): Since
    requires size > 0 && f <= |s.chain|
  {
    var tip := Tip(origin, s.chain);
    Unwound(s.since, tip, origin.height + f, (segment: nat) => ShownAtFork(Record(s.t, tip), s.t.slots, origin, s.chain, f, segment, size))
  }

  function Refreshed(since: Since, tip: nat, segment: nat): Since {
    (other: nat) => if other == segment then tip else since(other)
  }

  ghost function NextMoment(s: Moment, origin: Origin, bodyOf: Reorg.Bodies, size: nat, e: Event): Moment
    requires size > 0
  {
    var tip := Tip(origin, s.chain);
    match e
    case Commit(step) =>
      Moment(Apply(s.t, step), NextFirst(s.t, s.first, step), NextLowest(s.t, s.lowest, step), s.chain, SinceCommitted(s, origin, size, step))
    case Cleared => s.(t := ClearFlags(s.t), since := SinceCleared(s, origin, size))
    case Swept(segment, found, now) =>
      s.(t := SweepSegment(s.t, segment, size, found, tip, now), since := Refreshed(s.since, tip, segment))
    case Settle(b) =>
      s.(chain := s.chain + [Mined(b, bodyOf(b))], since := SinceSettled(s, origin, bodyOf, size, b))
    case Unwind(f) =>
      if f <= |s.chain| then s.(chain := s.chain[..f], since := SinceUnwound(s, origin, size, f)) else s
  }

  // ---------------------------------------------------------------- the world

  /** The archive's canonical blocks, and what their hashes stand for, are the chain's. */
  ghost predicate OnRecord(t: Tables, bodyOf: Reorg.Bodies, chain: seq<Mined>) {
    forall j :: 0 <= j < |chain| ==> chain[j].body == bodyOf(chain[j].key) && IsCanonical(t, chain[j].key)
  }

  ghost predicate Pictures(v: View, slots: map<nat, SlotRow>, origin: Origin, chain: seq<Mined>, size: nat, since: Since)
    requires size > 0
  {
    && Faithful(v, origin, chain) && SegmentsAgree(slots, size)
    && TrueSlots(slots, origin, chain, size, since) && ExactSince(v, slots, origin, chain, size, since)
  }

  ghost predicate World(s: Moment, origin: Origin, bodyOf: Reorg.Bodies, size: nat)
    requires size > 0
  {
    && Inv(s.t, s.first, s.lowest) && Held(s.t, bodyOf) && ChainOk(origin, s.chain) && OnRecord(s.t, bodyOf, s.chain)
    && Pictures(Record(s.t, Tip(origin, s.chain)), s.t.slots, origin, s.chain, size, s.since)
  }

  lemma KeepSlots(slots: map<nat, SlotRow>, origin: Origin, chain: seq<Mined>, next: seq<Mined>, size: nat, since: Since, after: Since)
    requires size > 0 && chain <= next && TrueSlots(slots, origin, chain, size, since)
    requires forall segment: nat :: after(segment) <= Tip(origin, next) ==> origin.height <= since(segment) <= Tip(origin, chain) && since(segment) <= after(segment)
    ensures TrueSlots(slots, origin, next, size, after)
  {
    hide EverCoins;
    forall s: nat | s in slots && origin.height <= after(s / size) <= Tip(origin, next)
      ensures TrueSlot(slots, origin, next, s, after(s / size))
    {
      var from := since(s / size);
      assert TrueSlot(slots, origin, chain, s, from);
      EverGrows(origin, ChainTo(origin, next, after(s / size)), from - origin.height);
      assert ChainTo(origin, next, after(s / size))[..from - origin.height] == ChainTo(origin, chain, from);
    }
  }

  /** What is exact from a height on, no lower than before, is known exact from it on. */
  lemma KeepPictures(v: View, w: View, slots: map<nat, SlotRow>, origin: Origin, chain: seq<Mined>, next: seq<Mined>, size: nat, since: Since, after: Since)
    requires size > 0 && Pictures(v, slots, origin, chain, size, since) && chain <= next && Faithful(w, origin, next)
    requires forall segment: nat :: KeptFrom(w, slots, origin, chain, next, segment, size, since, after)
    ensures Pictures(w, slots, origin, next, size, after)
  {
    hide Faithful, ExactFrom, TrueSlots, SegmentsAgree;
    forall segment: nat
      ensures ExactFrom(w, slots, origin, next, segment, size, after(segment))
      ensures after(segment) <= Tip(origin, next) ==> origin.height <= since(segment) <= Tip(origin, chain) && since(segment) <= after(segment)
    {
      assert KeptFrom(w, slots, origin, chain, next, segment, size, since, after);
      assert ExactFrom(v, slots, origin, chain, segment, size, since(segment));
      FromIsAbove(v, slots, origin, chain, segment, size, since(segment));
      if after(segment) > Tip(origin, next) { NothingFrom(w, slots, origin, next, segment, size, after(segment)); }
    }
    KeepSlots(slots, origin, chain, next, size, since, after);
  }

  ghost predicate KeptFrom(w: View, slots: map<nat, SlotRow>, origin: Origin, chain: seq<Mined>, next: seq<Mined>, segment: nat, size: nat, since: Since, after: Since)
    requires size > 0
  {
    after(segment) <= Tip(origin, next) ==>
      && since(segment) <= Tip(origin, chain) && since(segment) <= after(segment)
      && ExactFrom(w, slots, origin, next, segment, size, after(segment))
  }

  lemma FromIsAbove(v: View, slots: map<nat, SlotRow>, origin: Origin, chain: seq<Mined>, segment: nat, size: nat, from: nat)
    requires size > 0 && ExactFrom(v, slots, origin, chain, segment, size, from)
    ensures from >= origin.height
  {
  }

  lemma NothingFrom(v: View, slots: map<nat, SlotRow>, origin: Origin, chain: seq<Mined>, segment: nat, size: nat, from: nat)
    requires size > 0 && from > Tip(origin, chain)
    ensures ExactFrom(v, slots, origin, chain, segment, size, from)
  {
  }

  lemma PicturesParts(v: View, slots: map<nat, SlotRow>, origin: Origin, chain: seq<Mined>, size: nat, since: Since)
    requires size > 0 && Pictures(v, slots, origin, chain, size, since)
    ensures Faithful(v, origin, chain) && SegmentsAgree(slots, size) && TrueSlots(slots, origin, chain, size, since)
    ensures forall segment: nat :: ExactFrom(v, slots, origin, chain, segment, size, since(segment))
  {
    hide Faithful, ExactFrom, TrueSlots, SegmentsAgree;
  }

  // ---------------------------------------------------------------- transactions of the indexer

  lemma ChainStaysOnRecord(t: Tables, u: Tables, bodyOf: Reorg.Bodies, origin: Origin, chain: seq<Mined>)
    requires ChainOk(origin, chain) && OnRecord(t, bodyOf, chain) && SameUpTo(t, u, Tip(origin, chain))
    ensures OnRecord(u, bodyOf, chain)
  {
    hide IsCanonical, ChainOk, SameRows, NoRows, NodeAt, GivenAt, SpentBy, CreatedBy;
    forall j | 0 <= j < |chain|
      ensures IsCanonical(u, chain[j].key)
    {
      BlockExtends(origin, chain, j);
      assert SameBlock(t, u, chain[j].key);
    }
  }

  lemma SameLogOnRecord(t: Tables, u: Tables, bodyOf: Reorg.Bodies, chain: seq<Mined>)
    requires OnRecord(t, bodyOf, chain) && u.log == t.log && u.blocks.Keys == t.blocks.Keys
    ensures OnRecord(u, bodyOf, chain)
  {
    hide LastStatus;
  }

  /** A step that leaves the record alone up to the tip keeps every picture. */
  lemma UndisturbedPictures(t: Tables, u: Tables, bodyOf: Reorg.Bodies, origin: Origin, chain: seq<Mined>, size: nat, since: Since)
    requires size > 0 && Undisturbed(t, u, bodyOf, Tip(origin, chain))
    requires Pictures(Record(t, Tip(origin, chain)), t.slots, origin, chain, size, since)
    ensures Pictures(Record(u, Tip(origin, chain)), u.slots, origin, chain, size, since)
  {
    hide Record, Pictures, SameUpTo, Held;
    SameUpToSameRecord(t, u, Tip(origin, chain));
  }

  lemma WorldParts(s: Moment, origin: Origin, bodyOf: Reorg.Bodies, size: nat)
    requires size > 0 && World(s, origin, bodyOf, size)
    ensures Inv(s.t, s.first, s.lowest) && HistoryOk(s.t) && Held(s.t, bodyOf) && ChainOk(origin, s.chain) && OnRecord(s.t, bodyOf, s.chain)
    ensures Pictures(Record(s.t, Tip(origin, s.chain)), s.t.slots, origin, s.chain, size, s.since)
  {
    hide HistoryOk, Held, ChainOk, OnRecord, Pictures, Record, ArchiveOk, HeadersOk, ProgressOk;
  }

  /** Where the archive is level with the node, looking up a height finds the chain's block. */
  lemma LookupOnChain(t: Tables, bodyOf: Reorg.Bodies, origin: Origin, chain: seq<Mined>, height: nat)
    requires HistoryOk(t) && ChainOk(origin, chain) && OnRecord(t, bodyOf, chain) && origin.height < height <= Tip(origin, chain)
    ensures CanonicalAt(t.log, height) == Some(chain[height - origin.height - 1].key)
    ensures var m := chain[height - origin.height - 1]; m.key.height == height && m.body == bodyOf(m.key) && IsCanonical(t, m.key)
  {
    hide ClockRises, OneVersion, ChainOk, LastStatus, CanonicalAt, NodeAt, GivenAt, SpentBy, CreatedBy;
    BlockExtends(origin, chain, height - origin.height - 1);
    LookupIsTheVersion(t.log, height, chain[height - origin.height - 1].key);
  }

  lemma SeenIsKept(t: Tables, height: nat, seen: string, offer: Option<Offer>, orphanedAt: nat, now: nat)
    requires CanonicalAt(t.log, height).Some? && CanonicalAt(t.log, height).value.hash == seen
    ensures RecheckTables(t, height, seen, offer, orphanedAt, now) == t
  {
    hide CanonicalAt;
  }

  /** Ingesting, rechecking, header batches: the record up to the tip is untouched. */
  lemma BlocksAbove(s: Moment, origin: Origin, bodyOf: Reorg.Bodies, size: nat, step: Step)
    requires size > 0 && World(s, origin, bodyOf, size) && BodiesOk(bodyOf) && Happens(s, origin, bodyOf, size, Commit(step))
    requires step.Ingest? || step.Recheck? || step.HeaderBatch?
    ensures Undisturbed(s.t, Apply(s.t, step), bodyOf, Tip(origin, s.chain))
  {
    hide HistoryOk, Held, ChainOk, OnRecord, Pictures, Record, World, Inv, BodiesOk, StoreOffer, RecheckTables, HeaderBatchTables, ParentAt, ChainDown, LaterAt, SameUpTo;
    WorldParts(s, origin, bodyOf, size);
    var tip := Tip(origin, s.chain);
    match step
    case Ingest(offer, now) => IngestAbove(s.t, s.first, s.lowest, offer, now, bodyOf, tip);
    case Recheck(height, seen, offer, orphanedAt, now) =>
      if height <= tip {
        LookupOnChain(s.t, bodyOf, origin, s.chain, height);
        SeenIsKept(s.t, height, seen, offer, orphanedAt, now);
        SameTables(s.t, s.t, bodyOf, tip);
      } else {
        RecheckAbove(s.t, height, seen, offer, orphanedAt, now, bodyOf, tip);
      }
    case HeaderBatch(headers, expected, low, now) => HeaderBatchUndisturbed(s.t, headers, low, now, bodyOf, tip);
    case _ =>
  }

  lemma WorldAfter(s: Moment, origin: Origin, bodyOf: Reorg.Bodies, size: nat, step: Step)
    requires size > 0 && World(s, origin, bodyOf, size) && Happens(s, origin, bodyOf, size, Commit(step))
    requires Held(Apply(s.t, step), bodyOf) && OnRecord(Apply(s.t, step), bodyOf, s.chain)
    requires var n := NextMoment(s, origin, bodyOf, size, Commit(step));
             Pictures(Record(n.t, Tip(origin, s.chain)), n.t.slots, origin, s.chain, size, n.since)
    ensures World(NextMoment(s, origin, bodyOf, size, Commit(step)), origin, bodyOf, size)
  {
    hide Held, ChainOk, OnRecord, Pictures, Record, Inv, Apply, SinceCommitted, NextFirst, NextLowest, Enabled;
    StepKeepsInv(s.t, s.first, s.lowest, step);
  }

  lemma AboveKeepsWorld(s: Moment, origin: Origin, bodyOf: Reorg.Bodies, size: nat, step: Step)
    requires size > 0 && World(s, origin, bodyOf, size) && Happens(s, origin, bodyOf, size, Commit(step))
    requires Undisturbed(s.t, Apply(s.t, step), bodyOf, Tip(origin, s.chain)) && !BringsRows(s, origin, step) && !step.Prune?
    ensures World(NextMoment(s, origin, bodyOf, size, Commit(step)), origin, bodyOf, size)
  {
    hide Held, ChainOk, OnRecord, Pictures, Record, Inv, Apply, SameUpTo, World, Happens, HistoryOk;
    WorldParts(s, origin, bodyOf, size);
    ChainStaysOnRecord(s.t, Apply(s.t, step), bodyOf, origin, s.chain);
    UndisturbedPictures(s.t, Apply(s.t, step), bodyOf, origin, s.chain, size, s.since);
    WorldAfter(s, origin, bodyOf, size, step);
  }

  // ---------------------------------------------------------------- bodies recovered and pruned

  /** What a recovered body writes, if there is one to recover. */
  lemma BodyRecovered(s: Moment, origin: Origin, bodyOf: Reorg.Bodies, size: nat, step: Step)
    requires size > 0 && World(s, origin, bodyOf, size) && BodiesOk(bodyOf) && step.RecoverGap? && Happens(s, origin, bodyOf, size, Commit(step))
    ensures var u, tip := Apply(s.t, step), Tip(origin, s.chain);
            && Held(u, bodyOf) && u.log == s.t.log && u.blocks.Keys == s.t.blocks.Keys && u.slots == s.t.slots
            && if BringsRows(s, origin, step) then Gains(Record(s.t, tip), Record(u, tip), s.chain[step.height - origin.height - 1]) else SameUpTo(s.t, u, tip)
  {
    hide Held, ChainOk, OnRecord, Pictures, Record, Inv, SameUpTo, World, HistoryOk, BodiesOk, Uncaptured, RecoverGapTables, CanonicalAt, IsCanonical, Canon, Inserted, Gains, NoRows;
    var u, tip := Apply(s.t, step), Tip(origin, s.chain);
    WorldParts(s, origin, bodyOf, size);
    if BodyMissing(s.t, step.height) {
      var b := CanonicalAt(s.t.log, step.height).value;
      CanonicalOnRecord(s.t, step.height);
      RecoveredRows(s.t, step.height, b, step.body, step.source, step.now);
      RecoveredRecord(s.t, u, b, bodyOf, tip);
      if step.height <= tip { LookupOnChain(s.t, bodyOf, origin, s.chain, step.height); }
    } else {
      NothingToRecover(s.t, step.height, step.body, step.source, step.now);
      SameTables(s.t, u, bodyOf, tip);
    }
  }

  lemma RecoverKeepsWorld(s: Moment, origin: Origin, bodyOf: Reorg.Bodies, size: nat, step: Step)
    requires size > 0 && World(s, origin, bodyOf, size) && BodiesOk(bodyOf) && step.RecoverGap? && Happens(s, origin, bodyOf, size, Commit(step))
    ensures World(NextMoment(s, origin, bodyOf, size, Commit(step)), origin, bodyOf, size)
  {
    hide Held, SinceCommitted, SameUpTo, World, BodiesOk, Gains, BringsRows, Record, Happens, Apply;
    BodyRecovered(s, origin, bodyOf, size, step);
    if BringsRows(s, origin, step) {
      GainedKeepsWorld(s, origin, bodyOf, size, step);
    } else {
      AboveKeepsWorld(s, origin, bodyOf, size, step);
    }
  }

  lemma CanonicalOnRecord(t: Tables, height: nat)
    requires HistoryOk(t) && CanonicalAt(t.log, height).Some?
    ensures var b := CanonicalAt(t.log, height).value; IsCanonical(t, b) && b.height == height
  {
    hide CanonicalAt, LastStatus;
    HistoryParts(t);
    LookupIsTheVersion(t.log, height, CanonicalAt(t.log, height).value);
    CanonicalHasRow(t, CanonicalAt(t.log, height).value);
    hide HistoryOk;
  }

  lemma GainedKeepsWorld(s: Moment, origin: Origin, bodyOf: Reorg.Bodies, size: nat, step: Step)
    requires size > 0 && World(s, origin, bodyOf, size) && Happens(s, origin, bodyOf, size, Commit(step))
    requires BringsRows(s, origin, step) && Held(Apply(s.t, step), bodyOf)
    requires var u, tip := Apply(s.t, step), Tip(origin, s.chain);
             u.log == s.t.log && u.blocks.Keys == s.t.blocks.Keys && u.slots == s.t.slots && Gains(Record(s.t, tip), Record(u, tip), s.chain[step.height - origin.height - 1])
    ensures World(NextMoment(s, origin, bodyOf, size, Commit(step)), origin, bodyOf, size)
  {
    hide Held, ChainOk, OnRecord, Pictures, Record, Inv, World, HistoryOk, CanonicalAt, Gains, IsCanonical, Faithful, TrueSlots, SegmentsAgree, ExactFrom, Apply, OutputsSpent, Enabled, Uncaptured, NoRows;
    var u, tip, j := Apply(s.t, step), Tip(origin, s.chain), step.height - origin.height - 1;
    WorldParts(s, origin, bodyOf, size);
    LookupOnChain(s.t, bodyOf, origin, s.chain, step.height);
    var v, w, after := Record(s.t, tip), Record(u, tip), SinceCommitted(s, origin, size, step);
    PicturesParts(v, s.t.slots, origin, s.chain, size, s.since);
    GainsFaithful(v, w, origin, s.chain, j);
    forall segment: nat
      ensures KeptFrom(w, s.t.slots, origin, s.chain, s.chain, segment, size, s.since, after)
    {
      if after(segment) <= tip {
        RecoveredAnywhere(v, w, s.t.slots, origin, s.chain, j, segment, size, s.since(segment), after(segment));
      }
    }
    KeepPictures(v, w, s.t.slots, origin, s.chain, s.chain, size, s.since, after);
    SameLogOnRecord(s.t, u, bodyOf, s.chain);
    WorldAfter(s, origin, bodyOf, size, step);
  }

  lemma PruneKeepsWorld(s: Moment, origin: Origin, bodyOf: Reorg.Bodies, size: nat, step: Step)
    requires size > 0 && World(s, origin, bodyOf, size) && step.Prune? && Happens(s, origin, bodyOf, size, Commit(step))
    ensures World(NextMoment(s, origin, bodyOf, size, Commit(step)), origin, bodyOf, size)
  {
    hide Held, ChainOk, OnRecord, Pictures, Record, Inv, World, HistoryOk, IsCanonical, Faithful, TrueSlots, SegmentsAgree, ExactFrom, PruneBlocks, Loses, PrunedShown, Enabled;
    var b := step.block;
    var u, tip := PruneBlocks(s.t, {b}), Tip(origin, s.chain);
    WorldParts(s, origin, bodyOf, size);
    PrunedHeld(s.t, b, bodyOf);
    PrunedRows(s.t, b, b);
    PrunedLoses(s.t, b, tip);
    var v, w, after := Record(s.t, tip), Record(u, tip), SinceCommitted(s, origin, size, step);
    PicturesParts(v, s.t.slots, origin, s.chain, size, s.since);
    LosesFaithful(v, w, origin, s.chain, b);
    forall segment: nat
      ensures KeptFrom(w, s.t.slots, origin, s.chain, s.chain, segment, size, s.since, after)
    {
      if after(segment) <= tip {
        PrunedAnywhere(v, w, s.t.slots, origin, s.chain, b, segment, size, s.since(segment), after(segment));
      }
    }
    KeepPictures(v, w, s.t.slots, origin, s.chain, s.chain, size, s.since, after);
    SameLogOnRecord(s.t, u, bodyOf, s.chain);
    WorldAfter(s, origin, bodyOf, size, step);
  }

  lemma CommitKeepsWorld(s: Moment, origin: Origin, bodyOf: Reorg.Bodies, size: nat, step: Step)
    requires size > 0 && World(s, origin, bodyOf, size) && BodiesOk(bodyOf) && Happens(s, origin, bodyOf, size, Commit(step))
    ensures World(NextMoment(s, origin, bodyOf, size, Commit(step)), origin, bodyOf, size)
  {
    hide World, BodiesOk, Apply, Enabled, ServesChain, Undisturbed, NextMoment;
    match step
    case RecoverGap(height, body, source, now) => RecoverKeepsWorld(s, origin, bodyOf, size, step);
    case Prune(b) => PruneKeepsWorld(s, origin, bodyOf, size, step);
    case Elsewhere(after) =>
    case _ =>
      BlocksAbove(s, origin, bodyOf, size, step);
      AboveKeepsWorld(s, origin, bodyOf, size, step);
  }

  // ---------------------------------------------------------------- level with one block more

  /** Pictures after the archive is level with one more block, whose rows it has, lacks, or has with old flags. */
  lemma SettledPictures(s: Moment, origin: Origin, bodyOf: Reorg.Bodies, size: nat, b: BlockKey)
    requires size > 0 && World(s, origin, bodyOf, size) && BodiesOk(bodyOf) && Happens(s, origin, bodyOf, size, Settle(b))
    ensures var n := NextMoment(s, origin, bodyOf, size, Settle(b));
            Pictures(Record(s.t, Tip(origin, n.chain)), s.t.slots, origin, n.chain, size, n.since)
  {
    hide Held, ChainOk, OnRecord, Pictures, Record, Inv, World, HistoryOk, IsCanonical, NodeAt, BodiesOk, NoRows, HoldsFlagged, GainsFlagged, GivenAt, SameCoins, FlaggedSpent, SinceSettled;
    var m, tip := Mined(b, bodyOf(b)), Tip(origin, s.chain);
    var after := SinceSettled(s, origin, bodyOf, size, b);
    var v, w := Record(s.t, tip), Record(s.t, tip + 1);
    WorldParts(s, origin, bodyOf, size);
    NextBlock(origin, s.chain, m);
    BodyAndHeld(s.t, bodyOf, b);
    forall segment: nat | after(segment) <= tip + 1
      ensures after(segment) == s.since(segment) <= tip
      ensures if NoRows(s.t, b) then SameCoins(NodeAt(origin, s.chain), NodeAt(origin, s.chain + [m]), segment, size) else FlaggedSpent(w, b, segment, size, tip + 1)
    {
      SettledMeans(s, origin, bodyOf, size, b, segment);
    }
    if NoRows(s.t, b) {
      NextRecordMissing(s.t, b, tip);
      SettledMissing(v, s.t.slots, origin, s.chain, m, size, s.since, after);
    } else {
      NextRecordFlagged(s.t, m, tip);
      SettledFlagged(v, w, s.t.slots, origin, s.chain, m, size, s.since, after);
    }
  }

  lemma SettledMeans(s: Moment, origin: Origin, bodyOf: Reorg.Bodies, size: nat, b: BlockKey, segment: nat)
    requires size > 0 && SinceSettled(s, origin, bodyOf, size, b)(segment) <= Tip(origin, s.chain) + 1
    ensures SinceSettled(s, origin, bodyOf, size, b)(segment) == s.since(segment) <= Tip(origin, s.chain)
    ensures if NoRows(s.t, b) then SameCoins(NodeAt(origin, s.chain), NodeAt(origin, s.chain + [Mined(b, bodyOf(b))]), segment, size)
            else FlaggedSpent(Record(s.t, Tip(origin, s.chain) + 1), b, segment, size, Tip(origin, s.chain) + 1)
  {
    hide NoRows, SameCoins, FlaggedSpent, NodeAt, Record;
  }

  lemma SettledMissing(v: View, slots: map<nat, SlotRow>, origin: Origin, chain: seq<Mined>, m: Mined, size: nat, since: Since, after: Since)
    requires size > 0 && ChainOk(origin, chain + [m]) && Pictures(v, slots, origin, chain, size, since)
    requires forall segment: nat :: after(segment) <= Tip(origin, chain) + 1 ==>
               after(segment) == since(segment) <= Tip(origin, chain) && SameCoins(NodeAt(origin, chain), NodeAt(origin, chain + [m]), segment, size)
    ensures Pictures(v, slots, origin, chain + [m], size, after)
  {
    hide ChainOk, Pictures, Faithful, TrueSlots, SegmentsAgree, ExactFrom, SameCoins, NodeAt;
    PicturesParts(v, slots, origin, chain, size, since);
    StillFaithful(v, origin, chain, m);
    forall segment: nat
      ensures KeptFrom(v, slots, origin, chain, chain + [m], segment, size, since, after)
    {
      if after(segment) <= Tip(origin, chain) + 1 { MissedNext(v, slots, origin, chain, m, segment, size, since(segment)); }
    }
    KeepPictures(v, v, slots, origin, chain, chain + [m], size, since, after);
  }

  lemma SettledFlagged(v: View, w: View, slots: map<nat, SlotRow>, origin: Origin, chain: seq<Mined>, m: Mined, size: nat, since: Since, after: Since)
    requires size > 0 && ChainOk(origin, chain + [m]) && Pictures(v, slots, origin, chain, size, since) && GainsFlagged(v, w, m)
    requires forall segment: nat :: after(segment) <= Tip(origin, chain) + 1 ==>
               after(segment) == since(segment) <= Tip(origin, chain) && FlaggedSpent(w, m.key, segment, size, Tip(origin, chain) + 1)
    ensures Pictures(w, slots, origin, chain + [m], size, after)
  {
    hide ChainOk, Pictures, Faithful, TrueSlots, SegmentsAgree, ExactFrom, FlaggedSpent, GainsFlagged;
    PicturesParts(v, slots, origin, chain, size, since);
    FlaggedFaithful(v, w, origin, chain, m);
    forall segment: nat
      ensures KeptFrom(w, slots, origin, chain, chain + [m], segment, size, since, after)
    {
      if after(segment) <= Tip(origin, chain) + 1 { FlaggedNext(v, w, slots, origin, chain, m, segment, size, since(segment)); }
    }
    KeepPictures(v, w, slots, origin, chain, chain + [m], size, since, after);
  }

  lemma OneMoreOnRecord(t: Tables, bodyOf: Reorg.Bodies, chain: seq<Mined>, b: BlockKey)
    requires OnRecord(t, bodyOf, chain) && IsCanonical(t, b)
    ensures OnRecord(t, bodyOf, chain + [Mined(b, bodyOf(b))])
  {
    hide IsCanonical;
  }

  lemma SettleKeepsWorld(s: Moment, origin: Origin, bodyOf: Reorg.Bodies, size: nat, b: BlockKey)
    requires size > 0 && World(s, origin, bodyOf, size) && BodiesOk(bodyOf) && Happens(s, origin, bodyOf, size, Settle(b))
    ensures World(NextMoment(s, origin, bodyOf, size, Settle(b)), origin, bodyOf, size)
  {
    hide Held, ChainOk, OnRecord, Pictures, Record, Inv, BodiesOk, IsCanonical;
    SettledPictures(s, origin, bodyOf, size, b);
    OneMoreOnRecord(s.t, bodyOf, s.chain, b);
  }

  // ---------------------------------------------------------------- blocks the node leaves

  lemma UnwindKeepsWorld(s: Moment, origin: Origin, bodyOf: Reorg.Bodies, size: nat, f: nat)
    requires size > 0 && World(s, origin, bodyOf, size) && f <= |s.chain|
    ensures World(NextMoment(s, origin, bodyOf, size, Unwind(f)), origin, bodyOf, size)
  {
    hide Held, ChainOk, OnRecord, Pictures, Inv, World, HistoryOk, ViewOf, Lower, Faithful, TrueSlots, SegmentsAgree, ExactFrom, GivenAt, Unwound, ShownAtFork;
    var v, fork := Record(s.t, Tip(origin, s.chain)), origin.height + f;
    WorldParts(s, origin, bodyOf, size);
    PicturesParts(v, s.t.slots, origin, s.chain, size, s.since);
    PrefixOk(origin, s.chain, f);
    LowerLower(ViewOf(s.t), Tip(origin, s.chain), fork);
    LowerFaithful(v, origin, s.chain, fork);
    var shown := (segment: nat) => ShownAtFork(v, s.t.slots, origin, s.chain, f, segment, size);
    assert SinceUnwound(s, origin, size, f) == Unwound(s.since, Tip(origin, s.chain), fork, shown);
    UnwoundSlots(v, s.t.slots, origin, s.chain, f, size, s.since, shown);
    forall segment: nat
      ensures ExactFrom(Lower(v, fork), s.t.slots, origin, s.chain[..f], segment, size, Unwound(s.since, Tip(origin, s.chain), fork, shown)(segment))
    {
      UnwoundFrom(v, s.t.slots, origin, s.chain, f, segment, size, s.since, shown);
    }
    UnwoundWorld(s, origin, bodyOf, size, f);
  }

  lemma UnwoundWorld(s: Moment, origin: Origin, bodyOf: Reorg.Bodies, size: nat, f: nat)
    requires size > 0 && World(s, origin, bodyOf, size) && f <= |s.chain| && ChainOk(origin, s.chain[..f])
    requires var next := NextMoment(s, origin, bodyOf, size, Unwind(f)).since;
             var v := Record(s.t, origin.height + f);
             && Faithful(v, origin, s.chain[..f]) && TrueSlots(s.t.slots, origin, s.chain[..f], size, next)
             && ExactSince(v, s.t.slots, origin, s.chain[..f], size, next)
    ensures World(NextMoment(s, origin, bodyOf, size, Unwind(f)), origin, bodyOf, size)
  {
    hide Held, ChainOk, Inv, Record, Faithful, TrueSlots, SegmentsAgree, ExactSince, SinceUnwound, IsCanonical;
  }

  // ---------------------------------------------------------------- segments swept

  lemma FlagsKeepShape(t: Tables, u: Tables)
    requires u == t.(slots := u.slots, outputs := u.outputs)
    ensures SameShape(t, u)
  {
  }

  /** With nothing beyond the height, what is recorded is what is recorded up to it. */
  lemma AllIsBelow(v: View, origin: Origin, chain: seq<Mined>, h: nat)
    requires NothingAbove(v, h) && Faithful(Lower(v, h), origin, chain)
    ensures Faithful(v, origin, chain)
  {
    hide FromOutput, FromInput;
    assert Lower(v, h).inputs == v.inputs && Lower(v, h).outputs == v.outputs;
  }

  lemma ReadsApart(found: seq<SlotRead>, node: set<Coin>, lo: nat, hi: nat)
    requires ReadsNode(found, node, lo, hi)
    ensures DistinctSlots(found) && forall i :: 0 <= i < |found| ==> InRange(found[i].slot, lo, hi)
  {
  }

  /** The sweep's slots of the segment it read hold coins of the node. */
  lemma SweptSlot(t: Tables, segment: nat, size: nat, found: seq<SlotRead>, h: nat, now: nat, node: set<Coin>, s: nat)
    requires size > 0 && ReadsNode(found, node, segment * size, (segment + 1) * size)
    requires var u := SweepSegment(t, segment, size, found, h, now); s in u.slots && u.slots[s].segment == segment
    ensures SlotCoin(SweepSegment(t, segment, size, found, h, now).slots, s) in node
  {
    hide SweepSegment, SweptView, FlagsOnly, RecordedIds, ReplaceSlots, Foreign, IdsOf, DistinctSlots;
    SweepEffect(t, segment, size, found, h, now);
    var recorded := RecordedIds(ViewOf(t), segment * size, (segment + 1) * size);
    hide ViewOf;
    var foreign := Foreign(found, recorded);
    ForeignReads(found, recorded);
    ForeignDistinct(found, recorded);
    SegmentSlots(t.slots, foreign, segment, h, s);
    var i :| 0 <= i < |foreign| && foreign[i].slot == s && SweepSegment(t, segment, size, found, h, now).slots[s] == SlotRowOf(foreign[i], segment, h);
    assert foreign[i] in found;
  }

  lemma SweptTrueSlots(t: Tables, origin: Origin, chain: seq<Mined>, segment: nat, size: nat, found: seq<SlotRead>, now: nat, since: Since)
    requires size > 0 && SegmentsAgree(t.slots, size) && TrueSlots(t.slots, origin, chain, size, since)
    requires ReadsNode(found, NodeAt(origin, chain), segment * size, (segment + 1) * size)
    ensures var u := SweepSegment(t, segment, size, found, Tip(origin, chain), now);
            SegmentsAgree(u.slots, size) && TrueSlots(u.slots, origin, chain, size, Refreshed(since, Tip(origin, chain), segment))
  {
    hide SweepSegment, EverCoins, NodeAt, ReadsNode, DistinctSlots, SegmentsAgree;
    var u, next := SweepSegment(t, segment, size, found, Tip(origin, chain), now), Refreshed(since, Tip(origin, chain), segment);
    ReadsApart(found, NodeAt(origin, chain), segment * size, (segment + 1) * size);
    SweepKeepsSegments(t, segment, size, found, Tip(origin, chain), now);
    forall s: nat | s in u.slots && origin.height <= next(s / size) <= Tip(origin, chain)
      ensures TrueSlot(u.slots, origin, chain, s, next(s / size))
    {
      SweptTrueSlot(t, origin, chain, segment, size, found, now, since, s);
    }
  }

  lemma SweptTrueSlot(t: Tables, origin: Origin, chain: seq<Mined>, segment: nat, size: nat, found: seq<SlotRead>, now: nat, since: Since, s: nat)
    requires size > 0 && SegmentsAgree(t.slots, size) && TrueSlots(t.slots, origin, chain, size, since)
    requires ReadsNode(found, NodeAt(origin, chain), segment * size, (segment + 1) * size)
    requires var u := SweepSegment(t, segment, size, found, Tip(origin, chain), now); SegmentsAgree(u.slots, size) && s in u.slots
    requires origin.height <= Refreshed(since, Tip(origin, chain), segment)(s / size) <= Tip(origin, chain)
    ensures TrueSlot(SweepSegment(t, segment, size, found, Tip(origin, chain), now).slots, origin, chain, s, Refreshed(since, Tip(origin, chain), segment)(s / size))
  {
    hide SweepSegment, EverCoins, NodeAt, ReadsNode, DistinctSlots;
    var tip := Tip(origin, chain);
    if s / size == segment {
      SweptSlot(t, segment, size, found, tip, now, NodeAt(origin, chain), s);
      LiveOnce(origin, chain);
      assert ChainTo(origin, chain, tip) == chain;
    } else {
      OtherSlotsStay(t, segment, size, found, tip, now, NodeAt(origin, chain), s);
      assert TrueSlot(t.slots, origin, chain, s, since(s / size));
    }
  }

  lemma OtherSlotsStay(t: Tables, segment: nat, size: nat, found: seq<SlotRead>, h: nat, now: nat, node: set<Coin>, s: nat)
    requires size > 0 && SegmentsAgree(t.slots, size) && s / size != segment
    requires ReadsNode(found, node, segment * size, (segment + 1) * size)
    ensures var u := SweepSegment(t, segment, size, found, h, now);
            (s in u.slots <==> s in t.slots) && (s in u.slots ==> u.slots[s] == t.slots[s])
  {
    hide SweepSegment, SweptView, FlagsOnly, RecordedIds, ReplaceSlots, Foreign, IdsOf, DistinctSlots, SegmentsAgree, ViewOf;
    SweepEffect(t, segment, size, found, h, now);
    ReadsApart(found, node, segment * size, (segment + 1) * size);
    OtherSlots(t.slots, segment, size, found, RecordedIds(ViewOf(t), segment * size, (segment + 1) * size), h, s);
  }

  lemma SweptFrom(t: Tables, origin: Origin, chain: seq<Mined>, segment: nat, size: nat, found: seq<SlotRead>, now: nat, other: nat, from: nat)
    requires size > 0 && other != segment && SegmentsAgree(t.slots, size)
    requires ReadsNode(found, NodeAt(origin, chain), segment * size, (segment + 1) * size)
    requires ExactFrom(Record(t, Tip(origin, chain)), t.slots, origin, chain, other, size, from)
    ensures var u := SweepSegment(t, segment, size, found, Tip(origin, chain), now);
            ExactFrom(Record(u, Tip(origin, chain)), u.slots, origin, chain, other, size, from)
  {
    hide SweepSegment, NodeAt, ReadsNode, DistinctSlots, SegmentsAgree, ViewOf, Lower, Exact;
    var tip, u := Tip(origin, chain), SweepSegment(t, segment, size, found, Tip(origin, chain), now);
    ReadsApart(found, NodeAt(origin, chain), segment * size, (segment + 1) * size);
    forall g: nat | from <= g <= tip
      ensures ExactAt(Record(u, tip), u.slots, origin, chain, other, size, g)
    {
      var node := NodeAt(origin, ChainTo(origin, chain, g));
      assert ExactAt(Record(t, tip), t.slots, origin, chain, other, size, g);
      LowerExact(ViewOf(t), t.slots, tip, g, other, size, node);
      SweptOther(t, segment, size, found, tip, now, g, other, node);
      LowerExact(ViewOf(u), u.slots, tip, g, other, size, node);
    }
  }

  lemma SweptOther(t: Tables, segment: nat, size: nat, found: seq<SlotRead>, h: nat, now: nat, g: nat, other: nat, node: set<Coin>)
    requires size > 0 && other != segment && SegmentsAgree(t.slots, size)
    requires DistinctSlots(found) && forall i :: 0 <= i < |found| ==> InRange(found[i].slot, segment * size, (segment + 1) * size)
    requires Exact(ViewOf(t), t.slots, g, other, size, node)
    ensures var u := SweepSegment(t, segment, size, found, h, now); Exact(ViewOf(u), u.slots, g, other, size, node)
  {
    hide SweepSegment, DistinctSlots, SegmentsAgree, ViewOf, Exact, SameRow, InRange;
    var u := SweepSegment(t, segment, size, found, h, now);
    forall row
      ensures SameRow(ViewOf(t), t.slots, ViewOf(u), u.slots, g, other, size, row)
    {
      SweepLeavesOthersAlone(t, segment, size, found, h, now, g, other, row);
    }
    SameRowsExact(ViewOf(t), t.slots, ViewOf(u), u.slots, g, other, size, node);
  }

  lemma SweptHere(t: Tables, origin: Origin, chain: seq<Mined>, segment: nat, size: nat, found: seq<SlotRead>, now: nat)
    requires size > 0 && ChainOk(origin, chain) && Faithful(ViewOf(t), origin, chain)
    requires ReadsNode(found, NodeAt(origin, chain), segment * size, (segment + 1) * size)
    ensures var u := SweepSegment(t, segment, size, found, Tip(origin, chain), now);
            ExactFrom(Record(u, Tip(origin, chain)), u.slots, origin, chain, segment, size, Tip(origin, chain))
  {
    hide SweepSegment, NodeAt, ReadsNode, ViewOf, Lower, Exact, ChainOk, Faithful, FitsNode, NodeOk;
    var tip, u := Tip(origin, chain), SweepSegment(t, segment, size, found, Tip(origin, chain), now);
    FaithfulFits(ViewOf(t), origin, chain);
    LiveIdsGiven(origin, chain);
    SweepMakesExact(t, segment, size, found, tip, now, NodeAt(origin, chain));
    LowerExact(ViewOf(u), u.slots, tip, tip, segment, size, NodeAt(origin, chain));
    AtTheTip(Record(u, tip), u.slots, origin, chain, segment, size);
  }

  lemma SweptPictures(s: Moment, origin: Origin, bodyOf: Reorg.Bodies, size: nat, e: Event)
    requires size > 0 && World(s, origin, bodyOf, size) && e.Swept? && Happens(s, origin, bodyOf, size, e)
    ensures var n := NextMoment(s, origin, bodyOf, size, e);
            Pictures(Record(n.t, Tip(origin, s.chain)), n.t.slots, origin, s.chain, size, n.since)
  {
    hide World, SweepSegment, ReadsNode, ViewOf, Lower, ChainOk, Faithful, TrueSlots, SegmentsAgree, ExactFrom, Inv, Held, OnRecord, Pictures, NothingAbove, NodeAt, HistoryOk, FlagsOnly, SweptView;
    var u, tip := SweepSegment(s.t, e.segment, size, e.found, Tip(origin, s.chain), e.now), Tip(origin, s.chain);
    var next := Refreshed(s.since, tip, e.segment);
    WorldParts(s, origin, bodyOf, size);
    PicturesParts(Record(s.t, tip), s.t.slots, origin, s.chain, size, s.since);
    AllIsBelow(ViewOf(s.t), origin, s.chain, tip);
    SweptTrueSlots(s.t, origin, s.chain, e.segment, size, e.found, e.now, s.since);
    SweptFaithful(s.t, origin, s.chain, e.segment, size, e.found, e.now);
    forall segment: nat
      ensures ExactFrom(Record(u, tip), u.slots, origin, s.chain, segment, size, next(segment))
    {
      if segment == e.segment {
        SweptHere(s.t, origin, s.chain, segment, size, e.found, e.now);
      } else {
        SweptFrom(s.t, origin, s.chain, e.segment, size, e.found, e.now, segment, s.since(segment));
      }
    }
    ArePictures(Record(u, tip), u.slots, origin, s.chain, size, next);
  }

  lemma ArePictures(v: View, slots: map<nat, SlotRow>, origin: Origin, chain: seq<Mined>, size: nat, since: Since)
    requires size > 0 && Faithful(v, origin, chain) && SegmentsAgree(slots, size) && TrueSlots(slots, origin, chain, size, since)
    requires forall segment: nat :: ExactFrom(v, slots, origin, chain, segment, size, since(segment))
    ensures Pictures(v, slots, origin, chain, size, since)
  {
    hide Faithful, SegmentsAgree, TrueSlots, ExactFrom;
  }

  lemma SweptFaithful(t: Tables, origin: Origin, chain: seq<Mined>, segment: nat, size: nat, found: seq<SlotRead>, now: nat)
    requires Faithful(ViewOf(t), origin, chain)
    ensures Faithful(Record(SweepSegment(t, segment, size, found, Tip(origin, chain), now), Tip(origin, chain)), origin, chain)
  {
    hide SweepSegment, ViewOf, Lower, Faithful, FlagsOnly, IdsOf, ReplaceSlots;
    SweepEffect(t, segment, size, found, Tip(origin, chain), now);
    var u := SweepSegment(t, segment, size, found, Tip(origin, chain), now);
    FaithfulUpToFlags(ViewOf(t), ViewOf(u), origin, chain);
    LowerFaithful(ViewOf(u), origin, chain, Tip(origin, chain));
    assert ChainTo(origin, chain, Tip(origin, chain)) == chain;
  }

  lemma SweptKeepsWorld(s: Moment, origin: Origin, bodyOf: Reorg.Bodies, size: nat, e: Event)
    requires size > 0 && World(s, origin, bodyOf, size) && e.Swept? && Happens(s, origin, bodyOf, size, e)
    ensures World(NextMoment(s, origin, bodyOf, size, e), origin, bodyOf, size)
  {
    hide SweepSegment, ReadsNode, ViewOf, Lower, ChainOk, Inv, Held, OnRecord, Pictures, NothingAbove, NodeAt, FlagsOnly, SweptView, Refreshed, ReplaceSlots;
    var u, tip := SweepSegment(s.t, e.segment, size, e.found, Tip(origin, s.chain), e.now), Tip(origin, s.chain);
    SweepEffect(s.t, e.segment, size, e.found, tip, e.now);
    FlagsKeepShape(s.t, u);
    SameShapeKeepsInv(s.t, u, s.first, s.lowest);
    FlagsHeld(s.t, u, bodyOf);
    SameLogOnRecord(s.t, u, bodyOf, s.chain);
    SweptPictures(s, origin, bodyOf, size, e);
  }

  // ---------------------------------------------------------------- flags cleared

  lemma ClearedKeepsWorld(s: Moment, origin: Origin, bodyOf: Reorg.Bodies, size: nat)
    requires size > 0 && World(s, origin, bodyOf, size)
    ensures World(NextMoment(s, origin, bodyOf, size, Cleared), origin, bodyOf, size)
  {
    hide Held, ChainOk, OnRecord, Pictures, Record, Inv, HistoryOk, ClearFlags, Clears, FlagsOnly, ClearedSpent;
    var u, tip := ClearFlags(s.t), Tip(origin, s.chain);
    ClearingIsFlags(s.t);
    FlagsKeepShape(s.t, u);
    SameShapeKeepsInv(s.t, u, s.first, s.lowest);
    FlagsHeld(s.t, u, bodyOf);
    SameLogOnRecord(s.t, u, bodyOf, s.chain);
    ClearedRecord(s.t, tip);
    ClearedPictures(Record(s.t, tip), Record(u, tip), s.t.slots, origin, s.chain, size, s.since, SinceCleared(s, origin, size));
  }

  lemma ClearedPictures(v: View, w: View, slots: map<nat, SlotRow>, origin: Origin, chain: seq<Mined>, size: nat, since: Since, after: Since)
    requires size > 0 && Pictures(v, slots, origin, chain, size, since) && Clears(v, w)
    requires forall segment: nat :: after(segment) <= Tip(origin, chain) ==>
               since(segment) <= after(segment) && since(segment) <= Tip(origin, chain) && ClearedSpent(v, w, segment, size, after(segment))
    ensures Pictures(w, slots, origin, chain, size, after)
  {
    hide Pictures, Faithful, TrueSlots, SegmentsAgree, ExactFrom, ClearedSpent, FlagsOnly;
    PicturesParts(v, slots, origin, chain, size, since);
    FaithfulUpToFlags(v, w, origin, chain);
    forall segment: nat
      ensures KeptFrom(w, slots, origin, chain, chain, segment, size, since, after)
    {
      if after(segment) <= Tip(origin, chain) { ClearedFrom(v, w, slots, origin, chain, segment, size, since(segment), after(segment)); }
    }
    KeepPictures(v, w, slots, origin, chain, chain, size, since, after);
  }

  // ---------------------------------------------------------------- every run

  lemma EventKeepsWorld(s: Moment, origin: Origin, bodyOf: Reorg.Bodies, size: nat, e: Event)
    requires size > 0 && World(s, origin, bodyOf, size) && BodiesOk(bodyOf) && Happens(s, origin, bodyOf, size, e)
    ensures World(NextMoment(s, origin, bodyOf, size, e), origin, bodyOf, size)
  {
    hide World, BodiesOk, NextMoment;
    match e
    case Commit(step) => CommitKeepsWorld(s, origin, bodyOf, size, step);
    case Cleared => ClearedKeepsWorld(s, origin, bodyOf, size);
    case Swept(segment, found, now) => SweptKeepsWorld(s, origin, bodyOf, size, e);
    case Settle(b) => SettleKeepsWorld(s, origin, bodyOf, size, b);
    case Unwind(f) => UnwindKeepsWorld(s, origin, bodyOf, size, f);
  }

  ghost predicate ValidEvents(s: Moment, origin: Origin, bodyOf: Reorg.Bodies, size: nat, events: seq<Event>)
    requires size > 0
    decreases |events|
  {
    events == [] ||
    (Happens(s, origin, bodyOf, size, events[0]) && ValidEvents(NextMoment(s, origin, bodyOf, size, events[0]), origin, bodyOf, size, events[1..]))
  }

  ghost function MomentAfter(s: Moment, origin: Origin, bodyOf: Reorg.Bodies, size: nat, events: seq<Event>): Moment
    requires size > 0
    decreases |events|
  {
    if events == [] then s else MomentAfter(NextMoment(s, origin, bodyOf, size, events[0]), origin, bodyOf, size, events[1..])
  }

  lemma {:induction false} EventsJoin(s: Moment, origin: Origin, bodyOf: Reorg.Bodies, size: nat, a: seq<Event>, b: seq<Event>)
    requires size > 0 && ValidEvents(s, origin, bodyOf, size, a) && ValidEvents(MomentAfter(s, origin, bodyOf, size, a), origin, bodyOf, size, b)
    ensures ValidEvents(s, origin, bodyOf, size, a + b)
    ensures MomentAfter(s, origin, bodyOf, size, a + b) == MomentAfter(MomentAfter(s, origin, bodyOf, size, a), origin, bodyOf, size, b)
    decreases |a|
  {
    hide Happens, NextMoment;
    if a == [] {
      assert a + b == b;
    } else {
      assert (a + b)[1..] == a[1..] + b;
      EventsJoin(NextMoment(s, origin, bodyOf, size, a[0]), origin, bodyOf, size, a[1..], b);
    }
  }

  lemma {:induction false} EventsKeepWorld(s: Moment, origin: Origin, bodyOf: Reorg.Bodies, size: nat, events: seq<Event>)
    requires size > 0 && World(s, origin, bodyOf, size) && BodiesOk(bodyOf) && ValidEvents(s, origin, bodyOf, size, events)
    ensures World(MomentAfter(s, origin, bodyOf, size, events), origin, bodyOf, size)
    decreases |events|
  {
    hide World, Happens, NextMoment, BodiesOk;
    if events != [] {
      EventKeepsWorld(s, origin, bodyOf, size, events[0]);
      EventsKeepWorld(NextMoment(s, origin, bodyOf, size, events[0]), origin, bodyOf, size, events[1..]);
    }
  }

  ghost function CoinSegments(coins: set<Coin>, size: nat): set<int>
    requires size > 0
  {
    set c | c in coins :: c.slot / size
  }

  /** A new archive: every segment in which the node already holds coins has yet to be swept. */
  ghost function Start(origin: Origin, size: nat): Moment
    requires size > 0
  {
    var unknown := CoinSegments(origin.coins, size);
    Moment(EMPTY, 0, 0, [], (segment: nat) => if segment in unknown then origin.height + 1 else origin.height)
  }

  lemma NewArchive(origin: Origin, bodyOf: Reorg.Bodies, size: nat)
    requires size > 0 && ChainOk(origin, [])
    ensures World(Start(origin, size), origin, bodyOf, size)
  {
    hide ChainOk, HeldAt, CoinSegments, Exact, HistoryOk, ArchiveOk;
    EmptyDatabaseOk();
    forall b ensures HeldAt(EMPTY, bodyOf, b) { NothingHeld(bodyOf, b); }
    var s := Start(origin, size);
    assert Record(EMPTY, origin.height) == View(map[], map[], map[]);
    forall segment: nat
      ensures ExactFrom(Record(EMPTY, origin.height), EMPTY.slots, origin, [], segment, size, s.since(segment))
    {
      if segment !in CoinSegments(origin.coins, size) { NothingShown(origin, segment, size); }
    }
  }

  lemma NothingHeld(bodyOf: Reorg.Bodies, b: BlockKey)
    ensures HeldAt(EMPTY, bodyOf, b)
  {
  }

  lemma NothingShown(origin: Origin, segment: nat, size: nat)
    requires size > 0 && segment !in CoinSegments(origin.coins, size)
    ensures Exact(View(map[], map[], map[]), map[], origin.height, segment, size, origin.coins)
  {
    forall c | c in origin.coins ensures c.slot / size != segment { assert c.slot / size in CoinSegments(origin.coins, size); }
  }

  // ---------------------------------------------------------------- what the archive reports

  /** At or below a height the archive shows what it recorded up to it. */
  lemma LowerPicture(v: View, slots: map<nat, SlotRow>, h: nat, g: nat, row: PictureRow)
    requires g <= h
    ensures InPicture(Lower(v, h), slots, row, g) <==> InPicture(v, slots, row, g)
    ensures InPicture(v, slots, row, g) ==> Known(v, slots, row) && Known(Lower(v, h), slots, row) && CoinOf(Lower(v, h), slots, row) == CoinOf(v, slots, row)
  {
    match row
    case Recorded(k) =>
      LowerOutputs(v, h, k);
      if k in v.outputs && v.outputs[k].creationId.Some? { LowerSpent(v, v.outputs[k].creationId.value, h, g); }
      hide Lower, Spent;
    case Own(s) =>
      if s in slots { LowerSpent(v, slots[s].creationId, h, g); }
      hide Lower, Spent;
  }

  lemma LowerOwner(v: View, slots: map<nat, SlotRow>, h: nat, g: nat, owner: string)
    requires g <= h
    ensures OwnerRows(v, slots, g, owner) == OwnerRows(Lower(v, h), slots, g, owner)
  {
    hide Lower, InPicture, CoinOf, Picture, Known;
    PictureMembers(v, slots, g);
    PictureMembers(Lower(v, h), slots, g);
    var a, b := OwnerRows(v, slots, g, owner), OwnerRows(Lower(v, h), slots, g, owner);
    forall row
      ensures (row in a <==> row in b) && (row in a ==> a[row] == b[row])
    {
      LowerPicture(v, slots, h, g, row);
    }
  }

  lemma ReportedExact(s: Moment, origin: Origin, bodyOf: Reorg.Bodies, size: nat, segment: nat, g: nat)
    requires size > 0 && World(s, origin, bodyOf, size) && s.since(segment) <= g <= Tip(origin, s.chain)
    ensures g >= origin.height && Exact(ViewOf(s.t), s.t.slots, g, segment, size, NodeAt(origin, ChainTo(origin, s.chain, g)))
    ensures Exact(Record(s.t, Tip(origin, s.chain)), s.t.slots, g, segment, size, NodeAt(origin, ChainTo(origin, s.chain, g)))
  {
    hide World, ViewOf, Lower, Exact, NodeAt, Faithful, TrueSlots, SegmentsAgree, Pictures, Inv, HistoryOk, ChainOk, Held, OnRecord;
    var tip := Tip(origin, s.chain);
    WorldParts(s, origin, bodyOf, size);
    PicturesParts(Record(s.t, tip), s.t.slots, origin, s.chain, size, s.since);
    assert ExactAt(Record(s.t, tip), s.t.slots, origin, s.chain, segment, size, g);
    LowerExact(ViewOf(s.t), s.t.slots, tip, g, segment, size, NodeAt(origin, ChainTo(origin, s.chain, g)));
  }

  lemma ReportedBalances(s: Moment, origin: Origin, bodyOf: Reorg.Bodies, size: nat, g: nat, owner: string)
    requires size > 0 && World(s, origin, bodyOf, size) && g <= Tip(origin, s.chain) && forall segment: nat :: s.since(segment) <= g
    ensures g >= origin.height
    ensures var rows, coins := OwnerRows(ViewOf(s.t), s.t.slots, g, owner), NodeRows(NodeAt(origin, ChainTo(origin, s.chain, g)), owner);
            Total(rows) == Total(coins) && |rows| == |coins|
  {
    hide World, ViewOf, Lower, Exact, NodeAt, Faithful, TrueSlots, SegmentsAgree, Pictures, Inv, HistoryOk, ChainOk, Held, OnRecord, ExactFrom, OwnerRows, NodeRows, Total, GivenAt, FitsNode;
    var tip := Tip(origin, s.chain);
    WorldParts(s, origin, bodyOf, size);
    PicturesParts(Record(s.t, tip), s.t.slots, origin, s.chain, size, s.since);
    FaithfulFits(Record(s.t, tip), origin, s.chain);
    ReportedExact(s, origin, bodyOf, size, 0, g);
    ChainToOk(origin, s.chain, g);
    LiveIdsGiven(origin, ChainTo(origin, s.chain, g));
    forall segment: nat
      ensures Exact(Record(s.t, tip), s.t.slots, g, segment, size, NodeAt(origin, ChainTo(origin, s.chain, g)))
    {
      ReportedExact(s, origin, bodyOf, size, segment, g);
    }
    ExactPictureBalances(Record(s.t, tip), s.t.slots, g, size, NodeAt(origin, ChainTo(origin, s.chain, g)), owner);
    LowerOwner(ViewOf(s.t), s.t.slots, tip, g, owner);
  }

  // ---------------------------------------------------------------- nothing exact is given up

  /** A moment at whose tip a known segment is exact, in terms of the record. */
  lemma KnownIsExact(s: Moment, origin: Origin, bodyOf: Reorg.Bodies, size: nat, segment: nat)
    requires size > 0 && World(s, origin, bodyOf, size) && s.since(segment) <= Tip(origin, s.chain)
    ensures ChainOk(origin, s.chain) && Faithful(Record(s.t, Tip(origin, s.chain)), origin, s.chain) && SegmentsAgree(s.t.slots, size)
    ensures OwnAreEver(s.t.slots, origin, s.chain, segment, size)
    ensures Exact(Record(s.t, Tip(origin, s.chain)), s.t.slots, Tip(origin, s.chain), segment, size, NodeAt(origin, s.chain))
  {
    hide World, Record, Exact, NodeAt, Faithful, TrueSlots, SegmentsAgree, Pictures, Inv, HistoryOk, ChainOk, Held, OnRecord, OwnAreEver;
    var tip := Tip(origin, s.chain);
    WorldParts(s, origin, bodyOf, size);
    PicturesParts(Record(s.t, tip), s.t.slots, origin, s.chain, size, s.since);
    ReportedExact(s, origin, bodyOf, size, segment, tip);
    TrueAreEver(s.t.slots, origin, s.chain, segment, size, s.since);
    assert ChainTo(origin, s.chain, tip) == s.chain;
  }

  lemma CommittedStaysKnown(s: Moment, origin: Origin, bodyOf: Reorg.Bodies, size: nat, step: Step, segment: nat)
    requires size > 0 && World(s, origin, bodyOf, size) && BodiesOk(bodyOf) && Happens(s, origin, bodyOf, size, Commit(step))
    requires s.since(segment) <= Tip(origin, s.chain)
    requires var u := Apply(s.t, step); Exact(Record(u, Tip(origin, s.chain)), u.slots, Tip(origin, s.chain), segment, size, NodeAt(origin, s.chain))
    ensures SinceCommitted(s, origin, size, step)(segment) <= Tip(origin, s.chain)
  {
    hide World, BodiesOk, Record, Exact, NodeAt, Faithful, SegmentsAgree, ChainOk, OwnAreEver, PruneBlocks, Loses, PrunedShown, OutputsSpent, Gains, SameUpTo, Held, BodyMissing, NoRows, Enabled, RecoverGapTables;
    var u, tip := Apply(s.t, step), Tip(origin, s.chain);
    KnownIsExact(s, origin, bodyOf, size, segment);
    if BringsRows(s, origin, step) {
      BodyRecovered(s, origin, bodyOf, size, step);
      RecoveryExactWhen(Record(s.t, tip), Record(u, tip), s.t.slots, origin, s.chain, step.height - origin.height - 1, segment, size);
    } else if step.Prune? {
      PrunedLoses(s.t, step.block, tip);
      PrunedRows(s.t, step.block, step.block);
      PrunedExactWhen(Record(s.t, tip), Record(u, tip), s.t.slots, origin, s.chain, step.block, segment, size);
    }
  }

  lemma ClearedStaysKnown(s: Moment, origin: Origin, bodyOf: Reorg.Bodies, size: nat, segment: nat)
    requires size > 0 && World(s, origin, bodyOf, size) && s.since(segment) <= Tip(origin, s.chain)
    requires var u := ClearFlags(s.t); Exact(Record(u, Tip(origin, s.chain)), u.slots, Tip(origin, s.chain), segment, size, NodeAt(origin, s.chain))
    ensures SinceCleared(s, origin, size)(segment) <= Tip(origin, s.chain)
  {
    hide World, Record, Exact, NodeAt, Faithful, SegmentsAgree, ChainOk, OwnAreEver, ClearFlags, Clears, ClearedSpent, FlagsOnly, FitsNode;
    var tip := Tip(origin, s.chain);
    KnownIsExact(s, origin, bodyOf, size, segment);
    ClearingIsFlags(s.t);
    ClearedRecord(s.t, tip);
    FaithfulFits(Record(s.t, tip), origin, s.chain);
    ClearedExactWhen(Record(s.t, tip), Record(ClearFlags(s.t), tip), s.t.slots, segment, size, tip, NodeAt(origin, s.chain));
  }

  lemma SettledStaysKnown(s: Moment, origin: Origin, bodyOf: Reorg.Bodies, size: nat, b: BlockKey, segment: nat)
    requires size > 0 && World(s, origin, bodyOf, size) && BodiesOk(bodyOf) && Happens(s, origin, bodyOf, size, Settle(b))
    requires s.since(segment) <= Tip(origin, s.chain)
    requires Exact(Record(s.t, Tip(origin, s.chain) + 1), s.t.slots, Tip(origin, s.chain) + 1, segment, size, NodeAt(origin, s.chain + [Mined(b, bodyOf(b))]))
    ensures SinceSettled(s, origin, bodyOf, size, b)(segment) <= Tip(origin, s.chain) + 1
  {
    hide World, BodiesOk, Record, Exact, NodeAt, Faithful, SegmentsAgree, ChainOk, OwnAreEver, Held, OnRecord, Pictures, Inv, HistoryOk, IsCanonical, NoRows, HoldsFlagged, GainsFlagged, GivenAt, SameCoins, FlaggedSpent;
    var m, tip := Mined(b, bodyOf(b)), Tip(origin, s.chain);
    WorldParts(s, origin, bodyOf, size);
    KnownIsExact(s, origin, bodyOf, size, segment);
    NextBlock(origin, s.chain, m);
    BodyAndHeld(s.t, bodyOf, b);
    if NoRows(s.t, b) {
      NextRecordMissing(s.t, b, tip);
      MissingExactWhen(Record(s.t, tip), s.t.slots, origin, s.chain, m, segment, size);
    } else {
      NextRecordFlagged(s.t, m, tip);
      FlaggedExactWhen(Record(s.t, tip), Record(s.t, tip + 1), s.t.slots, origin, s.chain, m, segment, size);
    }
  }

  lemma UnwoundStaysKnown(s: Moment, origin: Origin, bodyOf: Reorg.Bodies, size: nat, f: nat, segment: nat)
    requires size > 0 && World(s, origin, bodyOf, size) && f <= |s.chain| && s.since(segment) <= Tip(origin, s.chain)
    requires Exact(Record(s.t, origin.height + f), s.t.slots, origin.height + f, segment, size, NodeAt(origin, s.chain[..f]))
    ensures SinceUnwound(s, origin, size, f)(segment) <= origin.height + f
  {
    hide World, ViewOf, Lower, Exact, NodeAt, Faithful, SegmentsAgree, ChainOk, OwnAreEver, ShownAtFork;
    var tip, fork := Tip(origin, s.chain), origin.height + f;
    KnownIsExact(s, origin, bodyOf, size, segment);
    LowerLower(ViewOf(s.t), tip, fork);
    LowerExact(Record(s.t, tip), s.t.slots, fork, fork, segment, size, NodeAt(origin, s.chain[..f]));
    UnwoundExactWhen(Record(s.t, tip), s.t.slots, origin, s.chain, f, segment, size);
  }

  lemma StaysKnown(s: Moment, origin: Origin, bodyOf: Reorg.Bodies, size: nat, e: Event, segment: nat)
    requires size > 0 && World(s, origin, bodyOf, size) && BodiesOk(bodyOf) && Happens(s, origin, bodyOf, size, e)
    requires s.since(segment) <= Tip(origin, s.chain)
    requires var n := NextMoment(s, origin, bodyOf, size, e);
             Exact(Record(n.t, Tip(origin, n.chain)), n.t.slots, Tip(origin, n.chain), segment, size, NodeAt(origin, n.chain))
    ensures var n := NextMoment(s, origin, bodyOf, size, e); n.since(segment) <= Tip(origin, n.chain)
  {
    hide World, BodiesOk, Record, Exact, NodeAt, SinceCommitted, SinceCleared, SinceSettled, SinceUnwound, ClearFlags, Apply, SweepSegment, ReadsNode, Enabled, IsCanonical, ChainOk;
    match e
    case Commit(step) => CommittedStaysKnown(s, origin, bodyOf, size, step, segment);
    case Cleared => ClearedStaysKnown(s, origin, bodyOf, size, segment);
    case Swept(swept, found, now) =>
    case Settle(b) => SettledStaysKnown(s, origin, bodyOf, size, b, segment);
    case Unwind(f) => UnwoundStaysKnown(s, origin, bodyOf, size, f, segment);
  }

  /** Whatever happens, a segment known to be exact is still known to be exactly when it is. */
  lemma KnownExactlyWhen(s: Moment, origin: Origin, bodyOf: Reorg.Bodies, size: nat, e: Event, segment: nat)
    requires size > 0 && World(s, origin, bodyOf, size) && BodiesOk(bodyOf) && Happens(s, origin, bodyOf, size, e)
    requires s.since(segment) <= Tip(origin, s.chain)
    ensures var n := NextMoment(s, origin, bodyOf, size, e);
            n.since(segment) <= Tip(origin, n.chain) <==>
            Exact(ViewOf(n.t), n.t.slots, Tip(origin, n.chain), segment, size, NodeAt(origin, n.chain))
  {
    hide World, BodiesOk, ViewOf, Lower, Exact, NodeAt, NextMoment, Happens;
    var n := NextMoment(s, origin, bodyOf, size, e);
    var tip := Tip(origin, n.chain);
    EventKeepsWorld(s, origin, bodyOf, size, e);
    LowerExact(ViewOf(n.t), n.t.slots, tip, tip, segment, size, NodeAt(origin, n.chain));
    if n.since(segment) <= tip {
      KnownIsExact(n, origin, bodyOf, size, segment);
    } else if Exact(ViewOf(n.t), n.t.slots, tip, segment, size, NodeAt(origin, n.chain)) {
      StaysKnown(s, origin, bodyOf, size, e, segment);
    }
  }

  /**
    The picture simulates the node. After any run from an empty database - blocks recorded
    or missed, replaced, recovered late, pruned, header batches, segments swept, while the
    node mines and reorganises, in any order - a segment shows exactly the node's coins at
    every height from the one it is known exact from up to the tip, so it has the node's
    count there; where every segment does, each owner's total and count are the node's.
   */
  lemma PictureSimulatesNode(origin: Origin, bodyOf: Reorg.Bodies, size: nat, events: seq<Event>, segment: nat, g: nat, owner: string)
    requires size > 0 && BodiesOk(bodyOf) && ChainOk(origin, []) && ValidEvents(Start(origin, size), origin, bodyOf, size, events)
    requires var s := MomentAfter(Start(origin, size), origin, bodyOf, size, events); origin.height <= g <= Tip(origin, s.chain)
    ensures var s := MomentAfter(Start(origin, size), origin, bodyOf, size, events);
            var v, node := ViewOf(s.t), NodeAt(origin, ChainTo(origin, s.chain, g));
            && (s.since(segment) <= g ==> Exact(v, s.t.slots, g, segment, size, node))
            && (s.since(segment) <= g ==> |SegmentRows(v, s.t.slots, g, size, segment)| == |NodeSegment(node, size, segment)|)
            && ((forall other: nat :: s.since(other) <= g) ==> Total(OwnerRows(v, s.t.slots, g, owner)) == Total(NodeRows(node, owner)))
            && ((forall other: nat :: s.since(other) <= g) ==> |OwnerRows(v, s.t.slots, g, owner)| == |NodeRows(node, owner)|)
  {
    hide World, Exact, ViewOf, Start, ValidEvents, MomentAfter, NodeAt, SegmentRows, NodeSegment, OwnerRows, NodeRows, ChainOk, BodiesOk, Total, Lower;
    NewArchive(origin, bodyOf, size);
    EventsKeepWorld(Start(origin, size), origin, bodyOf, size, events);
    var s := MomentAfter(Start(origin, size), origin, bodyOf, size, events);
    if s.since(segment) <= g {
      ReportedExact(s, origin, bodyOf, size, segment, g);
      ExactSegmentCounts(ViewOf(s.t), s.t.slots, g, size, segment, NodeAt(origin, ChainTo(origin, s.chain, g)));
    }
    if forall other: nat :: s.since(other) <= g { ReportedBalances(s, origin, bodyOf, size, g, owner); }
  }

  /** Nothing recorded or replaced at a height changes a picture below it, whatever the node's chain is. */
  lemma LaterBlocksKeepEarlierPictures(t: Tables, first: nat, lowest: nat, step: Step, bodyOf: Reorg.Bodies, height: nat, g: nat, row: PictureRow)
    requires Inv(t, first, lowest) && Enabled(t, first, lowest, step) && Genuine(t, step, bodyOf) && BodiesOk(bodyOf) && Held(t, bodyOf)
    requires (step.Ingest? && height == step.offer.header.height) || (step.Recheck? && height == step.height)
    requires g < height
    ensures var u := Apply(t, step);
            && (InPicture(ViewOf(u), u.slots, row, g) <==> InPicture(ViewOf(t), t.slots, row, g))
            && (InPicture(ViewOf(u), u.slots, row, g) ==> Known(ViewOf(u), u.slots, row) && Known(ViewOf(t), t.slots, row)
                                                          && CoinOf(ViewOf(u), u.slots, row) == CoinOf(ViewOf(t), t.slots, row))
  {
    hide InPicture, CoinOf, Known, ViewOf, Held, BodiesOk, HistoryOk, StoreOffer, RecheckTables, ArchiveOk, HeadersOk, LaterAt, SameUpTo, Lower;
    var u := Apply(t, step);
    if step.Ingest? {
      IngestAbove(t, first, lowest, step.offer, step.now, bodyOf, g);
    } else {
      RecheckAbove(t, height, step.seen, step.replacement, step.orphanedAt, step.now, bodyOf, g);
    }
    SameUpToSameRecord(t, u, g);
    LowerPicture(ViewOf(t), t.slots, g, g, row);
    LowerPicture(ViewOf(u), u.slots, g, g, row);
  }

  // ---------------------------------------------------------------- the node can be followed

  lemma LaterThanAll(log: seq<StatusEntry>) returns (now: nat)
    ensures forall i :: 0 <= i < |log| ==> log[i].at < now
  {
    if log == [] {
      now := 0;
    } else {
      now := LaterThanAll(log[..|log| - 1]);
      if now <= log[|log| - 1].at { now := log[|log| - 1].at + 1; }
    }
  }

  lemma StoredIsCanonical(t: Tables, offer: Offer, now: nat)
    requires offer.source != HEADER_ONLY && CanonicalAt(t.log, offer.header.height) != Some(KeyOf(offer.header))
    ensures IsCanonical(StoreOffer(t, offer, now), KeyOf(offer.header))
  {
    hide CanonicalAt, StoreOffer, LastStatus;
    StoreOfferAdopts(t, offer, now);
    Appended(t.log, StatusEntry(KeyOf(offer.header), Canonical, now), KeyOf(offer.header));
  }

  lemma IngestReaches(t: Tables, first: nat, lowest: nat, offer: Offer, now: nat)
    requires Inv(t, first, lowest) && Enabled(t, first, lowest, Ingest(offer, now))
    ensures IsCanonical(Apply(t, Ingest(offer, now)), KeyOf(offer.header))
  {
    hide StoreOffer, HistoryOk, HeadersOk, Canon, CanonicalAt, ArchiveOk, ProgressOk, LastStatus, LaterAt;
    NextHeightIsFree(t, first, lowest, offer.header.height);
    NothingCanonicalAt(t, offer.header.height);
    HistoryParts(t);
    NoVersionNoLookup(t.log, offer.header.height);
    StoredIsCanonical(t, offer, now);
  }

  lemma RecheckReaches(t: Tables, height: nat, offer: Offer, orphanedAt: nat, now: nat, bodyOf: Reorg.Bodies)
    requires HistoryOk(t) && LaterAt(t.log, height, orphanedAt) && orphanedAt < now && Held(t, bodyOf) && height >= 1
    requires offer.header.height == height && offer.source != HEADER_ONLY && CanonicalAt(t.log, height).Some?
    requires var b := CanonicalAt(t.log, height).value; !IsHeaderOnly(t, b) && b.hash != offer.header.hash
    ensures IsCanonical(RecheckTables(t, height, offer.header.hash, Some(offer), orphanedAt, now), KeyOf(offer.header))
  {
    hide StoreOffer, HistoryOk, CanonicalAt, Held, LaterAt, IsCanonical, MarkOrphaned;
    var b := CanonicalAt(t.log, height).value;
    OrphanedAbove(t, height, b, orphanedAt, now, bodyOf, height - 1);
    StoredIsCanonical(MarkOrphaned(t, b, orphanedAt), offer, now);
  }

  lemma StepThenLevel(s: Moment, origin: Origin, bodyOf: Reorg.Bodies, size: nat, step: Step, b: BlockKey)
    requires size > 0 && Happens(s, origin, bodyOf, size, Commit(step)) && IsCanonical(Apply(s.t, step), b)
    requires ChainOk(origin, s.chain + [Mined(b, bodyOf(b))])
    ensures ValidEvents(s, origin, bodyOf, size, [Commit(step), Settle(b)])
    ensures MomentAfter(s, origin, bodyOf, size, [Commit(step), Settle(b)]).chain == s.chain + [Mined(b, bodyOf(b))]
  {
    hide ChainOk, IsCanonical, Apply, Enabled, Genuine, ServesChain, SinceCommitted, SinceSettled;
    var n := NextMoment(s, origin, bodyOf, size, Commit(step));
    LevelNow(n, origin, bodyOf, size, b);
    assert [Commit(step), Settle(b)][1..] == [Settle(b)];
  }

  lemma LevelNow(s: Moment, origin: Origin, bodyOf: Reorg.Bodies, size: nat, b: BlockKey)
    requires size > 0 && IsCanonical(s.t, b) && ChainOk(origin, s.chain + [Mined(b, bodyOf(b))])
    ensures ValidEvents(s, origin, bodyOf, size, [Settle(b)])
    ensures MomentAfter(s, origin, bodyOf, size, [Settle(b)]).chain == s.chain + [Mined(b, bodyOf(b))]
  {
    hide ChainOk, IsCanonical, SinceSettled;
    assert [Settle(b)][1..] == [];
  }

  lemma FollowByIngest(s: Moment, origin: Origin, bodyOf: Reorg.Bodies, size: nat, header: Header, now: nat)
    requires size > 0 && Inv(s.t, s.first, s.lowest) && header.height == Tip(origin, s.chain) + 1
    requires ChainOk(origin, s.chain + [Mined(KeyOf(header), bodyOf(KeyOf(header)))])
    requires s.t.cursor.None? || header.height == s.t.cursor.value + 1
    requires forall i :: 0 <= i < |s.t.log| ==> s.t.log[i].at < now
    ensures var events := [Commit(Ingest(Offer(header, Some(bodyOf(KeyOf(header))), "details"), now)), Settle(KeyOf(header))];
            && ValidEvents(s, origin, bodyOf, size, events)
            && MomentAfter(s, origin, bodyOf, size, events).chain == s.chain + [Mined(KeyOf(header), bodyOf(KeyOf(header)))]
  {
    hide ValidEvents, MomentAfter, ChainOk, Inv, IsCanonical, Apply;
    var offer := Offer(header, Some(bodyOf(KeyOf(header))), "details");
    IngestReaches(s.t, s.first, s.lowest, offer, now);
    StepThenLevel(s, origin, bodyOf, size, Ingest(offer, now), KeyOf(header));
  }

  lemma FollowByRecheck(s: Moment, origin: Origin, bodyOf: Reorg.Bodies, size: nat, header: Header, now: nat)
    requires size > 0 && Inv(s.t, s.first, s.lowest) && Held(s.t, bodyOf) && header.height == Tip(origin, s.chain) + 1
    requires ChainOk(origin, s.chain + [Mined(KeyOf(header), bodyOf(KeyOf(header)))])
    requires s.t.cursor.Some? && s.first <= header.height && CanonicalAt(s.t.log, header.height).Some?
    requires CanonicalAt(s.t.log, header.height) != Some(KeyOf(header))
    requires forall i :: 0 <= i < |s.t.log| ==> s.t.log[i].at < now
    ensures var offer := Offer(header, Some(bodyOf(KeyOf(header))), "details");
            var events := [Commit(Recheck(header.height, header.hash, Some(offer), now, now + 1)), Settle(KeyOf(header))];
            && ValidEvents(s, origin, bodyOf, size, events)
            && MomentAfter(s, origin, bodyOf, size, events).chain == s.chain + [Mined(KeyOf(header), bodyOf(KeyOf(header)))]
  {
    hide ValidEvents, MomentAfter, ChainOk, CanonicalAt, HistoryOk, Held, IsCanonical, ArchiveOk, ProgressOk, Apply;
    var offer := Offer(header, Some(bodyOf(KeyOf(header))), "details");
    var step := Recheck(header.height, header.hash, Some(offer), now, now + 1);
    CanonicalOnRecord(s.t, header.height);
    AdoptedIsNoHeader(s.t, s.first, s.lowest, CanonicalAt(s.t.log, header.height).value);
    RecheckReaches(s.t, header.height, offer, now, now + 1, bodyOf);
    RecheckApplies(s.t, step);
    StepThenLevel(s, origin, bodyOf, size, step, KeyOf(header));
  }

  lemma RecheckApplies(t: Tables, step: Step)
    requires step.Recheck?
    ensures Apply(t, step) == RecheckTables(t, step.height, step.seen, step.replacement, step.orphanedAt, step.now)
  {
    hide RecheckTables;
  }

  /**
    Whatever chain the node moves to, a run follows it: the next block is ingested, or
    replaces the block on record at its height, and the archive is level with one block more.
   */
  lemma NodeCanBeFollowed(s: Moment, origin: Origin, bodyOf: Reorg.Bodies, size: nat, header: Header) returns (events: seq<Event>)
    requires size > 0 && World(s, origin, bodyOf, size)
    requires ChainOk(origin, s.chain + [Mined(KeyOf(header), bodyOf(KeyOf(header)))])
    requires s.t.cursor.None? || header.height == s.t.cursor.value + 1 || (s.first <= header.height && CanonicalAt(s.t.log, header.height).Some?)
    ensures ValidEvents(s, origin, bodyOf, size, events)
    ensures MomentAfter(s, origin, bodyOf, size, events).chain == s.chain + [Mined(KeyOf(header), bodyOf(KeyOf(header)))]
  {
    hide World, ValidEvents, MomentAfter, ChainOk, CanonicalAt, Inv, HistoryOk, Held, Pictures, OnRecord, IsCanonical, NodeAt, GivenAt;
    var b := KeyOf(header);
    WorldParts(s, origin, bodyOf, size);
    NextBlock(origin, s.chain, Mined(b, bodyOf(b)));
    var now := LaterThanAll(s.t.log);
    if s.t.cursor.None? || header.height == s.t.cursor.value + 1 {
      FollowByIngest(s, origin, bodyOf, size, header, now);
      events := [Commit(Ingest(Offer(header, Some(bodyOf(b)), "details"), now)), Settle(b)];
    } else if CanonicalAt(s.t.log, header.height) == Some(b) {
      CanonicalOnRecord(s.t, header.height);
      LevelNow(s, origin, bodyOf, size, b);
      events := [Settle(b)];
    } else {
      FollowByRecheck(s, origin, bodyOf, size, header, now);
      events := [Commit(Recheck(header.height, header.hash, Some(Offer(header, Some(bodyOf(b)), "details")), now, now + 1)), Settle(b)];
    }
  }
}
