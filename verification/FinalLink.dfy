/**
  The topmost header below the archive (`backfill_headers` in permanode/src/indexer.rs):
  beyond the horizon it waits for, the block above it is final, and the header is the
  parent of that height's canonical block, not merely of some version of it.
 */
module FinalLink {
  import opened Wrappers
  import opened Tables
  import opened StatusLog
  import opened Runs
  import opened RunLaws
  import opened PictureRows

  /** The block is the canonical one at the archive's first height. */
  ghost predicate FirstIs(t: Tables, first: nat, a: BlockKey) {
    IsCanonical(t, a) && a.height == first
  }

  /** The header just below the archive is the parent of `a`. */
  ghost predicate TopLinksTo(t: Tables, first: nat, a: BlockKey)
    requires a in t.blocks
  {
    forall b :: IsHeaderOnly(t, b) && b.height + 1 == first ==> b.hash == t.blocks[a].prevHash
  }

  /** A recheck of the block's height, if the step is one, sees the block: it is final. */
  predicate Leaves(step: Step, a: BlockKey) {
    step.Recheck? && step.height == a.height ==> step.seen == a.hash
  }

  /** The first batch below the archive starts with the parent of `a`, as read before. */
  predicate StartsBelow(t: Tables, first: nat, lowest: nat, step: Step, a: BlockKey)
    requires a in t.blocks
  {
    step.HeaderBatch? && lowest == first ==> step.expected == t.blocks[a].prevHash
  }

  ghost predicate FinalRun(t: Tables, first: nat, lowest: nat, run: seq<Step>, a: BlockKey)
    decreases |run|
  {
    run == [] || (a in t.blocks && Leaves(run[0], a) && StartsBelow(t, first, lowest, run[0], a)
                  && FinalRun(Apply(t, run[0]), NextFirst(t, first, run[0]), NextLowest(t, lowest, run[0]), run[1..], a))
  }

  // ---------------------------------------------------------------- a final block stays canonical

  lemma IngestLeaves(t: Tables, first: nat, lowest: nat, offer: Offer, now: nat, a: BlockKey)
    requires Inv(t, first, lowest) && Enabled(t, first, lowest, Ingest(offer, now)) && IsCanonical(t, a)
    ensures IsCanonical(Apply(t, Ingest(offer, now)), a)
  {
    hide StoreOffer, HistoryOk, HeadersOk, Canon, CanonicalAt, ArchiveOk, ProgressOk, LastStatus, LaterAt;
    NextHeightIsFree(t, first, lowest, offer.header.height);
    NothingCanonicalAt(t, offer.header.height);
    HistoryParts(t);
    NoVersionNoLookup(t.log, offer.header.height);
    OfferVersions(t, offer, now, a);
  }

  lemma RecheckLeaves(t: Tables, height: nat, seen: string, offer: Option<Offer>, orphanedAt: nat, now: nat, a: BlockKey)
    requires HistoryOk(t) && LaterAt(t.log, height, orphanedAt) && orphanedAt < now && IsCanonical(t, a)
    requires offer.Some? ==> offer.value.header.height == height && offer.value.source != HEADER_ONLY
    requires height == a.height ==> seen == a.hash
    ensures IsCanonical(RecheckTables(t, height, seen, offer, orphanedAt, now), a)
  {
    hide StoreOffer, HistoryOk, CanonicalAt, LaterAt, LastStatus, RecordGap;
    HistoryParts(t);
    LookupIsTheVersion(t.log, height, a);
    var r := CanonicalAt(t.log, height);
    if r.Some? && r.value.hash != seen && !IsHeaderOnly(t, r.value) {
      var t1 := MarkOrphaned(t, r.value, orphanedAt);
      OrphanedLeaves(t, height, r.value, orphanedAt, now, a);
      if offer.Some? { OfferVersions(t1, offer.value, now, a); } else { GapRecorded(t1, height, Some(seen), orphanedAt); }
    }
  }

  lemma OrphanedLeaves(t: Tables, height: nat, b: BlockKey, at: nat, now: nat, a: BlockKey)
    requires HistoryOk(t) && LaterAt(t.log, height, at) && at < now && CanonicalAt(t.log, height) == Some(b)
    requires IsCanonical(t, a) && a.height != height
    ensures var t1 := MarkOrphaned(t, b, at); IsCanonical(t1, a) && CanonicalAt(t1.log, height) == None
  {
    hide HistoryOk, Canon, CanonicalAt, LaterAt, LastStatus;
    var t1 := MarkOrphaned(t, b, at);
    HistoryParts(t);
    LookupIsTheVersion(t.log, height, b);
    CanonicalHasRow(t, b);
    OnlyCanonical(t, b);
    OrphanedHistory(t, b, at, height, now);
    HistoryParts(t1);
    NoVersionNoLookup(t1.log, height);
    Appended(t.log, StatusEntry(b, Orphaned, at), a);
  }

  lemma SameLogLeaves(t: Tables, u: Tables, a: BlockKey)
    requires SameShape(t, u) && IsCanonical(t, a)
    ensures IsCanonical(u, a)
  {
    hide LastStatus;
  }

  lemma BatchLeaves(t: Tables, headers: seq<Header>, low: nat, now: nat, a: BlockKey)
    requires IsCanonical(t, a)
    ensures IsCanonical(HeaderBatchTables(t, headers, low, now), a)
  {
    hide InsertHeaders, LastStatus;
    HeaderBatchRows(t, headers, now);
  }

  lemma StepLeaves(t: Tables, first: nat, lowest: nat, step: Step, a: BlockKey)
    requires Inv(t, first, lowest) && Enabled(t, first, lowest, step) && IsCanonical(t, a) && Leaves(step, a)
    ensures IsCanonical(Apply(t, step), a)
  {
    hide IsCanonical, StoreOffer, RecheckTables, RecoverGapTables, HeaderBatchTables, PruneBlocks, HistoryOk, ArchiveOk, HeadersOk, ProgressOk, SameShape, LaterAt, ParentAt, ChainDown;
    match step
    case Ingest(offer, now) => IngestLeaves(t, first, lowest, offer, now, a);
    case Recheck(height, seen, offer, orphanedAt, now) => RecheckLeaves(t, height, seen, offer, orphanedAt, now, a);
    case RecoverGap(height, body, source, now) =>
      RecoverGapKeepsShape(t, height, body, source, now);
      SameLogLeaves(t, Apply(t, step), a);
    case HeaderBatch(headers, expected, low, now) => BatchLeaves(t, headers, low, now, a);
    case Prune(b) =>
      PruneKeepsShape(t, {b});
      SameLogLeaves(t, Apply(t, step), a);
    case Elsewhere(after) => SameLogLeaves(t, after, a);
  }

  // ---------------------------------------------------------------- and the header below stays its parent

  /** There is one header just below the archive. */
  lemma OneTop(t: Tables, first: nat, lowest: nat, b: BlockKey, c: BlockKey)
    requires HistoryOk(t) && HeadersOk(t, first, lowest) && IsHeaderOnly(t, b) && IsHeaderOnly(t, c) && b.height == c.height
    ensures b == c
  {
    hide ClockRises, LinkedUp, LastStatus;
  }

  lemma HeaderStaysHeader(t: Tables, u: Tables, b: BlockKey)
    requires Extends(t, u) && IsHeaderOnly(t, b)
    ensures IsHeaderOnly(u, b)
  {
  }

  lemma TopStays(t: Tables, u: Tables, first: nat, lowest: nat, next: nat, a: BlockKey)
    requires HeadersOk(t, first, lowest) && lowest < first && HistoryOk(u) && HeadersOk(u, first, next) && Extends(t, u)
    requires a in t.blocks && TopLinksTo(t, first, a)
    ensures a in u.blocks && TopLinksTo(u, first, a)
  {
    hide HistoryOk, LinkedUp, Canon;
    assert HeaderAt(t, first - 1);
    var b :| IsHeaderOnly(t, b) && b.height == first - 1;
    HeaderStaysHeader(t, u, b);
    forall c | IsHeaderOnly(u, c) && c.height + 1 == first
      ensures c.hash == u.blocks[a].prevHash
    {
      OneTop(u, first, next, b, c);
    }
  }

  /** Nothing lies just below the archive before the first batch. */
  lemma NoTopYet(t: Tables, first: nat, a: BlockKey)
    requires HeadersOk(t, first, first) && a in t.blocks
    ensures TopLinksTo(t, first, a)
  {
  }

  lemma {:induction false} HeadersAreIn(t: Tables, headers: seq<Header>, now: nat)
    requires InsertHeaders(t, headers, now).Some?
    ensures forall i :: 0 <= i < |headers| ==> KeyOf(headers[i]) in InsertHeaders(t, headers, now).value.blocks
  {
    hide LastStatus, RowAt;
    if headers != [] { HeadersAreIn(t, headers[..|headers| - 1], now); }
  }

  lemma FirstBatchTop(t: Tables, first: nat, headers: seq<Header>, expected: string, low: nat, now: nat, a: BlockKey)
    requires Inv(t, first, first) && Enabled(t, first, first, HeaderBatch(headers, expected, low, now))
    requires a in t.blocks && expected == t.blocks[a].prevHash
    ensures var u := HeaderBatchTables(t, headers, low, now); a in u.blocks && TopLinksTo(u, first, a)
  {
    hide InsertHeaders, HistoryOk, ArchiveOk, HeadersOk, ParentAt;
    var u := HeaderBatchTables(t, headers, low, now);
    HeaderBatchKeepsInv(t, first, first, headers, expected, low, now);
    StepExtends(t, first, first, HeaderBatch(headers, expected, low, now));
    if headers == [] {
      NoTopYet(u, first, a);
    } else {
      HeadersAreIn(t, headers, now);
      BelowIsHeader(u, first, KeyOf(headers[0]));
      forall b | IsHeaderOnly(u, b) && b.height + 1 == first
        ensures b.hash == u.blocks[a].prevHash
      {
        OneTop(u, first, first - |headers|, b, KeyOf(headers[0]));
      }
    }
  }

  lemma BelowIsHeader(u: Tables, first: nat, b: BlockKey)
    requires ArchiveOk(u, first) && u.cursor.Some? && b in u.blocks && b.height < first
    ensures IsHeaderOnly(u, b)
  {
  }

  /** The cursor, once set, stays set, and with it the first height. */
  lemma FirstStays(t: Tables, first: nat, lowest: nat, step: Step)
    requires t.cursor.Some? && Enabled(t, first, lowest, step)
    ensures NextFirst(t, first, step) == first && Apply(t, step).cursor.Some?
  {
    hide Apply;
    StepExtends(t, first, lowest, step);
  }

  lemma StepKeepsTop(t: Tables, first: nat, lowest: nat, step: Step, a: BlockKey)
    requires Inv(t, first, lowest) && t.cursor.Some? && Enabled(t, first, lowest, step)
    requires FirstIs(t, first, a) && TopLinksTo(t, first, a) && Leaves(step, a) && StartsBelow(t, first, lowest, step, a)
    ensures FirstIs(Apply(t, step), first, a) && TopLinksTo(Apply(t, step), first, a)
  {
    hide Enabled, HistoryOk, ArchiveOk, HeadersOk, ProgressOk, LastStatus, TopLinksTo, Extends, Apply;
    var u := Apply(t, step);
    StepLeaves(t, first, lowest, step, a);
    StepKeepsInv(t, first, lowest, step);
    FirstStays(t, first, lowest, step);
    StepExtends(t, first, lowest, step);
    LowestAtMostFirst(t, first, lowest);
    if lowest < first {
      TopStays(t, u, first, lowest, NextLowest(t, lowest, step), a);
    } else if step.HeaderBatch? {
      FirstBatchTop(t, first, step.headers, step.expected, step.low, step.now, a);
      BatchIs(t, step);
    } else {
      NoTopYet(u, first, a);
    }
  }

  lemma BatchIs(t: Tables, step: Step)
    requires step.HeaderBatch?
    ensures Apply(t, step) == HeaderBatchTables(t, step.headers, step.low, step.now)
  {
    hide HeaderBatchTables;
  }

  /**
    From the moment the link was read, while the block it was read from is not replaced: the
    block stays the canonical one at the archive's first height, and the header just below
    the archive is its parent.
   */
  lemma {:induction false} TopLinkIsFinal(t: Tables, first: nat, lowest: nat, run: seq<Step>, a: BlockKey)
    requires Inv(t, first, lowest) && t.cursor.Some? && ValidRun(t, first, lowest, run)
    requires FirstIs(t, first, a) && TopLinksTo(t, first, a) && FinalRun(t, first, lowest, run, a)
    ensures FirstAfter(t, first, run) == first
    ensures FirstIs(After(t, run), first, a) && TopLinksTo(After(t, run), first, a)
    decreases |run|
  {
    hide Enabled, Inv, Apply, TopLinksTo, LastStatus, Leaves, StartsBelow, NextFirst, NextLowest;
    if run != [] {
      StepKeepsTop(t, first, lowest, run[0], a);
      StepKeepsInv(t, first, lowest, run[0]);
      FirstStays(t, first, lowest, run[0]);
      TopLinkIsFinal(Apply(t, run[0]), first, NextLowest(t, lowest, run[0]), run[1..], a);
    }
  }

  // ---------------------------------------------------------------- stretches of a run

  ghost predicate AllLeave(run: seq<Step>, a: BlockKey) {
    forall i :: 0 <= i < |run| ==> Leaves(run[i], a)
  }

  ghost predicate TopIs(t: Tables, first: nat, a: BlockKey) {
    FirstIs(t, first, a) && TopLinksTo(t, first, a)
  }

  /** A block at the top of the header chain that no step replaces stays there. */
  ghost predicate KeepsTop(t: Tables, u: Tables, first: nat, run: seq<Step>) {
    forall a :: TopIs(t, first, a) && AllLeave(run, a) ==> TopIs(u, first, a)
  }

  lemma {:induction false} QuietIsFinal(t: Tables, first: nat, lowest: nat, run: seq<Step>, a: BlockKey)
    requires Inv(t, first, lowest) && t.cursor.Some? && ValidRun(t, first, lowest, run) && Quiet(run) && AllLeave(run, a) && a in t.blocks
    ensures FinalRun(t, first, lowest, run, a)
    decreases |run|
  {
    hide Enabled, Inv, Apply, Leaves, NextFirst, NextLowest, Extends;
    if run != [] {
      assert !run[0].HeaderBatch? && Leaves(run[0], a);
      StepKeepsInv(t, first, lowest, run[0]);
      FirstStays(t, first, lowest, run[0]);
      StepExtends(t, first, lowest, run[0]);
      StillOnRecord(t, Apply(t, run[0]), a);
      QuietIsFinal(Apply(t, run[0]), NextFirst(t, first, run[0]), NextLowest(t, lowest, run[0]), run[1..], a);
    }
  }

  lemma StillOnRecord(t: Tables, u: Tables, a: BlockKey)
    requires Extends(t, u) && a in t.blocks
    ensures a in u.blocks
  {
  }

  /** Blocks no step replaces stay canonical. */
  ghost predicate KeepsVersions(t: Tables, u: Tables, run: seq<Step>) {
    forall a :: IsCanonical(t, a) && AllLeave(run, a) ==> IsCanonical(u, a)
  }

  lemma {:induction false} QuietLeaves(t: Tables, first: nat, lowest: nat, run: seq<Step>, a: BlockKey)
    requires Inv(t, first, lowest) && ValidRun(t, first, lowest, run) && AllLeave(run, a) && IsCanonical(t, a)
    ensures IsCanonical(After(t, run), a)
    decreases |run|
  {
    hide Enabled, Inv, Apply, Leaves, NextFirst, NextLowest, IsCanonical;
    if run != [] {
      assert Leaves(run[0], a);
      StepKeepsInv(t, first, lowest, run[0]);
      StepLeaves(t, first, lowest, run[0], a);
      QuietLeaves(Apply(t, run[0]), NextFirst(t, first, run[0]), NextLowest(t, lowest, run[0]), run[1..], a);
    }
  }

  lemma OthersKeepVersions(t: Tables, first: nat, lowest: nat, run: seq<Step>)
    requires Inv(t, first, lowest) && ValidRun(t, first, lowest, run)
    ensures KeepsVersions(t, After(t, run), run)
  {
    hide Inv, ValidRun, After, AllLeave, IsCanonical;
    forall a | IsCanonical(t, a) && AllLeave(run, a)
      ensures IsCanonical(After(t, run), a)
    {
      QuietLeaves(t, first, lowest, run, a);
    }
  }

  lemma OthersKeepTop(t: Tables, first: nat, lowest: nat, run: seq<Step>)
    requires Inv(t, first, lowest) && t.cursor.Some? && ValidRun(t, first, lowest, run) && Quiet(run)
    ensures KeepsTop(t, After(t, run), first, run)
  {
    hide Inv, ValidRun, After, FinalRun, TopLinksTo, AllLeave, LastStatus;
    forall a | TopIs(t, first, a) && AllLeave(run, a)
      ensures TopIs(After(t, run), first, a)
    {
      QuietIsFinal(t, first, lowest, run, a);
      TopLinkIsFinal(t, first, lowest, run, a);
    }
  }

  lemma KeepsTopTwice(t: Tables, s: Tables, u: Tables, first: nat, one: seq<Step>, two: seq<Step>)
    requires KeepsTop(t, s, first, one) && KeepsTop(s, u, first, two)
    ensures KeepsTop(t, u, first, one + two)
  {
    hide TopIs, Leaves;
    forall a | TopIs(t, first, a) && AllLeave(one + two, a)
      ensures TopIs(u, first, a)
    {
      assert forall i :: 0 <= i < |one| ==> (one + two)[i] == one[i];
      assert forall i :: 0 <= i < |two| ==> (one + two)[|one| + i] == two[i];
    }
  }

  lemma KeepsTopItself(t: Tables, first: nat)
    ensures KeepsTop(t, t, first, [])
  {
  }

  /** `expected` is the parent the next batch has to start with, as far as the top is concerned. */
  ghost predicate LinkFits(t: Tables, first: nat, lowest: nat, expected: string, a: BlockKey) {
    TopIs(t, first, a) && (lowest == first ==> expected == t.blocks[a].prevHash)
  }

  /** A link that fits the top when it was read fits while no step replaces the top. */
  ghost predicate KeepsLink(t: Tables, lowest: nat, link: string, u: Tables, next: nat, expected: string, first: nat, run: seq<Step>) {
    forall a :: LinkFits(t, first, lowest, link, a) && AllLeave(run, a) ==> LinkFits(u, first, next, expected, a)
  }

  lemma KeepsLinkItself(t: Tables, lowest: nat, link: string, first: nat)
    ensures KeepsLink(t, lowest, link, t, lowest, link, first, [])
  {
  }

  lemma PrefixLeaves(one: seq<Step>, two: seq<Step>, a: BlockKey)
    requires AllLeave(one + two, a)
    ensures AllLeave(one, a) && AllLeave(two, a)
  {
    hide Leaves;
    assert forall i :: 0 <= i < |one| ==> (one + two)[i] == one[i];
    assert forall i :: 0 <= i < |two| ==> (one + two)[|one| + i] == two[i];
  }

  /** Other threads' steps leave the link as it was. */
  lemma LinkThenOthers(t: Tables, lowest: nat, link: string, s: Tables, u: Tables, next: nat, expected: string, first: nat, one: seq<Step>, two: seq<Step>)
    requires KeepsLink(t, lowest, link, s, next, expected, first, one) && KeepsTop(s, u, first, two) && Extends(s, u)
    ensures KeepsLink(t, lowest, link, u, next, expected, first, one + two)
  {
    hide TopLinksTo, Leaves, AllLeave, LastStatus;
    forall a | LinkFits(t, first, lowest, link, a) && AllLeave(one + two, a)
      ensures LinkFits(u, first, next, expected, a)
    {
      PrefixLeaves(one, two, a);
      assert LinkFits(s, first, next, expected, a);
    }
  }

  /** After a batch that started with the link, the top is the batch's first header's parent. */
  lemma LinkThenBatch(t: Tables, lowest: nat, link: string, s: Tables, next: nat, expected: string, first: nat, one: seq<Step>,
                      batch: seq<Header>, low: nat, now: nat, wanted: string)
    requires KeepsLink(t, lowest, link, s, next, expected, first, one)
    requires Inv(s, first, next) && Enabled(s, first, next, HeaderBatch(batch, expected, low, now)) && |batch| <= next
    requires batch == [] ==> wanted == expected
    ensures KeepsLink(t, lowest, link, HeaderBatchTables(s, batch, low, now), next - |batch|, wanted, first, one + [HeaderBatch(batch, expected, low, now)])
  {
    hide TopLinksTo, Leaves, AllLeave, Inv, Enabled, HeaderBatchTables, LastStatus;
    var step := HeaderBatch(batch, expected, low, now);
    HeaderBatchNeeds(s, first, next, step);
    NextAtMostFirst(s, first, next);
    forall a | LinkFits(t, first, lowest, link, a) && AllLeave(one + [step], a)
      ensures LinkFits(HeaderBatchTables(s, batch, low, now), first, next - |batch|, wanted, a)
    {
      PrefixLeaves(one, [step], a);
      assert LinkFits(s, first, next, expected, a);
      BatchLeavesAlone(step, a);
      StepKeepsTop(s, first, next, step, a);
      StepExtends(s, first, next, step);
      BatchIs(s, step);
    }
  }

  lemma HeaderBatchNeeds(t: Tables, first: nat, lowest: nat, step: Step)
    requires step.HeaderBatch? && Enabled(t, first, lowest, step)
    ensures t.cursor.Some?
  {
    hide ChainDown, ParentAt;
  }

  lemma NextAtMostFirst(t: Tables, first: nat, lowest: nat)
    requires Inv(t, first, lowest) && t.cursor.Some?
    ensures lowest <= first
  {
    hide HistoryOk, ArchiveOk;
  }

  lemma BatchLeavesAlone(step: Step, a: BlockKey)
    requires step.HeaderBatch?
    ensures Leaves(step, a)
  {
  }

  /** Read from the canonical block, the link fits. */
  lemma ReadLinkFits(t: Tables, first: nat, lowest: nat, a: BlockKey)
    requires HistoryOk(t) && TopIs(t, first, a) && CanonicalAt(t.log, lowest).Some? && CanonicalAt(t.log, lowest).value in t.blocks
    ensures LinkFits(t, first, lowest, t.blocks[CanonicalAt(t.log, lowest).value].prevHash, a)
  {
    hide CanonicalAt, TopLinksTo, LastStatus, HistoryOk;
    HistoryParts(t);
    LookupIsTheVersion(t.log, lowest, a);
  }

  /** A run that only adds, after which the link to use fits wherever the first one did. */
  ghost predicate Carries(t: Tables, lowest: nat, link: string, u: Tables, next: nat, expected: string, first: nat, run: seq<Step>) {
    Extends(t, u) && KeepsLink(t, lowest, link, u, next, expected, first, run)
  }

  lemma CarriesItself(t: Tables, lowest: nat, link: string, first: nat)
    ensures Carries(t, lowest, link, t, lowest, link, first, [])
  {
    KeepsLinkItself(t, lowest, link, first);
  }

  lemma CarriesOn(t: Tables, lowest: nat, link: string, s: Tables, middle: nat, between: string, u: Tables, next: nat, expected: string, first: nat,
                  a: seq<Step>, b: seq<Step>, c: seq<Step>)
    requires a <= b <= c
    requires Carries(t, lowest, link, s, middle, between, first, b[|a|..]) && Carries(s, middle, between, u, next, expected, first, c[|b|..])
    ensures Carries(t, lowest, link, u, next, expected, first, c[|a|..])
  {
    hide LinkFits, AllLeave;
    var one, two := b[|a|..], c[|b|..];
    assert c[|a|..] == one + two;
    forall x | LinkFits(t, first, lowest, link, x) && AllLeave(one + two, x)
      ensures LinkFits(u, first, next, expected, x)
    {
      PrefixLeaves(one, two, x);
      assert LinkFits(s, first, middle, between, x);
    }
  }

  lemma OthersCarry(t: Tables, u: Tables, next: nat, expected: string, first: nat, run: seq<Step>)
    requires KeepsTop(t, u, first, run) && Extends(t, u)
    ensures Carries(t, next, expected, u, next, expected, first, run)
  {
    hide KeepsTop, Extends, KeepsLink;
    KeepsLinkItself(t, next, expected, first);
    LinkThenOthers(t, next, expected, t, u, next, expected, first, [], run);
    assert [] + run == run;
  }

  lemma BatchCarries(t: Tables, lowest: nat, link: string, s: Tables, first: nat, one: seq<Step>, batch: seq<Header>, low: nat, now: nat)
    requires Carries(t, lowest, link, s, lowest, link, first, one) && Inv(s, first, lowest) && |batch| <= lowest
    requires Enabled(s, first, lowest, HeaderBatch(batch, link, low, now)) && Extends(s, HeaderBatchTables(s, batch, low, now))
    ensures Carries(t, lowest, link, HeaderBatchTables(s, batch, low, now), lowest - |batch|, ExpectedAt(batch, link, |batch|), first,
                    one + [HeaderBatch(batch, link, low, now)])
  {
    hide KeepsLink, Inv, Enabled, HeaderBatchTables, Extends;
    ExtendsChains(t, s, HeaderBatchTables(s, batch, low, now));
    LinkThenBatch(t, lowest, link, s, lowest, link, first, one, batch, low, now, ExpectedAt(batch, link, |batch|));
  }

  /** A link read from the canonical block and kept since keeps the top. */
  lemma ReadThenKept(t: Tables, u: Tables, first: nat, lowest: nat, next: nat, run: seq<Step>)
    requires Inv(t, first, lowest) && CanonicalAt(t.log, lowest).Some? && CanonicalAt(t.log, lowest).value in t.blocks
    requires exists expected :: KeepsLink(t, lowest, t.blocks[CanonicalAt(t.log, lowest).value].prevHash, u, next, expected, first, run)
    ensures KeepsTop(t, u, first, run)
  {
    hide TopIs, CanonicalAt, HistoryOk, AllLeave, ArchiveOk, HeadersOk, ProgressOk;
    var link := t.blocks[CanonicalAt(t.log, lowest).value].prevHash;
    var expected :| KeepsLink(t, lowest, link, u, next, expected, first, run);
    forall a | TopIs(t, first, a) && AllLeave(run, a)
      ensures TopIs(u, first, a)
    {
      ReadLinkFits(t, first, lowest, a);
      assert LinkFits(t, first, lowest, link, a);
    }
  }

  /** Other threads' steps, then a copy that went on from the canonical block there. */
  lemma CarriesTop(t: Tables, s: Tables, u: Tables, first: nat, lowest: nat, next: nat, a: seq<Step>, b: seq<Step>, c: seq<Step>)
    requires a <= b <= c && Extends(t, s) && KeepsTop(t, s, first, b[|a|..])
    requires Inv(s, first, lowest) && CanonicalAt(s.log, lowest).Some? && CanonicalAt(s.log, lowest).value in s.blocks
    requires exists expected :: Carries(s, lowest, s.blocks[CanonicalAt(s.log, lowest).value].prevHash, u, next, expected, first, c[|b|..])
    ensures Extends(t, u) && KeepsTop(t, u, first, c[|a|..])
    ensures forall x :: AllLeave(c[|a|..], x) ==> AllLeave(b[|a|..], x)
  {
    hide CanonicalAt, KeepsTop, KeepsLink, Inv, Extends, AllLeave;
    var link := s.blocks[CanonicalAt(s.log, lowest).value].prevHash;
    var expected :| Carries(s, lowest, link, u, next, expected, first, c[|b|..]);
    ExtendsChains(t, s, u);
    ReadThenKept(s, u, first, lowest, next, c[|b|..]);
    KeepsTopTwice(t, s, u, first, b[|a|..], c[|b|..]);
    assert c[|a|..] == b[|a|..] + c[|b|..];
    forall x | AllLeave(c[|a|..], x) ensures AllLeave(b[|a|..], x) { PrefixLeaves(b[|a|..], c[|b|..], x); }
  }

  // ---------------------------------------------------------------- which headers are new

  /** A header written since lies below the lowest row there was. */
  lemma NewHeaderIsBelow(t: Tables, u: Tables, first: nat, lowest: nat, next: nat, b: BlockKey)
    requires HeadersOk(t, first, lowest) && HistoryOk(u) && HeadersOk(u, first, next) && Extends(t, u)
    requires IsHeaderOnly(u, b) && b !in t.blocks
    ensures next <= b.height < lowest
  {
    hide HistoryOk, LinkedUp, Canon;
    if lowest <= b.height {
      assert HeaderAt(t, b.height);
      var c :| IsHeaderOnly(t, c) && c.height == b.height;
      HeaderStaysHeader(t, u, c);
      OneTop(u, first, next, b, c);
    }
  }
}
