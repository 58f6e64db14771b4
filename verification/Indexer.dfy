/**
  The indexer as it runs (permanode/src/indexer.rs, and `fill_gaps` in
  permanode/src/import.rs): the poll loop, the recheck window, gap recovery, the header
  backfill and pruning. Every answer of the node depends on the moment it is asked, so it
  may reorganise between any two calls; every method is a run of the state machine.
 */
module Indexer {
  import opened Wrappers
  import opened Tables
  import opened StatusLog
  import opened Runs
  import opened RunLaws
  import opened Bodies
  import opened Figures
  import opened FinalLink
  import opened StoreLaws

  const GETBLOCK_SERVING_WINDOW: nat := 42
  const HEADER_BATCH: nat := 200
  const FINAL_DEPTH: nat := 18

  datatype Details = Details(header: Header, retained: Option<Body>)
  datatype Answer<T> = Failed | Nothing | Found(value: T)

  /** The node, asked at a moment: it may answer anything, but for the height it was asked about. */
  datatype Node = Node(
    tip: nat -> Option<nat>,
    header: (nat, nat) -> Answer<Header>,
    details: (nat, nat) -> Answer<Details>,
    serves: (nat, nat) -> bool,
    decoded: (nat, nat, string) -> Option<Body>)
  {
    ghost predicate Ok() {
      forall c: nat, h: nat :: details(c, h).Found? ==> details(c, h).value.header.height == h
    }
  }

  /** What a poll cycle does at a height. */
  datatype Attempt = Ingested(height: nat) | Rechecked(height: nat) | Retried(height: nat)

  ghost function Ingests(from: nat, n: nat): seq<Attempt> {
    seq(n, i requires 0 <= i < n => Ingested(from + i))
  }

  ghost function Rechecks(from: nat, n: nat): seq<Attempt> {
    seq(n, i requires 0 <= i < n => Rechecked(from + i))
  }

  ghost function Retries(heights: seq<nat>): seq<Attempt> {
    seq(|heights|, i requires 0 <= i < |heights| => Retried(heights[i]))
  }

  datatype Outcome = RpcFailed | NoHeader | Recorded

  /** The body of a height: from the details, or decoded from the raw block where that is enabled. */
  function ResolveBody(node: Node, moment: nat, d: Details, fallback: bool): (offer: Offer)
    ensures offer.header == d.header && offer.source != HEADER_ONLY
  {
    if d.retained.Some? then Offer(d.header, d.retained, "details")
    else if fallback then Offer(d.header, node.decoded(moment, d.header.height, d.header.hash), "getblock")
    else Offer(d.header, None, "details")
  }

  // ---------------------------------------------------------------- what the header backfill may count on

  /** From a moment on the node serves these headers, each the parent of the one above, down to genesis. */
  ghost predicate Serves(node: Node, chain: nat -> Header, top: nat, since: nat) {
    && (forall m: nat, h: nat :: since <= m && h <= top ==> node.header(m, h) == Found(chain(h)))
    && (forall h: nat :: h <= top ==> chain(h).height == h)
    && (forall h: nat :: 0 < h <= top ==> chain(h).prevHash == chain(h - 1).hash)
  }

  /** A tip under which the height is final: deeper than the recheck window and the protocol's limit of 18 blocks. Genesis always is. */
  predicate FinalUnder(tip: nat, depth: nat, height: nat) {
    height == 0 || (height + depth < tip && height + 18 < tip)
  }

  /** From a moment on the node has a tip, and the height is final under it. */
  ghost predicate TipsBeyond(node: Node, height: nat, depth: nat, since: nat) {
    forall m: nat :: since <= m ==> node.tip(m).Some? && FinalUnder(node.tip(m).value, depth, height)
  }

  /** The node gave a tip in this time under which the height is final. */
  ghost predicate WasFinal(node: Node, depth: nat, since: nat, until: nat, height: nat) {
    exists m: nat :: since <= m < until && TipFinal(node, depth, m, height)
  }

  ghost predicate TipFinal(node: Node, depth: nat, m: nat, height: nat) {
    node.tip(m).Some? && FinalUnder(node.tip(m).value, depth, height)
  }

  ghost predicate AllFinal(node: Node, depth: nat, since: nat, until: nat, low: nat, high: nat) {
    forall h: nat :: low <= h < high ==> WasFinal(node, depth, since, until, h)
  }

  lemma FinalLater(node: Node, depth: nat, since: nat, until: nat, later: nat, low: nat, high: nat)
    requires AllFinal(node, depth, since, until, low, high) && until <= later
    ensures AllFinal(node, depth, since, later, low, high)
  {
    hide TipFinal;
    forall h: nat | low <= h < high
      ensures WasFinal(node, depth, since, later, h)
    {
      assert WasFinal(node, depth, since, until, h);
      var m: nat :| since <= m < until && TipFinal(node, depth, m, h);
    }
  }

  /** `a` is the canonical block at the lowest height, and below it the node has the chain that leads to it, final under every tip. */
  ghost predicate CanGoOn(t: Tables, lowest: nat, a: BlockKey, node: Node, chain: nat -> Header, depth: nat, since: nat) {
    && IsCanonical(t, a) && a.height == lowest > 0
    && Serves(node, chain, lowest - 1, since) && t.blocks[a].prevHash == chain(lowest - 1).hash && TipsBeyond(node, lowest - 1, depth, since)
  }

  lemma NothingToGoOn(t: Tables, lowest: nat, node: Node, chain: nat -> Header, depth: nat, since: nat)
    ensures RowHeights(t) == {} ==> forall a :: !CanGoOn(t, lowest, a, node, chain, depth, since)
  {
    hide Serves, TipsBeyond, LastStatus;
    if RowHeights(t) == {} {
      assert forall a :: a in t.blocks ==> a.height in RowHeights(t);
      assert forall a :: a !in t.blocks;
      forall a ensures !CanGoOn(t, lowest, a, node, chain, depth, since) {}
    }
  }

  lemma GoesOn(t: Tables, u: Tables, first: nat, lowest: nat, a: BlockKey, node: Node, chain: nat -> Header, depth: nat, since: nat, m: nat, run: seq<Step>)
    requires CanGoOn(t, lowest, a, node, chain, depth, since) && since <= m && KeepsVersions(t, u, run) && AllLeave(run, a) && Extends(t, u)
    requires Inv(u, first, lowest)
    ensures CanonicalAt(u.log, lowest) == Some(a) && a in u.blocks && lowest > 0 && ServesFrom(node, chain, lowest - 1, u.blocks[a].prevHash, depth, m)
  {
    hide LastStatus, CanonicalAt, ArchiveOk, HeadersOk, ProgressOk, HistoryOk;
    HistoryParts(u);
    LookupIsTheVersion(u.log, lowest, a);
  }

  lemma AllGoOn(t: Tables, u: Tables, first: nat, lowest: nat, node: Node, chain: nat -> Header, depth: nat, since: nat, m: nat, run: seq<Step>)
    requires since <= m && KeepsVersions(t, u, run) && Extends(t, u) && Inv(u, first, lowest)
    ensures forall a :: AllLeave(run, a) && CanGoOn(t, lowest, a, node, chain, depth, since) ==>
              CanonicalAt(u.log, lowest) == Some(a) && a in u.blocks && lowest > 0 && ServesFrom(node, chain, lowest - 1, u.blocks[a].prevHash, depth, m)
  {
    hide LastStatus, CanonicalAt, CanGoOn, AllLeave, Inv, KeepsVersions, Extends, ServesFrom;
    forall a | AllLeave(run, a) && CanGoOn(t, lowest, a, node, chain, depth, since)
      ensures CanonicalAt(u.log, lowest) == Some(a) && a in u.blocks && lowest > 0 && ServesFrom(node, chain, lowest - 1, u.blocks[a].prevHash, depth, m)
    {
      GoesOn(t, u, first, lowest, a, node, chain, depth, since, m, run);
    }
  }

  /** The other threads add no header-only rows. */
  lemma NoneNew(t: Tables, u: Tables, first: nat, lowest: nat)
    requires Inv(t, first, lowest) && Inv(u, first, lowest) && t.cursor.Some? && u.cursor.Some? && Extends(t, u)
    ensures forall node, depth, since, until :: OnlyFinalAdded(t, u, node, depth, since, until)
  {
    hide HistoryOk, ArchiveOk, HeadersOk, ProgressOk, Extends;
    forall b | IsHeaderOnly(u, b) ensures b in t.blocks { if b !in t.blocks { NewHeaderIsBelow(t, u, first, lowest, lowest, b); } }
  }

  /** Every header-only row added since lies where the node gave a tip that makes it final. */
  ghost predicate OnlyFinalAdded(t: Tables, u: Tables, node: Node, depth: nat, since: nat, until: nat) {
    forall b :: IsHeaderOnly(u, b) && b !in t.blocks ==> WasFinal(node, depth, since, until, b.height)
  }

  lemma NoneAdded(t: Tables)
    ensures forall node, depth, since, until :: OnlyFinalAdded(t, t, node, depth, since, until)
  {
  }

  lemma NewAreFinal(t: Tables, u: Tables, first: nat, lowest: nat, next: nat, node: Node, depth: nat, since: nat, m: nat, until: nat)
    requires Inv(t, first, lowest) && Inv(u, first, next) && t.cursor.Some? && Extends(t, u)
    requires since <= m && AllFinal(node, depth, m, until, next, lowest)
    ensures OnlyFinalAdded(t, u, node, depth, since, until)
  {
    hide HistoryOk, ArchiveOk, HeadersOk, ProgressOk, TipFinal;
    assert u.cursor.Some?;
    hide Extends;
    forall b | IsHeaderOnly(u, b) && b !in t.blocks
      ensures WasFinal(node, depth, since, until, b.height)
    {
      NewHeaderIsBelow(t, u, first, lowest, next, b);
      assert WasFinal(node, depth, m, until, b.height);
      var k: nat :| m <= k < until && TipFinal(node, depth, k, b.height);
    }
  }

  lemma NothingCopied(node: Node, depth: nat, since: nat, lowest: nat)
    ensures AllFinal(node, depth, since, since, lowest, lowest)
  {
  }

  /** What lets the backfill go through: the headers are there, the link fits, and every tip is far enough ahead. */
  ghost predicate ServesFrom(node: Node, chain: nat -> Header, from: nat, link: string, depth: nat, since: nat) {
    Serves(node, chain, from, since) && link == chain(from).hash && TipsBeyond(node, from, depth, since)
  }

  lemma StillServes(node: Node, chain: nat -> Header, from: nat, link: string, depth: nat, since: nat, m: nat, next: nat)
    requires ServesFrom(node, chain, from, link, depth, since) && since <= m && next <= from
    ensures Serves(node, chain, next, m + 1)
    ensures node.tip(m).Some? && next <= Saturating(node.tip(m).value, Max(depth, FINAL_DEPTH) + 1)
    ensures forall h: nat :: 0 < h <= next ==> chain(h).prevHash == chain(h - 1).hash
  {
  }

  /** A batch copied under a tip whose horizon it does not pass is final. */
  lemma BatchIsFinal(node: Node, depth: nat, since: nat, until: nat, low: nat, next: nat, high: nat, m: nat, bottom: nat)
    requires AllFinal(node, depth, since, until, next + 1, high) && since <= m < until && node.tip(m).Some?
    requires next <= Saturating(node.tip(m).value, Max(depth, FINAL_DEPTH) + 1) && low <= bottom
    ensures AllFinal(node, depth, since, until, bottom, high)
  {
    forall h: nat | bottom <= h < high
      ensures WasFinal(node, depth, since, until, h)
    {
      if h <= next { assert TipFinal(node, depth, m, h); }
    }
  }

  lemma FinalJoins(node: Node, depth: nat, since: nat, early: nat, m: nat, until: nat, low: nat, middle: nat, high: nat)
    requires AllFinal(node, depth, since, early, middle, high) && AllFinal(node, depth, m, until, low, middle) && since <= m && early <= until
    ensures AllFinal(node, depth, since, until, low, high)
  {
    hide TipFinal;
    forall h: nat | low <= h < high
      ensures WasFinal(node, depth, since, until, h)
    {
      assert WasFinal(node, depth, since, early, h) || WasFinal(node, depth, m, until, h);
      var k: nat :| since <= k < until && TipFinal(node, depth, k, h);
    }
  }

  lemma ParentOf(node: Node, chain: nat -> Header, top: nat, since: nat, height: nat)
    requires Serves(node, chain, top, since) && height <= top
    ensures height > 0 ==> chain(height).prevHash == chain(height - 1).hash
  {
  }

  /**
    The block is stored as the node served it: with the body its details hold; else, where
    raw blocks are asked for and this one decodes, with that body; else as a gap.
   */
  ghost predicate ServedAs(t: Tables, u: Tables, node: Node, moment: nat, d: Details, fallback: bool, now: nat) {
    if d.retained.Some? then BodyRecorded(t, u, d.header, d.retained.value, "details")
    else if fallback && node.decoded(moment, d.header.height, d.header.hash).Some?
      then BodyRecorded(t, u, d.header, node.decoded(moment, d.header.height, d.header.hash).value, "getblock")
    else GapRecordedFor(t, u, d.header, now)
  }

  /** A block whose height shows another hash is replaced by what the node serves there, in its details or raw, or left as a gap. */
  ghost predicate RecheckedAs(t: Tables, u: Tables, node: Node, height: nat, seen: string, moment: nat, fallback: bool, now: nat) {
    var k := CanonicalAt(t.log, height);
    if k.None? || k.value.hash == seen || (k.value in t.blocks && t.blocks[k.value].source == Some("header")) then u == t
    else match node.details(moment, height)
      case Failed => u == t
      case Nothing => Replaced(t, u, height, k.value, None, None, "", now)
      case Found(d) =>
        var raw := node.decoded(moment + 1, d.header.height, d.header.hash);
        && (d.retained.Some? ==> Replaced(t, u, height, k.value, Some(d.header), d.retained, "details", now))
        && (d.retained.None? && fallback && raw.Some? ==> Replaced(t, u, height, k.value, Some(d.header), raw, "getblock", now))
        && (d.retained.None? && !(fallback && raw.Some?) ==> Replaced(t, u, height, k.value, Some(d.header), None, "", now))
  }

  lemma GapHasNoSource(t: Tables, u: Tables, height: nat, k: BlockKey, header: Header, source: string, now: nat)
    requires Replaced(t, u, height, k, Some(header), None, source, now)
    ensures Replaced(t, u, height, k, Some(header), None, "", now)
  {
    hide GapRecordedFor, Returned, IsCanonical;
  }

  /** What a recheck leaves, in the transaction's own terms and in those of the node's answers. */
  ghost predicate ReplacedFrom(t: Tables, u: Tables, node: Node, height: nat, seen: string, moment: nat, fallback: bool, orphanedAt: nat, now: nat) {
    && RecheckedAs(t, u, node, height, seen, moment, fallback, now)
    && match node.details(moment, height)
       case Failed => u == t
       case Nothing => u == RecheckTables(t, height, seen, None, orphanedAt, now)
       case Found(d) => u == RecheckTables(t, height, seen, Some(ResolveBody(node, moment + 1, d, fallback)), orphanedAt, now)
  }

  lemma RecheckResolved(t: Tables, first: nat, lowest: nat, node: Node, height: nat, seen: string, moment: nat, fallback: bool, orphanedAt: nat, now: nat)
    requires Inv(t, first, lowest) && Before(t.log, orphanedAt) && orphanedAt < now && node.Ok() && !node.details(moment, height).Failed?
    ensures var offer := match node.details(moment, height)
                         case Found(d) => Some(ResolveBody(node, moment + 1, d, fallback))
                         case _ => None;
            ReplacedFrom(t, RecheckTables(t, height, seen, offer, orphanedAt, now), node, height, seen, moment, fallback, orphanedAt, now)
  {
    hide HistoryOk, ArchiveOk, HeadersOk, ProgressOk, CanonicalAt, RecheckTables, Replaced;
    match node.details(moment, height)
    case Nothing => RecheckReplaces(t, height, seen, None, orphanedAt, now);
    case Found(d) =>
      var offer := ResolveBody(node, moment + 1, d, fallback);
      var u := RecheckTables(t, height, seen, Some(offer), orphanedAt, now);
      RecheckReplaces(t, height, seen, Some(offer), orphanedAt, now);
      var k := CanonicalAt(t.log, height);
      if k.Some? && offer.body.None? && Replaced(t, u, height, k.value, Some(d.header), None, offer.source, now) {
        GapHasNoSource(t, u, height, k.value, d.header, offer.source, now);
      }
  }

  lemma NothingReplaced(t: Tables, node: Node, height: nat, seen: string, moment: nat, fallback: bool, orphanedAt: nat, now: nat)
    requires var k := CanonicalAt(t.log, height);
             || k.None? || k.value.hash == seen || IsHeaderOnly(t, k.value) || node.details(moment, height).Failed?
    ensures ReplacedFrom(t, t, node, height, seen, moment, fallback, orphanedAt, now)
  {
    var k := CanonicalAt(t.log, height);
    if k.None? || k.value.hash == seen || IsHeaderOnly(t, k.value) { NothingToRecheck(t, height, seen); }
    hide CanonicalAt, Replaced, RecheckTables;
  }

  /** The canonical block at the height is the archive's own and has no body yet. */
  predicate OpenAt(t: Tables, k: Option<BlockKey>) {
    k.Some? && k.value in t.blocks && !t.blocks[k.value].captured && t.blocks[k.value].source != Some("header")
  }

  /** A retried gap has its body from the raw block if the node serves one that decodes; else nothing changes. */
  ghost predicate RetriedAs(t: Tables, u: Tables, node: Node, height: nat, moment: nat) {
    var k := CanonicalAt(t.log, height);
    if OpenAt(t, k) && node.decoded(moment, height, k.value.hash).Some?
    then k.value.height == height && BodyCame(t, u, k.value, node.decoded(moment, height, k.value.hash).value, "getblock", moment + 1)
    else u == t
  }

  lemma GapRetried(t: Tables, first: nat, lowest: nat, node: Node, height: nat, moment: nat)
    requires Inv(t, first, lowest)
    ensures var k := CanonicalAt(t.log, height);
            if k.Some? && Uncaptured(t, k.value) && node.decoded(moment, height, k.value.hash).Some?
            then RetriedAs(t, RecoverGapTables(t, height, node.decoded(moment, height, k.value.hash).value, "getblock", moment + 1), node, height, moment)
            else RetriedAs(t, t, node, height, moment)
  {
    hide HistoryOk, ArchiveOk, HeadersOk, ProgressOk, CanonicalAt, RecoverGapTables, BodyCame;
    var k := CanonicalAt(t.log, height);
    if k.Some? && Uncaptured(t, k.value) && node.decoded(moment, height, k.value.hash).Some? {
      RecoversBody(t, height, node.decoded(moment, height, k.value.hash).value, "getblock", moment + 1);
    }
  }

  /** What an offered gap comes to: only a body that passes the check against the block's own header is recorded. */
  ghost predicate FilledAs(t: Tables, u: Tables, height: nat, source: string, find: (nat, string) -> Found, root: seq<seq<nat>> -> string, now: nat, r: Filled) {
    var k := CanonicalAt(t.log, height);
    if !OpenAt(t, k) then r == Skipped && u == t
    else match find(height, k.value.hash)
      case NotInSource => r == Missing && u == t
      case Refused => r == Rejected && u == t
      case Offered(body) =>
        if BodyChecks(body, t.blocks[k.value].txRoot, root)
        then r == Imported(body) && k.value.height == height && BodyCame(t, u, k.value, body, source, now)
        else r == Rejected && u == t
  }

  lemma GapFilled(t: Tables, first: nat, lowest: nat, height: nat, source: string, find: (nat, string) -> Found, root: seq<seq<nat>> -> string, now: nat)
    requires Inv(t, first, lowest) && source != HEADER_ONLY
    ensures var r := FillOutcome(t, height, find, root);
            FilledAs(t, if r.Imported? then RecoverGapTables(t, height, r.body, source, now) else t, height, source, find, root, now, r)
  {
    hide HistoryOk, ArchiveOk, HeadersOk, ProgressOk, CanonicalAt, RecoverGapTables, BodyCame, BodyChecks;
    var r := FillOutcome(t, height, find, root);
    if r.Imported? { RecoversBody(t, height, r.body, source, now); }
  }

  /** Asked from the tip down, one call a height: did the node serve a raw block? */
  ghost predicate Served(node: Node, tip: nat, from: nat, h: nat)
    requires h <= tip
  {
    node.serves(from + (tip - h), h)
  }

  /** The oldest of the last 43 heights down to which the node served every body; the tip where it serves none. */
  ghost predicate StartsAt(node: Node, tip: nat, from: nat, start: nat) {
    && start <= tip <= start + 42
    && if !Served(node, tip, from, tip) then start == tip
       else (forall h :: start <= h <= tip ==> Served(node, tip, from, h)) && (start == 0 || tip == start + 42 || !Served(node, tip, from, start - 1))
  }

  /** Where a cycle begins: above the cursor, or where a fresh database starts, but never at genesis. */
  ghost predicate BeginsAt(node: Node, cursor: Option<nat>, tip: nat, moment: nat, from: nat) {
    match cursor
    case Some(h) => from == h + 1
    case None => exists start: nat :: StartsAt(node, tip, moment, start) && from == if start == 0 then 1 else start
  }

  lemma IngestResolved(t: Tables, first: nat, lowest: nat, node: Node, moment: nat, d: Details, fallback: bool, now: nat)
    requires Inv(t, first, lowest) && Enabled(t, first, lowest, Ingest(ResolveBody(node, moment, d, fallback), now))
    ensures KeyOf(d.header) !in t.blocks
    ensures ServedAs(t, Apply(t, Ingest(ResolveBody(node, moment, d, fallback), now)), node, moment, d, fallback, now)
  {
    hide Apply, BodyRecorded, GapRecordedFor, Inv, LaterAt;
    IngestStores(t, first, lowest, ResolveBody(node, moment, d, fallback), now);
  }

  function Saturating(a: nat, b: nat): nat {
    if a >= b then a - b else 0
  }

  /** What the other threads commit at a moment, and the time when they are done. */
  datatype Others = Others(steps: (Tables, nat) -> seq<Step>, done: (Tables, nat) -> nat)
  {
    /** On a started archive they commit valid steps, none of them of the header backfill, and time moves on. */
    ghost predicate Ok() {
      forall t, first, lowest, clock :: Inv(t, first, lowest) && t.cursor.Some? && Before(t.log, clock) ==> Behaves(t, first, lowest, clock)
    }

    ghost predicate Behaves(t: Tables, first: nat, lowest: nat, clock: nat) {
      && ValidRun(t, first, lowest, steps(t, clock)) && Quiet(steps(t, clock))
      && clock < done(t, clock) && Before(After(t, steps(t, clock)).log, done(t, clock))
    }
  }

  class Indexer {
    var t: Tables
    var clock: nat
    ghost var history: seq<Step>
    ghost var tried: seq<Attempt>
    const node: Node
    const others: Others
    const fallback: bool

    ghost predicate Valid()
      reads this`t, this`clock, this`history
    {
      && node.Ok() && others.Ok()
      && ValidRun(EMPTY, 0, 0, history) && t == After(EMPTY, history)
      && Before(t.log, clock)
    }

    ghost function First(): nat
      reads this`history
    {
      FirstAfter(EMPTY, 0, history)
    }

    ghost function Lowest(): nat
      reads this`history
    {
      LowestAfter(EMPTY, 0, history)
    }

    constructor (node: Node, others: Others, fallback: bool)
      requires node.Ok() && others.Ok()
      ensures Valid() && t == EMPTY && history == [] && this.node == node && this.others == others && this.fallback == fallback
    {
      this.node, this.others, this.fallback := node, others, fallback;
      t, clock, history, tried := EMPTY, 0, [], [];
    }

    /** Commits one transaction. */
    method Commit(ghost step: Step, after: Tables)
      requires Valid() && Enabled(t, First(), Lowest(), step) && after == Apply(t, step)
      requires Before(after.log, clock)
      modifies this`t, this`history
      ensures Valid() && t == after && history == old(history) + [step]
      ensures First() == NextFirst(old(t), old(First()), step) && Lowest() == NextLowest(old(t), old(Lowest()), step)
    {
      hide Enabled, Apply, NextFirst, NextLowest;
      RunAppends(EMPTY, 0, 0, history, step);
      t := after;
      history := history + [step];
    }

    /** Asks for the node's tip. */
    method AskTip() returns (tip: Option<nat>)
      requires Valid()
      modifies this`clock
      ensures Valid() && clock == old(clock) + 1 && tip == node.tip(old(clock))
    {
      tip := node.tip(clock);
      clock := clock + 1;
    }

    /** Records `height` as a block or a gap block and moves the cursor there. */
    method IngestHeight(height: nat) returns (r: Outcome)
      requires Valid() && (if t.cursor.Some? then height == t.cursor.value + 1 else height >= 1)
      modifies this`t, this`clock, this`history, this`tried
      ensures tried == old(tried) + [Ingested(height)]
      ensures Valid() && old(history) <= history && clock > old(clock)
      ensures match node.details(old(clock), height)
              case Failed => r == RpcFailed && t == old(t)
              case Nothing => r == NoHeader && t == old(t)
              case Found(d) =>
                r == Recorded
                && t == StoreOffer(old(t), ResolveBody(node, old(clock) + 1, d, fallback), old(clock) + 2).(cursor := Some(height))
      ensures r == Recorded ==>
                var d := node.details(old(clock), height).value;
                && BlockKey(height, d.header.hash) !in old(t).blocks
                && ServedAs(old(t), t, node, old(clock) + 1, d, fallback, old(clock) + 2)
    {
      hide ValidRun, After, StoreOffer, ServedAs;
      tried := tried + [Ingested(height)];
      var answer := node.details(clock, height);
      clock := clock + 1;
      if answer.Failed? { return RpcFailed; }
      if answer.Nothing? { return NoHeader; }
      var offer := ResolveBody(node, clock, answer.value, fallback);
      var now := clock + 1;
      clock := clock + 2;
      ghost var step := Ingest(offer, now);
      StoreTimes(t, offer, now);
      ValidMeansInv();
      IngestResolved(t, First(), Lowest(), node, now - 1, answer.value, fallback, now);
      Commit(step, StoreOffer(t, offer, now).(cursor := Some(height)));
      r := Recorded;
    }

    /** Checks one height of the trailing window for a reorganisation. */
    method RecheckHeight(height: nat) returns (r: Outcome)
      requires Valid()
      modifies this`t, this`clock, this`history, this`tried
      ensures tried == old(tried) + [Rechecked(height)]
      ensures Valid() && old(history) <= history && clock > old(clock)
      ensures t.cursor == old(t).cursor
      ensures match node.header(old(clock), height)
              case Failed => r == RpcFailed && t == old(t)
              case Nothing => r == NoHeader && t == old(t)
              case Found(seen) => ReplacedFrom(old(t), t, node, height, seen.hash, old(clock) + 2, fallback, old(clock) + 1, old(clock) + 4)
    {
      hide ValidRun, After, RecheckTables, CanonicalAt, Enabled, ReplacedFrom, First, Lowest;
      tried := tried + [Rechecked(height)];
      var answer := node.header(clock, height);
      clock := clock + 1;
      if answer.Failed? { return RpcFailed; }
      if answer.Nothing? { return NoHeader; }
      var seen := answer.value.hash;
      var orphanedAt := clock;
      var known := CanonicalAt(t.log, height);
      if known.None? || known.value.hash == seen || IsHeaderOnly(t, known.value) {
        NothingReplaced(t, node, height, seen, clock + 1, fallback, orphanedAt, clock + 3);
        clock := clock + 1;
        LongBefore(t.log, clock - 2, clock);
        return Recorded;
      }
      clock := clock + 1;
      // the replacement is fetched before anything is written
      var details := node.details(clock, height);
      clock := clock + 1;
      if details.Failed? {
        NothingReplaced(t, node, height, seen, clock - 1, fallback, orphanedAt, clock + 1);
        return RpcFailed;
      }
      ValidMeansInv();
      RecheckResolved(t, First(), Lowest(), node, height, seen, clock - 1, fallback, orphanedAt, clock + 1);
      var replacement: Option<Offer> := None;
      if details.Found? {
        replacement := Some(ResolveBody(node, clock, details.value, fallback));
      }
      clock := clock + 1;
      CommitRecheck(height, seen, replacement, orphanedAt);
      r := Recorded;
    }

    /** Orphans the old version and records the replacement in one transaction. */
    method CommitRecheck(height: nat, seen: string, replacement: Option<Offer>, orphanedAt: nat)
      requires Valid() && Before(t.log, orphanedAt) && orphanedAt < clock
      requires replacement.Some? ==> replacement.value.header.height == height && replacement.value.source != HEADER_ONLY
      modifies this`t, this`clock, this`history
      ensures Valid() && old(history) <= history && clock == old(clock) + 1
      ensures t == RecheckTables(old(t), height, seen, replacement, orphanedAt, old(clock)) && t.cursor == old(t).cursor
    {
      hide ValidRun, After, RecheckTables, Enabled, Before;
      var now := clock;
      RecheckReady(t, First(), Lowest(), height, seen, replacement, orphanedAt, now);
      RecheckTimes(t, height, seen, replacement, orphanedAt, now);
      LongBefore(t.log, orphanedAt, now + 1);
      clock := now + 1;
      Commit(Recheck(height, seen, replacement, orphanedAt, now), RecheckTables(t, height, seen, replacement, orphanedAt, now));
    }

    /** Retries a recorded gap from the raw block while the node still serves it. */
    method BackfillGap(height: nat)
      requires Valid()
      modifies this`t, this`clock, this`history, this`tried
      ensures tried == old(tried) + [Retried(height)]
      ensures Valid() && old(history) <= history && clock > old(clock) && t.cursor == old(t).cursor
      ensures match CanonicalAt(old(t).log, height)
              case None => t == old(t)
              case Some(b) =>
                if !Uncaptured(old(t), b) then t == old(t) else
                  match node.decoded(old(clock), height, b.hash)
                  case None => t == old(t)
                  case Some(body) => t == RecoverGapTables(old(t), height, body, "getblock", old(clock) + 1)
      ensures RetriedAs(old(t), t, node, height, old(clock))
    {
      hide ValidRun, After, RecoverGapTables, RetriedAs, Inv;
      ValidMeansInv();
      GapRetried(t, First(), Lowest(), node, height, clock);
      tried := tried + [Retried(height)];
      var known := CanonicalAt(t.log, height);
      if known.None? || !Uncaptured(t, known.value) {
        clock := clock + 1;
        return;
      }
      var body := node.decoded(clock, height, known.value.hash);
      var now := clock + 1;
      clock := clock + 2;
      if body.Some? {
        RecoverGapKeepsShape(t, height, body.value, "getblock", now);
        Commit(RecoverGap(height, body.value, "getblock", now), RecoverGapTables(t, height, body.value, "getblock", now));
      }
    }

    /** Where a fresh database begins: the oldest height of the window down to which the node served every body. */
    method FirstStartHeight(tip: nat) returns (start: nat)
      requires Valid()
      modifies this`clock
      ensures Valid() && clock >= old(clock)
      ensures StartsAt(node, tip, old(clock), start)
    {
      hide ValidRun, After;
      start := tip;
      var h := tip + 1;
      while h > Saturating(tip, GETBLOCK_SERVING_WINDOW)
        invariant Saturating(tip, GETBLOCK_SERVING_WINDOW) <= h <= tip + 1 && start == Min(h, tip)
        invariant clock == old(clock) + (tip + 1 - h)
        invariant Valid()
        invariant forall g :: h <= g <= tip ==> Served(node, tip, old(clock), g)
      {
        h := h - 1;
        var served := node.serves(clock, h);
        var _ := Tick();
        if !served { break; }
        start := h;
      }
    }

    /** Ingests the heights from `from` up to the tip; one the node has no header for yet stops it. */
    method IngestNew(from: nat, tip: nat) returns (ok: bool, ingested: nat, ghost attempts: nat)
      requires Valid() && from >= 1 && (t.cursor.Some? ==> from == t.cursor.value + 1)
      modifies this`t, this`clock, this`history, this`tried
      ensures Valid() && old(history) <= history && clock >= old(clock)
      ensures tried == old(tried) + Ingests(from, attempts) && Moved(old(t).cursor, t.cursor, ingested)
      ensures ingested <= attempts <= ingested + 1 && (ok && attempts == ingested ==> from + attempts > tip)
    {
      hide Valid, StoreOffer, ResolveBody;
      ingested, attempts := 0, 0;
      var height := from;
      while height <= tip
        invariant Valid() && old(history) <= history && clock >= old(clock)
        invariant t.cursor.Some? ==> height == t.cursor.value + 1
        invariant Moved(old(t).cursor, t.cursor, ingested)
        invariant height == from + attempts && attempts == ingested
        invariant tried == old(tried) + Ingests(from, attempts)
        decreases tip + 1 - height
      {
        var r := IngestHeight(height);
        attempts := attempts + 1;
        assert Ingests(from, attempts) == Ingests(from, attempts - 1) + [Ingested(height)];
        if r.RpcFailed? { return false, ingested, attempts; }
        if r.NoHeader? { return true, ingested, attempts; }
        ingested := ingested + 1;
        height := height + 1;
      }
      ok := true;
    }

    /** Rechecks the trailing window, whatever was just ingested. */
    method RecheckWindow(from: nat, tip: nat) returns (ok: bool)
      requires Valid() && from <= tip
      modifies this`t, this`clock, this`history, this`tried
      ensures Valid() && old(history) <= history && clock >= old(clock) && t.cursor == old(t).cursor
      ensures ok ==> tried == old(tried) + Rechecks(from, tip + 1 - from)
      ensures old(tried) <= tried
    {
      hide Valid, RecheckTables, ResolveBody;
      var height := from;
      while height <= tip
        invariant from <= height <= tip + 1
        invariant Valid() && old(history) <= history && clock >= old(clock) && t.cursor == old(t).cursor
        invariant tried == old(tried) + Rechecks(from, height - from)
        decreases tip + 1 - height
      {
        var r := RecheckHeight(height);
        if r.RpcFailed? { return false; }
        height := height + 1;
        assert Rechecks(from, height - from) == Rechecks(from, height - 1 - from) + [Rechecked(height - 1)];
      }
      ok := true;
    }

    /** Retries every gap still open at or above `from`. */
    method RetryGaps(from: nat) returns (ghost open: seq<nat>)
      requires Valid()
      modifies this`t, this`clock, this`history, this`tried
      ensures Valid() && old(history) <= history && clock >= old(clock) && t.cursor == old(t).cursor
      ensures tried == old(tried) + Retries(open)
      ensures forall h :: h in open <==> h in OpenGaps(old(t)) && h >= from
      ensures OpenGaps(t) <= OpenGaps(old(t))
    {
      hide Valid, RecoverGapTables, CanonicalAt, OpenGaps, Sorted, RetriedAs;
      var gaps := Ordered(set h | h in OpenGaps(t) && h >= from);
      open := gaps;
      SortedMembers(set h | h in OpenGaps(t) && h >= from);
      for i := 0 to |gaps|
        invariant Valid() && old(history) <= history && clock >= old(clock) && t.cursor == old(t).cursor
        invariant tried == old(tried) + Retries(gaps[..i]) && OpenGaps(t) <= OpenGaps(old(t))
      {
        ghost var before := t;
        BackfillGap(gaps[i]);
        assert Retries(gaps[..i + 1]) == Retries(gaps[..i]) + [Retried(gaps[i])];
        RetryOpensNothing(before, t, gaps[i]);
      }
      assert gaps[..|gaps|] == gaps;
    }

    /**
      One poll cycle; `false` when a call failed and the cycle is retried later. A complete
      one ingests from the cursor to the tip or to the first height without a header,
      rechecks the whole trailing window and retries every gap that was open in the
      serving window. The cursor moves by exactly the heights ingested.
     */
    method PollOnce(reorgCheckDepth: nat) returns (ok: bool, ingested: nat, ghost from: nat, ghost attempts: nat, ghost open: seq<nat>)
      requires Valid()
      modifies this`t, this`clock, this`history, this`tried
      ensures Valid() && old(history) <= history && clock > old(clock)
      ensures Moved(old(t).cursor, t.cursor, ingested)
      ensures ok ==> node.tip(old(clock)).Some? && Polled(node.tip(old(clock)).value, from, ingested, attempts)
      ensures ok ==> BeginsAt(node, old(t).cursor, node.tip(old(clock)).value, old(clock) + 1, from)
      ensures ok ==> tried == old(tried) + Cycle(node.tip(old(clock)).value, reorgCheckDepth, from, attempts, open)
      ensures ok && fallback ==>
                forall h :: h in OpenGaps(t) && h + 42 >= node.tip(old(clock)).value ==> h in open
    {
      hide Valid, OpenGaps, Ingests, Rechecks, Retries, Cycle, Moved, StartsAt;
      ingested, from, attempts, open := 0, 0, 0, [];
      var tip := AskTip();
      NothingIngested(t.cursor);
      if tip.None? { return false, 0, from, attempts, open; }
      var first := NextHeight(tip.value);
      from := first;
      var newOk;
      newOk, ingested, attempts := IngestNew(first, tip.value);
      if !newOk { return false, ingested, from, attempts, open; }
      ghost var afterNew := tried;
      var windowOk := RecheckWindow(Saturating(tip.value, reorgCheckDepth), tip.value);
      if !windowOk { return false, ingested, from, attempts, open; }
      ghost var afterWindow := tried;
      if fallback {
        open := RetryGaps(Saturating(tip.value, GETBLOCK_SERVING_WINDOW));
      }
      CycleAddsUp(old(tried), afterNew, afterWindow, tried, tip.value, reorgCheckDepth, from, attempts, open);
      ok := true;
    }

    /** The height a cycle begins at: above the cursor, or where a fresh database starts. */
    method NextHeight(tip: nat) returns (from: nat)
      requires Valid()
      modifies this`clock
      ensures Valid() && clock >= old(clock) && from >= 1
      ensures BeginsAt(node, t.cursor, tip, old(clock), from)
    {
      hide Valid, StartsAt;
      if t.cursor.Some? {
        from := t.cursor.value + 1;
      } else {
        var start := FirstStartHeight(tip);
        from := Saturating(start, 1) + 1;
      }
    }

    /** The other threads commit what they have at this moment, one transaction after the other. */
    method LetOthersRun()
      requires Valid() && t.cursor.Some?
      modifies this`t, this`clock, this`history
      ensures Valid() && Inv(t, First(), Lowest()) && old(history) <= history && clock > old(clock)
      ensures First() == old(First()) && Lowest() == old(Lowest())
      ensures BackfillUndisturbed(old(t), t, First(), Lowest()) && KeepsTop(old(t), t, First(), history[|old(history)|..])
      ensures KeepsVersions(old(t), t, history[|old(history)|..])
    {
      hide ValidRun, After, Inv, Enabled, Apply, NextFirst, NextLowest, FirstAfter, LowestAfter, BackfillUndisturbed, Extends, KeepsTop, KeepsVersions;
      ValidMeansInv();
      ghost var before, first, lowest := t, First(), Lowest();
      var steps := others.steps(t, clock);
      assert others.Behaves(t, first, lowest, clock);
      clock := others.done(t, clock);
      StillBefore(t, first, lowest, steps, clock);
      OthersKeepLink(before, first, lowest, steps);
      OthersKeepTop(before, first, lowest, steps);
      OthersKeepVersions(before, first, lowest, steps);
      hide Before, Quiet;
      NoSteps(before, first, lowest);
      assert steps[..0] == [];
      for i := 0 to |steps|
        invariant Valid() && history == old(history) + steps[..i] && clock == others.done(before, old(clock))
        invariant First() == FirstAfter(before, first, steps[..i]) && Lowest() == LowestAfter(before, lowest, steps[..i])
        invariant t == After(before, steps[..i]) && ValidRun(before, first, lowest, steps)
        invariant Before(After(before, steps).log, clock)
      {
        NextOfRun(before, first, lowest, steps, i, clock);
        Commit(steps[i], Apply(t, steps[i]));
        assert steps[..i + 1] == steps[..i] + [steps[i]];
      }
      assert steps[..|steps|] == steps && history[|old(history)|..] == steps;
      ValidMeansInv();
    }

    /**
      Copies the node's headers below the archive, top down, in batches that are checked
      link by link and committed with their progress entry, while the other threads commit
      between any two calls. Ends at genesis, where a block is still not final after
      `patience` polls, or at the first answer that does not fit; a later call goes on
      where this one stopped.
     */
    method BackfillHeaders(reorgCheckDepth: nat, patience: nat, ghost chain: nat -> Header) returns (r: BackfillResult)
      requires Valid()
      modifies this`t, this`clock, this`history
      ensures Valid() && Inv(t, First(), Lowest()) && old(history) <= history
      ensures r == Complete <==> t.progress == Some(Done)
      ensures r == Complete ==> Lowest() <= 1
      ensures Extends(old(t), t) && Lowest() <= old(Lowest())
      ensures First() == old(First()) && KeepsTop(old(t), t, First(), history[|old(history)|..])
      ensures OnlyFinalAdded(old(t), t, node, reorgCheckDepth, old(clock), clock)
      ensures forall a :: AllLeave(history[|old(history)|..], a) && CanGoOn(old(t), old(Lowest()), a, node, chain, reorgCheckDepth, old(clock)) ==> r == Complete
    {
      hide ValidRun, After, Inv, CanonicalAt, HeaderBatchTables, InsertHeaders, ParentAt, ChainDown, Enabled, Apply, NextFirst, NextLowest, FirstAfter,
           LowestAfter, BackfillUndisturbed, Extends, KeepsTop, Carries, KeepsVersions, ServesFrom, AllFinal, WasFinal, CanGoOn, AllLeave, OnlyFinalAdded, First, Lowest;
      ValidMeansInv();
      hide Valid;
      ExtendsItself(t);
      KeepsTopItself(t, First());
      assert history[|history|..] == [];
      var heights := RowHeights(t);
      RowsOnceStarted(t, First(), Lowest());
      NoneAdded(t);
      NothingToGoOn(t, Lowest(), node, chain, reorgCheckDepth, clock);
      if heights == {} { return Waiting; }
      if t.progress == Some(Done) { DoneMeansBottom(t, First(), Lowest()); return Complete; }
      HasLeast(heights);
      var lowest :| lowest in heights && forall h | h in heights :: lowest <= h;
      LowestIsLowest(t, First(), Lowest(), lowest);
      ghost var before := t;
      LetOthersRun();
      UndisturbedMeans(before, t, First(), Lowest());
      ghost var moment, between := clock, history[|old(history)|..];
      AllGoOn(before, t, First(), lowest, node, chain, reorgCheckDepth, old(clock), moment, between);
      NoneNew(before, t, First(), lowest);
      // the link below the lowest row
      var link := CanonicalAt(t.log, lowest);
      if link.None? { return Stopped; }
      LinkIsParent(t, First(), lowest, link.value);
      ghost var linked, past := t, history;
      r := BackfillFrom(lowest - 1, t.blocks[link.value].prevHash, reorgCheckDepth, patience, chain);
      CarriesTop(before, linked, t, First(), lowest, Lowest(), old(history), past, history);
      NewAreFinal(before, t, First(), lowest, Lowest(), node, reorgCheckDepth, old(clock), moment, clock);
    }

    method BackfillFrom(from: nat, link: string, reorgCheckDepth: nat, patience: nat, ghost chain: nat -> Header) returns (r: BackfillResult)
      requires Valid() && Inv(t, First(), Lowest()) && t.cursor.Some? && t.progress != Some(Done)
      requires Lowest() == from + 1 && ParentAt(t, from + 1, First(), link)
      modifies this`t, this`clock, this`history
      ensures Valid() && Inv(t, First(), Lowest()) && old(history) <= history
      ensures r == Complete <==> t.progress == Some(Done)
      ensures r == Complete ==> Lowest() <= 1
      ensures First() == old(First()) && Lowest() <= old(Lowest())
      ensures exists expected :: Carries(old(t), old(Lowest()), link, t, Lowest(), expected, First(), history[|old(history)|..])
      ensures clock >= old(clock) && AllFinal(node, reorgCheckDepth, old(clock), clock, Lowest(), old(Lowest()))
      ensures ServesFrom(node, chain, from, link, reorgCheckDepth, old(clock)) ==> r == Complete
    {
      hide Valid, ValidRun, After, Inv, ParentAt, First, Lowest, Carries, AllFinal, Serves, TipsBeyond, BackfillUndisturbed, KeepsTop, KeepsVersions;
      NothingCopied(node, reorgCheckDepth, clock, Lowest());
      CarriesItself(t, Lowest(), link, First());
      assert history[|history|..] == [];
      var next: nat, expected, left: nat := from, link, patience;
      while true
        invariant Valid() && old(history) <= history
        invariant Inv(t, First(), Lowest()) && t.cursor.Some? && t.progress != Some(Done)
        invariant First() == old(First()) && Lowest() == next + 1 && next <= from && ParentAt(t, next + 1, First(), expected)
        invariant Carries(old(t), old(Lowest()), link, t, Lowest(), expected, First(), history[|old(history)|..])
        invariant clock >= old(clock) && AllFinal(node, reorgCheckDepth, old(clock), clock, Lowest(), old(Lowest()))
        invariant ServesFrom(node, chain, from, link, reorgCheckDepth, old(clock)) ==> expected == chain(next).hash
        decreases next, left
      {
        ghost var here, past, top, moment := t, history, Lowest(), clock;
        if ServesFrom(node, chain, from, link, reorgCheckDepth, old(clock)) { StillServes(node, chain, from, link, reorgCheckDepth, old(clock), moment, next); }
        var tip := AskTip();
        FinalLater(node, reorgCheckDepth, old(clock), moment, clock, Lowest(), old(Lowest()));
        if tip.None? { return Stopped; }
        ghost var before := expected;
        if next > Saturating(tip.value, Max(reorgCheckDepth, FINAL_DEPTH) + 1) {
          if left == 0 { return Waiting; }
          left := left - 1;
          LetOthersRun();
          UndisturbedMeans(here, t, First(), Lowest());
          OthersCarry(here, t, Lowest(), expected, First(), history[|past|..]);
          FinalLater(node, reorgCheckDepth, old(clock), moment + 1, clock, Lowest(), old(Lowest()));
          CarriesOn(old(t), old(Lowest()), link, here, top, before, t, Lowest(), expected, First(), old(history), past, history);
          continue;
        }
        var low := Saturating(next, HEADER_BATCH - 1);
        var ok;
        expected, ok := CopyBatch(next, low, expected, reorgCheckDepth, moment, chain);
        FinalJoins(node, reorgCheckDepth, old(clock), moment + 1, moment, clock, Lowest(), top, old(Lowest()));
        CarriesOn(old(t), old(Lowest()), link, here, top, before, t, Lowest(), expected, First(), old(history), past, history);
        if !ok { return Stopped; }
        if low == 0 { DoneMeansBottom(t, First(), Lowest()); return Complete; }
        next := low - 1;
      }
    }

    /** Fetches the headers from `next` down to `low` and commits them with their progress entry; `below` is the hash the next one down must have. */
    method CopyBatch(next: nat, low: nat, expected: string, ghost depth: nat, ghost asked: nat, ghost chain: nat -> Header) returns (below: string, ok: bool)
      requires Valid() && Inv(t, First(), Lowest()) && t.cursor.Some? && t.progress != Some(Done)
      requires low <= next && Lowest() == next + 1 && ParentAt(t, next + 1, First(), expected)
      requires asked < clock && node.tip(asked).Some? && next <= Saturating(node.tip(asked).value, Max(depth, FINAL_DEPTH) + 1)
      modifies this`t, this`clock, this`history
      ensures Valid() && Inv(t, First(), Lowest()) && t.cursor.Some? && old(history) <= history && clock >= old(clock)
      ensures First() == old(First()) && Lowest() <= old(Lowest()) && ParentAt(t, Lowest(), First(), below)
      ensures t.progress == if ok then Some(if low == 0 then Done else Next(low - 1)) else old(t).progress
      ensures ok && low > 0 ==> Lowest() == low
      ensures Carries(old(t), old(Lowest()), expected, t, Lowest(), below, First(), history[|old(history)|..])
      ensures AllFinal(node, depth, asked, clock, Lowest(), old(Lowest()))
      ensures Serves(node, chain, next, old(clock)) && expected == chain(next).hash ==> ok && (low > 0 ==> below == chain(low - 1).hash)
    {
      hide Valid, ValidRun, After, Inv, HeaderBatchTables, HeadersWritten, ParentAt, ChainDown, Enabled, First, Lowest, Carries, BackfillUndisturbed, KeepsTop, Serves, AllFinal, TipFinal;
      ghost var here, past := t, history;
      if Serves(node, chain, next, clock) { ParentOf(node, chain, next, clock, low); }
      var batch;
      batch, ok := FetchBatch(next, low, expected, chain);
      UndisturbedMeans(here, t, First(), Lowest());
      OthersCarry(here, t, Lowest(), expected, First(), history[|past|..]);
      BatchIsFinal(node, depth, asked, clock, low, next, next + 1, asked, next + 1);
      if !ok { return expected, false; }
      ghost var fetched, now, stretch := t, clock, history[|past|..];
      CommitBatch(batch, expected, low);
      BatchCarries(here, next + 1, expected, fetched, First(), stretch, batch, low, now);
      BatchIsFinal(node, depth, asked, clock, low, next, next + 1, asked, Lowest());
      assert history[|past|..] == stretch + [HeaderBatch(batch, expected, low, now)];
      below := if batch == [] then expected else batch[|batch| - 1].prevHash;
    }

    lemma ValidMeansInv()
      requires Valid()
      ensures Inv(t, First(), Lowest()) && Before(t.log, clock)
    {
      hide ValidRun, After, Inv;
      EmptyDatabaseOk();
      RunKeepsInv(EMPTY, 0, 0, history);
    }

    /** Commits one batch with its progress entry. */
    method CommitBatch(batch: seq<Header>, ghost expected: string, low: nat)
      requires Valid() && t.cursor.Some? && t.progress != Some(Done) && low < Lowest()
      requires ChainDown(batch, expected, Lowest(), low) && ParentAt(t, Lowest(), First(), expected)
      modifies this`t, this`clock, this`history
      ensures Valid() && Inv(t, First(), Lowest()) && old(history) <= history && clock > old(clock)
      ensures t == HeaderBatchTables(old(t), batch, low, old(clock)) && HeadersWritten(old(t), t, batch)
      ensures t.cursor == old(t).cursor && Extends(old(t), t)
      ensures t.progress == Some(if low == 0 then Done else Next(low - 1))
      ensures First() == old(First()) && Lowest() == old(Lowest()) - |batch|
      ensures ParentAt(t, Lowest(), First(), ExpectedAt(batch, expected, |batch|))
      ensures Enabled(old(t), old(First()), old(Lowest()), HeaderBatch(batch, expected, low, old(clock)))
      ensures history == old(history) + [HeaderBatch(batch, expected, low, old(clock))] && |batch| <= old(Lowest())
    {
      hide ValidRun, After, Inv, HeaderBatchTables, HeadersWritten, InsertHeaders, ParentAt, ChainDown, Enabled, Apply, NextFirst, NextLowest, FirstAfter, LowestAfter;
      ValidMeansInv();
      var now := clock;
      clock := clock + 1;
      LongBefore(t.log, now, clock);
      ghost var step := HeaderBatch(batch, expected, low, now);
      BatchCommits(t, First(), Lowest(), batch, expected, low, now);
      Commit(step, HeaderBatchTables(t, batch, low, now));
    }

    /** One header call, the other threads committing what they have before it. */
    method AskHeader(height: nat) returns (answer: Answer<Header>, ghost moment: nat)
      requires Valid() && t.cursor.Some?
      modifies this`t, this`clock, this`history
      ensures Valid() && Inv(t, First(), Lowest()) && old(history) <= history && clock > old(clock)
      ensures First() == old(First()) && Lowest() == old(Lowest())
      ensures BackfillUndisturbed(old(t), t, First(), Lowest()) && t.cursor.Some? && KeepsTop(old(t), t, First(), history[|old(history)|..])
      ensures old(clock) <= moment < clock && answer == node.header(moment, height)
    {
      hide Valid, Inv, BackfillUndisturbed, First, Lowest, KeepsTop;
      LetOthersRun();
      CursorOfUndisturbed(old(t), t, First(), Lowest());
      answer := node.header(clock, height);
      moment := clock;
      var _ := Tick();
    }

    /** Fetches the headers `next` down to `low`, each the parent of the one above; the other threads commit between the calls. */
    method FetchBatch(next: nat, low: nat, expected: string, ghost chain: nat -> Header) returns (batch: seq<Header>, ok: bool)
      requires low <= next && Valid() && t.cursor.Some? && Inv(t, First(), Lowest())
      modifies this`t, this`clock, this`history
      ensures Valid() && Inv(t, First(), Lowest()) && old(history) <= history
      ensures First() == old(First()) && Lowest() == old(Lowest())
      ensures BackfillUndisturbed(old(t), t, First(), Lowest()) && KeepsTop(old(t), t, First(), history[|old(history)|..])
      ensures ok ==> ChainDown(batch, expected, next + 1, low) && (low > 0 ==> |batch| == next + 1 - low)
      ensures clock >= old(clock)
      ensures Serves(node, chain, next, old(clock)) && expected == chain(next).hash ==>
                ok && |batch| == next + 1 - low && batch[|batch| - 1] == chain(low)
    {
      hide Valid, Inv, BackfillUndisturbed, First, Lowest, ChainDown, LinkedSoFar, KeepsTop, Serves;
      batch := [];
      UndisturbedItself(t, First(), Lowest());
      KeepsTopItself(t, First());
      assert history[|history|..] == [];
      NothingLinked(expected, next);
      var wanted := expected;
      var height := next + 1;
      while height > low
        invariant low <= height <= next + 1 && |batch| == next + 1 - height && t.cursor.Some?
        invariant LinkedSoFar(batch, expected, next, wanted) && clock >= old(clock)
        invariant Serves(node, chain, next, old(clock)) && expected == chain(next).hash ==> Following(chain, batch, height, wanted)
        invariant Valid() && Inv(t, First(), Lowest()) && old(history) <= history
        invariant First() == old(First()) && Lowest() == old(Lowest())
        invariant BackfillUndisturbed(old(t), t, First(), Lowest()) && KeepsTop(old(t), t, First(), history[|old(history)|..])
        decreases height
      {
        height := height - 1;
        ghost var here, past := t, history;
        var answer, moment := AskHeader(height);
        if Serves(node, chain, next, old(clock)) && expected == chain(next).hash { ServedNext(node, chain, next, old(clock), moment, height, batch, wanted); }
        UndisturbedChains(old(t), here, t, First(), Lowest());
        Stretches(old(history), past, history);
        KeepsTopTwice(old(t), here, t, First(), past[|old(history)|..], history[|past|..]);
        if answer.Failed? { return batch, false; }
        if answer.Nothing? {
          // the node may serve no header for genesis
          if height == 0 { LinkedIsChain(batch, expected, next, wanted, low); }
          return batch, height == 0;
        }
        var header := answer.value;
        if header.height != height || header.hash != wanted { return batch, false; }
        OneMoreLinked(batch, expected, next, wanted, header);
        wanted := header.prevHash;
        batch := batch + [header];
      }
      LinkedIsChain(batch, expected, next, wanted, low);
      ok := true;
    }

    /** Deletes the transaction detail of captured archive blocks older than the cutoff, one block per transaction. */
    method PruneOlderThan(cutoff: int) returns (n: nat)
      requires Valid()
      modifies this`t, this`history
      ensures Valid() && old(history) <= history
      ensures var pruned := set b | b in old(t).blocks && Prunable(old(t), b, cutoff);
              t == PruneBlocks(old(t), pruned) && n == |pruned|
      ensures PrunedBefore(old(t), t, cutoff) && n == |set b | b in old(t).blocks && TooOld(old(t), b, cutoff)|
    {
      ghost var before := t;
      hide ValidRun, After, PruneBlocks, Enabled, Before, PrunedBefore, TooOld;
      PruneMeans(t, cutoff);
      var todo := set b | b in t.blocks && Prunable(t, b, cutoff);
      n := |todo|;
      ghost var done: set<BlockKey> := {};
      NothingPruned(t);
      while todo != {}
        invariant Valid() && old(history) <= history
        invariant done + todo == (set b | b in before.blocks && Prunable(before, b, cutoff)) && done !! todo
        invariant t == PruneBlocks(before, done) && Before(before.log, clock)
        decreases todo
      {
        var b :| b in todo;
        PruneReady(before, done, b, cutoff, clock, First(), Lowest());
        OneMorePruned(before, done, b);
        Commit(Prune(b), PruneBlocks(t, {b}));
        done, todo := done + {b}, todo - {b};
      }
      assert done == set b | b in before.blocks && Prunable(before, b, cutoff);
      assert done == set b | b in before.blocks && TooOld(before, b, cutoff);
    }

    /** Offers one open gap to another permanode's bodies; only a body that passes the check is recorded. */
    method FillGap(height: nat, source: string, find: (nat, string) -> Found, root: seq<seq<nat>> -> string) returns (r: Filled)
      requires Valid() && source != HEADER_ONLY
      modifies this`t, this`clock, this`history
      ensures Valid() && old(history) <= history && clock == old(clock) + 1
      ensures r == FillOutcome(old(t), height, find, root)
      ensures if r.Imported? then t == RecoverGapTables(old(t), height, r.body, source, old(clock)) else t == old(t)
      ensures FilledAs(old(t), t, height, source, find, root, old(clock), r)
    {
      hide ValidRun, After, RecoverGapTables, BodyChecks, FilledAs, Inv;
      ValidMeansInv();
      GapFilled(t, First(), Lowest(), height, source, find, root, clock);
      var now := clock;
      clock := clock + 1;
      LongBefore(t.log, now, clock);
      var known := CanonicalAt(t.log, height);
      if known.None? || !Uncaptured(t, known.value) { return Skipped; }
      var answer := find(height, known.value.hash);
      match answer
      case NotInSource => r := Missing;
      case Refused => r := Rejected;
      case Offered(body) =>
        var ok := CheckBody(body, t.blocks[known.value].txRoot, root);
        if !ok { return Rejected; }
        RecoverGapKeepsShape(t, height, body, source, now);
        Commit(RecoverGap(height, body, source, now), RecoverGapTables(t, height, body, source, now));
        r := Imported(body);
    }

    /** Commits a statement that leaves the block history alone. */
    method CommitElsewhere(after: Tables)
      requires Valid() && SameShape(t, after)
      modifies this`t, this`history
      ensures Valid() && t == after && old(history) <= history
    {
      hide ValidRun, After;
      Commit(Elsewhere(after), after);
    }

    /** Offers the first `n` of these gaps in turn, counting what became of each. */
    method OfferGaps(open: seq<nat>, n: nat, source: string, find: (nat, string) -> Found, root: seq<seq<nat>> -> string)
      returns (imported: nat, missing: nat, rejected: nat)
      requires Valid() && source != HEADER_ONLY && n <= |open|
      modifies this`t, this`clock, this`history
      ensures Valid() && old(history) <= history && clock == old(clock) + n
      ensures var offers := Offers(old(t), open, source, find, root, old(clock));
              && t == FilledAfter(offers, n)
              && imported == Tally(offers, n, (o: Filled) => o.Imported?)
              && missing == Tally(offers, n, (o: Filled) => o.Missing?)
              && rejected == Tally(offers, n, (o: Filled) => o.Rejected?)
    {
      hide Valid, RecoverGapTables, FillOutcome, FilledAs;
      ghost var start := clock;
      ghost var offers := Offers(t, open, source, find, root, start);
      imported, missing, rejected := 0, 0, 0;
      for i := 0 to n
        invariant Valid() && old(history) <= history && clock == start + i
        invariant t == FilledAfter(offers, i)
        invariant imported == Tally(offers, i, (o: Filled) => o.Imported?)
        invariant missing == Tally(offers, i, (o: Filled) => o.Missing?)
        invariant rejected == Tally(offers, i, (o: Filled) => o.Rejected?)
      {
        var r := FillGap(open[i], source, find, root);
        assert r == OutcomeAt(offers, i);
        match r
        case Imported(_) => imported := imported + 1;
        case Missing => missing := missing + 1;
        case Rejected => rejected := rejected + 1;
        case Skipped =>
      }
    }

    /**
      Offers every open gap, lowest first, at most `max`; then clears the flags whose spend
      came with a body and closes the gaps whose block has one. No gap stays open whose
      canonical block has a body.
     */
    method FillGaps(max: nat, source: string, find: (nat, string) -> Found, root: seq<seq<nat>> -> string)
      returns (gaps: nat, imported: nat, missing: nat, rejected: nat, cleared: nat)
      requires Valid() && source != HEADER_ONLY
      modifies this`t, this`clock, this`history
      ensures Valid() && old(history) <= history
      ensures gaps == |OpenGaps(old(t))|
      ensures var offers := Offers(old(t), Sorted(OpenGaps(old(t))), source, find, root, old(clock));
              var n := Min(|offers.open|, max);
              && t == ResolveGapsWithBodies(ClearFlags(FilledAfter(offers, n)), old(clock) + n)
              && cleared == |FlagsToClear(FilledAfter(offers, n))|
              && imported == Tally(offers, n, (o: Filled) => o.Imported?)
              && missing == Tally(offers, n, (o: Filled) => o.Missing?)
              && rejected == Tally(offers, n, (o: Filled) => o.Rejected?)
      ensures forall h :: h in OpenGaps(t) ==> !BodyOnRecord(t, h)
    {
      hide Valid, FilledAfter, Tally, BodyOnRecord, ClearFlags, FlagsToClear, ResolveGapsWithBodies, SameShape, OpenGaps;
      var open := Ordered(OpenGaps(t));
      SortedSize(OpenGaps(t));
      gaps := |open|;
      imported, missing, rejected := OfferGaps(open, Min(|open|, max), source, find, root);
      cleared := |FlagsToClear(t)|;
      FlagsKeepShape(t);
      CommitElsewhere(ClearFlags(t));
      var now := Tick();
      GapsKeepShape(t, now);
      OpenGapsHaveNoBody(t, now);
      CommitElsewhere(ResolveGapsWithBodies(t, now));
    }

    method Tick() returns (now: nat)
      requires Valid()
      modifies this`clock
      ensures Valid() && now == old(clock) && clock == now + 1
    {
      hide ValidRun, After;
      now := clock;
      clock := clock + 1;
      LongBefore(t.log, now, clock);
    }
  }

  lemma FlagsKeepShape(t: Tables)
    ensures SameShape(t, ClearFlags(t))
  {
    hide Clearable;
  }

  lemma GapsKeepShape(t: Tables, now: nat)
    ensures SameShape(t, ResolveGapsWithBodies(t, now))
  {
    hide BodyOnRecord;
  }

  /** No gap stays open whose canonical block has a body. */
  lemma OpenGapsHaveNoBody(t: Tables, now: nat)
    ensures var u := ResolveGapsWithBodies(t, now); forall h :: h in OpenGaps(u) ==> !BodyOnRecord(u, h)
  {
    hide LastStatus;
    var u := ResolveGapsWithBodies(t, now);
    forall b ensures IsCanonical(u, b) <==> IsCanonical(t, b) {}
    hide IsCanonical;
    forall h | h in OpenGaps(u) ensures !BodyOnRecord(u, h) {}
  }

  /** The open gaps of a database, offered in turn to one source from a moment on. */
  datatype Offers = Offers(t: Tables, open: seq<nat>, source: string, find: (nat, string) -> Found, root: seq<seq<nat>> -> string, clock: nat)

  /** The tables after the first `n` gaps were offered. */
  ghost function FilledAfter(o: Offers, n: nat): Tables
    requires n <= |o.open|
    decreases n, 0
  {
    if n == 0 then o.t else
      match OutcomeAt(o, n - 1)
      case Imported(body) => RecoverGapTables(FilledAfter(o, n - 1), o.open[n - 1], body, o.source, o.clock + n - 1)
      case _ => FilledAfter(o, n - 1)
  }

  ghost function OutcomeAt(o: Offers, i: nat): Filled
    requires i < |o.open|
    decreases i, 1
  {
    FillOutcome(FilledAfter(o, i), o.open[i], o.find, o.root)
  }

  ghost function Tally(o: Offers, n: nat, counted: Filled -> bool): nat
    requires n <= |o.open|
  {
    if n == 0 then 0 else Tally(o, n - 1, counted) + (if counted(OutcomeAt(o, n - 1)) then 1 else 0)
  }

  function RowHeights(t: Tables): set<nat> {
    set b | b in t.blocks :: b.height
  }

  function OpenGaps(t: Tables): set<nat> {
    set h | h in t.gaps && t.gaps[h].resolvedAt.None?
  }

  datatype BackfillResult = Complete | Waiting | Stopped

  /** What another permanode answers for a block. */
  datatype Found = NotInSource | Refused | Offered(body: Body)
  datatype Filled = Skipped | Missing | Rejected | Imported(body: Body)

  /** A gap is filled exactly when it is canonical, still empty, offered, and the body checks against its own header. */
  function FillOutcome(t: Tables, height: nat, find: (nat, string) -> Found, root: seq<seq<nat>> -> string): Filled {
    match CanonicalAt(t.log, height)
    case None => Skipped
    case Some(b) =>
      if !Uncaptured(t, b) then Skipped else
        match find(height, b.hash)
        case NotInSource => Missing
        case Refused => Rejected
        case Offered(body) => if BodyChecks(body, t.blocks[b].txRoot, root) then Imported(body) else Rejected
  }

  // ---------------------------------------------------------------- supporting lemmas

  /** How far a complete cycle got. */
  ghost predicate Polled(tip: nat, from: nat, ingested: nat, attempts: nat) {
    ingested <= attempts <= ingested + 1 && (attempts == ingested ==> from + attempts > tip)
  }

  ghost function Cycle(tip: nat, depth: nat, from: nat, attempts: nat, open: seq<nat>): seq<Attempt> {
    var window := Saturating(tip, depth);
    Ingests(from, attempts) + Rechecks(window, tip + 1 - window) + Retries(open)
  }

  lemma CycleAddsUp(a: seq<Attempt>, b: seq<Attempt>, c: seq<Attempt>, d: seq<Attempt>, tip: nat, depth: nat, from: nat, attempts: nat, open: seq<nat>)
    requires b == a + Ingests(from, attempts)
    requires c == b + Rechecks(Saturating(tip, depth), tip + 1 - Saturating(tip, depth))
    requires d == c + Retries(open) || (open == [] && d == c)
    ensures d == a + Cycle(tip, depth, from, attempts, open)
  {
    hide Ingests, Rechecks;
    assert open == [] ==> Retries(open) == [];
  }

  lemma NothingIngested(cursor: Option<nat>)
    ensures Moved(cursor, cursor, 0)
  {
  }

  /** Retrying a gap opens none. */
  lemma RetryOpensNothing(t: Tables, u: Tables, height: nat)
    requires u == t || exists body, now :: u == RecoverGapTables(t, height, body, "getblock", now)
    ensures OpenGaps(u) <= OpenGaps(t)
  {
    hide CanonicalAt, InsertTransactions;
    if u != t {
      var body, now :| u == RecoverGapTables(t, height, body, "getblock", now);
      var b := CanonicalAt(t.log, height);
      if b.Some? && Uncaptured(t, b.value) { InsertingKeepsGaps(t, b.value, body); }
    }
  }

  lemma InsertingKeepsGaps(t: Tables, b: BlockKey, body: Body)
    requires b in t.blocks
    ensures InsertTransactions(t, b, body).gaps == t.gaps
  {
    hide TxsOf, PagesOf, InputsOf, OutputsOf, KeptProofClass;
  }

  /** The cursor advanced by `n` heights, or was set by the first of them. */
  predicate Moved(before: Option<nat>, after: Option<nat>, n: nat) {
    match before
    case Some(h) => after == Some(h + n)
    case None => after.Some? <==> n > 0
  }

  /** Every entry is older than the clock. */
  ghost predicate Before(log: seq<StatusEntry>, clock: nat) {
    forall i :: 0 <= i < |log| ==> log[i].at < clock
  }

  lemma LongBefore(log: seq<StatusEntry>, a: nat, b: nat)
    requires Before(log, a) && a <= b
    ensures Before(log, b)
  {
  }

  lemma UndisturbedMeans(t: Tables, u: Tables, first: nat, lowest: nat)
    requires BackfillUndisturbed(t, u, first, lowest)
    ensures u.cursor.Some? && u.progress == t.progress && Extends(t, u)
    ensures forall hash :: ParentAt(t, lowest, first, hash) ==> ParentAt(u, lowest, first, hash)
  {
  }

  /** The batch has come down the chain to `height`; the header below it is the one wanted. */
  ghost predicate Following(chain: nat -> Header, batch: seq<Header>, height: nat, wanted: string) {
    && (height > 0 ==> wanted == chain(height - 1).hash) && (batch != [] ==> batch[|batch| - 1] == chain(height))
  }

  lemma ServedNext(node: Node, chain: nat -> Header, top: nat, since: nat, m: nat, height: nat, batch: seq<Header>, wanted: string)
    requires Serves(node, chain, top, since) && since <= m && height <= top && Following(chain, batch, height + 1, wanted)
    ensures node.header(m, height) == Found(chain(height)) && chain(height).height == height && chain(height).hash == wanted
    ensures Following(chain, batch + [chain(height)], height, chain(height).prevHash)
  {
  }

  /** The headers of a batch so far, and the hash the next must have. */
  ghost predicate LinkedSoFar(batch: seq<Header>, expected: string, next: nat, wanted: string) {
    && wanted == ExpectedAt(batch, expected, |batch|)
    && forall i :: 0 <= i < |batch| ==> batch[i].height == next - i && batch[i].hash == ExpectedAt(batch, expected, i)
  }

  lemma NothingLinked(expected: string, next: nat)
    ensures LinkedSoFar([], expected, next, expected)
  {
  }

  lemma OneMoreLinked(batch: seq<Header>, expected: string, next: nat, wanted: string, header: Header)
    requires LinkedSoFar(batch, expected, next, wanted) && header.height == next - |batch| && header.hash == wanted
    ensures LinkedSoFar(batch + [header], expected, next, header.prevHash)
  {
  }

  lemma LinkedIsChain(batch: seq<Header>, expected: string, next: nat, wanted: string, low: nat)
    requires LinkedSoFar(batch, expected, next, wanted) && low <= next
    requires |batch| == next + 1 - low || (low == 0 && |batch| == next)
    ensures ChainDown(batch, expected, next + 1, low)
  {
  }

  lemma NoSteps(t: Tables, first: nat, lowest: nat)
    ensures After(t, []) == t && FirstAfter(t, first, []) == first && LowestAfter(t, lowest, []) == lowest
  {
  }

  lemma Stretches<T>(a: seq<T>, b: seq<T>, c: seq<T>)
    requires a <= b <= c
    ensures c[|a|..] == b[|a|..] + c[|b|..]
  {
  }

  /**
    Beyond the horizon the poll loop's window does not reach below the archive's first
    height, and reaches that height only where the window is as deep as the protocol's
    reorganisation limit and the tip has not moved: its rechecks leave the first block alone.
   */
  lemma BeyondTheHorizon(tip: nat, later: nat, depth: nat, first: nat, height: nat)
    requires first >= 2 && first - 1 <= Saturating(tip, Max(depth, FINAL_DEPTH) + 1)
    requires tip <= later && Saturating(later, depth) <= height
    ensures first <= height && (height == first ==> later == tip && depth >= FINAL_DEPTH)
  {
  }

  lemma ExtendsItself(t: Tables)
    ensures Extends(t, t)
  {
  }

  /** The entries of every state of a run are among those of its end. */
  lemma StillBefore(t: Tables, first: nat, lowest: nat, run: seq<Step>, clock: nat)
    requires ValidRun(t, first, lowest, run) && Before(After(t, run).log, clock)
    ensures Before(t.log, clock)
  {
    hide ValidRun, After;
    RunExtends(t, first, lowest, run);
  }

  lemma {:induction false} RunSplits(t: Tables, first: nat, lowest: nat, run: seq<Step>, i: nat)
    requires i <= |run| && ValidRun(t, first, lowest, run)
    ensures ValidRun(After(t, run[..i]), FirstAfter(t, first, run[..i]), LowestAfter(t, lowest, run[..i]), run[i..])
    ensures After(After(t, run[..i]), run[i..]) == After(t, run)
    decreases i
  {
    hide Enabled, Apply, NextFirst, NextLowest;
    if i > 0 {
      RunSplits(Apply(t, run[0]), NextFirst(t, first, run[0]), NextLowest(t, lowest, run[0]), run[1..], i - 1);
      assert run[..i][1..] == run[1..][..i - 1] && run[1..][i - 1..] == run[i..];
    } else {
      assert run[..0] == [] && run[0..] == run;
    }
  }

  /** The next step of a run is enabled, and leads to the next state of it. */
  lemma NextOfRun(t: Tables, first: nat, lowest: nat, run: seq<Step>, i: nat, clock: nat)
    requires i < |run| && ValidRun(t, first, lowest, run) && Before(After(t, run).log, clock)
    ensures var u, f, l := After(t, run[..i]), FirstAfter(t, first, run[..i]), LowestAfter(t, lowest, run[..i]);
            && Enabled(u, f, l, run[i]) && Before(Apply(u, run[i]).log, clock)
            && Apply(u, run[i]) == After(t, run[..i + 1])
            && NextFirst(u, f, run[i]) == FirstAfter(t, first, run[..i + 1]) && NextLowest(u, l, run[i]) == LowestAfter(t, lowest, run[..i + 1])
  {
    hide Enabled, Apply, NextFirst, NextLowest, Before;
    var u, f, l := After(t, run[..i]), FirstAfter(t, first, run[..i]), LowestAfter(t, lowest, run[..i]);
    RunSplits(t, first, lowest, run, i);
    assert run[i..][0] == run[i] && run[i..][1..] == run[i + 1..];
    RunSplits(t, first, lowest, run, i + 1);
    PrefixRun(t, first, lowest, run, i);
    RunAppends(t, first, lowest, run[..i], run[i]);
    assert run[..i + 1] == run[..i] + [run[i]];
    StillBefore(Apply(u, run[i]), NextFirst(u, f, run[i]), NextLowest(u, l, run[i]), run[i + 1..], clock);
  }

  lemma {:induction false} PrefixRun(t: Tables, first: nat, lowest: nat, run: seq<Step>, i: nat)
    requires i <= |run| && ValidRun(t, first, lowest, run)
    ensures ValidRun(t, first, lowest, run[..i])
    decreases i
  {
    hide Enabled, Apply, NextFirst, NextLowest;
    if i > 0 {
      PrefixRun(Apply(t, run[0]), NextFirst(t, first, run[0]), NextLowest(t, lowest, run[0]), run[1..], i - 1);
      assert run[..i][1..] == run[1..][..i - 1];
    }
  }

  lemma StoreTimes(t: Tables, offer: Offer, now: nat)
    requires Before(t.log, now) && offer.source != HEADER_ONLY
    ensures Before(StoreOffer(t, offer, now).log, now + 1)
  {
    hide StoreOffer, CanonicalAt;
    if CanonicalAt(t.log, offer.header.height) == Some(KeyOf(offer.header)) {
      SameVersionKeepsLog(t, offer, now);
    } else {
      StoreOfferAdopts(t, offer, now);
    }
  }

  lemma NothingToRecheck(t: Tables, height: nat, seen: string)
    requires var known := CanonicalAt(t.log, height); known.None? || known.value.hash == seen || IsHeaderOnly(t, known.value)
    ensures forall offer, a, n :: RecheckTables(t, height, seen, offer, a, n) == t
  {
    hide CanonicalAt;
  }

  lemma RecheckReady(t: Tables, first: nat, lowest: nat, height: nat, seen: string, offer: Option<Offer>, orphanedAt: nat, now: nat)
    requires Before(t.log, orphanedAt) && orphanedAt < now
    requires offer.Some? ==> offer.value.header.height == height && offer.value.source != HEADER_ONLY
    ensures Enabled(t, first, lowest, Recheck(height, seen, offer, orphanedAt, now))
  {
  }

  lemma RecheckTimes(t: Tables, height: nat, seen: string, offer: Option<Offer>, orphanedAt: nat, now: nat)
    requires Before(t.log, orphanedAt) && orphanedAt < now
    requires offer.Some? ==> offer.value.source != HEADER_ONLY
    ensures Before(RecheckTables(t, height, seen, offer, orphanedAt, now).log, now + 1)
    ensures RecheckTables(t, height, seen, offer, orphanedAt, now).cursor == t.cursor
  {
    hide CanonicalAt, StoreOffer, RecordGap;
    var r := CanonicalAt(t.log, height);
    if r.Some? {
      var t1 := MarkOrphaned(t, r.value, orphanedAt);
      assert Before(t1.log, now);
      if offer.Some? {
        StoreTimes(t1, offer.value, now);
        StoreOfferExtends(t1, offer.value, now);
      } else {
        GapRecorded(t1, height, Some(seen), orphanedAt);
      }
    }
  }

  lemma RowsOnceStarted(t: Tables, first: nat, lowest: nat)
    requires Inv(t, first, lowest)
    ensures t.cursor.Some? ==> RowHeights(t) != {}
    ensures t.cursor.None? ==> t.progress == None
  {
    hide HistoryOk, HeadersOk;
    if t.cursor.Some? {
      var b :| b in t.blocks && Archived(t.blocks[b]) && b.height == first;
      assert b.height in RowHeights(t);
    }
  }

  lemma DoneMeansBottom(t: Tables, first: nat, lowest: nat)
    requires Inv(t, first, lowest) && t.progress == Some(Done)
    ensures lowest <= 1
  {
    hide HistoryOk, HeadersOk, ArchiveOk;
  }

  /** The lowest row on record is where the header-only rows end, or the archive's first block. */
  lemma LowestIsLowest(t: Tables, first: nat, lowest: nat, least: nat)
    requires Inv(t, first, lowest) && t.progress != Some(Done)
    requires least in RowHeights(t)
    requires forall h :: h in RowHeights(t) ==> least <= h
    ensures t.cursor.Some? && least == lowest && lowest >= 1 && lowest <= first
  {
    hide HistoryOk, LinkedUp, Canon, Covered;
    var b :| b in t.blocks && b.height == least;
    RowsLieAboveLowest(t, first, lowest);
    if lowest < first {
      assert HeaderAt(t, lowest);
      var c :| IsHeaderOnly(t, c) && c.height == lowest;
      assert c.height in RowHeights(t);
    } else {
      var c :| c in t.blocks && Archived(t.blocks[c]) && c.height == first;
      assert c.height in RowHeights(t);
    }
  }

  lemma LinkIsParent(t: Tables, first: nat, lowest: nat, b: BlockKey)
    requires Inv(t, first, lowest) && t.cursor.Some? && CanonicalAt(t.log, lowest) == Some(b)
    ensures b in t.blocks && ParentAt(t, lowest, first, t.blocks[b].prevHash)
  {
    hide HeadersOk, LinkedUp, Covered, CanonicalAt, Canon;
    LookupIsTheVersion(t.log, lowest, b);
    CanonicalHasRow(t, b);
    assert LinksDown(t, b, lowest, first, t.blocks[b].prevHash);
  }

  lemma {:induction false} HeaderTimes(t: Tables, headers: seq<Header>, now: nat)
    requires InsertHeaders(t, headers, now).Some? && Before(t.log, now)
    ensures Before(InsertHeaders(t, headers, now).value.log, now + 1)
  {
    if headers != [] {
      HeaderTimes(t, headers[..|headers| - 1], now);
    }
  }

  lemma {:induction false} HeaderCursor(t: Tables, headers: seq<Header>, now: nat)
    requires InsertHeaders(t, headers, now).Some?
    ensures InsertHeaders(t, headers, now).value.cursor == t.cursor
  {
    if headers != [] {
      HeaderCursor(t, headers[..|headers| - 1], now);
    }
  }

  /** A fetched batch may be committed, and leaves the next batch its link. */
  lemma BatchCommits(t: Tables, first: nat, lowest: nat, batch: seq<Header>, expected: string, low: nat, now: nat)
    requires Inv(t, first, lowest) && t.cursor.Some? && t.progress != Some(Done) && low < lowest
    requires ChainDown(batch, expected, lowest, low) && ParentAt(t, lowest, first, expected) && Before(t.log, now)
    ensures var step := HeaderBatch(batch, expected, low, now);
            var u := HeaderBatchTables(t, batch, low, now);
            && Enabled(t, first, lowest, step) && Apply(t, step) == u && Before(u.log, now + 1)
            && u.cursor == t.cursor && Extends(t, u) && HeadersWritten(t, u, batch)
            && u.progress == Some(if low == 0 then Done else Next(low - 1))
            && NextFirst(t, first, step) == first && NextLowest(t, lowest, step) == lowest - |batch|
            && Inv(u, first, lowest - |batch|)
            && ParentAt(u, lowest - |batch|, first, ExpectedAt(batch, expected, |batch|))
  {
    hide HistoryOk, ArchiveOk, HeadersOk, Inv, ParentAt, ChainDown, InsertHeaders, HeadersWritten;
    BatchIsWritten(t, batch, expected, lowest, low, now);
    HeaderBatchKeepsInv(t, first, lowest, batch, expected, low, now);
    InvIsCore(t, first, lowest);
    HeadersGoIn(t, first, lowest, batch, expected, low, now, |batch|);
    assert batch[..|batch|] == batch;
    HeaderTimes(t, batch, now);
    HeaderCursor(t, batch, now);
    InsertedHeadersExtend(t, batch, now);
    var s := InsertHeaders(t, batch, now).value;
    ParentSurvivesProgress(s, HeaderBatchTables(t, batch, low, now), lowest - |batch|, first, ExpectedAt(batch, expected, |batch|));
  }

  lemma InvIsCore(t: Tables, first: nat, lowest: nat)
    requires Inv(t, first, lowest) && t.cursor.Some?
    ensures CoreInv(t, first, lowest)
  {
    hide HistoryOk, ArchiveOk, HeadersOk;
  }

  lemma ParentSurvivesProgress(s: Tables, u: Tables, height: nat, first: nat, hash: string)
    requires ParentAt(s, height, first, hash) && u == s.(progress := u.progress)
    ensures ParentAt(u, height, first, hash)
  {
    var a :| LinksDown(s, a, height, first, hash);
    assert LinksDown(u, a, height, first, hash);
  }

  lemma PruneReady(t: Tables, done: set<BlockKey>, b: BlockKey, cutoff: int, clock: nat, first: nat, lowest: nat)
    requires b in t.blocks && Prunable(t, b, cutoff) && Before(t.log, clock)
    ensures var u := PruneBlocks(t, done);
            Enabled(u, first, lowest, Prune(b)) && Before(PruneBlocks(u, {b}).log, clock)
  {
    PruneKeepsShape(t, done);
    PruneKeepsShape(PruneBlocks(t, done), {b});
  }

  lemma NothingPruned(t: Tables)
    ensures PruneBlocks(t, {}) == t
  {
    assert RowsOutside(t.pages, {}) == t.pages && RowsOutside(t.inputs, {}) == t.inputs && RowsOutside(t.outputs, {}) == t.outputs;
    assert TxsOutside(t.txs, {}) == t.txs && Emptied(t.blocks, {}) == t.blocks;
  }

  lemma OneMorePruned(t: Tables, done: set<BlockKey>, b: BlockKey)
    ensures PruneBlocks(PruneBlocks(t, done), {b}) == PruneBlocks(t, done + {b})
  {
    OutsideTwice(t.pages, done, b);
    OutsideTwice(t.inputs, done, b);
    OutsideTwice(t.outputs, done, b);
    EmptiedTwice(t, done, b);
    hide RowsOutside, TxsOutside, Emptied;
  }

  lemma OutsideTwice<V>(m: map<RowKey, V>, done: set<BlockKey>, b: BlockKey)
    ensures RowsOutside(RowsOutside(m, done), {b}) == RowsOutside(m, done + {b})
  {
  }

  lemma EmptiedTwice(t: Tables, done: set<BlockKey>, b: BlockKey)
    ensures TxsOutside(TxsOutside(t.txs, done), {b}) == TxsOutside(t.txs, done + {b})
    ensures Emptied(Emptied(t.blocks, done), {b}) == Emptied(t.blocks, done + {b})
  {
  }

  lemma {:induction false} SortedSize(s: set<nat>)
    ensures |Sorted(s)| == |s|
    decreases |s|
  {
    if s != {} {
      SortedSize(s - {Least(s)});
    }
  }
}
