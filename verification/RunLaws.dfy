/**
  What holds after every run of the indexer (permanode/src/indexer.rs), however the node
  reorganises between its answers: one canonical version per height, no height without a
  version or a gap, header-only rows without a hole, and nothing ever removed.
 */
module RunLaws {
  import opened Wrappers
  import opened Tables
  import opened StatusLog
  import opened Runs

  // ---------------------------------------------------------------- steps that leave the history alone

  lemma InsertingKeepsShape(t: Tables, b: BlockKey, body: Body)
    requires b in t.blocks
    ensures SameShape(t, InsertTransactions(t, b, body))
  {
    hide KeptProofClass, TxsOf, PagesOf, InputsOf, OutputsOf;
  }

  lemma RecoveringKeepsShape(t: Tables, b: BlockKey, source: string)
    requires b in t.blocks && Archived(t.blocks[b]) && source != HEADER_ONLY
    ensures SameShape(t, MarkBodyRecovered(t, b, source))
  {
  }

  lemma ResolvingKeepsShape(t: Tables, h: nat, now: nat)
    ensures SameShape(t, ResolveGap(t, h, now))
  {
  }

  lemma RecoverGapKeepsShape(t: Tables, height: nat, body: Body, source: string, now: nat)
    requires source != HEADER_ONLY
    ensures SameShape(t, RecoverGapTables(t, height, body, source, now))
  {
    hide CanonicalAt, InsertTransactions, MarkBodyRecovered, ResolveGap;
    var r := CanonicalAt(t.log, height);
    if r.Some? && Uncaptured(t, r.value) {
      InsertingKeepsShape(t, r.value, body);
      var t1 := InsertTransactions(t, r.value, body);
      RecoveringKeepsShape(t1, r.value, source);
      ResolvingKeepsShape(MarkBodyRecovered(t1, r.value, source), height, now);
    }
  }

  lemma PruneKeepsShape(t: Tables, pruned: set<BlockKey>)
    ensures SameShape(t, PruneBlocks(t, pruned))
  {
  }

  lemma SameShapeKeepsHistory(t: Tables, u: Tables)
    requires HistoryOk(t) && SameShape(t, u)
    ensures HistoryOk(u)
  {
    hide ClockRises, OneVersion;
  }

  lemma SameShapeKeepsArchive(t: Tables, u: Tables, first: nat)
    requires ArchiveOk(t, first) && SameShape(t, u)
    ensures ArchiveOk(u, first)
  {
    if t.cursor.None? { assert u.blocks.Keys == {} && u.gaps.Keys == {}; }
    hide Canon;
    forall h | Covered(t, h) ensures Covered(u, h) {}
  }

  /** Header-only rows keep their place when no row goes, none is added below, and none of them is orphaned. */
  lemma HeadersFrame(t: Tables, u: Tables, first: nat, lowest: nat)
    requires HeadersOk(t, first, lowest)
    requires t.blocks.Keys <= u.blocks.Keys
    requires forall b :: b in t.blocks ==> u.blocks[b].prevHash == t.blocks[b].prevHash && Archived(u.blocks[b]) == Archived(t.blocks[b])
    requires forall b :: b in u.blocks && b !in t.blocks ==> Archived(u.blocks[b])
    requires forall b :: IsHeaderOnly(t, b) ==> Canon(u.log, b)
    ensures HeadersOk(u, first, lowest)
  {
    hide Canon;
    forall b | IsHeaderOnly(u, b)
      ensures LinkedUp(u, b, first)
    {
      assert IsHeaderOnly(t, b) && LinkedUp(t, b, first);
      var a :| LinksDown(t, a, b.height + 1, first, b.hash);
      assert LinksDown(u, a, b.height + 1, first, b.hash);
    }
    forall h | lowest <= h < first
      ensures HeaderAt(u, h)
    {
      assert HeaderAt(t, h);
      var b :| IsHeaderOnly(t, b) && b.height == h;
      assert IsHeaderOnly(u, b);
    }
  }

  lemma HeadersAreCanonical(t: Tables, first: nat, lowest: nat)
    requires HeadersOk(t, first, lowest)
    ensures forall b :: IsHeaderOnly(t, b) ==> Canon(t.log, b)
  {
    hide Canon, LinkedUp;
  }

  lemma AdoptedIsNoHeader(t: Tables, first: nat, lowest: nat, b: BlockKey)
    requires HeadersOk(t, first, lowest) && b.height >= first
    ensures !IsHeaderOnly(t, b)
  {
    hide Canon, LinkedUp;
  }

  lemma SameShapeKeepsHeaders(t: Tables, u: Tables, first: nat, lowest: nat)
    requires HeadersOk(t, first, lowest) && SameShape(t, u)
    ensures HeadersOk(u, first, lowest)
  {
    hide HeadersOk;
    HeadersAreCanonical(t, first, lowest);
    HeadersFrame(t, u, first, lowest);
  }

  lemma SameShapeKeepsInv(t: Tables, u: Tables, first: nat, lowest: nat)
    requires Inv(t, first, lowest) && SameShape(t, u)
    ensures Inv(u, first, lowest)
  {
    hide HistoryOk, ArchiveOk, HeadersOk;
    SameShapeKeepsHistory(t, u);
    SameShapeKeepsArchive(t, u, first);
    if t.cursor.Some? { SameShapeKeepsHeaders(t, u, first, lowest); }
  }

  // ---------------------------------------------------------------- a new version of a height

  /** `b` became canonical: a row and an entry for it, a gap if it came without a body, nothing else of the history. */
  ghost predicate Adopted(t: Tables, u: Tables, b: BlockKey, prevHash: string, gap: bool, now: nat) {
    && u.log == t.log + [StatusEntry(b, Canonical, now)] && u.cursor == t.cursor && u.progress == t.progress
    && u.gaps.Keys == t.gaps.Keys + (if gap then {b.height} else {})
    && u.blocks.Keys == t.blocks.Keys + {b}
    && (forall a :: a in t.blocks ==> u.blocks[a].prevHash == t.blocks[a].prevHash && Archived(u.blocks[a]) == Archived(t.blocks[a]))
    && (b !in t.blocks ==> Archived(u.blocks[b]) && u.blocks[b].prevHash == prevHash)
  }

  lemma StoreOfferAdopts(t: Tables, offer: Offer, now: nat)
    requires offer.source != HEADER_ONLY
    requires CanonicalAt(t.log, offer.header.height) != Some(KeyOf(offer.header))
    ensures Adopted(t, StoreOffer(t, offer, now), KeyOf(offer.header), offer.header.prevHash, offer.body.None?, now)
  {
    hide CanonicalAt, InsertTransactions, InsertBlockHeaderRow, Adopted;
    var h := offer.header;
    match offer.body
    case Some(body) =>
      HeaderRowAdopts(t, h, true, Some(offer.source), now);
      var t1 := InsertBlockHeaderRow(t, h, true, Some(offer.source), now);
      assert KeyOf(h) in t1.blocks by { AdoptedHasRow(t, t1, KeyOf(h), h.prevHash, false, now); }
      InsertingKeepsShape(t1, KeyOf(h), body);
      AdoptedThenShaped(t, t1, StoreOffer(t, offer, now), KeyOf(h), h.prevHash, now);
    case None =>
      HeaderRowAdopts(t, h, false, None, now);
      GapAdopts(t, InsertBlockHeaderRow(t, h, false, None, now), KeyOf(h), h.prevHash, now, Some(h.hash));
  }

  lemma HeaderRowAdopts(t: Tables, h: Header, captured: bool, source: Option<string>, now: nat)
    requires source != Some(HEADER_ONLY)
    ensures Adopted(t, InsertBlockHeaderRow(t, h, captured, source, now), KeyOf(h), h.prevHash, false, now)
  {
  }

  lemma AdoptedHasRow(t: Tables, u: Tables, b: BlockKey, prevHash: string, gap: bool, now: nat)
    requires Adopted(t, u, b, prevHash, gap, now)
    ensures b in u.blocks
  {
  }

  lemma AdoptedThenShaped(t: Tables, t1: Tables, u: Tables, b: BlockKey, prevHash: string, now: nat)
    requires Adopted(t, t1, b, prevHash, false, now) && SameShape(t1, u)
    ensures Adopted(t, u, b, prevHash, false, now)
  {
  }

  lemma GapAdopts(t: Tables, t1: Tables, b: BlockKey, prevHash: string, now: nat, hash: Option<string>)
    requires Adopted(t, t1, b, prevHash, false, now)
    ensures Adopted(t, RecordGap(t1, b.height, hash, now), b, prevHash, true, now)
  {
    GapRecorded(t1, b.height, hash, now);
    hide RecordGap;
  }

  lemma GapRecorded(t: Tables, h: nat, hash: Option<string>, now: nat)
    ensures var u := RecordGap(t, h, hash, now);
            u == t.(gaps := u.gaps) && u.gaps.Keys == t.gaps.Keys + {h}
  {
  }

  lemma NoVersionNoLookup(log: seq<StatusEntry>, h: nat)
    requires ClockRises(log) && forall b :: Canon(log, b) ==> b.height != h
    ensures CanonicalAt(log, h) == None
  {
    LookupAgreesWithFilter(log, h);
  }

  lemma AdoptedKeepsHistory(t: Tables, u: Tables, b: BlockKey, prevHash: string, gap: bool, now: nat)
    requires HistoryOk(t) && Adopted(t, u, b, prevHash, gap, now) && Later(t.log, b, now)
    requires forall a :: Canon(t.log, a) ==> a.height != b.height
    ensures HistoryOk(u)
    ensures forall a :: Canon(u.log, a) <==> Canon(t.log, a) || a == b
  {
    hide Canon;
    AdoptingKeepsOneVersion(t.log, b, now);
    AppendedRises(t.log, StatusEntry(b, Canonical, now));
    hide ClockRises, OneVersion, Later;
  }

  lemma AdoptedKeepsHeaders(t: Tables, u: Tables, b: BlockKey, prevHash: string, gap: bool, now: nat, first: nat, lowest: nat)
    requires HeadersOk(t, first, lowest) && Adopted(t, u, b, prevHash, gap, now) && b.height >= first
    requires forall a :: Canon(u.log, a) <==> Canon(t.log, a) || a == b
    ensures HeadersOk(u, first, lowest)
  {
    hide HeadersOk, Canon;
    HeadersAreCanonical(t, first, lowest);
    AdoptedIsNoHeader(t, first, lowest, b);
    HeadersFrame(t, u, first, lowest);
  }

  // ---------------------------------------------------------------- ingest

  lemma NothingCanonicalAt(t: Tables, h: nat)
    requires HistoryOk(t) && forall b :: b in t.blocks ==> b.height != h
    ensures forall b :: Canon(t.log, b) ==> b.height != h
  {
    forall b | Canon(t.log, b) ensures b.height != h {
      var i := LastEntry(t.log, b);
      assert t.log[i].block in t.blocks;
    }
  }

  /** Every row lies below the next height to ingest. */
  lemma NextHeightIsFree(t: Tables, first: nat, lowest: nat, h: nat)
    requires Inv(t, first, lowest) && (t.cursor.Some? ==> h == t.cursor.value + 1)
    ensures forall b :: b in t.blocks ==> b.height < h
  {
    hide HistoryOk, Covered, LinkedUp, Canon;
    forall b | b in t.blocks ensures b.height < h {
      if !Archived(t.blocks[b]) { assert IsHeaderOnly(t, b); }
    }
  }

  lemma IngestKeepsInv(t: Tables, first: nat, lowest: nat, offer: Offer, now: nat)
    requires Inv(t, first, lowest) && Enabled(t, first, lowest, Ingest(offer, now))
    ensures var step := Ingest(offer, now); Inv(Apply(t, step), NextFirst(t, first, step), NextLowest(t, lowest, step))
  {
    hide StoreOffer, HistoryOk, HeadersOk, Canon;
    var b := KeyOf(offer.header);
    var h := offer.header.height;
    NextHeightIsFree(t, first, lowest, h);
    NothingCanonicalAt(t, h);
    HistoryParts(t);
    NoVersionNoLookup(t.log, h);
    StoreOfferAdopts(t, offer, now);
    var s := StoreOffer(t, offer, now);
    AdoptedKeepsHistory(t, s, b, offer.header.prevHash, offer.body.None?, now);
    var u := s.(cursor := Some(h));
    CursorKeepsHistory(s, u);
    var first' := if t.cursor.None? then h else first;
    IngestCovers(t, s, first, lowest, b, offer.header.prevHash, offer.body.None?, now);
    if t.cursor.None? {
      FreshHeaders(u, h);
    } else {
      AdoptedKeepsHeaders(t, s, b, offer.header.prevHash, offer.body.None?, now, first, lowest);
      CursorKeepsHeaders(s, u, first, lowest);
    }
  }

  lemma HistoryParts(t: Tables)
    requires HistoryOk(t)
    ensures ClockRises(t.log) && OneVersion(t.log)
  {
  }

  lemma CursorKeepsHistory(s: Tables, u: Tables)
    requires HistoryOk(s) && u == s.(cursor := u.cursor)
    ensures HistoryOk(u)
  {
    hide ClockRises, OneVersion;
  }

  lemma CursorKeepsHeaders(s: Tables, u: Tables, first: nat, lowest: nat)
    requires HeadersOk(s, first, lowest) && u == s.(cursor := u.cursor)
    ensures HeadersOk(u, first, lowest)
  {
    hide HeadersOk;
    HeadersAreCanonical(s, first, lowest);
    HeadersFrame(s, u, first, lowest);
  }

  /** After the first ingest there are no header-only rows yet. */
  lemma FreshHeaders(u: Tables, h: nat)
    requires forall b :: b in u.blocks ==> Archived(u.blocks[b])
    ensures HeadersOk(u, h, h)
  {
  }

  lemma IngestCovers(t: Tables, s: Tables, first: nat, lowest: nat, b: BlockKey, prevHash: string, gap: bool, now: nat)
    requires Inv(t, first, lowest) && Adopted(t, s, b, prevHash, gap, now) && b.height >= 1
    requires t.cursor.Some? ==> b.height == t.cursor.value + 1
    requires forall a :: Canon(s.log, a) <==> Canon(t.log, a) || a == b
    requires forall a :: a in t.blocks ==> a.height < b.height
    ensures ArchiveOk(s.(cursor := Some(b.height)), if t.cursor.None? then b.height else first)
    ensures t.cursor.None? ==> forall a :: a in s.blocks ==> Archived(s.blocks[a])
  {
    hide HistoryOk, HeadersOk, Canon;
    var u := s.(cursor := Some(b.height));
    var first' := if t.cursor.None? then b.height else first;
    forall h | first' <= h <= b.height
      ensures Covered(u, h)
    {
      if h == b.height {
        assert VersionAt(u.log, b, h);
      } else {
        assert Covered(t, h);
        if h !in t.gaps { var a :| VersionAt(t.log, a, h); assert VersionAt(u.log, a, h); }
      }
    }
  }

  // ---------------------------------------------------------------- recheck

  lemma RecheckKeepsInv(t: Tables, first: nat, lowest: nat, height: nat, seen: string, offer: Option<Offer>, orphanedAt: nat, now: nat)
    requires Inv(t, first, lowest) && Enabled(t, first, lowest, Recheck(height, seen, offer, orphanedAt, now))
    ensures Inv(RecheckTables(t, height, seen, offer, orphanedAt, now), first, lowest)
  {
    hide StoreOffer, HistoryOk, ArchiveOk, HeadersOk, Canon, CanonicalAt;
    var r := CanonicalAt(t.log, height);
    if r.Some? && r.value.hash != seen && !IsHeaderOnly(t, r.value) {
      var b := r.value;
      HistoryParts(t);
      LookupIsTheVersion(t.log, height, b);
      CanonicalHasRow(t, b);
      OnlyCanonical(t, b);
      var t1 := MarkOrphaned(t, b, orphanedAt);
      OrphanedHistory(t, b, orphanedAt, height, now);
      NoVersionNoLookup(t1.log, height);
      CursorIsSome(t, first, b);
      if offer.Some? {
        StoreOfferAdopts(t1, offer.value, now);
        var u := StoreOffer(t1, offer.value, now);
        var k := KeyOf(offer.value.header);
        AdoptedKeepsHistory(t1, u, k, offer.value.header.prevHash, offer.value.body.None?, now);
        ReplacedCovers(t, t1, u, first, b, k);
        OrphanKeepsHeaders(t, b, orphanedAt, first, lowest);
        AdoptedKeepsHeaders(t1, u, k, offer.value.header.prevHash, offer.value.body.None?, now, first, lowest);
      } else {
        var u := RecordGap(t1, height, Some(seen), orphanedAt);
        GapKeepsHistory(t1, u);
        GapCovers(t, t1, u, first, b);
        OrphanKeepsHeaders(t, b, orphanedAt, first, lowest);
        SameRowsKeepHeaders(t1, u, first, lowest);
      }
    }
  }

  /** The canonical version of a height is the only one. */
  lemma OnlyCanonical(t: Tables, b: BlockKey)
    requires HistoryOk(t) && Canon(t.log, b)
    ensures forall a :: Canon(t.log, a) && a.height == b.height ==> a == b
  {
  }

  lemma CanonicalIsCanon(t: Tables, a: BlockKey)
    ensures IsCanonical(t, a) <==> a in t.blocks && Canon(t.log, a)
  {
  }

  lemma CanonicalHasRow(t: Tables, b: BlockKey)
    requires HistoryOk(t) && Canon(t.log, b)
    ensures b in t.blocks
  {
    var i := LastEntry(t.log, b);
    assert t.log[i].block in t.blocks;
  }

  lemma CursorIsSome(t: Tables, first: nat, b: BlockKey)
    requires ArchiveOk(t, first) && b in t.blocks && !IsHeaderOnly(t, b)
    ensures t.cursor.Some? && first <= b.height <= t.cursor.value
  {
  }

  lemma OrphanedHistory(t: Tables, b: BlockKey, at: nat, height: nat, now: nat)
    requires HistoryOk(t) && b in t.blocks && b.height == height && LaterAt(t.log, height, at) && at < now
    ensures var t1 := MarkOrphaned(t, b, at);
            && HistoryOk(t1) && LaterAt(t1.log, height, now)
            && forall a :: Canon(t1.log, a) <==> Canon(t.log, a) && a != b
  {
    hide Canon;
    OrphaningKeepsOneVersion(t.log, b, at);
    AppendedRises(t.log, StatusEntry(b, Orphaned, at));
    hide ClockRises, OneVersion;
  }

  lemma ReplacedCovers(t: Tables, t1: Tables, u: Tables, first: nat, b: BlockKey, k: BlockKey)
    requires ArchiveOk(t, first) && t.cursor.Some? && b in t.blocks && first <= b.height <= t.cursor.value
    requires t1 == t.(log := t1.log) && (forall a :: Canon(t1.log, a) <==> Canon(t.log, a) && a != b)
    requires k.height == b.height && u.cursor == t.cursor && t.gaps.Keys <= u.gaps.Keys <= t.gaps.Keys + {k.height}
    requires u.blocks.Keys == t.blocks.Keys + {k}
    requires forall a :: a in t.blocks ==> Archived(u.blocks[a]) == Archived(t.blocks[a])
    requires forall a :: Canon(u.log, a) <==> Canon(t1.log, a) || a == k
    ensures ArchiveOk(u, first)
  {
    hide Canon;
    forall h | first <= h <= t.cursor.value
      ensures Covered(u, h)
    {
      if h == k.height {
        assert VersionAt(u.log, k, h);
      } else {
        assert Covered(t, h);
        if h !in t.gaps { var a :| VersionAt(t.log, a, h); assert VersionAt(u.log, a, h); }
      }
    }
  }

  lemma GapCovers(t: Tables, t1: Tables, u: Tables, first: nat, b: BlockKey)
    requires ArchiveOk(t, first) && t.cursor.Some? && b in t.blocks && first <= b.height <= t.cursor.value
    requires t1 == t.(log := t1.log) && (forall a :: Canon(t1.log, a) <==> Canon(t.log, a) && a != b)
    requires u == t1.(gaps := u.gaps) && u.gaps.Keys == t.gaps.Keys + {b.height}
    ensures ArchiveOk(u, first)
  {
    hide Canon;
    forall h | first <= h <= t.cursor.value
      ensures Covered(u, h)
    {
      assert Covered(t, h);
      if h !in u.gaps { var a :| VersionAt(t.log, a, h); assert VersionAt(u.log, a, h); }
    }
  }

  lemma GapKeepsHistory(t1: Tables, u: Tables)
    requires HistoryOk(t1) && u == t1.(gaps := u.gaps)
    ensures HistoryOk(u)
  {
    hide ClockRises, OneVersion;
  }

  lemma OrphanKeepsHeaders(t: Tables, b: BlockKey, at: nat, first: nat, lowest: nat)
    requires HeadersOk(t, first, lowest) && !IsHeaderOnly(t, b)
    ensures HeadersOk(MarkOrphaned(t, b, at), first, lowest)
  {
    hide HeadersOk, LastStatus;
    HeadersAreCanonical(t, first, lowest);
    var u := MarkOrphaned(t, b, at);
    assert u == t.(log := t.log + [StatusEntry(b, Orphaned, at)]);
    hide MarkOrphaned;
    forall c | IsHeaderOnly(t, c)
      ensures Canon(u.log, c)
    {
      Appended(t.log, StatusEntry(b, Orphaned, at), c);
    }
    hide Canon;
    HeadersFrame(t, u, first, lowest);
  }

  lemma SameRowsKeepHeaders(t: Tables, u: Tables, first: nat, lowest: nat)
    requires HeadersOk(t, first, lowest) && u == t.(gaps := u.gaps)
    ensures HeadersOk(u, first, lowest)
  {
    hide HeadersOk;
    HeadersAreCanonical(t, first, lowest);
    HeadersFrame(t, u, first, lowest);
  }

  // ---------------------------------------------------------------- header batches

  /** Everything but the progress entry. */
  ghost predicate CoreInv(t: Tables, first: nat, lowest: nat) {
    HistoryOk(t) && ArchiveOk(t, first) && t.cursor.Some? && HeadersOk(t, first, lowest)
  }

  lemma RowsLieAboveLowest(t: Tables, first: nat, lowest: nat)
    requires CoreInv(t, first, lowest)
    ensures forall b :: b in t.blocks ==> b.height >= lowest
  {
    hide HistoryOk, LinkedUp, Canon, Covered;
    forall b | b in t.blocks ensures b.height >= lowest {
      if !Archived(t.blocks[b]) { assert IsHeaderOnly(t, b); }
    }
  }

  /** A header that fits the link goes in below the lowest row. */
  lemma HeaderGoesIn(t: Tables, first: nat, lowest: nat, h: Header, now: nat)
    requires CoreInv(t, first, lowest) && lowest >= 1
    requires h.height == lowest - 1 && ParentAt(t, lowest, first, h.hash)
    ensures var r := InsertHeaderOnly(t, h, now);
            && r.Some? && CoreInv(r.value, first, lowest - 1)
            && ParentAt(r.value, lowest - 1, first, h.prevHash)
            && r.value.progress == t.progress
  {
    hide HistoryOk, ArchiveOk, HeadersOk, LastStatus, ParentAt;
    RowsLieAboveLowest(t, first, lowest);
    var b := KeyOf(h);
    var u := AppendStatus(t.(blocks := t.blocks[b := HeaderOnlyRow(h)]), b, Canonical, now);
    LowestAtMostFirst(t, first, lowest);
    HeaderEntry(t, b, h, now);
    HeaderKeepsArchive(t, u, first, b);
    HeaderExtends(t, u, first, lowest, b, h.hash);
    assert LinksDown(u, b, lowest - 1, first, h.prevHash);
    assert ParentAt(u, lowest - 1, first, h.prevHash) by { ParentIs(u, b, lowest - 1, first, h.prevHash); }
  }

  lemma ParentIs(u: Tables, b: BlockKey, height: nat, first: nat, hash: string)
    requires LinksDown(u, b, height, first, hash)
    ensures ParentAt(u, height, first, hash)
  {
  }

  lemma LowestAtMostFirst(t: Tables, first: nat, lowest: nat)
    requires HeadersOk(t, first, lowest)
    ensures lowest <= first
  {
    hide LinkedUp, Canon;
  }

  lemma HeaderEntry(t: Tables, b: BlockKey, h: Header, now: nat)
    requires HistoryOk(t) && b == KeyOf(h) && forall a :: a in t.blocks ==> a.height > b.height
    ensures var u := AppendStatus(t.(blocks := t.blocks[b := HeaderOnlyRow(h)]), b, Canonical, now);
            HistoryOk(u) && forall a :: Canon(u.log, a) <==> Canon(t.log, a) || a == b
  {
    hide Canon;
    NothingCanonicalAt(t, b.height);
    assert Later(t.log, b, now);
    AdoptingKeepsOneVersion(t.log, b, now);
    AppendedRises(t.log, StatusEntry(b, Canonical, now));
    hide ClockRises, OneVersion, Later;
  }

  lemma HeaderKeepsArchive(t: Tables, u: Tables, first: nat, b: BlockKey)
    requires ArchiveOk(t, first) && t.cursor.Some?
    requires u.cursor == t.cursor && u.gaps == t.gaps && u.blocks.Keys == t.blocks.Keys + {b} && IsHeaderOnly(u, b)
    requires b !in t.blocks && forall a :: a in t.blocks ==> u.blocks[a] == t.blocks[a]
    requires forall a :: Canon(t.log, a) ==> Canon(u.log, a)
    ensures ArchiveOk(u, first)
  {
    hide Canon;
    forall h | Covered(t, h)
      ensures Covered(u, h)
    {
      if h !in t.gaps { var a :| VersionAt(t.log, a, h); assert VersionAt(u.log, a, h); }
    }
  }

  /** A header-only row went in one below the lowest. */
  ghost predicate HeaderAdded(t: Tables, u: Tables, lowest: nat, b: BlockKey) {
    && 1 <= lowest && b.height == lowest - 1 && b !in t.blocks
    && u.blocks.Keys == t.blocks.Keys + {b} && IsHeaderOnly(u, b)
    && (forall a :: a in t.blocks ==> u.blocks[a] == t.blocks[a])
    && forall a :: Canon(u.log, a) <==> Canon(t.log, a) || a == b
  }

  lemma LinkSurvives(t: Tables, u: Tables, lowest: nat, b: BlockKey, height: nat, first: nat, hash: string)
    requires HeaderAdded(t, u, lowest, b) && ParentAt(t, height, first, hash)
    ensures ParentAt(u, height, first, hash)
  {
    hide Canon;
    var a :| LinksDown(t, a, height, first, hash);
    assert LinksDown(u, a, height, first, hash);
  }

  lemma HeaderExtends(t: Tables, u: Tables, first: nat, lowest: nat, b: BlockKey, hash: string)
    requires HeadersOk(t, first, lowest) && HeaderAdded(t, u, lowest, b)
    requires b.hash == hash && ParentAt(t, lowest, first, hash)
    ensures HeadersOk(u, first, lowest - 1)
  {
    hide Canon, ParentAt;
    forall c | IsHeaderOnly(u, c)
      ensures lowest - 1 <= c.height < first && Canon(u.log, c) && LinkedUp(u, c, first)
    {
      if c != b { assert IsHeaderOnly(t, c) && LinkedUp(t, c, first); }
      LinkSurvives(t, u, lowest, b, c.height + 1, first, c.hash);
    }
    forall h | lowest - 1 <= h < first
      ensures HeaderAt(u, h)
    {
      HeaderStays(t, u, first, lowest, b, h);
    }
  }

  lemma HeaderStays(t: Tables, u: Tables, first: nat, lowest: nat, b: BlockKey, h: nat)
    requires HeadersOk(t, first, lowest) && HeaderAdded(t, u, lowest, b) && lowest - 1 <= h < first
    ensures HeaderAt(u, h)
  {
    hide Canon, LinkedUp;
    if h == lowest - 1 {
      assert IsHeaderOnly(u, b) && b.height == h;
    } else {
      assert HeaderAt(t, h);
      var c :| IsHeaderOnly(t, c) && c.height == h;
      assert IsHeaderOnly(u, c);
    }
  }

  lemma NextLink(headers: seq<Header>, expected: string, lowest: nat, low: nat, i: nat)
    requires low <= lowest && ChainDown(headers, expected, lowest, low) && i <= |headers|
    ensures i <= lowest && (i == 0 ==> ExpectedAt(headers, expected, i) == expected)
    ensures i > 0 ==> headers[i - 1].height == lowest - i && headers[i - 1].hash == ExpectedAt(headers, expected, i - 1)
    ensures i > 0 ==> ExpectedAt(headers, expected, i) == headers[i - 1].prevHash
  {
  }

  lemma {:induction false} HeadersGoIn(t: Tables, first: nat, lowest: nat, headers: seq<Header>, expected: string, low: nat, now: nat, i: nat)
    requires CoreInv(t, first, lowest) && low <= lowest
    requires ChainDown(headers, expected, lowest, low) && ParentAt(t, lowest, first, expected)
    requires i <= |headers|
    ensures var r := InsertHeaders(t, headers[..i], now);
            && r.Some? && CoreInv(r.value, first, lowest - i)
            && ParentAt(r.value, lowest - i, first, ExpectedAt(headers, expected, i))
            && r.value.progress == t.progress
  {
    hide CoreInv, ParentAt, InsertHeaderOnly, ChainDown, ExpectedAt;
    NextLink(headers, expected, lowest, low, i);
    if i > 0 {
      HeadersGoIn(t, first, lowest, headers, expected, low, now, i - 1);
      assert headers[..i][..i - 1] == headers[..i - 1];
      HeaderGoesIn(InsertHeaders(t, headers[..i - 1], now).value, first, lowest - (i - 1), headers[i - 1], now);
    }
  }

  lemma HeaderBatchKeepsInv(t: Tables, first: nat, lowest: nat, headers: seq<Header>, expected: string, low: nat, now: nat)
    requires Inv(t, first, lowest) && Enabled(t, first, lowest, HeaderBatch(headers, expected, low, now))
    ensures |headers| <= lowest && InsertHeaders(t, headers, now).Some?
    ensures Inv(HeaderBatchTables(t, headers, low, now), first, lowest - |headers|)
  {
    hide HistoryOk, ArchiveOk, HeadersOk, ParentAt;
    HeadersGoIn(t, first, lowest, headers, expected, low, now, |headers|);
    assert headers[..|headers|] == headers;
    var s := InsertHeaders(t, headers, now).value;
    ProgressKeepsCore(s, HeaderBatchTables(t, headers, low, now), first, lowest - |headers|);
  }

  lemma ProgressKeepsCore(s: Tables, u: Tables, first: nat, lowest: nat)
    requires CoreInv(s, first, lowest) && u == s.(progress := u.progress)
    ensures CoreInv(u, first, lowest)
  {
    hide HeadersOk, HistoryOk, ArchiveOk;
    ProgressKeepsHistory(s, u);
    ProgressKeepsArchive(s, u, first);
    HeadersAreCanonical(s, first, lowest);
    HeadersFrame(s, u, first, lowest);
  }

  lemma ProgressKeepsHistory(s: Tables, u: Tables)
    requires HistoryOk(s) && u == s.(progress := u.progress)
    ensures HistoryOk(u)
  {
    hide ClockRises, OneVersion;
  }

  lemma ProgressKeepsArchive(s: Tables, u: Tables, first: nat)
    requires ArchiveOk(s, first) && u == s.(progress := u.progress)
    ensures ArchiveOk(u, first)
  {
    hide Canon;
    forall h | Covered(s, h) ensures Covered(u, h) {}
  }

  // ---------------------------------------------------------------- every run

  lemma StepKeepsInv(t: Tables, first: nat, lowest: nat, step: Step)
    requires Inv(t, first, lowest) && Enabled(t, first, lowest, step)
    ensures Inv(Apply(t, step), NextFirst(t, first, step), NextLowest(t, lowest, step))
  {
    hide Inv, SameShape, ParentAt, ChainDown, LaterAt, StoreOffer, RecheckTables, RecoverGapTables, HeaderBatchTables, PruneBlocks, InsertHeaders;
    match step
    case Ingest(offer, now) => IngestKeepsInv(t, first, lowest, offer, now);
    case Recheck(height, seen, offer, orphanedAt, now) => RecheckKeepsInv(t, first, lowest, height, seen, offer, orphanedAt, now);
    case RecoverGap(height, body, source, now) =>
      RecoverGapKeepsShape(t, height, body, source, now);
      SameShapeKeepsInv(t, Apply(t, step), first, lowest);
    case HeaderBatch(headers, expected, low, now) => HeaderBatchKeepsInv(t, first, lowest, headers, expected, low, now);
    case Prune(b) =>
      PruneKeepsShape(t, {b});
      SameShapeKeepsInv(t, Apply(t, step), first, lowest);
    case Elsewhere(after) => SameShapeKeepsInv(t, after, first, lowest);
  }

  lemma {:induction false} RunKeepsInv(t: Tables, first: nat, lowest: nat, run: seq<Step>)
    requires Inv(t, first, lowest) && ValidRun(t, first, lowest, run)
    ensures Inv(After(t, run), FirstAfter(t, first, run), LowestAfter(t, lowest, run))
    decreases |run|
  {
    hide Inv, Enabled, Apply, NextFirst, NextLowest;
    if run != [] {
      StepKeepsInv(t, first, lowest, run[0]);
      RunKeepsInv(Apply(t, run[0]), NextFirst(t, first, run[0]), NextLowest(t, lowest, run[0]), run[1..]);
    }
  }

  lemma {:induction false} RunAppends(t: Tables, first: nat, lowest: nat, run: seq<Step>, step: Step)
    requires ValidRun(t, first, lowest, run)
    requires Enabled(After(t, run), FirstAfter(t, first, run), LowestAfter(t, lowest, run), step)
    ensures ValidRun(t, first, lowest, run + [step]) && After(t, run + [step]) == Apply(After(t, run), step)
    ensures FirstAfter(t, first, run + [step]) == NextFirst(After(t, run), FirstAfter(t, first, run), step)
    ensures LowestAfter(t, lowest, run + [step]) == NextLowest(After(t, run), LowestAfter(t, lowest, run), step)
    decreases |run|
  {
    hide Enabled, Apply, NextFirst, NextLowest;
    if run == [] {
      assert run + [step] == [step] && [step][1..] == [];
    } else {
      assert (run + [step])[1..] == run[1..] + [step];
      RunAppends(Apply(t, run[0]), NextFirst(t, first, run[0]), NextLowest(t, lowest, run[0]), run[1..], step);
    }
  }

  lemma EmptyDatabaseOk()
    ensures Inv(EMPTY, 0, 0)
  {
  }

  /**
    In every run from an empty database, whatever the node answered: each height has at
    most one canonical version, and the lookup by observation time returns exactly it.
   */
  lemma OneCanonicalVersion(run: seq<Step>, a: BlockKey, b: BlockKey)
    requires ValidRun(EMPTY, 0, 0, run)
    ensures var t := After(EMPTY, run);
            && (IsCanonical(t, a) && IsCanonical(t, b) && a.height == b.height ==> a == b)
            && (CanonicalAt(t.log, a.height) == Some(a) <==> IsCanonical(t, a))
  {
    hide ArchiveOk, HeadersOk, ProgressOk;
    EmptyDatabaseOk();
    RunKeepsInv(EMPTY, 0, 0, run);
    var t := After(EMPTY, run);
    LookupIsTheVersion(t.log, a.height, a);
    if Canon(t.log, a) { CanonicalHasRow(t, a); }
  }

  /** In every run each height from the first to the cursor has a canonical version or a gap entry. */
  lemma EveryHeightCovered(run: seq<Step>, h: nat)
    requires ValidRun(EMPTY, 0, 0, run)
    requires var t := After(EMPTY, run); t.cursor.Some? && FirstAfter(EMPTY, 0, run) <= h <= t.cursor.value
    ensures var t := After(EMPTY, run); h in t.gaps || exists b :: IsCanonical(t, b) && b.height == h
  {
    hide HeadersOk, ProgressOk;
    EmptyDatabaseOk();
    RunKeepsInv(EMPTY, 0, 0, run);
    var t := After(EMPTY, run);
    assert Covered(t, h);
    if h !in t.gaps {
      var b :| VersionAt(t.log, b, h);
      CanonicalHasRow(t, b);
      assert IsCanonical(t, b);
    }
  }

  /**
    In every run the header-only rows fill the heights from the lowest row up to the
    archive, each is canonical (so the cheaper filter selects exactly the canonical rows),
    each names the parent of a row one height up, and the progress entry fits the lowest row.
   */
  lemma HeaderRowsAreComplete(run: seq<Step>)
    requires ValidRun(EMPTY, 0, 0, run) && After(EMPTY, run).cursor.Some?
    ensures var t := After(EMPTY, run);
            var first, lowest := FirstAfter(EMPTY, 0, run), LowestAfter(EMPTY, 0, run);
            && HeadersOk(t, first, lowest) && ProgressOk(t, first, lowest)
            && (forall b :: b in t.blocks ==> b.height >= lowest)
            && forall b :: b in t.blocks ==> (IsHeaderOnly(t, b) || Canon(t.log, b) <==> IsCanonical(t, b))
  {
    hide HistoryOk, ArchiveOk, HeadersOk, ProgressOk;
    EmptyDatabaseOk();
    RunKeepsInv(EMPTY, 0, 0, run);
    var t := After(EMPTY, run);
    var first, lowest := FirstAfter(EMPTY, 0, run), LowestAfter(EMPTY, 0, run);
    RowsLieAboveLowest(t, first, lowest);
    HeadersAreCanonical(t, first, lowest);
  }

  /** Where the archive's first height never had a second version, the link is to the canonical one. */
  lemma TopLinkIsCanonical(t: Tables, first: nat, lowest: nat, b: BlockKey, a: BlockKey)
    requires HeadersOk(t, first, lowest) && IsHeaderOnly(t, b) && b.height + 1 == first
    requires a in t.blocks && a.height == first && forall c :: c in t.blocks && c.height == first ==> c == a
    ensures t.blocks[a].prevHash == b.hash
  {
    hide Canon;
    assert LinkedUp(t, b, first);
    var c :| LinksDown(t, c, b.height + 1, first, b.hash);
  }

  // ---------------------------------------------------------------- why commit and cursor are one step

  /**
    If the process stops after the block commit but before the cursor write, the height is
    ingested again: it keeps one version exactly when the node still serves the same block.
   */
  lemma StoppingBeforeTheCursor(t: Tables, a: BlockKey, offer: Offer, now: nat)
    requires HistoryOk(t) && Canon(t.log, a) && offer.source != HEADER_ONLY
    requires offer.header.height == a.height && LaterAt(t.log, a.height, now)
    ensures OneVersion(StoreOffer(t, offer, now).log) <==> KeyOf(offer.header) == a
  {
    hide StoreOffer;
    var b := KeyOf(offer.header);
    HistoryParts(t);
    LookupIsTheVersion(t.log, a.height, a);
    if b == a {
      SameVersionKeepsLog(t, offer, now);
    } else {
      StoreOfferAdopts(t, offer, now);
      Appended(t.log, StatusEntry(b, Canonical, now), a);
      Appended(t.log, StatusEntry(b, Canonical, now), b);
      assert Canon(StoreOffer(t, offer, now).log, a) && Canon(StoreOffer(t, offer, now).log, b);
    }
  }

  lemma SameVersionKeepsLog(t: Tables, offer: Offer, now: nat)
    requires CanonicalAt(t.log, offer.header.height) == Some(KeyOf(offer.header)) && offer.source != HEADER_ONLY
    ensures StoreOffer(t, offer, now).log == t.log
  {
    hide CanonicalAt, InsertTransactions, InsertBlockHeaderRow;
    var b := KeyOf(offer.header);
    if offer.body.Some? && Uncaptured(t, b) { InsertingKeepsShape(t, b, offer.body.value); }
  }

  // ---------------------------------------------------------------- nothing is ever removed

  ghost predicate Extends(t: Tables, u: Tables) {
    && t.blocks.Keys <= u.blocks.Keys && t.log <= u.log && t.gaps.Keys <= u.gaps.Keys
    && (t.cursor.Some? ==> u.cursor.Some? && t.cursor.value <= u.cursor.value)
    && forall b :: b in t.blocks ==> u.blocks[b].prevHash == t.blocks[b].prevHash && Archived(u.blocks[b]) == Archived(t.blocks[b])
  }

  lemma StoreOfferExtends(t: Tables, offer: Offer, now: nat)
    requires offer.source != HEADER_ONLY
    ensures Extends(t, StoreOffer(t, offer, now)) && StoreOffer(t, offer, now).cursor == t.cursor && StoreOffer(t, offer, now).progress == t.progress
  {
    hide CanonicalAt, InsertTransactions, InsertBlockHeaderRow, MarkBodyRecovered, ResolveGap, RecordGap;
    var b := KeyOf(offer.header);
    if CanonicalAt(t.log, offer.header.height) != Some(b) {
      StoreOfferAdopts(t, offer, now);
      hide StoreOffer;
    } else if offer.body.Some? {
      if Uncaptured(t, b) {
        InsertingKeepsShape(t, b, offer.body.value);
        var t1 := InsertTransactions(t, b, offer.body.value);
        RecoveringKeepsShape(t1, b, offer.source);
        ResolvingKeepsShape(MarkBodyRecovered(t1, b, offer.source), offer.header.height, now);
      }
    } else {
      GapRecorded(t, offer.header.height, Some(offer.header.hash), now);
    }
  }

  lemma {:induction false} InsertedHeadersExtend(t: Tables, headers: seq<Header>, now: nat)
    requires InsertHeaders(t, headers, now).Some?
    ensures Extends(t, InsertHeaders(t, headers, now).value)
  {
    if headers != [] {
      InsertedHeadersExtend(t, headers[..|headers| - 1], now);
    }
  }

  lemma RecheckExtends(t: Tables, height: nat, seen: string, offer: Option<Offer>, orphanedAt: nat, now: nat)
    requires offer.Some? ==> offer.value.source != HEADER_ONLY
    ensures Extends(t, RecheckTables(t, height, seen, offer, orphanedAt, now))
    ensures RecheckTables(t, height, seen, offer, orphanedAt, now).progress == t.progress
  {
    hide CanonicalAt, StoreOffer, RecordGap;
    var r := CanonicalAt(t.log, height);
    if r.Some? && r.value.hash != seen && !IsHeaderOnly(t, r.value) {
      var t1 := MarkOrphaned(t, r.value, orphanedAt);
      assert Extends(t, t1);
      if offer.Some? { StoreOfferExtends(t1, offer.value, now); } else { GapRecorded(t1, height, Some(seen), orphanedAt); }
    }
  }

  /** No step removes a block row, a status entry or a gap entry, or moves the cursor back. */
  lemma StepExtends(t: Tables, first: nat, lowest: nat, step: Step)
    requires Enabled(t, first, lowest, step)
    ensures Extends(t, Apply(t, step))
  {
    hide StoreOffer, RecheckTables, RecoverGapTables, PruneBlocks, InsertHeaders, ParentAt, ChainDown, LaterAt;
    match step
    case Ingest(offer, now) => StoreOfferExtends(t, offer, now);
    case Recheck(height, seen, offer, orphanedAt, now) => RecheckExtends(t, height, seen, offer, orphanedAt, now);
    case RecoverGap(height, body, source, now) => RecoverGapKeepsShape(t, height, body, source, now);
    case HeaderBatch(headers, expected, low, now) =>
      if InsertHeaders(t, headers, now).Some? { InsertedHeadersExtend(t, headers, now); }
    case Prune(b) => PruneKeepsShape(t, {b});
    case Elsewhere(after) =>
  }

  lemma {:induction false} RunExtends(t: Tables, first: nat, lowest: nat, run: seq<Step>)
    requires ValidRun(t, first, lowest, run)
    ensures Extends(t, After(t, run))
    decreases |run|
  {
    hide Enabled, Apply, NextFirst, NextLowest;
    if run != [] {
      StepExtends(t, first, lowest, run[0]);
      RunExtends(Apply(t, run[0]), NextFirst(t, first, run[0]), NextLowest(t, lowest, run[0]), run[1..]);
    }
  }

  // ---------------------------------------------------------------- commits between a batch's check and its commit

  /** Nothing in the run writes headers: the steps of the other threads. */
  ghost predicate Quiet(run: seq<Step>) {
    forall i :: 0 <= i < |run| ==> !run[i].HeaderBatch?
  }

  lemma LinkKept(t: Tables, u: Tables, height: nat, first: nat, hash: string)
    requires Extends(t, u) && ParentAt(t, height, first, hash)
    ensures ParentAt(u, height, first, hash)
  {
    var a :| LinksDown(t, a, height, first, hash);
    assert LinksDown(u, a, height, first, hash);
  }

  /** What the header backfill has read stays true through every step of another thread. */
  ghost predicate BackfillUndisturbed(t: Tables, u: Tables, first: nat, lowest: nat) {
    && u.cursor.Some? && u.progress == t.progress && Extends(t, u)
    && forall hash :: ParentAt(t, lowest, first, hash) ==> ParentAt(u, lowest, first, hash)
  }

  lemma OtherStepKeepsLink(t: Tables, first: nat, lowest: nat, step: Step)
    requires t.cursor.Some? && Enabled(t, first, lowest, step) && !step.HeaderBatch?
    ensures NextFirst(t, first, step) == first && NextLowest(t, lowest, step) == lowest
    ensures BackfillUndisturbed(t, Apply(t, step), first, lowest)
  {
    StepExtends(t, first, lowest, step);
    OtherStepKeepsProgress(t, first, lowest, step);
    CursorStays(t, Apply(t, step));
    hide Enabled, Apply, Extends, ParentAt;
    forall hash | ParentAt(t, lowest, first, hash) ensures ParentAt(Apply(t, step), lowest, first, hash) { LinkKept(t, Apply(t, step), lowest, first, hash); }
  }

  lemma CursorStays(t: Tables, u: Tables)
    requires Extends(t, u) && t.cursor.Some?
    ensures u.cursor.Some?
  {
  }

  lemma OtherStepKeepsProgress(t: Tables, first: nat, lowest: nat, step: Step)
    requires Enabled(t, first, lowest, step) && !step.HeaderBatch?
    ensures Apply(t, step).progress == t.progress
  {
    hide StoreOffer, RecheckTables, RecoverGapTables, PruneBlocks, LaterAt, Extends;
    match step
    case Ingest(offer, now) => StoreOfferExtends(t, offer, now);
    case Recheck(height, seen, offer, orphanedAt, now) => RecheckExtends(t, height, seen, offer, orphanedAt, now);
    case RecoverGap(height, body, source, now) => RecoverGapKeepsShape(t, height, body, source, now);
    case Prune(b) => PruneKeepsShape(t, {b});
    case Elsewhere(after) =>
  }

  lemma ExtendsChains(t: Tables, u: Tables, w: Tables)
    requires Extends(t, u) && Extends(u, w)
    ensures Extends(t, w)
  {
  }

  lemma UndisturbedChains(t: Tables, u: Tables, w: Tables, first: nat, lowest: nat)
    requires BackfillUndisturbed(t, u, first, lowest) && BackfillUndisturbed(u, w, first, lowest)
    ensures BackfillUndisturbed(t, w, first, lowest)
  {
    ExtendsChains(t, u, w);
    hide Extends, ParentAt;
  }

  lemma {:induction false} OthersKeepLink(t: Tables, first: nat, lowest: nat, run: seq<Step>)
    requires t.cursor.Some? && ValidRun(t, first, lowest, run) && Quiet(run)
    ensures FirstAfter(t, first, run) == first && LowestAfter(t, lowest, run) == lowest
    ensures BackfillUndisturbed(t, After(t, run), first, lowest)
    decreases |run|
  {
    hide Enabled, Apply, NextFirst, NextLowest, BackfillUndisturbed, Extends;
    if run == [] {
      UndisturbedItself(t, first, lowest);
    } else {
      OtherStepKeepsLink(t, first, lowest, run[0]);
      var u := Apply(t, run[0]);
      CursorOfUndisturbed(t, u, first, lowest);
      OthersKeepLink(u, first, lowest, run[1..]);
      UndisturbedChains(t, u, After(t, run), first, lowest);
    }
  }

  lemma UndisturbedItself(t: Tables, first: nat, lowest: nat)
    requires t.cursor.Some?
    ensures BackfillUndisturbed(t, t, first, lowest)
  {
  }

  lemma CursorOfUndisturbed(t: Tables, u: Tables, first: nat, lowest: nat)
    requires BackfillUndisturbed(t, u, first, lowest)
    ensures u.cursor.Some?
  {
  }

  /**
    A batch checked link by link against one state may still be committed after any run of
    the other threads' steps: polls, replacements, recovered gaps, pruning.
   */
  lemma CheckedBatchStaysEnabled(t: Tables, first: nat, lowest: nat, run: seq<Step>, headers: seq<Header>, expected: string, low: nat, now: nat)
    requires t.cursor.Some? && ValidRun(t, first, lowest, run) && Quiet(run)
    requires Enabled(t, first, lowest, HeaderBatch(headers, expected, low, now))
    ensures Enabled(After(t, run), FirstAfter(t, first, run), LowestAfter(t, lowest, run), HeaderBatch(headers, expected, low, now))
  {
    hide ValidRun, After, FirstAfter, LowestAfter, ParentAt, ChainDown, Extends;
    OthersKeepLink(t, first, lowest, run);
  }
}
