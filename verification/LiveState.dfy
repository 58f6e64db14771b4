/**
  The sweep as it runs (`scan_live_state`, `read_segment` and `differing_segments` in
  permanode/src/indexer.rs, and the statements of core/src/db.rs): loops over slots,
  rows and segments that change the tables in place.
 */
module LiveState {
  import opened Wrappers
  import opened Arith
  import opened Sums
  import opened Tables
  import opened View
  import opened Sweep
  import opened SweepLaws
  import opened Figures

  /** The node's answer for one slot; `None` stands for a call that failed five times. */
  datatype SlotAnswer = Empty | Live(creationId: string, owner: string, amount: u64)

  /** Every answer describes the node's state. */
  ghost predicate AnswersFrom(get: nat -> Option<SlotAnswer>, node: set<Coin>) {
    forall s: nat :: match get(s)
      case None => true
      case Some(Empty) => forall c :: c in node ==> c.slot != s
      case Some(Live(id, owner, amount)) => ReadCoin(SlotRead(s, id, owner, amount)) in node
  }

  /** Reads every slot of a range; a slot that keeps failing ends the read. */
  method ReadSegment(get: nat -> Option<SlotAnswer>, lo: nat, hi: nat, ghost node: set<Coin>) returns (r: Option<seq<SlotRead>>)
    requires lo <= hi && NodeOk(node) && AnswersFrom(get, node)
    ensures r.Some? ==> ReadsNode(r.value, node, lo, hi)
    ensures r.None? ==> exists s :: lo <= s < hi && get(s).None?
  {
    var live: seq<SlotRead> := [];
    for s := lo to hi
      invariant ReadsNode(live, node, lo, s)
    {
      var answer := get(s);
      if answer.None? { return None; }
      if answer.value.Live? {
        var read := SlotRead(s, answer.value.creationId, answer.value.owner, answer.value.amount);
        NextRead(live, read, node, lo, s);
        live := live + [read];
      } else {
        NoRead(live, node, lo, s);
      }
    }
    r := Some(live);
  }

  lemma NextRead(live: seq<SlotRead>, read: SlotRead, node: set<Coin>, lo: nat, s: nat)
    requires lo <= s && read.slot == s && NodeOk(node) && ReadCoin(read) in node && ReadsNode(live, node, lo, s)
    ensures ReadsNode(live + [read], node, lo, s + 1)
  {
    forall c | c in node && InRange(c.slot, lo, s + 1)
      ensures WasRead(live + [read], c)
    {
      if c.slot == s {
        assert c == ReadCoin((live + [read])[|live|]);
      } else {
        assert WasRead(live, c);
        var i :| 0 <= i < |live| && ReadCoin(live[i]) == c;
        assert (live + [read])[i] == live[i];
      }
    }
  }

  lemma NoRead(live: seq<SlotRead>, node: set<Coin>, lo: nat, s: nat)
    requires lo <= s && ReadsNode(live, node, lo, s) && forall c :: c in node ==> c.slot != s
    ensures ReadsNode(live, node, lo, s + 1)
  {
    forall c | c in node && InRange(c.slot, lo, s + 1) ensures WasRead(live, c) { assert InRange(c.slot, lo, s); }
  }

  function Get(m: map<int, nat>, k: int): nat {
    if k in m then m[k] else 0
  }

  lemma HasMember(keys: set<int>)
    requires keys != {}
    ensures exists k :: k in keys
  {
    if forall k :: k !in keys { assert false; }
  }

  /** One more than the largest segment counted. */
  method SegmentBound(own: map<int, nat>) returns (bound: nat)
    requires forall k :: k in own ==> k >= 0
    ensures forall k :: k in own ==> k < bound
  {
    bound := 0;
    var keys := own.Keys;
    while keys != {}
      invariant keys <= own.Keys
      invariant forall k :: k in own && k !in keys ==> k < bound
      decreases keys
    {
      HasMember(keys);
      var k :| k in keys;
      if k + 1 > bound { bound := k + 1; }
      keys := keys - {k};
    }
  }

  function CountIn(counts: seq<nat>, segment: nat): nat {
    if segment < |counts| then counts[segment] else 0
  }

  /** Segments whose live count in the node's map differs from the picture's. */
  method DifferingSegments(nodeCounts: seq<nat>, own: map<int, nat>) returns (r: seq<nat>)
    requires forall k :: k in own ==> k >= 0
    ensures forall segment: nat :: segment in r <==> CountIn(nodeCounts, segment) != Get(own, segment)
  {
    var bound := SegmentBound(own);
    var segments: nat := Max(|nodeCounts|, bound);
    r := [];
    for segment := 0 to segments
      invariant forall s: nat :: s in r <==> s < segment && CountIn(nodeCounts, s) != Get(own, s)
    {
      var node := CountIn(nodeCounts, segment);
      if node != Get(own, segment) {
        r := r + [segment];
      }
    }
  }

  /** The rows of `rows` counted so far, per segment. */
  ghost predicate CountsOf(v: View, slots: map<nat, SlotRow>, rows: set<PictureRow>, size: nat, out: map<int, nat>)
    requires size > 0
    requires forall row :: row in rows ==> Known(v, slots, row)
  {
    forall segment :: Get(out, segment) == |Among(v, slots, rows, size, segment)| && (segment in out ==> out[segment] > 0)
  }

  /** The rows of one segment among `rows`. */
  ghost function Among(v: View, slots: map<nat, SlotRow>, rows: set<PictureRow>, size: nat, segment: int): set<PictureRow>
    requires size > 0
    requires forall row :: row in rows ==> Known(v, slots, row)
  {
    set row | row in rows && SegmentOf(v, slots, row, size) == segment
  }

  class Sweeper {
    var t: Tables
    var cache: map<string, (int, nat)>

    constructor (tables: Tables)
      ensures t == tables && cache == map[]
    {
      t := tables;
      cache := map[];
    }

    /** Live coins per segment, as the picture has them at `h`. */
    method LiveCountPerSegment(h: nat, size: nat) returns (out: map<int, nat>)
      requires size > 0
      ensures forall segment :: Get(out, segment) == |SegmentRows(ViewOf(t), t.slots, h, size, segment)|
      ensures forall segment :: segment in out ==> exists row :: row in SegmentRows(ViewOf(t), t.slots, h, size, segment)
    {
      hide ViewOf, Picture, SegmentOf, InPicture, Among, CountsOf;
      var v := ViewOf(t);
      var picture := Picture(v, t.slots, h);
      KnownPicture(v, t.slots, h);
      var todo := picture;
      out := map[];
      NothingCounted(v, t.slots, size);
      ghost var done: set<PictureRow> := {};
      while todo != {}
        invariant done + todo == picture && done !! todo
        invariant forall row :: row in picture ==> Known(v, t.slots, row)
        invariant CountsOf(v, t.slots, done, size, out)
        decreases todo
      {
        var row :| row in todo;
        var segment := SegmentOf(v, t.slots, row, size);
        CountOneMore(v, t.slots, done, row, size, out);
        out := out[segment := Get(out, segment) + 1];
        done, todo := done + {row}, todo - {row};
      }
      assert done == picture;
      CountsAreSegments(v, t.slots, h, size, out);
    }

    /** Balance and coin count of every owner in the picture, as of everything recorded. */
    method LiveBalances() returns (out: map<string, (int, nat)>)
      ensures forall owner ::
                var rows := OwnerRows(ViewOf(t), t.slots, I64_MAX, owner);
                (owner in out <==> rows != map[]) && (owner in out ==> out[owner] == (Total(rows), |rows|))
    {
      hide ViewOf, Picture, CoinOf, BalancesOf, RowsOf;
      var v := ViewOf(t);
      var picture := Picture(v, t.slots, I64_MAX);
      KnownPicture(v, t.slots, I64_MAX);
      var todo := picture;
      out := map[];
      NothingBalanced(v, t.slots);
      ghost var done: set<PictureRow> := {};
      while todo != {}
        invariant done + todo == picture && done !! todo
        invariant forall row :: row in picture ==> Known(v, t.slots, row)
        invariant BalancesOf(v, t.slots, done, out)
        decreases todo
      {
        var row :| row in todo;
        var coin := CoinOf(v, t.slots, row);
        BalanceOneMore(v, t.slots, done, row, out);
        var (sum, n) := if coin.owner in out then out[coin.owner] else (0, 0);
        out := out[coin.owner := (sum + AsU128(coin.amount), n + 1)];
        done, todo := done + {row}, todo - {row};
      }
      assert done == picture;
      BalancesAreOwners(v, t.slots, I64_MAX, out);
    }

    /** Replaces the sweep's own slots of one segment with what a fresh read found. */
    method ReplaceStateSlots(segment: nat, found: seq<SlotRead>, h: nat)
      modifies this`t
      ensures t == old(t).(slots := ReplaceSlots(old(t).slots, found, segment, h))
    {
      t := t.(slots := WithoutSegment(t.slots, segment));
      ghost var base := t;
      for i := 0 to |found|
        invariant t == base.(slots := InsertSlots(base.slots, found[..i], segment, h))
      {
        assert found[..i + 1][..i] == found[..i];
        t := t.(slots := t.slots[found[i].slot := SlotRowOf(found[i], segment, h)]);
      }
      assert found[..|found|] == found;
    }

    /** Takes back the flag of recorded outputs in the range that were found live. */
    method UnmarkLiveOutputs(lo: nat, hi: nat, live: set<string>) returns (n: nat)
      modifies this`t
      ensures t == Unmark(old(t), lo, hi, live)
      ensures n == |set k | k in old(t).outputs && LiveAfterAll(old(t), k, lo, hi, live)|
    {
      ghost var before := t;
      var back := set k | k in t.outputs && LiveAfterAll(t, k, lo, hi, live);
      var todo := back;
      n := 0;
      NothingUnflagged(t);
      hide Unflag;
      ghost var done: set<RowKey> := {};
      while todo != {}
        invariant done + todo == back && done !! todo && n == |back| - |todo|
        invariant t == Unflag(before, done) && t.outputs.Keys == before.outputs.Keys
        decreases todo
      {
        var k :| k in todo;
        UnflagOneMore(before, done, k);
        t := t.(outputs := t.outputs[k := t.outputs[k].(spentInGap := false, spentInGapAt := None)]);
        n := n + 1;
        done, todo := done + {k}, todo - {k};
      }
      assert done == back;
      UnflaggedIsUnmark(before, lo, hi, live);
    }

    method MarkSpentInGap(gone: set<RowKey>, now: nat)
      requires gone <= t.outputs.Keys
      modifies this`t
      ensures t == Mark(old(t), gone, now)
    {
      hide Mark;
      ghost var before := t;
      var todo := gone;
      NothingMarked(t, now);
      ghost var done: set<RowKey> := {};
      while todo != {}
        invariant done + todo == gone && done !! todo
        invariant t == Mark(before, done, now) && t.outputs.Keys == before.outputs.Keys
        decreases todo
      {
        var k :| k in todo;
        MarkOneMore(before, done, k, now);
        t := t.(outputs := t.outputs[k := t.outputs[k].(spentInGap := true, spentInGapAt := Some(now))]);
        done, todo := done + {k}, todo - {k};
      }
      assert done == gone;
    }

    /** The transaction of one segment: partition, replace, take back, mark. */
    method CommitSegment(segment: nat, size: nat, found: seq<SlotRead>, h: nat, now: nat)
      modifies this`t
      ensures t == SweepSegment(old(t), segment, size, found, h, now)
    {
      hide Unmark, Mark, ReplaceSlots, ViewOf;
      var lo, hi := segment * size, (segment + 1) * size;
      var recorded := RecordedIds(ViewOf(t), lo, hi);
      var foreign: seq<SlotRead> := [];
      for i := 0 to |found|
        invariant foreign == Foreign(found[..i], recorded)
      {
        assert found[..i + 1][..i] == found[..i];
        if found[i].creationId !in recorded {
          foreign := foreign + [found[i]];
        }
      }
      assert found[..|found|] == found;
      ReplaceStateSlots(segment, foreign, h);
      var live := IdsOf(found);
      var back := UnmarkLiveOutputs(lo, hi, live);
      var gone := Gone(t, h, lo, hi, live);
      GoneIsRecorded(t, h, lo, hi, live);
      MarkSpentInGap(gone, now);
    }

    /** Writes every owner's balance into the cache. */
    method UpsertBalances(balances: map<string, (int, nat)>)
      modifies this`cache
      ensures cache == old(cache) + balances
    {
      var todo := balances.Keys;
      while todo != {}
        invariant todo <= balances.Keys && cache == old(cache) + (balances - todo)
        decreases todo
      {
        var owner :| owner in todo;
        cache := cache[owner := balances[owner]];
        todo := todo - {owner};
      }
      assert balances - {} == balances;
    }

    /** Empties the cached balance of every address holding coins in it that is not kept. */
    method ZeroBalancesExcept(keep: set<string>) returns (zeroed: nat)
      modifies this`cache
      ensures cache == Zeroed(old(cache), keep) && zeroed == |StaleBalances(old(cache), keep)|
    {
      ghost var before := cache;
      var stale := StaleBalances(cache, keep);
      zeroed := |stale|;
      var todo := stale;
      while todo != {}
        invariant todo <= stale && cache.Keys == before.Keys
        invariant forall a :: a in before ==> cache[a] == if a in stale && a !in todo then (0, 0) else before[a]
        decreases todo
      {
        var a :| a in todo;
        cache := cache[a := (0, 0)];
        todo := todo - {a};
      }
      assert cache == Zeroed(before, keep);
    }

    /**
      The end of a run: the balances go into the cache, the counts are compared with the
      node once more, and only if every segment matches are the other addresses emptied.
     */
    method SettleCache(balances: map<string, (int, nat)>, closingCounts: seq<nat>, closing: nat, size: nat) returns (settled: bool)
      requires size > 0
      requires forall row :: InPicture(ViewOf(t), t.slots, row, closing) ==> SegmentOf(ViewOf(t), t.slots, row, size) >= 0
      modifies this`cache
      ensures settled <==> forall segment: nat :: CountIn(closingCounts, segment) == |SegmentRows(ViewOf(t), t.slots, closing, size, segment)|
      ensures cache == if settled then Zeroed(old(cache) + balances, balances.Keys) else old(cache) + balances
    {
      hide ViewOf, SegmentRows, Zeroed;
      UpsertBalances(balances);
      var own := LiveCountPerSegment(closing, size);
      forall k | k in own
        ensures k >= 0
      {
        var row :| row in SegmentRows(ViewOf(t), t.slots, closing, size, k);
        SegmentOfRow(ViewOf(t), t.slots, closing, size, k, row);
      }
      var still := DifferingSegments(closingCounts, own);
      settled := still == [];
      if settled {
        var _ := ZeroBalancesExcept(balances.Keys);
        assert forall segment: nat :: segment !in still;
      } else {
        assert still[0] in still;
      }
    }

    /** Reads and commits these segments one after the other; a slot that keeps failing ends it. */
    method SweepSegments(get: nat -> Option<SlotAnswer>, differing: seq<nat>, h: nat, size: nat, now: nat, ghost node: set<Coin>) returns (done: bool)
      requires size > 0 && NodeOk(node) && AnswersFrom(get, node) && Ready(t, h, size, node)
      requires forall segment: nat :: segment !in differing ==> Exact(ViewOf(t), t.slots, h, segment, size, node)
      modifies this`t
      ensures done ==> Ready(t, h, size, node) && forall segment: nat :: Exact(ViewOf(t), t.slots, h, segment, size, node)
      ensures !done ==> exists s: nat :: get(s).None?
    {
      hide ViewOf, Exact, Ready, SweepSegment, ReadsNode, AnswersFrom;
      for i := 0 to |differing|
        invariant Ready(t, h, size, node)
        invariant forall segment: nat :: segment !in differing[i..] ==> Exact(ViewOf(t), t.slots, h, segment, size, node)
      {
        var segment := differing[i];
        Distribute(segment, 1, size);
        var found := ReadSegment(get, segment * size, (segment + 1) * size, node);
        if found.None? { return false; }
        ReadySweep(t, segment, size, found.value, h, now, node);
        CommitSegment(segment, size, found.value, h, now);
        assert forall s: nat :: s !in differing[i + 1..] && s != segment ==> s !in differing[i..];
      }
      done := true;
    }

    /** Clears the flags with a recorded spend and takes the balances of an exact picture: they are the node's. */
    method TakeBalances(h: nat, closing: nat, size: nat, ghost node: set<Coin>) returns (balances: map<string, (int, nat)>)
      requires size > 0 && h <= closing <= I64_MAX && NodeOk(node) && Ready(t, h, size, node)
      requires forall segment: nat :: Exact(ViewOf(t), t.slots, h, segment, size, node)
      modifies this`t
      ensures t == ClearFlags(old(t)) && BalancesAre(balances, node)
      ensures AllExact(ViewOf(t), t.slots, I64_MAX, size, node) && AllExact(ViewOf(t), t.slots, closing, size, node)
    {
      hide ViewOf, Exact, OwnerRows, NodeRows, Ready, AllExact, ClearFlags;
      ClearedStaysExact(t, h, I64_MAX, size, node);
      ClearedStaysExact(t, h, closing, size, node);
      t := ClearFlags(t);
      balances := LiveBalances();
      forall owner
        ensures Total(OwnerRows(ViewOf(t), t.slots, I64_MAX, owner)) == Total(NodeRows(node, owner))
        ensures |OwnerRows(ViewOf(t), t.slots, I64_MAX, owner)| == |NodeRows(node, owner)|
      {
        ExactPictureBalances(ViewOf(t), t.slots, I64_MAX, size, node, owner);
      }
    }

    /**
      A whole run against a node whose state does not change meanwhile: if every segment
      with an equal count was exact, every segment is exact afterwards, the balances are
      the node's own totals, and the cache holds them and no coins for anyone else.
     */
    method ScanLiveState(get: nat -> Option<SlotAnswer>, nodeCounts: seq<nat>, h: nat, closingCounts: seq<nat>, closing: nat, size: nat, now: nat,
                         ghost node: set<Coin>)
      returns (balances: Option<map<string, (int, nat)>>)
      requires size > 0 && h <= closing <= I64_MAX && NodeOk(node) && AnswersFrom(get, node)
      requires Ready(t, h, size, node)
      requires forall segment: nat :: CountIn(nodeCounts, segment) == |NodeSegment(node, size, segment)|
      requires forall segment: nat :: CountIn(closingCounts, segment) == |NodeSegment(node, size, segment)|
      requires forall segment: nat :: |SegmentRows(ViewOf(t), t.slots, h, size, segment)| == |NodeSegment(node, size, segment)|
                 ==> Exact(ViewOf(t), t.slots, h, segment, size, node)
      modifies this
      ensures balances.Some? ==> AllExact(ViewOf(t), t.slots, I64_MAX, size, node) && BalancesAre(balances.value, node) && CacheIs(old(cache), cache, node)
      ensures balances.None? ==> cache == old(cache) && exists s: nat :: get(s).None?
    {
      hide ViewOf, Exact, SegmentRows, NodeSegment, Ready, AllExact, AnswersFrom, ClearFlags, BalancesAre, CacheIs, InPicture, SegmentOf;
      var own := LiveCountPerSegment(h, size);
      CountedSegmentsExist(t, h, size, node, own);
      var differing := DifferingSegments(nodeCounts, own);
      assert forall segment: nat :: segment !in differing ==> Exact(ViewOf(t), t.slots, h, segment, size, node);
      var done := SweepSegments(get, differing, h, size, now, node);
      if !done { return None; }
      var b := TakeBalances(h, closing, size, node);
      ExactCounts(ViewOf(t), t.slots, closing, size, node);
      var settled := SettleCache(b, closingCounts, closing, size);
      assert settled;
      SettledCache(old(cache), b, node);
      balances := Some(b);
    }
  }

  /** The balances are every owner's total and count at the node, and nobody else's. */
  ghost predicate BalancesAre(balances: map<string, (int, nat)>, node: set<Coin>) {
    forall owner ::
      var rows := NodeRows(node, owner);
      (owner in balances <==> rows != map[]) && (owner in balances ==> balances[owner] == (Total(rows), |rows|))
  }

  /** The cache holds every owner's total and count at the node; who else held coins in it before is there with nothing. */
  ghost predicate CacheIs(before: map<string, (int, nat)>, cache: map<string, (int, nat)>, node: set<Coin>) {
    forall owner ::
      var rows := NodeRows(node, owner);
      if rows != map[] then owner in cache && cache[owner] == (Total(rows), |rows|)
      else (owner in cache <==> owner in before) && (owner in cache ==> cache[owner] == if before[owner].1 > 0 then (0, 0) else before[owner])
  }

  /** Addresses whose cached coins are not in the picture any more. */
  function StaleBalances(cache: map<string, (int, nat)>, keep: set<string>): set<string> {
    set a | a in cache && cache[a].1 > 0 && a !in keep
  }

  function Zeroed(cache: map<string, (int, nat)>, keep: set<string>): map<string, (int, nat)> {
    map a | a in cache :: if a in StaleBalances(cache, keep) then (0, 0) else cache[a]
  }

  // ---------------------------------------------------------------- supporting lemmas

  lemma SegmentOfRow(v: View, slots: map<nat, SlotRow>, h: nat, size: nat, segment: int, row: PictureRow)
    requires size > 0 && row in SegmentRows(v, slots, h, size, segment)
    ensures InPicture(v, slots, row, h) && Known(v, slots, row) && SegmentOf(v, slots, row, size) == segment
  {
    hide Spent;
    PictureMembers(v, slots, h);
  }

  /** An exact picture has the node's counts, and lies in no negative segment. */
  lemma ExactCounts(v: View, slots: map<nat, SlotRow>, h: nat, size: nat, node: set<Coin>)
    requires size > 0 && AllExact(v, slots, h, size, node)
    ensures forall segment: nat :: |SegmentRows(v, slots, h, size, segment)| == |NodeSegment(node, size, segment)|
    ensures forall row :: InPicture(v, slots, row, h) ==> SegmentOf(v, slots, row, size) >= 0
  {
    hide Spent, SegmentRows, NodeSegment, Exact;
    forall segment: nat
      ensures |SegmentRows(v, slots, h, size, segment)| == |NodeSegment(node, size, segment)|
    {
      ExactSegmentCounts(v, slots, h, size, segment, node);
    }
    forall row | InPicture(v, slots, row, h)
      ensures SegmentOf(v, slots, row, size) >= 0
    {
      var segment := RowHasSegment(v, slots, h, size, node, row);
    }
  }

  lemma SettledCache(before: map<string, (int, nat)>, b: map<string, (int, nat)>, node: set<Coin>)
    requires BalancesAre(b, node)
    ensures CacheIs(before, Zeroed(before + b, b.Keys), node)
  {
    hide NodeRows, Total;
  }

  lemma CountOneMore(v: View, slots: map<nat, SlotRow>, done: set<PictureRow>, row: PictureRow, size: nat, out: map<int, nat>)
    requires size > 0 && row !in done
    requires Known(v, slots, row) && forall r :: r in done ==> Known(v, slots, r)
    requires CountsOf(v, slots, done, size, out)
    ensures var segment := SegmentOf(v, slots, row, size);
            CountsOf(v, slots, done + {row}, size, out[segment := Get(out, segment) + 1])
  {
    hide SegmentOf, Known;
    var own := SegmentOf(v, slots, row, size);
    var next := out[own := Get(out, own) + 1];
    forall segment
      ensures Get(next, segment) == |Among(v, slots, done + {row}, size, segment)| && (segment in next ==> next[segment] > 0)
    {
      AmongGrows(v, slots, done, row, size, segment);
      assert Get(out, segment) == |Among(v, slots, done, size, segment)|;
      hide Among;
    }
  }

  lemma AmongGrows(v: View, slots: map<nat, SlotRow>, done: set<PictureRow>, row: PictureRow, size: nat, segment: int)
    requires size > 0 && row !in done
    requires Known(v, slots, row) && forall r :: r in done ==> Known(v, slots, r)
    ensures |Among(v, slots, done + {row}, size, segment)| ==
            |Among(v, slots, done, size, segment)| + if SegmentOf(v, slots, row, size) == segment then 1 else 0
  {
    hide SegmentOf, Known;
    var before := Among(v, slots, done, size, segment);
    assert Among(v, slots, done + {row}, size, segment) == if SegmentOf(v, slots, row, size) == segment then before + {row} else before;
    assert row !in before;
  }

  lemma NothingCounted(v: View, slots: map<nat, SlotRow>, size: nat)
    requires size > 0
    ensures CountsOf(v, slots, {}, size, map[])
  {
    assert forall segment :: Among(v, slots, {}, size, segment) == {};
  }

  lemma NothingBalanced(v: View, slots: map<nat, SlotRow>)
    ensures BalancesOf(v, slots, {}, map[])
  {
    assert forall owner :: RowsOf(v, slots, {}, owner) == map[];
  }

  lemma KnownPicture(v: View, slots: map<nat, SlotRow>, h: nat)
    ensures forall row :: row in Picture(v, slots, h) ==> Known(v, slots, row)
  {
    hide Spent;
    PictureMembers(v, slots, h);
  }

  lemma CountsAreSegments(v: View, slots: map<nat, SlotRow>, h: nat, size: nat, out: map<int, nat>)
    requires size > 0
    requires forall row :: row in Picture(v, slots, h) ==> Known(v, slots, row)
    requires CountsOf(v, slots, Picture(v, slots, h), size, out)
    ensures forall segment :: Get(out, segment) == |SegmentRows(v, slots, h, size, segment)|
    ensures forall segment :: segment in out ==> exists row :: row in SegmentRows(v, slots, h, size, segment)
  {
    hide Picture, SegmentOf;
    forall segment
      ensures Get(out, segment) == |SegmentRows(v, slots, h, size, segment)|
      ensures segment in out ==> exists row :: row in SegmentRows(v, slots, h, size, segment)
    {
      var rows := SegmentRows(v, slots, h, size, segment);
      assert rows == Among(v, slots, Picture(v, slots, h), size, segment);
      if segment in out {
        assert |rows| > 0;
        var row :| row in rows;
      }
    }
  }

  lemma BalancesAreOwners(v: View, slots: map<nat, SlotRow>, h: nat, out: map<string, (int, nat)>)
    requires forall row :: row in Picture(v, slots, h) ==> Known(v, slots, row)
    requires BalancesOf(v, slots, Picture(v, slots, h), out)
    ensures forall owner :: BalanceIs(OwnerRows(v, slots, h, owner), owner, out)
  {
    hide Picture, CoinOf, BalanceIs;
    forall owner
      ensures BalanceIs(OwnerRows(v, slots, h, owner), owner, out)
    {
      assert OwnerRows(v, slots, h, owner) == RowsOf(v, slots, Picture(v, slots, h), owner);
    }
  }

  function Unflag(t: Tables, done: set<RowKey>): Tables {
    t.(outputs := map k | k in t.outputs :: if k in done then t.outputs[k].(spentInGap := false, spentInGapAt := None) else t.outputs[k])
  }

  lemma NothingUnflagged(t: Tables)
    ensures Unflag(t, {}) == t
  {
    assert Unflag(t, {}).outputs == t.outputs;
  }

  lemma UnflagOneMore(t: Tables, done: set<RowKey>, k: RowKey)
    requires k in t.outputs && k !in done
    ensures var u := Unflag(t, done);
            && u.outputs.Keys == t.outputs.Keys && u.outputs[k] == t.outputs[k]
            && Unflag(t, done + {k}).outputs.Keys == t.outputs.Keys
            && u.(outputs := u.outputs[k := t.outputs[k].(spentInGap := false, spentInGapAt := None)]) == Unflag(t, done + {k})
  {
    var u := Unflag(t, done);
    assert u.outputs[k := t.outputs[k].(spentInGap := false, spentInGapAt := None)] == Unflag(t, done + {k}).outputs;
  }

  lemma UnflaggedIsUnmark(t: Tables, lo: nat, hi: nat, live: set<string>)
    ensures Unflag(t, set k | k in t.outputs && LiveAfterAll(t, k, lo, hi, live)) == Unmark(t, lo, hi, live)
  {
    assert Unflag(t, set k | k in t.outputs && LiveAfterAll(t, k, lo, hi, live)).outputs == Unmark(t, lo, hi, live).outputs;
  }

  lemma NothingMarked(t: Tables, now: nat)
    ensures Mark(t, {}, now) == t
  {
    assert Mark(t, {}, now).outputs == t.outputs;
  }

  lemma MarkOneMore(t: Tables, done: set<RowKey>, k: RowKey, now: nat)
    requires k in t.outputs && k !in done
    ensures var u := Mark(t, done, now);
            && u.outputs.Keys == t.outputs.Keys && u.outputs[k] == t.outputs[k]
            && u.(outputs := u.outputs[k := t.outputs[k].(spentInGap := true, spentInGapAt := Some(now))]) == Mark(t, done + {k}, now)
            && Mark(t, done + {k}, now).outputs.Keys == t.outputs.Keys
  {
    var u := Mark(t, done, now);
    assert u.outputs[k := t.outputs[k].(spentInGap := true, spentInGapAt := Some(now))] == Mark(t, done + {k}, now).outputs;
  }

  /** The rows of one owner among `rows`, with their amounts. */
  ghost function RowsOf(v: View, slots: map<nat, SlotRow>, rows: set<PictureRow>, owner: string): map<PictureRow, int>
    requires forall row :: row in rows ==> Known(v, slots, row)
  {
    map row | row in rows && CoinOf(v, slots, row).owner == owner :: AsU128(CoinOf(v, slots, row).amount)
  }

  ghost predicate BalancesOf(v: View, slots: map<nat, SlotRow>, rows: set<PictureRow>, out: map<string, (int, nat)>)
    requires forall row :: row in rows ==> Known(v, slots, row)
  {
    forall owner :: BalanceIs(RowsOf(v, slots, rows, owner), owner, out)
  }

  ghost predicate BalanceIs(rows: map<PictureRow, int>, owner: string, out: map<string, (int, nat)>) {
    (owner in out <==> rows != map[]) && (owner in out ==> out[owner] == (Total(rows), |rows|))
  }

  lemma BalanceOneMore(v: View, slots: map<nat, SlotRow>, done: set<PictureRow>, row: PictureRow, out: map<string, (int, nat)>)
    requires row !in done
    requires Known(v, slots, row) && forall r :: r in done ==> Known(v, slots, r)
    requires BalancesOf(v, slots, done, out)
    ensures var coin := CoinOf(v, slots, row);
            var (sum, n) := if coin.owner in out then out[coin.owner] else (0, 0);
            BalancesOf(v, slots, done + {row}, out[coin.owner := (sum + AsU128(coin.amount), n + 1)])
  {
    hide CoinOf, BalanceIs;
    var coin := CoinOf(v, slots, row);
    var (sum, n) := if coin.owner in out then out[coin.owner] else (0, 0);
    var next := out[coin.owner := (sum + AsU128(coin.amount), n + 1)];
    forall owner
      ensures BalanceIs(RowsOf(v, slots, done + {row}, owner), owner, next)
    {
      var rows := RowsOf(v, slots, done, owner);
      assert BalanceIs(rows, owner, out);
      if owner == coin.owner {
        assert RowsOf(v, slots, done + {row}, owner) == rows[row := AsU128(coin.amount)];
        BalanceGrows(rows, row, AsU128(coin.amount), owner, out);
      } else {
        assert RowsOf(v, slots, done + {row}, owner) == rows;
        BalanceUntouched(rows, owner, out, coin.owner, next[coin.owner]);
      }
    }
  }

  lemma BalanceGrows(rows: map<PictureRow, int>, row: PictureRow, amount: int, owner: string, out: map<string, (int, nat)>)
    requires BalanceIs(rows, owner, out) && row !in rows
    ensures var (sum, n) := if owner in out then out[owner] else (0, 0);
            BalanceIs(rows[row := amount], owner, out[owner := (sum + amount, n + 1)])
  {
    hide Total;
    var more := rows[row := amount];
    TotalInsert(rows, row, amount);
    SizeWithout(more, row);
    assert more - {row} == rows;
    assert row in more;
    if owner !in out { EmptyTotal(); }
  }

  lemma EmptyTotal()
    ensures Total<PictureRow>(map[]) == 0
  {
  }

  lemma BalanceUntouched(rows: map<PictureRow, int>, owner: string, out: map<string, (int, nat)>, other: string, value: (int, nat))
    requires BalanceIs(rows, owner, out) && other != owner
    ensures BalanceIs(rows, owner, out[other := value])
  {
  }

  lemma GoneIsRecorded(t: Tables, h: nat, lo: nat, hi: nat, live: set<string>)
    ensures Gone(t, h, lo, hi, live) <= t.outputs.Keys
  {
    hide IsCanonical, Spent;
  }

  /** What a run relies on: the recorded history fits the node, and the slot table its segments. */
  ghost predicate Ready(t: Tables, h: nat, size: nat, node: set<Coin>)
    requires size > 0
  {
    && SegmentsAgree(t.slots, size) && FitsNode(ViewOf(t), node, h) && NothingAbove(ViewOf(t), h)
    && forall k :: k in ViewOf(t).outputs ==> ViewOf(t).outputs[k].slot >= 0
  }

  lemma CountedSegmentsExist(t: Tables, h: nat, size: nat, node: set<Coin>, own: map<int, nat>)
    requires size > 0 && Ready(t, h, size, node)
    requires forall segment :: segment in own ==> exists row :: row in SegmentRows(ViewOf(t), t.slots, h, size, segment)
    ensures forall k :: k in own ==> k >= 0
  {
    hide ViewOf, Spent;
    forall k | k in own
      ensures k >= 0
    {
      var row :| row in SegmentRows(ViewOf(t), t.slots, h, size, k);
      PictureMembers(ViewOf(t), t.slots, h);
    }
  }

  /** A sweep makes its segment exact, keeps the exact ones, and leaves the run's conditions in place. */
  lemma ReadySweep(t: Tables, segment: nat, size: nat, found: seq<SlotRead>, h: nat, now: nat, node: set<Coin>)
    requires size > 0 && NodeOk(node) && Ready(t, h, size, node)
    requires ReadsNode(found, node, segment * size, (segment + 1) * size)
    ensures var u := SweepSegment(t, segment, size, found, h, now);
            && Ready(u, h, size, node)
            && Exact(ViewOf(u), u.slots, h, segment, size, node)
            && forall other: nat :: other != segment && Exact(ViewOf(t), t.slots, h, other, size, node)
                 ==> Exact(ViewOf(u), u.slots, h, other, size, node)
  {
    hide ViewOf, Exact, SweepSegment, FitsNode, IdsOf;
    var u := SweepSegment(t, segment, size, found, h, now);
    SweepMakesExact(t, segment, size, found, h, now, node);
    SweepKeepsSegments(t, segment, size, found, h, now);
    SweepEffect(t, segment, size, found, h, now);
    FitsAfterFlags(ViewOf(t), ViewOf(u), node, h);
    forall other: nat | other != segment && Exact(ViewOf(t), t.slots, h, other, size, node)
      ensures Exact(ViewOf(u), u.slots, h, other, size, node)
    {
      OtherStaysExact(t, segment, size, found, h, now, other, node);
    }
  }

  lemma FitsAfterFlags(v: View, w: View, node: set<Coin>, h: nat)
    requires FitsNode(v, node, h) && w == v.(outputs := w.outputs) && FlagsOnly(v.outputs, w.outputs)
    ensures FitsNode(w, node, h)
  {
    forall k, c | k in w.outputs && c in node
      ensures NamesThatCoin(w, k, c, h)
    {
      assert NamesThatCoin(v, k, c, h);
    }
    forall c | c in node ensures !Spent(w, c.creationId, h) { SpentIgnoresOutputs(v, w, c.creationId, h); }
  }

  lemma OtherStaysExact(t: Tables, segment: nat, size: nat, found: seq<SlotRead>, h: nat, now: nat, other: nat, node: set<Coin>)
    requires size > 0 && SegmentsAgree(t.slots, size) && other != segment
    requires DistinctSlots(found) && forall i :: 0 <= i < |found| ==> InRange(found[i].slot, segment * size, (segment + 1) * size)
    requires Exact(ViewOf(t), t.slots, h, other, size, node)
    ensures var u := SweepSegment(t, segment, size, found, h, now);
            Exact(ViewOf(u), u.slots, h, other, size, node)
  {
    hide ViewOf, SweepSegment, DistinctSlots, InRange, SegmentsAgree;
    var u := SweepSegment(t, segment, size, found, h, now);
    forall row
      ensures InSegment(ViewOf(u), u.slots, h, other, size, row) <==> InSegment(ViewOf(t), t.slots, h, other, size, row)
      ensures InSegment(ViewOf(u), u.slots, h, other, size, row) ==> CoinOf(ViewOf(u), u.slots, row) == CoinOf(ViewOf(t), t.slots, row)
    {
      SweepLeavesOthersAlone(t, segment, size, found, h, now, h, other, row);
    }
    SameRowsStayExact(ViewOf(t), t.slots, ViewOf(u), u.slots, h, other, size, node);
  }

  /** Exactness only depends on the rows of the segment and their coins. */
  lemma SameRowsStayExact(v: View, slots: map<nat, SlotRow>, w: View, after: map<nat, SlotRow>, h: nat, segment: nat, size: nat, node: set<Coin>)
    requires size > 0 && Exact(v, slots, h, segment, size, node)
    requires forall row :: InSegment(w, after, h, segment, size, row) <==> InSegment(v, slots, h, segment, size, row)
    requires forall row :: InSegment(w, after, h, segment, size, row) ==> CoinOf(w, after, row) == CoinOf(v, slots, row)
    ensures Exact(w, after, h, segment, size, node)
  {
    forall c | c in node && c.slot / size == segment
      ensures Shows(w, after, h, segment, size, c)
    {
      assert Shows(v, slots, h, segment, size, c);
      var row :| InSegment(v, slots, h, segment, size, row) && CoinOf(v, slots, row) == c;
      assert InSegment(w, after, h, segment, size, row) && CoinOf(w, after, row) == c;
    }
  }

  /** After the flags with a recorded spend are cleared, the picture is exact at every later height. */
  lemma ClearedStaysExact(t: Tables, h: nat, later: nat, size: nat, node: set<Coin>)
    requires size > 0 && h <= later && Ready(t, h, size, node)
    requires forall segment: nat :: Exact(ViewOf(t), t.slots, h, segment, size, node)
    ensures var u := ClearFlags(t); AllExact(ViewOf(u), u.slots, later, size, node)
  {
    hide ViewOf, FitsNode;
    var u := ClearFlags(t);
    assert FlagsOnly(t.outputs, u.outputs);
    ViewAfterFlags(t, u);
    assert forall k :: k in ViewOf(u).outputs ==> ViewOf(u).outputs[k].slot == ViewOf(t).outputs[k].slot by { SameSlots(t, u); }
    hide ClearFlags;
    forall segment: nat
      ensures Exact(ViewOf(u), u.slots, later, segment, size, node)
    {
      assert Exact(ViewOf(t), t.slots, h, segment, size, node);
      hide Exact;
      forall row
        ensures InSegment(ViewOf(u), u.slots, later, segment, size, row) <==> InSegment(ViewOf(t), t.slots, h, segment, size, row)
        ensures InSegment(ViewOf(u), u.slots, later, segment, size, row) ==> CoinOf(ViewOf(u), u.slots, row) == CoinOf(ViewOf(t), t.slots, row)
      {
        PictureSettled(ViewOf(t), t.slots, h, later, row);
        ClearingKeepsThePicture(t, later, row);
      }
      SameRowsLater(ViewOf(t), t.slots, ViewOf(u), u.slots, h, later, segment, size, node);
    }
  }

  lemma SameSlots(t: Tables, u: Tables)
    requires u == t.(outputs := u.outputs) && FlagsOnly(t.outputs, u.outputs)
    ensures forall k :: k in ViewOf(u).outputs ==> k in ViewOf(t).outputs && ViewOf(u).outputs[k].slot == ViewOf(t).outputs[k].slot
  {
    hide IsCanonical;
    FlagsInView(t, u);
  }

  lemma SameRowsLater(v: View, slots: map<nat, SlotRow>, w: View, after: map<nat, SlotRow>, h: nat, later: nat, segment: nat, size: nat, node: set<Coin>)
    requires size > 0 && Exact(v, slots, h, segment, size, node)
    requires forall row :: InSegment(w, after, later, segment, size, row) <==> InSegment(v, slots, h, segment, size, row)
    requires forall row :: InSegment(w, after, later, segment, size, row) ==> CoinOf(w, after, row) == CoinOf(v, slots, row)
    ensures Exact(w, after, later, segment, size, node)
  {
    forall c | c in node && c.slot / size == segment
      ensures Shows(w, after, later, segment, size, c)
    {
      assert Shows(v, slots, h, segment, size, c);
      var row :| InSegment(v, slots, h, segment, size, row) && CoinOf(v, slots, row) == c;
      assert InSegment(w, after, later, segment, size, row) && CoinOf(w, after, row) == c;
    }
  }
}
