/**
  The status log (core/src/db.rs `canonical_hash_at`, core/src/queries.rs, the canonical
  filter): the lookup goes by observation time, the filter by log id.
 */
module StatusLog {
  import opened Wrappers
  import opened Tables

  /** The clock never repeats or goes back between two entries of one block. */
  ghost predicate ClockRises(log: seq<StatusEntry>) {
    forall i, j :: 0 <= i < j < |log| && log[i].block == log[j].block ==> log[i].at < log[j].at
  }

  /** `now` is later than every entry of the block. */
  ghost predicate Later(log: seq<StatusEntry>, b: BlockKey, now: nat) {
    forall i :: 0 <= i < |log| && log[i].block == b ==> log[i].at < now
  }

  predicate Canon(log: seq<StatusEntry>, b: BlockKey) {
    LastStatus(log, b) == Some(Canonical)
  }

  /** At most one version of every height is canonical. */
  ghost predicate OneVersion(log: seq<StatusEntry>) {
    forall a, b :: Canon(log, a) && Canon(log, b) && a.height == b.height ==> a == b
  }

  lemma Appended(log: seq<StatusEntry>, e: StatusEntry, b: BlockKey)
    ensures LastStatus(log + [e], b) == if e.block == b then Some(e.status) else LastStatus(log, b)
  {
    assert (log + [e])[..|log|] == log;
  }

  lemma AppendedRises(log: seq<StatusEntry>, e: StatusEntry)
    requires ClockRises(log) && Later(log, e.block, e.at)
    ensures ClockRises(log + [e])
  {
  }

  /** Entry `i` is the last one of its block. */
  ghost predicate LastOf(log: seq<StatusEntry>, i: nat) {
    i < |log| && forall j :: i < j < |log| ==> log[j].block != log[i].block
  }

  lemma {:induction false} LastStatusOf(log: seq<StatusEntry>, i: nat)
    requires LastOf(log, i)
    ensures LastStatus(log, log[i].block) == Some(log[i].status)
  {
    if i < |log| - 1 {
      LastStatusOf(log[..|log| - 1], i);
    }
  }

  lemma {:induction false} LastEntry(log: seq<StatusEntry>, b: BlockKey) returns (i: nat)
    requires LastStatus(log, b).Some?
    ensures LastOf(log, i) && log[i].block == b && Some(log[i].status) == LastStatus(log, b)
  {
    if log[|log| - 1].block == b {
      i := |log| - 1;
    } else {
      i := LastEntry(log[..|log| - 1], b);
    }
  }

  /** Under a rising clock the newest observation is the last entry. */
  lemma NewestIsLast(log: seq<StatusEntry>, i: nat)
    requires ClockRises(log) && i < |log|
    ensures NewestCanonical(log, i) <==> LastOf(log, i) && log[i].status == Canonical
  {
    if !LastOf(log, i) {
      var j :| i < j < |log| && log[j].block == log[i].block;
      assert log[i].at < log[j].at;
    }
  }

  /** Under a rising clock the lookup returns a block the filter accepts, and none exactly when there is none. */
  lemma LookupAgreesWithFilter(log: seq<StatusEntry>, h: nat)
    requires ClockRises(log)
    ensures var r := CanonicalAt(log, h);
            && (r.Some? ==> r.value.height == h && Canon(log, r.value))
            && (r.None? ==> forall b :: Canon(log, b) ==> b.height != h)
  {
    var i := LastCandidate(log, h, |log|);
    if i.Some? {
      NewestIsLast(log, i.value);
      LastStatusOf(log, i.value);
    } else {
      forall b | Canon(log, b) ensures b.height != h {
        var j := LastEntry(log, b);
        NewestIsLast(log, j);
      }
    }
  }

  /** With one version per height, the lookup is the filter. */
  lemma LookupIsTheVersion(log: seq<StatusEntry>, h: nat, b: BlockKey)
    requires ClockRises(log) && OneVersion(log)
    ensures CanonicalAt(log, h) == Some(b) <==> b.height == h && Canon(log, b)
  {
    LookupAgreesWithFilter(log, h);
  }

  // ---------------------------------------------------------------- entries of one instant

  /** The clock may stand still, but not go back, between two entries of one block. */
  ghost predicate NeverBack(log: seq<StatusEntry>) {
    forall i, j :: 0 <= i < j < |log| && log[i].block == log[j].block ==> log[i].at <= log[j].at
  }

  /** The lookup takes the block for canonical. */
  ghost predicate Accepts(log: seq<StatusEntry>, b: BlockKey) {
    exists i :: 0 <= i < |log| && log[i].block == b && NewestCanonical(log, i)
  }

  /** The block's last entry orphans it in the instant of an entry that made it canonical. */
  ghost predicate Tied(log: seq<StatusEntry>, b: BlockKey) {
    exists i, l :: 0 <= i < l && LastOf(log, l) && TiedAt(log, b, i, l)
  }

  ghost predicate TiedAt(log: seq<StatusEntry>, b: BlockKey, i: nat, l: nat)
    requires i < |log| && l < |log|
  {
    && log[l].block == b && log[i].block == b && log[i].at == log[l].at
    && log[l].status == Orphaned && log[i].status == Canonical
  }

  /** Lookup and filter disagree about a block exactly when it was orphaned in the instant it became canonical. */
  lemma DisagreeExactlyWhenTied(log: seq<StatusEntry>, b: BlockKey)
    requires NeverBack(log)
    ensures (Accepts(log, b) <==> Canon(log, b)) <==> !Tied(log, b)
    ensures Tied(log, b) ==> Accepts(log, b)
  {
    if Accepts(log, b) || Canon(log, b) || Tied(log, b) {
      var l := LastOfBlock(log, b);
      LastStatusOf(log, l);
      if Tied(log, b) {
        var i, k :| 0 <= i < k && LastOf(log, k) && TiedAt(log, b, i, k);
        assert NewestCanonical(log, i);
      }
      if Accepts(log, b) && !Canon(log, b) {
        var i :| 0 <= i < |log| && log[i].block == b && NewestCanonical(log, i);
        assert TiedAt(log, b, i, l);
      }
      if Canon(log, b) { assert NewestCanonical(log, l); }
    }
  }

  lemma LastOfBlock(log: seq<StatusEntry>, b: BlockKey) returns (l: nat)
    requires Accepts(log, b) || Canon(log, b) || Tied(log, b)
    ensures LastOf(log, l) && log[l].block == b
  {
    if Canon(log, b) {
      l := LastEntry(log, b);
    } else if Tied(log, b) {
      var i, k :| 0 <= i < k && LastOf(log, k) && TiedAt(log, b, i, k);
      l := k;
    } else {
      var i :| 0 <= i < |log| && log[i].block == b && NewestCanonical(log, i);
      EveryBlockHasStatus(log, i);
      l := LastEntry(log, b);
    }
  }

  lemma {:induction false} EveryBlockHasStatus(log: seq<StatusEntry>, i: nat)
    requires i < |log|
    ensures LastStatus(log, log[i].block).Some?
  {
    if log[|log| - 1].block != log[i].block { EveryBlockHasStatus(log[..|log| - 1], i); }
  }

  /** A block the lookup returns and the filter refuses is such a block, and none is returned only when all are refused. */
  lemma LookupIsAccepted(log: seq<StatusEntry>, h: nat)
    requires NeverBack(log)
    ensures var r := CanonicalAt(log, h);
            && (r.Some? ==> r.value.height == h && (Canon(log, r.value) || Tied(log, r.value)))
            && (r.None? ==> forall b: BlockKey :: b.height == h ==> !Canon(log, b) && !Tied(log, b))
  {
    var r := CanonicalAt(log, h);
    var c := LastCandidate(log, h, |log|);
    if r.Some? {
      assert Accepts(log, r.value);
      DisagreeExactlyWhenTied(log, r.value);
    } else {
      forall b: BlockKey | b.height == h
        ensures !Canon(log, b) && !Tied(log, b)
      {
        DisagreeExactlyWhenTied(log, b);
      }
    }
  }

  /** With two entries of one instant they disagree: the lookup still returns an orphaned block. */
  lemma EqualTimesDisagree(b: BlockKey, now: nat)
    ensures var log := [StatusEntry(b, Canonical, now), StatusEntry(b, Orphaned, now)];
            CanonicalAt(log, b.height) == Some(b) && LastStatus(log, b) == Some(Orphaned)
  {
    var log := [StatusEntry(b, Canonical, now), StatusEntry(b, Orphaned, now)];
    assert NewestCanonical(log, 0) && !NewestCanonical(log, 1);
    assert LastCandidate(log, b.height, 1) == Some(0);
  }

  lemma OrphaningKeepsOneVersion(log: seq<StatusEntry>, b: BlockKey, now: nat)
    requires OneVersion(log)
    ensures OneVersion(log + [StatusEntry(b, Orphaned, now)])
    ensures forall a :: Canon(log + [StatusEntry(b, Orphaned, now)], a) <==> Canon(log, a) && a != b
  {
    forall a ensures Canon(log + [StatusEntry(b, Orphaned, now)], a) <==> Canon(log, a) && a != b { Appended(log, StatusEntry(b, Orphaned, now), a); }
  }

  lemma AdoptingKeepsOneVersion(log: seq<StatusEntry>, b: BlockKey, now: nat)
    requires OneVersion(log) && forall a :: Canon(log, a) && a.height == b.height ==> a == b
    ensures OneVersion(log + [StatusEntry(b, Canonical, now)])
    ensures forall a :: Canon(log + [StatusEntry(b, Canonical, now)], a) <==> Canon(log, a) || a == b
  {
    forall a ensures Canon(log + [StatusEntry(b, Canonical, now)], a) <==> Canon(log, a) || a == b { Appended(log, StatusEntry(b, Canonical, now), a); }
  }
}
