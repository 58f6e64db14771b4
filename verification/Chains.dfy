/**
  The node's side: a chain of block bodies and the live state it leads to. A block
  removes the coins its inputs name and adds the coins its outputs create, each under a
  creation id never given out before.
 */
module Chains {
  import opened Wrappers
  import opened Tables
  import opened View
  import opened Sweep
  import opened BodyLaws

  datatype Mined = Mined(key: BlockKey, body: Body)

  function CreatedCoin(o: Output): Coin {
    Coin(AsI64(o.slot), Decimal(o.creationId), o.owner, AsI64(o.amount))
  }

  ghost function SpentBy(body: Body): set<string> {
    set p, i | 0 <= p < |body.txs| && 0 <= i < |body.txs[p].inputs| :: Decimal(body.txs[p].inputs[i].creationId)
  }

  ghost function CreatedBy(body: Body): set<Coin> {
    set p, i | 0 <= p < |body.txs| && 0 <= i < |body.txs[p].outputs| :: CreatedCoin(body.txs[p].outputs[i])
  }

  ghost function Ids(coins: set<Coin>): set<string> {
    set c | c in coins :: c.creationId
  }

  /** One block: what it spends is gone, what it creates and does not spend itself is live. */
  ghost function NodeAfter(node: set<Coin>, body: Body): set<Coin> {
    set c | c in node + CreatedBy(body) && c.creationId !in SpentBy(body)
  }

  /** No two outputs of the body share a creation id. */
  ghost predicate DistinctIds(body: Body) {
    forall p, i, q, j | 0 <= p < |body.txs| && 0 <= i < |body.txs[p].outputs| && 0 <= q < |body.txs| && 0 <= j < |body.txs[q].outputs| ::
      body.txs[p].outputs[i].creationId == body.txs[q].outputs[j].creationId ==> p == q && i == j
  }

  ghost predicate SlotsFit(body: Body) {
    forall p, i :: 0 <= p < |body.txs| && 0 <= i < |body.txs[p].outputs| ==> body.txs[p].outputs[i].slot <= I64_MAX
  }

  /** What the node's rules give for a block mined on this state, `given` being every id handed out so far. */
  ghost predicate ValidNext(node: set<Coin>, given: set<string>, body: Body) {
    && WellPositioned(body.txs) && DistinctIds(body) && SlotsFit(body)
    && Ids(CreatedBy(body)) !! given
    && SpentBy(body) <= Ids(node) + Ids(CreatedBy(body))
    && NodeOk(NodeAfter(node, body))
  }

  /** The state before the archive's first block, and every id handed out until then. */
  datatype Origin = Origin(height: nat, coins: set<Coin>, given: set<string>)

  ghost function NodeAt(origin: Origin, chain: seq<Mined>): set<Coin> {
    if chain == [] then origin.coins else NodeAfter(NodeAt(origin, chain[..|chain| - 1]), chain[|chain| - 1].body)
  }

  ghost function GivenAt(origin: Origin, chain: seq<Mined>): set<string> {
    if chain == [] then origin.given else GivenAt(origin, chain[..|chain| - 1]) + Ids(CreatedBy(chain[|chain| - 1].body))
  }

  ghost predicate ChainOk(origin: Origin, chain: seq<Mined>) {
    if chain == [] then NodeOk(origin.coins) && Ids(origin.coins) <= origin.given else
      var front := chain[..|chain| - 1];
      && ChainOk(origin, front)
      && ValidNext(NodeAt(origin, front), GivenAt(origin, front), chain[|chain| - 1].body)
      && chain[|chain| - 1].key.height == origin.height + |chain|
  }

  // ---------------------------------------------------------------- rows of a mined block

  /** The rows a block's body is recorded as, against what the body spends and creates. */
  lemma InputSpends(m: Mined, k: RowKey)
    requires WellPositioned(m.body.txs) && k in InputsOf(m.key, m.body.txs)
    ensures k.tx.block == m.key && InputsOf(m.key, m.body.txs)[k].creationId in SpentBy(m.body)
  {
    hide Decimal, InputsOf;
    InputRowsOfBody(m.key, m.body.txs, k);
  }

  lemma SpendHasInput(m: Mined, id: string) returns (k: RowKey)
    requires WellPositioned(m.body.txs) && id in SpentBy(m.body)
    ensures k in InputsOf(m.key, m.body.txs) && InputsOf(m.key, m.body.txs)[k].creationId == id && k.tx.block == m.key
  {
    hide Decimal, InputsOf;
    var p, i :| 0 <= p < |m.body.txs| && 0 <= i < |m.body.txs[p].inputs| && Decimal(m.body.txs[p].inputs[i].creationId) == id;
    k := RowKey(TxKey(m.key, p), i);
    InputRowsOfBody(m.key, m.body.txs, k);
  }

  lemma OutputCreates(m: Mined, k: RowKey)
    requires WellPositioned(m.body.txs) && k in OutputsOf(m.key, m.body.txs)
    ensures var o := OutputsOf(m.key, m.body.txs)[k];
            && k.tx.block == m.key && o.creationId.Some? && !o.spentInGap
            && Coin(o.slot, o.creationId.value, o.owner, o.amount) in CreatedBy(m.body)
  {
    hide Decimal, OutputsOf;
    OutputRowsOfBody(m.key, m.body.txs, k);
    assert CreatedCoin(m.body.txs[k.tx.position].outputs[k.idx]) in CreatedBy(m.body);
  }

  lemma CreatedHasOutput(m: Mined, c: Coin) returns (k: RowKey)
    requires WellPositioned(m.body.txs) && c in CreatedBy(m.body)
    ensures k in OutputsOf(m.key, m.body.txs) && k.tx.block == m.key
    ensures var o := OutputsOf(m.key, m.body.txs)[k];
            o.creationId == Some(c.creationId) && !o.spentInGap && Coin(o.slot, c.creationId, o.owner, o.amount) == c
  {
    hide Decimal, OutputsOf;
    var p, i :| 0 <= p < |m.body.txs| && 0 <= i < |m.body.txs[p].outputs| && CreatedCoin(m.body.txs[p].outputs[i]) == c;
    k := RowKey(TxKey(m.key, p), i);
    OutputRowsOfBody(m.key, m.body.txs, k);
  }

  lemma OutputIdsDiffer(m: Mined, k: RowKey, l: RowKey)
    requires WellPositioned(m.body.txs) && DistinctIds(m.body)
    requires k in OutputsOf(m.key, m.body.txs) && l in OutputsOf(m.key, m.body.txs)
    requires OutputsOf(m.key, m.body.txs)[k].creationId == OutputsOf(m.key, m.body.txs)[l].creationId
    ensures k == l
  {
    hide Decimal, OutputsOf;
    OutputRowsOfBody(m.key, m.body.txs, k);
    OutputRowsOfBody(m.key, m.body.txs, l);
    var a, b := m.body.txs[k.tx.position].outputs[k.idx], m.body.txs[l.tx.position].outputs[l.idx];
    DecimalInjective(a.creationId, b.creationId);
  }

  /** Created coins with one id are one coin. */
  lemma CreatedOnce(body: Body, c: Coin, d: Coin)
    requires DistinctIds(body) && c in CreatedBy(body) && d in CreatedBy(body) && c.creationId == d.creationId
    ensures c == d
  {
    hide Decimal;
    var p, i :| 0 <= p < |body.txs| && 0 <= i < |body.txs[p].outputs| && CreatedCoin(body.txs[p].outputs[i]) == c;
    var q, j :| 0 <= q < |body.txs| && 0 <= j < |body.txs[q].outputs| && CreatedCoin(body.txs[q].outputs[j]) == d;
    DecimalInjective(body.txs[p].outputs[i].creationId, body.txs[q].outputs[j].creationId);
  }

  // ---------------------------------------------------------------- what a chain guarantees

  lemma {:induction false} PrefixOk(origin: Origin, chain: seq<Mined>, n: nat)
    requires ChainOk(origin, chain) && n <= |chain|
    ensures ChainOk(origin, chain[..n]) && GivenAt(origin, chain[..n]) <= GivenAt(origin, chain)
  {
    hide ValidNext;
    if n < |chain| {
      PrefixOk(origin, chain[..|chain| - 1], n);
      assert chain[..|chain| - 1][..n] == chain[..n];
    } else {
      assert chain[..n] == chain;
    }
  }

  /** Live ids were handed out. */
  lemma {:induction false} LiveIdsGiven(origin: Origin, chain: seq<Mined>)
    requires ChainOk(origin, chain)
    ensures NodeOk(NodeAt(origin, chain)) && Ids(NodeAt(origin, chain)) <= GivenAt(origin, chain)
  {
    hide SpentBy, CreatedBy;
    if chain != [] { LiveIdsGiven(origin, chain[..|chain| - 1]); }
  }

  /** The block at index `j` extends the state its prefix leads to. */
  lemma BlockExtends(origin: Origin, chain: seq<Mined>, j: nat)
    requires ChainOk(origin, chain) && j < |chain|
    ensures ValidNext(NodeAt(origin, chain[..j]), GivenAt(origin, chain[..j]), chain[j].body)
    ensures chain[j].key.height == origin.height + j + 1
    ensures Ids(CreatedBy(chain[j].body)) <= GivenAt(origin, chain)
    ensures SpentBy(chain[j].body) <= GivenAt(origin, chain)
    ensures GivenAt(origin, chain[..j]) + Ids(CreatedBy(chain[j].body)) == GivenAt(origin, chain[..j + 1])
    ensures ChainOk(origin, chain[..j]) && GivenAt(origin, chain[..j]) <= GivenAt(origin, chain)
  {
    hide SpentBy, CreatedBy, Ids;
    PrefixOk(origin, chain, j + 1);
    PrefixOk(origin, chain, j);
    LiveIdsGiven(origin, chain[..j]);
    assert chain[..j + 1][..j] == chain[..j];
  }

  /** A creation id is given out once over the whole chain. */
  lemma IdsGivenOnce(origin: Origin, chain: seq<Mined>, i: nat, j: nat, k: RowKey, l: RowKey)
    requires ChainOk(origin, chain) && i < |chain| && j < |chain|
    requires k in OutputsOf(chain[i].key, chain[i].body.txs) && l in OutputsOf(chain[j].key, chain[j].body.txs)
    requires OutputsOf(chain[i].key, chain[i].body.txs)[k].creationId == OutputsOf(chain[j].key, chain[j].body.txs)[l].creationId
    ensures k == l
  {
    hide OutputsOf, CreatedBy, SpentBy, ChainOk, NodeAt, GivenAt, NodeOk, DistinctIds, SlotsFit;
    BlockExtends(origin, chain, i);
    BlockExtends(origin, chain, j);
    OutputCreates(chain[i], k);
    OutputCreates(chain[j], l);
    var id := OutputsOf(chain[i].key, chain[i].body.txs)[k].creationId.value;
    assert id in Ids(CreatedBy(chain[i].body)) && id in Ids(CreatedBy(chain[j].body));
    if i == j {
      OutputIdsDiffer(chain[i], k, l);
    } else if i < j {
      GivenBefore(origin, chain, i, j);
    } else {
      GivenBefore(origin, chain, j, i);
    }
  }

  lemma GivenBefore(origin: Origin, chain: seq<Mined>, i: nat, j: nat)
    requires ChainOk(origin, chain) && i < j < |chain|
    ensures Ids(CreatedBy(chain[i].body)) <= GivenAt(origin, chain[..j])
    ensures Ids(CreatedBy(chain[i].body)) !! Ids(CreatedBy(chain[j].body))
  {
    hide SpentBy, CreatedBy, Ids;
    PrefixOk(origin, chain, j);
    BlockExtends(origin, chain[..j], i);
    BlockExtends(origin, chain, j);
    assert chain[..j][i] == chain[i];
  }

  /** A live coin with the id of an output of the chain is that output's coin. */
  lemma {:induction false} LiveIsTheOutput(origin: Origin, chain: seq<Mined>, j: nat, k: RowKey, c: Coin)
    requires ChainOk(origin, chain) && j < |chain| && c in NodeAt(origin, chain)
    requires k in OutputsOf(chain[j].key, chain[j].body.txs)
    requires OutputsOf(chain[j].key, chain[j].body.txs)[k].creationId == Some(c.creationId)
    ensures var o := OutputsOf(chain[j].key, chain[j].body.txs)[k]; Coin(o.slot, c.creationId, o.owner, o.amount) == c
  {
    hide OutputsOf, CreatedBy, SpentBy, NodeOk, DistinctIds, SlotsFit;
    var front, last := chain[..|chain| - 1], chain[|chain| - 1];
    LiveIdsGiven(origin, front);
    BlockExtends(origin, chain, j);
    OutputCreates(chain[j], k);
    var o := OutputsOf(chain[j].key, chain[j].body.txs)[k];
    if j == |front| {
      assert c.creationId in Ids(CreatedBy(last.body)) && chain[..j] == front;
      assert c in CreatedBy(last.body);
      CreatedOnce(last.body, c, Coin(o.slot, c.creationId, o.owner, o.amount));
    } else {
      BlockExtends(origin, front, j);
      assert c.creationId in Ids(CreatedBy(front[j].body));
      assert c in CreatedBy(last.body) ==> c.creationId in Ids(CreatedBy(last.body));
      LiveIsTheOutput(origin, front, j, k, c);
    }
  }

  /** No input of the chain spends a coin that is live at its end. */
  lemma {:induction false} LiveIsUnspent(origin: Origin, chain: seq<Mined>, j: nat, c: Coin)
    requires ChainOk(origin, chain) && j < |chain| && c in NodeAt(origin, chain)
    ensures c.creationId !in SpentBy(chain[j].body)
  {
    hide CreatedBy, SpentBy, NodeOk, DistinctIds, SlotsFit;
    var front, last := chain[..|chain| - 1], chain[|chain| - 1].body;
    if j < |front| {
      BlockExtends(origin, front, j);
      if c in NodeAt(origin, front) {
        LiveIsUnspent(origin, front, j, c);
      } else {
        assert c.creationId in Ids(CreatedBy(last));
      }
    }
  }

  // ---------------------------------------------------------------- every coin there ever was

  ghost function EverCoins(origin: Origin, chain: seq<Mined>): set<Coin> {
    if chain == [] then origin.coins else EverCoins(origin, chain[..|chain| - 1]) + CreatedBy(chain[|chain| - 1].body)
  }

  lemma {:induction false} LiveOnce(origin: Origin, chain: seq<Mined>)
    ensures NodeAt(origin, chain) <= EverCoins(origin, chain)
  {
    hide CreatedBy, SpentBy;
    if chain != [] { LiveOnce(origin, chain[..|chain| - 1]); }
  }

  lemma {:induction false} EverIdsGiven(origin: Origin, chain: seq<Mined>)
    requires ChainOk(origin, chain)
    ensures Ids(EverCoins(origin, chain)) <= GivenAt(origin, chain)
  {
    hide CreatedBy, ValidNext;
    if chain != [] { EverIdsGiven(origin, chain[..|chain| - 1]); }
  }

  lemma {:induction false} EverGrows(origin: Origin, chain: seq<Mined>, n: nat)
    requires n <= |chain|
    ensures EverCoins(origin, chain[..n]) <= EverCoins(origin, chain)
  {
    hide CreatedBy;
    if n < |chain| {
      EverGrows(origin, chain[..|chain| - 1], n);
      assert chain[..|chain| - 1][..n] == chain[..n];
    } else {
      assert chain[..n] == chain;
    }
  }

  lemma {:induction false} CreatedEver(origin: Origin, chain: seq<Mined>, j: nat)
    requires j < |chain|
    ensures CreatedBy(chain[j].body) <= EverCoins(origin, chain)
  {
    hide CreatedBy;
    EverGrows(origin, chain, j + 1);
    assert chain[..j + 1][..j] == chain[..j];
  }

  /** An id names one coin for ever. */
  lemma {:induction false} EverOnce(origin: Origin, chain: seq<Mined>, c: Coin, d: Coin)
    requires ChainOk(origin, chain) && c in EverCoins(origin, chain) && d in EverCoins(origin, chain) && c.creationId == d.creationId
    ensures c == d
  {
    hide CreatedBy, SpentBy, DistinctIds, SlotsFit, WellPositioned, GivenAt, NodeAt;
    if chain != [] {
      var front, last := chain[..|chain| - 1], chain[|chain| - 1].body;
      EverIdsGiven(origin, front);
      assert c in CreatedBy(last) ==> c.creationId in Ids(CreatedBy(last));
      assert d in CreatedBy(last) ==> d.creationId in Ids(CreatedBy(last));
      assert c in EverCoins(origin, front) ==> c.creationId in Ids(EverCoins(origin, front));
      assert d in EverCoins(origin, front) ==> d.creationId in Ids(EverCoins(origin, front));
      if c in CreatedBy(last) { CreatedOnce(last, c, d); } else { EverOnce(origin, front, c, d); }
    }
  }

  // ---------------------------------------------------------------- coins that are gone

  /** An id that was handed out and is not live is never live again. */
  lemma {:induction false} GoneStays(origin: Origin, chain: seq<Mined>, n: nat, id: string)
    requires ChainOk(origin, chain) && n <= |chain| && id in GivenAt(origin, chain[..n]) && id !in Ids(NodeAt(origin, chain[..n]))
    ensures id !in Ids(NodeAt(origin, chain))
  {
    hide CreatedBy, SpentBy, DistinctIds, SlotsFit, WellPositioned, NodeOk;
    if n == |chain| {
      assert chain[..n] == chain;
    } else {
      var front := chain[..|chain| - 1];
      assert front[..n] == chain[..n];
      GoneStays(origin, front, n, id);
      PrefixOk(origin, front, n);
      OnlyLiveOrCreated(NodeAt(origin, front), chain[|chain| - 1].body, id);
    }
  }

  lemma OnlyLiveOrCreated(node: set<Coin>, body: Body, id: string)
    ensures id in Ids(NodeAfter(node, body)) ==> id !in SpentBy(body) && (id in Ids(node) || id in Ids(CreatedBy(body)))
  {
    hide CreatedBy, SpentBy;
  }

  /** A coin is spent once. */
  lemma SpentOnce(origin: Origin, chain: seq<Mined>, i: nat, j: nat, id: string)
    requires ChainOk(origin, chain) && i < |chain| && j < |chain| && id in SpentBy(chain[i].body) && id in SpentBy(chain[j].body)
    ensures i == j
  {
    hide SpentBy, ChainOk;
    if i < j { NotSpentLater(origin, chain, i, j, id); }
    if j < i { NotSpentLater(origin, chain, j, i, id); }
  }

  lemma NotSpentLater(origin: Origin, chain: seq<Mined>, i: nat, j: nat, id: string)
    requires ChainOk(origin, chain) && i < j < |chain| && id in SpentBy(chain[i].body)
    ensures id !in SpentBy(chain[j].body)
  {
    hide CreatedBy, SpentBy, DistinctIds, SlotsFit, WellPositioned, NodeOk, ChainOk, NodeAt, GivenAt, Ids;
    PrefixOk(origin, chain, j);
    BlockExtends(origin, chain, j);
    var short := chain[..j];
    BlockExtends(origin, short, i);
    assert short[i] == chain[i] && short[..i + 1][..i] == short[..i] && short[..i + 1][i] == chain[i];
    PrefixOk(origin, short, i + 1);
    PrefixOk(origin, short, i);
    SpentIsGone(origin, short[..i + 1], id);
    GoneStays(origin, short, i + 1, id);
  }

  lemma SpentIsGone(origin: Origin, chain: seq<Mined>, id: string)
    requires ChainOk(origin, chain) && chain != [] && id in SpentBy(chain[|chain| - 1].body)
    ensures id in GivenAt(origin, chain) && id !in Ids(NodeAt(origin, chain))
  {
    hide CreatedBy, SpentBy, DistinctIds, SlotsFit, WellPositioned, NodeOk;
    var front := chain[..|chain| - 1];
    LiveIdsGiven(origin, front);
    OnlyLiveOrCreated(NodeAt(origin, front), chain[|chain| - 1].body, id);
  }

  /** A coin the chain once had and no longer has was spent by one of its blocks. */
  lemma {:induction false} GoneWasSpent(origin: Origin, chain: seq<Mined>, c: Coin) returns (j: nat)
    requires c in EverCoins(origin, chain) && c !in NodeAt(origin, chain)
    ensures j < |chain| && c.creationId in SpentBy(chain[j].body)
  {
    hide CreatedBy, SpentBy;
    if c.creationId in SpentBy(chain[|chain| - 1].body) {
      j := |chain| - 1;
    } else {
      j := GoneWasSpent(origin, chain[..|chain| - 1], c);
    }
  }

  /** A coin the chain had by its n-th block and has now, it had then. */
  lemma LiveThen(origin: Origin, chain: seq<Mined>, n: nat, c: Coin)
    requires ChainOk(origin, chain) && n <= |chain| && c in EverCoins(origin, chain[..n]) && c in NodeAt(origin, chain)
    ensures c in NodeAt(origin, chain[..n])
  {
    hide SpentBy, ChainOk, NodeAt, EverCoins;
    if c !in NodeAt(origin, chain[..n]) {
      var j := GoneWasSpent(origin, chain[..n], c);
      LiveIsUnspent(origin, chain, j, c);
    }
  }

  /** A coin is among the coins of the first n blocks unless a later one created it, under an id not handed out before. */
  lemma {:induction false} CreatedLater(origin: Origin, chain: seq<Mined>, n: nat, c: Coin) returns (j: nat)
    requires ChainOk(origin, chain) && n <= |chain| && c in EverCoins(origin, chain) && c !in EverCoins(origin, chain[..n])
    ensures n <= j < |chain| && c in CreatedBy(chain[j].body)
    ensures c.creationId !in GivenAt(origin, chain[..n])
  {
    hide CreatedBy, SpentBy, DistinctIds, SlotsFit, WellPositioned, NodeOk;
    assert chain[..|chain|] == chain;
    var front := chain[..|chain| - 1];
    assert front[..n] == chain[..n];
    PrefixOk(origin, front, n);
    if c in CreatedBy(chain[|chain| - 1].body) {
      j := |chain| - 1;
      assert c.creationId in Ids(CreatedBy(chain[|chain| - 1].body));
    } else {
      j := CreatedLater(origin, front, n, c);
    }
  }

  /** Segments in which a block spends or creates a coin. */
  ghost function Touched(node: set<Coin>, body: Body, size: nat): set<int>
    requires size > 0
  {
    set c | c in node + CreatedBy(body) && (c in CreatedBy(body) || c.creationId in SpentBy(body)) :: c.slot / size
  }

  lemma IsTouched(node: set<Coin>, body: Body, size: nat, c: Coin)
    requires size > 0 && c in node + CreatedBy(body) && (c in CreatedBy(body) || c.creationId in SpentBy(body))
    ensures c.slot / size in Touched(node, body, size)
  {
  }

  /** A block touches the segment of every coin it spends. */
  lemma SpendingTouches(origin: Origin, chain: seq<Mined>, j: nat, c: Coin, size: nat)
    requires size > 0 && ChainOk(origin, chain) && j < |chain|
    requires c in EverCoins(origin, chain) && c.creationId in SpentBy(chain[j].body)
    ensures c.slot / size in Touched(NodeAt(origin, chain[..j]), chain[j].body, size)
  {
    hide CreatedBy, SpentBy, DistinctIds, SlotsFit, WellPositioned, GivenAt, NodeAt, Touched, EverCoins, ChainOk, NodeOk;
    var node, body := NodeAt(origin, chain[..j]), chain[j].body;
    BlockExtends(origin, chain, j);
    LiveOnce(origin, chain[..j]);
    EverGrows(origin, chain, j);
    CreatedEver(origin, chain, j);
    if c.creationId in Ids(node) {
      var d :| d in node && d.creationId == c.creationId;
      EverOnce(origin, chain, c, d);
    } else {
      var d :| d in CreatedBy(body) && d.creationId == c.creationId;
      EverOnce(origin, chain, c, d);
    }
    IsTouched(node, body, size, c);
  }
}
