/**
  An address's figures from the recorded history (core/src/queries.rs, `address_balance`
  and `balance_changes_by_hour`): what they add up to, and when.
 */
module Balances {
  import opened Wrappers
  import opened Sums
  import opened Tables
  import opened View

  // ---------------------------------------------------------------- sums kept as text

  function LeadingDigits(s: string): string {
    if s == [] || !('0' <= s[0] <= '9') then [] else [s[0]] + LeadingDigits(s[1..])
  }

  function PrefixValue(s: string): nat {
    var v := DigitsValue(LeadingDigits(s));
    if v.Some? then v.value else 0
  }

  /** CAST of a text to INTEGER: an optional sign, the digits that follow, kept in 64 bits. */
  function CastInteger(s: string): int {
    if s != [] && s[0] == '-' then -Min(PrefixValue(s[1..]), I64_MAX + 1)
    else Min(PrefixValue(if s != [] && s[0] == '+' then s[1..] else s), I64_MAX)
  }

  lemma {:induction false} LeadingDigitsOfDecimal(n: nat)
    ensures forall i :: 0 <= i < |Decimal(n)| ==> '0' <= Decimal(n)[i] <= '9'
  {
    if n >= 10 { LeadingDigitsOfDecimal(n / 10); }
  }

  lemma {:induction false} AllDigits(s: string)
    requires forall i :: 0 <= i < |s| ==> '0' <= s[i] <= '9'
    ensures LeadingDigits(s) == s
  {
    if s != [] { AllDigits(s[1..]); }
  }

  /** A sum written in decimal is read back as itself while it fits 64 bits. */
  lemma CastReadsDecimal(n: nat)
    requires n <= I64_MAX
    ensures CastInteger(Decimal(n)) == n
  {
    DecimalDigits(n);
    LeadingDigitsOfDecimal(n);
    AllDigits(Decimal(n));
    hide Decimal, DigitsValue;
  }

  // ---------------------------------------------------------------- the figures of one address

  predicate EverSpent(v: View, creationId: string) {
    exists k | k in v.inputs :: v.inputs[k].creationId == creationId
  }

  predicate IsSpent(v: View, k: RowKey)
    requires k in v.outputs
  {
    v.outputs[k].creationId.Some? && EverSpent(v, v.outputs[k].creationId.value)
  }

  predicate Carries(outputs: map<RowKey, OutputRow>, creationId: string) {
    exists k | k in outputs :: outputs[k].creationId == Some(creationId)
  }

  function ReceivedRows(v: View, address: string): map<RowKey, int> {
    map k | k in v.outputs && v.outputs[k].owner == address :: v.outputs[k].amount
  }

  function UnspentRows(v: View, address: string, flagged: bool): map<RowKey, int> {
    map k | k in v.outputs && v.outputs[k].owner == address && v.outputs[k].spentInGap == flagged && !IsSpent(v, k) :: v.outputs[k].amount
  }

  function SentTxs(v: View, address: string): map<TxKey, int> {
    map k | k in v.txs && v.txs[k].inputOwner == Some(address) :: CastInteger(v.txs[k].inputSum)
  }

  function SentInputs(v: View, address: string): map<RowKey, int> {
    map k | k in v.inputs && k.tx in v.txs && v.txs[k.tx].inputOwner == Some(address) :: v.inputs[k].amount
  }

  /** Inputs whose coin no output row carries, in whichever block that row lies. */
  function UnrecordedInputs(v: View, outputs: map<RowKey, OutputRow>, address: string): map<RowKey, int> {
    map k | k in SentInputs(v, address) && !Carries(outputs, v.inputs[k].creationId) :: v.inputs[k].amount
  }

  datatype AddressBalance = AddressBalance(confirmed: int, confirmedUtxos: nat, received: int, sent: int,
                                           spentInGap: int, spentInGapUtxos: nat, sentFromUnrecorded: int)

  ghost function BalanceOf(t: Tables, address: string): AddressBalance {
    var v := ViewOf(t);
    AddressBalance(Total(UnspentRows(v, address, false)), |UnspentRows(v, address, false)|,
                   Total(ReceivedRows(v, address)), Total(SentTxs(v, address)),
                   Total(UnspentRows(v, address, true)), |UnspentRows(v, address, true)|,
                   Total(UnrecordedInputs(v, t.outputs, address)))
  }

  // ---------------------------------------------------------------- conservation

  /** Inputs whose coin only rows outside the canonical record carry. */
  function OrphanedInputs(v: View, outputs: map<RowKey, OutputRow>, address: string): map<RowKey, int> {
    map k | k in SentInputs(v, address) && Carries(outputs, v.inputs[k].creationId) && !Carries(v.outputs, v.inputs[k].creationId) :: v.inputs[k].amount
  }

  /** Inputs whose coin is on the canonical record. */
  function MatchedInputs(v: View, address: string): map<RowKey, int> {
    map k | k in SentInputs(v, address) && Carries(v.outputs, v.inputs[k].creationId) :: v.inputs[k].amount
  }

  function SpentRows(v: View, address: string): map<RowKey, int> {
    map k | k in v.outputs && v.outputs[k].owner == address && IsSpent(v, k) :: v.outputs[k].amount
  }

  function InputsOfTx(v: View, k: TxKey): map<RowKey, int> {
    map i | i in v.inputs && i.tx == k :: v.inputs[i].amount
  }

  /** The spending input names the owner and the amount of the output it spends. */
  ghost predicate SpendFits(v: View, i: RowKey, o: RowKey)
    requires i in v.inputs && o in v.outputs
  {
    v.outputs[o].creationId == Some(v.inputs[i].creationId) ==>
      i.tx in v.txs && v.txs[i.tx].inputOwner == Some(v.outputs[o].owner) && v.inputs[i].amount == v.outputs[o].amount
  }

  /** Ids are created once and spent once, by their owner and for their amount, and input sums are right. */
  ghost predicate Consistent(v: View) {
    && (forall k, l :: k in v.outputs && l in v.outputs && v.outputs[k].creationId.Some? && v.outputs[k].creationId == v.outputs[l].creationId ==> k == l)
    && (forall k, l :: k in v.inputs && l in v.inputs && v.inputs[k].creationId == v.inputs[l].creationId ==> k == l)
    && (forall i, o :: i in v.inputs && o in v.outputs ==> SpendFits(v, i, o))
    && (forall k :: k in v.txs ==> CastInteger(v.txs[k].inputSum) == Total(InputsOfTx(v, k)))
  }

  /** Every row of `m` is in exactly one part. */
  ghost predicate Parts<K(!new)>(m: map<K, int>, a: map<K, int>, b: map<K, int>, c: map<K, int>) {
    forall k :: (k in m <==> k in a || k in b || k in c)
      && (k in a ==> k !in b && k !in c && m[k] == a[k])
      && (k in b ==> k !in c && m[k] == b[k])
      && (k in c ==> m[k] == c[k])
  }

  lemma PartsAddUp<K(!new)>(m: map<K, int>, a: map<K, int>, b: map<K, int>, c: map<K, int>)
    requires Parts(m, a, b, c)
    ensures Total(m) == Total(a) + Total(b) + Total(c)
  {
    TotalDisjoint(a, b);
    TotalDisjoint(a + b, c);
    assert m == a + b + c;
  }

  lemma ReceivedSplits(v: View, address: string)
    ensures Total(ReceivedRows(v, address)) ==
            Total(UnspentRows(v, address, false)) + Total(UnspentRows(v, address, true)) + Total(SpentRows(v, address))
  {
    hide IsSpent, Total;
    PartsAddUp(ReceivedRows(v, address), UnspentRows(v, address, false), UnspentRows(v, address, true), SpentRows(v, address));
  }

  lemma SentSplits(v: View, outputs: map<RowKey, OutputRow>, address: string)
    requires forall k :: k in v.outputs ==> k in outputs && outputs[k] == v.outputs[k]
    ensures Total(SentInputs(v, address)) ==
            Total(MatchedInputs(v, address)) + Total(OrphanedInputs(v, outputs, address)) + Total(UnrecordedInputs(v, outputs, address))
  {
    hide Total;
    CarriedStays(v.outputs, outputs);
    hide Carries;
    PartsAddUp(SentInputs(v, address), MatchedInputs(v, address), OrphanedInputs(v, outputs, address), UnrecordedInputs(v, outputs, address));
  }

  lemma CarriedStays(a: map<RowKey, OutputRow>, b: map<RowKey, OutputRow>)
    requires forall k :: k in a ==> k in b && b[k] == a[k]
    ensures forall id :: Carries(a, id) ==> Carries(b, id)
  {
    forall id | Carries(a, id) ensures Carries(b, id) {
      var k :| k in a && a[k].creationId == Some(id);
      assert k in b && b[k].creationId == Some(id);
    }
  }

  /** The input that spends an output. */
  ghost function Spender(v: View, k: RowKey): (i: RowKey)
    requires k in v.outputs && IsSpent(v, k)
    ensures i in v.inputs && Some(v.inputs[i].creationId) == v.outputs[k].creationId
  {
    var i :| i in v.inputs && v.inputs[i].creationId == v.outputs[k].creationId.value;
    i
  }

  /** Spent outputs and the inputs that spend them are the same coins. */
  lemma SpendsMatch(v: View, address: string)
    requires Consistent(v)
    ensures Total(SpentRows(v, address)) == Total(MatchedInputs(v, address))
  {
    hide Total;
    var a, b := SpentRows(v, address), MatchedInputs(v, address);
    var pair := map k | k in a :: Spender(v, k);
    forall k | k in a
      ensures pair[k] in b && b[pair[k]] == a[k]
    {
      assert SpendFits(v, pair[k], k);
    }
    forall i | i in b
      ensures Hit(a, pair, i)
    {
      var k :| k in v.outputs && v.outputs[k].creationId == Some(v.inputs[i].creationId);
      assert SpendFits(v, i, k);
      assert EverSpent(v, v.inputs[i].creationId);
      assert k in a && pair[k] == i;
    }
    TotalPaired(a, b, pair);
  }

  ghost function Group<K(!new), G>(rows: map<K, int>, group: map<K, G>, g: G): map<K, int>
    requires rows.Keys <= group.Keys
  {
    map k | k in rows && group[k] == g :: rows[k]
  }

  /** Rows summed group by group. */
  lemma {:induction false} TotalByGroup<K(!new), G>(rows: map<K, int>, group: map<K, G>, sums: map<G, int>)
    requires rows.Keys <= group.Keys && forall k :: k in rows ==> group[k] in sums
    requires forall g :: g in sums ==> sums[g] == Total(Group(rows, group, g))
    ensures Total(rows) == Total(sums)
    decreases |sums|
  {
    hide Total, Group;
    if sums == map[] {
      assert rows == map[];
      NothingToSum(rows, sums);
    } else {
      var g :| g in sums;
      var own := Group(rows, group, g);
      OneGroup(rows, group, g);
      var rest := rows - own.Keys;
      forall f | f in sums - {g}
        ensures (sums - {g})[f] == Total(Group(rest, group, f))
      {
        OtherGroup(rows, group, g, f);
      }
      TotalByGroup(rest, group, sums - {g});
      TotalPick(sums, g);
    }
  }

  lemma NothingToSum<K, G>(rows: map<K, int>, sums: map<G, int>)
    requires rows == map[] && sums == map[]
    ensures Total(rows) == Total(sums)
  {
  }

  lemma OneGroup<K(!new), G>(rows: map<K, int>, group: map<K, G>, g: G)
    requires rows.Keys <= group.Keys
    ensures var own := Group(rows, group, g);
            Total(rows) == Total(own) + Total(rows - own.Keys) && own.Keys <= rows.Keys && forall k :: k in rows - own.Keys ==> group[k] != g
  {
    var own := Group(rows, group, g);
    TotalSplit(rows, own.Keys);
    assert (map k | k in own.Keys :: rows[k]) == own;
  }

  lemma OtherGroup<K(!new), G>(rows: map<K, int>, group: map<K, G>, g: G, f: G)
    requires rows.Keys <= group.Keys && f != g
    ensures Group(rows - Group(rows, group, g).Keys, group, f) == Group(rows, group, f)
  {
  }

  lemma SentIsItsInputs(v: View, address: string)
    requires Consistent(v)
    ensures Total(SentTxs(v, address)) == Total(SentInputs(v, address))
  {
    hide Total, CastInteger, SpendFits, InputsOfTx, Group;
    var rows, sums := SentInputs(v, address), SentTxs(v, address);
    var group := map k | k in rows :: k.tx;
    forall g | g in sums
      ensures sums[g] == Total(Group(rows, group, g))
    {
      GroupIsTx(v, address, group, g);
    }
    TotalByGroup(rows, group, sums);
  }

  lemma GroupIsTx(v: View, address: string, group: map<RowKey, TxKey>, g: TxKey)
    requires group == (map k | k in SentInputs(v, address) :: k.tx) && g in v.txs && v.txs[g].inputOwner == Some(address)
    ensures Group(SentInputs(v, address), group, g) == InputsOfTx(v, g)
  {
  }

  lemma ViewIsPart(t: Tables)
    ensures forall k :: k in ViewOf(t).outputs ==> k in t.outputs && t.outputs[k] == ViewOf(t).outputs[k]
  {
    hide IsCanonical;
  }

  /**
    What is left of the received coins is what was not spent - up to the inputs whose coin
    only an orphaned block's row carries, which count neither as recorded nor as unrecorded.
   */
  lemma BalanceIdentity(t: Tables, address: string)
    requires Consistent(ViewOf(t))
    ensures var b := BalanceOf(t, address);
            b.confirmed + b.spentInGap == b.received - (b.sent - b.sentFromUnrecorded) + Total(OrphanedInputs(ViewOf(t), t.outputs, address))
  {
    hide Total, Consistent, ViewOf, ReceivedRows, UnspentRows, SentTxs, UnrecordedInputs, OrphanedInputs, SentInputs, MatchedInputs, SpentRows;
    var v := ViewOf(t);
    ViewIsPart(t);
    ReceivedSplits(v, address);
    SpendsMatch(v, address);
    SentSplits(v, t.outputs, address);
    SentIsItsInputs(v, address);
  }

  /** The balance is conserved exactly when no spent coin of the address is known from orphaned blocks alone. */
  lemma BalanceConservedWhen(t: Tables, address: string)
    requires Consistent(ViewOf(t))
    requires forall k :: k in ViewOf(t).inputs ==> ViewOf(t).inputs[k].amount > 0
    ensures var b := BalanceOf(t, address);
            b.confirmed + b.spentInGap == b.received - (b.sent - b.sentFromUnrecorded)
            <==> forall k :: k in SentInputs(ViewOf(t), address) && Carries(t.outputs, ViewOf(t).inputs[k].creationId) ==> Carries(ViewOf(t).outputs, ViewOf(t).inputs[k].creationId)
  {
    hide Total, Consistent, ViewOf, BalanceOf, Carries;
    BalanceIdentity(t, address);
    TotalPositive(OrphanedInputs(ViewOf(t), t.outputs, address));
    EmptyWhen(ViewOf(t), t.outputs, address);
  }

  lemma EmptyWhen(v: View, outputs: map<RowKey, OutputRow>, address: string)
    ensures OrphanedInputs(v, outputs, address) == map[] <==>
            forall k :: k in SentInputs(v, address) && Carries(outputs, v.inputs[k].creationId) ==> Carries(v.outputs, v.inputs[k].creationId)
  {
    hide Carries;
    if OrphanedInputs(v, outputs, address) == map[] {
      forall k | k in SentInputs(v, address) && Carries(outputs, v.inputs[k].creationId)
        ensures Carries(v.outputs, v.inputs[k].creationId)
      {
        assert k !in OrphanedInputs(v, outputs, address);
      }
    }
  }

  // ---------------------------------------------------------------- changes per hour

  /** Integer division as SQLite's: toward zero. */
  function HourOf(timestamp: int): int {
    if timestamp >= 0 then timestamp / 3600 * 3600 else -((-timestamp) / 3600 * 3600)
  }

  datatype Move = Move(hour: int, amount: int)

  function ReceivedMoves(t: Tables, address: string): map<RowKey, Move> {
    var v := ViewOf(t);
    map k | k in v.outputs && v.outputs[k].owner == address :: Move(HourOf(t.blocks[k.tx.block].timestamp), v.outputs[k].amount)
  }

  function SentMoves(t: Tables, address: string): map<TxKey, Move> {
    var v := ViewOf(t);
    map k | k in v.txs && v.txs[k].inputOwner == Some(address) :: Move(HourOf(t.blocks[k.block].timestamp), CastInteger(v.txs[k].inputSum))
  }

  /** Flagged outputs move in the hour the sweep noticed they were gone. */
  function FlaggedMoves(t: Tables, address: string): map<RowKey, Move> {
    var v := ViewOf(t);
    map k | k in v.outputs && v.outputs[k].owner == address && v.outputs[k].spentInGap && v.outputs[k].spentInGapAt.Some? ::
      Move(HourOf(v.outputs[k].spentInGapAt.value), v.outputs[k].amount)
  }

  ghost function Amounts<K(!new)>(moves: map<K, Move>): map<K, int> {
    map k | k in moves :: moves[k].amount
  }

  ghost function InHour<K(!new)>(moves: map<K, Move>, hour: int): map<K, int> {
    map k | k in moves && moves[k].hour == hour :: moves[k].amount
  }

  function At(m: map<int, int>, hour: int): int {
    if hour in m then m[hour] else 0
  }

  /** One pass: every row moves the change of its hour. */
  method AddMoves<K(==, !new)>(before: map<int, int>, moves: map<K, Move>, sign: int) returns (byHour: map<int, int>)
    ensures forall hour :: At(byHour, hour) == At(before, hour) + sign * Total(InHour(moves, hour))
    ensures Total(byHour) == Total(before) + sign * Total(Amounts(moves))
  {
    hide Total, At;
    byHour := before;
    var todo := moves.Keys;
    ghost var done: map<K, Move> := map[];
    NothingMoved(done, sign);
    while todo != {}
      invariant todo <= moves.Keys && done == moves - todo
      invariant forall hour :: At(byHour, hour) == At(before, hour) + sign * Total(InHour(done, hour))
      invariant Total(byHour) == Total(before) + sign * Total(Amounts(done))
      decreases todo
    {
      HasKey(todo);
      var k :| k in todo;
      MoveOne(before, byHour, done, k, moves[k], sign);
      byHour := byHour[moves[k].hour := At(byHour, moves[k].hour) + sign * moves[k].amount];
      done, todo := done[k := moves[k]], todo - {k};
      assert done == moves - todo;
    }
    assert done == moves;
  }

  lemma HasKey<K(!new)>(keys: set<K>)
    requires keys != {}
    ensures exists k :: k in keys
  {
    if forall k :: k !in keys { assert false; }
  }

  lemma NothingMoved<K(!new)>(none: map<K, Move>, sign: int)
    requires none == map[]
    ensures forall hour :: sign * Total(InHour(none, hour)) == 0
    ensures sign * Total(Amounts(none)) == 0
  {
    assert Amounts(none) == map[];
    forall hour ensures InHour(none, hour) == map[] {}
  }

  lemma SetTotal(m: map<int, int>, k: int, x: int)
    ensures Total(m[k := At(m, k) + x]) == Total(m) + x
  {
    if k in m {
      TotalPick(m, k);
      TotalPick(m[k := m[k] + x], k);
      assert m[k := m[k] + x] - {k} == m - {k};
    } else {
      TotalInsert(m, k, x);
    }
  }

  lemma MoveOne<K(!new)>(before: map<int, int>, byHour: map<int, int>, done: map<K, Move>, k: K, move: Move, sign: int)
    requires k !in done
    requires forall hour :: At(byHour, hour) == At(before, hour) + sign * Total(InHour(done, hour))
    requires Total(byHour) == Total(before) + sign * Total(Amounts(done))
    ensures var next := byHour[move.hour := At(byHour, move.hour) + sign * move.amount];
            && (forall hour :: At(next, hour) == At(before, hour) + sign * Total(InHour(done[k := move], hour)))
            && Total(next) == Total(before) + sign * Total(Amounts(done[k := move]))
  {
    hide Total;
    var next := byHour[move.hour := At(byHour, move.hour) + sign * move.amount];
    SetTotal(byHour, move.hour, sign * move.amount);
    assert Amounts(done[k := move]) == Amounts(done)[k := move.amount];
    TotalInsert(Amounts(done), k, move.amount);
    SignedSum(sign, Total(Amounts(done)), move.amount);
    forall hour
      ensures At(next, hour) == At(before, hour) + sign * Total(InHour(done[k := move], hour))
    {
      HourMoves(done, k, move, hour);
      SignedSum(sign, Total(InHour(done, hour)), move.amount);
    }
  }

  lemma SignedSum(sign: int, a: int, b: int)
    ensures sign * (a + b) == sign * a + sign * b
  {
  }

  lemma HourMoves<K(!new)>(done: map<K, Move>, k: K, move: Move, hour: int)
    requires k !in done
    ensures Total(InHour(done[k := move], hour)) == Total(InHour(done, hour)) + (if move.hour == hour then move.amount else 0)
  {
    if move.hour == hour {
      assert InHour(done[k := move], hour) == InHour(done, hour)[k := move.amount];
      TotalInsert(InHour(done, hour), k, move.amount);
    } else {
      assert InHour(done[k := move], hour) == InHour(done, hour);
    }
  }

  lemma SomeHour(m: map<int, int>) returns (k: int)
    requires m != map[]
    ensures k in m
  {
    if forall h :: h !in m.Keys { assert false; }
    k :| k in m;
  }

  lemma {:induction false} ZerosAddNothing(m: map<int, int>)
    ensures Total(map h | h in m && m[h] != 0 :: m[h]) == Total(m)
    decreases |m|
  {
    var kept := map h | h in m && m[h] != 0 :: m[h];
    if m == map[] {
      assert kept == map[];
    } else {
      var k := SomeHour(m);
      var rest := m - {k};
      ZerosAddNothing(rest);
      TotalPick(m, k);
      if m[k] != 0 {
        TotalPick(kept, k);
        assert kept - {k} == map h | h in rest && rest[h] != 0 :: rest[h];
      } else {
        assert kept == map h | h in rest && rest[h] != 0 :: rest[h];
      }
    }
  }

  ghost function Change(t: Tables, address: string, hour: int): int {
    Total(InHour(ReceivedMoves(t, address), hour)) - Total(InHour(SentMoves(t, address), hour)) - Total(InHour(FlaggedMoves(t, address), hour))
  }

  /** Balance changes per hour with movement; over all hours they add up to what was received less what was sent or found gone. */
  method BalanceChangesByHour(t: Tables, address: string) returns (out: map<int, int>)
    ensures forall hour :: (hour in out <==> Change(t, address, hour) != 0) && (hour in out ==> out[hour] == Change(t, address, hour))
    ensures Total(out) == Total(ReceivedRows(ViewOf(t), address)) - Total(SentTxs(ViewOf(t), address)) - Total(Amounts(FlaggedMoves(t, address)))
  {
    hide Total, ReceivedMoves, SentMoves, FlaggedMoves, ViewOf, ReceivedRows, SentTxs, InHour, Amounts;
    var received := AddMoves(map[], ReceivedMoves(t, address), 1);
    var sent := AddMoves(received, SentMoves(t, address), -1);
    var byHour := AddMoves(sent, FlaggedMoves(t, address), -1);
    out := map h | h in byHour && byHour[h] != 0 :: byHour[h];
    ZerosAddNothing(byHour);
    NoHours();
    MovedAmounts(t, address);
  }

  lemma NoHours()
    ensures Total<int>(map[]) == 0
  {
  }

  lemma MovedAmounts(t: Tables, address: string)
    ensures Amounts(ReceivedMoves(t, address)) == ReceivedRows(ViewOf(t), address)
    ensures Amounts(SentMoves(t, address)) == SentTxs(ViewOf(t), address)
  {
    hide IsCanonical, CastInteger, HourOf;
    assert Amounts(ReceivedMoves(t, address)).Keys == ReceivedRows(ViewOf(t), address).Keys;
    assert Amounts(SentMoves(t, address)).Keys == SentTxs(ViewOf(t), address).Keys;
  }
}
