/**
  Checking and reloading block bodies (permanode/src/import.rs, `check_body` and
  `body_from_db`): what a body must satisfy before it is recorded, and what another
  permanode is handed from the rows.
 */
module Bodies {
  import opened Wrappers
  import opened Tables

  const U32 := 0x1_0000_0000

  function AsU32(x: int): u32 {
    x % U32
  }

  // ---------------------------------------------------------------- the check

  function HexValue(c: char): Option<nat> {
    if '0' <= c <= '9' then Some(c as int - '0' as int)
    else if 'a' <= c <= 'f' then Some(c as int - 'a' as int + 10)
    else if 'A' <= c <= 'F' then Some(c as int - 'A' as int + 10)
    else None
  }

  function HexDecode(s: string): Option<seq<nat>> {
    if s == [] then Some([])
    else if |s| == 1 then None
    else match (HexValue(s[0]), HexValue(s[1]), HexDecode(s[2..]))
      case (Some(hi), Some(lo), Some(rest)) => Some([16 * hi + lo] + rest)
      case _ => None
  }

  /** A txid is 32 bytes of hex. */
  function TxidBytes(txid: string): Option<seq<nat>> {
    var bytes := HexDecode(txid);
    if bytes.Some? && |bytes.value| == 32 then bytes else None
  }

  /** The transactions' ids in order, if every one is 32 bytes of hex. */
  function Txids(txs: seq<Tx>): Option<seq<seq<nat>>> {
    if txs == [] then Some([]) else
      match (Txids(txs[..|txs| - 1]), TxidBytes(txs[|txs| - 1].txid))
      case (Some(front), Some(last)) => Some(front + [last])
      case _ => None
  }

  // Sums of unsigned fields wrap, as an optimised build's do.

  function SumInputs(inputs: seq<Input>): u64 {
    if inputs == [] then 0 else (SumInputs(inputs[..|inputs| - 1]) + inputs[|inputs| - 1].amount) % U64
  }

  function SumOutputs(outputs: seq<Output>): u64 {
    if outputs == [] then 0 else (SumOutputs(outputs[..|outputs| - 1]) + outputs[|outputs| - 1].amount) % U64
  }

  function SumFees(txs: seq<Tx>): u64 {
    if txs == [] then 0 else
      var last := txs[|txs| - 1];
      (SumFees(txs[..|txs| - 1]) + if last.coinbase then 0 else last.fee) % U64
  }

  function SumLiveInputs(txs: seq<Tx>): u32 {
    if txs == [] then 0 else AsU32(SumLiveInputs(txs[..|txs| - 1]) + txs[|txs| - 1].liveInputs)
  }

  function SumLiveOutputs(txs: seq<Tx>): u32 {
    if txs == [] then 0 else AsU32(SumLiveOutputs(txs[..|txs| - 1]) + txs[|txs| - 1].liveOutputs)
  }

  predicate IsUser(tx: Tx) {
    !tx.coinbase && !tx.developmentPayout
  }

  function SumUserPages(txs: seq<Tx>): u32 {
    if txs == [] then 0 else
      var last := txs[|txs| - 1];
      AsU32(SumUserPages(txs[..|txs| - 1]) + if IsUser(last) then last.pageCount else 0)
  }

  /** One transaction fits its place and adds up. */
  predicate TxChecks(tx: Tx, i: nat) {
    && tx.position == i
    && TxidBytes(tx.txid).Some?
    && |tx.pageHashes| == tx.pageCount
    && tx.liveInputs == |tx.inputs| && tx.liveOutputs == |tx.outputs|
    && Decimal(SumOutputs(tx.outputs)) == tx.outputSum
    && Decimal(SumInputs(tx.inputs)) == tx.inputSum
    && (IsUser(tx) ==> SumInputs(tx.inputs) == (SumOutputs(tx.outputs) + tx.fee) % U64)
  }

  predicate TotalsCheck(body: Body) {
    && body.txs != []
    && Decimal(SumFees(body.txs)) == body.totalFees
    && SumOutputs(body.txs[0].outputs) == body.reward
    && body.logicalTransactions == |body.txs|
    && body.liveInputs == SumLiveInputs(body.txs)
    && body.liveOutputs == SumLiveOutputs(body.txs)
    && body.userPages == SumUserPages(body.txs)
  }

  /** What `check_body` accepts: a complete, ordered list under the header's root whose sums add up. */
  predicate BodyChecks(body: Body, txRoot: string, root: seq<seq<nat>> -> string) {
    && 1 <= |body.txs| <= 256 && body.txs[0].coinbase
    && (forall i | 0 <= i < |body.txs| :: TxChecks(body.txs[i], i))
    && Txids(body.txs).Some? && root(Txids(body.txs).value) == txRoot
    && TotalsCheck(body)
  }

  /** The checks of one transaction, in the program's order. */
  method CheckTx(tx: Tx, i: nat) returns (ok: bool)
    ensures ok == TxChecks(tx, i)
    ensures ok && IsUser(tx) ==> Balances(tx)
  {
    hide TxidBytes, Decimal, SumInputs, SumOutputs, Balances;
    if TxChecks(tx, i) && IsUser(tx) { CheckedTxBalances(tx, i); }
    if tx.position != i { return false; }
    if TxidBytes(tx.txid).None? { return false; }
    if |tx.pageHashes| != tx.pageCount { return false; }
    if tx.liveInputs != |tx.inputs| || tx.liveOutputs != |tx.outputs| { return false; }
    var outputTotal := SumOutputs(tx.outputs);
    if Decimal(outputTotal) != tx.outputSum { return false; }
    var inputTotal := SumInputs(tx.inputs);
    if Decimal(inputTotal) != tx.inputSum { return false; }
    ok := IsUser(tx) ==> inputTotal == (outputTotal + tx.fee) % U64;
  }

  // ---------------------------------------------------------------- what the sums say

  /** The amounts added up without wrapping. */
  ghost function AmountIn(inputs: seq<Input>): nat {
    if inputs == [] then 0 else AmountIn(inputs[..|inputs| - 1]) + inputs[|inputs| - 1].amount
  }

  ghost function AmountOut(outputs: seq<Output>): nat {
    if outputs == [] then 0 else AmountOut(outputs[..|outputs| - 1]) + outputs[|outputs| - 1].amount
  }

  /** Nothing is made or lost, but by a multiple of 2^64, and then only where a side does not fit 64 bits. */
  ghost predicate Balances(tx: Tx) {
    && (AmountIn(tx.inputs) - AmountOut(tx.outputs) - tx.fee) % U64 == 0
    && (AmountIn(tx.inputs) < U64 && AmountOut(tx.outputs) + tx.fee < U64 ==> AmountIn(tx.inputs) == AmountOut(tx.outputs) + tx.fee)
  }

  lemma {:induction false} SumInputsWraps(inputs: seq<Input>)
    ensures SumInputs(inputs) == AmountIn(inputs) % U64
  {
    if inputs != [] { SumInputsWraps(inputs[..|inputs| - 1]); }
  }

  lemma {:induction false} SumOutputsWraps(outputs: seq<Output>)
    ensures SumOutputs(outputs) == AmountOut(outputs) % U64
  {
    if outputs != [] { SumOutputsWraps(outputs[..|outputs| - 1]); }
  }

  /** A user's transaction that passes spends what it creates and its fee. */
  lemma CheckedTxBalances(tx: Tx, i: nat)
    requires TxChecks(tx, i) && IsUser(tx)
    ensures Balances(tx)
  {
    hide TxidBytes, Decimal;
    SumInputsWraps(tx.inputs);
    SumOutputsWraps(tx.outputs);
    hide SumInputs, SumOutputs, AmountIn, AmountOut;
    var a, b := AmountIn(tx.inputs), AmountOut(tx.outputs);
    assert a % U64 == (b % U64 + tx.fee) % U64;
  }

  ghost function UserIn(txs: seq<Tx>): nat {
    if txs == [] then 0 else UserIn(txs[..|txs| - 1]) + if IsUser(txs[|txs| - 1]) then AmountIn(txs[|txs| - 1].inputs) else 0
  }

  /** What the users' transactions create and pay. */
  ghost function UserOut(txs: seq<Tx>): nat {
    if txs == [] then 0 else
      var last := txs[|txs| - 1];
      UserOut(txs[..|txs| - 1]) + if IsUser(last) then AmountOut(last.outputs) + last.fee else 0
  }

  /** In an accepted body the users' transactions together spend what they create and pay. */
  lemma AcceptedBodyBalances(body: Body, txRoot: string, root: seq<seq<nat>> -> string)
    requires BodyChecks(body, txRoot, root)
    ensures (UserIn(body.txs) - UserOut(body.txs)) % U64 == 0
    ensures (forall i :: 0 <= i < |body.txs| && IsUser(body.txs[i]) ==>
               AmountIn(body.txs[i].inputs) < U64 && AmountOut(body.txs[i].outputs) + body.txs[i].fee < U64) ==>
            UserIn(body.txs) == UserOut(body.txs)
  {
    hide TxidBytes, Txids, TotalsCheck, TxChecks, Balances;
    forall i | 0 <= i < |body.txs| && IsUser(body.txs[i]) ensures Balances(body.txs[i]) { CheckedTxBalances(body.txs[i], i); }
    assert body.txs[..|body.txs|] == body.txs;
    UsersBalance(body.txs);
  }

  lemma {:induction false} UsersBalance(txs: seq<Tx>)
    requires forall i :: 0 <= i < |txs| && IsUser(txs[i]) ==> Balances(txs[i])
    ensures (UserIn(txs) - UserOut(txs)) % U64 == 0
    ensures (forall i :: 0 <= i < |txs| && IsUser(txs[i]) ==> AmountIn(txs[i].inputs) < U64 && AmountOut(txs[i].outputs) + txs[i].fee < U64) ==>
            UserIn(txs) == UserOut(txs)
  {
    hide AmountIn, AmountOut;
    if txs != [] {
      var last := txs[|txs| - 1];
      UsersBalance(txs[..|txs| - 1]);
      assert IsUser(last) ==> Balances(last);
    }
  }

  method CheckBody(body: Body, txRoot: string, root: seq<seq<nat>> -> string) returns (ok: bool)
    ensures ok == BodyChecks(body, txRoot, root)
  {
    hide TxChecks, TotalsCheck, Txids;
    if body.txs == [] || |body.txs| > 256 || !body.txs[0].coinbase { return false; }
    var txids: seq<seq<nat>> := [];
    NoTxids();
    for i := 0 to |body.txs|
      invariant forall j :: 0 <= j < i ==> TxChecks(body.txs[j], j)
      invariant Txids(body.txs[..i]) == Some(txids)
    {
      var fits := CheckTx(body.txs[i], i);
      if !fits { return false; }
      OneMoreTxid(body.txs, i, txids);
      txids := txids + [TxidBytes(body.txs[i].txid).value];
    }
    assert body.txs[..|body.txs|] == body.txs;
    ok := root(txids) == txRoot && TotalsCheck(body);
  }

  lemma NoTxids()
    ensures forall txs: seq<Tx> :: Txids(txs[..0]) == Some([])
  {
  }

  lemma OneMoreTxid(txs: seq<Tx>, i: nat, txids: seq<seq<nat>>)
    requires i < |txs| && Txids(txs[..i]) == Some(txids) && TxChecks(txs[i], i)
    ensures TxidBytes(txs[i].txid).Some?
    ensures Txids(txs[..i + 1]) == Some(txids + [TxidBytes(txs[i].txid).value])
  {
    hide TxidBytes, Decimal, SumInputs, SumOutputs;
    assert txs[..i + 1][..i] == txs[..i];
  }

  /** Under an injective root, a header admits one list of transactions. */
  lemma AcceptedBodiesAgree(a: Body, b: Body, txRoot: string, root: seq<seq<nat>> -> string)
    requires forall x, y :: root(x) == root(y) ==> x == y
    requires BodyChecks(a, txRoot, root) && BodyChecks(b, txRoot, root)
    ensures |a.txs| == |b.txs| && forall i :: 0 <= i < |a.txs| ==> TxidBytes(a.txs[i].txid) == TxidBytes(b.txs[i].txid)
  {
    hide TxidBytes, TotalsCheck;
    TxidList(a.txs);
    TxidList(b.txs);
  }

  lemma {:induction false} TxidList(txs: seq<Tx>)
    requires Txids(txs).Some?
    ensures |Txids(txs).value| == |txs|
    ensures forall i :: 0 <= i < |txs| ==> TxidBytes(txs[i].txid) == Some(Txids(txs).value[i])
  {
    hide TxidBytes;
    if txs != [] {
      TxidList(txs[..|txs| - 1]);
    }
  }

  // ---------------------------------------------------------------- the reload

  /** The members of a set in ascending order, as ORDER BY returns them. */
  ghost function Sorted(s: set<nat>): (r: seq<nat>)
    ensures forall i :: 0 <= i < |r| ==> r[i] in s
  {
    if s == {} then [] else
      var least := Least(s);
      [least] + Sorted(s - {least})
  }

  ghost function Least(s: set<nat>): (least: nat)
    requires s != {}
    ensures least in s && forall x :: x in s ==> least <= x
  {
    HasLeast(s);
    var least :| least in s && forall x :: x in s ==> least <= x;
    least
  }

  lemma HasLeast(s: set<nat>)
    requires s != {}
    ensures exists least :: least in s && forall x :: x in s ==> least <= x
  {
    if forall k :: k !in s { assert false; }
    var k :| k in s;
    LeastAtMost(s, k);
  }

  lemma {:induction false} LeastAtMost(s: set<nat>, k: nat)
    requires k in s
    ensures exists least :: least in s && forall x :: x in s ==> least <= x
    decreases k
  {
    if x :| x in s && x < k {
      LeastAtMost(s, x);
    }
  }

  lemma {:induction false} SortedMembers(s: set<nat>)
    ensures forall h :: h in Sorted(s) <==> h in s
    decreases s
  {
    if s != {} {
      SortedMembers(s - {Least(s)});
    }
  }

  lemma {:induction false} SortedAscends(s: set<nat>)
    ensures forall i, j :: 0 <= i < j < |Sorted(s)| ==> Sorted(s)[i] < Sorted(s)[j]
    decreases s
  {
    if s != {} {
      SortedAscends(s - {Least(s)});
    }
  }

  lemma SortedTakesLeast(s: set<nat>, least: nat)
    requires least in s && forall x :: x in s ==> least <= x
    ensures Sorted(s) == [least] + Sorted(s - {least})
  {
    assert s != {};
  }

  /** SELECT ... ORDER BY: the members in ascending order. */
  method Ordered(ids: set<nat>) returns (r: seq<nat>)
    ensures r == Sorted(ids)
  {
    r := [];
    var rest := ids;
    while rest != {}
      invariant Sorted(ids) == r + Sorted(rest)
      decreases rest
    {
      HasLeast(rest);
      var least :| least in rest && forall x | x in rest :: least <= x;
      SortedTakesLeast(rest, least);
      r := r + [least];
      rest := rest - {least};
    }
    assert Sorted(rest) == [];
  }

  ghost predicate IsInterval(s: set<nat>, lo: nat, hi: nat) {
    forall i: nat :: i in s <==> lo <= i < hi
  }

  lemma {:induction false} SortedInterval(s: set<nat>, lo: nat, hi: nat)
    requires lo <= hi && IsInterval(s, lo, hi)
    ensures Sorted(s) == seq(hi - lo, i => lo + i)
    decreases hi - lo
  {
    if lo == hi {
      assert s == {};
    } else {
      assert lo in s;
      assert IsInterval(s - {lo}, lo + 1, hi);
      SortedInterval(s - {lo}, lo + 1, hi);
      assert Sorted(s) == [lo] + Sorted(s - {lo});
    }
  }

  ghost function PageIds(t: Tables, k: TxKey): set<nat> {
    set r | r in t.pages && r.tx == k :: r.idx
  }

  ghost function InputIds(t: Tables, k: TxKey): set<nat> {
    set r | r in t.inputs && r.tx == k :: r.idx
  }

  ghost function OutputIds(t: Tables, k: TxKey): set<nat> {
    set r | r in t.outputs && r.tx == k :: r.idx
  }

  ghost function Positions(t: Tables, b: BlockKey): set<nat> {
    set k | k in t.txs && k.block == b :: k.position
  }

  function LoadInput(row: InputRow): Option<Input> {
    match ParseU64(row.creationId)
    case None => None
    case Some(id) => Some(Input(AsU32(row.page), AsU32(row.lane), AsU64(row.slot), AsU64(row.amount), id))
  }

  function LoadOutput(row: OutputRow): Option<Output> {
    match row.creationId
    case None => None
    case Some(text) =>
      match ParseU64(text)
      case None => None
      case Some(id) => Some(Output(AsU32(row.page), AsU32(row.lane), AsU64(row.slot), AsU64(row.amount), row.owner, id))
  }

  ghost function LoadPages(t: Tables, k: TxKey, ids: seq<nat>): seq<string>
    requires forall i :: 0 <= i < |ids| ==> RowKey(k, ids[i]) in t.pages
  {
    seq(|ids|, i requires 0 <= i < |ids| => t.pages[RowKey(k, ids[i])])
  }

  ghost function LoadInputs(t: Tables, k: TxKey, ids: seq<nat>): Option<seq<Input>>
    requires forall i :: 0 <= i < |ids| ==> RowKey(k, ids[i]) in t.inputs
  {
    if ids == [] then Some([]) else
      match (LoadInputs(t, k, ids[..|ids| - 1]), LoadInput(t.inputs[RowKey(k, ids[|ids| - 1])]))
      case (Some(front), Some(last)) => Some(front + [last])
      case _ => None
  }

  ghost function LoadOutputs(t: Tables, k: TxKey, ids: seq<nat>): Option<seq<Output>>
    requires forall i :: 0 <= i < |ids| ==> RowKey(k, ids[i]) in t.outputs
  {
    if ids == [] then Some([]) else
      match (LoadOutputs(t, k, ids[..|ids| - 1]), LoadOutput(t.outputs[RowKey(k, ids[|ids| - 1])]))
      case (Some(front), Some(last)) => Some(front + [last])
      case _ => None
  }

  ghost function LoadTx(t: Tables, k: TxKey): Option<Tx>
    requires k in t.txs
  {
    var row := t.txs[k];
    match (LoadInputs(t, k, Sorted(InputIds(t, k))), LoadOutputs(t, k, Sorted(OutputIds(t, k))))
    case (Some(inputs), Some(outputs)) =>
      Some(Tx(AsU32(k.position), row.txid, AsU32(row.pageCount), AsU32(|inputs|), AsU32(|outputs|), AsU64(row.fee), row.coinbase,
              row.developmentPayout, row.epochAnchor, row.inputOwner, row.inputSum, row.outputSum,
              LoadPages(t, k, Sorted(PageIds(t, k))), inputs, outputs))
    case _ => None
  }

  ghost function LoadTxs(t: Tables, b: BlockKey, positions: seq<nat>): Option<seq<Tx>>
    requires forall i :: 0 <= i < |positions| ==> TxKey(b, positions[i]) in t.txs
  {
    if positions == [] then Some([]) else
      match (LoadTxs(t, b, positions[..|positions| - 1]), LoadTx(t, TxKey(b, positions[|positions| - 1])))
      case (Some(front), Some(last)) => Some(front + [last])
      case _ => None
  }

  /** A database answer: no such captured block, rows that do not read back, or the body. */
  datatype Loaded = Absent | Unreadable | Loaded(body: Body)

  ghost function LoadBody(t: Tables, b: BlockKey): Loaded {
    if b !in t.blocks || !t.blocks[b].captured then Absent else
      match (t.blocks[b].proofClass, t.blocks[b].reward, t.blocks[b].totalFees)
      case (Some(proofClass), Some(reward), Some(totalFees)) =>
        (match LoadTxs(t, b, Sorted(Positions(t, b)))
         case None => Unreadable
         case Some(txs) =>
           Loaded(Body(proofClass, AsU32(|txs|), SumUserPages(txs), SumLiveInputs(txs), SumLiveOutputs(txs),
                       AsU64(reward), totalFees, 0, txs)))
      case _ => Unreadable
  }
}
