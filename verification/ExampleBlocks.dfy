/** Blocks for the examples: a coinbase alone, or with one spend, as the body check accepts them. */
module ExampleBlocks {
  import opened Wrappers
  import opened Tables
  import opened Bodies
  import opened BodyLaws
  import opened Chains

  function Txid(digit: char): string {
    seq(64, _ => digit)
  }

  function Coinbase(o: Output): Tx {
    Tx(0, Txid('0'), 1, 0, 1, 0, true, false, "", None, "0", Decimal(o.amount), ["page"], [], [o])
  }

  function Spend(i: Input, o: Output): Tx {
    Tx(1, Txid('1'), 1, 1, 1, 1, false, false, "", Some("x"), Decimal(i.amount), Decimal(o.amount), ["page"], [i], [o])
  }

  function Empty(o: Output): Body {
    Body("", 1, 0, 0, 1, o.amount, "0", 0, [Coinbase(o)])
  }

  function WithSpend(o: Output, i: Input, p: Output): Body {
    Body("", 2, 1, 1, 2, o.amount, "1", 0, [Coinbase(o), Spend(i, p)])
  }

  // ---------------------------------------------------------------- the blocks pass the check

  lemma {:induction false} SameDigits(digit: char, n: nat)
    requires HexValue(digit).Some?
    ensures HexDecode(seq(2 * n, _ => digit)).Some? && |HexDecode(seq(2 * n, _ => digit)).value| == n
  {
    var s := seq(2 * n, _ => digit);
    if n > 0 {
      assert s[2..] == seq(2 * (n - 1), _ => digit);
      SameDigits(digit, n - 1);
    }
  }

  lemma TxidIsRead(digit: char)
    requires HexValue(digit).Some?
    ensures TxidBytes(Txid(digit)).Some?
  {
    SameDigits(digit, 32);
  }

  lemma OneAmount(i: Input, o: Output)
    ensures SumOutputs([o]) == o.amount && SumInputs([i]) == i.amount && SumInputs([]) == 0
  {
    assert [o][..0] == [] && [i][..0] == [];
  }

  lemma CoinbaseChecks(o: Output)
    ensures TxChecks(Coinbase(o), 0)
  {
    hide TxidBytes, Decimal, Txid;
    TxidIsRead('0');
    OneAmount(Input(0, 0, 0, 0, 0), o);
    ZeroAndOne();
  }

  lemma ZeroAndOne()
    ensures Decimal(0) == "0" && Decimal(1) == "1"
  {
  }

  lemma SpendChecks(i: Input, o: Output)
    requires i.amount == o.amount + 1
    ensures TxChecks(Spend(i, o), 1)
  {
    hide TxidBytes, Decimal, Txid;
    TxidIsRead('1');
    OneAmount(i, o);
  }

  lemma OneTx(tx: Tx)
    requires TxidBytes(tx.txid).Some?
    ensures Txids([tx]).Some? && SumFees([tx]) == (if tx.coinbase then 0 else tx.fee)
    ensures SumLiveInputs([tx]) == tx.liveInputs && SumLiveOutputs([tx]) == tx.liveOutputs
    ensures SumUserPages([tx]) == if IsUser(tx) then tx.pageCount else 0
  {
    hide TxidBytes;
    assert [tx][..0] == [] && Txids([]) == Some([]);
  }

  lemma EmptyChecks(o: Output, root: seq<seq<nat>> -> string) returns (txRoot: string)
    ensures BodyChecks(Empty(o), txRoot, root)
  {
    hide TxChecks, TxidBytes, Decimal, Txid;
    var txs := Empty(o).txs;
    CoinbaseChecks(o);
    TxidIsRead('0');
    OneAmount(Input(0, 0, 0, 0, 0), o);
    ZeroAndOne();
    OneTx(Coinbase(o));
    txRoot := root(Txids(txs).value);
  }

  lemma WithSpendChecks(o: Output, i: Input, p: Output, root: seq<seq<nat>> -> string) returns (txRoot: string)
    requires i.amount == p.amount + 1
    ensures BodyChecks(WithSpend(o, i, p), txRoot, root)
  {
    hide TxChecks, TxidBytes, Decimal, Txid;
    var txs := WithSpend(o, i, p).txs;
    CoinbaseChecks(o);
    SpendChecks(i, p);
    TxidIsRead('0');
    TxidIsRead('1');
    OneAmount(i, o);
    ZeroAndOne();
    OneTx(Coinbase(o));
    assert txs[..1] == [Coinbase(o)];
    assert TotalsCheck(WithSpend(o, i, p));
    txRoot := root(Txids(txs).value);
  }

  // ---------------------------------------------------------------- what they spend and create

  lemma EmptyMoves(o: Output)
    ensures SpentBy(Empty(o)) == {} && CreatedBy(Empty(o)) == {CreatedCoin(o)} && WellPositioned(Empty(o).txs) && DistinctIds(Empty(o))
    ensures SlotsFit(Empty(o)) <==> o.slot <= I64_MAX
  {
    hide Decimal, Txid;
    var body := Empty(o);
    assert body.txs[0].outputs[0] == o;
    assert CreatedCoin(body.txs[0].outputs[0]) in CreatedBy(body);
  }

  lemma WithSpendMoves(o: Output, i: Input, p: Output)
    requires o.creationId != p.creationId && o.slot <= I64_MAX && p.slot <= I64_MAX
    ensures var body := WithSpend(o, i, p);
            && SpentBy(body) == {Decimal(i.creationId)} && CreatedBy(body) == {CreatedCoin(o), CreatedCoin(p)}
            && WellPositioned(body.txs) && DistinctIds(body) && SlotsFit(body)
  {
    hide Decimal, Txid, CreatedCoin;
    var body := WithSpend(o, i, p);
    assert body.txs[0].outputs[0] == o && body.txs[1].outputs[0] == p && body.txs[1].inputs[0] == i;
    assert CreatedCoin(body.txs[0].outputs[0]) in CreatedBy(body) && CreatedCoin(body.txs[1].outputs[0]) in CreatedBy(body);
    assert Decimal(body.txs[1].inputs[0].creationId) in SpentBy(body);
  }
}
