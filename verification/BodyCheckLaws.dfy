/**
  What a body that passes the check is (permanode/src/import.rs, `check_body`), in plain
  counts, sums and texts: every transaction, every total of the block and the root, and
  nothing besides.
 */
module BodyCheckLaws {
  import opened Wrappers
  import opened Tables
  import opened Bodies

  // ---------------------------------------------------------------- hex text

  /** The value of a hex digit, by its place among the digits. */
  function DigitAt(c: char): nat
    requires IsHex(c)
  {
    if '0' <= c <= '9' then c as int - '0' as int else if 'a' <= c <= 'f' then 10 + (c as int - 'a' as int) else 10 + (c as int - 'A' as int)
  }

  predicate IsHex(c: char) {
    '0' <= c <= '9' || 'a' <= c <= 'f' || 'A' <= c <= 'F'
  }

  predicate AllHex(s: string) {
    forall i | 0 <= i < |s| :: IsHex(s[i])
  }

  /** The bytes of a hex text, pair by pair. */
  function PairsOf(s: string): seq<nat>
    requires AllHex(s)
  {
    seq(|s| / 2, i requires 0 <= i < |s| / 2 => 16 * DigitAt(s[2 * i]) + DigitAt(s[2 * i + 1]))
  }

  lemma {:induction false} HexDecodeIs(s: string)
    ensures HexDecode(s).Some? <==> |s| % 2 == 0 && AllHex(s)
    ensures HexDecode(s).Some? ==> HexDecode(s).value == PairsOf(s)
    decreases |s|
  {
    if |s| >= 2 {
      var rest := s[2..];
      HexDecodeIs(rest);
      HexDigits(s[0]);
      HexDigits(s[1]);
      RestIsHex(s);
      hide IsHex, HexValue, DigitAt;
      if |s| % 2 == 0 && AllHex(s) { FirstPair(s); }
      hide PairsOf, AllHex;
    }
  }

  lemma FirstPair(s: string)
    requires |s| >= 2 && |s| % 2 == 0 && AllHex(s) && AllHex(s[2..])
    ensures PairsOf(s) == [16 * DigitAt(s[0]) + DigitAt(s[1])] + PairsOf(s[2..])
  {
    hide IsHex, DigitAt;
  }

  lemma HexDigits(c: char)
    ensures HexValue(c) == if IsHex(c) then Some(DigitAt(c)) else None
  {
  }

  lemma RestIsHex(s: string)
    requires |s| >= 2
    ensures AllHex(s) <==> IsHex(s[0]) && IsHex(s[1]) && AllHex(s[2..])
  {
    hide IsHex;
    if AllHex(s[2..]) && IsHex(s[0]) && IsHex(s[1]) {
      forall i | 0 <= i < |s| ensures IsHex(s[i]) { if i >= 2 { assert IsHex(s[2..][i - 2]); } }
    }
    if AllHex(s) {
      forall i | 0 <= i < |s[2..]| ensures IsHex(s[2..][i]) { assert IsHex(s[i + 2]); }
    }
  }

  /** A txid is 64 hex digits, and stands for their 32 bytes. */
  lemma TxidIs(txid: string)
    ensures TxidBytes(txid) == if |txid| == 64 && AllHex(txid) then Some(PairsOf(txid)) else None
  {
    HexDecodeIs(txid);
    hide HexDecode, AllHex;
  }

  // ---------------------------------------------------------------- one transaction

  /** In its place, with a txid, as many pages, inputs and outputs as it says, its sums as they are, and balanced if a user's. */
  ghost predicate Sound(tx: Tx, i: nat) {
    && tx.position == i && |tx.txid| == 64 && AllHex(tx.txid)
    && tx.pageCount == |tx.pageHashes| && tx.liveInputs == |tx.inputs| && tx.liveOutputs == |tx.outputs|
    && tx.inputSum == Decimal(AmountIn(tx.inputs) % 0x1_0000_0000_0000_0000)
    && tx.outputSum == Decimal(AmountOut(tx.outputs) % 0x1_0000_0000_0000_0000)
    && (!tx.coinbase && !tx.developmentPayout ==> (AmountIn(tx.inputs) - AmountOut(tx.outputs) - tx.fee) % 0x1_0000_0000_0000_0000 == 0)
  }

  lemma TxChecksMeans(tx: Tx, i: nat)
    ensures TxChecks(tx, i) <==> Sound(tx, i)
  {
    TxidIs(tx.txid);
    SumInputsWraps(tx.inputs);
    SumOutputsWraps(tx.outputs);
    BalanceMod(AmountIn(tx.inputs), AmountOut(tx.outputs), tx.fee);
    hide TxidBytes, AllHex, SumInputs, SumOutputs, AmountIn, AmountOut, Decimal;
  }

  lemma BalanceMod(a: nat, b: nat, fee: nat)
    ensures a % U64 == (b % U64 + fee) % U64 <==> (a - b - fee) % U64 == 0
  {
  }

  // ---------------------------------------------------------------- totals

  /** The fees of all transactions but coinbases. */
  ghost function FeesOf(txs: seq<Tx>): nat {
    if txs == [] then 0 else
      var last := txs[|txs| - 1];
      (if last.coinbase then 0 else last.fee) + FeesOf(txs[..|txs| - 1])
  }

  ghost function CountInputs(txs: seq<Tx>): nat {
    if txs == [] then 0 else |txs[|txs| - 1].inputs| + CountInputs(txs[..|txs| - 1])
  }

  ghost function CountOutputs(txs: seq<Tx>): nat {
    if txs == [] then 0 else |txs[|txs| - 1].outputs| + CountOutputs(txs[..|txs| - 1])
  }

  /** The pages of the users' transactions. */
  ghost function CountPages(txs: seq<Tx>): nat {
    if txs == [] then 0 else
      var last := txs[|txs| - 1];
      (if last.coinbase || last.developmentPayout then 0 else |last.pageHashes|) + CountPages(txs[..|txs| - 1])
  }

  lemma {:induction false} FeesWrap(txs: seq<Tx>)
    ensures SumFees(txs) == FeesOf(txs) % U64
  {
    if txs != [] { FeesWrap(txs[..|txs| - 1]); }
  }

  lemma {:induction false} InputsWrap(txs: seq<Tx>)
    requires forall i :: 0 <= i < |txs| ==> txs[i].liveInputs == |txs[i].inputs|
    ensures SumLiveInputs(txs) == CountInputs(txs) % U32
  {
    if txs != [] { InputsWrap(txs[..|txs| - 1]); }
  }

  lemma {:induction false} OutputsWrap(txs: seq<Tx>)
    requires forall i :: 0 <= i < |txs| ==> txs[i].liveOutputs == |txs[i].outputs|
    ensures SumLiveOutputs(txs) == CountOutputs(txs) % U32
  {
    if txs != [] { OutputsWrap(txs[..|txs| - 1]); }
  }

  lemma {:induction false} PagesWrap(txs: seq<Tx>)
    requires forall i :: 0 <= i < |txs| ==> txs[i].pageCount == |txs[i].pageHashes|
    ensures SumUserPages(txs) == CountPages(txs) % U32
  {
    if txs != [] { PagesWrap(txs[..|txs| - 1]); }
  }

  /** The bytes of the transactions' ids, in order. */
  ghost function IdsOf(txs: seq<Tx>): seq<seq<nat>>
    requires forall i :: 0 <= i < |txs| ==> AllHex(txs[i].txid)
  {
    seq(|txs|, i requires 0 <= i < |txs| => PairsOf(txs[i].txid))
  }

  lemma {:induction false} TxidsAre(txs: seq<Tx>)
    ensures Txids(txs).Some? <==> forall i :: 0 <= i < |txs| ==> |txs[i].txid| == 64 && AllHex(txs[i].txid)
    ensures Txids(txs).Some? ==> Txids(txs).value == IdsOf(txs)
  {
    hide AllHex, TxidBytes;
    if txs != [] {
      var front, last := txs[..|txs| - 1], txs[|txs| - 1];
      TxidsAre(front);
      TxidIs(last.txid);
      assert forall i :: 0 <= i < |front| ==> front[i] == txs[i];
      if Txids(txs).Some? { assert IdsOf(txs) == IdsOf(front) + [PairsOf(last.txid)]; }
    }
  }

  /** The block's totals are its transactions'. */
  ghost predicate TotalsAre(body: Body)
    requires |body.txs| > 0
  {
    && body.totalFees == Decimal(FeesOf(body.txs) % 0x1_0000_0000_0000_0000)
    && body.reward == AmountOut(body.txs[0].outputs) % 0x1_0000_0000_0000_0000
    && body.logicalTransactions == |body.txs|
    && body.liveInputs == CountInputs(body.txs) % 0x1_0000_0000 && body.liveOutputs == CountOutputs(body.txs) % 0x1_0000_0000
    && body.userPages == CountPages(body.txs) % 0x1_0000_0000
  }

  /**
    A body passes exactly when it lists 1 to 256 sound transactions in order, the first a
    coinbase, under the header's root, with the totals these transactions have.
   */
  lemma AcceptedExactlyWhen(body: Body, txRoot: string, root: seq<seq<nat>> -> string)
    ensures BodyChecks(body, txRoot, root) <==>
            && 1 <= |body.txs| <= 256 && body.txs[0].coinbase
            && (forall i :: 0 <= i < |body.txs| ==> Sound(body.txs[i], i))
            && root(IdsOf(body.txs)) == txRoot && TotalsAre(body)
  {
    hide TxChecks, Txids, Sound, TotalsCheck, TotalsAre;
    forall i | 0 <= i < |body.txs| ensures TxChecks(body.txs[i], i) <==> Sound(body.txs[i], i) { TxChecksMeans(body.txs[i], i); }
    TxidsAre(body.txs);
    forall i | 0 <= i < |body.txs| && Sound(body.txs[i], i) ensures |body.txs[i].txid| == 64 && AllHex(body.txs[i].txid) { SoundId(body.txs[i], i); }
    if |body.txs| > 0 && forall i :: 0 <= i < |body.txs| ==> Sound(body.txs[i], i) { TotalsMean(body); }
  }

  lemma SoundId(tx: Tx, i: nat)
    requires Sound(tx, i)
    ensures |tx.txid| == 64 && AllHex(tx.txid)
  {
  }

  lemma SoundCounts(tx: Tx, i: nat)
    requires Sound(tx, i)
    ensures tx.liveInputs == |tx.inputs| && tx.liveOutputs == |tx.outputs| && tx.pageCount == |tx.pageHashes|
  {
  }

  lemma TotalsMean(body: Body)
    requires |body.txs| > 0 && forall i :: 0 <= i < |body.txs| ==> Sound(body.txs[i], i)
    ensures TotalsCheck(body) <==> TotalsAre(body)
  {
    forall i | 0 <= i < |body.txs|
      ensures var tx := body.txs[i]; tx.liveInputs == |tx.inputs| && tx.liveOutputs == |tx.outputs| && tx.pageCount == |tx.pageHashes|
    {
      SoundCounts(body.txs[i], i);
    }
    hide Sound;
    FeesWrap(body.txs);
    InputsWrap(body.txs);
    OutputsWrap(body.txs);
    PagesWrap(body.txs);
    SumOutputsWraps(body.txs[0].outputs);
    hide SumFees, SumLiveInputs, SumLiveOutputs, SumUserPages, SumOutputs, Decimal, FeesOf, CountInputs, CountOutputs, CountPages, AmountOut;
  }

  // ---------------------------------------------------------------- where the fees come from

  /** What the users' transactions create. */
  ghost function UserCreates(txs: seq<Tx>): nat {
    if txs == [] then 0 else UserCreates(txs[..|txs| - 1]) + if IsUser(txs[|txs| - 1]) then AmountOut(txs[|txs| - 1].outputs) else 0
  }

  /** Fees development payouts carry. */
  ghost function PayoutFees(txs: seq<Tx>): nat {
    if txs == [] then 0 else
      var last := txs[|txs| - 1];
      PayoutFees(txs[..|txs| - 1]) + if !last.coinbase && last.developmentPayout then last.fee else 0
  }

  lemma {:induction false} OutIsCreatedAndPaid(txs: seq<Tx>)
    ensures UserOut(txs) + PayoutFees(txs) == UserCreates(txs) + FeesOf(txs)
  {
    hide AmountOut;
    if txs != [] { OutIsCreatedAndPaid(txs[..|txs| - 1]); }
  }

  /**
    Where the sums fit 64 bits, the fee total of an accepted body is the text of what its
    users spend beyond what they create, and what development payouts carry; its reward is
    what the coinbase creates.
   */
  lemma FeesAreWhatUsersPay(body: Body, txRoot: string, root: seq<seq<nat>> -> string)
    requires BodyChecks(body, txRoot, root) && FeesOf(body.txs) < 0x1_0000_0000_0000_0000
    requires forall i :: 0 <= i < |body.txs| && IsUser(body.txs[i]) ==>
               AmountIn(body.txs[i].inputs) < 0x1_0000_0000_0000_0000 && AmountOut(body.txs[i].outputs) + body.txs[i].fee < 0x1_0000_0000_0000_0000
    ensures UserIn(body.txs) + PayoutFees(body.txs) >= UserCreates(body.txs)
    ensures body.totalFees == Decimal(UserIn(body.txs) - UserCreates(body.txs) + PayoutFees(body.txs))
    ensures AmountOut(body.txs[0].outputs) < 0x1_0000_0000_0000_0000 ==> body.reward == AmountOut(body.txs[0].outputs)
  {
    hide BodyChecks, Sound, FeesOf, UserIn, UserOut, UserCreates, PayoutFees, AmountIn, AmountOut, Decimal, TotalsAre;
    AcceptedExactlyWhen(body, txRoot, root);
    AcceptedBodyBalances(body, txRoot, root);
    OutIsCreatedAndPaid(body.txs);
    TotalsSmall(body);
  }

  lemma TotalsSmall(body: Body)
    requires |body.txs| > 0 && TotalsAre(body)
    ensures FeesOf(body.txs) < 0x1_0000_0000_0000_0000 ==> body.totalFees == Decimal(FeesOf(body.txs))
    ensures AmountOut(body.txs[0].outputs) < 0x1_0000_0000_0000_0000 ==> body.reward == AmountOut(body.txs[0].outputs)
  {
    hide FeesOf, AmountOut, Decimal, CountInputs, CountOutputs, CountPages;
  }
}
