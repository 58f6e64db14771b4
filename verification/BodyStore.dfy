/**
  The body store as it runs: nested lists flattened into keyed rows
  (`insert_transactions` in permanode/src/indexer.rs) and rebuilt from them
  (`body_from_db` in permanode/src/import.rs).
 */
module BodyStore {
  import opened Wrappers
  import opened Tables
  import Db = Tables
  import opened Bodies

  lemma InsertAbsent<K, V>(m: map<K, V>, k: K, x: V)
    ensures map[k := x] + m == if k in m then m else m[k := x]
  {
  }

  lemma PrependAssociates<K, V>(a: map<K, V>, b: map<K, V>, c: map<K, V>)
    ensures a + b + c == a + (b + c)
  {
  }

  class BodyRows {
    var t: Tables

    constructor (tables: Tables)
      ensures t == tables
    {
      t := tables;
    }

    method InsertPages(k: TxKey, hashes: seq<string>)
      modifies this
      ensures t == old(t).(pages := PageRows(k, hashes) + old(t).pages)
    {
      hide PageRows;
      ghost var before := t;
      NoPagesYet(k, hashes, t.pages);
      for i := 0 to |hashes|
        invariant t == before.(pages := PageRows(k, hashes[..i]) + before.pages)
      {
        var row := hashes[i];
        PageRowsGrow(k, hashes, i, before.pages);
        InsertAbsent(t.pages, RowKey(k, i), row);
        if RowKey(k, i) !in t.pages {
          t := t.(pages := t.pages[RowKey(k, i) := row]);
        }
      }
      assert hashes[..|hashes|] == hashes;
    }

    method InsertInputs(k: TxKey, inputs: seq<Input>)
      modifies this
      ensures t == old(t).(inputs := InputRows(k, inputs) + old(t).inputs)
    {
      hide InputRows, InputRowOf;
      ghost var before := t;
      NoInputsYet(k, inputs, t.inputs);
      for i := 0 to |inputs|
        invariant t == before.(inputs := InputRows(k, inputs[..i]) + before.inputs)
      {
        var row := InputRowOf(inputs[i]);
        InputRowsGrow(k, inputs, i, before.inputs);
        InsertAbsent(t.inputs, RowKey(k, i), row);
        if RowKey(k, i) !in t.inputs {
          t := t.(inputs := t.inputs[RowKey(k, i) := row]);
        }
      }
      assert inputs[..|inputs|] == inputs;
    }

    method InsertOutputs(k: TxKey, outputs: seq<Output>)
      modifies this
      ensures t == old(t).(outputs := OutputRows(k, outputs) + old(t).outputs)
    {
      hide OutputRows, OutputRowOf;
      ghost var before := t;
      NoOutputsYet(k, outputs, t.outputs);
      for i := 0 to |outputs|
        invariant t == before.(outputs := OutputRows(k, outputs[..i]) + before.outputs)
      {
        var row := OutputRowOf(outputs[i]);
        OutputRowsGrow(k, outputs, i, before.outputs);
        InsertAbsent(t.outputs, RowKey(k, i), row);
        if RowKey(k, i) !in t.outputs {
          t := t.(outputs := t.outputs[RowKey(k, i) := row]);
        }
      }
      assert outputs[..|outputs|] == outputs;
    }

    /** Writes a body's rows under its block; rows already there stay. */
    method InsertTransactions(b: BlockKey, body: Body)
      requires b in t.blocks
      modifies this
      ensures t == Db.InsertTransactions(old(t), b, body)
    {
      hide TxRowOf, PageRows, InputRows, OutputRows, KeptProofClass;
      var row := t.blocks[b];
      t := t.(blocks := t.blocks[b := row.(proofClass := Some(KeptProofClass(row.proofClass, body.proofClass)),
                                           reward := Some(AsI64(body.reward)), totalFees := Some(body.totalFees))]);
      ghost var before := t;
      NothingInserted(before, b, body.txs);
      for i := 0 to |body.txs|
        invariant t == Prefixed(before, b, body.txs[..i])
      {
        var tx := body.txs[i];
        var k := TxKey(b, tx.position);
        OneMoreTx(before, b, body.txs, i);
        InsertAbsent(t.txs, k, TxRowOf(tx));
        if k !in t.txs {
          t := t.(txs := t.txs[k := TxRowOf(tx)]);
        }
        InsertPages(k, tx.pageHashes);
        InsertInputs(k, tx.inputs);
        InsertOutputs(k, tx.outputs);
      }
      assert body.txs[..|body.txs|] == body.txs;
    }

    // -------------------------------------------------------------- reading back

    method ReadInputs(k: TxKey) returns (r: Option<seq<Input>>)
      ensures r == LoadInputs(t, k, Sorted(InputIds(t, k)))
    {
      hide LoadInput, Sorted;
      var ids := Ordered(set x | x in t.inputs && x.tx == k :: x.idx);
      var inputs: seq<Input> := [];
      for i := 0 to |ids|
        invariant LoadInputs(t, k, ids[..i]) == Some(inputs)
      {
        assert ids[..i + 1][..i] == ids[..i];
        var one := LoadInput(t.inputs[RowKey(k, ids[i])]);
        if one.None? {
          InputFailureStays(t, k, ids, i + 1);
          return None;
        }
        inputs := inputs + [one.value];
      }
      assert ids[..|ids|] == ids;
      r := Some(inputs);
    }

    method ReadOutputs(k: TxKey) returns (r: Option<seq<Output>>)
      ensures r == LoadOutputs(t, k, Sorted(OutputIds(t, k)))
    {
      hide LoadOutput, Sorted;
      var ids := Ordered(set x | x in t.outputs && x.tx == k :: x.idx);
      var outputs: seq<Output> := [];
      for i := 0 to |ids|
        invariant LoadOutputs(t, k, ids[..i]) == Some(outputs)
      {
        assert ids[..i + 1][..i] == ids[..i];
        var one := LoadOutput(t.outputs[RowKey(k, ids[i])]);
        if one.None? {
          OutputFailureStays(t, k, ids, i + 1);
          return None;
        }
        outputs := outputs + [one.value];
      }
      assert ids[..|ids|] == ids;
      r := Some(outputs);
    }

    method ReadPages(k: TxKey) returns (r: seq<string>)
      ensures r == LoadPages(t, k, Sorted(PageIds(t, k)))
    {
      hide Sorted;
      var ids := Ordered(set x | x in t.pages && x.tx == k :: x.idx);
      r := [];
      for i := 0 to |ids|
        invariant |r| == i && forall j :: 0 <= j < i ==> r[j] == t.pages[RowKey(k, ids[j])]
      {
        r := r + [t.pages[RowKey(k, ids[i])]];
      }
    }

    method ReadTx(k: TxKey) returns (r: Option<Tx>)
      requires k in t.txs
      ensures r == LoadTx(t, k)
    {
      hide LoadInputs, LoadOutputs, LoadPages, Sorted;
      var row := t.txs[k];
      var pages := ReadPages(k);
      var inputs := ReadInputs(k);
      if inputs.None? { return None; }
      var outputs := ReadOutputs(k);
      if outputs.None? { return None; }
      r := Some(Tx(AsU32(k.position), row.txid, AsU32(row.pageCount), AsU32(|inputs.value|), AsU32(|outputs.value|), AsU64(row.fee), row.coinbase,
                   row.developmentPayout, row.epochAnchor, row.inputOwner, row.inputSum, row.outputSum, pages, inputs.value, outputs.value));
    }

    /** The body of a captured block as the rows hold it. */
    method BodyFromDb(b: BlockKey) returns (r: Loaded)
      ensures r == LoadBody(t, b)
    {
      hide LoadTx, Sorted, SumUserPages, SumLiveInputs, SumLiveOutputs;
      if b !in t.blocks || !t.blocks[b].captured { return Absent; }
      var row := t.blocks[b];
      if row.proofClass.None? || row.reward.None? || row.totalFees.None? { return Unreadable; }
      var positions := Ordered(set k | k in t.txs && k.block == b :: k.position);
      var txs: seq<Tx> := [];
      for i := 0 to |positions|
        invariant LoadTxs(t, b, positions[..i]) == Some(txs)
      {
        assert positions[..i + 1][..i] == positions[..i];
        var one := ReadTx(TxKey(b, positions[i]));
        if one.None? {
          TxFailureStays(t, b, positions, i + 1);
          return Unreadable;
        }
        txs := txs + [one.value];
      }
      assert positions[..|positions|] == positions;
      r := Loaded.Loaded(Body(row.proofClass.value, AsU32(|txs|), SumUserPages(txs), SumLiveInputs(txs), SumLiveOutputs(txs),
                              AsU64(row.reward.value), row.totalFees.value, 0, txs));
    }
  }

  // ---------------------------------------------------------------- supporting lemmas

  lemma NoOutputsYet(k: TxKey, outputs: seq<Output>, m: map<RowKey, OutputRow>)
    ensures OutputRows(k, outputs[..0]) + m == m
  {
  }

  lemma OutputRowsGrow(k: TxKey, outputs: seq<Output>, i: nat, m: map<RowKey, OutputRow>)
    requires i < |outputs|
    ensures OutputRows(k, outputs[..i + 1]) + m == map[RowKey(k, i) := OutputRowOf(outputs[i])] + (OutputRows(k, outputs[..i]) + m)
  {
  }

  lemma NoInputsYet(k: TxKey, inputs: seq<Input>, m: map<RowKey, InputRow>)
    ensures InputRows(k, inputs[..0]) + m == m
  {
  }

  lemma InputRowsGrow(k: TxKey, inputs: seq<Input>, i: nat, m: map<RowKey, InputRow>)
    requires i < |inputs|
    ensures InputRows(k, inputs[..i + 1]) + m == map[RowKey(k, i) := InputRowOf(inputs[i])] + (InputRows(k, inputs[..i]) + m)
  {
  }

  lemma NoPagesYet(k: TxKey, hashes: seq<string>, m: map<RowKey, string>)
    ensures PageRows(k, hashes[..0]) + m == m
  {
  }

  lemma PageRowsGrow(k: TxKey, hashes: seq<string>, i: nat, m: map<RowKey, string>)
    requires i < |hashes|
    ensures PageRows(k, hashes[..i + 1]) + m == map[RowKey(k, i) := hashes[i]] + (PageRows(k, hashes[..i]) + m)
  {
  }

  /** The tables with the rows of these transactions inserted. */
  ghost function Prefixed(t: Tables, b: BlockKey, txs: seq<Tx>): Tables {
    t.(txs := TxsOf(b, txs) + t.txs, pages := PagesOf(b, txs) + t.pages,
       inputs := InputsOf(b, txs) + t.inputs, outputs := OutputsOf(b, txs) + t.outputs)
  }

  lemma NothingInserted(t: Tables, b: BlockKey, txs: seq<Tx>)
    ensures Prefixed(t, b, txs[..0]) == t
  {
    var u := Prefixed(t, b, txs[..0]);
    assert u.txs == t.txs && u.pages == t.pages && u.inputs == t.inputs && u.outputs == t.outputs;
  }

  lemma OneMoreTx(t: Tables, b: BlockKey, txs: seq<Tx>, i: nat)
    requires i < |txs|
    ensures var u, w := Prefixed(t, b, txs[..i]), Prefixed(t, b, txs[..i + 1]);
            var k := TxKey(b, txs[i].position);
            w == u.(txs := map[k := TxRowOf(txs[i])] + u.txs, pages := PageRows(k, txs[i].pageHashes) + u.pages,
                    inputs := InputRows(k, txs[i].inputs) + u.inputs, outputs := OutputRows(k, txs[i].outputs) + u.outputs)
  {
    hide TxRowOf, PageRows, InputRows, OutputRows;
    assert txs[..i + 1][..i] == txs[..i];
    var k := TxKey(b, txs[i].position);
    PrependAssociates(map[k := TxRowOf(txs[i])], TxsOf(b, txs[..i]), t.txs);
    PrependAssociates(PageRows(k, txs[i].pageHashes), PagesOf(b, txs[..i]), t.pages);
    PrependAssociates(InputRows(k, txs[i].inputs), InputsOf(b, txs[..i]), t.inputs);
    PrependAssociates(OutputRows(k, txs[i].outputs), OutputsOf(b, txs[..i]), t.outputs);
  }

  lemma {:induction false} InputFailureStays(t: Tables, k: TxKey, ids: seq<nat>, i: nat)
    requires i <= |ids| && forall j :: 0 <= j < |ids| ==> RowKey(k, ids[j]) in t.inputs
    requires LoadInputs(t, k, ids[..i]) == None
    ensures LoadInputs(t, k, ids) == None
    decreases |ids| - i
  {
    hide LoadInput;
    if i < |ids| {
      assert ids[..i + 1][..i] == ids[..i];
      InputFailureStays(t, k, ids, i + 1);
    } else {
      assert ids[..i] == ids;
    }
  }

  lemma {:induction false} OutputFailureStays(t: Tables, k: TxKey, ids: seq<nat>, i: nat)
    requires i <= |ids| && forall j :: 0 <= j < |ids| ==> RowKey(k, ids[j]) in t.outputs
    requires LoadOutputs(t, k, ids[..i]) == None
    ensures LoadOutputs(t, k, ids) == None
    decreases |ids| - i
  {
    hide LoadOutput;
    if i < |ids| {
      assert ids[..i + 1][..i] == ids[..i];
      OutputFailureStays(t, k, ids, i + 1);
    } else {
      assert ids[..i] == ids;
    }
  }

  lemma {:induction false} TxFailureStays(t: Tables, b: BlockKey, positions: seq<nat>, i: nat)
    requires i <= |positions| && forall j :: 0 <= j < |positions| ==> TxKey(b, positions[j]) in t.txs
    requires LoadTxs(t, b, positions[..i]) == None
    ensures LoadTxs(t, b, positions) == None
    decreases |positions| - i
  {
    hide LoadTx;
    if i < |positions| {
      assert positions[..i + 1][..i] == positions[..i];
      TxFailureStays(t, b, positions, i + 1);
    } else {
      assert positions[..i] == positions;
    }
  }
}
