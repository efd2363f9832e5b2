/**
 * The cached view of the utxo set (blockchain/utxoviewpoint.go): entries are loaded from the database as
 * needed, changed in memory and written back when a block is connected or disconnected.
 */
module UtxoViews {
  import opened Primitives
  import opened Utxo
  import opened UtxoCache

  class UtxoViewpoint {
    var entries: Entries

    constructor ()
      ensures entries == map[]
    {
      entries := map[];
    }

    /** AddTxOuts, with addTxOut for each output. */
    method AddTxOuts(tx: Tx, height: int, ghost db: Utxos)
      requires Faithful(entries, db)
      modifies this
      ensures Faithful(entries, db) && Abs(entries, db) == Abs(old(entries), db) + Created(tx, height)
      ensures entries.Keys == old(entries).Keys + Outputs(tx)
    {
      for i := 0 to |tx.outs|
        invariant entries == WithOutputs(old(entries), tx, height, i)
      {
        if !tx.outs[i].unspendable {
          entries := entries[OutPoint(tx.hash, i) := Some(Entry(TxoOf(tx, i, height), false, true))];
        }
      }
      AllOutputsAdded(old(entries), entries, db, tx, height);
    }

    /** The loop of connectTransaction over the inputs. */
    method SpendInputs(ins: seq<OutPoint>, ghost db: Utxos) returns (ok: bool, stxos: seq<Txo>)
      requires Faithful(entries, db)
      modifies this
      ensures ok <==> AllLoaded(old(entries), ins)
      ensures ok ==> Faithful(entries, db) && entries.Keys == old(entries).Keys
      ensures ok ==> Abs(entries, db) == Abs(old(entries), db) - SetOf(ins)
      ensures ok && (forall o :: o in ins ==> o in Abs(old(entries), db)) ==>
        stxos == SpentRecords(Abs(old(entries), db), ins)
    {
      stxos := [];
      ghost var e := entries;
      SpendStart(e, db);
      SliceAll(ins);
      for i := 0 to |ins|
        invariant SpentTo(e, entries, db, ins[..i]) && AllLoaded(e, ins[..i])
        invariant |stxos| == i && forall j :: 0 <= j < i ==> stxos[j] == e[ins[j]].value.txo
      {
        var o := ins[i];
        SliceStep(ins, i);
        assert o in e ==> SameOutput(e, entries, o);
        if o !in entries || entries[o].None? {
          return false, stxos;
        }
        SpendStep(e, entries, db, ins[..i], o);
        stxos := stxos + [entries[o].value.txo];
        entries := entries[o := Some(Spend(entries[o].value))];
      }
      ok := true;
      if forall o :: o in ins ==> o in Abs(e, db) {
        RecordsMatch(e, db, ins, stxos);
      }
    }

    method ConnectTransaction(tx: Tx, height: int, ghost db: Utxos) returns (ok: bool, stxos: seq<Txo>)
      requires Faithful(entries, db)
      modifies this
      ensures ok <==> tx.coinbase || AllLoaded(old(entries), tx.ins)
      ensures ok ==> Faithful(entries, db) && entries.Keys == old(entries).Keys + Outputs(tx)
      ensures ok ==> Abs(entries, db) == ConnectTx(Abs(old(entries), db), tx, height)
      ensures ok && (tx.coinbase || forall o :: o in tx.ins ==> o in Abs(old(entries), db)) ==>
        stxos == TxStxos(Abs(old(entries), db), tx)
    {
      if tx.coinbase {
        AddTxOuts(tx, height, db);
        assert Abs(old(entries), db) - {} == Abs(old(entries), db);
        return true, [];
      }
      ok, stxos := SpendInputs(tx.ins, db);
      if !ok {
        return;
      }
      AddTxOuts(tx, height, db);
    }

    /** One input in fetchInputUtxos; `i` is one less than the position of its transaction. */
    method FetchInput(o: OutPoint, i: nat, txs: seq<Tx>, height: int, needed: set<OutPoint>, ghost db: Utxos,
                      ghost e: Entries)
      returns (needs: set<OutPoint>)
      requires Fetching(e, entries, db, txs, needed)
      modifies this
      ensures Fetching(e, entries, db, txs, needs) && needed <= needs && old(entries).Keys <= entries.Keys
      ensures Found(entries, txs, needs, o)
    {
      needs := needed;
      var origin := IndexOf(txs, o.txHash);
      if origin >= 0 && i >= origin {
        AgreeAdd(Abs(entries, db), Abs(e, db), txs, origin, height);
        ghost var now := entries;
        AddTxOuts(txs[origin], height, db);
        StillNeeded(e, now, entries, db, txs, needed, origin);
        return;
      }
      if o in entries {
        return;
      }
      needs := needed + {o};
    }

    method FetchInputUtxos(db: Utxos, txs: seq<Tx>, height: int)
      requires Faithful(entries, db) && |txs| > 0
      modifies this
      ensures Ready(old(entries), entries, db, txs)
    {
      var needed: set<OutPoint> := {};
      ghost var e := entries;
      for k := 1 to |txs|
        invariant Fetching(e, entries, db, txs, needed) && TxsFound(entries, txs, needed, k)
      {
        ghost var now, was := entries, needed;
        needed := FetchInputs(txs[k].ins, k - 1, txs, height, needed, db, e);
        FoundGrows(now, entries, txs, was, needed, k);
      }
      FetchNeeded(db, txs, needed, e);
    }

    /** The inputs of one transaction. */
    method FetchInputs(ins: seq<OutPoint>, i: nat, txs: seq<Tx>, height: int, needed: set<OutPoint>, ghost db: Utxos,
                       ghost e: Entries)
      returns (needs: set<OutPoint>)
      requires Fetching(e, entries, db, txs, needed)
      modifies this
      ensures Fetching(e, entries, db, txs, needs) && needed <= needs && old(entries).Keys <= entries.Keys
      ensures AllFound(entries, txs, needs, ins)
    {
      needs := needed;
      for n := 0 to |ins|
        invariant Fetching(e, entries, db, txs, needs) && needed <= needs && old(entries).Keys <= entries.Keys
        invariant forall m :: 0 <= m < n ==> Found(entries, txs, needs, ins[m])
      {
        needs := FetchInput(ins[n], i, txs, height, needs, db, e);
      }
    }

    /** fetchUtxosMain for the needed outputs. */
    method FetchNeeded(db: Utxos, txs: seq<Tx>, needed: set<OutPoint>, ghost e: Entries)
      requires Loading(e, entries, db, txs, needed)
      modifies this
      ensures Ready(e, entries, db, txs)
    {
      var todo := needed;
      while todo != {}
        invariant Loading(e, entries, db, txs, todo)
        decreases todo
      {
        var o :| o in todo;
        LoadOne(e, entries, db, txs, todo, o);
        entries := entries[o := Fetched(db, o)];
        todo := todo - {o};
      }
    }

    /** connectTransactions, after the inputs have been fetched. */
    method ConnectTransactions(txs: seq<Tx>, height: int, ghost db: Utxos, ghost u: Utxos)
      returns (ok: bool, stxos: seq<Txo>)
      requires Faithful(entries, db)
      modifies this
      ensures ok ==> Faithful(entries, db)
      ensures Connecting(old(entries), db, u, txs, height, 0) && Connectable(u, txs, height) ==>
        ok && Abs(entries, db) == ConnectTxs(u, txs, height) && stxos == Stxos(u, txs, height)
    {
      ghost var ready := Connecting(entries, db, u, txs, height, 0) && Connectable(u, txs, height);
      stxos := [];
      for k := 0 to |txs|
        invariant Faithful(entries, db)
        invariant ready ==> Connecting(entries, db, u, txs, height, k) && stxos == Stxos(u, txs[..k], height)
      {
        if ready && k > 0 {
          InputsLoaded(entries, db, u, txs, height, k);
        }
        if ready {
          AheadConnects(entries, db, u, txs, height, k);
        }
        ghost var e := entries;
        var more;
        ok, more := ConnectTransaction(txs[k], height, db);
        if !ok {
          return;
        }
        if ready {
          ConnectedOne(e, entries, db, u, txs, height, k);
        }
        stxos := stxos + more;
      }
      SliceAll(txs);
      if ready {
        AheadEnd(Abs(entries, db), ConnectTxs(u, txs, height), u, txs);
      }
      ok := true;
    }

    /** The two loops of disconnectTransactions for one transaction. */
    method DisconnectTransaction(tx: Tx, height: int, stxos: seq<Txo>, ghost db: Utxos)
      requires Faithful(entries, db) && |stxos| == CountIns(tx)
      modifies this
      ensures Faithful(entries, db) && Abs(entries, db) == DisconnectTx(Abs(old(entries), db), tx, stxos)
    {
      for i := 0 to |tx.outs|
        invariant entries == WithoutOutputs(old(entries), tx, height, i)
      {
        if !tx.outs[i].unspendable {
          entries := entries[OutPoint(tx.hash, i) := Some(Spend(EntryFor(entries, tx, i, height)))];
        }
      }
      OutputsSpent(old(entries), db, tx, height, |tx.outs|);
      assert OutputsTo(tx, |tx.outs|) == Outputs(tx);
      if tx.coinbase {
        return;
      }
      RestoreInputs(tx.ins, stxos, db);
    }

    method RestoreInputs(ins: seq<OutPoint>, stxos: seq<Txo>, ghost db: Utxos)
      requires Faithful(entries, db) && |ins| == |stxos|
      modifies this
      ensures Faithful(entries, db) && Abs(entries, db) == Restore(Abs(old(entries), db), ins, stxos)
    {
      SliceAll(ins);
      SliceAll(stxos);
      for i := |ins| downto 0
        invariant Faithful(entries, db)
        invariant Restore(Abs(entries, db), ins[..i], stxos[..i]) == Restore(Abs(old(entries), db), ins, stxos)
      {
        SliceStep(ins, i);
        SliceStep(stxos, i);
        RestoreOne(entries, db, ins[i], stxos[i]);
        assert ins[..i + 1][..i] == ins[..i] && stxos[..i + 1][..i] == stxos[..i];
        entries := entries[ins[i] := Some(Entry(stxos[i], false, true))];
      }
    }

    /** disconnectTransactions. */
    method DisconnectTransactions(txs: seq<Tx>, height: int, stxos: seq<Txo>, ghost db: Utxos)
      requires Faithful(entries, db) && |stxos| == CountSpent(txs)
      modifies this
      ensures Faithful(entries, db) && Abs(entries, db) == DisconnectTxs(Abs(old(entries), db), txs, stxos)
    {
      var n := |stxos|;
      SliceAll(txs);
      SliceAll(stxos);
      for k := |txs| downto 0
        invariant Faithful(entries, db) && n == CountSpent(txs[..k]) <= |stxos|
        invariant DisconnectTxs(Abs(entries, db), txs[..k], stxos[..n])
          == DisconnectTxs(Abs(old(entries), db), txs, stxos)
      {
        var tx := txs[k];
        CountStep(txs, k);
        var m := n - CountIns(tx);
        assert stxos[..n][m..] == stxos[m..n] && stxos[..n][..m] == stxos[..m];
        DisconnectTransaction(tx, height, stxos[m..n], db);
        n := m;
      }
    }

    method Commit()
      modifies this
      ensures entries == Committed(old(entries))
    {
      ghost var e := entries;
      var todo := entries.Keys;
      CommitEnds(e);
      while todo != {}
        invariant entries == CommittedBut(e, todo) && todo <= e.Keys
        decreases todo
      {
        var o :| o in todo;
        CommitOne(e, entries, todo, o);
        var entry := entries[o];
        if entry.None? || (entry.value.modified && entry.value.spent) {
          entries := entries - {o};
        } else {
          entries := entries[o := Some(entry.value.(modified := !entry.value.modified))];
        }
        todo := todo - {o};
      }
    }

    /** Fetch the inputs of a block and connect it to the view, which may be ahead of the database or behind it. */
    method ConnectInView(db: Utxos, txs: seq<Tx>, height: int) returns (ok: bool, stxos: seq<Txo>)
      requires Faithful(entries, db) && |txs| > 0
      modifies this
      ensures ok ==> Faithful(entries, db)
      ensures Connectable(Abs(old(entries), db), txs, height) ==>
        && ok && Abs(entries, db) == ConnectTxs(Abs(old(entries), db), txs, height)
        && stxos == Stxos(Abs(old(entries), db), txs, height)
    {
      FetchInputUtxos(db, txs, height);
      if Connectable(Abs(old(entries), db), txs, height) {
        ConnectReady(old(entries), entries, db, txs, height);
      }
      ok, stxos := ConnectTransactions(txs, height, db, Abs(old(entries), db));
    }

    /** Fetch the inputs of a block and disconnect it from the view. */
    method DisconnectInView(db: Utxos, txs: seq<Tx>, height: int, stxos: seq<Txo>)
      requires Faithful(entries, db) && |txs| > 0 && |stxos| == CountSpent(txs)
      modifies this
      ensures Faithful(entries, db) && Abs(entries, db) == DisconnectTxs(Abs(old(entries), db), txs, stxos)
    {
      FetchInputUtxos(db, txs, height);
      DisconnectIgnores(Abs(entries, db), Abs(old(entries), db), txs, stxos);
      DisconnectTransactions(txs, height, stxos, db);
    }
  }
}
