/**
 * The cached entries of a view of the utxo set and the set they stand for (blockchain/utxoviewpoint.go,
 * blockchain/chainio.go).
 */
module UtxoCache {
  import opened Primitives
  import opened Utxo

  /** A cached output with its spent and modified flags. */
  datatype Entry = Entry(txo: Txo, spent: bool, modified: bool)

  /** A missing value is the nil entry of an output that the database does not have. */
  type Entries = map<OutPoint, Option<Entry>>

  /** What the view says about an output: its own entry, or what the database says. */
  function At(e: Entries, db: Utxos, o: OutPoint): Option<Txo> {
    if o in e && e[o].Some? then if e[o].value.spent then None else Some(e[o].value.txo)
    else if o in db then Some(db[o]) else None
  }

  /** The utxo set the view stands for. */
  function Abs(e: Entries, db: Utxos): Utxos {
    map o | o in e.Keys + db.Keys && At(e, db, o).Some? :: At(e, db, o).value
  }

  lemma AbsAt(e: Entries, db: Utxos, o: OutPoint)
    ensures o in Abs(e, db) <==> At(e, db, o).Some?
    ensures o in Abs(e, db) ==> Abs(e, db)[o] == At(e, db, o).value
  {
  }

  lemma SameUtxos(a: Utxos, b: Utxos)
    requires forall o :: o in a <==> o in b
    requires forall o :: o in a ==> a[o] == b[o]
    ensures a == b
  {
  }

  /** Entries that were not modified are as the database has them, and a nil entry is not in the database. */
  ghost predicate Faithful(e: Entries, db: Utxos) {
    forall o {:trigger EntryOk(e, db, o)} :: o in e ==> EntryOk(e, db, o)
  }

  predicate EntryOk(e: Entries, db: Utxos, o: OutPoint) {
    o in e &&
    if e[o].None? then o !in db
    else e[o].value.modified || (!e[o].value.spent && o in db && db[o] == e[o].value.txo)
  }

  lemma FaithfulPut(e: Entries, db: Utxos, o: OutPoint, x: Option<Entry>)
    requires Faithful(e, db) && EntryOk(e[o := x], db, o)
    ensures Faithful(e[o := x], db)
  {
    var d := e[o := x];
    forall q | q in d ensures EntryOk(d, db, q) {
      if q != o { assert EntryOk(e, db, q); }
    }
  }

  lemma AbsPut(e: Entries, db: Utxos, o: OutPoint, t: Txo)
    ensures Abs(e[o := Some(Entry(t, false, true))], db) == Abs(e, db)[o := t]
  {
    var d := e[o := Some(Entry(t, false, true))];
    forall q ensures q in Abs(d, db) <==> q in Abs(e, db)[o := t]
      ensures q in Abs(d, db) ==> Abs(d, db)[q] == Abs(e, db)[o := t][q]
    {
      AbsAt(d, db, q);
      AbsAt(e, db, q);
    }
    SameUtxos(Abs(d, db), Abs(e, db)[o := t]);
  }

  lemma AbsSpend(e: Entries, db: Utxos, o: OutPoint, x: Entry)
    requires x.spent
    ensures Abs(e[o := Some(x)], db) == Abs(e, db) - {o}
  {
    var d := e[o := Some(x)];
    forall q ensures q in Abs(d, db) <==> q in Abs(e, db) - {o}
      ensures q in Abs(d, db) ==> Abs(d, db)[q] == (Abs(e, db) - {o})[q]
    {
      AbsAt(d, db, q);
      AbsAt(e, db, q);
    }
    SameUtxos(Abs(d, db), Abs(e, db) - {o});
  }

  function Fetched(db: Utxos, o: OutPoint): Option<Entry> {
    if o in db then Some(Entry(db[o], false, false)) else None
  }

  lemma AbsLoad(e: Entries, db: Utxos, o: OutPoint)
    requires o !in e
    ensures Abs(e[o := Fetched(db, o)], db) == Abs(e, db)
  {
    var d := e[o := Fetched(db, o)];
    forall q ensures q in Abs(d, db) <==> q in Abs(e, db)
      ensures q in Abs(d, db) ==> Abs(d, db)[q] == Abs(e, db)[q]
    {
      AbsAt(d, db, q);
      AbsAt(e, db, q);
    }
    SameUtxos(Abs(d, db), Abs(e, db));
  }

  /** An entry that is there for an unspent output is not nil. */
  lemma LoadedEntry(e: Entries, db: Utxos, o: OutPoint)
    requires Faithful(e, db) && o in e && o in Abs(e, db)
    ensures e[o].Some? && !e[o].value.spent && e[o].value.txo == Abs(e, db)[o]
  {
    AbsAt(e, db, o);
    assert EntryOk(e, db, o);
  }

  // --- Adding outputs

  function TxoOf(tx: Tx, i: nat, height: int): Txo
    requires i < |tx.outs|
  {
    Txo(tx.outs[i].value, tx.outs[i].pkScript, height, tx.coinbase)
  }

  /** The outputs of a transaction up to the i-th. */
  function CreatedTo(tx: Tx, height: int, i: nat): Utxos
    requires i <= |tx.outs|
  {
    map o | o in Outputs(tx) && o.index < i :: TxoOf(tx, o.index, height)
  }

  lemma CreatedStep(u: Utxos, tx: Tx, height: int, i: nat)
    requires i < |tx.outs|
    ensures u + CreatedTo(tx, height, i + 1) ==
      if tx.outs[i].unspendable then u + CreatedTo(tx, height, i)
        else (u + CreatedTo(tx, height, i))[OutPoint(tx.hash, i) := TxoOf(tx, i, height)]
  {
    assert forall o :: o in Outputs(tx) ==> o == OutPoint(tx.hash, o.index) && o.index < |tx.outs|;
    if !tx.outs[i].unspendable {
      assert OutPoint(tx.hash, i) in Outputs(tx);
      assert CreatedTo(tx, height, i + 1) == CreatedTo(tx, height, i)[OutPoint(tx.hash, i) := TxoOf(tx, i, height)];
    } else {
      assert CreatedTo(tx, height, i + 1) == CreatedTo(tx, height, i);
    }
  }

  lemma CreatedAll(tx: Tx, height: int)
    ensures CreatedTo(tx, height, 0) == map[] && CreatedTo(tx, height, |tx.outs|) == Created(tx, height)
  {
  }

  function OutputsTo(tx: Tx, i: nat): set<OutPoint> {
    set o | o in Outputs(tx) && o.index < i
  }

  lemma OutputsStep(tx: Tx, i: nat)
    requires i < |tx.outs|
    ensures OutputsTo(tx, i + 1) == if tx.outs[i].unspendable then OutputsTo(tx, i)
      else OutputsTo(tx, i) + {OutPoint(tx.hash, i)}
  {
    assert forall o :: o in Outputs(tx) ==> o == OutPoint(tx.hash, o.index) && !tx.outs[o.index].unspendable;
    if !tx.outs[i].unspendable {
      assert OutPoint(tx.hash, i) in Outputs(tx);
    }
  }

  /** The entries after addTxOut for the first i outputs. */
  function WithOutputs(e: Entries, tx: Tx, height: int, i: nat): Entries
    requires i <= |tx.outs|
  {
    if i == 0 then e
    else
      var d := WithOutputs(e, tx, height, i - 1);
      if tx.outs[i - 1].unspendable then d
        else d[OutPoint(tx.hash, i - 1) := Some(Entry(TxoOf(tx, i - 1, height), false, true))]
  }

  lemma {:induction false} OutputsFaithful(e: Entries, db: Utxos, tx: Tx, height: int, i: nat)
    requires Faithful(e, db) && i <= |tx.outs|
    ensures Faithful(WithOutputs(e, tx, height, i), db)
  {
    if i > 0 {
      OutputsFaithful(e, db, tx, height, i - 1);
      FaithfulPut(WithOutputs(e, tx, height, i - 1), db, OutPoint(tx.hash, i - 1),
        Some(Entry(TxoOf(tx, i - 1, height), false, true)));
    }
  }

  lemma PlusNone(u: Utxos, tx: Tx, height: int)
    ensures u + CreatedTo(tx, height, 0) == u
  {
    CreatedAll(tx, height);
  }

  lemma {:induction false} OutputsAbs(e: Entries, db: Utxos, tx: Tx, height: int, i: nat)
    requires i <= |tx.outs|
    ensures Abs(WithOutputs(e, tx, height, i), db) == Abs(e, db) + CreatedTo(tx, height, i)
  {
    if i == 0 {
      PlusNone(Abs(e, db), tx, height);
    } else {
      OutputsAbs(e, db, tx, height, i - 1);
      CreatedStep(Abs(e, db), tx, height, i - 1);
      AbsPut(WithOutputs(e, tx, height, i - 1), db, OutPoint(tx.hash, i - 1), TxoOf(tx, i - 1, height));
    }
  }

  lemma {:induction false} OutputsKeys(e: Entries, tx: Tx, height: int, i: nat)
    requires i <= |tx.outs|
    ensures WithOutputs(e, tx, height, i).Keys == e.Keys + OutputsTo(tx, i)
  {
    if i == 0 {
      assert OutputsTo(tx, 0) == {};
    } else {
      OutputsKeys(e, tx, height, i - 1);
      OutputsStep(tx, i - 1);
    }
  }

  /** All outputs of a transaction have been added. */
  lemma AllOutputsAdded(e: Entries, now: Entries, db: Utxos, tx: Tx, height: int)
    requires Faithful(e, db) && now == WithOutputs(e, tx, height, |tx.outs|)
    ensures Faithful(now, db) && Abs(now, db) == Abs(e, db) + Created(tx, height) && now.Keys == e.Keys + Outputs(tx)
  {
    OutputsFaithful(e, db, tx, height, |tx.outs|);
    OutputsAbs(e, db, tx, height, |tx.outs|);
    OutputsKeys(e, tx, height, |tx.outs|);
    CreatedAll(tx, height);
    assert OutputsTo(tx, |tx.outs|) == Outputs(tx);
  }

  // --- Spending inputs

  function SetOf(ins: seq<OutPoint>): set<OutPoint> {
    set o | o in ins
  }

  function Spend(x: Entry): Entry {
    if x.spent then x else x.(spent := true, modified := true)
  }

  predicate AllLoaded(e: Entries, ins: seq<OutPoint>) {
    forall i :: 0 <= i < |ins| ==> ins[i] in e && e[ins[i]].Some?
  }

  /** The entries of the given inputs have been spent. */
  ghost predicate SpentTo(e: Entries, now: Entries, db: Utxos, ins: seq<OutPoint>) {
    && Faithful(now, db) && now.Keys == e.Keys && Abs(now, db) == Abs(e, db) - SetOf(ins)
    && forall o {:trigger SameOutput(e, now, o)} :: o in e ==> SameOutput(e, now, o)
  }

  predicate SameOutput(e: Entries, now: Entries, o: OutPoint) {
    o in e && o in now && (e[o].Some? <==> now[o].Some?) && (e[o].Some? ==> e[o].value.txo == now[o].value.txo)
  }

  lemma SpendStart(e: Entries, db: Utxos)
    requires Faithful(e, db)
    ensures SpentTo(e, e, db, [])
  {
    assert Abs(e, db) - SetOf([]) == Abs(e, db);
  }

  lemma MinusMore(u: Utxos, ins: seq<OutPoint>, o: OutPoint)
    ensures u - SetOf(ins) - {o} == u - SetOf(ins + [o])
  {
    assert SetOf(ins + [o]) == SetOf(ins) + {o};
  }

  lemma SpendStep(e: Entries, now: Entries, db: Utxos, ins: seq<OutPoint>, o: OutPoint)
    requires SpentTo(e, now, db, ins) && o in now && now[o].Some?
    ensures SpentTo(e, now[o := Some(Spend(now[o].value))], db, ins + [o])
  {
    var next := now[o := Some(Spend(now[o].value))];
    assert EntryOk(now, db, o);
    FaithfulPut(now, db, o, Some(Spend(now[o].value)));
    AbsSpend(now, db, o, Spend(now[o].value));
    MinusMore(Abs(e, db), ins, o);
    forall q | q in e ensures SameOutput(e, next, q) {
      assert SameOutput(e, now, q);
    }
  }

  lemma RecordsAre(u: Utxos, ins: seq<OutPoint>, stxos: seq<Txo>)
    requires |stxos| == |ins| && forall i :: 0 <= i < |ins| ==> ins[i] in u && stxos[i] == u[ins[i]]
    ensures stxos == SpentRecords(u, ins)
  {
  }

  /** The records taken from the entries are those of the utxo set. */
  lemma RecordsMatch(e: Entries, db: Utxos, ins: seq<OutPoint>, stxos: seq<Txo>)
    requires Faithful(e, db) && AllLoaded(e, ins) && |stxos| == |ins|
    requires forall i :: 0 <= i < |ins| ==> stxos[i] == e[ins[i]].value.txo
    requires forall o :: o in ins ==> o in Abs(e, db)
    ensures stxos == SpentRecords(Abs(e, db), ins)
  {
    forall i | 0 <= i < |ins| ensures ins[i] in Abs(e, db) && stxos[i] == Abs(e, db)[ins[i]] {
      LoadedEntry(e, db, ins[i]);
    }
    RecordsAre(Abs(e, db), ins, stxos);
  }

  // --- Loading the inputs of a block

  predicate InBlock(txs: seq<Tx>, o: OutPoint) {
    exists j :: 0 <= j < |txs| && o in Outputs(txs[j])
  }

  /** The two sets differ at most in outputs of the block. */
  ghost predicate AgreeOutside(a: Utxos, b: Utxos, txs: seq<Tx>) {
    forall o {:trigger InBlock(txs, o)} :: !InBlock(txs, o) ==> SameAt(a, b, o)
  }

  predicate SameAt(a: Utxos, b: Utxos, o: OutPoint) {
    (o in a <==> o in b) && (o in a ==> a[o] == b[o])
  }

  lemma AllSame(a: Utxos, b: Utxos)
    requires forall o {:trigger SameAt(a, b, o)} :: SameAt(a, b, o)
    ensures a == b
  {
    forall o ensures (o in a <==> o in b) && (o in a ==> a[o] == b[o]) {
      assert SameAt(a, b, o);
    }
  }

  lemma AgreeAdd(a: Utxos, b: Utxos, txs: seq<Tx>, j: nat, height: int)
    requires AgreeOutside(a, b, txs) && j < |txs|
    ensures AgreeOutside(a + Created(txs[j], height), b, txs)
  {
    forall o | !InBlock(txs, o) ensures SameAt(a + Created(txs[j], height), b, o) {
      assert o !in Outputs(txs[j]);
      assert SameAt(a, b, o);
    }
  }

  /** Loading an entry, even over one that was put there for an output of the block. */
  lemma AgreeLoad(e: Entries, db: Utxos, b: Utxos, txs: seq<Tx>, o: OutPoint)
    requires AgreeOutside(Abs(e, db), b, txs) && Faithful(e, db) && (o !in e || InBlock(txs, o))
    ensures AgreeOutside(Abs(e[o := Fetched(db, o)], db), b, txs) && Faithful(e[o := Fetched(db, o)], db)
  {
    FaithfulPut(e, db, o, Fetched(db, o));
    if o !in e {
      AbsLoad(e, db, o);
    } else {
      var d := e[o := Fetched(db, o)];
      forall q | !InBlock(txs, q) ensures SameAt(Abs(d, db), b, q) {
        assert SameAt(Abs(e, db), b, q);
        AbsAt(d, db, q);
        AbsAt(e, db, q);
      }
    }
  }

  function IndexOf(txs: seq<Tx>, h: Hash): (i: int)
    ensures -1 <= i < |txs| && (i >= 0 ==> txs[i].hash == h)
    ensures i == -1 ==> forall j :: 0 <= j < |txs| ==> txs[j].hash != h
  {
    if txs == [] then -1 else if txs[|txs| - 1].hash == h then |txs| - 1 else IndexOf(txs[..|txs| - 1], h)
  }

  /** The state of fetchInputUtxos while it goes through the inputs. */
  ghost predicate Fetching(e: Entries, now: Entries, db: Utxos, txs: seq<Tx>, needed: set<OutPoint>) {
    && Faithful(now, db) && e.Keys <= now.Keys && AgreeOutside(Abs(now, db), Abs(e, db), txs)
    && forall o {:trigger InBlock(txs, o)} :: o in needed && o in now ==> InBlock(txs, o)
  }

  /** An input can be found in the view, is about to be, or belongs to a transaction of the block. */
  predicate Found(now: Entries, txs: seq<Tx>, needed: set<OutPoint>, o: OutPoint) {
    o in now || o in needed || IndexOf(txs, o.txHash) >= 0
  }

  // --- Connecting a block to the view

  /** No unspent output belongs to a transaction with the hash of one in the block. */
  ghost predicate NoClash(u: Utxos, txs: seq<Tx>) {
    forall o {:trigger IndexOf(txs, o.txHash)} :: o in u ==> IndexOf(txs, o.txHash) == -1
  }

  /** The output is not an unspent one of a transaction with the hash of one in the block. */
  predicate ClearInput(u: Utxos, txs: seq<Tx>, o: OutPoint) {
    o in u ==> IndexOf(txs, o.txHash) == -1
  }

  /** The block may replace outputs of transactions with the same hashes, but it spends none of them. */
  ghost predicate ClearInputs(u: Utxos, txs: seq<Tx>) {
    forall j, o {:trigger o in txs[j].ins} ::
      0 <= j < |txs| && !txs[j].coinbase && o in txs[j].ins ==> ClearInput(u, txs, o)
  }

  predicate Later(txs: seq<Tx>, k: nat, o: OutPoint) {
    exists j :: k <= j < |txs| && o in Outputs(txs[j])
  }

  /** A later transaction of the block sets the output, and so far it is at most as u has it. */
  predicate Pending(v: Utxos, u: Utxos, txs: seq<Tx>, k: nat, o: OutPoint) {
    Later(txs, k, o) && (o in v ==> o in u)
  }

  /** a and v differ only in outputs of transactions that are still to come. */
  ghost predicate Ahead(a: Utxos, v: Utxos, u: Utxos, txs: seq<Tx>, k: nat) {
    forall o {:trigger SameAt(a, v, o)} :: SameAt(a, v, o) || Pending(v, u, txs, k, o)
  }

  lemma ClashFree(txs: seq<Tx>, o: OutPoint)
    requires IndexOf(txs, o.txHash) == -1
    ensures !InBlock(txs, o)
  {
    forall j | 0 <= j < |txs| ensures o !in Outputs(txs[j]) {
      assert txs[j].hash != o.txHash;
    }
  }

  lemma AheadStart(a: Utxos, u: Utxos, txs: seq<Tx>)
    requires AgreeOutside(a, u, txs)
    ensures Ahead(a, u, u, txs, 0)
  {
    forall o ensures SameAt(a, u, o) || Pending(u, u, txs, 0, o) {
      if InBlock(txs, o) {
        var j :| 0 <= j < |txs| && o in Outputs(txs[j]);
      }
    }
  }

  /** An input is the same in both. */
  lemma SameInput(a: Utxos, v: Utxos, u: Utxos, txs: seq<Tx>, k: nat, o: OutPoint)
    requires Ahead(a, v, u, txs, k) && ClearInputs(u, txs) && k < |txs| && !txs[k].coinbase && o in txs[k].ins && o in v
    ensures o in a && a[o] == v[o]
  {
    if !SameAt(a, v, o) {
      assert Pending(v, u, txs, k, o) && ClearInput(u, txs, o);
      ClashFree(txs, o);
    }
  }

  lemma AheadStep(a: Utxos, v: Utxos, u: Utxos, txs: seq<Tx>, k: nat, height: int)
    requires Ahead(a, v, u, txs, k) && ClearInputs(u, txs) && k < |txs|
    requires txs[k].coinbase || forall o :: o in txs[k].ins ==> o in v
    ensures Ahead(ConnectTx(a, txs[k], height), ConnectTx(v, txs[k], height), u, txs, k + 1)
    ensures TxStxos(a, txs[k]) == TxStxos(v, txs[k])
  {
    var b, w := ConnectTx(a, txs[k], height), ConnectTx(v, txs[k], height);
    forall o ensures SameAt(b, w, o) || Pending(w, u, txs, k + 1, o) {
      if !SameAt(b, w, o) {
        assert o !in Outputs(txs[k]) && !SameAt(a, v, o);
        var j :| k <= j < |txs| && o in Outputs(txs[j]);
        assert j != k;
      }
    }
    if !txs[k].coinbase {
      forall o | o in txs[k].ins ensures o in a && a[o] == v[o] {
        SameInput(a, v, u, txs, k, o);
      }
    }
  }

  lemma AheadEnd(a: Utxos, v: Utxos, u: Utxos, txs: seq<Tx>)
    requires Ahead(a, v, u, txs, |txs|)
    ensures a == v
  {
    AllSame(a, v);
  }

  /** Whatever a transaction of the block may spend has an entry in the view. */
  ghost predicate HasInputs(e: Entries, u: Utxos, txs: seq<Tx>, k: nat) {
    && (forall j, o {:trigger o in txs[j].ins} :: 1 <= j < |txs| && o in txs[j].ins && o in u ==> o in e)
    && (forall j, o {:trigger o in Outputs(txs[j])} :: 0 <= j < k && j < |txs| && o in Outputs(txs[j]) ==> o in e)
  }

  lemma InputsReady(e: Entries, now: Entries, db: Utxos, u: Utxos, txs: seq<Tx>)
    requires Ready(e, now, db, txs) && ClearInputs(u, txs) && FirstIsCoinbase(txs)
    ensures HasInputs(now, u, txs, 0)
  {
    forall j, o | 1 <= j < |txs| && o in txs[j].ins && o in u ensures o in now {
      assert AllFound(now, txs, {}, txs[j].ins);
      var i :| 0 <= i < |txs[j].ins| && txs[j].ins[i] == o;
      assert Found(now, txs, {}, txs[j].ins[i]);
      assert ClearInput(u, txs, o);
    }
  }

  /** What was created by now comes from u or from an earlier transaction of the block. */
  lemma {:induction false} Origins(u: Utxos, txs: seq<Tx>, height: int, k: nat, o: OutPoint)
    requires k <= |txs| && o in ConnectTxs(u, txs[..k], height)
    ensures o in u || exists j :: 0 <= j < k && o in Outputs(txs[j])
  {
    if k > 0 {
      assert txs[..k][..k - 1] == txs[..k - 1];
      if o !in Outputs(txs[k - 1]) {
        Origins(u, txs, height, k - 1, o);
      }
    }
  }

  /** The state of connectTransactions before the k-th transaction. */
  ghost predicate Connecting(e: Entries, db: Utxos, u: Utxos, txs: seq<Tx>, height: int, k: nat) {
    && k <= |txs| && Faithful(e, db) && HasInputs(e, u, txs, k) && ClearInputs(u, txs)
    && Ahead(Abs(e, db), ConnectTxs(u, txs[..k], height), u, txs, k)
  }

  lemma {:induction false} CanConnectAt(u: Utxos, txs: seq<Tx>, height: int, k: nat)
    requires CanConnectTxs(u, txs, height) && k < |txs|
    ensures CanConnectTx(ConnectTxs(u, txs[..k], height), txs[k])
    decreases |txs|
  {
    if k < |txs| - 1 {
      CanConnectAt(u, txs[..|txs| - 1], height, k);
      assert txs[..|txs| - 1][..k] == txs[..k];
    }
  }

  lemma InputLoaded(e: Entries, db: Utxos, u: Utxos, txs: seq<Tx>, height: int, k: nat, o: OutPoint)
    requires Connecting(e, db, u, txs, height, k) && 1 <= k < |txs| && !txs[k].coinbase && o in txs[k].ins
    requires o in ConnectTxs(u, txs[..k], height)
    ensures o in e && e[o].Some?
  {
    Origins(u, txs, height, k, o);
    assert o in e;
    SameInput(Abs(e, db), ConnectTxs(u, txs[..k], height), u, txs, k, o);
    LoadedEntry(e, db, o);
  }

  lemma InputsLoaded(e: Entries, db: Utxos, u: Utxos, txs: seq<Tx>, height: int, k: nat)
    requires Connecting(e, db, u, txs, height, k) && 1 <= k < |txs| && CanConnectTxs(u, txs, height) && !txs[k].coinbase
    ensures AllLoaded(e, txs[k].ins)
  {
    CanConnectAt(u, txs, height, k);
    forall i | 0 <= i < |txs[k].ins| ensures txs[k].ins[i] in e && e[txs[k].ins[i]].Some? {
      assert txs[k].ins[i] in ConnectTxs(u, txs[..k], height);
      InputLoaded(e, db, u, txs, height, k, txs[k].ins[i]);
    }
  }

  lemma ConnectedOne(e: Entries, next: Entries, db: Utxos, u: Utxos, txs: seq<Tx>, height: int, k: nat)
    requires Connecting(e, db, u, txs, height, k) && k < |txs| && CanConnectTxs(u, txs, height)
    requires Faithful(next, db) && next.Keys == e.Keys + Outputs(txs[k])
    requires Abs(next, db) == ConnectTx(Abs(e, db), txs[k], height)
    ensures Connecting(next, db, u, txs, height, k + 1)
    ensures TxStxos(Abs(e, db), txs[k]) == TxStxos(ConnectTxs(u, txs[..k], height), txs[k])
    ensures Stxos(u, txs[..k + 1], height) == Stxos(u, txs[..k], height) + TxStxos(Abs(e, db), txs[k])
  {
    CanConnectAt(u, txs, height, k);
    AheadStep(Abs(e, db), ConnectTxs(u, txs[..k], height), u, txs, k, height);
    assert txs[..k + 1][..k] == txs[..k] && txs[..k + 1][k] == txs[k];
  }

  // --- Disconnecting a block from the view

  /** The entries after the first i outputs were marked spent, whether or not they had been loaded. */
  function WithoutOutputs(e: Entries, tx: Tx, height: int, i: nat): Entries
    requires i <= |tx.outs|
  {
    if i == 0 then e
    else
      var d := WithoutOutputs(e, tx, height, i - 1);
      if tx.outs[i - 1].unspendable then d
        else d[OutPoint(tx.hash, i - 1) := Some(Spend(EntryFor(d, tx, i - 1, height)))]
  }

  function EntryFor(e: Entries, tx: Tx, i: nat, height: int): Entry
    requires i < |tx.outs|
  {
    var o := OutPoint(tx.hash, i);
    if o in e && e[o].Some? then e[o].value else Entry(TxoOf(tx, i, height), false, false)
  }

  lemma {:induction false} SpentOutputAt(e: Entries, db: Utxos, tx: Tx, height: int, i: nat, o: OutPoint)
    requires i <= |tx.outs|
    ensures At(WithoutOutputs(e, tx, height, i), db, o) == if o in OutputsTo(tx, i) then None else At(e, db, o)
  {
    if i > 0 {
      SpentOutputAt(e, db, tx, height, i - 1, o);
      OutputsStep(tx, i - 1);
    }
  }

  lemma {:induction false} StaysFaithful(e: Entries, db: Utxos, tx: Tx, height: int, i: nat)
    requires Faithful(e, db) && i <= |tx.outs|
    ensures Faithful(WithoutOutputs(e, tx, height, i), db)
  {
    if i > 0 {
      StaysFaithful(e, db, tx, height, i - 1);
      if !tx.outs[i - 1].unspendable {
        var d, o := WithoutOutputs(e, tx, height, i - 1), OutPoint(tx.hash, i - 1);
        assert o in d ==> EntryOk(d, db, o);
        FaithfulPut(d, db, o, Some(Spend(EntryFor(d, tx, i - 1, height))));
      }
    }
  }

  lemma OutputsSpent(e: Entries, db: Utxos, tx: Tx, height: int, i: nat)
    requires Faithful(e, db) && i <= |tx.outs|
    ensures Faithful(WithoutOutputs(e, tx, height, i), db)
    ensures Abs(WithoutOutputs(e, tx, height, i), db) == Abs(e, db) - OutputsTo(tx, i)
  {
    var d := WithoutOutputs(e, tx, height, i);
    StaysFaithful(e, db, tx, height, i);
    forall o ensures SameAt(Abs(d, db), Abs(e, db) - OutputsTo(tx, i), o) {
      SpentOutputAt(e, db, tx, height, i, o);
      AbsAt(d, db, o);
      AbsAt(e, db, o);
    }
    AllSame(Abs(d, db), Abs(e, db) - OutputsTo(tx, i));
  }

  lemma {:induction false} RestoreAgrees(a: Utxos, b: Utxos, ins: seq<OutPoint>, stxos: seq<Txo>, txs: seq<Tx>)
    requires AgreeOutside(a, b, txs) && |ins| == |stxos|
    ensures AgreeOutside(Restore(a, ins, stxos), Restore(b, ins, stxos), txs)
    decreases |ins|
  {
    if ins != [] {
      var last := |ins| - 1;
      var c, d := a[ins[last] := stxos[last]], b[ins[last] := stxos[last]];
      forall o | !InBlock(txs, o) ensures SameAt(c, d, o) {
        assert SameAt(a, b, o);
      }
      RestoreAgrees(c, d, ins[..last], stxos[..last], txs);
    }
  }

  lemma RemoveAgrees(a: Utxos, b: Utxos, txs: seq<Tx>)
    requires txs != [] && AgreeOutside(a, b, txs)
    ensures var last := txs[|txs| - 1]; AgreeOutside(a - Outputs(last), b - Outputs(last), txs[..|txs| - 1])
  {
    var last, init := txs[|txs| - 1], txs[..|txs| - 1];
    forall o | !InBlock(init, o) ensures SameAt(a - Outputs(last), b - Outputs(last), o) {
      if o !in Outputs(last) {
        assert !InBlock(txs, o) by {
          forall j | 0 <= j < |txs| ensures o !in Outputs(txs[j]) {
            assert j < |init| ==> txs[j] == init[j];
          }
        }
        assert SameAt(a, b, o);
      }
    }
  }

  /** Disconnecting a block does not depend on what is known of its own outputs. */
  lemma {:induction false} DisconnectIgnores(a: Utxos, b: Utxos, txs: seq<Tx>, stxos: seq<Txo>)
    requires AgreeOutside(a, b, txs) && |stxos| == CountSpent(txs)
    ensures DisconnectTxs(a, txs, stxos) == DisconnectTxs(b, txs, stxos)
    decreases |txs|
  {
    if txs == [] {
      forall o ensures SameAt(a, b, o) {
        assert !InBlock(txs, o);
      }
      AllSame(a, b);
    } else {
      var last, k := txs[|txs| - 1], |stxos| - CountIns(txs[|txs| - 1]);
      RemoveAgrees(a, b, txs);
      if !last.coinbase {
        RestoreAgrees(a - Outputs(last), b - Outputs(last), last.ins, stxos[k..], txs[..|txs| - 1]);
      }
      DisconnectIgnores(DisconnectTx(a, last, stxos[k..]), DisconnectTx(b, last, stxos[k..]), txs[..|txs| - 1],
        stxos[..k]);
    }
  }

  /** Restoring one spent output puts it back into the set the view stands for. */
  lemma RestoreOne(e: Entries, db: Utxos, o: OutPoint, t: Txo)
    requires Faithful(e, db)
    ensures var next := e[o := Some(Entry(t, false, true))]; Faithful(next, db) && Abs(next, db) == Abs(e, db)[o := t]
  {
    FaithfulPut(e, db, o, Some(Entry(t, false, true)));
    AbsPut(e, db, o, t);
  }

  // --- Writing the view back

  /** The database after dbPutUtxoView has gone through all entries but those to do. */
  ghost predicate WrittenBut(e: Entries, db: Utxos, now: Utxos, todo: set<OutPoint>) {
    forall o {:trigger PutOk(e, db, now, todo, o)} :: PutOk(e, db, now, todo, o)
  }

  predicate PutOk(e: Entries, db: Utxos, now: Utxos, todo: set<OutPoint>, o: OutPoint) {
    if o in e && o !in todo then At(e, db, o) == (if o in now then Some(now[o]) else None) else SameAt(now, db, o)
  }

  /** What dbPutUtxoView writes for one entry. */
  function PutEntry(now: Utxos, o: OutPoint, x: Option<Entry>): Utxos {
    if x.None? || !x.value.modified then now else if x.value.spent then now - {o} else now[o := x.value.txo]
  }

  lemma PutOne(e: Entries, db: Utxos, now: Utxos, todo: set<OutPoint>, o: OutPoint)
    requires Faithful(e, db) && WrittenBut(e, db, now, todo) && o in todo && todo <= e.Keys
    ensures WrittenBut(e, db, PutEntry(now, o, e[o]), todo - {o})
  {
    assert EntryOk(e, db, o) && PutOk(e, db, now, todo, o);
    forall q ensures PutOk(e, db, PutEntry(now, o, e[o]), todo - {o}, q) {
      assert PutOk(e, db, now, todo, q);
    }
  }

  lemma PutAll(e: Entries, db: Utxos, now: Utxos)
    requires WrittenBut(e, db, now, {})
    ensures now == Abs(e, db)
  {
    forall o ensures SameAt(now, Abs(e, db), o) {
      assert PutOk(e, db, now, {}, o);
      AbsAt(e, db, o);
    }
    AllSame(now, Abs(e, db));
  }

  /** commit: entries that are spent or nil go, and the modified flag of the others is flipped. */
  function Committed(e: Entries): Entries {
    map o | o in e && e[o].Some? && !(e[o].value.modified && e[o].value.spent) ::
      Some(e[o].value.(modified := !e[o].value.modified))
  }

  /** The entries after commit has gone through all but those to do. */
  function CommittedBut(e: Entries, todo: set<OutPoint>): Entries {
    map o | o in e && (o in todo || o in Committed(e)) :: if o in todo then e[o] else Committed(e)[o]
  }

  lemma CommitOne(e: Entries, now: Entries, todo: set<OutPoint>, o: OutPoint)
    requires now == CommittedBut(e, todo) && o in todo && todo <= e.Keys
    ensures o in now && now[o] == e[o]
    ensures CommittedBut(e, todo - {o}) == if o in Committed(e) then now[o := Committed(e)[o]] else now - {o}
  {
  }

  lemma CommitEnds(e: Entries)
    ensures CommittedBut(e, e.Keys) == e && CommittedBut(e, {}) == Committed(e)
  {
  }

  /**
   * Flipping marks entries as modified that were not; but those are as the database has them, so the view
   * still stands for the same set and may be written back again.
   */
  lemma CommitSafe(e: Entries, db: Utxos)
    requires Faithful(e, db)
    ensures Faithful(Committed(e), Abs(e, db)) && Abs(Committed(e), Abs(e, db)) == Abs(e, db)
  {
    var d, now := Committed(e), Abs(e, db);
    forall o | o in d ensures EntryOk(d, now, o) {
      assert EntryOk(e, db, o);
      AbsAt(e, db, o);
    }
    forall o ensures SameAt(Abs(d, now), now, o) {
      assert o in e ==> EntryOk(e, db, o);
      AbsAt(e, db, o);
      AbsAt(d, now, o);
    }
    AllSame(Abs(d, now), now);
  }

  /** The view is in step with the database. */
  ghost predicate InStep(e: Entries, db: Utxos) {
    Faithful(e, db) && Abs(e, db) == db
  }

  /** All inputs of a sequence are found. */
  predicate AllFound(now: Entries, txs: seq<Tx>, needed: set<OutPoint>, ins: seq<OutPoint>) {
    forall i :: 0 <= i < |ins| ==> Found(now, txs, needed, ins[i])
  }

  /** All inputs of the transactions after the first and before the k-th are found. */
  predicate TxsFound(now: Entries, txs: seq<Tx>, needed: set<OutPoint>, k: nat) {
    forall j :: 1 <= j < k && j < |txs| ==> AllFound(now, txs, needed, txs[j].ins)
  }

  lemma FoundGrows(e: Entries, now: Entries, txs: seq<Tx>, needed: set<OutPoint>, needs: set<OutPoint>, k: nat)
    requires TxsFound(e, txs, needed, k) && e.Keys <= now.Keys && needed <= needs
    ensures TxsFound(now, txs, needs, k)
  {
    forall j | 1 <= j < k && j < |txs| ensures AllFound(now, txs, needs, txs[j].ins) {
      assert AllFound(e, txs, needed, txs[j].ins);
      forall i | 0 <= i < |txs[j].ins| ensures Found(now, txs, needs, txs[j].ins[i]) {
        assert Found(e, txs, needed, txs[j].ins[i]);
      }
    }
  }

  /** What fetchInputUtxos leaves behind: the same set but for outputs of the block, and every input found. */
  ghost predicate Ready(e: Entries, now: Entries, db: Utxos, txs: seq<Tx>) {
    && Faithful(now, db) && e.Keys <= now.Keys && AgreeOutside(Abs(now, db), Abs(e, db), txs)
    && TxsFound(now, txs, {}, |txs|)
  }

  /** The needed outputs but those in todo have been loaded. */
  ghost predicate Loading(e: Entries, now: Entries, db: Utxos, txs: seq<Tx>, todo: set<OutPoint>) {
    Fetching(e, now, db, txs, todo) && TxsFound(now, txs, todo, |txs|)
  }

  lemma LoadOne(e: Entries, now: Entries, db: Utxos, txs: seq<Tx>, todo: set<OutPoint>, o: OutPoint)
    requires Loading(e, now, db, txs, todo) && o in todo
    ensures Loading(e, now[o := Fetched(db, o)], db, txs, todo - {o})
  {
    var next := now[o := Fetched(db, o)];
    assert o in now ==> InBlock(txs, o);
    AgreeLoad(now, db, Abs(e, db), txs, o);
    forall j | 1 <= j < |txs| ensures AllFound(next, txs, todo - {o}, txs[j].ins) {
      assert AllFound(now, txs, todo, txs[j].ins);
      forall i | 0 <= i < |txs[j].ins| ensures Found(next, txs, todo - {o}, txs[j].ins[i]) {
        assert Found(now, txs, todo, txs[j].ins[i]);
      }
    }
  }

  lemma ConnectReady(e: Entries, now: Entries, db: Utxos, txs: seq<Tx>, height: int)
    requires Ready(e, now, db, txs) && ClearInputs(Abs(e, db), txs) && FirstIsCoinbase(txs)
    ensures Connecting(now, db, Abs(e, db), txs, height, 0)
  {
    InputsReady(e, now, db, Abs(e, db), txs);
    AheadStart(Abs(now, db), Abs(e, db), txs);
    assert txs[..0] == [];
  }

  predicate FirstIsCoinbase(txs: seq<Tx>) {
    forall i :: 0 <= i < |txs| ==> (txs[i].coinbase <==> i == 0)
  }

  /** The block can be connected to u, and fetching its inputs finds them where connecting looks for them. */
  ghost predicate Connectable(u: Utxos, txs: seq<Tx>, height: int) {
    FirstIsCoinbase(txs) && ClearInputs(u, txs) && CanConnectTxs(u, txs, height)
  }

  lemma CountStep(txs: seq<Tx>, k: nat)
    requires k < |txs|
    ensures CountSpent(txs[..k + 1]) == CountSpent(txs[..k]) + CountIns(txs[k])
    ensures txs[..k + 1][..k] == txs[..k] && txs[..k + 1][k] == txs[k] && txs[..k + 1] != []
  {
    assert txs[..k + 1][..k] == txs[..k];
  }

  /** The transaction connects to what the view stands for, too. */
  lemma AheadConnects(e: Entries, db: Utxos, u: Utxos, txs: seq<Tx>, height: int, k: nat)
    requires Connecting(e, db, u, txs, height, k) && k < |txs| && CanConnectTxs(u, txs, height)
    ensures txs[k].coinbase || forall o :: o in txs[k].ins ==> o in Abs(e, db)
  {
    CanConnectAt(u, txs, height, k);
    if !txs[k].coinbase {
      forall o | o in txs[k].ins ensures o in Abs(e, db) {
        SameInput(Abs(e, db), ConnectTxs(u, txs[..k], height), u, txs, k, o);
      }
    }
  }

  /** Adding the outputs of a transaction of the block makes no other needed output known. */
  lemma StillNeeded(e: Entries, now: Entries, next: Entries, db: Utxos, txs: seq<Tx>, needed: set<OutPoint>, j: nat)
    requires Fetching(e, now, db, txs, needed) && j < |txs| && Faithful(next, db)
    requires AgreeOutside(Abs(next, db), Abs(e, db), txs)
    requires next.Keys == now.Keys + Outputs(txs[j])
    ensures Fetching(e, next, db, txs, needed)
  {
    forall o | o in needed && o in next ensures InBlock(txs, o) {
      if o in now {
        assert InBlock(txs, o);
      }
    }
  }
}
