/** The in-memory block index and the database bucket behind it (blockchain/blockindex.go). */
module BlockIndexes {
  import opened Primitives
  import opened BlockTree
  import opened Selection
  import opened Rows

  function KeyOf(n: BlockNode): RowKey
    requires n.Node?
  {
    RowKey(Height(n), n.hash)
  }

  function RowOf(n: BlockNode, s: Status): Row
    requires n.Node?
  {
    Row(HeaderOf(n), s)
  }

  predicate Known(index: map<Hash, BlockNode>, k: RowKey) {
    k.hash in index && index[k.hash].Node? && k == KeyOf(index[k.hash])
  }

  /** The row of n on disk is up to date. */
  predicate Flushed(rows: map<RowKey, Row>, status: Statuses, n: BlockNode) {
    n in status && n.Node? && KeyOf(n) in rows && rows[KeyOf(n)] == RowOf(n, status[n])
  }

  /** The bucket holds a row for every node that is not dirty, and no row of an unknown node. */
  ghost predicate RowsAgree(rows: map<RowKey, Row>, index: map<Hash, BlockNode>, status: Statuses,
                            dirty: set<BlockNode>) {
    && (forall n {:trigger Lookup(index, n)} :: n in status ==> Lookup(index, n))
    && (forall n {:trigger Flushed(rows, status, n)} :: n in status && n !in dirty ==> Flushed(rows, status, n))
    && (forall k {:trigger Known(index, k)} :: k in rows ==> Known(index, k))
    && dirty <= status.Keys
  }

  class BlockIndex {
    var index: map<Hash, BlockNode>
    var status: Statuses
    var dirty: set<BlockNode>
    /** The block index bucket and the rows its bytes stand for. */
    var bucket: RowBucket
    ghost var rows: map<RowKey, Row>

    ghost predicate Valid()
      reads this
    {
      RowsAgree(rows, index, status, dirty) && Held(bucket, rows)
    }

    /** An index that holds one node and whose row is stored. */
    constructor Genesis(node: BlockNode, initial: Status)
      requires node.Node?
      ensures Valid() && index == map[node.hash := node] && status == map[node := initial] && dirty == {}
    {
      index, status, dirty := map[node.hash := node], map[node := initial], {};
      bucket := map[KeyBytes(KeyOf(node)) := RowBytes(RowOf(node, initial))];
      rows := map[KeyOf(node) := RowOf(node, initial)];
      HeldFirst(KeyOf(node), RowOf(node, initial));
    }

    /** AddNode, together with the initial status its caller gives the node. */
    method AddNode(node: BlockNode, initial: Status)
      requires Valid() && node.Node? && node.hash !in index
      modifies this
      ensures Valid() && rows == old(rows) && bucket == old(bucket) && dirty == old(dirty) + {node}
      ensures index == old(index)[node.hash := node] && status == old(status)[node := initial]
    {
      ghost var before := status;
      index := index[node.hash := node];
      status := status[node := initial];
      dirty := dirty + {node};
      forall n | n in status && n !in dirty ensures Flushed(rows, status, n) {
        assert Flushed(rows, before, n);
      }
      forall n | n in status ensures Lookup(index, n) {
        assert n != node ==> Lookup(old(index), n);
      }
      forall k | k in rows ensures Known(index, k) {
        assert Known(old(index), k);
      }
    }

    method SetStatusFlags(node: BlockNode, flag: Flag)
      requires Valid() && node in status
      modifies this`status, this`dirty
      ensures Valid() && dirty == old(dirty) + {node}
      ensures status == Mark(old(status), [node], flag)
    {
      ghost var before := status;
      status := status[node := status[node] + {flag}];
      dirty := dirty + {node};
      assert status == Mark(before, [node], flag);
      forall n | n in status && n !in dirty ensures Flushed(rows, status, n) {
        assert Flushed(rows, before, n);
      }
    }

    /** Replace the nodes in memory by those loaded from the bucket. */
    method Reload(loaded: map<Hash, BlockNode>, loadedStatus: Statuses)
      requires RowsAgree(rows, loaded, loadedStatus, {}) && Held(bucket, rows)
      modifies this`index, this`status, this`dirty
      ensures Valid() && index == loaded && status == loadedStatus && dirty == {}
    {
      index, status, dirty := loaded, loadedStatus, {};
    }

    /** Write all dirty nodes; afterwards the bucket mirrors the whole index. */
    method FlushToDB()
      requires Valid()
      modifies this`dirty, this`bucket, this`rows
      ensures Valid() && dirty == {}
    {
      var todo := dirty;
      while todo != {}
        invariant todo <= dirty && RowsAgree(rows, index, status, todo) && Held(bucket, rows)
        decreases todo
      {
        var n :| n in todo;
        ghost var before := rows;
        assert Lookup(index, n);
        HeldNext(bucket, rows, KeyOf(n), RowOf(n, status[n]));
        bucket := bucket[KeyBytes(KeyOf(n)) := RowBytes(RowOf(n, status[n]))];
        rows := rows[KeyOf(n) := RowOf(n, status[n])];
        todo := todo - {n};
        forall m | m in status && m !in todo ensures Flushed(rows, status, m) {
          assert Lookup(index, m);
          if m != n {
            assert Flushed(before, status, m);
          }
        }
      }
      dirty := {};
    }
  }
}
