/** The batched scans over enabled channels (controller/channel_upstream_update.go):
    `id > lastID ORDER BY id LIMIT n`, repeated while batches are full. Rows may be inserted, deleted
    or toggled between two queries, so the table is a function from the number of the query to the
    enabled ids in ascending order. */
module BatchScan {

  const BATCH_SIZE := 100

  ghost predicate Ascending(xs: seq<int>) {
    forall i, j | 0 <= i < j < |xs| :: xs[i] < xs[j]
  }

  /** The rows of one query's table: positive ids in ascending order, none above `bound`. */
  ghost predicate Rows(ids: seq<int>, bound: int) {
    Ascending(ids) && forall i | 0 <= i < |ids| :: 0 < ids[i] <= bound
  }

  function After(ids: seq<int>, lastID: int): seq<int> {
    if ids == [] || ids[0] > lastID then ids else After(ids[1..], lastID)
  }

  /** findEnabledChannelsAfterID; no lower bound is sent for a lastID of zero. */
  function Batch(ids: seq<int>, lastID: int): seq<int> {
    var rows := if lastID > 0 then After(ids, lastID) else ids;
    if |rows| <= BATCH_SIZE then rows else rows[..BATCH_SIZE]
  }

  lemma {:induction false} AfterIsSuffix(ids: seq<int>, lastID: int)
    requires Ascending(ids)
    ensures var r := After(ids, lastID); |r| <= |ids| && r == ids[|ids| - |r|..]
    ensures forall i | 0 <= i < |ids| :: ids[i] > lastID <==> i >= |ids| - |After(ids, lastID)|
  {
    if ids != [] && ids[0] <= lastID {
      AfterIsSuffix(ids[1..], lastID);
    }
  }

  /** A batch holds the next enabled ids in order, and leaves out only ids beyond its last one, and
      only when it is full. */
  lemma BatchIsNext(ids: seq<int>, lastID: int, bound: int)
    requires lastID >= 0 && Rows(ids, bound)
    ensures var b := Batch(ids, lastID);
            && Ascending(b) && |b| <= 100
            && (forall i | 0 <= i < |b| :: b[i] in ids && b[i] > lastID)
            && (forall i | 0 <= i < |ids| && ids[i] > lastID ::
                  ids[i] in b || (|b| == 100 && ids[i] > b[|b| - 1]))
  {
    var lo, hi := BatchIsSlice(ids, lastID, bound);
    forall i | 0 <= i < |ids| && ids[i] > lastID ensures InBatch(ids, ids[lo..hi], i) {
      SliceMember(ids, lo, hi, i);
    }
  }

  ghost predicate InBatch(ids: seq<int>, b: seq<int>, i: nat)
    requires i < |ids|
  {
    ids[i] in b || (|b| == BATCH_SIZE && ids[i] > b[|b| - 1])
  }

  /** A batch is a slice that begins with the first id after `lastID`. */
  lemma BatchIsSlice(ids: seq<int>, lastID: int, bound: int) returns (lo: nat, hi: nat)
    requires lastID >= 0 && Rows(ids, bound)
    ensures lo <= hi <= |ids| && Batch(ids, lastID) == ids[lo..hi]
    ensures hi - lo <= BATCH_SIZE && (hi < |ids| ==> hi - lo == BATCH_SIZE)
    ensures forall i | 0 <= i < |ids| :: ids[i] > lastID <==> i >= lo
  {
    AfterIsSuffix(ids, lastID);
    var rows := if lastID > 0 then After(ids, lastID) else ids;
    lo := |ids| - |rows|;
    hi := lo + |Batch(ids, lastID)|;
  }

  lemma SliceMember(ids: seq<int>, lo: nat, hi: nat, i: nat)
    requires Ascending(ids) && lo <= hi <= |ids| && lo <= i < |ids| && (hi < |ids| ==> hi - lo == BATCH_SIZE)
    ensures InBatch(ids, ids[lo..hi], i)
  {
    if i < hi {
      assert ids[lo..hi][i - lo] == ids[i];
    } else {
      assert ids[lo..hi][hi - lo - 1] == ids[hi - 1];
    }
  }

  /** Enabled at each of the first `n` queries. */
  ghost predicate StaysEnabled(table: nat -> seq<int>, n: nat, id: int) {
    n > 0 && forall k: nat | k < n :: id in table(k)
  }

  /** Every channel that stayed enabled is visited or still ahead of the scan. */
  ghost predicate Covers(table: nat -> seq<int>, n: nat, visited: seq<int>, done: bool, lastID: int) {
    forall id | StaysEnabled(table, n, id) :: id in visited || (!done && id > lastID)
  }

  lemma RoundCovers(table: nat -> seq<int>, n: nat, visited: seq<int>, lastID: int, bound: int)
    requires lastID >= 0 && Rows(table(n), bound)
    requires n == 0 ==> lastID == 0
    requires Covers(table, n, visited, false, lastID)
    ensures var b := Batch(table(n), lastID);
            Covers(table, n + 1, visited + b, |b| < BATCH_SIZE, if b == [] then lastID else b[|b| - 1])
  {
    BatchIsNext(table(n), lastID, bound);
    var b := Batch(table(n), lastID);
    forall id | StaysEnabled(table, n + 1, id)
      ensures id in visited + b || (|b| >= BATCH_SIZE && id > b[|b| - 1])
    {
      assert id in table(n);
      var i :| 0 <= i < |table(n)| && table(n)[i] == id;
      if n > 0 {
        assert StaysEnabled(table, n, id);
      }
    }
  }

  /** The visited channels ascend up to `lastID`, and `visited[i]` was enabled at query `readAt[i]`. */
  ghost predicate Trail(table: nat -> seq<int>, n: nat, visited: seq<int>, readAt: seq<nat>, lastID: int) {
    && Ascending(visited)
    && |readAt| == |visited|
    && forall i | 0 <= i < |visited| :: visited[i] <= lastID && readAt[i] < n && visited[i] in table(readAt[i])
  }

  lemma RoundTrails(table: nat -> seq<int>, n: nat, visited: seq<int>, readAt: seq<nat>, lastID: int, bound: int)
    requires lastID >= 0 && Rows(table(n), bound) && Trail(table, n, visited, readAt, lastID)
    ensures var b := Batch(table(n), lastID);
            var last := if b == [] then lastID else b[|b| - 1];
            && Trail(table, n + 1, visited + b, readAt + seq(|b|, _ => n), last)
            && lastID <= last && (b != [] ==> lastID < last <= bound)
  {
    BatchIsNext(table(n), lastID, bound);
    var b := Batch(table(n), lastID);
    var more := visited + b;
    forall i, j | 0 <= i < j < |more| ensures more[i] < more[j] {
      if i < |visited| <= j {
        assert b[j - |visited|] > lastID;
      }
    }
    if b != [] {
      assert b[|b| - 1] in table(n);
    }
  }

  /** The scan loop of the detection task and of apply-all. With positive ids that stay below some
      bound it terminates, visits no channel twice, visits a channel only while it is enabled, and
      visits every channel that was enabled at every query. */
  method Scan(table: nat -> seq<int>, ghost bound: int)
    returns (visited: seq<int>, queries: nat, ghost readAt: seq<nat>)
    requires forall k: nat :: Rows(table(k), bound)
    ensures Ascending(visited)
    ensures |readAt| == |visited| && forall i | 0 <= i < |visited| :: readAt[i] < queries && visited[i] in table(readAt[i])
    ensures forall id | StaysEnabled(table, queries, id) :: id in visited
    ensures queries > 0
  {
    var lastID, done := 0, false;
    visited, queries, readAt := [], 0, [];
    while !done
      invariant lastID >= 0
      invariant queries == 0 ==> lastID == 0 && !done
      invariant Trail(table, queries, visited, readAt, lastID)
      invariant Covers(table, queries, visited, done, lastID)
      decreases !done, bound - lastID
    {
      RoundCovers(table, queries, visited, lastID, bound);
      RoundTrails(table, queries, visited, readAt, lastID, bound);
      var batch := Batch(table(queries), lastID);
      readAt := readAt + seq(|batch|, _ => queries);
      queries := queries + 1;
      visited := visited + batch;
      if batch == [] {
        break;
      }
      lastID := batch[|batch| - 1];
      if |batch| < BATCH_SIZE {
        done := true;
      }
    }
  }
}
