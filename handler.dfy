/**
 * The sequential logic of cli/handler.go: grouping the wallet's raw transaction records into
 * one clean record per transaction, newest first; the `--limit` cut of the history; the checks
 * `BulkTransfer` runs before it sends anything; the five-address cutoff of `ListAccounts`; and
 * the up-to-date test of `Sync`. `log.Fatalf` is a `Failure` result.
 */
module Handler {
  import opened Wrappers

  // ---------------------------------------------------------------------------
  // Transaction history

  /** `CleanTransactionType`; `Sent` is its zero value. */
  datatype TxType = Sent | Received | Mined

  /** The fields of `chainjson.ListTransactionsResult` the aggregation reads. The amount is a
      signed integer standing for the float (only its sign is tested), the time is in seconds. */
  datatype RawTx = RawTx(txId: string, time: int, amount: int, address: string, confirmations: int, generated: bool)

  /** `CleanTransaction`, with the timestamp kept as seconds instead of its formatted text. */
  datatype CleanTx = CleanTx(timestamp: int, amount: int, txType: TxType, txId: string, address: string, confirmations: int)

  /** The type of a record (lines 514-520): mined when generated, else sent when the amount is
      negative, else received. */
  function Classify(tx: RawTx): (t: TxType)
    ensures t == Mined <==> tx.generated
    ensures t == Sent <==> !tx.generated && tx.amount < 0
    ensures t == Received <==> !tx.generated && tx.amount >= 0
  {
    if tx.generated then Mined else if tx.amount < 0 then Sent else Received
  }

  /** One iteration of the grouping loop (lines 493-521): the first record of a TxID creates its
      entry, and every record of it overwrites the amount and the type. */
  function Absorb(m: map<string, CleanTx>, tx: RawTx): map<string, CleanTx> {
    var entry := if tx.txId in m then m[tx.txId] else CleanTx(tx.time, 0, Sent, tx.txId, tx.address, tx.confirmations);
    m[tx.txId := entry.(amount := tx.amount, txType := Classify(tx))]
  }

  /** The map the grouping loop builds from the records, in input order. */
  function Group(txs: seq<RawTx>): map<string, CleanTx>
    decreases |txs|
  {
    if txs == [] then map[] else Absorb(Group(txs[..|txs| - 1]), txs[|txs| - 1])
  }

  /** The transaction ids occurring in the records. */
  function Ids(txs: seq<RawTx>): set<string> {
    set k | 0 <= k < |txs| :: txs[k].txId
  }

  /** Exactly the ids of the input are grouped, and each entry carries its own id. */
  lemma {:induction false} GroupKeys(txs: seq<RawTx>)
    ensures Group(txs).Keys == Ids(txs)
    ensures forall id :: id in Group(txs) ==> Group(txs)[id].txId == id
    decreases |txs|
  {
    if txs != [] {
      var n := |txs|;
      var prefix := txs[..n - 1];
      GroupKeys(prefix);
      assert Ids(txs) == Ids(prefix) + {txs[n - 1].txId} by {
        forall id | id in Ids(txs) ensures id in Ids(prefix) + {txs[n - 1].txId} {
          var k :| 0 <= k < n && txs[k].txId == id;
          if k < n - 1 {
            assert prefix[k] == txs[k];
          }
        }
        forall id | id in Ids(prefix) ensures id in Ids(txs) {
          var k :| 0 <= k < n - 1 && prefix[k].txId == id;
          assert txs[k] == prefix[k];
        }
      }
    }
  }

  /** Timestamp, address and confirmations of an entry come from the first record of its id. */
  lemma {:induction false} GroupFirst(txs: seq<RawTx>, f: nat)
    requires f < |txs| && forall j :: 0 <= j < f ==> txs[j].txId != txs[f].txId
    ensures txs[f].txId in Group(txs)
    ensures Group(txs)[txs[f].txId].timestamp == txs[f].time
    ensures Group(txs)[txs[f].txId].address == txs[f].address
    ensures Group(txs)[txs[f].txId].confirmations == txs[f].confirmations
    decreases |txs|
  {
    var n := |txs|;
    var prefix := txs[..n - 1];
    if f == n - 1 {
      GroupKeys(prefix);
      forall k | 0 <= k < n - 1 ensures prefix[k].txId != txs[f].txId {
        assert prefix[k] == txs[k];
      }
    } else {
      assert prefix[f] == txs[f];
      GroupFirst(prefix, f);
    }
  }

  /** Amount and type of an entry come from the last record of its id. */
  lemma {:induction false} GroupLast(txs: seq<RawTx>, l: nat)
    requires l < |txs| && forall j :: l < j < |txs| ==> txs[j].txId != txs[l].txId
    ensures txs[l].txId in Group(txs)
    ensures Group(txs)[txs[l].txId].amount == txs[l].amount
    ensures Group(txs)[txs[l].txId].txType == Classify(txs[l])
    decreases |txs|
  {
    var n := |txs|;
    if l < n - 1 {
      var prefix := txs[..n - 1];
      assert prefix[l] == txs[l];
      GroupLast(prefix, l);
    }
  }

  /** Records ordered newest first. Order among equal timestamps is left open, as it is in the
      source (random map order, unstable sort). */
  ghost predicate NewestFirst(h: seq<CleanTx>) {
    forall j, k :: 0 <= j < k < |h| ==> h[j].timestamp >= h[k].timestamp
  }

  ghost predicate DistinctIds(h: seq<CleanTx>) {
    forall j, k :: 0 <= j < k < |h| ==> h[j].txId != h[k].txId
  }

  /** `h` lists the entries of `m`: each record is the entry of its id and every id is listed. */
  ghost predicate ListsEntries(h: seq<CleanTx>, m: map<string, CleanTx>) {
    (forall k :: 0 <= k < |h| ==> h[k].txId in m && m[h[k].txId] == h[k])
    && (forall id :: id in m ==> exists k :: 0 <= k < |h| && h[k].txId == id)
  }

  function IdsOf(h: seq<CleanTx>): set<string> {
    set k | 0 <= k < |h| :: h[k].txId
  }

  lemma {:induction false} DistinctIdsCount(h: seq<CleanTx>)
    requires DistinctIds(h)
    ensures |IdsOf(h)| == |h|
    decreases |h|
  {
    if h != [] {
      var n := |h|;
      var prefix := h[..n - 1];
      DistinctIdsCount(prefix);
      assert IdsOf(h) == IdsOf(prefix) + {h[n - 1].txId} by {
        forall id | id in IdsOf(h) ensures id in IdsOf(prefix) + {h[n - 1].txId} {
          var k :| 0 <= k < n && h[k].txId == id;
          if k < n - 1 {
            assert prefix[k] == h[k];
          }
        }
        forall id | id in IdsOf(prefix) ensures id in IdsOf(h) {
          var k :| 0 <= k < n - 1 && prefix[k].txId == id;
          assert h[k] == prefix[k];
        }
      }
      forall k | 0 <= k < n - 1 ensures prefix[k].txId != h[n - 1].txId {
        assert prefix[k] == h[k];
      }
    }
  }

  /** A history listing the entries of the grouped records, each id once, has exactly one record
      per distinct TxID of the input. */
  lemma OneRecordPerTxId(txs: seq<RawTx>, h: seq<CleanTx>)
    requires ListsEntries(h, Group(txs)) && DistinctIds(h)
    ensures |h| == |Ids(txs)|
    ensures IdsOf(h) == Ids(txs)
  {
    GroupKeys(txs);
    DistinctIdsCount(h);
    assert IdsOf(h) == Group(txs).Keys by {
      forall id | id in Group(txs) ensures id in IdsOf(h) {
        var k :| 0 <= k < |h| && h[k].txId == id;
      }
    }
  }

  /** Multiset equality carries a listing of distinct ids over to the reordered sequence. */
  lemma Reordered(s: seq<CleanTx>, t: seq<CleanTx>, m: map<string, CleanTx>)
    requires multiset(s) == multiset(t)
    requires ListsEntries(s, m) && DistinctIds(s)
    ensures ListsEntries(t, m) && DistinctIds(t)
  {
    forall k | 0 <= k < |t| ensures t[k].txId in m && m[t[k].txId] == t[k] {
      assert t[k] in multiset(t);
      var j :| 0 <= j < |s| && s[j] == t[k];
    }
    forall id | id in m ensures exists k :: 0 <= k < |t| && t[k].txId == id {
      var j :| 0 <= j < |s| && s[j].txId == id;
      assert s[j] in multiset(s);
      var k :| 0 <= k < |t| && t[k] == s[j];
    }
    forall j, k | 0 <= j < k < |t| ensures t[j].txId != t[k].txId {
      if t[j].txId == t[k].txId {
        assert t[j] == t[k];
        CountTwice(t, j, k);
        DistinctCountOnce(s, t[j]);
        assert false;
      }
    }
  }

  lemma CountTwice(t: seq<CleanTx>, j: nat, k: nat)
    requires j < k < |t| && t[j] == t[k]
    ensures multiset(t)[t[j]] >= 2
  {
    assert t == t[..k] + [t[k]] + t[k + 1..];
    assert t[..k][j] == t[j];
    assert t[j] in multiset(t[..k]);
  }

  lemma {:induction false} DistinctCountOnce(s: seq<CleanTx>, x: CleanTx)
    requires DistinctIds(s)
    ensures multiset(s)[x] <= 1
    decreases |s|
  {
    if s != [] {
      var rest := s[1..];
      assert s == [s[0]] + rest;
      DistinctCountOnce(rest, x);
      if s[0] == x {
        forall k | 0 <= k < |rest| ensures rest[k] != x {
          assert rest[k] == s[k + 1];
        }
      }
    }
  }

  /** `aggregateTransactions` (lines 489-537): one record per distinct TxID, each the entry
      `Group` builds for it, ordered newest first. */
  method Aggregate(txs: seq<RawTx>) returns (history: seq<CleanTx>)
    ensures ListsEntries(history, Group(txs)) && DistinctIds(history)
    ensures NewestFirst(history)
  {
    var txMap := GroupRecords(txs);
    GroupKeys(txs);
    var rows := CollectEntries(txMap);
    var a := new CleanTx[|rows|](k requires 0 <= k < |rows| => rows[k]);
    assert a[..] == rows;
    SortNewestFirst(a);
    history := a[..];
    Reordered(rows, history, txMap);
  }

  /** The grouping loop (lines 491-521). The source updates the entry through the pointer the
      map holds; here the updated entry is stored back. */
  method GroupRecords(txs: seq<RawTx>) returns (txMap: map<string, CleanTx>)
    ensures txMap == Group(txs)
  {
    txMap := map[];
    for i := 0 to |txs|
      invariant txMap == Group(txs[..i])
    {
      var tx := txs[i];
      var cleanTx;
      if tx.txId in txMap {
        cleanTx := txMap[tx.txId];
      } else {
        cleanTx := CleanTx(tx.time, 0, Sent, tx.txId, tx.address, tx.confirmations);
      }
      cleanTx := cleanTx.(amount := tx.amount);
      if tx.generated {
        cleanTx := cleanTx.(txType := Mined);
      } else if tx.amount < 0 {
        cleanTx := cleanTx.(txType := Sent);
      } else {
        cleanTx := cleanTx.(txType := Received);
      }
      txMap := txMap[tx.txId := cleanTx];
      assert txs[..i + 1][..i] == txs[..i];
    }
    assert txs[..|txs|] == txs;
  }

  /** The collecting loop (lines 524-527): every entry once, in the map's arbitrary order. */
  method CollectEntries(txMap: map<string, CleanTx>) returns (rows: seq<CleanTx>)
    requires forall id :: id in txMap ==> txMap[id].txId == id
    ensures ListsEntries(rows, txMap) && DistinctIds(rows)
  {
    rows := [];
    var left := txMap.Keys;
    while left != {}
      invariant left <= txMap.Keys
      invariant forall k :: 0 <= k < |rows| ==> rows[k].txId in txMap && txMap[rows[k].txId] == rows[k] && rows[k].txId !in left
      invariant forall id :: id in txMap && id !in left ==> exists k :: 0 <= k < |rows| && rows[k].txId == id
      invariant DistinctIds(rows)
      decreases left
    {
      var id :| id in left;
      var before := rows;
      rows := rows + [txMap[id]];
      left := left - {id};
      forall other | other in txMap && other !in left ensures exists k :: 0 <= k < |rows| && rows[k].txId == other {
        if other == id {
          assert rows[|before|].txId == id;
        } else {
          var k :| 0 <= k < |before| && before[k].txId == other;
          assert rows[k] == before[k];
        }
      }
    }
  }

  /** `sort.Slice` with "timestamp after" as the order (lines 529-534), in place. */
  method SortNewestFirst(a: array<CleanTx>)
    modifies a
    ensures NewestFirst(a[..])
    ensures multiset(a[..]) == multiset(old(a[..]))
  {
    if a.Length == 0 {
      return;
    }
    var i := 1;
    while i < a.Length
      invariant 1 <= i <= a.Length
      invariant forall p, q :: 0 <= p < q < i ==> a[p].timestamp >= a[q].timestamp
      invariant multiset(a[..]) == multiset(old(a[..]))
    {
      InsertNewest(a, i);
      i := i + 1;
    }
    assert a[..] == a[..a.Length];
  }

  /** Moves `a[i]` left past every newer-first-violating neighbour, so `a[..i + 1]` is ordered. */
  method InsertNewest(a: array<CleanTx>, i: nat)
    requires i < a.Length
    requires forall p, q :: 0 <= p < q < i ==> a[p].timestamp >= a[q].timestamp
    modifies a
    ensures forall p, q :: 0 <= p < q <= i ==> a[p].timestamp >= a[q].timestamp
    ensures multiset(a[..]) == multiset(old(a[..]))
  {
    var j := i;
    while j > 0 && a[j - 1].timestamp < a[j].timestamp
      invariant 0 <= j <= i
      invariant forall p, q :: 0 <= p < q <= i && p != j && q != j ==> a[p].timestamp >= a[q].timestamp
      invariant forall q :: j < q <= i ==> a[j].timestamp > a[q].timestamp
      invariant 0 < j < i ==> a[j - 1].timestamp >= a[j + 1].timestamp
      invariant multiset(a[..]) == multiset(old(a[..]))
    {
      SwapDown(a, j);
      j := j - 1;
    }
  }

  /** Exchanges the record at `j` with the one before it. */
  method SwapDown(a: array<CleanTx>, j: nat)
    requires 0 < j < a.Length
    modifies a
    ensures a[j - 1] == old(a[j]) && a[j] == old(a[j - 1])
    ensures forall k :: 0 <= k < a.Length && k != j - 1 && k != j ==> a[k] == old(a[k])
    ensures multiset(a[..]) == multiset(old(a[..]))
  {
    a[j - 1], a[j] := a[j], a[j - 1];
  }

  // ---------------------------------------------------------------------------
  // The history limit

  /** The zero value of `CleanTransaction` (its empty timestamp text read as 0 seconds). */
  const ZeroTx := CleanTx(0, 0, Sent, "", "", 0)

  datatype HistoryError = SliceOutOfRange(limit: int, capacity: nat)

  /** `cleanHistory[:limit]` as written (lines 441-443). A Go slice may be resliced up to its
      capacity, which `append` leaves at or above the length: a limit between the two exposes
      zero-valued records, and a limit above the capacity panics. */
  function LimitAsWritten(history: seq<CleanTx>, limit: int, capacity: nat): (r: Result<seq<CleanTx>, HistoryError>)
    requires |history| <= capacity
    ensures limit <= 0 ==> r == Success(history)
    ensures 0 < limit <= |history| ==> r == Success(history[..limit])
    ensures r.Failure? <==> limit > capacity
  {
    if limit <= 0 then Success(history)
    else if limit <= |history| then Success(history[..limit])
    else if limit <= capacity then Success(history + seq(limit - |history|, _ => ZeroTx))
    else Failure(SliceOutOfRange(limit, capacity))
  }

  /** A history of one record asked for two panics unless `append` over-allocated. */
  lemma LimitAsWrittenPanics(tx: CleanTx)
    ensures LimitAsWritten([tx], 2, 1) == Failure(SliceOutOfRange(2, 1))
  {
  }

  /** Three records appended one at a time to an empty slice leave it room for four (the
      capacity grows 1, 2, 4), so a limit of four shows the three records and a zero record. */
  lemma LimitAsWrittenShowsZero(a: CleanTx, b: CleanTx, c: CleanTx)
    ensures LimitAsWritten([a, b, c], 4, 4) == Success([a, b, c, ZeroTx])
  {
    assert seq(1, _ => ZeroTx) == [ZeroTx];
    assert [a, b, c] + [ZeroTx] == [a, b, c, ZeroTx];
  }

  /** The limit as evidently intended: a positive limit keeps the first `limit` records, or all
      of them when there are fewer; any other limit keeps all. */
  function Limit(history: seq<CleanTx>, limit: int): (r: seq<CleanTx>)
    ensures r <= history
    ensures limit > 0 ==> |r| == if limit < |history| then limit else |history|
    ensures limit <= 0 ==> r == history
  {
    if 0 < limit < |history| then history[..limit] else history
  }

  /** Both agree wherever the source does not panic or show zero records. */
  lemma LimitAgrees(history: seq<CleanTx>, limit: int, capacity: nat)
    requires |history| <= capacity && limit <= |history|
    ensures LimitAsWritten(history, limit, capacity) == Success(Limit(history, limit))
  {
    assert history[..|history|] == history;
  }

  /** `shown` holds the newest entries of `m` as a positive `limit` cuts them: newest first,
      each id once, each the entry of its id, all of them when the limit is not positive or
      not below their number and `limit` of them otherwise, and no entry left out is newer
      than one shown. */
  ghost predicate NewestEntries(shown: seq<CleanTx>, m: map<string, CleanTx>, limit: int) {
    NewestFirst(shown) && DistinctIds(shown)
    && (forall k :: 0 <= k < |shown| ==> shown[k].txId in m && m[shown[k].txId] == shown[k])
    && (limit <= 0 || limit >= |m| ==> ListsEntries(shown, m))
    && (limit > 0 ==> |shown| == if limit < |m| then limit else |m|)
    && (forall id, k :: id in m && id !in IdsOf(shown) && 0 <= k < |shown| ==> m[id].timestamp <= shown[k].timestamp)
  }

  /** Cutting a newest-first listing of all entries keeps the newest ones. */
  lemma LimitKeepsNewest(history: seq<CleanTx>, m: map<string, CleanTx>, limit: int)
    requires ListsEntries(history, m) && DistinctIds(history) && NewestFirst(history) && |history| == |m|
    ensures NewestEntries(Limit(history, limit), m, limit)
  {
    var shown := Limit(history, limit);
    if 0 < limit < |history| {
      PrefixOfListing(history, m, limit);
    } else {
      assert shown == history;
      forall id | id in m ensures id in IdsOf(shown) {
        var j :| 0 <= j < |history| && history[j].txId == id;
      }
    }
  }

  /** The first `n` records of a newest-first listing of distinct entries. */
  lemma PrefixOfListing(history: seq<CleanTx>, m: map<string, CleanTx>, n: nat)
    requires ListsEntries(history, m) && DistinctIds(history) && NewestFirst(history)
    requires n <= |history|
    ensures NewestFirst(history[..n]) && DistinctIds(history[..n])
    ensures forall k :: 0 <= k < n ==> history[..n][k].txId in m && m[history[..n][k].txId] == history[..n][k]
    ensures forall id, k :: id in m && id !in IdsOf(history[..n]) && 0 <= k < n ==> m[id].timestamp <= history[..n][k].timestamp
  {
    var shown := history[..n];
    assert forall i :: 0 <= i < n ==> shown[i] == history[i];
    assert forall i :: 0 <= i < n ==> shown[i].txId in IdsOf(shown);
    forall id, k | id in m && id !in IdsOf(shown) && 0 <= k < n ensures m[id].timestamp <= shown[k].timestamp {
      var j :| 0 <= j < |history| && history[j].txId == id;
      assert j >= n;
      assert m[id] == history[j];
    }
  }

  /** `printAllTransactionHistory` (lines 433-454) with the intended limit: a listing error is
      returned (its "failed to list transactions" prefix is not modelled); otherwise the records shown are the newest entries of the grouped
      records. "No transactions found." is printed exactly when nothing is shown. */
  method PrintAllTransactionHistory(listed: Result<seq<RawTx>, Cause>, limit: int) returns (r: Result<seq<CleanTx>, Cause>)
    ensures listed.Failure? ==> r == Failure(listed.error)
    ensures listed.Success? ==> r.Success? && NewestEntries(r.value, Group(listed.value), limit)
  {
    if listed.Failure? {
      return Failure(listed.error);
    }
    var history := Aggregate(listed.value);
    ghost var m := Group(listed.value);
    OneRecordPerTxId(listed.value, history);
    GroupKeys(listed.value);
    assert |m| == |m.Keys|;
    LimitKeepsNewest(history, m, limit);
    r := Success(Limit(history, limit));
  }

  // ---------------------------------------------------------------------------
  // BulkTransfer

  /** The values of `f` on every element, or the error of the first element it fails on: the
      conversion loops of `BulkTransfer`, which stop at the first `log.Fatalf`. */
  function ConvertAll<A, B>(xs: seq<A>, f: A -> Result<B, Cause>): Result<seq<B>, Cause>
    decreases |xs|
  {
    if xs == [] then Success([])
    else match ConvertAll(xs[..|xs| - 1], f)
      case Failure(e) => Failure(e)
      case Success(bs) =>
        match f(xs[|xs| - 1])
        case Failure(e) => Failure(e)
        case Success(b) => Success(bs + [b])
  }

  /** A conversion succeeds exactly when each element converts, and then lists the converted
      elements in order; otherwise its error is that of the first element that fails. */
  lemma {:induction false} ConvertAllMeaning<A, B>(xs: seq<A>, f: A -> Result<B, Cause>)
    ensures ConvertAll(xs, f).Success? <==> forall k :: 0 <= k < |xs| ==> f(xs[k]).Success?
    ensures ConvertAll(xs, f).Success? ==>
      |ConvertAll(xs, f).value| == |xs| && forall k :: 0 <= k < |xs| ==> f(xs[k]) == Success(ConvertAll(xs, f).value[k])
    ensures ConvertAll(xs, f).Failure? ==>
      exists k :: 0 <= k < |xs| && f(xs[k]) == Failure(ConvertAll(xs, f).error)
        && forall j :: 0 <= j < k ==> f(xs[j]).Success?
    decreases |xs|
  {
    if xs != [] {
      var n := |xs|;
      var prefix := xs[..n - 1];
      ConvertAllMeaning(prefix, f);
      assert forall k :: 0 <= k < n - 1 ==> prefix[k] == xs[k];
      if ConvertAll(prefix, f).Failure? {
        var k :| 0 <= k < n - 1 && f(prefix[k]) == Failure(ConvertAll(prefix, f).error)
          && forall j :: 0 <= j < k ==> f(prefix[j]).Success?;
        assert f(xs[k]) == Failure(ConvertAll(xs, f).error);
      } else if f(xs[n - 1]).Failure? {
        assert forall j :: 0 <= j < n - 1 ==> f(xs[j]).Success?;
      }
    }
  }

  lemma ConvertStep<A, B>(xs: seq<A>, f: A -> Result<B, Cause>, i: nat)
    requires i < |xs|
    ensures ConvertAll(xs[..i + 1], f) ==
      match ConvertAll(xs[..i], f)
      case Failure(e) => Failure(e)
      case Success(bs) =>
        match f(xs[i])
        case Failure(e) => Failure(e)
        case Success(b) => Success(bs + [b])
  {
    assert xs[..i + 1][..i] == xs[..i];
  }

  /** Once a prefix fails, the whole conversion fails with the same error. */
  lemma {:induction false} ConvertFailedPrefix<A, B>(xs: seq<A>, f: A -> Result<B, Cause>, i: nat)
    requires i <= |xs| && ConvertAll(xs[..i], f).Failure?
    ensures ConvertAll(xs, f) == ConvertAll(xs[..i], f)
    decreases |xs| - i
  {
    if i < |xs| {
      ConvertStep(xs, f, i);
      ConvertFailedPrefix(xs, f, i + 1);
    } else {
      assert xs[..i] == xs;
    }
  }

  /** A foreign `Convert` loop of `BulkTransfer`, front to back, stopping at the first error. */
  method ConvertEach<A, B>(xs: seq<A>, f: A -> Result<B, Cause>) returns (r: Result<seq<B>, Cause>)
    ensures r == ConvertAll(xs, f)
  {
    var out: seq<B> := [];
    for i := 0 to |xs|
      invariant ConvertAll(xs[..i], f) == Success(out)
    {
      ConvertStep(xs, f, i);
      var y := f(xs[i]);
      if y.Failure? {
        ConvertFailedPrefix(xs, f, i + 1);
        return Failure(y.error);
      }
      out := out + [y.value];
    }
    assert xs[..|xs|] == xs;
    r := Success(out);
  }

  datatype BulkError =
    | LengthMismatch(addresses: nat, amounts: nat)   // "addresses (%d) != amounts (%d)"
    | InvalidAmount(cause: Cause)                    // "invalid amount: ..."
    | InvalidAddress(cause: Cause)                   // "invalid address: ..."
    | SyncFailed(cause: Cause)                       // "unable to sync with electrum: ..."

  /** What is handed to `BulkSimpleTransfer`: the passphrase, the decoded addresses (opaque
      handles of `chainutil.Address`) and the amounts in the smallest unit. */
  datatype BulkRequest = BulkRequest(passphrase: string, addresses: seq<nat>, amounts: seq<int>)

  /** What `BulkTransfer` hands to the transfer, or the error it stops on: lengths first, then
      every amount, then every address, then the sync; the request carries the typed password
      when none was given, and its two lists are as long as the input lists. */
  function BulkOutcome(password: string, strAddresses: seq<string>, inAmounts: seq<real>,
                       newAmount: real -> Result<int, Cause>, decodeAddress: string -> Result<nat, Cause>,
                       typed: string, synchronize: Outcome): (r: Result<BulkRequest, BulkError>)
    ensures |strAddresses| != |inAmounts| ==> r == Failure(LengthMismatch(|strAddresses|, |inAmounts|))
    ensures r.Success? <==>
      |strAddresses| == |inAmounts| && ConvertAll(inAmounts, newAmount).Success?
      && ConvertAll(strAddresses, decodeAddress).Success? && synchronize.Ok?
    ensures r.Success? ==>
      r.value == BulkRequest(if |password| == 0 then typed else password,
                             ConvertAll(strAddresses, decodeAddress).value, ConvertAll(inAmounts, newAmount).value)
      && |r.value.addresses| == |r.value.amounts| == |strAddresses|
  {
    if |strAddresses| != |inAmounts| then Failure(LengthMismatch(|strAddresses|, |inAmounts|))
    else
      match ConvertAll(inAmounts, newAmount)
      case Failure(c) => Failure(InvalidAmount(c))
      case Success(amounts) =>
        match ConvertAll(strAddresses, decodeAddress)
        case Failure(c) => Failure(InvalidAddress(c))
        case Success(addresses) =>
          match synchronize
          case Fail(c) => Failure(SyncFailed(c))
          case Ok =>
            ConvertAllMeaning(inAmounts, newAmount);
            ConvertAllMeaning(strAddresses, decodeAddress);
            Success(BulkRequest(if |password| == 0 then typed else password, addresses, amounts))
  }

  /** `BulkTransfer` up to the transfer itself (lines 363-397): the lengths are compared before
      anything is converted; all amounts are converted before any address is decoded; an empty
      password is replaced by the one typed at the prompt; then the wallet is synchronised. */
  method BulkTransfer(password: string, strAddresses: seq<string>, inAmounts: seq<real>,
                      newAmount: real -> Result<int, Cause>, decodeAddress: string -> Result<nat, Cause>,
                      typed: string, synchronize: Outcome)
    returns (r: Result<BulkRequest, BulkError>)
    ensures r == BulkOutcome(password, strAddresses, inAmounts, newAmount, decodeAddress, typed, synchronize)
    ensures |strAddresses| != |inAmounts| ==> r == Failure(LengthMismatch(|strAddresses|, |inAmounts|))
    ensures |strAddresses| == |inAmounts| ==>
      match ConvertAll(inAmounts, newAmount)
      case Failure(c) => r == Failure(InvalidAmount(c))
      case Success(amounts) =>
        match ConvertAll(strAddresses, decodeAddress)
        case Failure(c) => r == Failure(InvalidAddress(c))
        case Success(addresses) =>
          match synchronize
          case Fail(c) => r == Failure(SyncFailed(c))
          case Ok => r == Success(BulkRequest(if |password| == 0 then typed else password, addresses, amounts))
  {
    if |strAddresses| != |inAmounts| {
      return Failure(LengthMismatch(|strAddresses|, |inAmounts|));
    }
    var amounts := ConvertEach(inAmounts, newAmount);
    if amounts.Failure? {
      return Failure(InvalidAmount(amounts.error));
    }
    var addresses := ConvertEach(strAddresses, decodeAddress);
    if addresses.Failure? {
      return Failure(InvalidAddress(addresses.error));
    }
    var privPass := if |password| == 0 then typed else password;
    if synchronize.Fail? {
      return Failure(SyncFailed(synchronize.cause));
    }
    r := Success(BulkRequest(privPass, addresses.value, amounts.value));
  }

  // ---------------------------------------------------------------------------
  // ListAccounts

  /** The lines `ListAccounts` prints for the addresses of one account. */
  datatype Line = NoAddresses | AddressCount(n: nat) | AddressLine(address: string) | MoreLine(n: nat)

  function AddressLines(addrs: seq<string>): (r: seq<Line>)
    ensures |r| == |addrs| && forall k :: 0 <= k < |addrs| ==> r[k] == AddressLine(addrs[k])
  {
    seq(|addrs|, k requires 0 <= k < |addrs| => AddressLine(addrs[k]))
  }

  /** The listing of one account's addresses (lines 70-81): the count, at most the first five
      addresses, then "...and N more" with N the number not shown. */
  function AddressListing(addrs: seq<string>): seq<Line> {
    if addrs == [] then [NoAddresses]
    else if |addrs| <= 5 then [AddressCount(|addrs|)] + AddressLines(addrs)
    else [AddressCount(|addrs|)] + AddressLines(addrs[..5]) + [MoreLine(|addrs| - 5)]
  }

  /** The address loop of `ListAccounts`, with its `break` at the sixth address. */
  method ListAddressLines(addrs: seq<string>) returns (lines: seq<Line>)
    ensures lines == AddressListing(addrs)
  {
    if |addrs| == 0 {
      return [NoAddresses];
    }
    lines := [AddressCount(|addrs|)];
    var i := 0;
    while i < |addrs|
      invariant 0 <= i <= |addrs| && i <= 5
      invariant lines == [AddressCount(|addrs|)] + AddressLines(addrs[..i])
    {
      if i >= 5 {
        lines := lines + [MoreLine(|addrs| - i)];
        break;
      }
      lines := lines + [AddressLine(addrs[i])];
      assert addrs[..i + 1] == addrs[..i] + [addrs[i]];
      i := i + 1;
    }
    assert i == |addrs| ==> addrs[..i] == addrs;
  }

  /** At most five addresses are shown, they are the first ones in order, and the shown ones
      plus the number announced as "more" account for every address. */
  lemma AddressListingBound(addrs: seq<string>)
    requires addrs != []
    ensures var lines := AddressListing(addrs);
      var shown := if |addrs| <= 5 then |addrs| else 5;
      var more := if |addrs| <= 5 then 0 else |addrs| - 5;
      lines[0] == AddressCount(|addrs|)
      && |lines| == 1 + shown + (if more > 0 then 1 else 0)
      && (forall k :: 0 <= k < shown ==> lines[1 + k] == AddressLine(addrs[k]))
      && (more > 0 ==> lines[|lines| - 1] == MoreLine(more))
      && shown + more == |addrs| && shown <= 5
  {
    var lines := AddressListing(addrs);
    if |addrs| <= 5 {
      var body := AddressLines(addrs);
      assert lines == [AddressCount(|addrs|)] + body;
      forall k | 0 <= k < |addrs| ensures lines[1 + k] == AddressLine(addrs[k]) {
        assert lines[1 + k] == body[k];
      }
    } else {
      var body := AddressLines(addrs[..5]);
      assert lines == [AddressCount(|addrs|)] + body + [MoreLine(|addrs| - 5)];
      forall k | 0 <= k < 5 ensures lines[1 + k] == AddressLine(addrs[k]) {
        assert lines[1 + k] == body[k];
      }
    }
  }

  // ---------------------------------------------------------------------------
  // Sync

  /** `IsUpToDate` inside `Sync` (lines 277-286): a failed read of the wallet's block counts
      as height 0. */
  function IsUpToDate(walletBlock: Result<int, Cause>, startupHeight: int): (r: bool)
    ensures walletBlock.Success? ==> (r <==> walletBlock.value >= startupHeight)
    ensures walletBlock.Failure? ==> (r <==> startupHeight <= 0)
  {
    var height := if walletBlock.Success? then walletBlock.value else 0;
    height >= startupHeight
  }

  /** Up to date means having reached the startup height; an unreadable block is judged as
      height 0; and once up to date, a higher block stays up to date. */
  lemma UpToDateMeaning(walletBlock: Result<int, Cause>, startupHeight: int, higher: int)
    ensures walletBlock.Success? ==> (IsUpToDate(walletBlock, startupHeight) <==> walletBlock.value >= startupHeight)
    ensures walletBlock.Failure? ==> IsUpToDate(walletBlock, startupHeight) == IsUpToDate(Success(0), startupHeight)
    ensures walletBlock.Success? && IsUpToDate(walletBlock, startupHeight) && higher >= walletBlock.value ==>
      IsUpToDate(Success(higher), startupHeight)
  {
  }
}
