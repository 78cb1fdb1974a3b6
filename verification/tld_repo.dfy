/** The TLD registry table: one-row insert with duplicate detection, and the bulk insert
    that normalizes, de-duplicates, skips stored entries and inserts the rest in batches,
    reporting zero counts on any database error. The table is a set of TLD strings; row ids
    and creation times are not modelled. */
module TldRepo {
  import opened Wrappers
  import opened Bulk

  datatype CreateTldResult = Created(tld: string) | DuplicateTld | UnknownError

  /** `createTLD`: the insert is refused for a TLD already stored; any other database
      error (`connectionFails`) gives UNKNOWN_ERROR. */
  method CreateTld(table: Table, tld: string, connectionFails: bool) returns (r: CreateTldResult)
    modifies table
    ensures connectionFails ==> r == UnknownError && table.rows == old(table.rows)
    ensures !connectionFails && tld in old(table.rows) ==> r == DuplicateTld && table.rows == old(table.rows)
    ensures !connectionFails && tld !in old(table.rows) ==> r == Created(tld) && table.rows == old(table.rows) + {tld}
  {
    if connectionFails {
      return UnknownError;
    }
    var duplicate := table.InsertOne(tld);
    if duplicate {
      r := DuplicateTld;
    } else {
      r := Created(tld);
    }
  }

  /** The entries `createTLDs` works on: normalized, then first occurrences only. */
  function UniqueTlds(list: seq<string>): (r: seq<string>)
    ensures Distinct(r)
    ensures forall i :: 0 <= i < |r| ==> IsNormalized(r[i])
    ensures forall e :: e in r <==> exists i :: 0 <= i < |list| && NormalizesTo(list[i], e)
  {
    var normalized := NormalizeEntries(list);
    var r := Dedup(normalized);
    forall e ensures e in r <==> exists i :: 0 <= i < |list| && NormalizesTo(list[i], e) {
      assert e in r <==> e in Elems(normalized);
      NormalizeEntriesMembers(list, e);
    }
    forall i | 0 <= i < |r| ensures IsNormalized(r[i]) {
      assert r[i] in Elems(normalized);
    }
    r
  }

  /** Whether the bulk insert ends in its error handler. */
  predicate TldsFail(list: seq<string>, existing: set<string>, fault: Fault) {
    list != [] && UniqueTlds(list) != [] &&
    (fault == LookupFault || BatchFails(Fresh(UniqueTlds(list), existing), FailingBatch(fault)))
  }

  /** What `createTLDs` returns and what the table holds afterwards. */
  datatype BulkRun = BulkRun(counts: BulkCounts, rows: set<string>)

  function CreateTldsSpec(list: seq<string>, existing: set<string>, fault: Fault): (r: BulkRun)
    ensures existing <= r.rows <= existing + Elems(UniqueTlds(list))
    ensures TldsFail(list, existing, fault) ==> r.counts == BulkCounts(0, 0)
    ensures !TldsFail(list, existing, fault) ==>
              r.counts.inserted + r.counts.duplicates == |UniqueTlds(list)| &&
              r.rows == existing + Elems(UniqueTlds(list))
  {
    var unique := UniqueTlds(list);
    if list == [] || unique == [] then BulkRun(BulkCounts(0, 0), existing)
    else if fault == LookupFault then BulkRun(BulkCounts(0, 0), existing)
    else
      var newTlds := Fresh(unique, existing);
      var batches := BatchesRun(newTlds, FailingBatch(fault));
      if BatchFails(newTlds, FailingBatch(fault)) then
        BatchesInside(newTlds, FailingBatch(fault));
        BulkRun(BulkCounts(0, 0), existing + Elems(Flatten(batches)))
      else
        ChunksFlatten(newTlds, BatchSize);
        FreshUnion(unique, existing);
        BulkRun(Outcome(unique, existing), existing + Elems(unique))
  }

  /** `createTLDs`: counts on success, zero counts (with the batches already sent kept in
      the table) when the lookup or a batch insert fails. */
  method CreateTlds(table: Table, list: seq<string>, fault: Fault)
    returns (r: BulkCounts, batches: seq<seq<string>>)
    modifies table
    ensures r == CreateTldsSpec(list, old(table.rows), fault).counts
    ensures table.rows == CreateTldsSpec(list, old(table.rows), fault).rows
    ensures forall k :: 0 <= k < |batches| ==> 1 <= |batches[k]| <= BatchSize
  {
    batches := [];
    if |list| == 0 {
      return BulkCounts(0, 0), batches;
    }
    var unique := UniqueTlds(list);
    if |unique| == 0 || fault == LookupFault {
      return BulkCounts(0, 0), batches;
    }
    var failed;
    r, batches, failed := InsertNew(table, unique, FailingBatch(fault));
    if failed {
      r := BulkCounts(0, 0);
    }
  }

  /** Every TLD a bulk insert adds is the trimmed, lower-cased form of a non-blank input entry. */
  lemma TldsAddedNormalized(list: seq<string>, existing: set<string>, fault: Fault, tld: string)
    requires tld in CreateTldsSpec(list, existing, fault).rows - existing
    ensures IsNormalized(tld)
    ensures exists i :: 0 <= i < |list| && NormalizesTo(list[i], tld)
  {
    var unique := UniqueTlds(list);
    assert tld in Elems(unique);
    var i :| 0 <= i < |unique| && unique[i] == tld;
  }

  /** On success the counts split the distinct entries into new and stored ones, and exactly
      the new ones are counted as inserted. */
  lemma TldsSuccessCounts(list: seq<string>, existing: set<string>, fault: Fault)
    requires !TldsFail(list, existing, fault)
    ensures var r := CreateTldsSpec(list, existing, fault);
            r.counts.inserted == |Fresh(UniqueTlds(list), existing)| &&
            r.counts.duplicates == |Stored(UniqueTlds(list), existing)|
  {
  }

  /** A failure in any batch after some were sent still reports zero, yet the earlier
      batches stay in the table. */
  lemma TldsLaterBatchFails(list: seq<string>, existing: set<string>, k: nat)
    requires list != [] && UniqueTlds(list) != []
    requires 0 < k < |Chunks(Fresh(UniqueTlds(list), existing), BatchSize)|
    ensures var r := CreateTldsSpec(list, existing, BatchFault(k));
            r.counts == BulkCounts(0, 0) && r.rows != existing
  {
    var newTlds := Fresh(UniqueTlds(list), existing);
    var chunks := Chunks(newTlds, BatchSize);
    FirstBatchStored(chunks, k);
    BatchesInside(newTlds, Some(k));
    assert chunks[0][0] in Elems(newTlds);
  }

  lemma FirstBatchStored(chunks: seq<seq<string>>, k: nat)
    requires 0 < k <= |chunks| && chunks[0] != []
    ensures chunks[0][0] in Elems(Flatten(chunks[..k]))
  {
    assert chunks[..k][0] == chunks[0];
    assert Flatten(chunks[..k]) == chunks[0] + Flatten(chunks[..k][1..]);
  }
}
