/** The steps both bulk inserts share: entries trimmed, blanks dropped and the rest
    lower-cased; first occurrences kept (`[...new Set(list)]`); entries already in the
    table filtered out; the remainder cut into batches. */
module Bulk {
  import opened Wrappers
  import opened Text

  /** The number of rows one multi-row insert carries. */
  const BatchSize: nat := 500

  /** The set of entries of a list. */
  function Elems(s: seq<string>): set<string> {
    set x | x in s
  }

  lemma ElemsCons(x: string, s: seq<string>)
    ensures Elems([x] + s) == {x} + Elems(s)
  {
    assert forall y :: y in [x] + s <==> y == x || y in s;
  }

  lemma DistinctCons(x: string, s: seq<string>)
    requires Distinct(s) && x !in s
    ensures Distinct([x] + s)
  {
    var t := [x] + s;
    forall i, j | 0 <= i < j < |t| ensures t[i] != t[j] {
      assert t[j] == s[j - 1];
      if i > 0 {
        assert t[i] == s[i - 1];
      }
    }
  }

  /** No entry occurs twice. */
  predicate Distinct(s: seq<string>) {
    forall i, j :: 0 <= i < j < |s| ==> s[i] != s[j]
  }

  /** An entry as stored: trimmed, not blank, without upper-case letters. */
  predicate IsNormalized(e: string) {
    e != [] && Trim(e) == e && forall i :: 0 <= i < |e| ==> !IsAsciiUpper(e[i])
  }

  /** `list.filter(t => t && t.trim().length > 0).map(t => t.trim().toLowerCase())`. */
  function NormalizeEntries(list: seq<string>): (r: seq<string>)
    ensures |r| <= |list|
    ensures forall i :: 0 <= i < |r| ==> IsNormalized(r[i])
  {
    if list == [] then []
    else
      var t := Trim(list[0]);
      var rest := NormalizeEntries(list[1..]);
      if t == [] then rest
      else
        NormalizedEntry(list[0]);
        [Lower(t)] + rest
  }

  lemma NormalizedEntry(s: string)
    requires Trim(s) != []
    ensures IsNormalized(Lower(Trim(s)))
  {
    var t := Trim(s);
    var e := Lower(t);
    assert !IsJsWhitespace(e[0]) && !IsJsWhitespace(e[|e| - 1]);
    TrimOfTrimmed(e);
  }

  /** The input entry `s` is stored as `e`. */
  predicate NormalizesTo(s: string, e: string) {
    Trim(s) != [] && Lower(Trim(s)) == e
  }

  /** An entry survives normalization exactly when some input entry trims and lower-cases to it. */
  lemma {:induction false} NormalizeEntriesMembers(list: seq<string>, e: string)
    ensures e in NormalizeEntries(list) <==> exists i :: 0 <= i < |list| && NormalizesTo(list[i], e)
  {
    if list != [] {
      var rest := list[1..];
      NormalizeEntriesMembers(rest, e);
      if e in NormalizeEntries(list) {
        if NormalizesTo(list[0], e) {
        } else {
          assert e in NormalizeEntries(rest);
          var i :| 0 <= i < |rest| && NormalizesTo(rest[i], e);
          assert list[i + 1] == rest[i];
        }
      }
      if exists i :: 0 <= i < |list| && NormalizesTo(list[i], e) {
        var i :| 0 <= i < |list| && NormalizesTo(list[i], e);
        if i > 0 {
          assert rest[i - 1] == list[i];
        }
      }
    }
  }

  /** `[...new Set(list)]`: each entry once, at its first occurrence. */
  function Dedup(list: seq<string>): (r: seq<string>)
    ensures |r| <= |list|
    ensures Distinct(r)
    ensures Elems(r) == Elems(list)
    ensures list != [] ==> r != [] && r[0] == list[0]
    decreases |list|
  {
    if list == [] then []
    else
      var rest := Dedup(Without(list[1..], list[0]));
      WithoutElems(list[1..], list[0]);
      ElemsCons(list[0], rest);
      ElemsCons(list[0], list[1..]);
      assert list == [list[0]] + list[1..];
      DistinctCons(list[0], rest);
      [list[0]] + rest
  }

  /** The list with every copy of `x` removed. */
  function Without(list: seq<string>, x: string): (r: seq<string>)
    ensures |r| <= |list|
    ensures x !in r
  {
    if list == [] then []
    else if list[0] == x then Without(list[1..], x)
    else [list[0]] + Without(list[1..], x)
  }

  lemma {:induction false} WithoutElems(list: seq<string>, x: string)
    ensures Elems(Without(list, x)) == Elems(list) - {x}
  {
    if list != [] {
      WithoutElems(list[1..], x);
      assert list == [list[0]] + list[1..];
      ElemsCons(list[0], list[1..]);
      ElemsCons(list[0], Without(list[1..], x));
    }
  }

  /** A list without repetitions is its own de-duplication. */
  lemma {:induction false} DedupDistinct(list: seq<string>)
    requires Distinct(list)
    ensures Dedup(list) == list
    decreases |list|
  {
    if list != [] {
      WithoutAbsent(list[1..], list[0]);
      DedupDistinct(list[1..]);
    }
  }

  lemma {:induction false} WithoutAbsent(list: seq<string>, x: string)
    requires x !in list
    ensures Without(list, x) == list
  {
    if list != [] {
      WithoutAbsent(list[1..], x);
    }
  }

  /** `unique.filter(t => !existing.has(t))`. */
  function Fresh(unique: seq<string>, existing: set<string>): (r: seq<string>)
    ensures |r| <= |unique|
    ensures Elems(r) == Elems(unique) - existing
    ensures Distinct(unique) ==> Distinct(r)
  {
    if unique == [] then []
    else
      var rest := Fresh(unique[1..], existing);
      assert unique == [unique[0]] + unique[1..];
      ElemsCons(unique[0], unique[1..]);
      if unique[0] in existing then rest
      else
        ElemsCons(unique[0], rest);
        assert Distinct(unique) ==> unique[0] !in unique[1..];
        assert Distinct(unique) ==> Distinct(unique[1..]);
        if Distinct(unique) then DistinctCons(unique[0], rest); [unique[0]] + rest
        else [unique[0]] + rest
  }

  /** The entries of the list already in the table: those reported as duplicates. */
  function Stored(unique: seq<string>, existing: set<string>): (r: seq<string>)
    ensures Elems(r) == Elems(unique) * existing
  {
    if unique == [] then []
    else
      var rest := Stored(unique[1..], existing);
      assert unique == [unique[0]] + unique[1..];
      ElemsCons(unique[0], unique[1..]);
      if unique[0] in existing then ElemsCons(unique[0], rest); [unique[0]] + rest
      else rest
  }

  /** Every entry is either new or already stored, and is counted once. */
  lemma {:induction false} FreshCount(unique: seq<string>, existing: set<string>)
    ensures |Fresh(unique, existing)| + |Stored(unique, existing)| == |unique|
  {
    if unique != [] {
      FreshCount(unique[1..], existing);
    }
  }

  /** The list cut into consecutive batches of `size` entries, the last one possibly shorter. */
  function Chunks(list: seq<string>, size: nat): (r: seq<seq<string>>)
    requires size > 0
    ensures forall k :: 0 <= k < |r| ==> 1 <= |r[k]| <= size
    decreases |list|
  {
    if list == [] then []
    else if |list| <= size then [list]
    else [list[..size]] + Chunks(list[size..], size)
  }

  /** The batches one after another. */
  function Flatten(batches: seq<seq<string>>): seq<string> {
    if batches == [] then [] else batches[0] + Flatten(batches[1..])
  }

  lemma {:induction false} FlattenAppend(a: seq<seq<string>>, b: seq<seq<string>>)
    ensures Flatten(a + b) == Flatten(a) + Flatten(b)
  {
    if a != [] {
      assert (a + b)[0] == a[0];
      assert (a + b)[1..] == a[1..] + b;
      FlattenAppend(a[1..], b);
    } else {
      assert a + b == b;
    }
  }

  /** Cutting into batches loses, repeats and reorders nothing. */
  lemma {:induction false} ChunksFlatten(list: seq<string>, size: nat)
    requires size > 0
    ensures Flatten(Chunks(list, size)) == list
    decreases |list|
  {
    if |list| > size {
      ChunksFlatten(list[size..], size);
      assert list == list[..size] + list[size..];
    }
  }

  /** The counts a successful bulk insert reports for the normalized, de-duplicated entries. */
  datatype BulkCounts = BulkCounts(inserted: nat, duplicates: nat)

  /** What a successful bulk insert reports, given the table before it. */
  function Outcome(unique: seq<string>, existing: set<string>): (r: BulkCounts)
    requires Distinct(unique)
    ensures r.inserted + r.duplicates == |unique|
    ensures r.duplicates == |Stored(unique, existing)|
  {
    FreshCount(unique, existing);
    BulkCounts(|Fresh(unique, existing)|, |unique| - |Fresh(unique, existing)|)
  }

  /** Inserting the new entries leaves the table holding every entry of the list. */
  lemma FreshUnion(unique: seq<string>, existing: set<string>)
    ensures existing + Elems(Fresh(unique, existing)) == existing + Elems(unique)
  {
  }

  /** How far the batch loop gets when batch number `failing` (if any) raises an error. */
  function BatchesRun(newValues: seq<string>, failing: Option<nat>): (batches: seq<seq<string>>)
    ensures |batches| <= |Chunks(newValues, BatchSize)|
  {
    var chunks := Chunks(newValues, BatchSize);
    if failing.Some? && failing.value < |chunks| then chunks[..failing.value] else chunks
  }

  /** Whether batch number `failing` is one the loop reaches. */
  predicate BatchFails(newValues: seq<string>, failing: Option<nat>) {
    failing.Some? && failing.value < |Chunks(newValues, BatchSize)|
  }

  /** The batches the loop reaches only hold new entries. */
  lemma BatchesInside(newValues: seq<string>, failing: Option<nat>)
    ensures Elems(Flatten(BatchesRun(newValues, failing))) <= Elems(newValues)
  {
    var chunks := Chunks(newValues, BatchSize);
    ChunksFlatten(newValues, BatchSize);
    if failing.Some? && failing.value < |chunks| {
      var k := failing.value;
      assert chunks == chunks[..k] + chunks[k..];
      FlattenAppend(chunks[..k], chunks[k..]);
      ElemsAppend(Flatten(chunks[..k]), Flatten(chunks[k..]));
    }
  }

  /** Where the database raises an error during a bulk insert. */
  datatype Fault = NoFault | LookupFault | BatchFault(batch: nat)

  function FailingBatch(fault: Fault): Option<nat> {
    if fault.BatchFault? then Some(fault.batch) else None
  }

  /** The lookup of stored entries and the batch loop, for a non-empty list of distinct
      entries: the counts are reported, and `failed` tells whether a batch raised an error. */
  method InsertNew(table: Table, unique: seq<string>, failing: Option<nat>)
    returns (counts: BulkCounts, batches: seq<seq<string>>, failed: bool)
    requires Distinct(unique)
    modifies table
    ensures var newValues := Fresh(unique, old(table.rows));
            batches == BatchesRun(newValues, failing) &&
            (failed <==> BatchFails(newValues, failing)) &&
            (failed ==> table.rows == old(table.rows) + Elems(Flatten(batches))) &&
            (!failed ==> counts == Outcome(unique, old(table.rows)) && table.rows == old(table.rows) + Elems(unique))
    ensures forall k :: 0 <= k < |batches| ==> 1 <= |batches[k]| <= BatchSize
  {
    var existing := table.rows;
    var newValues := Fresh(unique, existing);
    var inserted;
    inserted, batches, failed := table.InsertInBatches(newValues, failing);
    FreshUnion(unique, existing);
    counts := BulkCounts(inserted, |unique| - |newValues|);
  }

  /** A table with a unique column, as the set of values it holds. */
  class Table {
    var rows: set<string>

    constructor(initial: set<string>)
      ensures rows == initial
    {
      rows := initial;
    }

    /** A one-row insert: refused (`ER_DUP_ENTRY`) when the value is present. */
    method InsertOne(value: string) returns (duplicate: bool)
      modifies this
      ensures duplicate <==> value in old(rows)
      ensures rows == old(rows) + {value}
    {
      duplicate := value in rows;
      if !duplicate {
        rows := rows + {value};
      }
    }

    /** The batch loop: `newValues` inserted `BatchSize` rows at a time, counting the rows
        inserted; an error in batch number `failing` ends the loop with the earlier
        batches stored. */
    method InsertInBatches(newValues: seq<string>, failing: Option<nat>)
      returns (inserted: nat, batches: seq<seq<string>>, failed: bool)
      modifies this
      ensures failed <==> BatchFails(newValues, failing)
      ensures batches == BatchesRun(newValues, failing)
      ensures !failed ==> Flatten(batches) == newValues && inserted == |newValues|
      ensures inserted == |Flatten(batches)|
      ensures rows == old(rows) + Elems(Flatten(batches))
    {
      ghost var chunks := Chunks(newValues, BatchSize);
      inserted := 0;
      batches := [];
      failed := false;
      var i := 0;
      while i < |newValues|
        invariant inserted <= |newValues|
        invariant i < |newValues| ==> inserted == i
        invariant i >= |newValues| ==> inserted == |newValues|
        invariant LoopState(newValues, inserted, batches, chunks)
        invariant failing.Some? ==> |batches| <= failing.value
        invariant rows == old(rows) + Elems(newValues[..inserted])
      {
        var end := if i + BatchSize <= |newValues| then i + BatchSize else |newValues|;
        var batch := newValues[i..end];
        ChunkStep(newValues, i, end);
        if failing == Some(|batches|) {
          failed := true;
          StoppedAtFailure(newValues, failing, inserted, batches);
          break;
        }
        rows := rows + Elems(batch);
        BatchDone(newValues, i, end, batches, chunks);
        batches := batches + [batch];
        inserted := inserted + |batch|;
        i := i + BatchSize;
      }
      if !failed {
        RanToEnd(newValues, failing, batches);
      }
    }
  }

  /** The loop stopped at the failing batch: the batches before it are the ones run. */
  lemma StoppedAtFailure(values: seq<string>, failing: Option<nat>, done: nat, batches: seq<seq<string>>)
    requires done < |values| && LoopState(values, done, batches, Chunks(values, BatchSize))
    requires failing == Some(|batches|)
    ensures BatchFails(values, failing) && batches == BatchesRun(values, failing)
    ensures done == |Flatten(batches)|
  {
    ChunksLength(batches, Chunks(values[done..], BatchSize), Chunks(values, BatchSize));
  }

  /** The loop went through every batch: all of them were run and no batch failed. */
  lemma RanToEnd(values: seq<string>, failing: Option<nat>, batches: seq<seq<string>>)
    requires LoopState(values, |values|, batches, Chunks(values, BatchSize))
    requires failing.Some? ==> |batches| <= failing.value
    ensures !BatchFails(values, failing) && batches == BatchesRun(values, failing)
    ensures Flatten(batches) == values
  {
    assert values[|values|..] == [];
    assert values[..|values|] == values;
  }

  /** The loop has stored the first `done` values as the first chunks. */
  predicate LoopState(values: seq<string>, done: nat, batches: seq<seq<string>>, chunks: seq<seq<string>>) {
    done <= |values| && batches + Chunks(values[done..], BatchSize) == chunks && Flatten(batches) == values[..done]
  }

  lemma ChunkStep(values: seq<string>, i: nat, end: nat)
    requires i < |values| && end == (if i + BatchSize <= |values| then i + BatchSize else |values|)
    ensures Chunks(values[i..], BatchSize) == [values[i..end]] + Chunks(values[end..], BatchSize)
  {
    if |values[i..]| <= BatchSize {
      assert end == |values| && values[i..end] == values[i..];
      assert values[end..] == [];
      assert Chunks(values[end..], BatchSize) == [];
    } else {
      assert values[i..][..BatchSize] == values[i..end];
      assert values[i..][BatchSize..] == values[end..];
    }
  }

  lemma BatchDone(values: seq<string>, i: nat, end: nat, batches: seq<seq<string>>, chunks: seq<seq<string>>)
    requires i < end <= |values|
    requires LoopState(values, i, batches, chunks)
    requires Chunks(values[i..], BatchSize) == [values[i..end]] + Chunks(values[end..], BatchSize)
    ensures LoopState(values, end, batches + [values[i..end]], chunks)
    ensures Elems(values[..end]) == Elems(values[..i]) + Elems(values[i..end])
  {
    var batch := values[i..end];
    assert values[..end] == values[..i] + batch;
    FlattenAppend(batches, [batch]);
    assert Flatten([batch]) == batch + Flatten([]);
    assert (batches + [batch]) + Chunks(values[end..], BatchSize) == batches + ([batch] + Chunks(values[end..], BatchSize));
    ElemsAppend(values[..i], batch);
  }

  lemma ElemsAppend(a: seq<string>, b: seq<string>)
    ensures Elems(a + b) == Elems(a) + Elems(b)
  {
  }

  lemma ChunksLength(done: seq<seq<string>>, rest: seq<seq<string>>, all: seq<seq<string>>)
    requires done + rest == all && rest != []
    ensures |done| < |all| && all[..|done|] == done
  {
  }
}
