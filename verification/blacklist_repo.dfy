/** The blacklist table: one-row insert with duplicate detection, and the bulk insert that
    normalizes, keeps only entries shaped like domain names, de-duplicates, skips stored
    domains and inserts the rest in batches. Database errors in the bulk insert are not
    caught: they reach the caller. The table is a set of domain strings; row ids and
    creation times are not modelled. */
module BlacklistRepo {
  import opened Wrappers
  import opened Text
  import opened Bulk

  datatype CreateBlacklistResult = Created(domain: string) | DuplicateDomain | UnknownError

  /** `createBlacklist`: the insert is refused for a domain already stored; any other
      database error (`connectionFails`) gives UNKNOWN_ERROR. */
  method CreateBlacklist(table: Table, domain: string, connectionFails: bool) returns (r: CreateBlacklistResult)
    modifies table
    ensures connectionFails ==> r == UnknownError && table.rows == old(table.rows)
    ensures !connectionFails && domain in old(table.rows) ==> r == DuplicateDomain && table.rows == old(table.rows)
    ensures !connectionFails && domain !in old(table.rows) ==> r == Created(domain) && table.rows == old(table.rows) + {domain}
  {
    if connectionFails {
      return UnknownError;
    }
    var duplicate := table.InsertOne(domain);
    if duplicate {
      r := DuplicateDomain;
    } else {
      r := Created(domain);
    }
  }

  // ---------------------------------------------------------------- the domain pattern

  /** `[a-zA-Z0-9]([a-zA-Z0-9.-]*[a-zA-Z0-9])?`: letters, digits, dots and hyphens,
      starting and ending with a letter or digit. */
  predicate NameHead(h: string) {
    |h| >= 1 && IsAlnum(h[0]) && IsAlnum(h[|h| - 1]) &&
    forall i :: 0 <= i < |h| ==> IsAlnum(h[i]) || h[i] == '.' || h[i] == '-'
  }

  /** `(\.[a-zA-Z]{2,})+`: one or more labels of at least two letters, each after a dot. */
  predicate LetterLabels(t: string) {
    |t| >= 3 && t[0] == '.' &&
    (forall i :: 0 <= i < |t| ==> t[i] == '.' || IsAsciiLetter(t[i])) &&
    (forall i :: 0 <= i < |t| && t[i] == '.' ==> i + 2 < |t| && IsAsciiLetter(t[i + 1]) && IsAsciiLetter(t[i + 2]))
  }

  /** The anchored test `^[a-zA-Z0-9]([a-zA-Z0-9.-]*[a-zA-Z0-9])?(\.[a-zA-Z]{2,})+$`:
      some split of the text into a head and letter labels. */
  predicate DomainPattern(d: string) {
    exists k :: 1 <= k < |d| && NameHead(d[..k]) && LetterLabels(d[k..])
  }

  /** The text ends with a dot followed by at least two letters and nothing else. */
  predicate EndsWithLetterLabel(d: string) {
    exists j :: 0 <= j && j + 3 <= |d| && d[j] == '.' && forall i :: j < i < |d| ==> IsAsciiLetter(d[i])
  }

  /** The last dot before position `n`. */
  function LastDot(t: string, n: nat): (j: nat)
    requires 1 <= n <= |t| && t[0] == '.'
    ensures j < n && t[j] == '.'
    ensures forall i :: j < i < n ==> t[i] != '.'
  {
    if t[n - 1] == '.' then n - 1 else LastDot(t, n - 1)
  }

  /** Every accepted domain starts with a letter or digit and ends with a label of two or
      more letters. */
  lemma DomainShape(d: string)
    requires DomainPattern(d)
    ensures IsAlnum(d[0]) && EndsWithLetterLabel(d)
  {
    var k :| 1 <= k < |d| && NameHead(d[..k]) && LetterLabels(d[k..]);
    assert d[..k][0] == d[0];
    var t := d[k..];
    var j := LastDot(t, |t|);
    assert d[k + j] == t[j];
    forall i | k + j < i < |d| ensures IsAsciiLetter(d[i]) {
      assert d[i] == t[i - k];
    }
  }

  // ---------------------------------------------------------------- bulk insert

  /** `list.filter(blank).map(trim, lower).filter(pattern)`. */
  function DomainEntries(list: seq<string>): (r: seq<string>)
    ensures forall i :: 0 <= i < |r| ==> IsNormalized(r[i]) && DomainPattern(r[i])
  {
    KeepDomains(NormalizeEntries(list))
  }

  function KeepDomains(entries: seq<string>): (r: seq<string>)
    requires forall i :: 0 <= i < |entries| ==> IsNormalized(entries[i])
    ensures forall i :: 0 <= i < |r| ==> IsNormalized(r[i]) && DomainPattern(r[i])
  {
    if entries == [] then []
    else
      var rest := KeepDomains(entries[1..]);
      if DomainPattern(entries[0]) then [entries[0]] + rest else rest
  }

  /** The filter keeps exactly the entries that match the pattern. */
  lemma {:induction false} KeepDomainsMembers(entries: seq<string>, e: string)
    requires forall i :: 0 <= i < |entries| ==> IsNormalized(entries[i])
    ensures e in KeepDomains(entries) <==> e in entries && DomainPattern(e)
  {
    if entries != [] {
      var head, rest := entries[0], entries[1..];
      KeepDomainsMembers(rest, e);
      assert e in entries <==> e == head || e in rest;
      if DomainPattern(head) {
        assert KeepDomains(entries) == [head] + KeepDomains(rest);
      } else {
        assert KeepDomains(entries) == KeepDomains(rest);
      }
    }
  }

  /** The domains `createBlacklists` works on: valid ones, first occurrences only. */
  function UniqueDomains(list: seq<string>): (r: seq<string>)
    ensures Distinct(r)
    ensures forall i :: 0 <= i < |r| ==> IsNormalized(r[i]) && DomainPattern(r[i])
    ensures forall e :: e in r <==> DomainPattern(e) && e in NormalizeEntries(list)
  {
    var valid := DomainEntries(list);
    var r := Dedup(valid);
    forall i | 0 <= i < |r| ensures IsNormalized(r[i]) && DomainPattern(r[i]) {
      assert r[i] in Elems(valid);
    }
    forall e ensures e in r <==> DomainPattern(e) && e in NormalizeEntries(list) {
      assert e in r <==> e in Elems(valid);
      KeepDomainsMembers(NormalizeEntries(list), e);
    }
    r
  }

  /** What `createBlacklists` does: it returns counts, or the database error propagates;
      either way the table holds what was inserted before. */
  datatype BulkRun = Returned(counts: BulkCounts, rows: set<string>) | Threw(rows: set<string>)

  predicate BlacklistsFail(list: seq<string>, existing: set<string>, fault: Fault) {
    UniqueDomains(list) != [] &&
    (fault == LookupFault || BatchFails(Fresh(UniqueDomains(list), existing), FailingBatch(fault)))
  }

  function CreateBlacklistsSpec(list: seq<string>, existing: set<string>, fault: Fault): (r: BulkRun)
    ensures existing <= r.rows <= existing + Elems(UniqueDomains(list))
    ensures r.Threw? <==> BlacklistsFail(list, existing, fault)
    ensures r.Returned? ==>
              r.counts.inserted + r.counts.duplicates == |UniqueDomains(list)| &&
              r.rows == existing + Elems(UniqueDomains(list))
  {
    var unique := UniqueDomains(list);
    if unique == [] then Returned(BulkCounts(0, 0), existing)
    else if fault == LookupFault then Threw(existing)
    else
      var newDomains := Fresh(unique, existing);
      var batches := BatchesRun(newDomains, FailingBatch(fault));
      if BatchFails(newDomains, FailingBatch(fault)) then
        BatchesInside(newDomains, FailingBatch(fault));
        Threw(existing + Elems(Flatten(batches)))
      else
        FreshUnion(unique, existing);
        Returned(Outcome(unique, existing), existing + Elems(unique))
  }

  /** `createBlacklists`. */
  method CreateBlacklists(table: Table, list: seq<string>, fault: Fault)
    returns (r: Option<BulkCounts>, batches: seq<seq<string>>)
    modifies table
    ensures var spec := CreateBlacklistsSpec(list, old(table.rows), fault);
            (r.None? <==> spec.Threw?) && (r.Some? ==> r.value == spec.counts) && table.rows == spec.rows
    ensures forall k :: 0 <= k < |batches| ==> 1 <= |batches[k]| <= BatchSize
  {
    batches := [];
    var unique := UniqueDomains(list);
    if |unique| == 0 {
      return Some(BulkCounts(0, 0)), batches;
    }
    if fault == LookupFault {
      return None, batches;
    }
    var counts, failed;
    counts, batches, failed := InsertNew(table, unique, FailingBatch(fault));
    r := if failed then None else Some(counts);
  }

  /** Every domain a bulk insert adds is trimmed, lower-case, matches the pattern and comes
      from a non-blank input entry. */
  lemma DomainsAddedValid(list: seq<string>, existing: set<string>, fault: Fault, domain: string)
    requires domain in CreateBlacklistsSpec(list, existing, fault).rows - existing
    ensures IsNormalized(domain) && DomainPattern(domain)
    ensures IsAlnum(domain[0]) && EndsWithLetterLabel(domain)
    ensures exists i :: 0 <= i < |list| && NormalizesTo(list[i], domain)
  {
    var unique := UniqueDomains(list);
    assert domain in Elems(unique);
    var i :| 0 <= i < |unique| && unique[i] == domain;
    DomainShape(domain);
    NormalizeEntriesMembers(list, domain);
  }
}
