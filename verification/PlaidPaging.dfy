/** The paging loop of src/finance_sync/connectors/plaid_like.py, against a stable
    ledger that is served by offset and count. */
module PlaidPaging {
  import opened Wrappers

  /** An element of a page: a JSON object, or something else. */
  datatype Value = Transaction(id: string) | Malformed(text: string)

  datatype Fault = HttpStatus(code: int) | TimedOut | RequestFailed | NotAList

  datatype Fetched = Fetched(values: seq<Value>) | Raised(fault: Fault)

  function WellFormed(ledger: seq<Value>): seq<Value> {
    if ledger == [] then []
    else
      var last := ledger[|ledger| - 1];
      WellFormed(ledger[..|ledger| - 1]) + (if last.Transaction? then [last] else [])
  }

  function Min(a: int, b: int): int {
    if a < b then a else b
  }

  function Take<T>(s: seq<T>, n: nat): seq<T> {
    if n < |s| then s[..n] else s
  }

  /** The page that the provider returns for an offset and a count. */
  function Serve(ledger: seq<Value>, offset: nat, count: nat): (page: seq<Value>)
    requires offset <= |ledger|
    ensures |page| == Min(count, |ledger| - offset)
  {
    ledger[offset..offset + Min(count, |ledger| - offset)]
  }

  lemma {:induction false} WellFormedAppend(a: seq<Value>, b: seq<Value>)
    ensures WellFormed(a + b) == WellFormed(a) + WellFormed(b)
    decreases |b|
  {
    if b == [] {
      assert a + b == a;
    } else {
      var init := b[..|b| - 1];
      assert (a + b)[..|a + b| - 1] == a + init;
      WellFormedAppend(a, init);
    }
  }

  /** Exactly the transactions are kept, each as often as the ledger holds it; their
      order is that of the ledger, piece by piece (`WellFormedAppend`). */
  lemma {:induction false} WellFormedIsExact(s: seq<Value>, v: Value)
    ensures multiset(WellFormed(s))[v] == if v.Transaction? then multiset(s)[v] else 0
    ensures v in WellFormed(s) <==> v in s && v.Transaction?
  {
    if s != [] {
      var init, last := s[..|s| - 1], s[|s| - 1];
      WellFormedIsExact(init, v);
      assert s == init + [last];
    }
  }

  lemma {:induction false} WellFormedShrinks(s: seq<Value>)
    ensures |WellFormed(s)| <= |s|
  {
    if s != [] { WellFormedShrinks(s[..|s| - 1]); }
  }

  lemma PrefixWellFormed(ledger: seq<Value>, n: nat)
    requires n <= |ledger|
    ensures WellFormed(ledger) == WellFormed(ledger[..n]) + WellFormed(ledger[n..])
  {
    hide WellFormed;
    WellFormedAppend(ledger[..n], ledger[n..]);
    assert ledger[..n] + ledger[n..] == ledger;
  }

  /** `min(max(limit or 100, 1), 500)` */
  function ClampLimit(limit: Option<int>): (n: nat)
    ensures 1 <= n <= 500
    ensures limit.Some? && 1 <= limit.value <= 500 ==> n == limit.value
    ensures limit == None || limit == Some(0) ==> n == 100
    ensures limit.Some? && limit.value > 500 ==> n == 500
    ensures limit.Some? && limit.value < 0 ==> n == 1
  {
    var asked := if limit.Some? && limit.value != 0 then limit.value else 100;
    Min(if asked < 1 then 1 else asked, 500)
  }

  /** The paging loop. It ends even if every page holds only malformed entries; it
      returns the first `limit` well-formed entries of the ledger in order, or the
      fault of the request that failed. */
  method FetchProduction(ledger: seq<Value>, faults: nat -> Option<Fault>, limit: nat)
    returns (r: Fetched, requests: nat)
    ensures requests <= |ledger| + 1
    ensures r.Fetched? ==> r.values == Take(WellFormed(ledger), limit) && forall i :: 0 <= i < requests ==> faults(i).None?
    ensures r.Raised? ==> requests > 0 && faults(requests - 1) == Some(r.fault)
                          && forall i :: 0 <= i < requests - 1 ==> faults(i).None?
  {
    hide WellFormed;
    var transactions, offset := [], 0;
    requests := 0;
    NothingYet(ledger);
    while |transactions| < limit
      invariant offset <= |ledger| && requests <= offset && |transactions| <= limit
      invariant transactions == WellFormed(ledger[..offset])
      invariant forall i :: 0 <= i < requests ==> faults(i).None?
      decreases |ledger| - offset
    {
      var pageSize := Min(500, limit - |transactions|);
      requests := requests + 1;
      if faults(requests - 1).Some? {
        return Raised(faults(requests - 1).value), requests;
      }
      var page := Serve(ledger, offset, pageSize);
      transactions := transactions + WellFormed(page);
      PageIsNext(ledger, offset, pageSize);
      if |page| < pageSize {
        r := Fetched(Take(transactions, limit));
        return;
      }
      offset := offset + |page|;
    }
    PrefixWellFormed(ledger, offset);
    r := Fetched(Take(transactions, limit));
  }

  lemma NothingYet(ledger: seq<Value>)
    ensures WellFormed(ledger[..0]) == []
  {
    assert ledger[..0] == [];
  }

  /** A page continues the part of the ledger read so far; a short page completes it. */
  lemma PageIsNext(ledger: seq<Value>, offset: nat, count: nat)
    requires offset <= |ledger|
    ensures var page := Serve(ledger, offset, count);
            && WellFormed(ledger[..offset]) + WellFormed(page) == WellFormed(ledger[..offset + |page|])
            && |WellFormed(page)| <= |page| <= count
            && (|page| < count ==> ledger[..offset + |page|] == ledger)
  {
    var page := Serve(ledger, offset, count);
    WellFormedAppend(ledger[..offset], page);
    WellFormedShrinks(page);
    assert ledger[..offset] + page == ledger[..offset + |page|];
  }

  /** `fetch_transactions` outside the sandbox: an empty range asks for nothing. */
  method FetchTransactions(ledger: seq<Value>, faults: nat -> Option<Fault>, limit: Option<int>, startsAfterToday: bool)
    returns (r: Fetched, requests: nat)
    ensures startsAfterToday ==> r == Fetched([]) && requests == 0
    ensures !startsAfterToday && r.Fetched? ==> r.values == Take(WellFormed(ledger), ClampLimit(limit))
    ensures r.Raised? ==> requests > 0 && faults(requests - 1) == Some(r.fault)
    ensures (forall i :: faults(i).None?) ==> r.Fetched?
  {
    if startsAfterToday {
      return Fetched([]), 0;
    }
    r, requests := FetchProduction(ledger, faults, ClampLimit(limit));
  }
}
