/** The CSV connector's row and file loops (src/finance_sync/connectors/csv_import.py).
    Cells arrive already read: a date cell is blank, unreadable or an instant, and an
    amount cell is a decimal or not. */
module CsvImport {
  import opened Wrappers

  datatype DateCell = Blank | Unreadable | On(instant: int)

  datatype Row = Row(date: DateCell, amount: Option<real>, description: string)

  datatype CsvFile = CsvFile(name: string, rows: seq<Row>)

  datatype Txn = Txn(id: string, account: string, amount: real, occurredAt: int, description: string)

  /** A bad date is reported as a transient error; a bad amount is a decimal error
      that the handler does not catch. Either way nothing is returned. */
  datatype Problem = BadDate(file: string, row: nat) | BadAmount(file: string, row: nat)

  datatype Parsed = Parsed(txns: seq<Txn>) | Broken(problem: Problem)

  // ---- transaction ids ----

  function Digit(d: nat): char
    requires d < 10
  {
    "0123456789"[d]
  }

  function Decimal(n: nat): string {
    if n < 10 then [Digit(n)] else Decimal(n / 10) + [Digit(n % 10)]
  }

  function TxnId(name: string, row: nat): string {
    "csv_" + name + "_" + Decimal(row)
  }

  lemma {:induction false} DecimalHasNoUnderscore(n: nat)
    ensures |Decimal(n)| > 0 && forall i :: 0 <= i < |Decimal(n)| ==> Decimal(n)[i] != '_'
  {
    DigitsDiffer();
    if n >= 10 { DecimalHasNoUnderscore(n / 10); }
  }

  lemma DigitsDiffer()
    ensures forall d: nat :: d < 10 ==> Digit(d) != '_'
    ensures forall d: nat, e: nat :: d < 10 && e < 10 && Digit(d) == Digit(e) ==> d == e
  {
  }

  lemma {:induction false} DecimalIsInjective(m: nat, n: nat)
    requires Decimal(m) == Decimal(n)
    ensures m == n
  {
    DigitsDiffer();
    DecimalHasNoUnderscore(m / 10);
    DecimalHasNoUnderscore(n / 10);
    var s, t := Decimal(m), Decimal(n);
    assert s[|s| - 1] == Digit(m % 10) && t[|t| - 1] == Digit(n % 10);
    if m >= 10 && n >= 10 {
      assert s[..|s| - 1] == Decimal(m / 10) && t[..|t| - 1] == Decimal(n / 10);
      DecimalIsInjective(m / 10, n / 10);
    }
  }

  /** No two rows of differently named files share a transaction id. */
  lemma TxnIdIsInjective(a: string, m: nat, b: string, n: nat)
    requires TxnId(a, m) == TxnId(b, n)
    ensures a == b && m == n
  {
    hide Decimal;
    var x, y, s := Decimal(m), Decimal(n), TxnId(a, m);
    DecimalHasNoUnderscore(m);
    DecimalHasNoUnderscore(n);
    assert s[|s| - |x|..] == x && s[|s| - |y|..] == y;
    assert s[|s| - |x| - 1] == '_' && s[|s| - |y| - 1] == '_';
    DecimalIsInjective(m, n);
    assert s[4..|s| - |x| - 1] == a && s[4..|s| - |x| - 1] == b;
  }

  // ---- one file ----

  function Account(f: CsvFile): string {
    "csv_" + f.name
  }

  function TxnOf(f: CsvFile, i: nat): Txn
    requires i < |f.rows| && f.rows[i].date.On? && f.rows[i].amount.Some?
  {
    Txn(TxnId(f.name, i + 1), Account(f), f.rows[i].amount.value, f.rows[i].date.instant, f.rows[i].description)
  }

  /** What the first `n` rows give: blank and early rows are skipped before their
      amounts are read, and the first bad cell ends it. Rows are numbered from one. */
  function ParseRows(f: CsvFile, n: nat, since: int): Parsed
    requires n <= |f.rows|
  {
    if n == 0 then Parsed([])
    else
      var before, row := ParseRows(f, n - 1, since), f.rows[n - 1];
      if before.Broken? || row.date.Blank? then before
      else if row.date.Unreadable? then Broken(BadDate(f.name, n))
      else if row.date.instant < since then before
      else if row.amount.None? then Broken(BadAmount(f.name, n))
      else Parsed(before.txns + [TxnOf(f, n - 1)])
  }

  function ParseFile(f: CsvFile, since: int): Parsed {
    ParseRows(f, |f.rows|, since)
  }

  lemma {:induction false} BrokenStays(f: CsvFile, m: nat, n: nat, since: int)
    requires m <= n <= |f.rows| && ParseRows(f, m, since).Broken?
    ensures ParseRows(f, n, since) == ParseRows(f, m, since)
    decreases n
  {
    if m < n { BrokenStays(f, m, n - 1, since); }
  }

  /** The row loop of `_parse_csv`. */
  method ParseCsv(f: CsvFile, since: int) returns (r: Parsed)
    ensures r == ParseFile(f, since)
  {
    var transactions := [];
    for i := 0 to |f.rows|
      invariant ParseRows(f, i, since) == Parsed(transactions)
    {
      var row := f.rows[i];
      if row.date.Blank? { continue; }
      if row.date.Unreadable? {
        BrokenStays(f, i + 1, |f.rows|, since);
        return Broken(BadDate(f.name, i + 1));
      }
      if row.date.instant < since { continue; }
      if row.amount.None? {
        BrokenStays(f, i + 1, |f.rows|, since);
        return Broken(BadAmount(f.name, i + 1));
      }
      transactions := transactions + [TxnOf(f, i)];
    }
    r := Parsed(transactions);
  }

  // ---- what a parsed file says of its rows ----

  /** The transaction says what row number `n` says, under an id made of the file name and
      the number, for the account of the file. */
  ghost predicate Says(t: Txn, f: CsvFile, n: nat)
    requires 1 <= n <= |f.rows|
  {
    var row := f.rows[n - 1];
    && t.id == "csv_" + f.name + "_" + Decimal(n) && t.account == "csv_" + f.name
    && row.date == On(t.occurredAt) && row.amount == Some(t.amount) && row.description == t.description
  }

  /** A row without a date, or dated before `since`. */
  ghost predicate Skipped(row: Row, since: int) {
    row.date.Blank? || (row.date.On? && row.date.instant < since)
  }

  /** `numbers` lists the rows among the first `n` that are not skipped, in order. */
  ghost predicate Numbers(numbers: seq<nat>, f: CsvFile, n: nat, since: int)
    requires n <= |f.rows|
  {
    && (forall i :: 0 <= i < |numbers| ==> 1 <= numbers[i] <= n)
    && (forall i, j :: 0 <= i < j < |numbers| ==> numbers[i] < numbers[j])
    && (forall k | 1 <= k <= n :: k in numbers <==> !Skipped(f.rows[k - 1], since))
  }

  /** A parsed file gives one transaction for every row that is not skipped, in order, and
      each says what its row says. */
  lemma {:induction false} TransactionsAreRows(f: CsvFile, n: nat, since: int) returns (numbers: seq<nat>)
    requires n <= |f.rows| && ParseRows(f, n, since).Parsed?
    ensures var txns := ParseRows(f, n, since).txns;
            && Numbers(numbers, f, n, since) && |numbers| == |txns|
            && forall i :: 0 <= i < |txns| ==> Says(txns[i], f, numbers[i]) && txns[i].occurredAt >= since
  {
    hide Decimal;
    if n == 0 {
      numbers := [];
    } else {
      var before := TransactionsAreRows(f, n - 1, since);
      numbers := if Skipped(f.rows[n - 1], since) then before else before + [n];
    }
  }

  /** A broken file: the first row that is not skipped and has a bad date, or a good date
      and a bad amount, is the one reported. */
  lemma {:induction false} ProblemIsFirst(f: CsvFile, n: nat, since: int) returns (k: nat)
    requires n <= |f.rows| && ParseRows(f, n, since).Broken?
    ensures 1 <= k <= n && ParseRows(f, k - 1, since).Parsed? && !Skipped(f.rows[k - 1], since)
    ensures var row, problem := f.rows[k - 1], ParseRows(f, n, since).problem;
            || (row.date.Unreadable? && problem == BadDate(f.name, k))
            || (row.date.On? && row.amount.None? && problem == BadAmount(f.name, k))
  {
    if ParseRows(f, n - 1, since).Broken? {
      k := ProblemIsFirst(f, n - 1, since);
    } else {
      k := n;
    }
  }

  function From(txns: seq<Txn>, since: int): seq<Txn> {
    if txns == [] then []
    else
      var last := txns[|txns| - 1];
      From(txns[..|txns| - 1], since) + (if last.occurredAt >= since then [last] else [])
  }

  /** Raising `since` only removes rows: the rest keep their ids and order. */
  lemma {:induction false} RaisingSinceOnlyRemoves(f: CsvFile, n: nat, since: int, later: int)
    requires n <= |f.rows| && since <= later && ParseRows(f, n, since).Parsed?
    ensures ParseRows(f, n, later) == Parsed(From(ParseRows(f, n, since).txns, later))
  {
    if n > 0 {
      RaisingSinceOnlyRemoves(f, n - 1, since, later);
      var before, now := ParseRows(f, n - 1, since).txns, ParseRows(f, n, since).txns;
      if now != before {
        assert now[..|now| - 1] == before && now[|now| - 1] == TxnOf(f, n - 1);
      }
    }
  }

  ghost predicate DistinctIds(txns: seq<Txn>) {
    forall i, j :: 0 <= i < j < |txns| ==> txns[i].id != txns[j].id
  }

  /** Every transaction of a file carries the id of a row of that file, and no two the same. */
  lemma {:induction false} IdsOfOneFile(f: CsvFile, n: nat, since: int)
    requires n <= |f.rows| && ParseRows(f, n, since).Parsed?
    ensures var txns := ParseRows(f, n, since).txns;
            DistinctIds(txns) && forall t :: t in txns ==> exists k :: 1 <= k <= n && t.id == TxnId(f.name, k)
  {
    hide TxnId;
    if n > 0 {
      IdsOfOneFile(f, n - 1, since);
      var before, now := ParseRows(f, n - 1, since).txns, ParseRows(f, n, since).txns;
      if now != before {
        forall i | 0 <= i < |before| ensures now[i].id != TxnId(f.name, n) {
          var k :| 1 <= k <= n - 1 && before[i].id == TxnId(f.name, k);
          if TxnId(f.name, k) == TxnId(f.name, n) { TxnIdIsInjective(f.name, k, f.name, n); }
        }
      }
    }
  }

  // ---- several files ----

  ghost predicate AllParse(files: seq<CsvFile>, n: nat, since: int)
    requires n <= |files|
  {
    forall i :: 0 <= i < n ==> ParseFile(files[i], since).Parsed?
  }

  ghost function Concat(files: seq<CsvFile>, n: nat, since: int): seq<Txn>
    requires n <= |files| && AllParse(files, n, since)
  {
    if n == 0 then [] else Concat(files, n - 1, since) + ParseFile(files[n - 1], since).txns
  }

  /** `s[:n]`: a negative end counts from the other side. */
  function Slice<T>(s: seq<T>, n: int): seq<T> {
    if n >= |s| then s else if n >= 0 then s[..n] else if |s| + n >= 0 then s[..|s| + n] else []
  }

  predicate Truthy(limit: Option<int>) {
    limit.Some? && limit.value != 0
  }

  lemma {:induction false} ConcatGrows(files: seq<CsvFile>, m: nat, n: nat, since: int)
    requires m <= n <= |files| && AllParse(files, n, since)
    ensures Concat(files, m, since) <= Concat(files, n, since)
    decreases n
  {
    hide ParseFile;
    if m < n { ConcatGrows(files, m, n - 1, since); }
  }

  /** The fetch from file `i` on, with the rows `all` already read. */
  function ReadOn(files: seq<CsvFile>, i: nat, all: seq<Txn>, since: int, limit: Option<int>): Parsed
    requires i <= |files|
    decreases |files| - i
  {
    if i == |files| then Parsed(if Truthy(limit) then Slice(all, limit.value) else all)
    else
      var parsed := ParseFile(files[i], since);
      if parsed.Broken? then parsed
      else if Truthy(limit) && |all + parsed.txns| >= limit.value then
        Parsed(Slice(Slice(all + parsed.txns, limit.value), limit.value))
      else ReadOn(files, i + 1, all + parsed.txns, since, limit)
  }

  /** The file loop of `fetch_transactions`, which stops reading once it has enough. */
  method FetchTransactions(files: seq<CsvFile>, since: int, limit: Option<int>) returns (r: Parsed)
    ensures r == ReadOn(files, 0, [], since, limit)
  {
    hide ParseFile;
    var all: seq<Txn> := [];
    for i := 0 to |files|
      invariant ReadOn(files, 0, [], since, limit) == ReadOn(files, i, all, since, limit)
    {
      var parsed := ParseCsv(files[i], since);
      if parsed.Broken? { return parsed; }
      all := all + parsed.txns;
      if Truthy(limit) && |all| >= limit.value {
        all := Slice(all, limit.value);
        r := Parsed(Slice(all, limit.value));
        return;
      }
    }
    r := Parsed(if Truthy(limit) then Slice(all, limit.value) else all);
  }

  /** Not enough rows in the first `i` files to stop there. */
  ghost predicate Short(files: seq<CsvFile>, i: nat, since: int, limit: Option<int>)
    requires i <= |files| && AllParse(files, i, since)
  {
    Truthy(limit) ==> |Concat(files, i, since)| < limit.value
  }

  /** A run of files that parse and do not fill the limit is read to its end. */
  lemma {:induction false} ReadsPastShortFiles(files: seq<CsvFile>, i: nat, since: int, limit: Option<int>)
    requires i <= |files| && AllParse(files, i, since) && Short(files, i, since, limit)
    ensures ReadOn(files, 0, [], since, limit) == ReadOn(files, i, Concat(files, i, since), since, limit)
  {
    hide ParseFile, Slice;
    if i > 0 {
      ConcatGrows(files, i - 1, i, since);
      ReadsPastShortFiles(files, i - 1, since, limit);
    }
  }

  /** If every file parses, stopping early makes no difference, so that the result is the
      slice of all the rows: exactly when the limit is not negative or leaves no row. */
  lemma EarlyStopIsExact(files: seq<CsvFile>, since: int, limit: Option<int>)
    requires AllParse(files, |files|, since)
    ensures var all := Concat(files, |files|, since);
            ReadOn(files, 0, [], since, limit) == Parsed(if Truthy(limit) then Slice(all, limit.value) else all)
            <==> (limit.Some? ==> limit.value >= 0 || limit.value + |all| <= 0)
  {
    hide ParseFile;
    if limit.Some? && limit.value < 0 {
      if files != [] {
        NegativeLimitCutsTwice(files, since, limit.value);
        FirstFileIsPart(files, since);
      }
    } else if Short(files, |files|, since, limit) {
      ReadsPastShortFiles(files, |files|, since, limit);
    } else {
      StopsWhenFull(files, |files|, since, limit.value);
    }
  }

  lemma FirstFileIsPart(files: seq<CsvFile>, since: int)
    requires files != [] && AllParse(files, |files|, since)
    ensures |ParseFile(files[0], since).txns| <= |Concat(files, |files|, since)|
  {
    hide ParseFile;
    ConcatGrows(files, 1, |files|, since);
    assert Concat(files, 1, since) == Concat(files, 0, since) + ParseFile(files[0], since).txns;
  }

  /** Files after the limit is filled are never opened: what they hold, parsable or
      not, does not matter. */
  lemma {:induction false} StopsWhenFull(files: seq<CsvFile>, k: nat, since: int, limit: int)
    requires k <= |files| && AllParse(files, k, since) && limit > 0 && |Concat(files, k, since)| >= limit
    ensures ReadOn(files, 0, [], since, Some(limit)) == Parsed(Slice(Concat(files, k, since), limit))
  {
    hide ParseFile;
    assert k > 0;
    ConcatGrows(files, k - 1, k, since);
    if |Concat(files, k - 1, since)| >= limit {
      StopsWhenFull(files, k - 1, since, limit);
    } else {
      ReadsPastShortFiles(files, k - 1, since, Some(limit));
    }
  }

  /** A file that is reached before the limit is filled and does not parse ends the fetch. */
  lemma ReachedProblemIsRaised(files: seq<CsvFile>, k: nat, since: int, limit: Option<int>)
    requires k < |files| && AllParse(files, k, since) && Short(files, k, since, limit)
    requires ParseFile(files[k], since).Broken?
    ensures ReadOn(files, 0, [], since, limit) == ParseFile(files[k], since)
  {
    hide ParseFile;
    ReadsPastShortFiles(files, k, since, limit);
  }

  /** A negative limit reads one file and cuts its rows from the end, twice. */
  lemma NegativeLimitCutsTwice(files: seq<CsvFile>, since: int, limit: int)
    requires limit < 0 && files != [] && ParseFile(files[0], since).Parsed?
    ensures ReadOn(files, 0, [], since, Some(limit))
         == Parsed(Slice(Slice(ParseFile(files[0], since).txns, limit), limit))
  {
    hide ParseFile;
    var txns := ParseFile(files[0], since).txns;
    assert [] + txns == txns;
  }

  /** Across a directory, whose file names are distinct, all ids are distinct. */
  lemma {:induction false} DirectoryIdsAreDistinct(files: seq<CsvFile>, n: nat, since: int)
    requires n <= |files| && AllParse(files, n, since)
    requires forall i, j :: 0 <= i < j < |files| ==> files[i].name != files[j].name
    ensures DistinctIds(Concat(files, n, since))
    ensures forall t :: t in Concat(files, n, since) ==> exists i, k :: 0 <= i < n && t.id == TxnId(files[i].name, k)
  {
    hide ParseRows, TxnId;
    if n > 0 {
      DirectoryIdsAreDistinct(files, n - 1, since);
      var f := files[n - 1];
      IdsOfOneFile(f, |f.rows|, since);
      var before, own := Concat(files, n - 1, since), ParseFile(f, since).txns;
      forall s, t | s in before && t in own ensures s.id != t.id {
        var i, k :| 0 <= i < n - 1 && s.id == TxnId(files[i].name, k);
        var m :| 1 <= m <= |f.rows| && t.id == TxnId(f.name, m);
        if s.id == t.id { TxnIdIsInjective(files[i].name, k, f.name, m); }
      }
    }
  }
}
