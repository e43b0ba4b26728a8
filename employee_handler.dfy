/**
 * The employee handlers (backend/internal/handlers/employee.go): query-string
 * normalisation for the list, the sort whitelist, the dynamic WHERE and SET
 * builders, the document-status CASE and its filter, and the CSV escaping of
 * the export.
 */
module EmployeeHandler {
  import opened Wrappers
  import opened Text
  import opened Sql
  import opened DocumentModel
  import opened EmployeeModel

  // ── CSV ──────────────────────────────────────────────────────────────

  /** `csvEscape`: quote the value, doubling its quotes, when it holds a comma or a quote. */
  function CsvEscape(s: string): (r: string)
    ensures ',' !in s && '"' !in s ==> r == s
    ensures ',' in s || '"' in s ==> |r| >= 2 && r[0] == '"' && r[|r| - 1] == '"'
  {
    if ',' in s || '"' in s then "\"" + ReplaceChar(s, '"', "\"\"") + "\"" else s
  }

  /** Reading a quoted field's interior: each `""` stands for one `"`. */
  function CollapseQuotes(t: string): string
    decreases |t|
  {
    if t == [] then []
    else if |t| >= 2 && t[0] == '"' && t[1] == '"' then "\"" + CollapseQuotes(t[2..])
    else [t[0]] + CollapseQuotes(t[1..])
  }

  /** How a CSV reader recovers a field: strip enclosing quotes and undouble the inner ones. */
  function CsvUnescape(f: string): string {
    if |f| >= 2 && f[0] == '"' && f[|f| - 1] == '"' then CollapseQuotes(f[1..|f| - 1]) else f
  }

  /** A quoted field's interior in which every quote is doubled. */
  predicate EscapedInterior(t: string)
    decreases |t|
  {
    t == [] ||
    (t[0] != '"' && EscapedInterior(t[1..])) ||
    (|t| >= 2 && t[0] == '"' && t[1] == '"' && EscapedInterior(t[2..]))
  }

  /** A field as section 2 of RFC 4180 allows it: plain text without separators, or quoted and escaped. */
  predicate Rfc4180Field(f: string) {
    (',' !in f && '"' !in f && '\n' !in f && '\r' !in f) ||
    (|f| >= 2 && f[0] == '"' && f[|f| - 1] == '"' && EscapedInterior(f[1..|f| - 1]))
  }

  lemma {:induction false} CollapseUndoesDoubling(s: string)
    ensures CollapseQuotes(ReplaceChar(s, '"', "\"\"")) == s
    ensures EscapedInterior(ReplaceChar(s, '"', "\"\""))
    decreases |s|
  {
    if s != [] {
      CollapseUndoesDoubling(s[1..]);
      var rest := ReplaceChar(s[1..], '"', "\"\"");
      if s[0] == '"' {
        assert ReplaceChar(s, '"', "\"\"") == "\"\"" + rest;
        assert ("\"\"" + rest)[2..] == rest;
      } else {
        assert ReplaceChar(s, '"', "\"\"") == [s[0]] + rest;
        assert ([s[0]] + rest)[1..] == rest;
      }
      assert s == [s[0]] + s[1..];
    }
  }

  /** Stripping the outer quotes and collapsing `""` recovers every escaped value. */
  lemma CsvRoundTrip(s: string)
    ensures CsvUnescape(CsvEscape(s)) == s
  {
    if ',' in s || '"' in s {
      CollapseUndoesDoubling(s);
      var inner := ReplaceChar(s, '"', "\"\"");
      assert ("\"" + inner + "\"")[1..|inner| + 1] == inner;
    }
  }

  /**
   * The escape yields an RFC 4180 field except for one class of values: those
   * holding a line break but no comma and no quote, which go out unquoted.
   */
  lemma CsvEscapeConformance(s: string)
    ensures Rfc4180Field(CsvEscape(s)) <==> !(',' !in s && '"' !in s && ('\n' in s || '\r' in s))
  {
    if ',' in s || '"' in s {
      CollapseUndoesDoubling(s);
      var inner := ReplaceChar(s, '"', "\"\"");
      assert ("\"" + inner + "\"")[1..|inner| + 1] == inner;
    }
  }

  // ── Helpers ──────────────────────────────────────────────────────────

  /** `nilIfEmpty`: an empty text is stored as NULL. */
  function NilIfEmpty(s: string): (r: Option<string>)
    ensures r.None? <==> s == ""
    ensures r.GetOr("") == s
  {
    if s == "" then None else Some(s)
  }

  // ── Pagination ───────────────────────────────────────────────────────

  const MaxInt64: int := 0x7fff_ffff_ffff_ffff
  const MinInt64: int := -0x8000_0000_0000_0000
  const TwoTo64: int := 0x1_0000_0000_0000_0000

  const DefaultLimit: int := 20
  const MaxLimit: int := 100

  /** Decimal text with an optional sign, the syntax `strconv.Atoi` accepts. */
  predicate IsSignedDecimal(s: string) {
    (|s| >= 1 && AllDigits(s)) || (|s| >= 2 && (s[0] == '+' || s[0] == '-') && AllDigits(s[1..]))
  }

  function Clamp64(x: int): int {
    if x > MaxInt64 then MaxInt64 else if x < MinInt64 then MinInt64 else x
  }

  // ── strconv.Atoi ─────────────────────────────────────────────────────

  const MaxUint64: int := 0xffff_ffff_ffff_ffff

  /** The text after an optional leading `+` or `-`. */
  function Unsigned(s: string): (rest: string)
    ensures |rest| <= |s|
  {
    if |s| > 0 && (s[0] == '+' || s[0] == '-') then s[1..] else s
  }

  /**
   * What `strconv.Atoi` reads, stated on the text: the sign and the leading
   * digits. Digits followed by any other byte read as 0, unless the digits
   * alone already exceed 2^64 - 1; then the digit loop stops with a range
   * error before it meets that byte, and the value is clamped to the 64-bit
   * range like any other number too large for it.
   */
  function AtoiReading(s: string): int {
    var rest := Unsigned(s);
    var k := LeadingDigits(rest);
    var v := DigitsValue(rest[..k]);
    if k == |rest| || v > MaxUint64 then Clamp64(if |s| > 0 && s[0] == '-' then 0 - v else v) else 0
  }

  /** Where `strconv.ParseUint(s, 10, 64)`'s digit loop stands after a prefix of its input. */
  datatype UintScan = Digits(n: nat) | OutOfRange | BadSyntax

  /**
   * The digit loop of `strconv.ParseUint(s, 10, 64)`, byte by byte: a
   * non-digit stops it with a syntax error; a digit that would take the
   * value past 2^64 - 1 stops it with a range error, whatever follows.
   */
  function ScanUint(s: string): UintScan
    decreases |s|
  {
    if s == [] then Digits(0)
    else
      match ScanUint(s[..|s| - 1])
      case Digits(n) =>
        var c := s[|s| - 1];
        if !IsDigit(c) then BadSyntax
        else if n * 10 + (c as int - '0' as int) > MaxUint64 then OutOfRange
        else Digits(n * 10 + (c as int - '0' as int))
      case OutOfRange => OutOfRange
      case BadSyntax => BadSyntax
  }

  /** The loop stops on the first non-digit, or earlier on overflow of the digits before it. */
  lemma {:induction false} ScanUintReadsDigitPrefix(s: string)
    ensures var k := LeadingDigits(s);
      ScanUint(s) ==
        if DigitsValue(s[..k]) > MaxUint64 then OutOfRange
        else if k < |s| then BadSyntax
        else Digits(DigitsValue(s))
    decreases |s|
  {
    if s != [] {
      var p, c := s[..|s| - 1], s[|s| - 1];
      ScanUintReadsDigitPrefix(p);
      var kp, k := LeadingDigits(p), LeadingDigits(s);
      assert p[..kp] == s[..kp];
      assert forall i :: 0 <= i < |p| ==> s[i] == p[i];
      if kp == |p| {
        assert p[..kp] == p;
        if IsDigit(c) {
          assert k == |s|;
          assert s[..k] == s;
        } else {
          assert k == |p|;
        }
      } else {
        assert k == kp;
      }
    }
  }

  /** `strconv.ParseInt(s, 10, 64)`'s value with the error dropped: sign, digit loop, clamp. */
  function ParseInt64(s: string): int {
    if s == [] then 0
    else
      var neg := s[0] == '-';
      var rest := Unsigned(s);
      if rest == [] then 0
      else
        match ScanUint(rest)
        case BadSyntax => 0
        case OutOfRange => if neg then MinInt64 else MaxInt64
        case Digits(n) =>
          if !neg && n >= 0x8000_0000_0000_0000 then MaxInt64
          else if neg && n > 0x8000_0000_0000_0000 then MinInt64
          else if neg then 0 - n else n
  }

  lemma ParseIntReading(s: string)
    ensures ParseInt64(s) == AtoiReading(s)
  {
    var rest := Unsigned(s);
    if rest != [] {
      ScanUintReadsDigitPrefix(rest);
      if LeadingDigits(rest) == |rest| {
        assert rest[..|rest|] == rest;
      }
    }
  }

  /** Atoi's fast path for texts of 1 to 18 bytes: every byte after the sign must be a digit. */
  function AtoiFast(s: string): int
    requires 0 < |s| < 19
  {
    var rest := Unsigned(s);
    if rest == [] || !AllDigits(rest) then 0
    else if s[0] == '-' then 0 - DigitsValue(rest) else DigitsValue(rest)
  }

  /** Fewer than 19 bytes cannot overflow, so the fast path reads what the slow path would. */
  lemma FastPathReading(s: string)
    requires 0 < |s| < 19
    ensures AtoiFast(s) == AtoiReading(s)
  {
    var rest := Unsigned(s);
    var k := LeadingDigits(rest);
    DigitsValueBelow(rest[..k]);
    Pow10Monotone(k, 18);
    Pow10Eighteen();
    if AllDigits(rest) {
      assert rest[..k] == rest;
    }
  }

  /**
   * `strconv.Atoi(s)` with its error discarded: the fast path below 19
   * bytes, `strconv.ParseInt` otherwise. A syntax error gives 0 and a range
   * error the nearest 64-bit bound.
   */
  function Atoi(s: string): (n: int)
    ensures MinInt64 <= n <= MaxInt64
    ensures n == AtoiReading(s)
  {
    if 0 < |s| < 19 then
      FastPathReading(s);
      AtoiFast(s)
    else
      ParseIntReading(s);
      ParseInt64(s)
  }

  /** Any 64-bit non-negative number written in decimal is read back unchanged. */
  lemma AtoiReadsDecimal(n: nat)
    requires n <= MaxInt64
    ensures Atoi(DecimalString(n)) == n
  {
    var s := DecimalString(n);
    DecimalRoundTrip(n);
    assert IsDigit(s[0]);
    assert s[..|s|] == s;
  }

  /**
   * Digits that already exceed 2^64 - 1 read as the 64-bit bound, whatever
   * byte follows them: the range error comes before the syntax error.
   */
  lemma OverflowBeforeJunkClamps(digits: string, junk: string)
    requires AllDigits(digits) && DigitsValue(digits) > MaxUint64
    requires junk != [] && !IsDigit(junk[0])
    ensures Atoi(digits + junk) == MaxInt64
    ensures Atoi("-" + digits + junk) == MinInt64
  {
    var s := digits + junk;
    assert s[..|digits|] == digits;
    assert digits != [];
    assert IsDigit(s[0]) && Unsigned(s) == s;
    assert forall i :: 0 <= i < |digits| ==> s[i] == digits[i];
    assert s[|digits|] == junk[0];
    assert LeadingDigits(s) == |digits|;
    var t := "-" + digits + junk;
    assert Unsigned(t) == s;
  }

  /** `page`: the parsed value when it is at least 1, else 1. */
  function NormalizePage(raw: string): (page: int)
    ensures 1 <= page <= MaxInt64
    ensures Atoi(raw) >= 1 ==> page == Atoi(raw)
    ensures Atoi(raw) < 1 ==> page == 1
  {
    var p := Atoi(raw);
    if p < 1 then 1 else p
  }

  /** `limit`: the parsed value when it lies in [1, 100], else 20. */
  function NormalizeLimit(raw: string): (limit: int)
    ensures 1 <= limit <= MaxLimit
    ensures 1 <= Atoi(raw) <= MaxLimit ==> limit == Atoi(raw)
    ensures !(1 <= Atoi(raw) <= MaxLimit) ==> limit == DefaultLimit
  {
    var l := Atoi(raw);
    if l < 1 || l > MaxLimit then DefaultLimit else l
  }

  /**
   * A missing or unparsable page or limit falls back to its default, unless
   * its leading digits alone exceed 2^64 - 1 (`OverflowBeforeJunkClamps`).
   */
  lemma UnparsableTakesDefaults(raw: string)
    requires !IsSignedDecimal(raw)
    requires DigitsValue(Unsigned(raw)[..LeadingDigits(Unsigned(raw))]) <= MaxUint64
    ensures NormalizePage(raw) == 1 && NormalizeLimit(raw) == DefaultLimit
  {
  }

  /** Two's-complement reduction of an integer to Go's 64-bit `int`. */
  function Wrap64(x: int): (r: int)
    ensures MinInt64 <= r <= MaxInt64
    ensures (r - x) % TwoTo64 == 0
  {
    (x - MinInt64) % TwoTo64 + MinInt64
  }

  /** `offset := (page - 1) * limit` as the source computes it, in 64-bit arithmetic. */
  function OffsetAsWritten(page: int, limit: int): (offset: int)
    ensures MinInt64 <= offset <= MaxInt64
    ensures (offset - (page - 1) * limit) % TwoTo64 == 0
  {
    Wrap64((page - 1) * limit)
  }

  /** The offset the list intends: the rows of the pages before `page`. */
  function Offset(page: int, limit: int): (offset: nat)
    requires page >= 1 && limit >= 1
    ensures offset + limit == page * limit
  {
    (page - 1) * limit
  }

  /** Wherever the product fits in 64 bits the source's offset is the intended one. */
  lemma OffsetAsWrittenAgrees(page: int, limit: int)
    requires page >= 1 && limit >= 1 && page * limit <= MaxInt64
    ensures OffsetAsWritten(page, limit) == Offset(page, limit)
  {
    var x := (page - 1) * limit;
    assert 0 <= x <= MaxInt64;
    assert (x - MinInt64) % TwoTo64 == x - MinInt64;
  }

  /**
   * A page number of 18 digits, which `strconv.Atoi` accepts, makes the
   * 64-bit product wrap: `page=500000000000000001&limit=20` yields a negative
   * OFFSET, which PostgreSQL rejects.
   */
  lemma OffsetWrapsNegative()
    ensures NormalizePage(DecimalString(500000000000000001)) == 500000000000000001
    ensures NormalizeLimit(DecimalString(20)) == 20
    ensures OffsetAsWritten(500000000000000001, 20) < 0
    ensures Offset(500000000000000001, 20) > 0
  {
    AtoiReadsDecimal(500000000000000001);
    AtoiReadsDecimal(20);
    assert (500000000000000001 - 1) * 20 == 10000000000000000000;
    WrapDown(10000000000000000000, 1);
  }

  /**
   * Page text whose leading digits overflow before a stray byte reads as the
   * largest page: `page=99999999999999999999x` gives page 2^63 - 1, and with
   * the default limit the 64-bit offset wraps to -40.
   */
  lemma JunkAfterHugePageWrapsNegative()
    ensures NormalizePage(DecimalString(99999999999999999999) + "x") == MaxInt64
    ensures OffsetAsWritten(MaxInt64, DefaultLimit) == -40
  {
    DecimalRoundTrip(99999999999999999999);
    OverflowBeforeJunkClamps(DecimalString(99999999999999999999), "x");
    assert (MaxInt64 - 1) * 20 == 184467440737095516120;
    WrapDown(184467440737095516120, 10);
  }

  /** A value `k` moduli above a 64-bit number wraps down to that number. */
  lemma WrapDown(x: int, k: nat)
    requires MinInt64 <= x - k * TwoTo64 <= MaxInt64
    ensures Wrap64(x) == x - k * TwoTo64
  {
    var d := x - MinInt64;
    var r := d - k * TwoTo64;
    assert 0 <= r < TwoTo64;
    assert d == k * TwoTo64 + r;
  }

  /** `totalPages`: the ceiling of total / limit, in integer arithmetic. */
  function TotalPages(total: nat, limit: int): (pages: nat)
    requires limit >= 1
    ensures total <= pages * limit
    ensures pages > 0 ==> (pages - 1) * limit < total
  {
    (total + limit - 1) / limit
  }

  /** Every page up to `TotalPages` starts at a row that exists. */
  lemma PagesStartInsideTotal(total: nat, limit: int, page: int)
    requires limit >= 1 && 1 <= page <= TotalPages(total, limit)
    ensures Offset(page, limit) < total
  {
    var pages := TotalPages(total, limit);
    assert (page - 1) * limit <= (pages - 1) * limit by {
      assert (pages - page) * limit >= 0;
    }
  }

  // ── Sorting ──────────────────────────────────────────────────────────

  /** `allowedSorts`: the only column expressions a request can put into ORDER BY. */
  const AllowedSorts: map<string, string> :=
    map["name" := "e.name", "joining_date" := "e.joining_date",
        "created_at" := "e.created_at", "salary" := "e.salary"]

  /** The ORDER BY column: the whitelisted column for a known key, else `e.name`. */
  function SortColumn(sortBy: string): (column: string)
    ensures column in AllowedSorts.Values
    ensures sortBy in AllowedSorts ==> column == AllowedSorts[sortBy]
    ensures sortBy !in AllowedSorts ==> column == "e.name"
  {
    assert AllowedSorts["name"] == "e.name";
    if sortBy in AllowedSorts then AllowedSorts[sortBy] else "e.name"
  }

  /** The ORDER BY direction: `desc` exactly when `desc` was asked for. */
  function SortDirection(sortOrder: string): (direction: string)
    ensures direction == "desc" || direction == "asc"
    ensures direction == "desc" <==> sortOrder == "desc"
  {
    if sortOrder != "desc" then "asc" else sortOrder
  }

  // ── Document status ──────────────────────────────────────────────────

  /** Days ahead of `today` within which a document counts as expiring. */
  const ExpiringWindow: int := 30

  /** The `doc_status` column. */
  datatype DocStatus = NoDocument | Expired | Expiring | Valid {
    function Name(): string {
      match this
      case NoDocument => "none"
      case Expired => "expired"
      case Expiring => "expiring"
      case Valid => "valid"
    }
  }

  /**
   * The `doc_status` CASE over the primary document's expiry: its first
   * matching branch, read as four disjoint ranges of the expiry date.
   */
  function DocStatusOf(expiry: Option<Day>, today: Day): (st: DocStatus)
    ensures st == NoDocument <==> expiry.None?
    ensures st == Expired <==> expiry.Some? && expiry.value < today
    ensures st == Expiring <==> expiry.Some? && today <= expiry.value <= today + ExpiringWindow
    ensures st == Valid <==> expiry.Some? && expiry.value > today + ExpiringWindow
  {
    if expiry.None? then NoDocument
    else if expiry.value < today then Expired
    else if expiry.value <= today + ExpiringWindow then Expiring
    else Valid
  }

  /**
   * `expiry_days_left`: NULL when the joined expiry is NULL (no primary
   * document, or a primary document without an expiry date), else the
   * signed distance to expiry.
   */
  function ExpiryDaysLeft(expiry: Option<Day>, today: Day): (days: Option<int>)
    ensures days.None? <==> expiry.None?
    ensures days.Some? ==> expiry.value == today + days.value
  {
    if expiry.None? then None else Some(expiry.value - today)
  }

  /** The status is read off the days left: overdue, within the window, or beyond it. */
  lemma StatusFromDaysLeft(expiry: Option<Day>, today: Day)
    requires expiry.Some?
    ensures DocStatusOf(expiry, today) == Expired <==> ExpiryDaysLeft(expiry, today).value < 0
    ensures DocStatusOf(expiry, today) == Expiring <==> 0 <= ExpiryDaysLeft(expiry, today).value <= ExpiringWindow
    ensures DocStatusOf(expiry, today) == Valid <==> ExpiryDaysLeft(expiry, today).value > ExpiringWindow
  {
  }

  /** The `status` query parameter's filter on the primary document. */
  datatype StatusFilter = NoStatusFilter | ExpiringOnly | ExpiredOnly | ValidOnly

  function StatusFilterOf(docStatus: string): (f: StatusFilter)
    ensures f == ExpiringOnly <==> docStatus == "expiring"
    ensures f == ExpiredOnly <==> docStatus == "expired"
    ensures f == ValidOnly <==> docStatus == "valid" || docStatus == "active"
  {
    if docStatus == "expiring" then ExpiringOnly
    else if docStatus == "expired" then ExpiredOnly
    else if docStatus == "valid" || docStatus == "active" then ValidOnly
    else NoStatusFilter
  }

  /**
   * Whether the SQL condition added for `f` keeps a row whose primary
   * document expires on `expiry` (None: no primary document, so every
   * comparison is NULL and the row is dropped).
   */
  function FilterKeeps(f: StatusFilter, expiry: Option<Day>, today: Day): (keep: bool)
    ensures f == NoStatusFilter ==> keep
    ensures keep && f != NoStatusFilter ==> expiry.Some?
  {
    match f
    case NoStatusFilter => true
    case ExpiringOnly => expiry.Some? && today <= expiry.value <= today + ExpiringWindow
    case ExpiredOnly => expiry.Some? && expiry.value < today
    case ValidOnly => expiry.Some? && expiry.value > today + ExpiringWindow
  }

  /**
   * Each named filter keeps exactly the rows whose `doc_status` carries that
   * name (`active` is another name for `valid`); any other value keeps every row.
   */
  lemma StatusFilterSelectsStatus(docStatus: string, expiry: Option<Day>, today: Day)
    ensures docStatus == "expiring" || docStatus == "expired" || docStatus == "valid" ==>
      (FilterKeeps(StatusFilterOf(docStatus), expiry, today) <==> DocStatusOf(expiry, today).Name() == docStatus)
    ensures docStatus == "active" ==>
      (FilterKeeps(StatusFilterOf(docStatus), expiry, today) <==> DocStatusOf(expiry, today) == Valid)
    ensures docStatus != "expiring" && docStatus != "expired" && docStatus != "valid" && docStatus != "active" ==>
      FilterKeeps(StatusFilterOf(docStatus), expiry, today)
  {
    var st := DocStatusOf(expiry, today);
    assert st.Name() == "expiring" <==> st == Expiring;
    assert st.Name() == "expired" <==> st == Expired;
    assert st.Name() == "valid" <==> st == Valid;
  }

  // ── The list's join with the primary document ────────────────────────

  /** The primary documents of employee `employeeId`, in table order. */
  function PrimaryDocs(docs: seq<Document>, employeeId: string): (ps: seq<Document>)
    ensures forall d :: d in ps ==> d in docs && d.isPrimary && d.employeeId == employeeId
    ensures forall d :: d in docs && d.isPrimary && d.employeeId == employeeId ==> d in ps
    decreases |docs|
  {
    if docs == [] then []
    else
      var init, last := docs[..|docs| - 1], docs[|docs| - 1];
      assert forall d :: d in docs ==> d in init || d == last;
      PrimaryDocs(init, employeeId) + (if last.isPrimary && last.employeeId == employeeId then [last] else [])
  }

  /** A row of the list query before filtering: an employee and its joined primary document, if any. */
  datatype ListRow = ListRow(employee: Employee, primary: Option<Document>) {
    function Expiry(): Option<Day> {
      if primary.None? then None else primary.value.expiry
    }
  }

  /** The rows the LEFT JOIN gives one employee: one per matching primary document, or one with NULLs. */
  function EmployeeRows(e: Employee, docs: seq<Document>): (rows: seq<ListRow>)
    ensures |rows| >= 1
    ensures forall r :: r in rows ==> r.employee == e
    ensures forall r :: r in rows && r.primary.Some? ==>
      r.primary.value in docs && r.primary.value.isPrimary && r.primary.value.employeeId == e.id
  {
    var ps := PrimaryDocs(docs, e.id);
    if ps == [] then [ListRow(e, None)] else seq(|ps|, i requires 0 <= i < |ps| => ListRow(e, Some(ps[i])))
  }

  /** `LEFT JOIN documents pd ON pd.employee_id = e.id AND pd.is_primary = TRUE`, employee by employee. */
  function JoinPrimary(emps: seq<Employee>, docs: seq<Document>): (rows: seq<ListRow>)
    ensures |rows| >= |emps|
    ensures forall r :: r in rows ==> r.employee in emps
    ensures forall r :: r in rows && r.primary.Some? ==>
      r.primary.value in docs && r.primary.value.isPrimary && r.primary.value.employeeId == r.employee.id
    decreases |emps|
  {
    if emps == [] then []
    else
      assert forall e :: e in emps[1..] ==> e in emps;
      EmployeeRows(emps[0], docs) + JoinPrimary(emps[1..], docs)
  }

  lemma {:induction false} NoPrimaryDocs(docs: seq<Document>, employeeId: string)
    requires forall i :: 0 <= i < |docs| ==> !(docs[i].isPrimary && docs[i].employeeId == employeeId)
    ensures PrimaryDocs(docs, employeeId) == []
    decreases |docs|
  {
    if docs != [] {
      NoPrimaryDocs(docs[..|docs| - 1], employeeId);
    }
  }

  lemma {:induction false} AtMostOnePrimaryDoc(docs: seq<Document>, employeeId: string)
    requires AtMostOnePrimary(docs)
    ensures |PrimaryDocs(docs, employeeId)| <= 1
    decreases |docs|
  {
    if docs != [] {
      var init := docs[..|docs| - 1];
      var last := docs[|docs| - 1];
      assert AtMostOnePrimary(init) by {
        forall i, j | 0 <= i < |init| && 0 <= j < |init| && init[i].isPrimary && init[j].isPrimary &&
          init[i].employeeId == init[j].employeeId
          ensures i == j
        {
          assert docs[i] == init[i] && docs[j] == init[j];
        }
      }
      if last.isPrimary && last.employeeId == employeeId {
        forall i | 0 <= i < |init| ensures !(init[i].isPrimary && init[i].employeeId == employeeId) {
          assert docs[i] == init[i];
        }
        NoPrimaryDocs(init, employeeId);
      } else {
        AtMostOnePrimaryDoc(init, employeeId);
      }
    }
  }

  /**
   * Under the at-most-one-primary invariant the join yields exactly one row per
   * employee, in employee order, so the count and the page see each employee once.
   */
  lemma {:induction false} JoinOneRowPerEmployee(emps: seq<Employee>, docs: seq<Document>)
    requires AtMostOnePrimary(docs)
    ensures |JoinPrimary(emps, docs)| == |emps|
    ensures forall k :: 0 <= k < |emps| ==> JoinPrimary(emps, docs)[k].employee == emps[k]
    ensures forall k :: 0 <= k < |emps| ==>
      (JoinPrimary(emps, docs)[k].primary.Some? <==>
       exists d :: d in docs && d.isPrimary && d.employeeId == emps[k].id)
    ensures forall k :: 0 <= k < |emps| && JoinPrimary(emps, docs)[k].primary.Some? ==>
      JoinPrimary(emps, docs)[k].primary.value in docs &&
      JoinPrimary(emps, docs)[k].primary.value.isPrimary &&
      JoinPrimary(emps, docs)[k].primary.value.employeeId == emps[k].id
    decreases |emps|
  {
    if emps != [] {
      var rows, rest := JoinPrimary(emps, docs), JoinPrimary(emps[1..], docs);
      var head := EmployeeRows(emps[0], docs);
      assert rows == head + rest;
      assert |head| == 1 && (head[0].primary.Some? <==> exists d :: d in docs && d.isPrimary && d.employeeId == emps[0].id) by {
        var ps := PrimaryDocs(docs, emps[0].id);
        AtMostOnePrimaryDoc(docs, emps[0].id);
        assert ps != [] ==> ps[0] in ps;
      }
      assert head[0] in head;
      JoinOneRowPerEmployee(emps[1..], docs);
      forall k | 0 <= k < |emps|
        ensures rows[k].employee == emps[k]
        ensures rows[k].primary.Some? <==> exists d :: d in docs && d.isPrimary && d.employeeId == emps[k].id
        ensures rows[k] in rows
      {
        if k > 0 {
          assert rows[k] == rest[k - 1] && emps[k] == emps[1..][k - 1];
        }
      }
    }
  }

  /** The rows the list keeps for a `status` parameter; each carries the status the CASE computes. */
  function FilterRows(rows: seq<ListRow>, f: StatusFilter, today: Day): (kept: seq<ListRow>)
    ensures forall r :: r in kept ==> r in rows && FilterKeeps(f, r.Expiry(), today)
    ensures forall r :: r in rows && FilterKeeps(f, r.Expiry(), today) ==> r in kept
    decreases |rows|
  {
    if rows == [] then []
    else (if FilterKeeps(f, rows[0].Expiry(), today) then [rows[0]] else []) + FilterRows(rows[1..], f, today)
  }

  // ── WHERE builder ────────────────────────────────────────────────────

  /** Query parameters of `GET /api/employees`; a missing one reads as "". */
  datatype ListQuery = ListQuery(
    page: string,
    limit: string,
    companyId: string,
    trade: string,
    search: string,
    status: string,
    empStatus: string,
    nationality: string,
    sortBy: string,
    sortOrder: string)

  /** One optional filter: the SQL test left of its placeholder, and the value bound to it. */
  datatype Condition = Condition(test: string, arg: SqlArg)

  /** The five optional filters in the order the handler tests them; `None` when the parameter is empty. */
  function ListFilters(q: ListQuery): (fs: seq<Option<Condition>>)
    ensures |fs| == 5
  {
    [ if q.companyId != "" then Some(Condition("e.company_id =", Str(q.companyId))) else None,
      if q.trade != "" then Some(Condition("e.trade =", Str(q.trade))) else None,
      if q.search != "" then Some(Condition("e.name ILIKE", Str("%" + q.search + "%"))) else None,
      if q.empStatus != "" then Some(Condition("e.status =", Str(q.empStatus))) else None,
      if q.nationality != "" then Some(Condition("e.nationality ILIKE", Str("%" + q.nationality + "%"))) else None ]
  }

  /** The filters that are switched on, in order. */
  function Present(fs: seq<Option<Condition>>): (cs: seq<Condition>)
    ensures |cs| <= |fs|
    decreases |fs|
  {
    if fs == [] then []
    else Present(fs[..|fs| - 1]) + (if fs[|fs| - 1].Some? then [fs[|fs| - 1].value] else [])
  }

  function ListConditions(q: ListQuery): seq<Condition> {
    Present(ListFilters(q))
  }

  /** ` AND <test> $n`. */
  function ConditionText(c: Condition, n: nat): string {
    " AND " + c.test + " " + Placeholder(n)
  }

  /** The conditions' text when the first uses placeholder `$first`. */
  function RenderConditions(cs: seq<Condition>, first: nat): string
    decreases |cs|
  {
    if cs == [] then ""
    else RenderConditions(cs[..|cs| - 1], first) + ConditionText(cs[|cs| - 1], first + |cs| - 1)
  }

  function ConditionArgs(cs: seq<Condition>): (args: seq<SqlArg>)
    ensures |args| == |cs|
    ensures forall k :: 0 <= k < |cs| ==> args[k] == cs[k].arg
  {
    seq(|cs|, k requires 0 <= k < |cs| => cs[k].arg)
  }

  /** The k-th condition of the text is bound to placeholder `$(first + k)`. */
  lemma {:induction false} RenderConditionsSplit(cs: seq<Condition>, first: nat, k: nat)
    requires k < |cs|
    ensures RenderConditions(cs, first) ==
      RenderConditions(cs[..k], first) + ConditionText(cs[k], first + k) + RenderConditions(cs[k + 1..], first + k + 1)
    decreases |cs|
  {
    if k == |cs| - 1 {
      assert cs[..|cs| - 1] == cs[..k];
      assert cs[k + 1..] == [];
    } else {
      var init, last := cs[..|cs| - 1], ConditionText(cs[|cs| - 1], first + |cs| - 1);
      var before, mid := RenderConditions(cs[..k], first), ConditionText(cs[k], first + k);
      var rest := RenderConditions(init[k + 1..], first + k + 1);
      assert RenderConditions(init, first) == before + mid + rest by {
        RenderConditionsSplit(init, first, k);
        assert init[..k] == cs[..k];
      }
      assert RenderConditions(cs[k + 1..], first + k + 1) == rest + last by {
        var tail := cs[k + 1..];
        assert tail[..|tail| - 1] == init[k + 1..];
        assert tail[|tail| - 1] == cs[|cs| - 1];
      }
      assert RenderConditions(cs, first) == RenderConditions(init, first) + last;
      ConcatAssoc(before + mid, rest, last);
    }
  }

  lemma ConcatAssoc<T>(a: seq<T>, b: seq<T>, c: seq<T>)
    ensures (a + b) + c == a + (b + c)
  {
  }

  /** Appending one condition extends the text by its clause and the arguments by its value. */
  lemma AppendCondition(cs: seq<Condition>, c: Condition)
    ensures RenderConditions(cs + [c], 1) == RenderConditions(cs, 1) + ConditionText(c, |cs| + 1)
  {
    var cs' := cs + [c];
    assert cs'[..|cs'| - 1] == cs;
  }

  lemma AppendConditionArg(cs: seq<Condition>, c: Condition)
    ensures ConditionArgs(cs + [c]) == ConditionArgs(cs) + [c.arg]
  {
    var a, b := ConditionArgs(cs + [c]), ConditionArgs(cs) + [c.arg];
    assert |a| == |b|;
    forall k | 0 <= k < |a| ensures a[k] == b[k] {
      if k < |cs| { assert (cs + [c])[k] == cs[k]; }
    }
  }

  /**
   * The WHERE builder: each non-empty filter, in order, appends its condition
   * with placeholder `$argIdx` and its value to `args`, then bumps `argIdx`.
   */
  method BuildWhere(q: ListQuery) returns (where: string, args: seq<SqlArg>, argIdx: nat)
    ensures where == "WHERE 1=1" + RenderConditions(ListConditions(q), 1)
    ensures args == ConditionArgs(ListConditions(q))
    ensures argIdx == |args| + 1
  {
    where, args, argIdx := BuildWhereFrom(ListFilters(q));
  }

  method BuildWhereFrom(filters: seq<Option<Condition>>) returns (where: string, args: seq<SqlArg>, argIdx: nat)
    ensures where == "WHERE 1=1" + RenderConditions(Present(filters), 1)
    ensures args == ConditionArgs(Present(filters))
    ensures argIdx == |args| + 1
  {
    where, args, argIdx := "WHERE 1=1", [], 1;
    for i := 0 to |filters|
      invariant where == "WHERE 1=1" + RenderConditions(Present(filters[..i]), 1)
      invariant args == ConditionArgs(Present(filters[..i]))
      invariant argIdx == |args| + 1
    {
      assert filters[..i + 1][..i] == filters[..i];
      ghost var cs := Present(filters[..i]);
      if filters[i].Some? {
        var c := filters[i].value;
        assert Present(filters[..i + 1]) == cs + [c];
        AppendCondition(cs, c);
        AppendConditionArg(cs, c);
        where := where + ConditionText(c, argIdx);
        args := args + [c.arg];
        argIdx := argIdx + 1;
      } else {
        assert Present(filters[..i + 1]) == cs + [];
        assert cs + [] == cs;
      }
    }
    assert filters[..|filters|] == filters;
  }

  // ── The list statement ───────────────────────────────────────────────

  /** What the list handler hands to its SELECT besides the fixed text. */
  datatype ListPlan = ListPlan(
    page: int,
    limit: int,
    where: string,
    statusFilter: StatusFilter,
    sortColumn: string,
    sortDirection: string,
    limitPlaceholder: nat,
    offsetPlaceholder: nat,
    args: seq<SqlArg>)

  /**
   * The list handler up to the query: normalised page and limit, the WHERE
   * text with its arguments, the status filter and the ORDER BY, then
   * `LIMIT $argIdx OFFSET $argIdx+1` bound to the limit and the offset of
   * the page. The offset is the intended one (see `OffsetWrapsNegative`).
   */
  method PlanList(q: ListQuery) returns (plan: ListPlan)
    ensures plan.page == NormalizePage(q.page) && plan.limit == NormalizeLimit(q.limit)
    ensures plan.where == "WHERE 1=1" + RenderConditions(ListConditions(q), 1)
    ensures plan.statusFilter == StatusFilterOf(q.status)
    ensures plan.sortColumn == SortColumn(q.sortBy) && plan.sortDirection == SortDirection(q.sortOrder)
    ensures |plan.args| == |ListConditions(q)| + 2
    ensures plan.args[..|ListConditions(q)|] == ConditionArgs(ListConditions(q))
    ensures plan.limitPlaceholder == |ListConditions(q)| + 1
    ensures plan.offsetPlaceholder == plan.limitPlaceholder + 1
    ensures plan.args[plan.limitPlaceholder - 1] == Int(plan.limit)
    ensures plan.args[plan.offsetPlaceholder - 1] == Int(Offset(plan.page, plan.limit))
  {
    var page := NormalizePage(q.page);
    var limit := NormalizeLimit(q.limit);
    var offset := Offset(page, limit);
    var where, args, argIdx := BuildWhere(q);
    plan := ListPlan(page, limit, where, StatusFilterOf(q.status), SortColumn(q.sortBy),
      SortDirection(q.sortOrder), argIdx, argIdx + 1, args + [Int(limit), Int(offset)]);
    assert plan.args[..|args|] == args;
  }

  /** The rows `LIMIT limit OFFSET offset` returns from the full ordered result. */
  function PageOf<T>(rows: seq<T>, page: int, limit: int): (p: seq<T>)
    requires page >= 1 && limit >= 1
    ensures |p| <= limit
  {
    var lo := if Offset(page, limit) < |rows| then Offset(page, limit) else |rows|;
    var hi := if Offset(page, limit) + limit < |rows| then Offset(page, limit) + limit else |rows|;
    rows[lo..hi]
  }

  /** Pages 1 to n, one after the other. */
  function Pages<T>(rows: seq<T>, limit: int, n: nat): seq<T>
    requires limit >= 1
  {
    if n == 0 then [] else Pages(rows, limit, n - 1) + PageOf(rows, n, limit)
  }

  lemma {:induction false} PagesArePrefix<T>(rows: seq<T>, limit: int, n: nat)
    requires limit >= 1
    ensures Pages(rows, limit, n) == rows[..if n * limit < |rows| then n * limit else |rows|]
  {
    if n > 0 {
      PagesArePrefix(rows, limit, n - 1);
      assert (n - 1) * limit + limit == n * limit;
    }
  }

  /**
   * Walking pages 1 to `totalPages` of the pagination metadata returns every
   * row exactly once, in order.
   */
  lemma PagesCoverRows<T>(rows: seq<T>, limit: int)
    requires limit >= 1
    ensures Pages(rows, limit, TotalPages(|rows|, limit)) == rows
  {
    PagesArePrefix(rows, limit, TotalPages(|rows|, limit));
  }

  // ── Update ───────────────────────────────────────────────────────────

  /** The request members as (column, value) pairs in the order the handler tests them. */
  function EmployeeUpdateFields(req: UpdateEmployeeRequest): (fields: seq<(string, Option<SqlArg>)>)
    ensures |fields| == 14
  {
    [ ("name", StrArg(req.name)),
      ("trade", StrArg(req.trade)),
      ("company_id", StrArg(req.companyId)),
      ("mobile", StrArg(req.mobile)),
      ("joining_date", StrArg(req.joiningDate)),
      ("photo_url", StrArg(req.photoUrl)),
      ("gender", StrArg(req.gender)),
      ("date_of_birth", StrArg(req.dateOfBirth)),
      ("nationality", StrArg(req.nationality)),
      ("passport_number", StrArg(req.passportNumber)),
      ("native_location", StrArg(req.nativeLocation)),
      ("current_location", StrArg(req.currentLocation)),
      ("salary", if req.salary.None? then None else Some(Real(req.salary.value))),
      ("status", StrArg(req.status)) ]
  }

  function StrArg(v: Option<string>): (a: Option<SqlArg>)
    ensures a.None? <==> v.None?
  {
    if v.None? then None else Some(Str(v.value))
  }

  predicate NoEmployeeFields(req: UpdateEmployeeRequest) {
    req.name.None? && req.trade.None? && req.companyId.None? && req.mobile.None? &&
    req.joiningDate.None? && req.photoUrl.None? && req.gender.None? && req.dateOfBirth.None? &&
    req.nationality.None? && req.passportNumber.None? && req.nativeLocation.None? &&
    req.currentLocation.None? && req.salary.None? && req.status.None?
  }

  /** The outcome of `PUT /api/employees/{id}` up to the database. */
  datatype UpdateOutcome = Rejected(status: int, message: string) | Issue(statement: UpdateSql)

  /**
   * An empty id is refused first, then a request with no member; otherwise
   * the UPDATE sets exactly the provided columns, then `updated_at = NOW()`,
   * and binds the id to the placeholder after the last value.
   */
  method UpdateEmployee(id: string, req: UpdateEmployeeRequest) returns (out: UpdateOutcome)
    ensures id == "" ==> out == Rejected(400, "Employee ID is required")
    ensures id != "" && NoEmployeeFields(req) ==> out == Rejected(400, "No fields to update")
    ensures out.Issue? <==> id != "" && !NoEmployeeFields(req)
    ensures out.Issue? ==>
      out.statement.setList == Join(Assignments(Provided(EmployeeUpdateFields(req)), 1) + ["updated_at = NOW()"], ", ")
    ensures out.Issue? ==> out.statement.args == ArgsOf(Provided(EmployeeUpdateFields(req))) + [Str(id)]
    ensures out.Issue? ==> out.statement.idPlaceholder == |out.statement.args|
  {
    if id == "" {
      return Rejected(400, "Employee ID is required");
    }
    var fields := EmployeeUpdateFields(req);
    NoFieldsMeansAllAbsent(req);
    var stmt := UpdateStatement(fields, "updated_at = NOW()", Str(id));
    if stmt.None? {
      return Rejected(400, "No fields to update");
    }
    out := Issue(stmt.value);
  }

  /** No member is present exactly when every column of the field list is absent. */
  lemma NoFieldsMeansAllAbsent(req: UpdateEmployeeRequest)
    ensures NoEmployeeFields(req) <==>
      forall i :: 0 <= i < |EmployeeUpdateFields(req)| ==> EmployeeUpdateFields(req)[i].1.None?
  {
    var fields := EmployeeUpdateFields(req);
    if NoEmployeeFields(req) {
      forall i | 0 <= i < |fields| ensures fields[i].1.None? {
        assert fields[i] in fields;
      }
    } else {
      // The first present member names an index whose value is present.
      if req.name.Some? {
        assert fields[0].1.Some?;
      } else if req.trade.Some? {
        assert fields[1].1.Some?;
      } else if req.companyId.Some? {
        assert fields[2].1.Some?;
      } else if req.mobile.Some? {
        assert fields[3].1.Some?;
      } else if req.joiningDate.Some? {
        assert fields[4].1.Some?;
      } else if req.photoUrl.Some? {
        assert fields[5].1.Some?;
      } else if req.gender.Some? {
        assert fields[6].1.Some?;
      } else if req.dateOfBirth.Some? {
        assert fields[7].1.Some?;
      } else if req.nationality.Some? {
        assert fields[8].1.Some?;
      } else if req.passportNumber.Some? {
        assert fields[9].1.Some?;
      } else if req.nativeLocation.Some? {
        assert fields[10].1.Some?;
      } else if req.currentLocation.Some? {
        assert fields[11].1.Some?;
      } else if req.salary.Some? {
        assert fields[12].1.Some?;
      } else {
        assert fields[13].1.Some?;
      }
    }
  }

  /** The fourteen columns an update may set, in the order the handler tests them. */
  datatype EmployeeColumn =
    | NameColumn | TradeColumn | CompanyIdColumn | MobileColumn | JoiningDateColumn
    | PhotoUrlColumn | GenderColumn | DateOfBirthColumn | NationalityColumn | PassportNumberColumn
    | NativeLocationColumn | CurrentLocationColumn | SalaryColumn | StatusColumn

  const UpdateColumns: seq<EmployeeColumn> := [
    NameColumn, TradeColumn, CompanyIdColumn, MobileColumn, JoiningDateColumn,
    PhotoUrlColumn, GenderColumn, DateOfBirthColumn, NationalityColumn, PassportNumberColumn,
    NativeLocationColumn, CurrentLocationColumn, SalaryColumn, StatusColumn]

  function ColumnName(c: EmployeeColumn): string {
    match c
    case NameColumn => "name"
    case TradeColumn => "trade"
    case CompanyIdColumn => "company_id"
    case MobileColumn => "mobile"
    case JoiningDateColumn => "joining_date"
    case PhotoUrlColumn => "photo_url"
    case GenderColumn => "gender"
    case DateOfBirthColumn => "date_of_birth"
    case NationalityColumn => "nationality"
    case PassportNumberColumn => "passport_number"
    case NativeLocationColumn => "native_location"
    case CurrentLocationColumn => "current_location"
    case SalaryColumn => "salary"
    case StatusColumn => "status"
  }

  /** A column's value in a row; a NULL column is None. */
  function RowValue(e: Employee, c: EmployeeColumn): Option<SqlArg> {
    match c
    case NameColumn => Some(Str(e.name))
    case TradeColumn => Some(Str(e.trade))
    case CompanyIdColumn => Some(Str(e.companyId))
    case MobileColumn => Some(Str(e.mobile))
    case JoiningDateColumn => Some(Str(e.joiningDate))
    case PhotoUrlColumn => StrArg(e.photoUrl)
    case GenderColumn => StrArg(e.gender)
    case DateOfBirthColumn => StrArg(e.dateOfBirth)
    case NationalityColumn => StrArg(e.nationality)
    case PassportNumberColumn => StrArg(e.passportNumber)
    case NativeLocationColumn => StrArg(e.nativeLocation)
    case CurrentLocationColumn => StrArg(e.currentLocation)
    case SalaryColumn => if e.salary.None? then None else Some(Real(e.salary.value))
    case StatusColumn => Some(Str(e.status))
  }

  /** The value a request gives a column, None when the member is absent. */
  function RequestValue(req: UpdateEmployeeRequest, c: EmployeeColumn): Option<SqlArg> {
    match c
    case NameColumn => StrArg(req.name)
    case TradeColumn => StrArg(req.trade)
    case CompanyIdColumn => StrArg(req.companyId)
    case MobileColumn => StrArg(req.mobile)
    case JoiningDateColumn => StrArg(req.joiningDate)
    case PhotoUrlColumn => StrArg(req.photoUrl)
    case GenderColumn => StrArg(req.gender)
    case DateOfBirthColumn => StrArg(req.dateOfBirth)
    case NationalityColumn => StrArg(req.nationality)
    case PassportNumberColumn => StrArg(req.passportNumber)
    case NativeLocationColumn => StrArg(req.nativeLocation)
    case CurrentLocationColumn => StrArg(req.currentLocation)
    case SalaryColumn => if req.salary.None? then None else Some(Real(req.salary.value))
    case StatusColumn => StrArg(req.status)
  }

  /** The k-th pair of the field list is the k-th column's name and the request's value for it. */
  lemma FieldsFollowColumns(req: UpdateEmployeeRequest)
    ensures forall k :: 0 <= k < 14 ==>
      EmployeeUpdateFields(req)[k] == (ColumnName(UpdateColumns[k]), RequestValue(req, UpdateColumns[k]))
  {
    var fields := EmployeeUpdateFields(req);
    forall k | 0 <= k < 14
      ensures fields[k] == (ColumnName(UpdateColumns[k]), RequestValue(req, UpdateColumns[k]))
    {
      if k == 0 {
      } else if k == 1 {
      } else if k == 2 {
      } else if k == 3 {
      } else if k == 4 {
      } else if k == 5 {
      } else if k == 6 {
      } else if k == 7 {
      } else if k == 8 {
      } else if k == 9 {
      } else if k == 10 {
      } else if k == 11 {
      } else if k == 12 {
      }
    }
  }

  /** The id and the fourteen updatable columns make up the whole row. */
  lemma ColumnsDetermineRow(a: Employee, b: Employee)
    requires a.id == b.id && forall c :: RowValue(a, c) == RowValue(b, c)
    ensures a == b
  {
    assert RowValue(a, NameColumn) == RowValue(b, NameColumn);
    assert RowValue(a, TradeColumn) == RowValue(b, TradeColumn);
    assert RowValue(a, CompanyIdColumn) == RowValue(b, CompanyIdColumn);
    assert RowValue(a, MobileColumn) == RowValue(b, MobileColumn);
    assert RowValue(a, JoiningDateColumn) == RowValue(b, JoiningDateColumn);
    assert RowValue(a, PhotoUrlColumn) == RowValue(b, PhotoUrlColumn);
    assert RowValue(a, GenderColumn) == RowValue(b, GenderColumn);
    assert RowValue(a, DateOfBirthColumn) == RowValue(b, DateOfBirthColumn);
    assert RowValue(a, NationalityColumn) == RowValue(b, NationalityColumn);
    assert RowValue(a, PassportNumberColumn) == RowValue(b, PassportNumberColumn);
    assert RowValue(a, NativeLocationColumn) == RowValue(b, NativeLocationColumn);
    assert RowValue(a, CurrentLocationColumn) == RowValue(b, CurrentLocationColumn);
    assert RowValue(a, SalaryColumn) == RowValue(b, SalaryColumn);
    assert RowValue(a, StatusColumn) == RowValue(b, StatusColumn);
  }

  /**
   * The row the UPDATE leaves: the id stays, and an empty request changes
   * nothing. Column by column, `UpdatedColumn` states what each provided
   * member does to the row.
   */
  function ApplyEmployeeUpdate(e: Employee, req: UpdateEmployeeRequest): (updated: Employee)
    ensures updated.id == e.id
    ensures NoEmployeeFields(req) ==> updated == e
  {
    var updated := e.(
      name := req.name.GetOr(e.name),
      trade := req.trade.GetOr(e.trade),
      companyId := req.companyId.GetOr(e.companyId),
      mobile := req.mobile.GetOr(e.mobile),
      joiningDate := req.joiningDate.GetOr(e.joiningDate),
      photoUrl := if req.photoUrl.Some? then req.photoUrl else e.photoUrl,
      gender := if req.gender.Some? then req.gender else e.gender,
      dateOfBirth := if req.dateOfBirth.Some? then req.dateOfBirth else e.dateOfBirth,
      nationality := if req.nationality.Some? then req.nationality else e.nationality,
      passportNumber := if req.passportNumber.Some? then req.passportNumber else e.passportNumber,
      nativeLocation := if req.nativeLocation.Some? then req.nativeLocation else e.nativeLocation,
      currentLocation := if req.currentLocation.Some? then req.currentLocation else e.currentLocation,
      salary := if req.salary.Some? then req.salary else e.salary,
      status := req.status.GetOr(e.status));
    updated
  }

  /** A column the request provides takes the request's value; any other keeps the row's value. */
  lemma UpdatedColumn(e: Employee, req: UpdateEmployeeRequest, c: EmployeeColumn)
    ensures RowValue(ApplyEmployeeUpdate(e, req), c) == if RequestValue(req, c).Some? then RequestValue(req, c) else RowValue(e, c)
  {
    match c
    case NameColumn =>
    case TradeColumn =>
    case CompanyIdColumn =>
    case MobileColumn =>
    case JoiningDateColumn =>
    case PhotoUrlColumn =>
    case GenderColumn =>
    case DateOfBirthColumn =>
    case NationalityColumn =>
    case PassportNumberColumn =>
    case NativeLocationColumn =>
    case CurrentLocationColumn =>
    case SalaryColumn =>
    case StatusColumn =>
  }

  /**
   * The UPDATE writes exactly its SET list: every (column, value) pair the
   * statement binds is the updated row's value of that column, and a column
   * whose value changed is one the SET list names, with its new value. The
   * id is never among the columns set.
   */
  lemma UpdateSetsOnlyProvided(e: Employee, req: UpdateEmployeeRequest)
    ensures forall p :: p in Provided(EmployeeUpdateFields(req)) ==>
      exists c :: ColumnName(c) == p.0 && RowValue(ApplyEmployeeUpdate(e, req), c) == Some(p.1)
    ensures forall c :: RowValue(ApplyEmployeeUpdate(e, req), c) != RowValue(e, c) ==>
      RequestValue(req, c).Some? && (ColumnName(c), RequestValue(req, c).value) in Provided(EmployeeUpdateFields(req))
    ensures forall p :: p in Provided(EmployeeUpdateFields(req)) ==> p.0 != "id"
  {
    SetListIsWritten(e, req);
    ChangesAreInSetList(e, req);
  }

  /** Each pair the SET list binds is the updated row's value of that column. */
  lemma SetListIsWritten(e: Employee, req: UpdateEmployeeRequest)
    ensures forall p :: p in Provided(EmployeeUpdateFields(req)) ==>
      exists c :: ColumnName(c) == p.0 && RowValue(ApplyEmployeeUpdate(e, req), c) == Some(p.1)
    ensures forall p :: p in Provided(EmployeeUpdateFields(req)) ==> p.0 != "id"
  {
    var fields, u := EmployeeUpdateFields(req), ApplyEmployeeUpdate(e, req);
    ProvidedMembers(fields);
    FieldsFollowColumns(req);
    forall p | p in Provided(fields) ensures exists c :: ColumnName(c) == p.0 && RowValue(u, c) == Some(p.1) {
      var k :| 0 <= k < |fields| && fields[k] == (p.0, Some(p.1));
      UpdatedColumn(e, req, UpdateColumns[k]);
      assert ColumnName(UpdateColumns[k]) == p.0 && RowValue(u, UpdateColumns[k]) == Some(p.1);
    }
  }

  /** A column the update changes is named in the SET list with its new value. */
  lemma ChangesAreInSetList(e: Employee, req: UpdateEmployeeRequest)
    ensures forall c :: RowValue(ApplyEmployeeUpdate(e, req), c) != RowValue(e, c) ==>
      RequestValue(req, c).Some? && (ColumnName(c), RequestValue(req, c).value) in Provided(EmployeeUpdateFields(req))
  {
    var fields, u := EmployeeUpdateFields(req), ApplyEmployeeUpdate(e, req);
    ProvidedMembers(fields);
    FieldsFollowColumns(req);
    forall c | RowValue(u, c) != RowValue(e, c)
      ensures RequestValue(req, c).Some? && (ColumnName(c), RequestValue(req, c).value) in Provided(fields)
    {
      UpdatedColumn(e, req, c);
      var k := ColumnIndex(c);
      assert fields[k] == (ColumnName(c), RequestValue(req, c));
    }
  }

  /** Applying the same update twice changes nothing more than applying it once. */
  lemma UpdateIdempotent(e: Employee, req: UpdateEmployeeRequest)
    ensures ApplyEmployeeUpdate(ApplyEmployeeUpdate(e, req), req) == ApplyEmployeeUpdate(e, req)
  {
    var u := ApplyEmployeeUpdate(e, req);
    forall c ensures RowValue(ApplyEmployeeUpdate(u, req), c) == RowValue(u, c) {
      UpdatedColumn(u, req, c);
      UpdatedColumn(e, req, c);
    }
    ColumnsDetermineRow(ApplyEmployeeUpdate(u, req), u);
  }

  /** Where a column stands in `UpdateColumns`. */
  function ColumnIndex(c: EmployeeColumn): (k: nat)
    ensures k < |UpdateColumns| && UpdateColumns[k] == c
  {
    match c
    case NameColumn => 0
    case TradeColumn => 1
    case CompanyIdColumn => 2
    case MobileColumn => 3
    case JoiningDateColumn => 4
    case PhotoUrlColumn => 5
    case GenderColumn => 6
    case DateOfBirthColumn => 7
    case NationalityColumn => 8
    case PassportNumberColumn => 9
    case NativeLocationColumn => 10
    case CurrentLocationColumn => 11
    case SalaryColumn => 12
    case StatusColumn => 13
  }
}
