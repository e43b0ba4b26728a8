/**
 * The dashboard handlers (backend/internal/handlers/dashboard.go): the three
 * document counts of the metrics, the expiry alerts, and the per-company
 * employee counts, each a query over the tables read as a function of them.
 */
module DashboardHandler {
  import opened Wrappers
  import opened Sorting
  import opened DocumentModel
  import opened EmployeeModel
  import opened EmployeeHandler

  // ── Metrics ──────────────────────────────────────────────────────────

  /** The documents every metric and alert looks at: primary ones with an expiry date. */
  predicate Tracked(d: Document) {
    d.isPrimary && d.expiry.Some?
  }

  /** The three document counts of `GetMetrics`. */
  datatype Bucket = ActiveBucket | ExpiringSoonBucket | ExpiredBucket

  /** The WHERE clause of the bucket's count. */
  predicate InBucket(d: Document, b: Bucket, today: Day) {
    Tracked(d) &&
    match b
    case ActiveBucket => d.expiry.value > today + ExpiringWindow
    case ExpiringSoonBucket => today <= d.expiry.value <= today + ExpiringWindow
    case ExpiredBucket => d.expiry.value < today
  }

  /** `SELECT COUNT(*) FROM documents WHERE …` for one bucket. */
  function CountIn(docs: seq<Document>, b: Bucket, today: Day): (n: nat)
    ensures n <= |docs|
    ensures n == 0 <==> forall i :: 0 <= i < |docs| ==> !InBucket(docs[i], b, today)
    ensures n == |docs| <==> forall i :: 0 <= i < |docs| ==> InBucket(docs[i], b, today)
    decreases |docs|
  {
    if docs == [] then 0
    else
      var init := docs[..|docs| - 1];
      assert forall i :: 0 <= i < |init| ==> docs[i] == init[i];
      CountIn(init, b, today) + (if InBucket(docs[|docs| - 1], b, today) then 1 else 0)
  }

  function CountTracked(docs: seq<Document>): (n: nat)
    decreases |docs|
  {
    if docs == [] then 0
    else CountTracked(docs[..|docs| - 1]) + (if Tracked(docs[|docs| - 1]) then 1 else 0)
  }

  datatype Metrics = Metrics(totalEmployees: nat, activeDocuments: nat, expiringSoon: nat, expired: nat)

  /**
   * The dashboard metrics: the employee count and the three bucket counts,
   * which together count every tracked document once.
   */
  function GetMetrics(employees: seq<Employee>, docs: seq<Document>, today: Day): (m: Metrics)
    ensures m.totalEmployees == |employees|
    ensures m.activeDocuments + m.expiringSoon + m.expired == CountTracked(docs)
  {
    MetricsPartitionTracked(docs, today);
    Metrics(|employees|, CountIn(docs, ActiveBucket, today), CountIn(docs, ExpiringSoonBucket, today),
      CountIn(docs, ExpiredBucket, today))
  }

  /** A tracked document lies in exactly one bucket, an untracked one in none. */
  lemma BucketsAreDisjoint(d: Document, today: Day)
    ensures Tracked(d) ==> (InBucket(d, ActiveBucket, today) || InBucket(d, ExpiringSoonBucket, today) || InBucket(d, ExpiredBucket, today))
    ensures !(InBucket(d, ActiveBucket, today) && InBucket(d, ExpiringSoonBucket, today))
    ensures !(InBucket(d, ActiveBucket, today) && InBucket(d, ExpiredBucket, today))
    ensures !(InBucket(d, ExpiringSoonBucket, today) && InBucket(d, ExpiredBucket, today))
    ensures !Tracked(d) ==> !InBucket(d, ActiveBucket, today) && !InBucket(d, ExpiringSoonBucket, today) && !InBucket(d, ExpiredBucket, today)
  {
  }

  /** Each bucket is the primary documents of one `doc_status` of the employee list. */
  lemma BucketsAreStatuses(d: Document, today: Day)
    ensures InBucket(d, ActiveBucket, today) <==> d.isPrimary && DocStatusOf(d.expiry, today) == Valid
    ensures InBucket(d, ExpiringSoonBucket, today) <==> d.isPrimary && DocStatusOf(d.expiry, today) == Expiring
    ensures InBucket(d, ExpiredBucket, today) <==> d.isPrimary && DocStatusOf(d.expiry, today) == Expired
  {
  }

  /** The three counts add up to the number of tracked documents. */
  lemma {:induction false} MetricsPartitionTracked(docs: seq<Document>, today: Day)
    ensures CountIn(docs, ActiveBucket, today) + CountIn(docs, ExpiringSoonBucket, today) +
      CountIn(docs, ExpiredBucket, today) == CountTracked(docs)
    decreases |docs|
  {
    if docs != [] {
      MetricsPartitionTracked(docs[..|docs| - 1], today);
      BucketsAreDisjoint(docs[|docs| - 1], today);
    }
  }

  /** A document that is not primary or has no expiry changes no count. */
  lemma UntrackedNotCounted(employees: seq<Employee>, docs: seq<Document>, d: Document, today: Day)
    requires !Tracked(d)
    ensures GetMetrics(employees, docs + [d], today) == GetMetrics(employees, docs, today)
  {
    assert (docs + [d])[..|docs|] == docs;
  }

  // ── Expiry alerts ────────────────────────────────────────────────────

  /** Days ahead of `today` within which an alert is urgent. */
  const UrgentWindow: int := 7

  datatype AlertLevel = AlertExpired | Urgent | Warning {
    function Name(): string {
      match this
      case AlertExpired => "expired"
      case Urgent => "urgent"
      case Warning => "warning"
    }
  }

  /** The alert's `status` CASE. */
  function AlertLevelOf(expiry: Day, today: Day): (level: AlertLevel)
    ensures level == AlertExpired <==> expiry < today
    ensures level == Urgent <==> today <= expiry <= today + UrgentWindow
    ensures level == Warning <==> expiry > today + UrgentWindow
  {
    if expiry < today then AlertExpired
    else if expiry <= today + UrgentWindow then Urgent
    else Warning
  }

  /** One alert row (the joined employee and company names are left out). */
  datatype Alert = Alert(documentId: DocumentId, employeeId: string, documentType: string,
                         expiry: Day, daysLeft: int, status: AlertLevel)

  /** The alert query's WHERE clause. */
  predicate Alerting(d: Document, today: Day) {
    Tracked(d) && d.expiry.value <= today + ExpiringWindow
  }

  function AlertOf(d: Document, today: Day): (a: Alert)
    requires d.expiry.Some?
    ensures a.documentId == d.id && a.expiry == d.expiry.value
    ensures a.expiry == today + a.daysLeft
    ensures a.daysLeft < 0 <==> a.status == AlertExpired
  {
    Alert(d.id, d.employeeId, d.documentType, d.expiry.value, d.expiry.value - today, AlertLevelOf(d.expiry.value, today))
  }

  /** The selected rows before ordering, in table order. */
  function AlertRows(docs: seq<Document>, today: Day): (alerts: seq<Alert>)
    ensures forall a :: a in alerts ==> exists d :: d in docs && Alerting(d, today) && a == AlertOf(d, today)
    ensures forall d :: d in docs && Alerting(d, today) ==> AlertOf(d, today) in alerts
    decreases |docs|
  {
    if docs == [] then []
    else
      var last := docs[|docs| - 1];
      var init := docs[..|docs| - 1];
      assert forall d :: d in init ==> d in docs;
      AlertRows(init, today) + (if Alerting(last, today) then [AlertOf(last, today)] else [])
  }

  function ExpiryOf(a: Alert): int {
    a.expiry
  }

  /** The response of `GET /api/dashboard/expiring`. */
  datatype AlertsResponse = AlertsResponse(data: seq<Alert>, total: nat)

  /**
   * The alerts: the primary documents with an expiry at most 30 days ahead
   * (overdue ones included), each with its days left and level, in
   * non-decreasing order of expiry; `total` counts them.
   */
  function GetExpiryAlerts(docs: seq<Document>, today: Day): (r: AlertsResponse)
    ensures r.total == |r.data|
    ensures SortedBy(r.data, ExpiryOf)
    ensures multiset(r.data) == multiset(AlertRows(docs, today))
  {
    var data := SortBy(AlertRows(docs, today), ExpiryOf);
    AlertsResponse(data, |data|)
  }

  /** An alert is in the response exactly when it is the alert of a selected document. */
  lemma AlertsAreExactlySelected(docs: seq<Document>, today: Day, a: Alert)
    ensures a in GetExpiryAlerts(docs, today).data <==>
      exists d :: d in docs && Alerting(d, today) && a == AlertOf(d, today)
  {
    var r := GetExpiryAlerts(docs, today).data;
    assert a in r <==> a in multiset(r);
    assert a in AlertRows(docs, today) <==> a in multiset(AlertRows(docs, today));
  }

  /** Every alert is overdue or due within 30 days, and warnings are more than a week out. */
  lemma AlertLevelsInWindow(docs: seq<Document>, today: Day, a: Alert)
    requires a in GetExpiryAlerts(docs, today).data
    ensures a.daysLeft <= ExpiringWindow
    ensures a.status == Warning ==> UrgentWindow < a.daysLeft
    ensures a.status.Name() == "expired" <==> a.daysLeft < 0
  {
    AlertsAreExactlySelected(docs, today, a);
  }

  // ── Company summary ──────────────────────────────────────────────────

  datatype Company = Company(id: string, name: string)

  datatype CompanySummary = CompanySummary(id: string, name: string, employeeCount: nat)

  /** `COUNT(e.id)` over the employees joined to one company. */
  function EmployeeCount(employees: seq<Employee>, companyId: string): (n: nat)
    ensures n <= |employees|
    ensures n == 0 <==> forall i :: 0 <= i < |employees| ==> employees[i].companyId != companyId
    decreases |employees|
  {
    if employees == [] then 0
    else
      var last := employees[|employees| - 1];
      assert forall i :: 0 <= i < |employees| - 1 ==> employees[..|employees| - 1][i] == employees[i];
      EmployeeCount(employees[..|employees| - 1], companyId) + (if last.companyId == companyId then 1 else 0)
  }

  /** One row per company, zero-employee companies included (the LEFT JOIN). */
  function Summaries(companies: seq<Company>, employees: seq<Employee>): (rows: seq<CompanySummary>)
    ensures |rows| == |companies|
    ensures forall i :: 0 <= i < |companies| ==>
      rows[i].id == companies[i].id && rows[i].name == companies[i].name &&
      rows[i].employeeCount == EmployeeCount(employees, companies[i].id)
  {
    seq(|companies|, i requires 0 <= i < |companies| =>
      CompanySummary(companies[i].id, companies[i].name, EmployeeCount(employees, companies[i].id)))
  }

  function NegatedCount(s: CompanySummary): int {
    0 - s.employeeCount as int
  }

  /** The summary rows in non-increasing order of employee count. */
  function GetCompanySummary(companies: seq<Company>, employees: seq<Employee>): (rows: seq<CompanySummary>)
    ensures forall i, j :: 0 <= i < j < |rows| ==> rows[i].employeeCount >= rows[j].employeeCount
    ensures multiset(rows) == multiset(Summaries(companies, employees))
    ensures |rows| == |companies|
  {
    var rows := SortBy(Summaries(companies, employees), NegatedCount);
    assert |rows| == |multiset(rows)|;
    assert forall i, j :: 0 <= i < j < |rows| ==> NegatedCount(rows[i]) <= NegatedCount(rows[j]);
    rows
  }

  /** Every company is listed with the number of its employees, zero included. */
  lemma EveryCompanyListed(companies: seq<Company>, employees: seq<Employee>, c: Company)
    requires c in companies
    ensures CompanySummary(c.id, c.name, EmployeeCount(employees, c.id)) in GetCompanySummary(companies, employees)
  {
    var k :| 0 <= k < |companies| && companies[k] == c;
    var s := Summaries(companies, employees);
    assert s[k] == CompanySummary(c.id, c.name, EmployeeCount(employees, c.id));
    assert s[k] in multiset(s);
  }

  /** The sum of the counts of companies `cs`. */
  function TotalCount(cs: seq<Company>, employees: seq<Employee>): nat
    decreases |cs|
  {
    if cs == [] then 0 else TotalCount(cs[..|cs| - 1], employees) + EmployeeCount(employees, cs[|cs| - 1].id)
  }

  function Ids(cs: seq<Company>): seq<string> {
    seq(|cs|, i requires 0 <= i < |cs| => cs[i].id)
  }

  /** How many of the companies carry id `id`. */
  function IdCount(cs: seq<Company>, id: string): nat
    decreases |cs|
  {
    if cs == [] then 0 else IdCount(cs[..|cs| - 1], id) + (if cs[|cs| - 1].id == id then 1 else 0)
  }

  /** Adding one employee raises the total by the number of companies that carry its company id. */
  lemma {:induction false} TotalCountStep(cs: seq<Company>, employees: seq<Employee>, e: Employee)
    ensures TotalCount(cs, employees + [e]) == TotalCount(cs, employees) + IdCount(cs, e.companyId)
    decreases |cs|
  {
    if cs != [] {
      TotalCountStep(cs[..|cs| - 1], employees, e);
      assert (employees + [e])[..|employees|] == employees;
    }
  }

  /**
   * When company ids are distinct and every employee's company is listed, the
   * counts of the summary add up to the number of employees.
   */
  lemma {:induction false} CountsCoverEmployees(companies: seq<Company>, employees: seq<Employee>)
    requires forall id :: id in Ids(companies) ==> IdCount(companies, id) == 1
    requires forall i :: 0 <= i < |employees| ==> employees[i].companyId in Ids(companies)
    ensures TotalCount(companies, employees) == |employees|
    decreases |employees|
  {
    if employees == [] {
      ZeroCounts(companies);
    } else {
      var init := employees[..|employees| - 1];
      var e := employees[|employees| - 1];
      forall i | 0 <= i < |init| ensures init[i].companyId in Ids(companies) {
        assert init[i] == employees[i];
      }
      CountsCoverEmployees(companies, init);
      assert init + [e] == employees;
      TotalCountStep(companies, init, e);
    }
  }

  lemma {:induction false} ZeroCounts(cs: seq<Company>)
    ensures TotalCount(cs, []) == 0
    decreases |cs|
  {
    if cs != [] {
      ZeroCounts(cs[..|cs| - 1]);
    }
  }
}
