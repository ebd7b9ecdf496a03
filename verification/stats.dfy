/** The `GET /anggota/stats` aggregation: one pass over the member table
    computing five counters with SQL semantics. `COUNT(*)` counts rows; each
    `SUM(CASE WHEN c THEN 1 ELSE 0 END)` adds 1 where the comparison is TRUE,
    so a NULL column (an UNKNOWN comparison) adds 0, and a `SUM` over no rows
    at all is NULL. */
module Stats {
  import opened Records
  import opened Seqs

  /** String equality under the table's collation, which the model does not fix. */
  type Collation = (string, string) -> bool

  /** `col = lit` in three-valued logic: NULL when the column is NULL. */
  function SqlEq(v: Option<string>, lit: string, eq: Collation): Option<bool> {
    match v
    case None => None
    case Some(s) => Some(eq(s, lit))
  }

  /** `col != lit`: also NULL when the column is NULL. */
  function SqlNe(v: Option<string>, lit: string, eq: Collation): Option<bool> {
    match v
    case None => None
    case Some(s) => Some(!eq(s, lit))
  }

  /** `CASE WHEN cond THEN 1 ELSE 0 END`. */
  function CaseWhen(cond: Option<bool>): nat {
    if cond == Some(true) then 1 else 0
  }

  /** The five columns of the result row. A `SUM` over an empty table is NULL. */
  datatype Counters = Counters(
    totalUsers: nat,
    activeUsers: Option<nat>,
    inactiveUsers: Option<nat>,
    predikatBaik: Option<nat>,
    predikatBuruk: Option<nat>)

  /** `SUM` adding one more non-NULL term. */
  function SumAdd(acc: Option<nat>, term: nat): Option<nat> {
    Some(acc.GetOr(0) + term)
  }

  function AddRow(acc: Counters, r: Member, eq: Collation): Counters {
    Counters(
      acc.totalUsers + 1,
      SumAdd(acc.activeUsers, CaseWhen(SqlEq(Get(r, StatusKeanggotaan), "Aktif", eq))),
      SumAdd(acc.inactiveUsers, CaseWhen(SqlNe(Get(r, StatusKeanggotaan), "Aktif", eq))),
      SumAdd(acc.predikatBaik, CaseWhen(SqlEq(Get(r, Sanksi), "Baik", eq))),
      SumAdd(acc.predikatBuruk, CaseWhen(SqlNe(Get(r, Sanksi), "Baik", eq))))
  }

  /** Row `r` has a non-NULL `f` equal to `lit`. */
  predicate IsEq(r: Member, f: string, lit: string, eq: Collation) {
    Get(r, f).Some? && eq(Get(r, f).value, lit)
  }

  /** Row `r` has a non-NULL `f` different from `lit`. */
  predicate IsNe(r: Member, f: string, lit: string, eq: Collation) {
    Get(r, f).Some? && !eq(Get(r, f).value, lit)
  }

  /** `SUM` over `rows` of the rows satisfying a test: NULL on an empty table. */
  function SqlCount(rows: seq<Member>, p: Member -> bool): Option<nat> {
    if rows == [] then None else Some(Count(rows, p))
  }

  /** The query, evaluated as a left fold over the table's rows. */
  function Aggregate(rows: seq<Member>, eq: Collation): (c: Counters)
    ensures c.totalUsers == |rows|
    ensures c.activeUsers == SqlCount(rows, r => IsEq(r, StatusKeanggotaan, "Aktif", eq))
    ensures c.inactiveUsers == SqlCount(rows, r => IsNe(r, StatusKeanggotaan, "Aktif", eq))
    ensures c.predikatBaik == SqlCount(rows, r => IsEq(r, Sanksi, "Baik", eq))
    ensures c.predikatBuruk == SqlCount(rows, r => IsNe(r, Sanksi, "Baik", eq))
    decreases |rows|
  {
    if rows == [] then Counters(0, None, None, None, None)
    else
      var last := rows[|rows| - 1];
      ColumnStep(rows, r => IsEq(r, StatusKeanggotaan, "Aktif", eq), CaseWhen(SqlEq(Get(last, StatusKeanggotaan), "Aktif", eq)));
      ColumnStep(rows, r => IsNe(r, StatusKeanggotaan, "Aktif", eq), CaseWhen(SqlNe(Get(last, StatusKeanggotaan), "Aktif", eq)));
      ColumnStep(rows, r => IsEq(r, Sanksi, "Baik", eq), CaseWhen(SqlEq(Get(last, Sanksi), "Baik", eq)));
      ColumnStep(rows, r => IsNe(r, Sanksi, "Baik", eq), CaseWhen(SqlNe(Get(last, Sanksi), "Baik", eq)));
      AddRow(Aggregate(rows[..|rows| - 1], eq), last, eq)
  }

  /** One more row adds its `CASE` term to a column's `SUM`; the first row
      turns the NULL of the empty table into that term. */
  lemma ColumnStep(rows: seq<Member>, p: Member -> bool, term: nat)
    requires rows != [] && term == (if p(rows[|rows| - 1]) then 1 else 0)
    ensures SumAdd(SqlCount(rows[..|rows| - 1], p), term) == SqlCount(rows, p)
  {
  }

  /** The rows whose `f` is NULL (or missing from the record). */
  predicate IsNull(r: Member, f: string) {
    Get(r, f).None?
  }

  /** Every row is exactly one of: equal, different, NULL. */
  lemma {:induction false} ThreeWaySplit(rows: seq<Member>, f: string, lit: string, eq: Collation)
    ensures Count(rows, r => IsEq(r, f, lit, eq)) + Count(rows, r => IsNe(r, f, lit, eq))
            + Count(rows, r => IsNull(r, f)) == |rows|
    decreases |rows|
  {
    if rows != [] {
      ThreeWaySplit(rows[..|rows| - 1], f, lit, eq);
    }
  }

  /** Active and inactive users, plus the rows whose status is NULL, add up to
      all users; likewise good and bad standing plus the NULL sanctions. With
      no NULL the two counters alone add up. On an empty table the sums are
      NULL instead. */
  lemma CountersAddUp(rows: seq<Member>, eq: Collation)
    ensures var c := Aggregate(rows, eq);
      && (rows == [] <==> c.activeUsers.None?)
      && (rows != [] ==>
            c.activeUsers.value + c.inactiveUsers.value
            + Count(rows, r => IsNull(r, StatusKeanggotaan)) == c.totalUsers)
      && (rows != [] ==>
            c.predikatBaik.value + c.predikatBuruk.value
            + Count(rows, r => IsNull(r, Sanksi)) == c.totalUsers)
      && ((forall r :: r in rows ==> !IsNull(r, StatusKeanggotaan)) && rows != [] ==>
            c.activeUsers.value + c.inactiveUsers.value == c.totalUsers)
      && ((forall r :: r in rows ==> !IsNull(r, Sanksi)) && rows != [] ==>
            c.predikatBaik.value + c.predikatBuruk.value == c.totalUsers)
  {
    ThreeWaySplit(rows, StatusKeanggotaan, "Aktif", eq);
    ThreeWaySplit(rows, Sanksi, "Baik", eq);
    if forall r :: r in rows ==> !IsNull(r, StatusKeanggotaan) {
      CountNone(rows, r => IsNull(r, StatusKeanggotaan));
    }
    if forall r :: r in rows ==> !IsNull(r, Sanksi) {
      CountNone(rows, r => IsNull(r, Sanksi));
    }
  }

  /** No counter exceeds the row count, whatever the NULLs. */
  lemma CountersBounded(rows: seq<Member>, eq: Collation)
    ensures var c := Aggregate(rows, eq);
      && c.activeUsers.GetOr(0) <= c.totalUsers
      && c.inactiveUsers.GetOr(0) <= c.totalUsers
      && c.predikatBaik.GetOr(0) <= c.totalUsers
      && c.predikatBuruk.GetOr(0) <= c.totalUsers
      && c.activeUsers.GetOr(0) + c.inactiveUsers.GetOr(0) <= c.totalUsers
      && c.predikatBaik.GetOr(0) + c.predikatBuruk.GetOr(0) <= c.totalUsers
  {
    ThreeWaySplit(rows, StatusKeanggotaan, "Aktif", eq);
    ThreeWaySplit(rows, Sanksi, "Baik", eq);
  }

  // ---------------------------------------------------------------------
  // The route handler

  datatype QueryResult = Table(rows: seq<Member>) | QueryError

  datatype Response =
    | Ok(counters: Counters)
    | Failed(status: int, error: string)

  /** The handler: on a query error, status 500 and `{ error: "Server error" }`;
      otherwise the single result row, each counter counting the rows its
      comparison holds for (NULL on an empty table). */
  function HandleStats(q: QueryResult, eq: Collation): (resp: Response)
    ensures q.QueryError? <==> resp == Failed(500, "Server error")
    ensures q.Table? ==> resp.Ok? && resp.counters.totalUsers == |q.rows|
    ensures q.Table? ==>
      && resp.counters.activeUsers == SqlCount(q.rows, r => IsEq(r, StatusKeanggotaan, "Aktif", eq))
      && resp.counters.inactiveUsers == SqlCount(q.rows, r => IsNe(r, StatusKeanggotaan, "Aktif", eq))
      && resp.counters.predikatBaik == SqlCount(q.rows, r => IsEq(r, Sanksi, "Baik", eq))
      && resp.counters.predikatBuruk == SqlCount(q.rows, r => IsNe(r, Sanksi, "Baik", eq))
  {
    match q
    case QueryError => Failed(500, "Server error")
    case Table(rows) => Ok(Aggregate(rows, eq))
  }
}
