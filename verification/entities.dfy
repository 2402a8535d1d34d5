/**
 * The persisted records (Sale, User, ReportRequest), the two enums, and the
 * defaulting each record applies just before its first insert (`@PrePersist`).
 * The clock and the random UUID are parameters.
 */
module Entities {
  import opened Base
  import opened JavaString

  /** An instant, in whole seconds since 1970-01-01T00:00:00Z. */
  type Instant = int

  /** A calendar date, as the number of days since 1970-01-01. */
  type LocalDate = int

  datatype Role = CENTRAL | BRANCH

  function RoleName(r: Role): string {
    match r
    case CENTRAL => "CENTRAL"
    case BRANCH => "BRANCH"
  }

  /** `Role.valueOf`: the role with exactly that name; `None` where Java throws (also for null). */
  function RoleValueOf(s: Option<string>): (r: Option<Role>)
    ensures r.Some? ==> s == Some(RoleName(r.value))
  {
    if s == Some("CENTRAL") then Some(CENTRAL)
    else if s == Some("BRANCH") then Some(BRANCH)
    else None
  }

  /**
   * `"CENTRAL".equals(role)` / `"BRANCH".equals(role)` for the role text the
   * controllers read from the security context; false for null.
   */
  predicate HasRole(role: Option<string>, r: Role) {
    role == Some(RoleName(r))
  }

  /** Every role is found again from its name. */
  lemma RoleValueOfName(r: Role)
    ensures RoleValueOf(Some(RoleName(r))) == Some(r)
  {
  }

  /** The lifecycle of a report request: PROCESSING, then DONE or FAILED. */
  datatype Status = PROCESSING | DONE | FAILED

  function StatusName(s: Status): string {
    match s
    case PROCESSING => "PROCESSING"
    case DONE => "DONE"
    case FAILED => "FAILED"
  }

  /** The three statuses have three distinct names. */
  lemma StatusNameInjective(a: Status, b: Status)
    requires StatusName(a) == StatusName(b)
    ensures a == b
  {
  }

  /** A generated id: a fixed prefix, then the UUID's text with its dashes removed. */
  function GeneratedId(prefix: string, uuid: string): (r: string)
    requires prefix != [] && !IsWhitespace(prefix[0])
    ensures !IsBlank(r)
    ensures StartsWith(r, prefix) && '-' !in r[|prefix|..]
  {
    var r := prefix + RemoveAll(uuid, '-');
    NotBlankByFirst(r);
    assert r[|prefix|..] == RemoveAll(uuid, '-');
    r
  }

  /**
   * A UUID's text without dashes is kept whole after the prefix, so two
   * different such texts give two different ids.
   */
  lemma GeneratedIdInjective(prefix: string, u1: string, u2: string)
    requires prefix != [] && !IsWhitespace(prefix[0])
    requires '-' !in u1 && '-' !in u2
    ensures GeneratedId(prefix, u1) == prefix + u1
    ensures u1 != u2 ==> GeneratedId(prefix, u1) != GeneratedId(prefix, u2)
  {
    RemoveAllAbsent(u1, '-');
    RemoveAllAbsent(u2, '-');
    assert (prefix + u1)[|prefix|..] == u1 && (prefix + u2)[|prefix|..] == u2;
  }

  /** The id rule every `@PrePersist` shares: a missing or blank id becomes a generated one. */
  function FillId(id: Option<string>, prefix: string, uuid: string): (r: Option<string>)
    requires prefix != [] && !IsWhitespace(prefix[0])
    ensures !NullOrBlank(r)
    ensures !NullOrBlank(id) ==> r == id
    ensures NullOrBlank(id) ==> r == Some(GeneratedId(prefix, uuid))
  {
    if NullOrBlank(id) then Some(GeneratedId(prefix, uuid)) else id
  }

  /** The default rule for the other columns a `@PrePersist` fills: only a missing value is replaced. */
  function FillMissing<T>(o: Option<T>, default: T): (r: Option<T>)
    ensures r.Some?
    ensures o.Some? ==> r == o
    ensures o.None? ==> r == Some(default)
  {
    if o.None? then Some(default) else o
  }

  /** A row of the `sales` table. Every column but the id and creation time is NOT NULL. */
  datatype Sale = Sale(
    id: Option<string>,
    sku: string,
    units: int,
    priceCents: int,
    branch: string,
    soldAt: Instant,
    createdBy: string,
    createdAt: Option<Instant>)

  /** Sale's `@PrePersist`: a missing or blank id and a missing creation time are filled in. */
  function SalePrePersist(s: Sale, uuid: string, now: Instant): (r: Sale)
    ensures !NullOrBlank(r.id) && r.createdAt.Some?
    ensures !NullOrBlank(s.id) ==> r.id == s.id
    ensures NullOrBlank(s.id) ==> r.id == Some(GeneratedId("s_", uuid))
    ensures s.createdAt.Some? ==> r.createdAt == s.createdAt
    ensures s.createdAt.None? ==> r.createdAt == Some(now)
    ensures r.(id := s.id, createdAt := s.createdAt) == s
  {
    s.(id := FillId(s.id, "s_", uuid), createdAt := FillMissing(s.createdAt, now))
  }

  /** Applying Sale's defaulting twice is applying it once, whatever the second UUID and clock. */
  lemma SalePrePersistIdempotent(s: Sale, u1: string, t1: Instant, u2: string, t2: Instant)
    ensures SalePrePersist(SalePrePersist(s, u1, t1), u2, t2) == SalePrePersist(s, u1, t1)
  {
  }

  /** A row of the `users` table; the password column holds the encoded password. */
  datatype User = User(
    id: Option<string>,
    username: string,
    email: string,
    password: string,
    role: Role,
    branch: Option<string>,
    createdAt: Option<Instant>)

  /** User's `@PrePersist`: a missing or blank id and a missing creation time are filled in. */
  function UserPrePersist(u: User, uuid: string, now: Instant): (r: User)
    ensures !NullOrBlank(r.id) && r.createdAt.Some?
    ensures !NullOrBlank(u.id) ==> r.id == u.id
    ensures NullOrBlank(u.id) ==> r.id == Some(GeneratedId("u_", uuid))
    ensures u.createdAt.Some? ==> r.createdAt == u.createdAt
    ensures u.createdAt.None? ==> r.createdAt == Some(now)
    ensures r.(id := u.id, createdAt := u.createdAt) == u
  {
    u.(id := FillId(u.id, "u_", uuid), createdAt := FillMissing(u.createdAt, now))
  }

  /** Applying User's defaulting twice is applying it once. */
  lemma UserPrePersistIdempotent(u: User, u1: string, t1: Instant, u2: string, t2: Instant)
    ensures UserPrePersist(UserPrePersist(u, u1, t1), u2, t2) == UserPrePersist(u, u1, t1)
  {
  }

  /** A row of the `report_requests` table. */
  datatype ReportRequest = ReportRequest(
    id: Option<string>,
    fromDate: Option<LocalDate>,
    toDate: Option<LocalDate>,
    branch: Option<string>,
    emailTo: Option<string>,
    requestedBy: Option<string>,
    status: Option<Status>,
    requestedAt: Option<Instant>,
    completedAt: Option<Instant>,
    summaryText: Option<string>,
    errorMessage: Option<string>)

  /**
   * ReportRequest's `@PrePersist`: a missing or blank id, a missing request
   * time and a missing status (which becomes PROCESSING) are filled in.
   */
  function ReportPrePersist(rr: ReportRequest, uuid: string, now: Instant): (r: ReportRequest)
    ensures !NullOrBlank(r.id) && r.requestedAt.Some? && r.status.Some?
    ensures !NullOrBlank(rr.id) ==> r.id == rr.id
    ensures NullOrBlank(rr.id) ==> r.id == Some(GeneratedId("req_", uuid))
    ensures rr.requestedAt.Some? ==> r.requestedAt == rr.requestedAt
    ensures rr.requestedAt.None? ==> r.requestedAt == Some(now)
    ensures rr.status.Some? ==> r.status == rr.status
    ensures rr.status.None? ==> r.status == Some(PROCESSING)
    ensures r.(id := rr.id, requestedAt := rr.requestedAt, status := rr.status) == rr
  {
    rr.(id := FillId(rr.id, "req_", uuid),
        requestedAt := FillMissing(rr.requestedAt, now),
        status := FillMissing(rr.status, PROCESSING))
  }

  /** Applying ReportRequest's defaulting twice is applying it once. */
  lemma ReportPrePersistIdempotent(rr: ReportRequest, u1: string, t1: Instant, u2: string, t2: Instant)
    ensures ReportPrePersist(ReportPrePersist(rr, u1, t1), u2, t2) == ReportPrePersist(rr, u1, t1)
  {
  }
}
