/**
 * The bean-validation constraints on the sale and registration bodies, as
 * predicates, and the set of violated fields a validator reports; the shared
 * `@NotBlank` test. The summary and login bodies are checked next to their
 * endpoints, with the same test.
 */
module Validation {
  import opened Base
  import opened JavaString
  import opened Entities

  /** The body of a create or update sale call; money in cents. */
  datatype SaleRequest = SaleRequest(
    sku: Option<string>,
    units: int,
    priceCents: int,
    branch: Option<string>,
    soldAt: Option<Instant>)

  /**
   * `@NotBlank` as the validator checks it: present, and not empty after
   * `trim()`. This is not `String.isBlank()`: a Unicode space passes it and a
   * control character below U+0020 fails it.
   */
  predicate NotBlankField(o: Option<string>) {
    o.Some? && Trim(o.value) != []
  }

  /** A field passes `@NotBlank` exactly when it has a character above U+0020. */
  lemma NotBlankFieldIff(o: Option<string>)
    ensures NotBlankField(o) <==> o.Some? && exists i :: 0 <= i < |o.value| && !IsTrimmable(o.value[i])
  {
    if o.Some? {
      TrimEmptyIff(o.value);
    }
  }

  /** The two notions of blank disagree both ways: on an em space and on a control character. */
  lemma NotBlankFieldIsNotIsBlank()
    ensures NotBlankField(Some("\U{2003}")) && NullOrBlank(Some("\U{2003}"))
    ensures !NotBlankField(Some("\U{0001}")) && !NullOrBlank(Some("\U{0001}"))
  {
    NotBlankFieldIff(Some("\U{2003}"));
    NotBlankFieldIff(Some("\U{0001}"));
    assert !IsWhitespace("\U{0001}"[0]);
  }

  /** `@NotBlank` sku and branch, `@Min(1)` units, `@DecimalMin(value = "0.0", inclusive = false)` price, `@NotNull` soldAt. */
  predicate ValidSaleRequest(r: SaleRequest) {
    && NotBlankField(r.sku)
    && r.units >= 1
    && r.priceCents > 0
    && NotBlankField(r.branch)
    && r.soldAt.Some?
  }

  /** The sale fields named by their failure flags. */
  function SaleFields(sku: bool, units: bool, price: bool, branch: bool, soldAt: bool): (v: set<string>)
    ensures v <= {"sku", "units", "price", "branch", "soldAt"}
    ensures ("sku" in v <==> sku) && ("units" in v <==> units) && ("price" in v <==> price)
    ensures ("branch" in v <==> branch) && ("soldAt" in v <==> soldAt)
  {
    (if sku then {"sku"} else {})
    + (if units then {"units"} else {})
    + (if price then {"price"} else {})
    + (if branch then {"branch"} else {})
    + (if soldAt then {"soldAt"} else {})
  }

  /** The names of the fields whose constraint fails. */
  function SaleRequestViolations(r: SaleRequest): (v: set<string>)
    ensures v == {} <==> ValidSaleRequest(r)
    ensures v <= {"sku", "units", "price", "branch", "soldAt"}
    ensures "units" in v <==> r.units < 1
    ensures "price" in v <==> r.priceCents <= 0
    ensures "sku" in v <==> !NotBlankField(r.sku)
    ensures "branch" in v <==> !NotBlankField(r.branch)
    ensures "soldAt" in v <==> r.soldAt.None?
  {
    SaleFields(!NotBlankField(r.sku), r.units < 1, r.priceCents <= 0, !NotBlankField(r.branch), r.soldAt.None?)
  }

  /** The body of a registration call. */
  datatype RegisterRequest = RegisterRequest(
    username: Option<string>,
    email: Option<string>,
    password: Option<string>,
    role: Option<string>,
    branch: Option<string>)

  /** The character class `[A-Za-z0-9_.]`. */
  predicate IsUsernameChar(c: char) {
    ('A' <= c <= 'Z') || ('a' <= c <= 'z') || ('0' <= c <= '9') || c == '_' || c == '.'
  }

  /** `@NotBlank @Size(min = 3, max = 30) @Pattern(regexp = "^[A-Za-z0-9_.]+$")` */
  predicate ValidUsername(u: Option<string>) {
    && NotBlankField(u)
    && 3 <= |u.value| <= 30
    && forall i :: 0 <= i < |u.value| ==> IsUsernameChar(u.value[i])
  }

  /**
   * The registration constraints: username as above, a non-blank email, a
   * non-blank password of at least 8 characters, and a role that is exactly
   * CENTRAL or BRANCH. The branch is not constrained here.
   */
  predicate ValidRegisterRequest(r: RegisterRequest) {
    && ValidUsername(r.username)
    && NotBlankField(r.email)
    && NotBlankField(r.password) && |r.password.value| >= 8
    && (r.role == Some("CENTRAL") || r.role == Some("BRANCH"))
  }

  /** The registration fields named by their failure flags. */
  function RegisterFields(username: bool, email: bool, password: bool, role: bool): (v: set<string>)
    ensures v <= {"username", "email", "password", "role"}
    ensures ("username" in v <==> username) && ("email" in v <==> email)
    ensures ("password" in v <==> password) && ("role" in v <==> role)
  {
    (if username then {"username"} else {})
    + (if email then {"email"} else {})
    + (if password then {"password"} else {})
    + (if role then {"role"} else {})
  }

  /** The names of the fields whose constraint fails. */
  function RegisterRequestViolations(r: RegisterRequest): (v: set<string>)
    ensures v == {} <==> ValidRegisterRequest(r)
    ensures v <= {"username", "email", "password", "role"}
    ensures "role" in v <==> RoleValueOf(r.role).None?
    ensures "username" in v <==> !ValidUsername(r.username)
    ensures "email" in v <==> !NotBlankField(r.email)
    ensures "password" in v <==> !(NotBlankField(r.password) && |r.password.value| >= 8)
  {
    RegisterFields(!ValidUsername(r.username), !NotBlankField(r.email),
                   !(NotBlankField(r.password) && |r.password.value| >= 8),
                   !(r.role == Some("CENTRAL") || r.role == Some("BRANCH")))
  }

  /** A valid username is never blank: its characters are all visible. */
  lemma ValidUsernameHasNoWhitespace(u: Option<string>)
    requires ValidUsername(u)
    ensures forall i :: 0 <= i < |u.value| ==> !IsWhitespace(u.value[i])
  {
  }
}
