/**
 * The bearer-token filter that fills the security context, and the three
 * readers the controllers use on it (current username, role and branch).
 * Token verification and claim extraction are given as one function of the
 * token; the signature scheme is not part of this model.
 */
module Security {
  import opened Base
  import opened JavaString
  import opened Entities

  /** What the authentication in the security context holds. */
  datatype Authentication = Authentication(principal: Option<string>, authorities: seq<string>, details: Option<string>)

  /** One claim read from a verified token: its value, or a thrown exception. */
  datatype Claim = Read(value: Option<string>) | ClaimThrew

  /** The token provider's verdict on a token, with the claims the filter reads. */
  datatype Verification =
    | Rejected
    | VerifyThrew
    | Accepted(username: Claim, role: Claim, branch: Claim)

  /** The result of one pass through the filter. */
  datatype FilterResult = FilterResult(context: Option<Authentication>, chainCalls: nat)

  const BearerPrefix := "Bearer "
  const RolePrefix := "ROLE_"

  /** The authorities granted for a role claim: one `ROLE_` authority, none when null or blank. */
  function Authorities(role: Option<string>): (r: seq<string>)
    ensures NullOrBlank(role) <==> r == []
    ensures !NullOrBlank(role) ==> r == [RolePrefix + role.value]
  {
    if role.Some? && !IsBlank(role.value) then [RolePrefix + role.value] else []
  }

  /**
   * `doFilterInternal`. A request without an `Authorization` header starting
   * with `Bearer ` leaves the context as it was; otherwise the token is the
   * rest of the header. A rejected token changes nothing, a verified one
   * installs the username, the role authority and the branch claim (null
   * when it cannot be read), and any other exception clears the context.
   * The rest of the chain runs exactly once on every path.
   */
  function Filter(header: Option<string>, verify: string -> Verification, context: Option<Authentication>): (r: FilterResult)
    ensures r.chainCalls == 1
    ensures (header.None? || !StartsWith(header.value, BearerPrefix)) ==> r.context == context
    ensures header.Some? && StartsWith(header.value, BearerPrefix) ==>
      var token := header.value[|BearerPrefix|..];
      && header.value == BearerPrefix + token
      && (verify(token).Rejected? ==> r.context == context)
      && (verify(token).VerifyThrew? ==> r.context.None?)
      && (verify(token).Accepted? ==>
            if verify(token).username.ClaimThrew? || verify(token).role.ClaimThrew? then r.context.None?
            else
              && r.context.Some?
              && r.context.value.principal == verify(token).username.value
              && r.context.value.authorities == Authorities(verify(token).role.value)
              && r.context.value.details == (if verify(token).branch.Read? then verify(token).branch.value else None))
  {
    var next := if header.Some? && StartsWith(header.value, BearerPrefix) then
      var token := header.value[|BearerPrefix|..];
      assert header.value == BearerPrefix + token;
      match verify(token)
      case Rejected => context
      case VerifyThrew => None
      case Accepted(username, role, branch) =>
        if username.ClaimThrew? || role.ClaimThrew? then None
        else
          var details := if branch.Read? then branch.value else None;
          Some(Authentication(username.value, Authorities(role.value), details))
    else context;
    FilterResult(next, 1)
  }

  /** `currentUsername`: the principal, or null without an authentication. */
  function CurrentUsername(auth: Option<Authentication>): (r: Option<string>)
    ensures auth.None? ==> r.None?
    ensures auth.Some? ==> r == auth.value.principal
  {
    if auth.Some? then auth.value.principal else None
  }

  /** The first authority with the `ROLE_` prefix, without it. */
  function FirstRole(authorities: seq<string>): (r: Option<string>)
    ensures r.None? <==> forall i :: 0 <= i < |authorities| ==> !StartsWith(authorities[i], RolePrefix)
    ensures r.Some? ==> exists i :: (0 <= i < |authorities| && authorities[i] == RolePrefix + r.value
      && forall j :: 0 <= j < i ==> !StartsWith(authorities[j], RolePrefix))
  {
    if authorities == [] then None
    else if StartsWith(authorities[0], RolePrefix) then
      assert authorities[0] == RolePrefix + authorities[0][|RolePrefix|..];
      Some(authorities[0][|RolePrefix|..])
    else
      var r := FirstRole(authorities[1..]);
      assert forall i :: 1 <= i < |authorities| ==> authorities[i] == authorities[1..][i - 1];
      r
  }

  /** `currentRole`: the role named by the first `ROLE_` authority, or null. */
  function CurrentRole(auth: Option<Authentication>): (r: Option<string>)
    ensures auth.None? ==> r.None?
    ensures auth.Some? ==> r == FirstRole(auth.value.authorities)
  {
    if auth.Some? then FirstRole(auth.value.authorities) else None
  }

  /** `currentBranch`: the details as text, or null. */
  function CurrentBranch(auth: Option<Authentication>): (r: Option<string>)
    ensures auth.None? ==> r.None?
    ensures auth.Some? ==> r == auth.value.details
  {
    if auth.Some? then auth.value.details else None
  }

  /** Stripping the prefix undoes adding it. */
  lemma StripRolePrefix(role: string)
    ensures FirstRole([RolePrefix + role]) == Some(role)
  {
    var a := RolePrefix + role;
    assert StartsWith(a, RolePrefix);
    assert a[|RolePrefix|..] == role;
  }

  /**
   * After the filter accepts a token, the controllers read back exactly the
   * token's username, its role when non-blank (null otherwise) and its branch.
   */
  lemma FilterThenCurrent(token: string, verify: string -> Verification, context: Option<Authentication>,
                          username: Option<string>, role: Option<string>, branch: Option<string>)
    requires verify(token) == Accepted(Read(username), Read(role), Read(branch))
    ensures var ctx := Filter(Some(BearerPrefix + token), verify, context).context;
      && CurrentUsername(ctx) == username
      && CurrentRole(ctx) == (if NullOrBlank(role) then None else role)
      && CurrentBranch(ctx) == branch
  {
    var h := BearerPrefix + token;
    assert StartsWith(h, BearerPrefix);
    assert h[|BearerPrefix|..] == token;
    if !NullOrBlank(role) {
      StripRolePrefix(role.value);
    }
  }

  /** A BRANCH claim in the token makes the caller a BRANCH user for every role check. */
  lemma BranchClaimGivesBranchRole(token: string, verify: string -> Verification, context: Option<Authentication>,
                                   username: Option<string>, branch: Claim)
    requires verify(token) == Accepted(Read(username), Read(Some("BRANCH")), branch)
    ensures HasRole(CurrentRole(Filter(Some(BearerPrefix + token), verify, context).context), BRANCH)
  {
    var h := BearerPrefix + token;
    assert StartsWith(h, BearerPrefix);
    assert h[|BearerPrefix|..] == token;
    assert !IsBlank("BRANCH") by { assert !IsWhitespace("BRANCH"[0]); }
    StripRolePrefix("BRANCH");
  }
}
