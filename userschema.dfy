/**
 * The create-user form schema: per-field rules (name length, e-mail
 * syntax, role enumeration) followed by two cross-field refinements on the
 * password, with the issues each failure reports.
 */
module UserSchema {
  import opened Wrappers

  datatype Role = Admin | Cashier | Delivery | User

  function RoleName(r: Role): string {
    match r
    case Admin => "admin"
    case Cashier => "cashier"
    case Delivery => "delivery"
    case User => "user"
  }

  /** The enumeration check: the role whose name is `s`, if any. */
  function ParseRole(s: string): (r: Option<Role>)
    ensures r.Some? ==> RoleName(r.value) == s
    ensures r.None? ==> forall role :: RoleName(role) != s
  {
    if s == "admin" then Some(Admin)
    else if s == "cashier" then Some(Cashier)
    else if s == "delivery" then Some(Delivery)
    else if s == "user" then Some(User)
    else None
  }

  lemma ParseRoleName(role: Role)
    ensures ParseRole(RoleName(role)) == Some(role)
  {
  }

  /** The submitted form, with every field of its declared type. */
  datatype CreateUserInput = CreateUserInput(
    name: string,
    email: string,
    role: string,
    useGeneratedPassword: bool,
    password: Option<string>,
    confirmPassword: Option<string>,
    sendCredentials: bool,
    requireEmailVerification: bool)

  /** The parsed form values. */
  datatype CreateUserFormValues = CreateUserFormValues(
    name: string,
    email: string,
    role: Role,
    useGeneratedPassword: bool,
    password: Option<string>,
    confirmPassword: Option<string>,
    sendCredentials: bool,
    requireEmailVerification: bool)

  datatype Issue = NameTooShort | InvalidEmail | InvalidRole | PasswordTooShort | PasswordsDontMatch

  /** The field an issue is reported against. */
  function Path(issue: Issue): string {
    match issue
    case NameTooShort => "name"
    case InvalidEmail => "email"
    case InvalidRole => "role"
    case PasswordTooShort => "password"
    case PasswordsDontMatch => "confirmPassword"
  }

  const MinNameLength := 2
  const MinPasswordLength := 8

  /**
   * The first refinement: unless a password is generated, a password must be
   * given and be at least 8 characters (the empty string, which is falsy,
   * is below that length too).
   */
  predicate PasswordLongEnough(i: CreateUserInput) {
    i.useGeneratedPassword || (i.password.Some? && |i.password.value| >= MinPasswordLength)
  }

  /** The second refinement: unless a password is generated, it equals its confirmation (two absent values are equal). */
  predicate PasswordsMatch(i: CreateUserInput) {
    i.useGeneratedPassword || i.password == i.confirmPassword
  }

  /** The issues of the name and e-mail checks, which let parsing go on. */
  function FieldIssues(i: CreateUserInput, isEmail: string -> bool): (r: seq<Issue>)
    ensures forall k :: 0 <= k < |r| ==> r[k] == NameTooShort || r[k] == InvalidEmail
  {
    (if |i.name| < MinNameLength then [NameTooShort] else [])
    + (if !isEmail(i.email) then [InvalidEmail] else [])
  }

  /** The issues of the two refinements, each run and reported on its own. */
  function RefinementIssues(i: CreateUserInput): (r: seq<Issue>)
    ensures forall k :: 0 <= k < |r| ==> r[k] == PasswordTooShort || r[k] == PasswordsDontMatch
  {
    (if !PasswordLongEnough(i) then [PasswordTooShort] else [])
    + (if !PasswordsMatch(i) then [PasswordsDontMatch] else [])
  }

  /**
   * Parsing the form. The name and e-mail checks record an issue and let
   * parsing go on; an unknown role stops the object, so the refinements do
   * not run; otherwise both refinements run and each records its own issue.
   * `isEmail` stands for the library's e-mail syntax check.
   */
  function Parse(i: CreateUserInput, isEmail: string -> bool): (r: Result<CreateUserFormValues, seq<Issue>>)
    ensures r.Ok? <==> |i.name| >= MinNameLength && isEmail(i.email) && ParseRole(i.role).Some?
                       && PasswordLongEnough(i) && PasswordsMatch(i)
    ensures r.Err? ==> r.error != []
    ensures r.Ok? ==> RoleName(r.value.role) == i.role
  {
    match ParseRole(i.role)
    case None => Err(FieldIssues(i, isEmail) + [InvalidRole])
    case Some(role) =>
      var issues := FieldIssues(i, isEmail) + RefinementIssues(i);
      if issues == [] then
        Ok(CreateUserFormValues(i.name, i.email, role, i.useGeneratedPassword, i.password,
                                i.confirmPassword, i.sendCredentials, i.requireEmailVerification))
      else Err(issues)
  }

  /** `s` is the name of one of the roles. */
  ghost predicate IsRoleName(s: string) {
    exists role :: RoleName(role) == s
  }

  /** When each issue is raised, stated on the submitted form. */
  ghost predicate Raised(i: CreateUserInput, isEmail: string -> bool, issue: Issue) {
    match issue
    case NameTooShort => |i.name| < 2
    case InvalidEmail => !isEmail(i.email)
    case InvalidRole => !IsRoleName(i.role)
    case PasswordTooShort =>
      IsRoleName(i.role) && !i.useGeneratedPassword
      && (i.password.None? || |i.password.value| < 8)
    case PasswordsDontMatch =>
      IsRoleName(i.role) && !i.useGeneratedPassword
      && i.password != i.confirmPassword
  }

  /** No issue occurs twice in a list of issues. */
  predicate NoRepeats(e: seq<Issue>) {
    forall j, k :: 0 <= j < k < |e| ==> e[j] != e[k]
  }

  /** The issues a parse reports, stated through the two groups of checks. */
  lemma ParseIssues(i: CreateUserInput, isEmail: string -> bool)
    ensures Parse(i, isEmail).Err? ==>
      Parse(i, isEmail).error
      == FieldIssues(i, isEmail) + (if ParseRole(i.role).None? then [InvalidRole] else RefinementIssues(i))
  {
  }

  /** A rejected form reports exactly the issues raised; an accepted form raised none. */
  lemma ParseReportsExactly(i: CreateUserInput, isEmail: string -> bool, issue: Issue)
    ensures Parse(i, isEmail).Err? ==> (issue in Parse(i, isEmail).error <==> Raised(i, isEmail, issue))
    ensures Parse(i, isEmail).Ok? ==> !Raised(i, isEmail, issue)
  {
    ParseIssues(i, isEmail);
    var f := FieldIssues(i, isEmail);
    var g := if ParseRole(i.role).None? then [InvalidRole] else RefinementIssues(i);
    assert issue in f + g <==> issue in f || issue in g;
  }

  /** Joining two lists without repeats and with no issue in common gives a list without repeats. */
  lemma NoRepeatsAppend(f: seq<Issue>, g: seq<Issue>)
    requires NoRepeats(f) && NoRepeats(g)
    requires forall j, k :: 0 <= j < |f| && 0 <= k < |g| ==> f[j] != g[k]
    ensures NoRepeats(f + g)
  {
    forall j, k | 0 <= j < k < |f + g| ensures (f + g)[j] != (f + g)[k] {
      if k < |f| {
      } else if j >= |f| {
        assert (f + g)[j] == g[j - |f|] && (f + g)[k] == g[k - |f|];
      } else {
        assert (f + g)[j] == f[j] && (f + g)[k] == g[k - |f|];
      }
    }
  }

  /** A rejected form reports each issue at most once. */
  lemma ParseReportsEachOnce(i: CreateUserInput, isEmail: string -> bool)
    ensures Parse(i, isEmail).Err? ==> NoRepeats(Parse(i, isEmail).error)
  {
    ParseIssues(i, isEmail);
    var f := FieldIssues(i, isEmail);
    var g := if ParseRole(i.role).None? then [InvalidRole] else RefinementIssues(i);
    NoRepeatsAppend(f, g);
  }

  /** An accepted form keeps every submitted value. */
  lemma ParseKeepsValues(i: CreateUserInput, isEmail: string -> bool)
    requires Parse(i, isEmail).Ok?
    ensures var v := Parse(i, isEmail).value;
            v.name == i.name && v.email == i.email && RoleName(v.role) == i.role
            && v.useGeneratedPassword == i.useGeneratedPassword && v.password == i.password
            && v.confirmPassword == i.confirmPassword && v.sendCredentials == i.sendCredentials
            && v.requireEmailVerification == i.requireEmailVerification
  {
  }

  /** A name shorter than two characters is rejected at "name". */
  lemma ShortNameRejected(i: CreateUserInput, isEmail: string -> bool)
    requires |i.name| < 2
    ensures Parse(i, isEmail).Err? && NameTooShort in Parse(i, isEmail).error
    ensures Path(NameTooShort) == "name"
  {
  }

  /** A role outside admin, cashier, delivery and user is rejected, and the password refinements are not reached. */
  lemma UnknownRoleRejected(i: CreateUserInput, isEmail: string -> bool)
    requires !IsRoleName(i.role)
    ensures Parse(i, isEmail).Err? && InvalidRole in Parse(i, isEmail).error
    ensures PasswordTooShort !in Parse(i, isEmail).error && PasswordsDontMatch !in Parse(i, isEmail).error
  {
  }

  /** With a generated password, neither refinement reports anything, whatever the password fields hold. */
  lemma GeneratedPasswordSkipsRefinements(i: CreateUserInput, isEmail: string -> bool)
    requires i.useGeneratedPassword
    ensures Parse(i, isEmail).Ok? <==> |i.name| >= 2 && isEmail(i.email) && ParseRole(i.role).Some?
    ensures Parse(i, isEmail).Err? ==>
              PasswordTooShort !in Parse(i, isEmail).error && PasswordsDontMatch !in Parse(i, isEmail).error
  {
  }

  /** Without a generated password, a missing password or one under 8 characters is rejected, reported at "password". */
  lemma ShortPasswordRejected(i: CreateUserInput, isEmail: string -> bool)
    requires !i.useGeneratedPassword
    requires i.password.None? || |i.password.value| < 8
    ensures Parse(i, isEmail).Err?
    ensures ParseRole(i.role).Some? ==> PasswordTooShort in Parse(i, isEmail).error
    ensures Path(PasswordTooShort) == "password"
  {
  }

  /** Without a generated password, a password that differs from its confirmation is rejected, reported at "confirmPassword". */
  lemma MismatchRejected(i: CreateUserInput, isEmail: string -> bool)
    requires !i.useGeneratedPassword
    requires i.password != i.confirmPassword
    ensures Parse(i, isEmail).Err?
    ensures ParseRole(i.role).Some? ==> PasswordsDontMatch in Parse(i, isEmail).error
    ensures Path(PasswordsDontMatch) == "confirmPassword"
  {
  }

  /** A valid name, e-mail and role with a confirmed password of 8 or more characters is accepted. */
  lemma ValidFormAccepted(i: CreateUserInput, isEmail: string -> bool)
    requires |i.name| >= 2 && isEmail(i.email) && IsRoleName(i.role)
    requires !i.useGeneratedPassword
    requires i.password.Some? && |i.password.value| >= 8 && i.confirmPassword == i.password
    ensures Parse(i, isEmail).Ok?
  {
  }
}
