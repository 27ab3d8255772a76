/** The mock user table and the authentication state
    (src/context/AuthContext.tsx): login by exact match on email, password
    and role, registration with a duplicate-email check, and logout.

    The saved session in the browser's storage is read only at start-up;
    its content is a parameter of `RestoreSession`, and writing it is left
    out. */
module Auth {
  import opened Wrappers
  import opened Types
  import Seqs
  import Decimal

  datatype AuthError =
    | InvalidCredentials   // "Invalid credentials or user role"
    | EmailInUse           // "Email already in use"

  /** A row of the user table: the user and the password stored beside it. */
  datatype UserRecord = UserRecord(profile: User, password: string)

  /** The seeded table; `createdAt` is the time the table was built. */
  function MockUsers(createdAt: string): seq<UserRecord> {
    [ UserRecord(User("s1", "John Seller", "seller@example.com", Some("+1234567890"), Seller, createdAt), "password"),
      UserRecord(User("b1", "Alice Buyer", "buyer@example.com", Some("+1987654321"), Buyer, createdAt), "password"),
      UserRecord(User("t1", "Tech Expert", "tech@example.com", Some("+1555123456"), Technician, createdAt), "password") ]
  }

  function RoleName(r: UserRole): string {
    match r
    case Seller => "seller"
    case Buyer => "buyer"
    case Technician => "technician"
  }

  /** `role[0]`, the first letter of the role's name. */
  function RoleLetter(r: UserRole): char {
    RoleName(r)[0]
  }

  /** The three roles begin with different letters. */
  lemma RoleLetterInjective(q: UserRole, r: UserRole)
    requires RoleLetter(q) == RoleLetter(r)
    ensures q == r
  {
  }

  /** The id given to a user registered as the k-th row: `${role[0]}${k}`. */
  function UserId(role: UserRole, k: nat): string {
    [RoleLetter(role)] + Decimal.NatToString(k)
  }

  // ------------------------------------------------------------------
  // Queries on the table

  predicate Matches(u: UserRecord, email: string, password: string, role: UserRole) {
    u.profile.email == email && u.password == password && u.profile.role == role
  }

  /** The credential lookup of `login`: the first row matching all three. */
  function FindUser(users: seq<UserRecord>, email: string, password: string, role: UserRole)
    : (r: Option<UserRecord>)
    ensures r.Some? <==> exists i :: 0 <= i < |users| && Matches(users[i], email, password, role)
    ensures r.Some? ==>
      exists i :: 0 <= i < |users| && users[i] == r.value && Matches(r.value, email, password, role)
        && forall j :: 0 <= j < i ==> !Matches(users[j], email, password, role)
  {
    match Seqs.FirstIndex(users, (u: UserRecord) => Matches(u, email, password, role))
    case None => None
    case Some(k) => Some(users[k])
  }

  /** The duplicate check of `register`. */
  predicate EmailTaken(users: seq<UserRecord>, email: string) {
    exists i :: 0 <= i < |users| && users[i].profile.email == email
  }

  // ------------------------------------------------------------------
  // What the table always satisfies

  ghost predicate EmailsUnique(users: seq<UserRecord>) {
    forall i, j :: 0 <= i < j < |users| ==> users[i].profile.email != users[j].profile.email
  }

  /** The counter in the id of row i: 1 for the three seeded rows, i + 1
      for a registered row. */
  function IdNumber(i: nat): nat {
    if i < 3 then 1 else i + 1
  }

  /** The seeded rows are a seller, a buyer and a technician, and every row's
      id is its role's letter followed by its counter. */
  ghost predicate IdsShaped(users: seq<UserRecord>) {
    && |users| >= 3
    && users[0].profile.role == Seller && users[1].profile.role == Buyer
    && users[2].profile.role == Technician
    && forall i :: 0 <= i < |users| ==> users[i].profile.id == UserId(users[i].profile.role, IdNumber(i))
  }

  ghost predicate TableInvariant(users: seq<UserRecord>) {
    EmailsUnique(users) && IdsShaped(users)
  }

  lemma MockUsersSatisfyInvariant(createdAt: string)
    ensures TableInvariant(MockUsers(createdAt))
  {
    assert Decimal.NatToString(1) == "1";
  }

  /** User ids are unique. */
  lemma IdsUnique(users: seq<UserRecord>, i: nat, j: nat)
    requires IdsShaped(users) && i < |users| && j < |users|
    requires users[i].profile.id == users[j].profile.id
    ensures i == j
  {
    var ri, rj := users[i].profile.role, users[j].profile.role;
    Decimal.TaggedInjective(RoleLetter(ri), RoleLetter(rj), IdNumber(i), IdNumber(j));
    RoleLetterInjective(ri, rj);
  }

  // ------------------------------------------------------------------
  // The operations, on values

  /** login: the state becomes the matching user, without the password. */
  function Authenticate(users: seq<UserRecord>, email: string, password: string, role: UserRole)
    : (r: Result<AuthState, AuthError>)
    ensures r.Ok? <==> exists i :: 0 <= i < |users| && Matches(users[i], email, password, role)
    ensures r.Err? ==> r.error == InvalidCredentials
    ensures r.Ok? ==>
      && r.value.isAuthenticated && !r.value.loading && r.value.user.Some?
      && exists i :: 0 <= i < |users| && Matches(users[i], email, password, role)
           && r.value.user.value == users[i].profile
  {
    match FindUser(users, email, password, role)
    case None => Err(InvalidCredentials)
    case Some(u) => Ok(AuthState(Some(u.profile), true, false))
  }

  /** The row `register` appends. */
  function NewUser(users: seq<UserRecord>, name: string, email: string, password: string,
                   phoneNumber: string, role: UserRole, now: string): UserRecord {
    UserRecord(User(UserId(role, |users| + 1), name, email, Some(phoneNumber), role, now), password)
  }

  /** register: append a user unless the email is already in the table. */
  function AddUser(users: seq<UserRecord>, name: string, email: string, password: string,
                    phoneNumber: string, role: UserRole, now: string)
    : (r: Result<seq<UserRecord>, AuthError>)
    ensures r.Err? <==> EmailTaken(users, email)
    ensures r.Err? ==> r.error == EmailInUse
    ensures r.Ok? ==> |r.value| == |users| + 1 && r.value[..|users|] == users
    ensures r.Ok? ==>
      var u := r.value[|users|];
      && u.profile.id == UserId(role, |users| + 1)
      && u.profile.email == email && u.password == password && u.profile.role == role
      && u.profile.name == name && u.profile.phoneNumber == Some(phoneNumber)
  {
    if EmailTaken(users, email) then Err(EmailInUse)
    else
      var u := NewUser(users, name, email, password, phoneNumber, role, now);
      assert (users + [u])[..|users|] == users;
      Ok(users + [u])
  }

  /** Registration keeps emails and ids unique. */
  lemma RegisterKeepsInvariant(users: seq<UserRecord>, name: string, email: string, password: string,
                               phoneNumber: string, role: UserRole, now: string)
    requires TableInvariant(users)
    requires AddUser(users, name, email, password, phoneNumber, role, now).Ok?
    ensures TableInvariant(AddUser(users, name, email, password, phoneNumber, role, now).value)
  {
    var after := AddUser(users, name, email, password, phoneNumber, role, now).value;
    assert after == users + [after[|users|]];
    forall i, j | 0 <= i < j < |after| ensures after[i].profile.email != after[j].profile.email {
      if j == |users| {
        assert after[i] == users[i];
      }
    }
  }

  /** Right after registering, logging in with the same email, password
      and role succeeds, as the new user. */
  lemma LoginAfterRegister(users: seq<UserRecord>, name: string, email: string, password: string,
                           phoneNumber: string, role: UserRole, now: string)
    requires AddUser(users, name, email, password, phoneNumber, role, now).Ok?
    ensures var after := AddUser(users, name, email, password, phoneNumber, role, now).value;
      Authenticate(after, email, password, role) == Ok(AuthState(Some(after[|users|].profile), true, false))
  {
    var after := AddUser(users, name, email, password, phoneNumber, role, now).value;
    var hit := (u: UserRecord) => Matches(u, email, password, role);
    forall j | 0 <= j < |users| ensures !hit(after[j]) {
      assert after[j] == users[j];
    }
    assert hit(after[|users|]);
  }

  /** Registration only adds a row at the end: every login that succeeded
      before still succeeds, as the same user, because the lookup returns the
      first matching row and an append leaves that row first. */
  lemma RegisterKeepsLogins(users: seq<UserRecord>, name: string, email: string, password: string,
                            phoneNumber: string, role: UserRole, now: string,
                            e: string, p: string, q: UserRole)
    requires AddUser(users, name, email, password, phoneNumber, role, now).Ok?
    requires Authenticate(users, e, p, q).Ok?
    ensures Authenticate(AddUser(users, name, email, password, phoneNumber, role, now).value, e, p, q)
         == Authenticate(users, e, p, q)
  {
    var after := AddUser(users, name, email, password, phoneNumber, role, now).value;
    var hit := (u: UserRecord) => Matches(u, e, p, q);
    assert after == users + [after[|users|]];
    Seqs.FirstIndexSnoc(users, after[|users|], hit);
    assert after[Seqs.FirstIndex(users, hit).value] == users[Seqs.FirstIndex(users, hit).value];
  }

  // ------------------------------------------------------------------
  // The provider

  class AuthStore {
    var users: seq<UserRecord>
    var authState: AuthState

    ghost predicate Valid()
      reads this
    {
      TableInvariant(users)
    }

    /** The seeded table and the provider's initial state. */
    constructor (createdAt: string)
      ensures Valid() && users == MockUsers(createdAt)
      ensures authState == AuthState(None, false, true)
    {
      MockUsersSatisfyInvariant(createdAt);
      users := MockUsers(createdAt);
      authState := AuthState(None, false, true);
    }

    /** The start-up effect, given the saved user (if any). */
    method RestoreSession(saved: Option<User>)
      modifies this`authState
      ensures saved.Some? ==> authState == AuthState(saved, true, false)
      ensures saved.None? ==> authState == old(authState).(loading := false)
    {
      if saved.Some? {
        authState := AuthState(saved, true, false);
      } else {
        authState := authState.(loading := false);
      }
    }

    method Login(email: string, password: string, role: UserRole) returns (r: Outcome<AuthError>)
      modifies this`authState
      ensures Authenticate(users, email, password, role).Err? ==>
        r == Fail(InvalidCredentials) && authState == old(authState)
      ensures Authenticate(users, email, password, role).Ok? ==>
        r == Pass && authState == Authenticate(users, email, password, role).value
    {
      var found := FindUser(users, email, password, role);
      if found.None? {
        return Fail(InvalidCredentials);
      }
      authState := AuthState(Some(found.value.profile), true, false);
      r := Pass;
    }

    method Register(name: string, email: string, password: string, phoneNumber: string,
                    role: UserRole, now: string) returns (r: Outcome<AuthError>)
      requires Valid()
      modifies this
      ensures Valid()
      ensures AddUser(old(users), name, email, password, phoneNumber, role, now).Err? ==>
        r == Fail(EmailInUse) && users == old(users) && authState == old(authState)
      ensures AddUser(old(users), name, email, password, phoneNumber, role, now).Ok? ==>
        && r == Pass
        && users == AddUser(old(users), name, email, password, phoneNumber, role, now).value
        && authState == AuthState(Some(users[|users| - 1].profile), true, false)
    {
      if exists i :: 0 <= i < |users| && users[i].profile.email == email {
        return Fail(EmailInUse);
      }
      RegisterKeepsInvariant(users, name, email, password, phoneNumber, role, now);
      var u := NewUser(users, name, email, password, phoneNumber, role, now);
      users := users + [u];
      authState := AuthState(Some(u.profile), true, false);
      r := Pass;
    }

    method Logout()
      modifies this`authState
      ensures authState == AuthState(None, false, false)
    {
      authState := AuthState(None, false, false);
    }
  }
}
