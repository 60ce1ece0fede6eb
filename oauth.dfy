/** What happens after a Google sign-in succeeds (`OAuth2SuccessHandler`): the
    account with the signed-in e-mail is reused, or one is created from the
    e-mail and the display name; then, unless the response is already
    committed, a refresh token is stored for the account. Token and cookie
    generation are left to their callers: the refresh-token value arrives as a
    parameter. */
module OAuthLogin {
  import opened Wrappers
  import opened Text
  import opened Entities
  import opened Tokens

  /** The columns of a `users` row that sign-in reads or writes. `None` is SQL `NULL`. */
  datatype Account = Account(
    id: Uuid,
    email: string,
    username: string,
    firstName: Option<string>,
    lastName: string,
    password: Option<string>,
    emailVerified: bool)

  datatype NameParts = NameParts(firstName: Option<string>, lastName: string)

  /** The database's refusal of a new row: `first_name` is `NOT NULL`, `username` is unique. */
  const FirstNameNull := "DataIntegrityViolationException: first_name is null"
  const UsernameTaken := "DataIntegrityViolationException: duplicate username"

  /** The display name split at its first blank (U+0020): a missing name gives no first name and an
      empty last name; a name without a blank is all first name. */
  function SplitName(fullName: Option<string>): (r: NameParts)
    ensures fullName.None? ==> r == NameParts(None, "")
    ensures fullName.Some? && ' ' !in fullName.value ==> r == NameParts(fullName, "")
    ensures fullName.Some? && ' ' in fullName.value ==>
      r.firstName.Some? && ' ' !in r.firstName.value && r.firstName.value + " " + r.lastName == fullName.value
  {
    if fullName.Some? && ' ' in fullName.value then
      var name := fullName.value;
      var k := IndexOfChar(name, ' ');
      assert name == name[..k] + " " + name[k + 1..];
      NameParts(Some(name[..k]), name[k + 1..])
    else NameParts(fullName, "")
  }

  /** The split is the only one whose first part has no blank: any `first` without a blank with
      `first + " " + last == name` is what `SplitName` returns. */
  lemma SplitNameUnique(name: string, first: string, last: string)
    requires ' ' !in first && first + " " + last == name
    ensures SplitName(Some(name)) == NameParts(Some(first), last)
  {
    assert name[|first|] == ' ';
    var r := SplitName(Some(name));
    var f := r.firstName.value;
    assert f + " " + r.lastName == name;
    assert name[|f|] == ' ';
    assert forall i :: 0 <= i < |first| ==> name[i] == first[i];
    assert forall i :: 0 <= i < |f| ==> name[i] == f[i];
    assert |f| == |first|;
    assert f == name[..|f|] == first;
    assert r.lastName == name[|f| + 1..] == last;
  }

  lemma SplitNameExample()
    ensures SplitName(Some("Ada Lovelace King")) == NameParts(Some("Ada"), "Lovelace King")
  {
    SplitNameUnique("Ada Lovelace King", "Ada", "Lovelace King");
  }

  /** `findByEmail`: the row with that e-mail, the first one if there were several. */
  function FindByEmail(users: seq<Account>, email: string): (r: Option<nat>)
    ensures r.Some? ==> r.value < |users| && users[r.value].email == email
    ensures r.Some? ==> forall j :: 0 <= j < r.value ==> users[j].email != email
    ensures r.None? <==> forall j :: 0 <= j < |users| ==> users[j].email != email
  {
    if users == [] then None
    else if users[0].email == email then Some(0)
    else
      match FindByEmail(users[1..], email)
      case None =>
        assert forall j :: 1 <= j < |users| ==> users[j] == users[1..][j - 1];
        None
      case Some(i) => Some(i + 1)
  }

  /** The account a first sign-in creates: user name = e-mail, e-mail verified, no password. */
  function NewAccount(id: Uuid, email: string, fullName: Option<string>): Account
  {
    var parts := SplitName(fullName);
    Account(id, email, email, parts.firstName, parts.lastName, None, true)
  }

  /** The account that signs in and the table afterwards. */
  function SignIn(users: seq<Account>, email: string, fullName: Option<string>, newId: Uuid): (r: Result<(Account, seq<Account>)>)
    ensures r.Err? ==> FindByEmail(users, email).None?
    ensures FindByEmail(users, email).Some? ==> r == Ok((users[FindByEmail(users, email).value], users))
    ensures FindByEmail(users, email).None? && r.Ok? ==>
      var a := r.value.0;
      && r.value.1 == users + [a]
      && a.id == newId && a.email == email && a.username == email
      && a.password.None? && a.emailVerified
      && NameParts(a.firstName, a.lastName) == SplitName(fullName)
    ensures r.Err? <==>
      (FindByEmail(users, email).None? && (fullName.None? || exists j :: 0 <= j < |users| && users[j].username == email))
  {
    match FindByEmail(users, email)
    case Some(i) => Ok((users[i], users))
    case None =>
      var a := NewAccount(newId, email, fullName);
      if a.firstName.None? then Err(FirstNameNull)
      else if exists j :: 0 <= j < |users| && users[j].username == email then Err(UsernameTaken)
      else Ok((a, users + [a]))
  }

  /** Signing in again with the same e-mail finds the account the first sign-in produced and leaves the
      table as it is, whatever name and fresh id the second sign-in brings. */
  lemma SignInAgainReusesAccount(users: seq<Account>, email: string, fullName: Option<string>, newId: Uuid,
                                 otherName: Option<string>, otherId: Uuid)
    requires SignIn(users, email, fullName, newId).Ok?
    ensures var (a, after) := SignIn(users, email, fullName, newId).value;
      SignIn(after, email, otherName, otherId) == Ok((a, after))
  {
    var (a, after) := SignIn(users, email, fullName, newId).value;
    if FindByEmail(users, email).None? {
      assert after[|users|] == a;
      assert forall j :: 0 <= j < |users| ==> after[j] == users[j];
      assert FindByEmail(after, email) == Some(|users|);
    }
  }

  class OAuth2SuccessHandler {
    var users: seq<Account>
    const refreshTokens: RefreshTokenService

    constructor (refreshTokens: RefreshTokenService)
      ensures users == [] && this.refreshTokens == refreshTokens
    {
      users := [];
      this.refreshTokens := refreshTokens;
    }

    /** `onAuthenticationSuccess`. `newUserId` and `newTokenId` are the ids the database generates;
        `refreshValue` is the refresh token generated for the account. */
    method OnAuthenticationSuccess(email: string, fullName: Option<string>, committed: bool,
                                   refreshValue: string, now: int, newUserId: Uuid, newTokenId: Uuid)
      returns (r: Result<Account>)
      requires !HasId(refreshTokens.rows, newTokenId, RefreshId)
      modifies this, refreshTokens
      ensures var s := SignIn(old(users), email, fullName, newUserId);
        && (s.Err? ==> r == Err(s.msg) && users == old(users))
        && (s.Ok? ==> r == Ok(s.value.0) && users == s.value.1)
      ensures r.Ok? && !committed ==>
        refreshTokens.rows == RevokeAllOf(old(refreshTokens.rows), r.value.id)
          + [RefreshToken(newTokenId, refreshValue, r.value.id, now + refreshTokens.refreshTokenExpirationMs, false)]
      ensures r.Err? || committed ==> refreshTokens.rows == old(refreshTokens.rows)
    {
      var account: Account;
      var found := FindByEmail(users, email);
      if found.Some? {
        account := users[found.value];
      } else {
        account := NewAccount(newUserId, email, fullName);
        if account.firstName.None? {
          return Err(FirstNameNull);
        }
        if exists j :: 0 <= j < |users| && users[j].username == email {
          return Err(UsernameTaken);
        }
        users := users + [account];
      }
      if committed {
        return Ok(account);
      }
      var _ := refreshTokens.CreateRefreshToken(account.id, refreshValue, now, newTokenId);
      r := Ok(account);
    }
  }
}
