/** The mock authentication of `src/lib/firebase.ts` (`localAuthHelpers`):
    a user record kept under the single localStorage key `auth_user`.
    `Date.now()` is a parameter; the JSON (de)serialisation of the stored
    value is left out, the entry holds the user itself. */
module LocalAuth {
  import opened Wrappers
  import Decimal

  const AuthUserKey := "auth_user"
  const GoogleEmail := "test@google.com"
  const GoogleDisplayName := "Test Google User"
  const GoogleProviderId := "google.com"

  /** `LocalUser`; `metadata` is always `{}` and is left out. */
  datatype LocalUser = LocalUser(
    email: string, id: string, displayName: string,
    emailVerified: bool, isAnonymous: bool, providerIds: seq<string>)

  /** `email.split('@')[0]`: the email up to its first `@`, or all of it. */
  function DisplayName(email: string): (name: string)
    ensures name <= email
    ensures '@' !in name
    ensures |name| < |email| ==> email[|name|] == '@'
  {
    if email == [] || email[0] == '@' then [] else [email[0]] + DisplayName(email[1..])
  }

  /** An email without `@` is its own display name. */
  lemma DisplayNameWithoutAt(email: string)
    requires '@' !in email
    ensures DisplayName(email) == email
  {
  }

  /** The user `signUp` (unverified) or `login` (verified) creates. */
  function EmailUser(email: string, now: nat, verified: bool): LocalUser
  {
    LocalUser(email, Decimal.FromNat(now), DisplayName(email), verified, false, [])
  }

  /** The localStorage entry under `auth_user`. */
  class LocalAuthStore {
    var authUser: Option<LocalUser>

    constructor ()
      ensures authUser == None
    {
      authUser := None;
    }

    /** `signUp`: any password; the new user is stored, replacing any other. */
    method SignUp(email: string, password: string, now: nat) returns (user: LocalUser)
      modifies this
      ensures user == EmailUser(email, now, false) && authUser == Some(user)
    {
      user := LocalUser(email, Decimal.FromNat(now), DisplayName(email), false, false, []);
      authUser := Some(user);
    }

    /** `login`: accepts every email and password. */
    method Login(email: string, password: string, now: nat) returns (user: LocalUser)
      modifies this
      ensures user == EmailUser(email, now, true) && authUser == Some(user)
    {
      user := LocalUser(email, Decimal.FromNat(now), DisplayName(email), true, false, []);
      authUser := Some(user);
    }

    /** `googleLogin`: always the same test account. */
    method GoogleLogin(now: nat) returns (user: LocalUser)
      modifies this
      ensures user == LocalUser(GoogleEmail, Decimal.FromNat(now), GoogleDisplayName, true, false, [GoogleProviderId])
      ensures authUser == Some(user)
    {
      user := LocalUser(GoogleEmail, Decimal.FromNat(now), GoogleDisplayName, true, false, [GoogleProviderId]);
      authUser := Some(user);
    }

    /** `logout`: removes the entry. */
    method Logout()
      modifies this
      ensures authUser == None
    {
      authUser := None;
    }

    /** `getCurrentUser`: the stored user, `None` (null) when there is none. */
    method GetCurrentUser() returns (user: Option<LocalUser>)
      ensures user == authUser
    {
      user := authUser;
    }

    /** `forgotPassword`: always reports success and leaves the entry alone. */
    method ForgotPassword(email: string) returns (sent: bool)
      ensures sent
    {
      sent := true;
    }
  }
}
