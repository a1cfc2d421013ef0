/** Account registration on the server (src/lib/user-actions.ts): users.json
    holds a list of username/password pairs. */
module UserActions {
  import opened Base
  import opened Records
  import opened Store

  datatype Registration = Saved | UsernameTaken | WriteFailed

  predicate HasUsername(users: seq<User>, name: string) {
    exists u :: u in users && u.username == name
  }

  /** No two accounts share a username. */
  predicate UniqueUsernames(users: seq<User>) {
    forall i, j :: 0 <= i < j < |users| ==> users[i].username != users[j].username
  }

  /** Appending an account whose name is not taken keeps names unique. */
  lemma AppendKeepsUnique(users: seq<User>, u: User)
    requires UniqueUsernames(users) && !HasUsername(users, u.username)
    ensures UniqueUsernames(users + [u])
  {
    var l := users + [u];
    forall i, j | 0 <= i < j < |l| ensures l[i].username != l[j].username {
      if j == |users| {
        assert l[i] in users;
      }
    }
  }

  /** `registerUser`: a taken name throws without writing; otherwise the
      account is appended, and a failed write throws with the file unchanged.
      `readUsers` gives `[]` for a file it cannot read or parse. */
  method RegisterUser(d: DataDir, username: string, password: string, writeOk: bool) returns (r: Registration)
    modifies d`users
    ensures var users := ReadOr(old(d.users), []);
      if HasUsername(users, username) then r == UsernameTaken && d.users == old(d.users)
      else if writeOk then r == Saved && d.users == Holds(users + [User(username, password)])
      else r == WriteFailed && d.users == old(d.users)
  {
    var users := ReadOr(d.users, []);
    if HasUsername(users, username) {
      return UsernameTaken;
    }
    if !writeOk {
      return WriteFailed;
    }
    d.users := Holds(users + [User(username, password)]);
    r := Saved;
  }
}

/** The sign-in card (src/components/Login.tsx). Accounts registered here
    live only in the component's state; the card does not call the server. */
module Login {
  import opened Base
  import opened Records
  import opened UserActions

  /** The built-in account that always signs in. */
  const RootUser := User("root", "1234")

  /** What a sign-in attempt with these credentials yields. */
  predicate Authenticates(users: seq<User>, username: string, password: string) {
    User(username, password) in users || User(username, password) == RootUser
  }

  datatype Outcome =
    | Blocked             // a `required` field is empty: the browser does not submit
    | LoggedIn            // `onLogin()` is called
    | Refused             // an error message is shown
    | Registered          // back to the sign-in form

  class LoginForm {
    var username: string
    var password: string
    var confirmPassword: string
    var error: Option<string>
    var isRegistering: bool
    var registeredUsers: seq<User>

    /** Registration never creates a second account with a taken name. */
    predicate Valid()
      reads this
    {
      UniqueUsernames(registeredUsers)
    }

    constructor ()
      ensures Valid()
      ensures username == "" && password == "" && confirmPassword == ""
      ensures error.None? && !isRegistering && registeredUsers == []
    {
      username, password, confirmPassword := "", "", "";
      error := None;
      isRegistering := false;
      registeredUsers := [];
    }

    /** The three inputs' `onChange` handlers. */
    method Type(u: string, p: string, c: string)
      modifies this`username, this`password, this`confirmPassword
      ensures username == u && password == p && confirmPassword == c
    {
      username, password, confirmPassword := u, p, c;
    }

    /** `handleLogin`: a registered pair or the built-in account signs in;
      anything else shows `Invalid credentials`. */
    method HandleLogin() returns (o: Outcome)
      modifies this`error
      ensures o == LoggedIn <==> Authenticates(registeredUsers, username, password)
      ensures o == LoggedIn || o == Refused
      ensures error == if o == LoggedIn then None else Some("Invalid credentials")
    {
      error := None;
      if User(username, password) in registeredUsers {
        o := LoggedIn;
      } else if username == "root" && password == "1234" {
        o := LoggedIn;
      } else {
        error := Some("Invalid credentials");
        o := Refused;
      }
    }

    /** `handleRegistration`: the two passwords must match and the name must
      be free; then the account is added and the card returns to sign-in. */
    method HandleRegistration() returns (o: Outcome)
      requires Valid()
      modifies this`error, this`registeredUsers, this`isRegistering
      ensures Valid()
      ensures password != confirmPassword ==>
        o == Refused && error == Some("Passwords do not match.")
        && registeredUsers == old(registeredUsers) && isRegistering == old(isRegistering)
      ensures password == confirmPassword && HasUsername(old(registeredUsers), username) ==>
        o == Refused && error == Some("Username already exists.")
        && registeredUsers == old(registeredUsers) && isRegistering == old(isRegistering)
      ensures password == confirmPassword && !HasUsername(old(registeredUsers), username) ==>
        o == Registered && error.None? && !isRegistering
        && registeredUsers == old(registeredUsers) + [User(username, password)]
      ensures o == Registered ==> Authenticates(registeredUsers, username, password)
    {
      error := None;
      if password != confirmPassword {
        error := Some("Passwords do not match.");
        return Refused;
      }
      if HasUsername(registeredUsers, username) {
        error := Some("Username already exists.");
        return Refused;
      }
      AppendKeepsUnique(registeredUsers, User(username, password));
      registeredUsers := registeredUsers + [User(username, password)];
      isRegistering := false;
      o := Registered;
    }

    /** The `required` inputs of the current mode hold something: both fields
      when signing in, all three when registering. */
    predicate Filled(registering: bool)
      reads this
    {
      username != "" && password != "" && (!registering || confirmPassword != "")
    }

    /** The form's submit: the `required` inputs must be filled, then the
      handler for the current mode runs. */
    method Submit() returns (o: Outcome)
      requires Valid()
      modifies this`error, this`registeredUsers, this`isRegistering
      ensures Valid()
      ensures o == Blocked <==> !Filled(old(isRegistering))
      ensures !Filled(old(isRegistering)) ==>
        error == old(error) && registeredUsers == old(registeredUsers) && isRegistering == old(isRegistering)
      ensures Filled(old(isRegistering)) && !old(isRegistering) ==>
        (o == LoggedIn <==> Authenticates(old(registeredUsers), username, password))
        && (o == LoggedIn || o == Refused)
        && error == (if o == LoggedIn then None else Some("Invalid credentials"))
        && registeredUsers == old(registeredUsers) && !isRegistering
      ensures Filled(old(isRegistering)) && old(isRegistering) && password != confirmPassword ==>
        o == Refused && error == Some("Passwords do not match.")
        && registeredUsers == old(registeredUsers) && isRegistering
      ensures Filled(old(isRegistering)) && old(isRegistering) && password == confirmPassword
              && HasUsername(old(registeredUsers), username) ==>
        o == Refused && error == Some("Username already exists.")
        && registeredUsers == old(registeredUsers) && isRegistering
      ensures Filled(old(isRegistering)) && old(isRegistering) && password == confirmPassword
              && !HasUsername(old(registeredUsers), username) ==>
        o == Registered && error.None? && !isRegistering
        && registeredUsers == old(registeredUsers) + [User(username, password)]
        && Authenticates(registeredUsers, username, password)
    {
      if !Filled(isRegistering) {
        return Blocked;
      }
      if isRegistering {
        o := HandleRegistration();
      } else {
        o := HandleLogin();
      }
    }

    /** `toggleForm`: switches mode and clears the inputs and the error. */
    method ToggleForm()
      modifies this`isRegistering, this`error, this`username, this`password, this`confirmPassword
      ensures isRegistering == !old(isRegistering) && error.None?
      ensures username == "" && password == "" && confirmPassword == ""
    {
      isRegistering := !isRegistering;
      error := None;
      username, password, confirmPassword := "", "", "";
    }
  }

  /** Registered credentials sign in, whatever else is registered. */
  lemma {:induction false} RegisteredCanSignIn(users: seq<User>, u: User)
    ensures Authenticates(users + [u], u.username, u.password)
  {
    var l := users + [u];
    assert l[|users|] == u;
  }

  /** With unique names, a wrong password for a registered non-root name does
      not sign in. */
  lemma {:induction false} WrongPasswordRefused(users: seq<User>, u: User, p: string)
    requires UniqueUsernames(users + [u])
    requires u.username != RootUser.username && p != u.password
    ensures !Authenticates(users + [u], u.username, p)
  {
    var l := users + [u];
    assert l[|users|] == u;
  }
}
