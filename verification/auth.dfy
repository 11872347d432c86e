/** Login-or-register (`auth.handleAuth`), `completeLogin` and `logout`.
    The one-shot directory read and the write that follows it are taken as a
    single synchronous step; the page reload that ends both `completeLogin`
    and `logout` is taken as its effect on the state: the session is whatever
    was just stored, and no conversation is open.
 */
module Auth {
  import opened JsString
  import opened Store

  datatype AuthOutcome =
    | MissingCredentials   // "enter login and password" alert
    | WrongPassword        // "wrong password" alert
    | LoggedIn             // known user, password matched
    | Registered           // unknown user, record created, then logged in

  datatype AuthResult = AuthResult(state: State, outcome: AuthOutcome)

  /** Store the session and reload the page. */
  function CompleteLogin(st: State, name: Str, avatar: Str): (r: State)
    ensures r.session == Some(Session(name, avatar))
    ensures r.recipient == None
    ensures r.users == st.users && r.messages == st.messages
  {
    st.(session := Some(Session(name, avatar)), recipient := None)
  }

  /** Clear the stored session and reload the page. */
  function Logout(st: State): (r: State)
    ensures r.session == None && r.recipient == None
    ensures r.users == st.users && r.messages == st.messages
  {
    st.(session := None, recipient := None)
  }

  /** `handleAuth` with the raw contents of the name and password fields and
      the avatar preview's current source. */
  function HandleAuth(st: State, nameInput: Str, passInput: Str, preview: Str): (r: AuthResult)
    // empty trimmed name or password: nothing changes
    ensures r.outcome == MissingCredentials <==> !Truthy(Trim(nameInput)) || !Truthy(Trim(passInput))
    ensures r.outcome == MissingCredentials ==> r.state == st
    // known user, matching password: session with the stored avatar
    ensures r.outcome == LoggedIn <==>
              && Truthy(Trim(nameInput)) && Truthy(Trim(passInput))
              && Trim(nameInput) in st.users
              && st.users[Trim(nameInput)].password == Trim(passInput)
    ensures r.outcome == LoggedIn ==>
              && r.state.users == st.users && r.state.messages == st.messages
              && r.state.session == Some(Session(Trim(nameInput), st.users[Trim(nameInput)].avatar))
              && r.state.recipient == None
    // known user, other password: nothing changes
    ensures r.outcome == WrongPassword <==>
              && Truthy(Trim(nameInput)) && Truthy(Trim(passInput))
              && Trim(nameInput) in st.users
              && st.users[Trim(nameInput)].password != Trim(passInput)
    ensures r.outcome == WrongPassword ==> r.state == st
    // unknown user: exactly one record added, then logged in
    ensures r.outcome == Registered <==>
              Truthy(Trim(nameInput)) && Truthy(Trim(passInput)) && Trim(nameInput) !in st.users
    ensures r.outcome == Registered ==>
              && r.state.users == st.users[Trim(nameInput) := UserRecord(Trim(passInput), preview)]
              && r.state.messages == st.messages
              && r.state.session == Some(Session(Trim(nameInput), preview))
              && r.state.recipient == None
  {
    var name := Trim(nameInput);
    var pass := Trim(passInput);
    if !Truthy(name) || !Truthy(pass) then
      AuthResult(st, MissingCredentials)
    else if name in st.users then
      var data := st.users[name];
      if data.password == pass then
        AuthResult(CompleteLogin(st, name, data.avatar), LoggedIn)
      else
        AuthResult(st, WrongPassword)
    else
      var created := st.(users := st.users[name := UserRecord(pass, preview)]);
      AuthResult(CompleteLogin(created, name, preview), Registered)
  }

  /** Registering a name and then signing in with the same fields logs in
      with the avatar stored at registration, whatever the preview shows now. */
  lemma RegisterThenLogIn(st: State, nameInput: Str, passInput: Str, preview: Str, laterPreview: Str)
    requires HandleAuth(st, nameInput, passInput, preview).outcome == Registered
    ensures var st' := HandleAuth(st, nameInput, passInput, preview).state;
            var r := HandleAuth(st', nameInput, passInput, laterPreview);
            && r.outcome == LoggedIn
            && r.state.session == Some(Session(Trim(nameInput), preview))
            && r.state.users == st'.users
  {
  }

  /** Once a name is taken, a different password is refused and the record is
      kept: there is no second registration. */
  lemma RegisteredRefusesOtherPassword(st: State, nameInput: Str, passInput: Str, preview: Str,
                                       otherPass: Str, laterPreview: Str)
    requires HandleAuth(st, nameInput, passInput, preview).outcome == Registered
    requires Truthy(Trim(otherPass)) && Trim(otherPass) != Trim(passInput)
    ensures var st' := HandleAuth(st, nameInput, passInput, preview).state;
            var r := HandleAuth(st', nameInput, otherPass, laterPreview);
            r.outcome == WrongPassword && r.state == st'
  {
  }

  /** Logging out and back in with the stored password restores the session. */
  lemma LogoutThenLogIn(st: State, preview: Str)
    requires Valid(st) && st.session.Some?
    ensures var u := st.session.value;
            var r := HandleAuth(Logout(st), u.name, st.users[u.name].password, preview);
            && r.outcome == LoggedIn
            && r.state.session == st.session
            && r.state.users == st.users && r.state.messages == st.messages
  {
    var u := st.session.value;
    assert GoodUser(u.name, st.users[u.name]);
  }

  lemma CompleteLoginKeepsValid(st: State, name: Str)
    requires Valid(st) && name in st.users
    ensures Valid(CompleteLogin(st, name, st.users[name].avatar))
  {
  }

  lemma HandleAuthKeepsValid(st: State, nameInput: Str, passInput: Str, preview: Str)
    requires Valid(st)
    ensures Valid(HandleAuth(st, nameInput, passInput, preview).state)
  {
    var r := HandleAuth(st, nameInput, passInput, preview);
    var name, pass := Trim(nameInput), Trim(passInput);
    if r.outcome == Registered {
      var users' := st.users[name := UserRecord(pass, preview)];
      TrimIdempotent(nameInput);
      TrimIdempotent(passInput);
      forall n | n in users'
        ensures GoodUser(n, users'[n])
      {
        if n != name {
          assert GoodUser(n, st.users[n]);
        }
      }
      MoreUsersKeepMessagesGood(st.users, users', st.messages);
      assert r.state == State(users', st.messages, Some(Session(name, preview)), None);
    } else if r.outcome == LoggedIn {
      assert r.state == CompleteLogin(st, name, st.users[name].avatar);
    }
  }

  lemma LogoutKeepsValid(st: State)
    requires Valid(st)
    ensures Valid(Logout(st))
  {
  }
}
