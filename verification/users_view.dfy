/** `UsersView.delete_account` and the user-creation step of the single
    sign-on callback `UserInfo.get`. */
module UsersView {
  import opened Wrappers
  import opened Text
  import opened Http
  import opened Models

  const IndexPage := "/api/index/"
  const LoginErrorPage := "/api/loginError.html/"

  /** The identity the provider vouches for. */
  datatype Identity = Identity(email: string, givenName: string, familyName: string)

  /** `delete_account`: strip the quotes off the e-mail, delete that user with
      its cascade, 404 when there is none. A missing e-mail fails on `strip`
      before the view's `try`. */
  function DeleteAccount(st: Store, email: Option<string>): (r: Outcome<Store>)
    requires Valid(st)
    ensures Valid(r.state)
    ensures email.None? ==> r == Outcome(st, Uncaught("AttributeError"))
    ensures email.Some? ==>
      match UserWithEmail(st, StripQuotes(email.value))
      case None => r == Outcome(st, Respond(Status404NotFound, ErrorBody("User not found!")))
      case Some(id) =>
        && r == Outcome(DeleteUser(st, id), Respond(Status200Ok, SuccessBody("User Deleted!")))
        && id in st.users && st.users[id].email == StripQuotes(email.value)
        && id !in r.state.users
  {
    match email
    case None => Outcome(st, Uncaught("AttributeError"))
    case Some(raw) =>
      match UserWithEmail(st, StripQuotes(raw))
      case Some(id) => Outcome(DeleteUser(st, id), Respond(Status200Ok, SuccessBody("User Deleted!")))
      case None => Outcome(st, Respond(Status404NotFound, ErrorBody("User not found!")))
  }

  /** The row the sign-on serializer builds: its e-mail and name fields trim
      surrounding whitespace; the field defaults make the user active and not
      an admin. It does not apply `create_user`'s e-mail normalisation. */
  function SsoUser(who: Identity): User {
    NewUser(Trim(who.email), Trim(who.givenName), Trim(who.familyName))
  }

  /** The serializer's verdict on that row: no field is blank, no user has the
      trimmed e-mail yet (the unique validator), and `accept`, the oracle for
      its remaining rules (e-mail syntax, field lengths). */
  predicate SsoAccepted(st: Store, who: Identity, accept: User -> bool)
    requires Valid(st)
  {
    var u := SsoUser(who);
    && u.email != [] && u.firstName != [] && u.lastName != []
    && UserWithEmail(st, u.email).None?
    && accept(u)
  }

  /** The user-creation step of the sign-on callback: the lookup uses the
      e-mail as given; only when no user has it is the serializer asked to
      create one, and a rejected row sends the browser to the error page. */
  function SsoLogin(st: Store, who: Identity, accept: User -> bool): (r: Outcome<Store>)
    requires Valid(st)
    ensures Valid(r.state)
    ensures UserWithEmail(st, who.email).Some? ==> r == Outcome(st, Redirect(IndexPage))
    ensures UserWithEmail(st, who.email).None? ==>
      && (SsoAccepted(st, who, accept) <==> r.reply == Redirect(IndexPage))
      && (!SsoAccepted(st, who, accept) ==> r == Outcome(st, Redirect(LoginErrorPage)))
      && (SsoAccepted(st, who, accept) ==>
            exists id: nat :: id !in st.users && r.state.users == st.users[id := SsoUser(who)])
    ensures r.state != st ==>
      && UserWithEmail(st, who.email).None? && SsoAccepted(st, who, accept)
      && exists id: nat :: id !in st.users && r.state.users == st.users[id := SsoUser(who)]
    ensures r.reply == Redirect(IndexPage) || r == Outcome(st, Redirect(LoginErrorPage))
    ensures r.state.links == st.links && r.state.contexts == st.contexts && r.state.contextLinks == st.contextLinks
  {
    if UserWithEmail(st, who.email).Some? then Outcome(st, Redirect(IndexPage))
    else if SsoAccepted(st, who, accept) then
      var c := InsertUser(st, SsoUser(who));
      Outcome(c.store, Redirect(IndexPage))
    else Outcome(st, Redirect(LoginErrorPage))
  }

  /** After a successful sign-in a second one with the same identity changes
      nothing, and succeeds again when the e-mail carries no surrounding
      whitespace. */
  lemma SsoLoginRepeated(st: Store, who: Identity, accept: User -> bool)
    requires Valid(st)
    ensures var first := SsoLogin(st, who, accept);
      first.reply == Redirect(IndexPage) ==> SsoLogin(first.state, who, accept).state == first.state
    ensures var first := SsoLogin(st, who, accept);
      first.reply == Redirect(IndexPage) && Trim(who.email) == who.email ==>
        SsoLogin(first.state, who, accept).reply == Redirect(IndexPage)
  {
    if UserWithEmail(st, who.email).None? && SsoAccepted(st, who, accept) {
      var c := InsertUser(st, SsoUser(who));
      assert SsoLogin(st, who, accept) == Outcome(c.store, Redirect(IndexPage));
      assert c.store.users[c.id].email == Trim(who.email);
      SsoLoginTaken(c.store, who, accept);
    }
  }

  /** With surrounding whitespace in the e-mail, the sign-in that created the
      user is not repeatable: the second lookup misses the trimmed row, and
      the unique e-mail sends the browser to the error page. */
  lemma SsoLoginPaddedEmail(st: Store, who: Identity, accept: User -> bool)
    requires Valid(st)
    ensures var first := SsoLogin(st, who, accept);
      first.state != st && Trim(who.email) != who.email ==>
        SsoLogin(first.state, who, accept).reply == Redirect(LoginErrorPage)
  {
    if UserWithEmail(st, who.email).None? && SsoAccepted(st, who, accept) {
      var c := InsertUser(st, SsoUser(who));
      assert SsoLogin(st, who, accept).state == c.store;
      InsertedLookup(st, SsoUser(who), who.email);
      SsoLoginTaken(c.store, who, accept);
    }
  }

  /** After a user is inserted, a lookup finds it by its e-mail, and a lookup
      by any other e-mail that missed before still misses. */
  lemma InsertedLookup(st: Store, u: User, other: string)
    requires Valid(st) && UserWithEmail(st, u.email).None?
    requires UserWithEmail(st, other).None?
    ensures UserWithEmail(InsertUser(st, u).store, u.email).Some?
    ensures u.email != other ==> UserWithEmail(InsertUser(st, u).store, other).None?
  {
    var c := InsertUser(st, u);
    assert c.store.users[c.id].email == u.email;
  }

  /** Once some user has the trimmed e-mail, signing in changes nothing: it
      reaches the index page when the e-mail as given is found, and the
      error page otherwise. */
  lemma SsoLoginTaken(st: Store, who: Identity, accept: User -> bool)
    requires Valid(st) && UserWithEmail(st, Trim(who.email)).Some?
    ensures SsoLogin(st, who, accept).state == st
    ensures SsoLogin(st, who, accept).reply
         == Redirect(if UserWithEmail(st, who.email).Some? then IndexPage else LoginErrorPage)
  {
  }
}
