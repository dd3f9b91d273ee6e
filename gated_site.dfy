/** The login-gated variant of the assessment site: a session that is either
    anonymous or holds the authenticated user, the `/login` and `/logout`
    routes that move between the two, and the `/` and `/results` routes that
    only an authenticated session reaches. */
module GatedSite {
  import opened Wrappers
  import opened Assessment

  /** The session entry that marks an authenticated session. */
  const UserKey: string := "user"

  /** The single hardcoded credential pair. */
  const ValidUsername: string := "atharv123"
  const ValidPassword: string := "123"

  type Session = map<string, string>

  /** What the `/login` route receives; an absent form field is `None`. */
  datatype LoginRequest = ShowLogin | SubmitLogin(username: Option<string>, password: Option<string>)

  /** The outcome of a request: a rendered page, a redirect, or the server
      error of an exception the handler does not catch. */
  datatype Response =
    | LoginPage
    | AssessmentForm
    | ResultsPage(result: AssessmentResult)
    | RedirectToLogin
    | RedirectToIndex
    | RedirectToResults
    | ServerError(error: Error)

  predicate Authenticated(session: Session)
  {
    UserKey in session
  }

  /** Plain equality against the fixed pair; a missing field never matches. */
  predicate CredentialsMatch(username: Option<string>, password: Option<string>)
  {
    username == Some(ValidUsername) && password == Some(ValidPassword)
  }

  /** The session after a submitted login: the user is stored exactly when
      both fields equal the fixed pair, and nothing else changes. */
  function LoginTransition(session: Session, username: Option<string>, password: Option<string>): (after: Session)
    ensures Authenticated(after) <==> Authenticated(session) || CredentialsMatch(username, password)
    ensures CredentialsMatch(username, password) ==> after[UserKey] == username.value
    ensures !CredentialsMatch(username, password) ==> after == session
    ensures forall k :: k != UserKey ==> (k in after <==> k in session)
    ensures forall k :: k != UserKey && k in session ==> after[k] == session[k]
  {
    if CredentialsMatch(username, password) then session[UserKey := username.value] else session
  }

  /** `session.pop("user", None)`: the session is anonymous afterwards and
      every other entry is kept. */
  function LogoutTransition(session: Session): (after: Session)
    ensures !Authenticated(after)
    ensures forall k :: k != UserKey ==> (k in after <==> k in session)
    ensures forall k :: k != UserKey && k in session ==> after[k] == session[k]
  {
    session - {UserKey}
  }

  /** Logging out twice is logging out once: popping with a default never
      fails on an anonymous session. */
  lemma LogoutIdempotent(session: Session)
    ensures LogoutTransition(LogoutTransition(session)) == LogoutTransition(session)
  {
  }

  /** Logging out right after a successful login restores an anonymous
      session with the other entries as before. */
  lemma LoginThenLogout(session: Session)
    requires !Authenticated(session)
    ensures LogoutTransition(LoginTransition(session, Some(ValidUsername), Some(ValidPassword))) == session
  {
    var after := LogoutTransition(LoginTransition(session, Some(ValidUsername), Some(ValidPassword)));
    assert after.Keys == session.Keys;
  }

  /** One client of the gated site: its session and the result slot. */
  class Site {
    var session: Session
    var slot: Option<AssessmentResult>
    const model: Option<Classifier>

    /** The only value ever stored under the user entry is the valid
        username. */
    ghost predicate Valid()
      reads this
    {
      Authenticated(session) ==> session[UserKey] == ValidUsername
    }

    /** A new anonymous session; `stored` is whatever result an earlier run
        left in the slot. */
    constructor(model: Option<Classifier>, stored: Option<AssessmentResult>)
      ensures Valid()
      ensures session == map[] && slot == stored && this.model == model
    {
      session := map[];
      slot := stored;
      this.model := model;
    }

    /** `/login`: a GET shows the form; a POST logs in on a credential match
        and redirects to `/`, and otherwise shows the form again. */
    method Login(request: LoginRequest) returns (response: Response)
      requires Valid()
      modifies this`session
      ensures Valid()
      ensures request.ShowLogin? ==> session == old(session) && response == LoginPage
      ensures request.SubmitLogin? ==>
        session == LoginTransition(old(session), request.username, request.password)
      ensures request.SubmitLogin? ==>
        response == if CredentialsMatch(request.username, request.password) then RedirectToIndex else LoginPage
    {
      match request
      case ShowLogin =>
        response := LoginPage;
      case SubmitLogin(username, password) =>
        if username == Some(ValidUsername) && password == Some(ValidPassword) {
          session := session[UserKey := username.value];
          response := RedirectToIndex;
        } else {
          response := LoginPage;
        }
    }

    /** `/`: an anonymous session is sent to `/login` with nothing else
        done; otherwise a GET shows the form and a POST evaluates the
        submission and, only on success, overwrites the slot. */
    method Index(request: FormRequest) returns (response: Response)
      modifies this`slot
      ensures !Authenticated(session) ==> response == RedirectToLogin && slot == old(slot)
      ensures Authenticated(session) && request.ShowForm? ==> response == AssessmentForm && slot == old(slot)
      ensures Authenticated(session) && request.SubmitForm? ==>
        match Assess(ToDict(request.fields), model)
        case Success(result) => slot == Some(result) && response == RedirectToResults
        case Failure(e) => slot == old(slot) && response == ServerError(e)
    {
      if UserKey !in session {
        return RedirectToLogin;
      }
      match request
      case ShowForm =>
        response := AssessmentForm;
      case SubmitForm(fields) =>
        var outcome := Evaluate(ToDict(fields), model);
        match outcome
        case Failure(e) =>
          response := ServerError(e);
        case Success(result) =>
          slot := Some(result);
          response := RedirectToResults;
    }

    /** `/results`: an anonymous session is sent to `/login`; with no saved
        result the client is sent back to `/`; otherwise the saved result is
        shown. */
    method Results() returns (response: Response)
      ensures !Authenticated(session) ==> response == RedirectToLogin
      ensures Authenticated(session) && slot.None? ==> response == RedirectToIndex
      ensures response.ResultsPage? <==> Authenticated(session) && slot.Some?
      ensures response.ResultsPage? ==> slot == Some(response.result)
    {
      if UserKey !in session {
        return RedirectToLogin;
      }
      match slot
      case None =>
        response := RedirectToIndex;
      case Some(result) =>
        response := ResultsPage(result);
    }

    /** `/logout`: drop the user entry, whether or not there was one, and go
        to `/login`. */
    method Logout() returns (response: Response)
      requires Valid()
      modifies this`session
      ensures Valid()
      ensures session == LogoutTransition(old(session)) && response == RedirectToLogin
    {
      session := session - {UserKey};
      response := RedirectToLogin;
    }
  }

  /** One client's visit: the protected routes turn it away until it logs in
      with the fixed pair, and again after it logs out. */
  method Visit(model: Option<Classifier>, fields: seq<Field>, password: string)
    requires password != ValidPassword
  {
    var site := new Site(model, None);
    var response := site.Index(SubmitForm(fields));
    assert response == RedirectToLogin && site.slot == None;
    response := site.Results();
    assert response == RedirectToLogin;

    response := site.Login(SubmitLogin(Some(ValidUsername), Some(password)));
    assert response == LoginPage && !Authenticated(site.session);

    response := site.Login(SubmitLogin(Some(ValidUsername), Some(ValidPassword)));
    assert response == RedirectToIndex && Authenticated(site.session);
    response := site.Results();
    assert response == RedirectToIndex;

    response := site.Index(SubmitForm(fields));
    if Assess(ToDict(fields), model).Success? {
      assert response == RedirectToResults;
      response := site.Results();
      assert response == ResultsPage(Assess(ToDict(fields), model).value);
    } else {
      assert response == ServerError(Assess(ToDict(fields), model).error) && site.slot == None;
    }

    response := site.Logout();
    response := site.Logout();
    assert !Authenticated(site.session);
    response := site.Results();
    assert response == RedirectToLogin;
  }
}
