/** The Concordium system plugin's login state machine: the `nonce` and
    `auth` tasks of `onAfterRoute`, account-to-user linking and logout. The
    plugin object holds the nonce table and the session slots it reads and
    writes; every collaborator (node RPC, signature check, user store, login
    event) enters as a value in `AuthEnv`. */
module Concordium {
  import opened Wrappers
  import opened Errors
  import opened Decimal
  import opened Php
  import opened NonceStore
  import opened ReturnUrl

  /** The session and user-state slots the plugin touches. */
  datatype Session = Session(
    accountAddress: Option<string>,  // plg_system_concordium.account_address
    userId: Option<int>,             // plg_system_concordium.user_id
    user: Option<int>,               // 'user': the logged-in user
    loginReturn: Option<string>,     // user state users.login.form.return
    rememberLogin: bool)             // user state rememberLogin

  const EmptySession := Session(None, None, None, None, false)

  /** The posted fields of the `auth` task that the plugin reads. The
      client also posts the signed `text`; the plugin never reads it. */
  datatype AuthRequest = AuthRequest(address: string, returnUrl: string, remember: bool)

  /** What the `auth` task learns from code outside the plugin. */
  datatype AuthEnv = AuthEnv(
    template: MessageTemplate,           // PLG_SYSTEM_CONCORDIUM_NONCE_MESSAGE
    serverType: string,                  // plugin parameter server_type
    consensusStatusOk: bool,             // the node answered getConsensusStatus
    accountInfoOk: bool,                 // the node answered getAccountInfo
    verify: string -> bool,              // Helper::verifyMessageSignature(message, signed, info)
    userExists: int -> bool,             // User::load succeeds for the id
    loginAccepted: bool,                 // no onUserLogin handler returned false
    isFrontend: bool,                    // the site application, not the administrator
    allowUserRegistration: bool,         // com_users allowUserRegistration != 0
    isInternal: string -> bool,          // Uri::isInternal
    multilanguage: bool,                 // Multilanguage::isEnabled
    menuLanguage: nat -> Option<string>, // the language column of a menu item
    route: string -> string)             // Route::_

  /** Fetching the account info from the configured node, reduced to its
      outcome: either server type can fail to answer, any other type fails. */
  function FetchAccountInfo(env: AuthEnv): (r: Result<(), Error>)
    ensures r.Ok? <==> (env.serverType == "JSON-RPC" || env.serverType == "gRPC")
                       && env.consensusStatusOk && env.accountInfoOk
  {
    if env.serverType == "JSON-RPC" || env.serverType == "gRPC" then
      if env.consensusStatusOk && env.accountInfoOk then Ok(()) else Err(ClientReturnsNothing)
    else Err(UnknownServerType)
  }

  /** The `auth` task, as a function of the table and session before it. It
      never writes the table, so it yields only the new session and the
      redirect URL or the error thrown. */
  function AuthStep(t: NonceTable, s: Session, req: AuthRequest, env: AuthEnv)
    : (out: (Session, Result<string, Error>))
    // a record must exist, and without one nothing changes
    ensures req.address !in t ==> out == (s, Err(ConcordiumAccountNotFound))
    // the session user id is the record's, copied before anything can fail
    ensures req.address in t ==> out.0.userId == t[req.address].userId
    // the account address enters the session exactly when the stored nonce's message verifies
    ensures out.0.accountAddress ==
      if req.address in t && FetchAccountInfo(env).Ok?
         && env.verify(NonceMessage(env.template, t[req.address].nonce))
      then Some(req.address) else s.accountAddress
    // success exactly when every step passes
    ensures out.1.Ok? <==>
      && req.address in t
      && FetchAccountInfo(env).Ok?
      && env.verify(NonceMessage(env.template, t[req.address].nonce))
      && IdTruthy(t[req.address].userId)
      && env.userExists(t[req.address].userId.value)
      && env.loginAccepted
    // a verified address with no linked user is an error
    ensures req.address in t && FetchAccountInfo(env).Ok?
            && env.verify(NonceMessage(env.template, t[req.address].nonce))
            && !IdTruthy(t[req.address].userId) ==>
      out.1 == Err(if !env.isFrontend || !env.allowUserRegistration
                   then AccountNotFound else AccountNotFoundRegistrationAllowed)
    // the user is logged in only on success, and then it is the linked user
    ensures out.0.user != s.user ==> out.1.Ok?
    ensures out.1.Ok? ==> out.0.user == t[req.address].userId
    // the redirect of a successful login
    ensures out.1.Ok? ==>
      out.1.value == (if env.isFrontend
                      then env.route(FrontendReturn(req.returnUrl, env.isInternal, env.multilanguage, env.menuLanguage))
                      else AdminReturn(req.returnUrl, env.isInternal))
    ensures out.1.Ok? && env.isFrontend ==>
      out.0.loginReturn == Some(FrontendReturn(req.returnUrl, env.isInternal, env.multilanguage, env.menuLanguage))
      && (req.remember ==> out.0.rememberLogin)
    ensures out.0.loginReturn != s.loginReturn ==>
      && env.isFrontend && req.address in t && IdTruthy(t[req.address].userId)
      && env.userExists(t[req.address].userId.value)
    // remember-login is turned on only by a successful site login that asked for it
    ensures out.0.rememberLogin != s.rememberLogin ==> out.1.Ok? && env.isFrontend && req.remember
    // a verified, linked address goes through the login branch with the two plugin slots set
    ensures req.address in t && FetchAccountInfo(env).Ok?
            && env.verify(NonceMessage(env.template, t[req.address].nonce))
            && IdTruthy(t[req.address].userId) ==>
      out == LoginStep(s.(userId := t[req.address].userId, accountAddress := Some(req.address)),
                       t[req.address].userId.value, req, env)
    // a failure neither logs anyone in nor turns remember-login on
    ensures out.1.Err? ==> out.0.user == s.user && out.0.rememberLogin == s.rememberLogin
    // a verified address with no linked user changes only the two plugin slots
    ensures req.address in t && FetchAccountInfo(env).Ok?
            && env.verify(NonceMessage(env.template, t[req.address].nonce))
            && !IdTruthy(t[req.address].userId) ==>
      out.0 == s.(userId := t[req.address].userId, accountAddress := Some(req.address))
  {
    if req.address !in t then (s, Err(ConcordiumAccountNotFound))
    else
      var row := t[req.address];
      var s1 := s.(userId := row.userId);
      var fetched := FetchAccountInfo(env);
      if fetched.Err? then (s1, Err(fetched.error))
      else if !env.verify(NonceMessage(env.template, row.nonce)) then (s1, Err(ValidationFailed))
      else
        var s2 := s1.(accountAddress := Some(req.address));
        if !IdTruthy(row.userId) then
          (s2, Err(if !env.isFrontend || !env.allowUserRegistration
                   then AccountNotFound else AccountNotFoundRegistrationAllowed))
        else LoginStep(s2, row.userId.value, req, env)
  }

  /** The login branch of the `auth` task, for a verified address linked to
      `userId`: load the user, choose the return URL and let the login
      event decide. */
  function LoginStep(s: Session, userId: int, req: AuthRequest, env: AuthEnv)
    : (out: (Session, Result<string, Error>))
    ensures out.1.Ok? <==> env.userExists(userId) && env.loginAccepted
    ensures !env.userExists(userId) ==> out == (s, Err(JoomlaAccountNotFound))
    ensures env.userExists(userId) && !env.loginAccepted ==> out.1 == Err(LoginRejected)
    ensures out.0.accountAddress == s.accountAddress && out.0.userId == s.userId
    ensures out.0.user != s.user ==> out.1.Ok?
    ensures out.1.Ok? ==> out.0.user == Some(userId)
    ensures out.0.rememberLogin != s.rememberLogin ==> out.1.Ok? && env.isFrontend && req.remember
    ensures out.1.Ok? && env.isFrontend && req.remember ==> out.0.rememberLogin
    // on the site the return URL is computed and saved before the login event, and the
    // redirect goes to its routed form; in the administrator it is used unrouted
    ensures env.userExists(userId) && env.isFrontend ==>
      out.0.loginReturn == Some(FrontendReturn(req.returnUrl, env.isInternal, env.multilanguage, env.menuLanguage))
    ensures !env.isFrontend ==> out.0.loginReturn == s.loginReturn
    ensures out.1.Ok? ==>
      out.1.value == (if env.isFrontend
                      then env.route(FrontendReturn(req.returnUrl, env.isInternal, env.multilanguage, env.menuLanguage))
                      else AdminReturn(req.returnUrl, env.isInternal))
  {
    if !env.userExists(userId) then (s, Err(JoomlaAccountNotFound))
    else if env.isFrontend then
      var ret := FrontendReturn(req.returnUrl, env.isInternal, env.multilanguage, env.menuLanguage);
      var s1 := s.(loginReturn := Some(ret));
      if !env.loginAccepted then (s1, Err(LoginRejected))
      else (s1.(user := Some(userId), rememberLogin := s1.rememberLogin || req.remember),
            Ok(env.route(ret)))
    else
      var ret := AdminReturn(req.returnUrl, env.isInternal);
      if !env.loginAccepted then (s, Err(LoginRejected))
      else (s.(user := Some(userId)), Ok(ret))
  }

  /** A failed check leaves the session's account address as it was: the
      address is recorded only after the signature has verified. */
  lemma AuthErrorsBeforeAddress(t: NonceTable, s: Session, req: AuthRequest, env: AuthEnv)
    requires req.address in t
    requires FetchAccountInfo(env).Err? || !env.verify(NonceMessage(env.template, t[req.address].nonce))
    ensures var out := AuthStep(t, s, req, env);
      && out.1 == Err(if FetchAccountInfo(env).Err? then FetchAccountInfo(env).error else ValidationFailed)
      && out.0 == s.(userId := t[req.address].userId)
  {
  }

  /** What is checked is the message of the stored nonce: a row whose nonce
      differs from the one the signature was made over fails. */
  lemma AuthChecksStoredNonce(t: NonceTable, s: Session, req: AuthRequest, env: AuthEnv, signedNonce: string)
    requires req.address in t
    requires forall m :: env.verify(m) <==> m == NonceMessage(env.template, signedNonce)
    requires t[req.address].nonce != signedNonce
    ensures AuthStep(t, s, req, env).1.Err?
    ensures AuthStep(t, s, req, env).0.accountAddress == s.accountAddress
  {
    NonceMessageInjective(env.template, t[req.address].nonce, signedNonce);
  }

  /** The reply of the `auth` task depends on the table and the request,
      never on the session it starts from. Since `Plugin.Authenticate` leaves
      the table as it was, the nonce is not rotated: a repeated `auth` with
      the same request, from whatever session the first one left, gives the
      same redirect or the same error. */
  lemma AuthReplayable(t: NonceTable, s: Session, s': Session, req: AuthRequest, env: AuthEnv)
    ensures AuthStep(t, s', req, env).1 == AuthStep(t, s, req, env).1
  {
  }

  /** The `auth` task never consults the record's age: a nonce that the
      `nonce` task would replace as expired still authenticates, at any time
      and for any expiry setting. */
  lemma ExpiredNonceStillAuthenticates(t: NonceTable, s: Session, req: AuthRequest, env: AuthEnv,
                                       now: int, expiry: int)
    requires req.address in t && Expired(t[req.address], now, expiry)
    requires FetchAccountInfo(env).Ok?
    requires env.verify(NonceMessage(env.template, t[req.address].nonce))
    requires IdTruthy(t[req.address].userId)
    requires env.userExists(t[req.address].userId.value) && env.loginAccepted
    ensures AuthStep(t, s, req, env).1.Ok?
    ensures NeedsNewNonce(t, req.address, now, expiry)
  {
  }

  /** `linkUserToAccountAddress`: with an account address in the session and
      a record for it that has no user yet, save `userId` on the record and
      into the session. A linked record is never overwritten. */
  function Link(t: NonceTable, s: Session, userId: int, saveOk: bool)
    : (out: (NonceTable, Session, Result<(), Error>))
    ensures !StringTruthy(s.accountAddress) ==> out == (t, s, Ok(()))
    ensures StringTruthy(s.accountAddress) && s.accountAddress.value !in t ==>
      out == (t, s, Err(ConcordiumAccountNotFound))
    ensures out.0.Keys == t.Keys
    ensures forall a :: a in t ==> out.0[a].nonce == t[a].nonce && out.0[a].createdAt == t[a].createdAt
    ensures UserLinksKept(t, out.0)
    ensures WellFormed(t) ==> WellFormed(out.0)
    ensures out.0 != t || out.1 != s ==>
      && out.2 == Ok(())
      && StringTruthy(s.accountAddress)
      && s.accountAddress.value in t
      && !IdTruthy(t[s.accountAddress.value].userId)
      && out.0 == t[s.accountAddress.value := t[s.accountAddress.value].(userId := Some(userId))]
      && out.1 == s.(userId := Some(userId))
    ensures out.2.Err? ==> out.0 == t && out.1 == s
    // a record with no user yet is written exactly when the save succeeds
    ensures StringTruthy(s.accountAddress) && s.accountAddress.value in t
            && !IdTruthy(t[s.accountAddress.value].userId) ==>
      out == if saveOk
             then (t[s.accountAddress.value := t[s.accountAddress.value].(userId := Some(userId))],
                   s.(userId := Some(userId)), Ok(()))
             else (t, s, Err(SaveFailed))
    // a record that already has a user is left alone
    ensures StringTruthy(s.accountAddress) && s.accountAddress.value in t
            && IdTruthy(t[s.accountAddress.value].userId) ==>
      out == (t, s, Ok(()))
  {
    if !StringTruthy(s.accountAddress) then (t, s, Ok(()))
    else
      var address := s.accountAddress.value;
      if address !in t then (t, s, Err(ConcordiumAccountNotFound))
      else if IdTruthy(t[address].userId) then (t, s, Ok(()))
      else if !saveOk then (t, s, Err(SaveFailed))
      else (t[address := t[address].(userId := Some(userId))], s.(userId := Some(userId)), Ok(()))
  }

  /** Linking twice keeps the first user: a second link with another id
      changes nothing. */
  lemma {:induction false} LinkWriteOnce(t: NonceTable, s: Session, first: int, second: int,
                                         save1: bool, save2: bool)
    requires first != 0
    requires Link(t, s, first, save1).0 != t
    ensures var (t1, s1, _) := Link(t, s, first, save1);
      Link(t1, s1, second, save2) == (t1, s1, Ok(()))
  {
    var (t1, s1, _) := Link(t, s, first, save1);
    var address := s.accountAddress.value;
    assert s1.accountAddress == s.accountAddress;
    assert t1[address].userId == Some(first);
  }

  /** The callers of the linking rule (`onUserAfterSave`, `onUserLogin`)
      call it only with an account address and no user id in the session. */
  predicate CanLink(s: Session) {
    StringTruthy(s.accountAddress) && !IdTruthy(s.userId)
  }

  /** `onUserLogout`: clear both plugin slots, but only when an account
      address is in the session. */
  function Logout(s: Session): (r: Session)
    ensures StringTruthy(s.accountAddress) ==>
      r.accountAddress == None && r.userId == None && r.user == s.user
      && r.loginReturn == s.loginReturn && r.rememberLogin == s.rememberLogin
    ensures !StringTruthy(s.accountAddress) ==> r == s
    ensures !CanLink(r)
  {
    if StringTruthy(s.accountAddress) then s.(accountAddress := None, userId := None) else s
  }

  /** PHP falsiness in the handlers: an account address of "" or "0" in the
      session counts as none, so linking and logout leave everything alone;
      a record whose `user_id` is 0 counts as unlinked, so linking writes it. */
  lemma FalsySlotsInHandlers(t: NonceTable, s: Session, userId: int, saveOk: bool)
    ensures s.accountAddress in {None, Some(""), Some("0")} ==>
      Link(t, s, userId, saveOk) == (t, s, Ok(())) && Logout(s) == s && !CanLink(s)
    ensures s.accountAddress.Some? && s.accountAddress.value in t
            && s.accountAddress.value != "" && s.accountAddress.value != "0"
            && t[s.accountAddress.value].userId == Some(0) && saveOk ==>
      Link(t, s, userId, saveOk).0[s.accountAddress.value].userId == Some(userId)
  {
  }

  /** The tasks of `onAfterRoute`. */
  datatype Task = NonceTask | AuthTask | OtherTask

  datatype Route = NotForPlugin | Denied | Run(task: Task)

  /** Which branch of `onAfterRoute` a request takes. */
  function RouteOf(option: string, httpMethod: string, task: string): (r: Route)
    ensures r.Run? <==> option == "concordium" && httpMethod == "POST"
    ensures r == Run(NonceTask) ==> task == "nonce"
    ensures r == Run(AuthTask) ==> task == "auth"
    ensures r == NotForPlugin <==> option != "concordium"
    ensures option == "concordium" && httpMethod == "POST" ==>
      && (r == Run(NonceTask) <==> task == "nonce")
      && (r == Run(AuthTask) <==> task == "auth")
  {
    if option != "concordium" then NotForPlugin
    else if httpMethod != "POST" then Denied
    else if task == "nonce" then Run(NonceTask)
    else if task == "auth" then Run(AuthTask)
    else Run(OtherTask)
  }

  /** The JSON the plugin answers with, or what it does instead. */
  datatype Reply =
    | Ignored                    // not addressed to the plugin
    | Thrown(error: Error)       // an exception, answered as an error
    | NonceReply(message: string)
    | RedirectReply(url: string)
    | EmptyReply                 // an unknown task: an empty result

  /** The plugin: the nonce table and the session, updated in place by the
      handlers. */
  class Plugin {
    var table: NonceTable
    var session: Session

    constructor (rows: NonceTable)
      ensures table == rows && session == EmptySession
    {
      table := rows;
      session := EmptySession;
    }

    /** The `nonce` task: answer with the message for the live nonce of
        `address`, issuing and saving a new one when needed. */
    method IssueNonce(address: string, now: int, expiry: int, draw: nat, saveOk: bool,
                      template: MessageTemplate)
      returns (r: Result<string, Error>)
      requires draw <= MaxNonceDraw
      modifies this`table
      ensures var c := Challenge(old(table), address, now, expiry, draw, saveOk);
        && table == c.0
        && r == (if c.1.Ok? then Ok(NonceMessage(template, c.1.value)) else Err(c.1.error))
      ensures session == old(session)
    {
      var save := false;
      var nonce := "";
      if address in table {
        if now > table[address].createdAt + expiry {
          save := true;
        } else {
          nonce := table[address].nonce;
        }
      } else {
        save := true;
      }
      if save {
        nonce := FormatNonce(draw);
        if !saveOk {
          return Err(SaveFailed);
        }
        var userId := if address in table then table[address].userId else None;
        table := table[address := NonceRow(nonce, now, userId)];
      }
      r := Ok(NonceMessage(template, nonce));
    }

    /** The `auth` task: check the signature over the stored nonce's
        message and log the linked user in. */
    method Authenticate(req: AuthRequest, env: AuthEnv) returns (r: Result<string, Error>)
      modifies this`session
      ensures table == old(table)
      ensures (session, r) == AuthStep(old(table), old(session), req, env)
    {
      if req.address !in table {
        return Err(ConcordiumAccountNotFound);
      }
      var row := table[req.address];
      session := session.(userId := row.userId);
      var fetched := FetchAccountInfo(env);
      if fetched.Err? {
        return Err(fetched.error);
      }
      if !env.verify(NonceMessage(env.template, row.nonce)) {
        return Err(ValidationFailed);
      }
      session := session.(accountAddress := Some(req.address));
      if !IdTruthy(row.userId) {
        if !env.isFrontend || !env.allowUserRegistration {
          return Err(AccountNotFound);
        }
        return Err(AccountNotFoundRegistrationAllowed);
      }
      r := LogIn(row.userId.value, req, env);
    }

    /** The login branch of the `auth` task for the linked user `userId`. */
    method LogIn(userId: int, req: AuthRequest, env: AuthEnv) returns (r: Result<string, Error>)
      modifies this`session
      ensures (session, r) == LoginStep(old(session), userId, req, env)
    {
      if !env.userExists(userId) {
        return Err(JoomlaAccountNotFound);
      }
      var ret := req.returnUrl;
      if env.isFrontend {
        ret := FrontendReturn(ret, env.isInternal, env.multilanguage, env.menuLanguage);
        session := session.(loginReturn := Some(ret));
      } else {
        ret := AdminReturn(ret, env.isInternal);
      }
      if !env.loginAccepted {
        return Err(LoginRejected);
      }
      session := session.(user := Some(userId));
      if env.isFrontend && req.remember {
        session := session.(rememberLogin := true);
      }
      if env.isFrontend {
        r := Ok(env.route(session.loginReturn.value));
      } else {
        r := Ok(ret);
      }
    }

    /** `linkUserToAccountAddress`. */
    method LinkUserToAccountAddress(userId: int, saveOk: bool) returns (r: Result<(), Error>)
      modifies this
      ensures (table, session, r) == Link(old(table), old(session), userId, saveOk)
    {
      if !StringTruthy(session.accountAddress) {
        return Ok(());
      }
      var address := session.accountAddress.value;
      if address !in table {
        return Err(ConcordiumAccountNotFound);
      }
      if IdTruthy(table[address].userId) {
        return Ok(());
      }
      if !saveOk {
        return Err(SaveFailed);
      }
      table := table[address := table[address].(userId := Some(userId))];
      session := session.(userId := Some(userId));
      r := Ok(());
    }

    /** `onUserAfterSave`: link the saved user (id 0 when the event carries
        none). */
    method OnUserAfterSave(savedId: int, saveOk: bool) returns (r: Result<(), Error>)
      modifies this
      ensures if CanLink(old(session)) && savedId != 0
        then (table, session, r) == Link(old(table), old(session), savedId, saveOk)
        else table == old(table) && session == old(session) && r == Ok(())
    {
      if !CanLink(session) || savedId == 0 {
        return Ok(());
      }
      r := LinkUserToAccountAddress(savedId, saveOk);
    }

    /** `onUserLogin`: link the user who just logged in by username;
        `userIdOf` is UserHelper::getUserId cast to int (0 when unknown). */
    method OnUserLogin(username: string, userIdOf: string -> int, saveOk: bool)
      returns (r: Result<(), Error>)
      modifies this
      ensures if CanLink(old(session)) && !StringIsEmpty(username) && userIdOf(username) != 0
        then (table, session, r) == Link(old(table), old(session), userIdOf(username), saveOk)
        else table == old(table) && session == old(session) && r == Ok(())
    {
      if !CanLink(session) || StringIsEmpty(username) {
        return Ok(());
      }
      var id := userIdOf(username);
      if id == 0 {
        return Ok(());
      }
      r := LinkUserToAccountAddress(id, saveOk);
    }

    /** `onUserLogout`. */
    method OnUserLogout()
      modifies this`session
      ensures session == Logout(old(session))
      ensures table == old(table)
    {
      if StringTruthy(session.accountAddress) {
        session := session.(accountAddress := None, userId := None);
      }
    }

    /** `onAfterRoute`: dispatch a request to the `nonce` or `auth` task. */
    method OnAfterRoute(option: string, httpMethod: string, task: string,
                        req: AuthRequest, now: int, expiry: int, draw: nat, saveOk: bool,
                        env: AuthEnv)
      returns (reply: Reply)
      requires draw <= MaxNonceDraw
      modifies this
      ensures RouteOf(option, httpMethod, task) == NotForPlugin ==>
        reply == Ignored && table == old(table) && session == old(session)
      ensures RouteOf(option, httpMethod, task) == Denied ==>
        reply == Thrown(PermissionDenied) && table == old(table) && session == old(session)
      ensures RouteOf(option, httpMethod, task) == Run(OtherTask) ==>
        reply == EmptyReply && table == old(table) && session == old(session)
      ensures RouteOf(option, httpMethod, task) == Run(NonceTask) ==>
        var c := Challenge(old(table), req.address, now, expiry, draw, saveOk);
        && table == c.0 && session == old(session)
        && reply == (if c.1.Ok? then NonceReply(NonceMessage(env.template, c.1.value)) else Thrown(c.1.error))
      ensures RouteOf(option, httpMethod, task) == Run(AuthTask) ==>
        var a := AuthStep(old(table), old(session), req, env);
        && table == old(table) && session == a.0
        && reply == (if a.1.Ok? then RedirectReply(a.1.value) else Thrown(a.1.error))
    {
      var route := RouteOf(option, httpMethod, task);
      match route {
        case NotForPlugin =>
          reply := Ignored;
        case Denied =>
          reply := Thrown(PermissionDenied);
        case Run(OtherTask) =>
          reply := EmptyReply;
        case Run(NonceTask) =>
          var r := IssueNonce(req.address, now, expiry, draw, saveOk, env.template);
          reply := if r.Ok? then NonceReply(r.value) else Thrown(r.error);
        case Run(AuthTask) =>
          var r := Authenticate(req, env);
          reply := if r.Ok? then RedirectReply(r.value) else Thrown(r.error);
      }
    }
  }
}
