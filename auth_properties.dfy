/**
 * Properties of the handlers taken together: the collection invariant holds
 * across any sequence of requests, the verification status of an account only
 * moves forward (Verified is terminal), the code round trip, expiry, resending,
 * and registering then logging in.
 */
module AuthProperties {
  import opened Wrappers
  import opened UserModel
  import opened Otp
  import opened AuthController

  /** One request to one of the five handlers, with what it reads from the outside world. */
  datatype Request =
    | RegisterRequest(name: string, email: string, password: string, salt: nat, registerMail: Option<string>)
    | LoginRequest(loginEmail: string, loginPassword: string)
    | LogoutRequest
    | SendOtpRequest(sendTo: Option<Id>, draw: Draw, sentAt: int, otpMail: Option<string>)
    | VerifyRequest(verifyId: Option<Id>, otp: string, verifiedAt: int)

  /** Serve one request. */
  function Apply(s: Store, hasher: Hasher, req: Request): (r: Step) {
    match req
    case RegisterRequest(name, email, password, salt, mail) => RegisterStep(s, hasher, name, email, password, salt, mail)
    case LoginRequest(email, password) => Step(LoginOutcome(s, hasher, email, password), s)
    case LogoutRequest => Step(LoggedOut, s)
    case SendOtpRequest(id, draw, now, mail) => SendOtpStep(s, id, draw, now, mail)
    case VerifyRequest(id, otp, now) => VerifyStep(s, id, otp, now)
  }

  /** Serve the requests one after the other. */
  function Run(s: Store, hasher: Hasher, reqs: seq<Request>): (t: Store)
    decreases |reqs|
  {
    if reqs == [] then s else Run(Apply(s, hasher, reqs[0]).store, hasher, reqs[1..])
  }

  /** The verification status of an account. */
  datatype Verification = Unverified | OtpPending | Verified

  function StatusOf(u: User): (v: Verification) {
    if u.isAccountVerified then Verified
    else if u.verifyOtp != "" then OtpPending
    else Unverified
  }

  function Rank(v: Verification): (r: nat) {
    match v
    case Unverified => 0
    case OtpPending => 1
    case Verified => 2
  }

  /** The status changes one request may make. */
  predicate Transition(a: Verification, b: Verification) {
    || a == b
    || (a == Unverified && b == OtpPending)
    || (a == OtpPending && b == Verified)
  }

  /** The fields fixed when a record is created. */
  predicate SameIdentity(u: User, v: User) {
    && u.name == v.name && u.email == v.email && u.password == v.password
    && u.resetOtp == v.resetOtp && u.reseOtpExpireAt == v.reseOtpExpireAt
  }

  /** How the collection may change over time: no record is lost, identities are fixed, status only moves forward. */
  predicate Evolves(s: Store, t: Store) {
    && s.nextId <= t.nextId
    && forall id :: id in s.users ==>
         && id in t.users
         && SameIdentity(s.users[id], t.users[id])
         && Rank(StatusOf(s.users[id])) <= Rank(StatusOf(t.users[id]))
  }

  /** The same request with the mail transport succeeding. */
  function MailDelivered(req: Request): (r: Request) {
    match req
    case RegisterRequest(name, email, password, salt, _) => RegisterRequest(name, email, password, salt, None)
    case SendOtpRequest(id, draw, now, _) => SendOtpRequest(id, draw, now, None)
    case _ => req
  }

  /**
   * Every failure other than a failed mail leaves the collection as it was; a
   * failed mail leaves exactly the write a delivered mail would have left (no
   * rollback), and only register and sendVerifyOtp send mail.
   */
  lemma FailuresChangeNothing(s: Store, hasher: Hasher, req: Request)
    ensures var r := Apply(s, hasher, req);
            !r.outcome.Succeeded() && !r.outcome.MailFailed? ==> r.store == s
    ensures var r := Apply(s, hasher, req);
            r.outcome.MailFailed? ==>
              && (req.RegisterRequest? || req.SendOtpRequest?)
              && r.store == Apply(s, hasher, MailDelivered(req)).store
              && Apply(s, hasher, MailDelivered(req)).outcome.Succeeded()
  {
  }

  /** Each request keeps the collection invariant. */
  lemma ApplyKeepsValid(s: Store, hasher: Hasher, req: Request)
    requires ValidStore(s) && hasher.Sound()
    ensures ValidStore(Apply(s, hasher, req).store)
  {
    match req
    case RegisterRequest(name, email, password, salt, mail) =>
      var t := RegisterStep(s, hasher, name, email, password, salt, mail).store;
      if t != s {
        InsertKeepsValid(s, NewUser(name, email, hasher.hash(password, salt)));
      }
    case SendOtpRequest(id, draw, now, mail) =>
      var t := SendOtpStep(s, id, draw, now, mail).store;
      if t != s {
        UpdateKeepsValid(s, id.value, t.users[id.value]);
        assert t == Store(s.users[id.value := t.users[id.value]], s.nextId);
      }
    case VerifyRequest(id, otp, now) =>
      var t := VerifyStep(s, id, otp, now).store;
      if t != s {
        UpdateKeepsValid(s, id.value, t.users[id.value]);
        assert t == Store(s.users[id.value := t.users[id.value]], s.nextId);
      }
    case _ =>
  }

  /** Each request moves every existing account along the status machine, and changes no identity. */
  lemma ApplyFollowsStateMachine(s: Store, hasher: Hasher, req: Request, id: Id)
    requires ValidStore(s) && id in s.users
    ensures var t := Apply(s, hasher, req).store;
            && id in t.users
            && SameIdentity(s.users[id], t.users[id])
            && Transition(StatusOf(s.users[id]), StatusOf(t.users[id]))
  {
  }

  lemma EvolvesTransitive(s: Store, t: Store, u: Store)
    requires Evolves(s, t) && Evolves(t, u)
    ensures Evolves(s, u)
  {
  }

  lemma ApplyEvolves(s: Store, hasher: Hasher, req: Request)
    requires ValidStore(s)
    ensures Evolves(s, Apply(s, hasher, req).store)
  {
    var t := Apply(s, hasher, req).store;
    forall id | id in s.users
      ensures id in t.users && SameIdentity(s.users[id], t.users[id])
      ensures Rank(StatusOf(s.users[id])) <= Rank(StatusOf(t.users[id]))
    {
      ApplyFollowsStateMachine(s, hasher, req, id);
    }
  }

  /** Any sequence of requests keeps the collection invariant. */
  lemma {:induction false} RunKeepsValid(s: Store, hasher: Hasher, reqs: seq<Request>)
    requires ValidStore(s) && hasher.Sound()
    ensures ValidStore(Run(s, hasher, reqs))
    decreases |reqs|
  {
    if reqs != [] {
      ApplyKeepsValid(s, hasher, reqs[0]);
      RunKeepsValid(Apply(s, hasher, reqs[0]).store, hasher, reqs[1..]);
    }
  }

  /** Over any sequence of requests no record is lost, identities stay fixed and status never moves back. */
  lemma {:induction false} RunEvolves(s: Store, hasher: Hasher, reqs: seq<Request>)
    requires ValidStore(s) && hasher.Sound()
    ensures Evolves(s, Run(s, hasher, reqs))
    decreases |reqs|
  {
    if reqs != [] {
      var t := Apply(s, hasher, reqs[0]).store;
      ApplyEvolves(s, hasher, reqs[0]);
      ApplyKeepsValid(s, hasher, reqs[0]);
      RunEvolves(t, hasher, reqs[1..]);
      EvolvesTransitive(s, t, Run(t, hasher, reqs[1..]));
    }
  }

  /** Verified is terminal: once verified, an account stays verified with no code pending, whatever follows. */
  lemma VerifiedIsTerminal(s: Store, hasher: Hasher, reqs: seq<Request>, id: Id)
    requires ValidStore(s) && hasher.Sound()
    requires id in s.users && s.users[id].isAccountVerified
    ensures var t := Run(s, hasher, reqs);
            id in t.users && t.users[id].isAccountVerified && NoOtpPending(t.users[id])
  {
    RunEvolves(s, hasher, reqs);
    RunKeepsValid(s, hasher, reqs);
  }

  /**
   * The code round trip: a code sent to an unverified account verifies it
   * until the expiry instant inclusive, even when the mail itself failed, and
   * the same code is refused afterwards because it has been cleared.
   */
  lemma OtpRoundTrip(s: Store, id: Id, draw: Draw, sentAt: int, mail: Option<string>, verifiedAt: int, laterAt: int)
    requires id in s.users && !s.users[id].isAccountVerified
    requires verifiedAt <= sentAt + OtpLifetime
    ensures var sent := SendOtpStep(s, Some(id), draw, sentAt, mail);
            var first := VerifyStep(sent.store, Some(id), NewOtp(draw), verifiedAt);
            var second := VerifyStep(first.store, Some(id), NewOtp(draw), laterAt);
            && first.outcome == EmailVerified
            && StatusOf(first.store.users[id]) == Verified && NoOtpPending(first.store.users[id])
            && second == Step(InvalidOtp, first.store)
  {
  }

  /** After the expiry instant the code is refused as expired and the account stays unverified with its code. */
  lemma ExpiredCodeRejected(s: Store, id: Id, draw: Draw, sentAt: int, mail: Option<string>, at: int)
    requires id in s.users && !s.users[id].isAccountVerified
    requires at > sentAt + OtpLifetime
    ensures var sent := SendOtpStep(s, Some(id), draw, sentAt, mail);
            && VerifyStep(sent.store, Some(id), NewOtp(draw), at) == Step(OtpExpired, sent.store)
            && StatusOf(sent.store.users[id]) == OtpPending
  {
  }

  /** Sending a second code replaces the first: the first is then refused as invalid, at any time. */
  lemma ResendInvalidatesEarlierCode(s: Store, id: Id, first: Draw, second: Draw, t1: int, t2: int,
                                     m1: Option<string>, m2: Option<string>, at: int)
    requires id in s.users && !s.users[id].isAccountVerified
    requires first != second
    ensures var s1 := SendOtpStep(s, Some(id), first, t1, m1).store;
            var s2 := SendOtpStep(s1, Some(id), second, t2, m2).store;
            VerifyStep(s2, Some(id), NewOtp(first), at) == Step(InvalidOtp, s2)
  {
    NewOtpBijective(NewOtp(first));
  }

  /** A verified account is refused a new code and keeps its (cleared) code fields. */
  lemma NoCodeForVerifiedAccount(s: Store, id: Id, draw: Draw, now: int, mail: Option<string>)
    requires ValidStore(s) && id in s.users && s.users[id].isAccountVerified
    ensures SendOtpStep(s, Some(id), draw, now, mail) == Step(AlreadyVerified, s)
    ensures NoOtpPending(s.users[id])
  {
  }

  /**
   * Registering a new address stores a hash, not the password, and the same
   * address and password then log in, whether or not the welcome mail went out;
   * a password the hash does not match is refused as invalid.
   */
  lemma RegisterThenLogin(s: Store, hasher: Hasher, name: string, email: string, password: string,
                          salt: nat, mail: Option<string>, other: string)
    requires ValidStore(s) && hasher.Sound()
    requires name != "" && email != "" && password != "" && !EmailTaken(s.users, email)
    requires other != "" && !hasher.compare(other, hasher.hash(password, salt))
    ensures var t := RegisterStep(s, hasher, name, email, password, salt, mail).store;
            && t.users[s.nextId].password != password
            && LoginOutcome(t, hasher, email, password) == LoggedIn
            && LoginOutcome(t, hasher, email, other) == InvalidPassword
  {
    var u := NewUser(name, email, hasher.hash(password, salt));
    var t := RegisterStep(s, hasher, name, email, password, salt, mail).store;
    InsertKeepsValid(s, u);
    assert t.users[s.nextId] == u;
    assert PasswordMatches(t, hasher, email, password);
  }

  /**
   * Login decides on the one record holding the email: with the email present
   * and registered, it succeeds exactly when that record's hash matches the
   * password, and answers "Invalid password" otherwise.
   */
  lemma LoginChecksTheRecord(s: Store, hasher: Hasher, id: Id, password: string)
    requires ValidStore(s) && id in s.users && password != ""
    ensures var o := LoginOutcome(s, hasher, s.users[id].email, password);
            && (o == LoggedIn <==> hasher.compare(password, s.users[id].password))
            && (o == InvalidPassword <==> !hasher.compare(password, s.users[id].password))
  {
    var email := s.users[id].email;
    if PasswordMatches(s, hasher, email, password) {
      var other :| other in s.users && s.users[other].email == email && hasher.compare(password, s.users[other].password);
      assert other == id;
    }
  }

  /** Registering an address a second time is refused and leaves every record, the first one included, as it was. */
  lemma DuplicateRegisterRejected(s: Store, hasher: Hasher, email: string,
                                  name1: string, password1: string, salt1: nat, mail1: Option<string>,
                                  name2: string, password2: string, salt2: nat, mail2: Option<string>)
    requires name1 != "" && email != "" && password1 != "" && name2 != "" && password2 != ""
    ensures var t := RegisterStep(s, hasher, name1, email, password1, salt1, mail1).store;
            RegisterStep(t, hasher, name2, email, password2, salt2, mail2) == Step(UserExists, t)
  {
    var t := RegisterStep(s, hasher, name1, email, password1, salt1, mail1).store;
    if !EmailTaken(s.users, email) {
      assert t.users[s.nextId].email == email;
    }
  }
}
