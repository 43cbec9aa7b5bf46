/**
 * The request handlers of server/controllers/authController.js over an
 * in-memory account store.
 *
 * Each handler is given twice: as a pure step function from the store before
 * the request to the outcome and the store after it (`RegisterStep`,
 * `LoginOutcome`, `SendOtpStep`, `VerifyStep`), and as a method of the class
 * `AccountStore` that fetches a record, assigns its fields and writes it back,
 * proved to agree with the step function.
 *
 * What the handlers reach outside the store is a parameter: the bcrypt hash
 * and compare functions (`Hasher`), the salt bcrypt draws, the random draw of
 * `Math.random()`, the clock reading `Date.now()`, and whether the mail
 * transport fails (and with what message). Tokens and cookies have no effect
 * on the store and are not modelled.
 */
module AuthController {
  import opened Wrappers
  import opened UserModel
  import opened Otp

  /** Lifetime of a verification code: 24 hours in milliseconds. */
  const OtpLifetime: int := 24 * 60 * 60 * 1000

  /** What `user.isAccountVerified` throws when `findById` found nothing (the wording of Node.js 16.9 and later). */
  const NullRecordMessage: string := "Cannot read properties of null (reading 'isAccountVerified')"

  /** Every way a handler can answer. */
  datatype Outcome =
    | Registered
      /** register: a name, email or password is missing. */
    | RegisterMissingDetail
    | UserExists
    | LoggedIn
    | CredentialsRequired
    | InvalidEmail
    | InvalidPassword
    | LoggedOut
    | OtpSent
    | AlreadyVerified
    | NullRecord
    | EmailVerified
      /** verifyEmail: the id or the code is missing. */
    | VerifyMissingDetails
    | UserNotFound
    | InvalidOtp
    | OtpExpired
      /** A failure caught by a handler's catch block, carrying `error.message`. */
    | MailFailed(message: string)
  {
    predicate Succeeded() {
      this == Registered || this == LoggedIn || this == LoggedOut || this == OtpSent || this == EmailVerified
    }
  }

  /** The JSON body every handler answers with: `{success, message?}`. */
  datatype Reply = Reply(success: bool, message: Option<string>)

  /** The exact body sent for each outcome. */
  function Envelope(o: Outcome): (r: Reply)
    ensures r.success <==> o.Succeeded()
    ensures !r.success ==> r.message.Some?
    ensures o.MailFailed? ==> r.message == Some(o.message)
  {
    match o
    case Registered => Reply(true, None)
    case RegisterMissingDetail => Reply(false, Some("Missing Detail"))
    case UserExists => Reply(false, Some("User already exists"))
    case LoggedIn => Reply(true, None)
    case CredentialsRequired => Reply(false, Some("Email and password are required"))
    case InvalidEmail => Reply(false, Some("Invalid email"))
    case InvalidPassword => Reply(false, Some("Invalid password"))
    case LoggedOut => Reply(true, Some("Logged Out"))
    case OtpSent => Reply(true, Some("Verification OTP Sent on Email"))
    case AlreadyVerified => Reply(false, Some("Account Already verified"))
    case NullRecord => Reply(false, Some(NullRecordMessage))
    case EmailVerified => Reply(true, Some("Email verified successfully"))
    case VerifyMissingDetails => Reply(false, Some("Missing Details"))
    case UserNotFound => Reply(false, Some("User not found"))
    case InvalidOtp => Reply(false, Some("Invalid OTP"))
    case OtpExpired => Reply(false, Some("OTP Expired"))
    case MailFailed(message) => Reply(false, Some(message))
  }

  /**
   * bcrypt as seen by the handlers: `hash(password, salt)` and
   * `compare(password, hash)`. Nothing is assumed about it beyond `Sound`.
   */
  datatype Hasher = Hasher(hash: (string, nat) -> string, compare: (string, string) -> bool)
  {
    /** A password matches its own hash, and a hash is never empty nor the password itself. */
    ghost predicate Sound() {
      forall p, salt :: compare(p, hash(p, salt)) && hash(p, salt) != p && hash(p, salt) != ""
    }
  }

  /** What a handler answered and the store it left behind. */
  datatype Step = Step(outcome: Outcome, store: Store)

  /** Every record other than the one under `id` is still present and unchanged. */
  predicate OthersUnchanged(before: map<Id, User>, after: map<Id, User>, id: Id) {
    forall k :: k in before && k != id ==> k in after && after[k] == before[k]
  }

  /**
   * `register`: reject a missing field, then an email already in use; otherwise
   * insert a record holding the hash, then send the welcome mail. A mail failure
   * is reported, but the record stays.
   */
  function RegisterStep(s: Store, hasher: Hasher, name: string, email: string, password: string,
                        salt: nat, mailError: Option<string>): (r: Step)
    ensures r.outcome == RegisterMissingDetail <==> name == "" || email == "" || password == ""
    ensures r.outcome == UserExists <==> name != "" && email != "" && password != "" && EmailTaken(s.users, email)
    ensures r.outcome == RegisterMissingDetail || r.outcome == UserExists ==> r.store == s
    ensures r.outcome != RegisterMissingDetail && r.outcome != UserExists ==>
              && r.outcome == (if mailError.None? then Registered else MailFailed(mailError.value))
              && r.store.nextId == s.nextId + 1
              && r.store.users.Keys == s.users.Keys + {s.nextId}
              && r.store.users[s.nextId] == NewUser(name, email, hasher.hash(password, salt))
              && OthersUnchanged(s.users, r.store.users, s.nextId)
  {
    if name == "" || email == "" || password == "" then Step(RegisterMissingDetail, s)
    else if EmailTaken(s.users, email) then Step(UserExists, s)
    else
      var users := s.users[s.nextId := NewUser(name, email, hasher.hash(password, salt))];
      var t := Store(users, s.nextId + 1);
      if mailError.None? then Step(Registered, t) else Step(MailFailed(mailError.value), t)
  }

  /** Some record with this email stores a hash that `password` matches. */
  predicate PasswordMatches(s: Store, hasher: Hasher, email: string, password: string) {
    exists id :: id in s.users && s.users[id].email == email && hasher.compare(password, s.users[id].password)
  }

  /**
   * `login`: the decision only; the store is never changed. A missing field is
   * reported first, then an unknown email, then a password the stored hash does
   * not match.
   */
  function LoginOutcome(s: Store, hasher: Hasher, email: string, password: string): (o: Outcome)
    ensures o == LoggedIn || o == CredentialsRequired || o == InvalidEmail || o == InvalidPassword
    ensures o == CredentialsRequired <==> email == "" || password == ""
    ensures o == InvalidEmail <==> email != "" && password != "" && !EmailTaken(s.users, email)
    ensures o == InvalidPassword <==>
              email != "" && password != "" && EmailTaken(s.users, email) && !PasswordMatches(s, hasher, email, password)
    ensures o == LoggedIn <==> email != "" && password != "" && PasswordMatches(s, hasher, email, password)
  {
    if email == "" || password == "" then CredentialsRequired
    else if !EmailTaken(s.users, email) then InvalidEmail
    else if !PasswordMatches(s, hasher, email, password) then InvalidPassword
    else LoggedIn
  }

  /**
   * `sendVerifyOtp`: an unknown id fails (the original dereferences null and its
   * catch block reports the error); a verified account is refused; otherwise the
   * record gets a fresh code expiring in 24 hours, replacing any earlier one,
   * and the code is mailed. A mail failure is reported, but the code stays.
   */
  function SendOtpStep(s: Store, userId: Option<Id>, draw: Draw, now: int, mailError: Option<string>): (r: Step)
    ensures r.outcome == NullRecord <==> userId.None? || userId.value !in s.users
    ensures r.outcome == AlreadyVerified <==>
              userId.Some? && userId.value in s.users && s.users[userId.value].isAccountVerified
    ensures r.outcome == NullRecord || r.outcome == AlreadyVerified ==> r.store == s
    ensures r.outcome != NullRecord && r.outcome != AlreadyVerified ==>
              var id := userId.value;
              && r.outcome == (if mailError.None? then OtpSent else MailFailed(mailError.value))
              && r.store.nextId == s.nextId
              && r.store.users.Keys == s.users.Keys
              && r.store.users[id] == s.users[id].(verifyOtp := NewOtp(draw), verifyOtpExpireAt := now + OtpLifetime)
              && OthersUnchanged(s.users, r.store.users, id)
  {
    if userId.None? || userId.value !in s.users then Step(NullRecord, s)
    else
      var id := userId.value;
      var user := s.users[id];
      if user.isAccountVerified then Step(AlreadyVerified, s)
      else
        var updated := user.(verifyOtp := NewOtp(draw), verifyOtpExpireAt := now + OtpLifetime);
        var t := Store(s.users[id := updated], s.nextId);
        if mailError.None? then Step(OtpSent, t) else Step(MailFailed(mailError.value), t)
  }

  /**
   * `verifyEmail`: checks, in this order, that both fields are present, that the
   * record exists, that a code is pending and equals the one supplied, and that
   * it has not expired (expiry is strict: a code is still good at its expiry
   * instant). Only then is the account marked verified and the code cleared.
   */
  function VerifyStep(s: Store, userId: Option<Id>, otp: string, now: int): (r: Step)
    ensures r.outcome == VerifyMissingDetails <==> userId.None? || otp == ""
    ensures r.outcome == UserNotFound <==> userId.Some? && otp != "" && userId.value !in s.users
    ensures r.outcome == InvalidOtp <==>
              && userId.Some? && otp != "" && userId.value in s.users
              && (s.users[userId.value].verifyOtp == "" || s.users[userId.value].verifyOtp != otp)
    ensures r.outcome == OtpExpired <==>
              && userId.Some? && otp != "" && userId.value in s.users
              && s.users[userId.value].verifyOtp == otp && s.users[userId.value].verifyOtpExpireAt < now
    ensures r.outcome == EmailVerified || r.outcome == VerifyMissingDetails || r.outcome == UserNotFound
            || r.outcome == InvalidOtp || r.outcome == OtpExpired
    ensures r.outcome != EmailVerified ==> r.store == s
    ensures r.outcome == EmailVerified ==>
              var id := userId.value;
              && r.store.nextId == s.nextId
              && r.store.users.Keys == s.users.Keys
              && r.store.users[id] == s.users[id].(isAccountVerified := true, verifyOtp := "", verifyOtpExpireAt := 0)
              && OthersUnchanged(s.users, r.store.users, id)
  {
    if userId.None? || otp == "" then Step(VerifyMissingDetails, s)
    else if userId.value !in s.users then Step(UserNotFound, s)
    else
      var id := userId.value;
      var user := s.users[id];
      if user.verifyOtp == "" || user.verifyOtp != otp then Step(InvalidOtp, s)
      else if user.verifyOtpExpireAt < now then Step(OtpExpired, s)
      else
        var updated := user.(isAccountVerified := true, verifyOtp := "", verifyOtpExpireAt := 0);
        Step(EmailVerified, Store(s.users[id := updated], s.nextId))
  }

  /**
   * The account collection together with the handlers that read and write it.
   * `users` and `nextId` are the collection; `hasher` is the bcrypt library.
   */
  class AccountStore {
    var users: map<Id, User>
    var nextId: Id
    const hasher: Hasher

    /** The collection as a value. */
    function State(): (s: Store)
      reads this
    {
      Store(users, nextId)
    }

    ghost predicate Valid()
      reads this
    {
      ValidStore(State()) && hasher.Sound()
    }

    constructor (hasher: Hasher)
      requires hasher.Sound()
      ensures Valid() && State() == EmptyStore() && this.hasher == hasher
    {
      this.hasher := hasher;
      users := map[];
      nextId := 0;
    }

    /** `findOne({email})`: the one record using this address, if any. */
    method FindByEmail(email: string) returns (found: Option<Id>)
      requires Valid()
      ensures found.Some? <==> EmailTaken(users, email)
      ensures found.Some? ==> found.value in users && users[found.value].email == email
      ensures found.Some? ==> forall id :: id in users && users[id].email == email ==> id == found.value
    {
      if exists id :: id in users && users[id].email == email {
        var id :| id in users && users[id].email == email;
        found := Some(id);
      } else {
        found := None;
      }
    }

    method Register(name: string, email: string, password: string, salt: nat, mailError: Option<string>)
      returns (o: Outcome)
      requires Valid()
      modifies this
      ensures Valid()
      ensures Step(o, State()) == RegisterStep(old(State()), hasher, name, email, password, salt, mailError)
    {
      if name == "" || email == "" || password == "" {
        return RegisterMissingDetail;
      }
      var existing := FindByEmail(email);
      if existing.Some? {
        return UserExists;
      }
      var hashed := hasher.hash(password, salt);
      var user := NewUser(name, email, hashed);
      InsertKeepsValid(State(), user);
      users := users[nextId := user];
      nextId := nextId + 1;
      if mailError.Some? {
        return MailFailed(mailError.value);
      }
      return Registered;
    }

    method Login(email: string, password: string) returns (o: Outcome)
      requires Valid()
      ensures o == LoginOutcome(State(), hasher, email, password)
    {
      if email == "" || password == "" {
        return CredentialsRequired;
      }
      var found := FindByEmail(email);
      if found.None? {
        return InvalidEmail;
      }
      var user := users[found.value];
      if !hasher.compare(password, user.password) {
        return InvalidPassword;
      }
      return LoggedIn;
    }

    /** `logout` clears the token cookie and always reports success. */
    method Logout() returns (o: Outcome)
      ensures o == LoggedOut && Envelope(o) == Reply(true, Some("Logged Out"))
    {
      o := LoggedOut;
    }

    method SendVerifyOtp(userId: Option<Id>, draw: Draw, now: int, mailError: Option<string>) returns (o: Outcome)
      requires Valid()
      modifies this
      ensures Valid()
      ensures Step(o, State()) == SendOtpStep(old(State()), userId, draw, now, mailError)
    {
      if userId.None? || userId.value !in users {
        return NullRecord;
      }
      var id := userId.value;
      var user := users[id];
      if user.isAccountVerified {
        return AlreadyVerified;
      }
      var otp := NewOtp(draw);
      user := user.(verifyOtp := otp);
      user := user.(verifyOtpExpireAt := now + OtpLifetime);
      users := users[id := user];
      if mailError.Some? {
        return MailFailed(mailError.value);
      }
      return OtpSent;
    }

    method VerifyEmail(userId: Option<Id>, otp: string, now: int) returns (o: Outcome)
      requires Valid()
      modifies this
      ensures Valid()
      ensures Step(o, State()) == VerifyStep(old(State()), userId, otp, now)
    {
      if userId.None? || otp == "" {
        return VerifyMissingDetails;
      }
      var id := userId.value;
      if id !in users {
        return UserNotFound;
      }
      var user := users[id];
      if user.verifyOtp == "" || user.verifyOtp != otp {
        return InvalidOtp;
      }
      if user.verifyOtpExpireAt < now {
        return OtpExpired;
      }
      user := user.(isAccountVerified := true);
      user := user.(verifyOtp := "");
      user := user.(verifyOtpExpireAt := 0);
      users := users[id := user];
      return EmailVerified;
    }
  }
}
