/**
 * The user record of server/models/userModel.js: its fields, which of them are
 * required, the defaults a fresh record starts from, and the uniqueness of the
 * email address across the whole collection.
 *
 * The collection itself (a MongoDB collection in the original) is modelled as a
 * finite map from record id to record, together with the next id the store will
 * hand out.
 */
module UserModel {

  /** The document id (`_id`) of a record. */
  type Id = nat

  /**
   * One user document. `password` holds the bcrypt hash, never the plain text.
   * The last two fields are declared by the schema but no operation uses them;
   * `reseOtpExpireAt` keeps the schema's own spelling.
   */
  datatype User = User(
    name: string,
    email: string,
    password: string,
    verifyOtp: string,
    verifyOtpExpireAt: int,
    isAccountVerified: bool,
    resetOtp: string,
    reseOtpExpireAt: int)

  /** The collection: records by id, and the id the next insertion receives. */
  datatype Store = Store(users: map<Id, User>, nextId: Id)

  /** An empty collection. */
  function EmptyStore(): (s: Store)
    ensures s.users == map[] && ValidStore(s)
  {
    Store(map[], 0)
  }

  /** `required: true` on a String path rejects both an absent value and ''. */
  predicate HasRequiredFields(u: User) {
    u.name != "" && u.email != "" && u.password != ""
  }

  /** No verification code is outstanding: both fields are at their defaults. */
  predicate NoOtpPending(u: User) {
    u.verifyOtp == "" && u.verifyOtpExpireAt == 0
  }

  /** The reset-password fields hold their defaults. */
  predicate ResetFieldsAtDefault(u: User) {
    u.resetOtp == "" && u.reseOtpExpireAt == 0
  }

  /** A record built from the three supplied fields; every other field takes its schema default. */
  function NewUser(name: string, email: string, passwordHash: string): (u: User)
    ensures u.name == name && u.email == email && u.password == passwordHash
    ensures NoOtpPending(u) && !u.isAccountVerified && ResetFieldsAtDefault(u)
  {
    User(name, email, passwordHash, "", 0, false, "", 0)
  }

  /** The unique index on `email`: two records with the same address are the same record. */
  predicate EmailUnique(users: map<Id, User>) {
    forall a, b :: a in users && b in users && users[a].email == users[b].email ==> a == b
  }

  /** Some record already uses this address (what `findOne({email})` finds). */
  predicate EmailTaken(users: map<Id, User>, email: string) {
    exists id :: id in users && users[id].email == email
  }

  /** Digits only, as produced for a verification code. */
  predicate IsDigits(s: string) {
    forall i :: 0 <= i < |s| ==> '0' <= s[i] <= '9'
  }

  /**
   * What every stored record satisfies: the required fields are present, the
   * reset fields are untouched, a pending code is a six-digit string, and a
   * verified account has no code pending.
   */
  predicate WellFormed(u: User) {
    && HasRequiredFields(u)
    && ResetFieldsAtDefault(u)
    && (u.verifyOtp == "" || (|u.verifyOtp| == 6 && IsDigits(u.verifyOtp)))
    && (u.isAccountVerified ==> NoOtpPending(u))
  }

  /** The collection invariant: unique emails, well-formed records, ids below the counter. */
  predicate ValidStore(s: Store) {
    && EmailUnique(s.users)
    && forall id :: id in s.users ==> id < s.nextId && WellFormed(s.users[id])
  }

  /** Replacing a record by a well-formed one with the same email keeps the collection valid. */
  lemma UpdateKeepsValid(s: Store, id: Id, u: User)
    requires ValidStore(s) && id in s.users && WellFormed(u) && u.email == s.users[id].email
    ensures ValidStore(Store(s.users[id := u], s.nextId))
  {
  }

  /**
   * Inserting a well-formed record under a fresh id keeps the collection valid
   * exactly when no existing record has the new record's email.
   */
  lemma InsertKeepsValid(s: Store, u: User)
    requires ValidStore(s) && WellFormed(u)
    ensures ValidStore(Store(s.users[s.nextId := u], s.nextId + 1)) <==> !EmailTaken(s.users, u.email)
  {
    var t := Store(s.users[s.nextId := u], s.nextId + 1);
    assert s.nextId !in s.users;
    if EmailTaken(s.users, u.email) {
      var other :| other in s.users && s.users[other].email == u.email;
      assert t.users[other].email == t.users[s.nextId].email && other != s.nextId;
    }
  }
}
