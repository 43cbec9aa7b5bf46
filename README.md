# Account verification in the MERN auth server, modelled in Dafny

This project models the authentication core of a small Express/MongoDB
server: the user record declared in `server/models/userModel.js` and the five
request handlers of `server/controllers/authController.js` that read and write
it — `register`, `login`, `logout`, `sendVerifyOtp` and `verifyEmail`.

The MongoDB collection becomes an in-memory store: a map from record id to
user record, plus the counter that hands out the next id (standing in for the
ObjectId that Mongoose assigns). Every stored record has its required fields,
untouched reset-password fields, a pending code that is six digits or empty,
and no pending code once verified; and no two records share an email
(`UserModel.ValidStore`).

Each handler appears twice:
- as a pure step function from the store before the request to the outcome
  and the store after it (`RegisterStep`, `LoginOutcome`, `SendOtpStep`,
  `VerifyStep`), whose contracts state every outcome as an if-and-only-if of
  the inputs, in the source's order of checks, and state that every failure
  other than a failed mail leaves the store as it was (a failed mail keeps
  the write that preceded it);
- as a method of the class `AccountStore`. Like the original, it fetches a
  record, assigns its fields one by one and writes the record back.
  `Register`, `SendVerifyOtp` and `VerifyEmail` are proved to keep the store
  invariant and to agree with `RegisterStep`, `SendOtpStep` and `VerifyStep`.
  `Login` changes nothing and is proved to answer what `LoginOutcome` says.
  `Logout` changes nothing and always answers "Logged Out". `FindByEmail` is
  the email lookup shared by `Register` and `Login`, and it changes nothing.

Everything the handlers take from outside the store is a parameter:
- bcrypt is a `Hasher`, a pair of functions `hash(password, salt)` and
  `compare(password, hash)`. All that is assumed of it (`Hasher.Sound`) is
  that a password matches its own hash, and that a hash is neither empty nor
  the password;
- `Math.random()` is an integer draw in [0, 900000), so the code is the
  decimal rendering of `100000 + draw`;
- `Date.now()` is an integer `now` in milliseconds;
- the mail transport is an `Option<string>`: `None` when the mail goes out,
  `Some(message)` when `sendMail` throws with that message.

A request field is "missing" when it is the empty string (for ids, `None`),
matching the source's `!field` tests on string values.

The handlers answer with the JSON body `{success, message?}`; `Envelope` gives
the exact body for each `Outcome`.

Two behaviours of the code worth noting:
- `sendVerifyOtp` has no not-found branch. For an unknown or absent id, `findById`
  yields `null` and reading `isAccountVerified` on it throws. The catch block
  then answers with that error's message. The model's `NullRecord` outcome
  carries the message Node.js (16.9 and later) gives for that error.
- Codes are not zero-padded. They never need padding, because they run from
  100000 to 999999.

## Model

| member | source | states |
|---|---|---|
| `UserModel.NewUser` | server/models/userModel.js:3-12 | a fresh record holds the given name, email and hash; it is unverified, has no pending code (`''`, 0) and reset fields at `''`, 0 |
| `UserModel.UpdateKeepsValid` | server/models/userModel.js:4-11 | writing back a record that keeps its email and stays well-formed keeps the collection valid |
| `UserModel.InsertKeepsValid` | server/models/userModel.js:4-11 | adding a well-formed record under a fresh id keeps the collection valid exactly when its email is not already used (the unique index) |
| `Otp.Decimal` | server/controllers/authController.js:130 | `String(n)` is a non-empty digit string with no leading zero unless n is 0 |
| `Otp.DecimalRoundTrip` | server/controllers/authController.js:130 | reading back the rendering of n gives n |
| `Otp.DecimalLength` | server/controllers/authController.js:130 | a number in [10^k, 10^(k+1)) renders to k+1 digits |
| `Otp.ValueBounds` | server/controllers/authController.js:130 | a k-digit string denotes less than 10^k, and at least 10^(k-1) when its first digit is not 0 |
| `Otp.ValueRoundTrip` | server/controllers/authController.js:130 | rendering the value of a digit string without leading zeros gives the string back |
| `Otp.DecimalInjective` | server/controllers/authController.js:130 | two numbers render alike if and only if they are equal |
| `Otp.NewOtp` | server/controllers/authController.js:130 | the code for a draw is six decimal digits, the first non-zero, denoting 100000 + draw, so within [100000, 999999] |
| `Otp.NewOtpBijective` | server/controllers/authController.js:130 | distinct draws give distinct codes, and every six-digit code without a leading zero is the code of some draw |
| `AuthController.Envelope` | server/controllers/authController.js:12-181 | the body sent for each outcome: `success` is true exactly for the five success outcomes, and every failure carries a message (a caught error its own) |
| `AuthController.RegisterStep` | server/controllers/authController.js:8-57 | "Missing Detail" iff a field is empty; "User already exists" iff all present and the email is taken; both leave the store unchanged; otherwise exactly one new record with the hash and defaults is added, no other record changes, and a failed welcome mail is reported without undoing the insertion |
| `AuthController.LoginOutcome` | server/controllers/authController.js:61-102 | "Email and password are required" iff a field is empty; "Invalid email" iff both are present and no record has the email; "Invalid password" iff the email is registered but no record with it has a hash `compare` accepts; success iff both are present and such a record exists |
| `AuthController.SendOtpStep` | server/controllers/authController.js:120-151 | an unknown or absent id fails and a verified account gets "Account Already verified", both without change; otherwise only that record changes, its code becomes the fresh six-digit code and its expiry now + 86400000, overwriting any earlier code; a failed mail is reported but the code stays |
| `AuthController.VerifyStep` | server/controllers/authController.js:154-186 | "Missing Details", "User not found", "Invalid OTP" (empty or different stored code), "OTP Expired" (expiry strictly before now) in that order, each an iff and each leaving the store unchanged; success marks only that record verified and clears its code and expiry |
| `AuthController.AccountStore.constructor` | server/models/userModel.js:14 | a new collection is valid, holds no record and hands out id 0 first |
| `AuthController.AccountStore.FindByEmail` | server/controllers/authController.js:16 | `findOne({email})` finds a record iff one uses the address, and the record it finds is the only one with that address |
| `AuthController.AccountStore.Register` | server/controllers/authController.js:8-57 | the in-place register keeps the collection valid and leaves the outcome and collection `RegisterStep` gives |
| `AuthController.AccountStore.Login` | server/controllers/authController.js:61-102 | login changes nothing, and it answers what `LoginOutcome` says. The proof relies on the email being unique. |
| `AuthController.AccountStore.Logout` | server/controllers/authController.js:106-117 | logout always answers `{success: true, message: "Logged Out"}` and changes nothing |
| `AuthController.AccountStore.SendVerifyOtp` | server/controllers/authController.js:120-151 | the in-place field assignments and write-back keep the collection valid and agree with `SendOtpStep` |
| `AuthController.AccountStore.VerifyEmail` | server/controllers/authController.js:154-186 | the in-place field assignments and write-back keep the collection valid and agree with `VerifyStep` |
| `AuthProperties.FailuresChangeNothing` | server/controllers/authController.js:8-186 | every failure but a failed mail leaves the store unchanged; a failed mail (register or sendVerifyOtp only) leaves exactly what a delivered mail leaves |
| `AuthProperties.ApplyKeepsValid` | server/models/userModel.js:4-11 | every handler keeps emails unique, required fields present and reset fields at their defaults |
| `AuthProperties.ApplyFollowsStateMachine` | server/controllers/authController.js:126-181 | one request moves an account only Unverified to OtpPending or OtpPending to Verified, never loses it and never changes its name, email or password |
| `AuthProperties.RunKeepsValid` | server/models/userModel.js:4-11 | the collection invariant holds after any sequence of requests |
| `AuthProperties.RunEvolves` | server/controllers/authController.js:126-181 | over any sequence of requests no record is lost, identities stay fixed and no status moves back |
| `AuthProperties.VerifiedIsTerminal` | server/controllers/authController.js:126-128 | an account once verified stays verified, with no code pending, after any sequence of requests |
| `AuthProperties.OtpRoundTrip` | server/controllers/authController.js:130-181 | the code just sent verifies the account up to and including its expiry instant, even if the mail failed; the same code then fails with "Invalid OTP" and changes nothing |
| `AuthProperties.ExpiredCodeRejected` | server/controllers/authController.js:172-174 | after the expiry instant the right code gets "OTP Expired", and the account stays unverified with its code pending |
| `AuthProperties.ResendInvalidatesEarlierCode` | server/controllers/authController.js:130-135 | after a second code is sent, a different earlier code is refused as "Invalid OTP" |
| `AuthProperties.NoCodeForVerifiedAccount` | server/controllers/authController.js:126-128 | a verified account gets "Account Already verified" and its code fields stay cleared |
| `AuthProperties.RegisterThenLogin` | server/controllers/authController.js:22-95 | after registering, the stored password is not the plain text; the same email and password log in, and a password the hash does not match gets "Invalid password" |
| `AuthProperties.LoginChecksTheRecord` | server/controllers/authController.js:70-80 | for a registered email, login succeeds exactly when `compare` accepts that record's stored hash, and otherwise answers "Invalid password" |
| `AuthProperties.DuplicateRegisterRejected` | server/controllers/authController.js:16-20 | registering the same email again gets "User already exists" and leaves the store, the first record included, unchanged |

## Left out

- JWT signing and the `token` cookie (set on register and login, cleared on logout): they do not touch the store. The model keeps only the outcomes.
- Mail content, sender and subject: I/O. Only success or failure of `sendMail` is a parameter.
- bcrypt internals. The cost factor, the random salt (a parameter here), and the truncation of long passwords are not modelled. `Hasher.Sound` is the only assumption about bcrypt.
- Floating-point `Math.random()` arithmetic: the draw is an integer in [0, 900000).
- Mongoose persistence and errors from the database (failed `findOne`, `findById`, `save`, a cast error on a malformed id): the store is an in-memory map that does not fail. An id that does not resolve is treated as absent.
- Concurrency: the read-modify-write race between concurrent requests on one account comes from the async runtime. Each request here runs to completion before the next one starts.
- Request fields that are present but not strings (numbers, booleans, `null`): fields are strings, and "missing" means the empty string.
- The reset-password fields: no handler reads or writes them. The model only proves that they keep their defaults.
