/** What holds in every run of operations on the authentication database (crates/mb-auth/src/lib.rs). */
module AuthRuns {
  import opened Strings
  import opened Auth

  // ---------------------------------------------------------------- runs

  /** The tables after all operations of a run, refused ones included. */
  function Run(c: Crypto, s: State, ops: seq<Op>): State
    decreases |ops|
  {
    if ops == [] then s else Run(c, Apply(c, s, ops[0]), ops[1..])
  }

  lemma {:induction false} RunConcat(c: Crypto, s: State, a: seq<Op>, b: seq<Op>)
    ensures Run(c, s, a + b) == Run(c, Run(c, s, a), b)
    decreases |a|
  {
    if a == [] {
      assert a + b == b;
    } else {
      TailOfConcat(a, b);
      RunConcat(c, Apply(c, s, a[0]), a[1..], b);
    }
  }

  // ---------------------------------------------------------------- counting rows

  lemma {:induction false} CountConcat<T>(a: seq<T>, b: seq<T>, p: T -> bool)
    ensures Count(a + b, p) == Count(a, p) + Count(b, p)
  {
    if a == [] {
      assert a + b == b;
    } else {
      TailOfConcat(a, b);
      CountConcat(a[1..], b, p);
    }
  }

  lemma CountOne<T>(x: T, p: T -> bool)
    ensures Count([x], p) == if p(x) then 1 else 0
  {
    assert [x][1..] == [];
  }

  lemma CountUpdate<T>(rows: seq<T>, i: nat, x: T, p: T -> bool)
    requires i < |rows|
    ensures Count(rows[i := x], p)
         == Count(rows, p) - (if p(rows[i]) then 1 else 0) + (if p(x) then 1 else 0)
  {
    var front, back := rows[..i], rows[i + 1..];
    assert rows == front + [rows[i]] + back && rows[i := x] == front + [x] + back;
    CountConcat(front + [rows[i]], back, p);
    CountConcat(front + [x], back, p);
    CountConcat(front, [rows[i]], p);
    CountConcat(front, [x], p);
    CountOne(rows[i], p);
    CountOne(x, p);
  }

  lemma CountAdded<T>(rows: seq<T>, x: T, p: T -> bool)
    ensures Count(rows + [x], p) == Count(rows, p) + (if p(x) then 1 else 0)
  {
    CountConcat(rows, [x], p);
    CountOne(x, p);
  }

  lemma {:induction false} CountAtLeast<T>(rows: seq<T>, i: nat, p: T -> bool)
    requires i < |rows| && p(rows[i])
    ensures Count(rows, p) >= 1
  {
    if i > 0 {
      CountAtLeast(rows[1..], i - 1, p);
    }
  }

  // ---------------------------------------------------------------- administrators

  /** No operation removes the last enabled administrator. */
  lemma StepKeepsAdmin(c: Crypto, s: State, op: Op)
    requires EnabledAdmins(s.users) >= 1
    ensures EnabledAdmins(Apply(c, s, op).users) >= 1
  {
    if Refusal(c, s, op).None? {
      match op
      case SetupFirstUser(u, salt) => CountAdded(s.users, RowFor(c, u, salt, true), EnabledAdmin);
      case CreateUser(u, salt) => CountAdded(s.users, RowFor(c, u, salt, false), EnabledAdmin);
      case AcceptInvite(_, u, salt, _) => CountAdded(s.users, RowFor(c, u, salt, false), EnabledAdmin);
      case SetDisabled(id, disabled) => CountUpdate(s.users, id, s.users[id].(disabled := disabled), EnabledAdmin);
      case SetAdmin(id, isAdmin) => CountUpdate(s.users, id, s.users[id].(isAdmin := isAdmin), EnabledAdmin);
      case ResetPassword(id, password, salt) =>
        CountUpdate(s.users, id, s.users[id].(passwordHash := c.hash(password, salt)), EnabledAdmin);
      case _ =>
    }
  }

  /** Once an enabled administrator exists, one always does. */
  lemma {:induction false} AnAdminRemains(c: Crypto, s: State, ops: seq<Op>)
    requires EnabledAdmins(s.users) >= 1
    ensures EnabledAdmins(Run(c, s, ops).users) >= 1
    decreases |ops|
  {
    if ops != [] {
      StepKeepsAdmin(c, s, ops[0]);
      AnAdminRemains(c, Apply(c, s, ops[0]), ops[1..]);
    }
  }

  /** First-run setup of an empty database leaves exactly one account, an enabled administrator, and works once. */
  lemma SetupMakesTheAdmin(c: Crypto, s: State, u: NewUser, salt: Bytes, again: NewUser, salt': Bytes)
    requires s.users == [] && NewUserError(u).None?
    ensures OutcomeOf(c, s, SetupFirstUser(u, salt)) == Done
    ensures var s' := Apply(c, s, SetupFirstUser(u, salt));
      |s'.users| == 1 && EnabledAdmins(s'.users) == 1
      && OutcomeOf(c, s', SetupFirstUser(again, salt')) == Failed(SetupAlreadyComplete)
  {
    CountAdded([], RowFor(c, u, salt, true), EnabledAdmin);
  }

  /** Disabling is refused exactly where it would leave no enabled administrator behind an existing one. */
  lemma DisablingIsRefusedExactly(c: Crypto, s: State, id: nat)
    requires id < |s.users|
    ensures OutcomeOf(c, s, SetDisabled(id, true)) == Failed(LastAdmin)
       <==> EnabledAdmins(s.users) >= 1 && EnabledAdmins(s.users[id := s.users[id].(disabled := true)]) == 0
  {
    CountUpdate(s.users, id, s.users[id].(disabled := true), EnabledAdmin);
    if EnabledAdmin(s.users[id]) {
      CountAtLeast(s.users, id, EnabledAdmin);
    }
  }

  /** The same for taking the administrator flag away. */
  lemma DemotingIsRefusedExactly(c: Crypto, s: State, id: nat)
    requires id < |s.users|
    ensures OutcomeOf(c, s, SetAdmin(id, false)) == Failed(LastAdmin)
       <==> EnabledAdmins(s.users) >= 1 && EnabledAdmins(s.users[id := s.users[id].(isAdmin := false)]) == 0
  {
    CountUpdate(s.users, id, s.users[id].(isAdmin := false), EnabledAdmin);
    if EnabledAdmin(s.users[id]) {
      CountAtLeast(s.users, id, EnabledAdmin);
    }
  }

  // ---------------------------------------------------------------- account names

  lemma StepKeepsNames(c: Crypto, s: State, op: Op)
    requires UniqueNames(s.users)
    ensures UniqueNames(Apply(c, s, op).users)
    ensures |Apply(c, s, op).users| >= |s.users|
    ensures forall i :: 0 <= i < |s.users| ==> Apply(c, s, op).users[i].username == s.users[i].username
  {
  }

  /** Account names stay unique, and no account is ever renamed or removed. */
  lemma {:induction false} NamesAreDurable(c: Crypto, s: State, ops: seq<Op>)
    requires UniqueNames(s.users)
    ensures UniqueNames(Run(c, s, ops).users)
    ensures |Run(c, s, ops).users| >= |s.users|
    ensures forall i :: 0 <= i < |s.users| ==> Run(c, s, ops).users[i].username == s.users[i].username
    decreases |ops|
  {
    if ops != [] {
      StepKeepsNames(c, s, ops[0]);
      NamesAreDurable(c, Apply(c, s, ops[0]), ops[1..]);
    }
  }

  // ---------------------------------------------------------------- signing keys

  lemma {:induction false} RetiredAreNotCurrent(keys: seq<KeyRow>)
    ensures CurrentKeys(RetireAll(keys)) == 0
  {
    if keys != [] {
      assert RetireAll(keys)[1..] == RetireAll(keys[1..]);
      RetiredAreNotCurrent(keys[1..]);
    }
  }

  /** Exactly one key is current after the database has been opened. */
  lemma OpenedHasOneKey(c: Crypto, s: State, secret: Bytes)
    requires CurrentKeys(s.keys) <= 1
    ensures CurrentKeys(Apply(c, s, Open(secret)).keys) == 1
  {
    CountAdded(s.keys, KeyRow(secret, true), (k: KeyRow) => k.isCurrent);
  }

  lemma StepKeepsOneKey(c: Crypto, s: State, op: Op)
    requires CurrentKeys(s.keys) == 1
    ensures CurrentKeys(Apply(c, s, op).keys) == 1
  {
    if op.RotateSecret? {
      RetiredAreNotCurrent(s.keys);
      CountAdded(RetireAll(s.keys), KeyRow(op.fresh_, true), (k: KeyRow) => k.isCurrent);
    }
  }

  lemma {:induction false} OneKeyIsCurrent(c: Crypto, s: State, ops: seq<Op>)
    requires CurrentKeys(s.keys) == 1
    ensures CurrentKeys(Run(c, s, ops).keys) == 1
    decreases |ops|
  {
    if ops != [] {
      StepKeepsOneKey(c, s, ops[0]);
      OneKeyIsCurrent(c, Apply(c, s, ops[0]), ops[1..]);
    }
  }

  /** The secrets of all keys, in the order in which they were made. */
  function Secrets(keys: seq<KeyRow>): seq<Bytes> {
    seq(|keys|, i requires 0 <= i < |keys| => keys[i].secret)
  }

  /** A retired key stays in the table. */
  lemma {:induction false} SecretsAreKept(c: Crypto, s: State, ops: seq<Op>)
    ensures Secrets(s.keys) <= Secrets(Run(c, s, ops).keys)
    decreases |ops|
  {
    if ops != [] {
      assert Secrets(s.keys) <= Secrets(Apply(c, s, ops[0]).keys);
      SecretsAreKept(c, Apply(c, s, ops[0]), ops[1..]);
    }
  }

  // ---------------------------------------------------------------- invitations

  lemma StepKeepsAcceptance(c: Crypto, s: State, op: Op, d: Bytes)
    requires d in s.invites && s.invites[d].accepted
    ensures d in Apply(c, s, op).invites && Apply(c, s, op).invites[d].accepted
  {
  }

  lemma {:induction false} AcceptanceIsFinal(c: Crypto, s: State, ops: seq<Op>, d: Bytes)
    requires d in s.invites && s.invites[d].accepted
    ensures d in Run(c, s, ops).invites && Run(c, s, ops).invites[d].accepted
    decreases |ops|
  {
    if ops != [] {
      StepKeepsAcceptance(c, s, ops[0], d);
      AcceptanceIsFinal(c, Apply(c, s, ops[0]), ops[1..], d);
    }
  }

  /** The operation accepts the invitation with this digest. */
  predicate Accepts(c: Crypto, s: State, op: Op, d: Bytes) {
    op.AcceptInvite? && c.digest(op.token) == d && OutcomeOf(c, s, op) == Done
  }

  /** The state in front of the `i`-th operation. */
  function Before(c: Crypto, s: State, ops: seq<Op>, i: nat): State
    requires i <= |ops|
  {
    Run(c, s, ops[..i])
  }

  /** In no run is an invitation accepted twice, whoever issues what in between. */
  lemma AcceptedAtMostOnce(c: Crypto, s: State, ops: seq<Op>, i: nat, j: nat, d: Bytes)
    requires i < j < |ops|
    requires Accepts(c, Before(c, s, ops, i), ops[i], d)
    ensures !Accepts(c, Before(c, s, ops, j), ops[j], d)
  {
    var s1 := Before(c, s, ops, i);
    var s2 := Apply(c, s1, ops[i]);
    assert d in s2.invites && s2.invites[d].accepted;
    assert ops[..j] == ops[..i] + [ops[i]] + ops[i + 1..j];
    RunConcat(c, s, ops[..i] + [ops[i]], ops[i + 1..j]);
    RunConcat(c, s, ops[..i], [ops[i]]);
    assert [ops[i]][1..] == [];
    AcceptanceIsFinal(c, s2, ops[i + 1..j], d);
  }

  // ---------------------------------------------------------------- session cookies

  lemma {:induction false} CurrentSecretExists(keys: seq<KeyRow>)
    requires CurrentKeys(keys) >= 1
    ensures CurrentSecret(keys).Some? && CurrentSecret(keys).value in Secrets(keys)
  {
    if keys[0].isCurrent {
      assert Secrets(keys)[0] == keys[0].secret;
    } else {
      CurrentSecretExists(keys[1..]);
      var k :| 0 <= k < |keys| - 1 && Secrets(keys[1..])[k] == CurrentSecret(keys).value;
      assert Secrets(keys)[k + 1] == CurrentSecret(keys).value;
    }
  }

  lemma DotIsFound(token: Bytes, signature: Bytes)
    requires IsHexDigest(token)
    ensures var cookie := token + [DOT] + signature;
      FindDot(cookie) == 64 && cookie[..64] == token && cookie[65..] == signature && |cookie| > 64
  {
    var cookie := token + [DOT] + signature;
    assert forall i :: 0 <= i < 64 ==> cookie[i] == token[i];
    assert cookie[64] == DOT;
    FindDotIs(cookie, 64);
  }

  lemma {:induction false} FindDotIs(s: Bytes, n: nat)
    requires n < |s| && s[n] == DOT && forall i :: 0 <= i < n ==> s[i] != DOT
    ensures FindDot(s) == n
  {
  }

  /** Every signature is a well-formed digest. */
  ghost predicate Signs(c: Crypto) {
    forall key: Bytes, message: Bytes :: IsHexDigest(c.hmac(key, message))
  }

  /** A cookie made with a key that is still in the table stands for exactly its session. */
  lemma CookieIsItsSession(c: Crypto, s: State, secret: Bytes, token: Bytes, now: int)
    requires Signs(c) && IsHexDigest(token) && secret in Secrets(s.keys)
    ensures CookieUser(c, s, token + [DOT] + c.hmac(secret, token), now) == SessionUser(c, s, token, now)
  {
    DotIsFound(token, c.hmac(secret, token));
    var k :| 0 <= k < |s.keys| && Secrets(s.keys)[k] == secret;
    assert c.hmac(s.keys[k].secret, token) == c.hmac(secret, token);
  }

  /**
   * A cookie signed at some point of a run authenticates, after any further operations and key rotations, exactly
   * as its session does: while the row exists unexpired and its user is enabled.
   */
  lemma CookieOutlivesRotation(c: Crypto, s: State, token: Bytes, later: seq<Op>, now: int)
    requires Signs(c) && IsHexDigest(token) && CurrentKeys(s.keys) == 1
    ensures SignedCookie(c, s, token).Some?
    ensures CookieUser(c, Run(c, s, later), SignedCookie(c, s, token).value, now)
         == SessionUser(c, Run(c, s, later), token, now)
  {
    CurrentSecretExists(s.keys);
    SecretsAreKept(c, s, later);
    var secret := CurrentSecret(s.keys).value;
    var k :| 0 <= k < |s.keys| && Secrets(s.keys)[k] == secret;
    assert Secrets(Run(c, s, later).keys)[k] == secret;
    CookieIsItsSession(c, Run(c, s, later), secret, token, now);
  }

  /** A cookie whose signature no key made is nobody's. */
  lemma ForgedCookieIsRefused(c: Crypto, s: State, token: Bytes, signature: Bytes, now: int)
    requires IsHexDigest(token)
    requires forall secret :: secret in Secrets(s.keys) ==> c.hmac(secret, token) != signature
    ensures CookieUser(c, s, token + [DOT] + signature, now) == None
  {
    DotIsFound(token, signature);
    forall i | 0 <= i < |s.keys| ensures c.hmac(s.keys[i].secret, token) != signature {
      assert Secrets(s.keys)[i] == s.keys[i].secret;
    }
  }

  // ---------------------------------------------------------------- how long a session lives

  /** The operation ends the session with this digest, whose user is `id`. */
  predicate Ends(c: Crypto, s: State, op: Op, d: Bytes, id: nat) {
    || (op.RevokeSession? && c.digest(op.token) == d)
    || (op.ResetPassword? && op.id == id && OutcomeOf(c, s, op) == Done)
  }

  lemma StepKeepsSession(c: Crypto, s: State, op: Op, d: Bytes)
    requires d in s.sessions
    ensures d in Apply(c, s, op).sessions <==> !Ends(c, s, op, d, s.sessions[d].user)
    ensures d in Apply(c, s, op).sessions ==> Apply(c, s, op).sessions[d] == s.sessions[d]
  {
  }

  /** No operation of the run ends the session. */
  predicate Undisturbed(c: Crypto, s: State, ops: seq<Op>, d: Bytes, id: nat)
    decreases |ops|
  {
    ops == [] || (!Ends(c, s, ops[0], d, id) && Undisturbed(c, Apply(c, s, ops[0]), ops[1..], d, id))
  }

  /** No operation of the run issues a token with this digest anew. */
  predicate NotReissued(c: Crypto, ops: seq<Op>, d: Bytes) {
    forall op :: op in ops && op.CreateSession? ==> c.digest(op.token) != d
  }

  lemma {:induction false} EndedStaysEnded(c: Crypto, s: State, ops: seq<Op>, d: Bytes)
    requires d !in s.sessions && NotReissued(c, ops, d)
    ensures d !in Run(c, s, ops).sessions
    decreases |ops|
  {
    if ops != [] {
      assert ops[0] in ops;
      assert d !in Apply(c, s, ops[0]).sessions;
      EndedStaysEnded(c, Apply(c, s, ops[0]), ops[1..], d);
    }
  }

  /** A session row survives a run exactly when the run neither revokes it nor resets its user's password. */
  lemma {:induction false} SessionLivesUntilEnded(c: Crypto, s: State, ops: seq<Op>, d: Bytes)
    requires d in s.sessions && NotReissued(c, ops, d)
    ensures d in Run(c, s, ops).sessions <==> Undisturbed(c, s, ops, d, s.sessions[d].user)
    ensures d in Run(c, s, ops).sessions ==> Run(c, s, ops).sessions[d] == s.sessions[d]
    decreases |ops|
  {
    if ops != [] {
      StepKeepsSession(c, s, ops[0], d);
      var next := Apply(c, s, ops[0]);
      if Ends(c, s, ops[0], d, s.sessions[d].user) {
        EndedStaysEnded(c, next, ops[1..], d);
      } else {
        SessionLivesUntilEnded(c, next, ops[1..], d);
      }
    }
  }

  /** Sessions belong to accounts. */
  predicate Owned(s: State) {
    forall d :: d in s.sessions ==> s.sessions[d].user < |s.users|
  }

  lemma {:induction false} SessionsStayOwned(c: Crypto, s: State, ops: seq<Op>)
    requires Owned(s)
    ensures Owned(Run(c, s, ops))
    decreases |ops|
  {
    if ops != [] {
      assert Owned(Apply(c, s, ops[0]));
      SessionsStayOwned(c, Apply(c, s, ops[0]), ops[1..]);
    }
  }

  /**
   * From sign-in to sign-out: a cookie issued for a session authenticates its user after any run exactly when the run
   * did not end the session, it has not expired, and the user is not disabled at that moment.
   */
  lemma CookieAuthenticatesExactly(c: Crypto, s: State, token: Bytes, ops: seq<Op>, now: int)
    requires Signs(c) && IsHexDigest(token) && CurrentKeys(s.keys) == 1 && Owned(s)
    requires c.digest(token) in s.sessions && NotReissued(c, ops, c.digest(token))
    ensures var row := s.sessions[c.digest(token)];
      row.user < |s.users| <= |Run(c, s, ops).users|
      && SignedCookie(c, s, token).Some?
      && CookieUser(c, Run(c, s, ops), SignedCookie(c, s, token).value, now)
         == (if Undisturbed(c, s, ops, c.digest(token), row.user) && row.expiresAt > now
                && !Run(c, s, ops).users[row.user].disabled
             then Some(row.user) else None)
  {
    CookieOutlivesRotation(c, s, token, ops, now);
    SessionLivesUntilEnded(c, s, ops, c.digest(token));
    UsersOnlyGrow(c, s, ops);
  }

  /** An empty database with the tables in place. */
  const FRESH := State([], map[], map[], [])

  /** The state behind opening a fresh database with a first secret and any run of operations. */
  function Reached(c: Crypto, secret: Bytes, before: seq<Op>): State {
    Run(c, Apply(c, FRESH, Open(secret)), before)
  }

  /** So it is in every run from a fresh database, with any number of rotations before and after the cookie is issued. */
  lemma CookieInEveryRun(c: Crypto, secret: Bytes, before: seq<Op>, token: Bytes, later: seq<Op>, now: int)
    requires Signs(c) && IsHexDigest(token) && NotReissued(c, later, c.digest(token))
    requires c.digest(token) in Reached(c, secret, before).sessions
    ensures CurrentKeys(Reached(c, secret, before + later).keys) == 1
    ensures var s := Reached(c, secret, before);
      var end, row := Reached(c, secret, before + later), s.sessions[c.digest(token)];
      && row.user < |s.users| <= |end.users| && SignedCookie(c, s, token).Some?
      && CookieUser(c, end, SignedCookie(c, s, token).value, now)
         == (if Undisturbed(c, s, later, c.digest(token), row.user) && row.expiresAt > now && !end.users[row.user].disabled
             then Some(row.user) else None)
  {
    var first := Apply(c, FRESH, Open(secret));
    OpenedHasOneKey(c, FRESH, secret);
    OneKeyIsCurrent(c, first, before);
    SessionsStayOwned(c, first, before);
    RunConcat(c, first, before, later);
    OneKeyIsCurrent(c, Reached(c, secret, before), later);
    CookieAuthenticatesExactly(c, Reached(c, secret, before), token, later, now);
  }

  lemma {:induction false} UsersOnlyGrow(c: Crypto, s: State, ops: seq<Op>)
    ensures |Run(c, s, ops).users| >= |s.users|
    decreases |ops|
  {
    if ops != [] {
      UsersOnlyGrow(c, Apply(c, s, ops[0]), ops[1..]);
    }
  }

  // ---------------------------------------------------------------- passwords

  lemma {:induction false} NamedIsFound(users: seq<UserRow>, id: nat)
    requires UniqueNames(users) && id < |users|
    ensures UserNamed(users, users[id].username) == Some(id)
  {
    if id < |users| - 1 {
      assert Init(users)[id] == users[id];
      NamedIsFound(Init(users), id);
    }
  }

  /** A name and a password sign in exactly the enabled account of that name whose hash verifies. */
  lemma LoginIsExact(c: Crypto, s: State, id: nat, password: string)
    requires UniqueNames(s.users) && id < |s.users|
    ensures LoginUser(c, s, s.users[id].username, password)
         == if c.verify(password, s.users[id].passwordHash) && !s.users[id].disabled then Some(id) else None
  {
    NamedIsFound(s.users, id);
  }
}
