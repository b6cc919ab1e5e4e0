/** Who has an account, who administers, and who gets in, over every run of operations (crates/mb-auth/src/lib.rs). */
module AuthAccounts {
  import opened Strings
  import opened Auth
  import opened Permissions
  import opened AuthRuns

  // ---------------------------------------------------------------- who administers

  /** The operation makes an account. */
  predicate Creates(op: Op) {
    op.SetupFirstUser? || op.CreateUser? || op.AcceptInvite?
  }

  /** In that run, operation `k` names `id` as an administrator: by setting it up, or by saying so. */
  predicate NamesAdmin(c: Crypto, s: State, ops: seq<Op>, k: nat, id: nat)
    requires k < |ops|
  {
    var before := Run(c, s, ops[..k]);
    || ops[k] == SetAdmin(id, true)
    || (ops[k].SetupFirstUser? && OutcomeOf(c, before, ops[k]) == Done && id == |before.users|)
  }

  lemma StepAdmin(c: Crypto, s: State, op: Op, id: nat)
    requires id < |Apply(c, s, op).users| && Apply(c, s, op).users[id].isAdmin
    ensures (id < |s.users| && s.users[id].isAdmin) || op == SetAdmin(id, true)
         || (op.SetupFirstUser? && OutcomeOf(c, s, op) == Done && id == |s.users|)
  {
  }

  lemma RunSnoc(c: Crypto, s: State, ops: seq<Op>)
    requires ops != []
    ensures Run(c, s, ops) == Apply(c, Run(c, s, Init(ops)), Last(ops))
  {
    InitLast(ops);
    RunConcat(c, s, Init(ops), [Last(ops)]);
    assert [Last(ops)][1..] == [];
    assert Run(c, Run(c, s, Init(ops)), [Last(ops)]) == Run(c, Apply(c, Run(c, s, Init(ops)), Last(ops)), []);
  }

  /** Nobody becomes an administrator but by first-run setup or by being named. */
  lemma {:induction false} AdminsAreNamed(c: Crypto, s: State, ops: seq<Op>, id: nat)
    requires id < |Run(c, s, ops).users| && Run(c, s, ops).users[id].isAdmin
    ensures (id < |s.users| && s.users[id].isAdmin) || exists k: nat | k < |ops| :: NamesAdmin(c, s, ops, k, id)
    decreases |ops|
  {
    if ops != [] {
      var init, n := Init(ops), |ops| - 1;
      var before := Run(c, s, init);
      RunSnoc(c, s, ops);
      StepAdmin(c, before, Last(ops), id);
      assert ops[..n] == init;
      if id < |before.users| && before.users[id].isAdmin {
        AdminsAreNamed(c, s, init, id);
        if exists k: nat | k < |init| :: NamesAdmin(c, s, init, k, id) {
          var k: nat :| k < |init| && NamesAdmin(c, s, init, k, id);
          assert init[..k] == ops[..k];
          assert NamesAdmin(c, s, ops, k, id);
        }
      } else {
        assert NamesAdmin(c, s, ops, n, id);
      }
    }
  }

  /** Setting and taking the administrator flag does just that, for one account. */
  lemma SetAdminIsExact(c: Crypto, s: State, id: nat, isAdmin: bool)
    requires OutcomeOf(c, s, SetAdmin(id, isAdmin)) == Done
    ensures var t := Apply(c, s, SetAdmin(id, isAdmin));
      && id < |s.users| == |t.users| && t.users[id].isAdmin == isAdmin
      && (forall i :: 0 <= i < |s.users| && i != id ==> t.users[i] == s.users[i])
      && t.users[id].username == s.users[id].username && t.users[id].displayName == s.users[id].displayName
      && t.users[id].passwordHash == s.users[id].passwordHash && t.users[id].disabled == s.users[id].disabled
  {
  }

  // ---------------------------------------------------------------- accounts and what they were made from

  /** Operation `k` of the run makes account `i`. */
  predicate MakesAccount(c: Crypto, s: State, ops: seq<Op>, k: nat, i: nat)
    requires k < |ops|
  {
    var before := Run(c, s, ops[..k]);
    Creates(ops[k]) && OutcomeOf(c, before, ops[k]) == Done && i == |before.users|
  }

  /** The account carries the names of the request. */
  predicate Carries(row: UserRow, u: NewUser) {
    row.username == u.username && row.displayName == u.displayName
  }

  lemma StepAccounts(c: Crypto, s: State, op: Op)
    ensures |s.users| <= |Apply(c, s, op).users|
    ensures forall i :: 0 <= i < |s.users| ==>
      Apply(c, s, op).users[i].username == s.users[i].username && Apply(c, s, op).users[i].displayName == s.users[i].displayName
    ensures |Apply(c, s, op).users| > |s.users| ==>
      && Creates(op) && OutcomeOf(c, s, op) == Done && |Apply(c, s, op).users| == |s.users| + 1
      && Carries(Apply(c, s, op).users[|s.users|], op.user)
  {
  }

  /** Every account of a run was there before, or was made by a request whose names it still carries. */
  lemma {:induction false} AccountsAreRequested(c: Crypto, s: State, ops: seq<Op>, i: nat)
    requires |s.users| <= i < |Run(c, s, ops).users|
    ensures exists k: nat | k < |ops| :: MakesAccount(c, s, ops, k, i) && Carries(Run(c, s, ops).users[i], ops[k].user)
    decreases |ops|
  {
    var init, n := Init(ops), |ops| - 1;
    var before := Run(c, s, init);
    RunSnoc(c, s, ops);
    StepAccounts(c, before, Last(ops));
    assert ops[..n] == init;
    if i < |before.users| {
      AccountsAreRequested(c, s, init, i);
      var k: nat :| k < |init| && MakesAccount(c, s, init, k, i) && Carries(before.users[i], init[k].user);
      assert init[..k] == ops[..k];
      assert MakesAccount(c, s, ops, k, i);
    } else {
      assert MakesAccount(c, s, ops, n, i);
    }
  }

  /** A new account is enabled, and administers only if it was the first. */
  lemma NewAccount(c: Crypto, s: State, op: Op)
    requires Creates(op) && OutcomeOf(c, s, op) == Done
    ensures var t := Apply(c, s, op);
      && |t.users| == |s.users| + 1 && t.users[..|s.users|] == s.users && Carries(t.users[|s.users|], op.user)
      && !t.users[|s.users|].disabled
      && (t.users[|s.users|].isAdmin <==> op.SetupFirstUser?) && (op.SetupFirstUser? ==> s.users == [])
  {
  }

  // ---------------------------------------------------------------- signing in

  /** Verification accepts what hashing made. */
  ghost predicate Accepts(c: Crypto) {
    forall password, salt :: c.verify(password, c.hash(password, salt))
  }

  /** Verification accepts nothing else either. */
  ghost predicate Checks(c: Crypto) {
    forall given, password, salt {:trigger c.verify(given, c.hash(password, salt))} ::
      c.verify(given, c.hash(password, salt)) <==> given == password
  }

  /** The operation, if it is not refused, gives account `id` this password. */
  predicate SetsPassword(s: State, op: Op, id: nat, password: string) {
    || (Creates(op) && id == |s.users| && op.user.password == password)
    || (op.ResetPassword? && op.id == id && op.password == password)
  }

  /** No operation of the run gives account `id` another password. */
  predicate NotReset(ops: seq<Op>, id: nat) {
    forall op :: op in ops ==> !(op.ResetPassword? && op.id == id)
  }

  lemma {:induction false} HashStays(c: Crypto, s: State, ops: seq<Op>, id: nat)
    requires id < |s.users| && NotReset(ops, id)
    ensures id < |Run(c, s, ops).users|
    ensures Run(c, s, ops).users[id].passwordHash == s.users[id].passwordHash
    decreases |ops|
  {
    if ops != [] {
      assert ops[0] in ops && forall op :: op in ops[1..] ==> op in ops;
      HashStays(c, Apply(c, s, ops[0]), ops[1..], id);
    }
  }

  lemma PasswordIsHashed(c: Crypto, s: State, op: Op, id: nat, password: string)
    requires SetsPassword(s, op, id, password) && OutcomeOf(c, s, op) == Done
    ensures id < |Apply(c, s, op).users| && exists salt :: Apply(c, s, op).users[id].passwordHash == c.hash(password, salt)
  {
    assert Apply(c, s, op).users[id].passwordHash == c.hash(password, op.salt);
  }

  /** The state behind a run, an operation and a further run. */
  function Behind(c: Crypto, s: State, op: Op, later: seq<Op>): State {
    Run(c, Apply(c, s, op), later)
  }

  lemma PasswordStays(c: Crypto, s: State, op: Op, id: nat, password: string, later: seq<Op>)
    requires SetsPassword(s, op, id, password) && OutcomeOf(c, s, op) == Done && NotReset(later, id) && UniqueNames(s.users)
    ensures var t := Behind(c, s, op, later);
      id < |t.users| && UniqueNames(t.users) && exists salt :: t.users[id].passwordHash == c.hash(password, salt)
  {
    PasswordIsHashed(c, s, op, id, password);
    HashStays(c, Apply(c, s, op), later, id);
    NamesAreDurable(c, s, [op]);
    assert [op][1..] == [] && Run(c, s, [op]) == Run(c, Apply(c, s, op), []);
    NamesAreDurable(c, Apply(c, s, op), later);
  }

  /**
   * From the operation that gave an account its password, by making the account or by resetting it, until it is given
   * another, the account signs in with that password whenever it is enabled.
   */
  lemma PasswordSignsIn(c: Crypto, s: State, op: Op, id: nat, password: string, later: seq<Op>)
    requires Accepts(c) && UniqueNames(s.users)
    requires SetsPassword(s, op, id, password) && OutcomeOf(c, s, op) == Done && NotReset(later, id)
    ensures var t := Behind(c, s, op, later);
      && id < |t.users|
      && LoginUser(c, t, t.users[id].username, password) == (if t.users[id].disabled then None else Some(id))
  {
    PasswordStays(c, s, op, id, password, later);
    LoginIsExact(c, Behind(c, s, op, later), id, password);
  }

  /** And with no other password, in particular not with one it had before. */
  lemma OnlyThatPasswordSignsIn(c: Crypto, s: State, op: Op, id: nat, password: string, later: seq<Op>, given: string)
    requires Checks(c) && UniqueNames(s.users)
    requires SetsPassword(s, op, id, password) && OutcomeOf(c, s, op) == Done && NotReset(later, id)
    ensures var t := Behind(c, s, op, later);
      && id < |t.users|
      && LoginUser(c, t, t.users[id].username, given)
         == (if given == password && !t.users[id].disabled then Some(id) else None)
  {
    PasswordStays(c, s, op, id, password, later);
    LoginIsExact(c, Behind(c, s, op, later), id, given);
  }

  // ---------------------------------------------------------------- what the other operations give and take

  /** A disabled account gets in with no password and with none of its sessions. */
  lemma DisabledIsLockedOut(c: Crypto, s: State, id: nat, password: string, token: Bytes, now: int)
    requires UniqueNames(s.users) && OutcomeOf(c, s, SetDisabled(id, true)) == Done
    ensures var t := Apply(c, s, SetDisabled(id, true));
      && id < |t.users| && LoginUser(c, t, t.users[id].username, password) == None && SessionUser(c, t, token, now) != Some(id)
  {
    var t := Apply(c, s, SetDisabled(id, true));
    StepKeepsNames(c, s, SetDisabled(id, true));
    LoginIsExact(c, t, id, password);
  }

  /** Enabled again, it gets in as before. */
  lemma EnabledIsLetIn(c: Crypto, s: State, id: nat, password: string, token: Bytes, now: int)
    requires UniqueNames(s.users) && id < |s.users| && !s.users[id].disabled
    requires OutcomeOf(c, s, SetDisabled(id, true)) == Done
    ensures var t := Apply(c, Apply(c, s, SetDisabled(id, true)), SetDisabled(id, false));
      && t == s
      && LoginUser(c, t, s.users[id].username, password) == LoginUser(c, s, s.users[id].username, password)
      && SessionUser(c, t, token, now) == SessionUser(c, s, token, now)
  {
    var mid := Apply(c, s, SetDisabled(id, true));
    assert mid.users[id := mid.users[id].(disabled := false)] == s.users;
  }

  /** A session is issued for its user until it expires, and only for enabled users and future times. */
  lemma SessionIsIssued(c: Crypto, s: State, id: nat, expiresAt: int, token: Bytes, now: int, later: int)
    ensures var op := CreateSession(id, expiresAt, token, now);
      && (OutcomeOf(c, s, op) == Done <==>
            expiresAt > now && id < |s.users| && !s.users[id].disabled && c.digest(token) !in s.sessions)
      && (OutcomeOf(c, s, op) == Done ==>
            SessionUser(c, Apply(c, s, op), token, later) == if later < expiresAt then Some(id) else None)
      && (OutcomeOf(c, s, op) == Done ==> SessionUser(c, Apply(c, Apply(c, s, op), RevokeSession(token)), token, later) == None)
  {
  }

  /** A reset ends every session of the account and of no other. */
  lemma ResetEndsSessions(c: Crypto, s: State, id: nat, password: string, salt: Bytes, token: Bytes, now: int)
    requires OutcomeOf(c, s, ResetPassword(id, password, salt)) == Done
    ensures var t := Apply(c, s, ResetPassword(id, password, salt));
      SessionUser(c, t, token, now) == if SessionUser(c, s, token, now) == Some(id) then None else SessionUser(c, s, token, now)
  {
  }

  /** An invitation admits, until it expires, exactly one account whose request is in order. */
  lemma InvitationAdmitsOne(c: Crypto, s: State, id: nat, vault: string, role: Role, expiresAt: int, token: Bytes, now: int,
                            u: NewUser, salt: Bytes, later: int, again: Op)
    requires OutcomeOf(c, s, CreateInvite(id, vault, role, expiresAt, token, now)) == Done
    requires again.AcceptInvite? && c.digest(again.token) == c.digest(token)
    ensures id < |s.users| && !s.users[id].disabled && role != NoAccess && expiresAt > now
    ensures var t := Apply(c, s, CreateInvite(id, vault, role, expiresAt, token, now));
      var accept := AcceptInvite(token, u, salt, later);
      && t.users == s.users && t.sessions == s.sessions && t.keys == s.keys
      && c.digest(token) in t.invites && t.invites[c.digest(token)] == InviteRow(id, vault, role, expiresAt, false)
      && (OutcomeOf(c, t, accept) == Done <==> later < expiresAt && InsertError(s.users, u) == None)
      && (OutcomeOf(c, t, accept) == Done ==> OutcomeOf(c, Apply(c, t, accept), again) == Failed(InvalidInvite))
  {
  }

  /** Behind a rotation, cookies are signed with the fresh secret, and those signed before are still known. */
  lemma RotationSignsAnew(c: Crypto, s: State, secret: Bytes, token: Bytes)
    requires CurrentKeys(s.keys) == 1
    ensures var t := Apply(c, s, RotateSecret(secret));
      && SignedCookie(c, t, token) == Some(token + [DOT] + c.hmac(secret, token))
      && forall signature :: SignedByAny(c, s.keys, token, signature) ==> SignedByAny(c, t.keys, token, signature)
  {
    var t := Apply(c, s, RotateSecret(secret));
    RetiredSignNothing(s.keys, KeyRow(secret, true));
    forall signature | SignedByAny(c, s.keys, token, signature) ensures SignedByAny(c, t.keys, token, signature) {
      var i :| 0 <= i < |s.keys| && c.hmac(s.keys[i].secret, token) == signature;
      assert c.hmac(t.keys[i].secret, token) == signature;
    }
  }

  lemma {:induction false} RetiredSignNothing(keys: seq<KeyRow>, fresh_: KeyRow)
    requires fresh_.isCurrent
    ensures CurrentSecret(RetireAll(keys) + [fresh_]) == Some(fresh_.secret)
  {
    if keys == [] {
      assert RetireAll(keys) + [fresh_] == [fresh_];
    } else {
      RetiredSignNothing(keys[1..], fresh_);
      assert (RetireAll(keys) + [fresh_])[1..] == RetireAll(keys[1..]) + [fresh_];
    }
  }
}
