/** The database handle: every method reads and writes the tables in place (crates/mb-auth/src/lib.rs). */
module AuthDb {
  import opened Strings
  import opened Auth
  import opened Permissions

  // ---------------------------------------------------------------- comparing and encoding bytes

  lemma OrIsZero(a: bv8, b: bv8)
    ensures (a | b) == 0 <==> a == 0 && b == 0
  {
  }

  lemma XorIsZero(a: bv8, b: bv8)
    ensures (a ^ b) == 0 <==> a == b
  {
  }

  /** Looks at every byte whatever it finds, and still decides equality. */
  method ConstantTimeEq(left: Bytes, right: Bytes) returns (equal: bool)
    ensures equal <==> left == right
  {
    if |left| != |right| {
      return false;
    }
    var difference: bv8 := 0;
    for i := 0 to |left|
      invariant difference == 0 <==> left[..i] == right[..i]
    {
      OrIsZero(difference, left[i] ^ right[i]);
      XorIsZero(left[i], right[i]);
      assert left[..i + 1] == left[..i] + [left[i]] && right[..i + 1] == right[..i] + [right[i]];
      difference := difference | (left[i] ^ right[i]);
    }
    assert left[..|left|] == left && right[..|left|] == right;
    return difference == 0;
  }

  function HexNibble(value: bv8): bv8 {
    if value <= 9 then 0x30 + value else if value <= 15 then 0x61 + (value - 10) else 0x30
  }

  function HexOf(bytes: Bytes): Bytes {
    if bytes == [] then [] else [HexNibble(bytes[0] >> 4), HexNibble(bytes[0] & 0x0F)] + HexOf(bytes[1..])
  }

  lemma HexUnfolds(front: Bytes, bytes: Bytes, i: nat)
    requires i < |bytes|
    ensures front + HexOf(bytes[i..])
         == front + [HexNibble(bytes[i] >> 4)] + [HexNibble(bytes[i] & 0x0F)] + HexOf(bytes[i + 1..])
  {
    assert bytes[i..][1..] == bytes[i + 1..];
    var high, low := HexNibble(bytes[i] >> 4), HexNibble(bytes[i] & 0x0F);
    assert front + [high] + [low] == front + [high, low];
    Associate(front, [high, low], HexOf(bytes[i + 1..]));
  }

  method Hex(bytes: Bytes) returns (encoded: Bytes)
    ensures encoded == HexOf(bytes)
    ensures |bytes| == 32 ==> IsHexDigest(encoded)
  {
    HexIsHex(bytes);
    encoded := [];
    assert bytes[0..] == bytes && encoded + HexOf(bytes) == HexOf(bytes);
    for i := 0 to |bytes|
      invariant encoded + HexOf(bytes[i..]) == HexOf(bytes)
    {
      HexUnfolds(encoded, bytes, i);
      encoded := encoded + [HexNibble(bytes[i] >> 4)];
      encoded := encoded + [HexNibble(bytes[i] & 0x0F)];
    }
    assert encoded + [] == encoded;
  }

  lemma NibbleIsHex(b: bv8)
    requires b <= 15
    ensures IsHexByte(HexNibble(b))
  {
  }

  lemma NibblesDecide(a: bv8, b: bv8)
    ensures a >> 4 <= 15 && a & 0x0F <= 15
    ensures HexNibble(a >> 4) == HexNibble(b >> 4) && HexNibble(a & 0x0F) == HexNibble(b & 0x0F) ==> a == b
  {
  }

  lemma {:induction false} HexIsHex(bytes: Bytes)
    ensures |HexOf(bytes)| == 2 * |bytes|
    ensures forall i :: 0 <= i < |HexOf(bytes)| ==> IsHexByte(HexOf(bytes)[i])
  {
    if bytes != [] {
      NibblesDecide(bytes[0], bytes[0]);
      NibbleIsHex(bytes[0] >> 4);
      NibbleIsHex(bytes[0] & 0x0F);
      HexIsHex(bytes[1..]);
    }
  }

  /** A 32-byte secret is written as a well-formed bearer token, and different secrets as different tokens. */
  lemma {:induction false} HexIsInjective(a: Bytes, b: Bytes)
    requires |a| == |b| && HexOf(a) == HexOf(b)
    ensures a == b
  {
    if a != [] {
      HexIsHex(a[1..]);
      var x, y := HexOf(a), HexOf(b);
      assert x[0] == y[0] && x[1] == y[1] && x[2..] == HexOf(a[1..]) && y[2..] == HexOf(b[1..]);
      NibblesDecide(a[0], b[0]);
      HexIsInjective(a[1..], b[1..]);
      assert a == [a[0]] + a[1..] && b == [b[0]] + b[1..];
    }
  }

  // ---------------------------------------------------------------- the database

  class AuthDb {
    const crypto: Crypto
    var users: seq<UserRow>
    var sessions: map<Bytes, SessionRow>
    var invites: map<Bytes, InviteRow>
    var keys: seq<KeyRow>

    function Tables(): State
      reads this
    {
      State(users, sessions, invites, keys)
    }

    /** Opens the tables found on disk and migrates them. */
    constructor (c: Crypto, found: State, secret: Bytes)
      ensures crypto == c && Tables() == Apply(c, found, Open(secret))
    {
      crypto := c;
      users, sessions, invites := found.users, found.sessions, found.invites;
      keys := if CurrentKeys(found.keys) == 0 then found.keys + [KeyRow(secret, true)] else found.keys;
    }

    /** `insert_user`. */
    method InsertUser(u: NewUser, salt: Bytes, isAdmin: bool) returns (r: Outcome)
      modifies this`users
      ensures r == match InsertError(old(users), u) case None => Done case Some(e) => Failed(e)
      ensures users == if r.Done? then old(users) + [RowFor(crypto, u, salt, isAdmin)] else old(users)
    {
      var invalid := OrElse(UsernameError(u.username), OrElse(DisplayNameError(u.displayName), PasswordError(u.password)));
      if invalid.Some? {
        return Failed(invalid.value);
      }
      var passwordHash := crypto.hash(u.password, salt);
      for i := 0 to |users|
        invariant users == old(users)
        invariant forall j :: 0 <= j < i ==> users[j].username != u.username
      {
        if users[i].username == u.username {
          return Failed(DuplicateUsername);
        }
      }
      users := users + [UserRow(u.username, u.displayName, passwordHash, false, isAdmin)];
      return Done;
    }

    method SetupFirstUser(u: NewUser, salt: Bytes) returns (r: Outcome)
      modifies this
      ensures Tables() == Apply(crypto, old(Tables()), Op.SetupFirstUser(u, salt))
      ensures r == OutcomeOf(crypto, old(Tables()), Op.SetupFirstUser(u, salt))
    {
      if |users| != 0 {
        return Failed(SetupAlreadyComplete);
      }
      r := InsertUser(u, salt, true);
    }

    method CreateUser(u: NewUser, salt: Bytes) returns (r: Outcome)
      modifies this
      ensures Tables() == Apply(crypto, old(Tables()), Op.CreateUser(u, salt))
      ensures r == OutcomeOf(crypto, old(Tables()), Op.CreateUser(u, salt))
    {
      r := InsertUser(u, salt, false);
    }

    method Authenticate(username: string, password: string) returns (r: Option<nat>)
      ensures r == LoginUser(crypto, Tables(), username, password)
    {
      var found := UserNamed(users, username);
      if found.None? {
        return None;
      }
      var row := users[found.value];
      if !crypto.verify(password, row.passwordHash) || row.disabled {
        return None;
      }
      return found;
    }

    /** `is_last_enabled_admin`; nothing for a user that does not exist. */
    method IsLastEnabledAdmin(id: nat) returns (r: Option<bool>)
      ensures r == if id < |users| then Some(IsLastAdmin(users, id)) else None
    {
      if id >= |users| {
        return None;
      }
      if users[id].disabled || !users[id].isAdmin {
        return Some(false);
      }
      return Some(EnabledAdmins(users) == 1);
    }

    method SetDisabled(id: nat, disabled: bool) returns (r: Outcome)
      modifies this
      ensures Tables() == Apply(crypto, old(Tables()), Op.SetDisabled(id, disabled))
      ensures r == OutcomeOf(crypto, old(Tables()), Op.SetDisabled(id, disabled))
    {
      if disabled {
        var last := IsLastEnabledAdmin(id);
        if last.None? {
          return Failed(UnknownUser);
        }
        if last.value {
          return Failed(LastAdmin);
        }
      }
      if id >= |users| {
        return Failed(UnknownUser);
      }
      users := users[id := users[id].(disabled := disabled)];
      return Done;
    }

    method SetAdmin(id: nat, isAdmin: bool) returns (r: Outcome)
      modifies this
      ensures Tables() == Apply(crypto, old(Tables()), Op.SetAdmin(id, isAdmin))
      ensures r == OutcomeOf(crypto, old(Tables()), Op.SetAdmin(id, isAdmin))
    {
      if !isAdmin {
        var last := IsLastEnabledAdmin(id);
        if last.None? {
          return Failed(UnknownUser);
        }
        if last.value {
          return Failed(LastAdmin);
        }
      }
      if id >= |users| {
        return Failed(UnknownUser);
      }
      users := users[id := users[id].(isAdmin := isAdmin)];
      return Done;
    }

    method ResetPassword(id: nat, password: string, salt: Bytes) returns (r: Outcome)
      modifies this
      ensures Tables() == Apply(crypto, old(Tables()), Op.ResetPassword(id, password, salt))
      ensures r == OutcomeOf(crypto, old(Tables()), Op.ResetPassword(id, password, salt))
    {
      var invalid := PasswordError(password);
      if invalid.Some? {
        return Failed(invalid.value);
      }
      var passwordHash := crypto.hash(password, salt);
      if id >= |users| {
        return Failed(UnknownUser);
      }
      users := users[id := users[id].(passwordHash := passwordHash)];
      sessions := SessionsExcept(sessions, id);
      return Done;
    }

    method CreateSession(id: nat, expiresAt: int, token: Bytes, now: int) returns (r: Outcome)
      modifies this
      ensures Tables() == Apply(crypto, old(Tables()), Op.CreateSession(id, expiresAt, token, now))
      ensures r == OutcomeOf(crypto, old(Tables()), Op.CreateSession(id, expiresAt, token, now))
    {
      if expiresAt <= now {
        return Failed(InvalidSessionExpiry);
      }
      if id >= |users| {
        return Failed(UnknownUser);
      }
      if users[id].disabled {
        return Failed(DisabledUser);
      }
      var d := crypto.digest(token);
      if d in sessions {
        return Failed(Database);
      }
      sessions := sessions[d := SessionRow(id, expiresAt)];
      return Done;
    }

    method AuthenticateSession(token: Bytes, now: int) returns (r: Option<nat>)
      ensures r == SessionUser(crypto, Tables(), token, now)
    {
      var d := crypto.digest(token);
      if d !in sessions || sessions[d].expiresAt <= now || sessions[d].user >= |users| {
        return None;
      }
      if users[sessions[d].user].disabled {
        return None;
      }
      return Some(sessions[d].user);
    }

    method RevokeSession(token: Bytes)
      modifies this
      ensures Tables() == Apply(crypto, old(Tables()), Op.RevokeSession(token))
    {
      sessions := sessions - {crypto.digest(token)};
    }

    method CreateInvite(id: nat, vault: string, role: Role, expiresAt: int, token: Bytes, now: int) returns (r: Outcome)
      modifies this
      ensures Tables() == Apply(crypto, old(Tables()), Op.CreateInvite(id, vault, role, expiresAt, token, now))
      ensures r == OutcomeOf(crypto, old(Tables()), Op.CreateInvite(id, vault, role, expiresAt, token, now))
    {
      var invalid := SlugError(vault);
      if invalid.Some? {
        return Failed(invalid.value);
      }
      if role == NoAccess {
        return Failed(InvalidInviteRole);
      }
      if expiresAt <= now {
        return Failed(InvalidInviteExpiry);
      }
      if id >= |users| {
        return Failed(UnknownUser);
      }
      if users[id].disabled {
        return Failed(DisabledUser);
      }
      var d := crypto.digest(token);
      if d in invites {
        return Failed(Database);
      }
      invites := invites[d := InviteRow(id, vault, role, expiresAt, false)];
      return Done;
    }

    method AcceptInvite(token: Bytes, u: NewUser, salt: Bytes, now: int) returns (r: Outcome)
      modifies this
      ensures Tables() == Apply(crypto, old(Tables()), Op.AcceptInvite(token, u, salt, now))
      ensures r == OutcomeOf(crypto, old(Tables()), Op.AcceptInvite(token, u, salt, now))
    {
      var d := crypto.digest(token);
      if d !in invites || invites[d].accepted {
        return Failed(InvalidInvite);
      }
      if invites[d].expiresAt <= now {
        return Failed(InvalidInvite);
      }
      r := InsertUser(u, salt, false);
      if r.Done? {
        invites := invites[d := invites[d].(accepted := true)];
      }
    }

    method SignedSessionCookie(token: Bytes) returns (cookie: Option<Bytes>)
      ensures cookie == SignedCookie(crypto, Tables(), token)
    {
      var secret := CurrentSecret(keys);
      if secret.None? {
        return None;
      }
      return Some(token + [DOT] + crypto.hmac(secret.value, token));
    }

    /** Tries every key, current and retired, without stopping at the first that fits. */
    method AuthenticateSignedSessionCookie(cookie: Bytes, now: int) returns (r: Option<nat>)
      ensures r == CookieUser(crypto, Tables(), cookie, now)
    {
      var n := FindDot(cookie);
      if n == |cookie| {
        return None;
      }
      var token, signature := cookie[..n], cookie[n + 1..];
      if DOT in token || !IsHexDigest(signature) {
        return None;
      }
      if !IsHexDigest(token) {
        return None;
      }
      var valid := false;
      for i := 0 to |keys|
        invariant valid <==> exists j :: 0 <= j < i && crypto.hmac(keys[j].secret, token) == signature
      {
        var expected := crypto.hmac(keys[i].secret, token);
        var same := ConstantTimeEq(expected, signature);
        valid := valid || same;
      }
      if !valid {
        return None;
      }
      r := AuthenticateSession(token, now);
    }

    method RotateSessionCookieSecret(secret: Bytes)
      modifies this
      ensures Tables() == Apply(crypto, old(Tables()), RotateSecret(secret))
    {
      keys := RetireAll(keys);
      keys := keys + [KeyRow(secret, true)];
    }
  }
}
