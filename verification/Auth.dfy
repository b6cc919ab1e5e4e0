/** Accounts, sessions, invitations and cookie keys: the tables of `auth.db` and what each operation does to them
  * (crates/mb-auth/src/lib.rs). */
module Auth {
  import opened Strings
  import opened Permissions

  type Bytes = seq<bv8>

  /** An account's identifier is its position in the table: rows are never deleted. */
  datatype UserRow = UserRow(username: string, displayName: string, passwordHash: string, disabled: bool, isAdmin: bool)

  datatype SessionRow = SessionRow(user: nat, expiresAt: int)

  datatype InviteRow = InviteRow(issuer: nat, vault: string, role: Role, expiresAt: int, accepted: bool)

  datatype KeyRow = KeyRow(secret: Bytes, isCurrent: bool)

  datatype State = State(users: seq<UserRow>, sessions: map<Bytes, SessionRow>, invites: map<Bytes, InviteRow>,
                         keys: seq<KeyRow>)

  datatype NewUser = NewUser(username: string, displayName: string, password: string)

  datatype AuthError =
    | Database | SetupAlreadyComplete | DuplicateUsername | InvalidUsername | InvalidDisplayName | InvalidPassword
    | UnknownUser | LastAdmin | InvalidSessionExpiry | DisabledUser | InvalidVaultSlug | InvalidInviteRole
    | InvalidInviteExpiry | InvalidInvite

  datatype Outcome = Done | Failed(error: AuthError)

  /** The primitives: SHA-256, HMAC, Argon2 hashing and verification. */
  datatype Crypto = Crypto(digest: Bytes -> Bytes, hmac: (Bytes, Bytes) -> Bytes, hash: (string, Bytes) -> string,
                           verify: (string, string) -> bool)

  // ---------------------------------------------------------------- validation

  function UsernameError(name: string): Option<AuthError> {
    if name != "" && |name| <= 64
       && forall i :: 0 <= i < |name| ==> 'a' <= name[i] <= 'z' || '0' <= name[i] <= '9' || name[i] == '-' || name[i] == '_'
    then None else Some(InvalidUsername)
  }

  function DisplayNameError(name: string): Option<AuthError> {
    if Trim(name) == "" || ByteLength(name) > 128 || '\0' in name then Some(InvalidDisplayName) else None
  }

  function PasswordError(password: string): Option<AuthError> {
    if ByteLength(password) < 12 || ByteLength(password) > 1024 then Some(InvalidPassword) else None
  }

  function NewUserError(u: NewUser): Option<AuthError> {
    OrElse(UsernameError(u.username), OrElse(DisplayNameError(u.displayName), PasswordError(u.password)))
  }

  function SlugError(slug: string): Option<AuthError> {
    if slug != "" && |slug| <= 64 && slug[0] != '-' && Last(slug) != '-'
       && forall i :: 0 <= i < |slug| ==> 'a' <= slug[i] <= 'z' || '0' <= slug[i] <= '9' || slug[i] == '-'
    then None else Some(InvalidVaultSlug)
  }

  predicate Taken(users: seq<UserRow>, name: string) {
    exists i :: 0 <= i < |users| && users[i].username == name
  }

  /** Why `insert_user` refuses, if it does. */
  function InsertError(users: seq<UserRow>, u: NewUser): Option<AuthError> {
    OrElse(NewUserError(u), if Taken(users, u.username) then Some(DuplicateUsername) else None)
  }

  function RowFor(c: Crypto, u: NewUser, salt: Bytes, isAdmin: bool): UserRow {
    UserRow(u.username, u.displayName, c.hash(u.password, salt), false, isAdmin)
  }

  // ---------------------------------------------------------------- administrators and keys

  function Count<T>(rows: seq<T>, p: T -> bool): nat {
    if rows == [] then 0 else (if p(rows[0]) then 1 else 0) + Count(rows[1..], p)
  }

  predicate EnabledAdmin(u: UserRow) {
    u.isAdmin && !u.disabled
  }

  function EnabledAdmins(users: seq<UserRow>): nat {
    Count(users, EnabledAdmin)
  }

  function CurrentKeys(keys: seq<KeyRow>): nat {
    Count(keys, (k: KeyRow) => k.isCurrent)
  }

  /** `is_last_enabled_admin`, for a user that exists. */
  predicate IsLastAdmin(users: seq<UserRow>, id: nat)
    requires id < |users|
  {
    EnabledAdmin(users[id]) && EnabledAdmins(users) == 1
  }

  function RetireAll(keys: seq<KeyRow>): seq<KeyRow> {
    seq(|keys|, i requires 0 <= i < |keys| => KeyRow(keys[i].secret, false))
  }

  /** The first row that is current. */
  function CurrentSecret(keys: seq<KeyRow>): Option<Bytes> {
    if keys == [] then None else if keys[0].isCurrent then Some(keys[0].secret) else CurrentSecret(keys[1..])
  }

  // ---------------------------------------------------------------- operations

  /** What changes the tables. Random bytes and the clock are inputs. */
  datatype Op =
    | Open(fresh_: Bytes)
    | SetupFirstUser(user: NewUser, salt: Bytes)
    | CreateUser(user: NewUser, salt: Bytes)
    | SetDisabled(id: nat, disabled: bool)
    | SetAdmin(id: nat, isAdmin: bool)
    | ResetPassword(id: nat, password: string, salt: Bytes)
    | CreateSession(id: nat, expiresAt: int, token: Bytes, now: int)
    | RevokeSession(token: Bytes)
    | CreateInvite(id: nat, vault: string, role: Role, expiresAt: int, token: Bytes, now: int)
    | AcceptInvite(token: Bytes, user: NewUser, salt: Bytes, now: int)
    | RotateSecret(fresh_: Bytes)

  /** Why an issuer or session owner is refused. */
  function UserError(users: seq<UserRow>, id: nat): Option<AuthError> {
    if id >= |users| then Some(UnknownUser) else if users[id].disabled then Some(DisabledUser) else None
  }

  function InviteError(invites: map<Bytes, InviteRow>, d: Bytes, now: int): Option<AuthError> {
    if d !in invites || invites[d].accepted || invites[d].expiresAt <= now then Some(InvalidInvite) else None
  }

  /** Why an operation is refused, in the order in which the program checks. */
  function Refusal(c: Crypto, s: State, op: Op): Option<AuthError> {
    match op
    case Open(_) => None
    case SetupFirstUser(u, _) => if s.users != [] then Some(SetupAlreadyComplete) else InsertError(s.users, u)
    case CreateUser(u, _) => InsertError(s.users, u)
    case SetDisabled(id, disabled) =>
      if id >= |s.users| then Some(UnknownUser)
      else if disabled && IsLastAdmin(s.users, id) then Some(LastAdmin) else None
    case SetAdmin(id, isAdmin) =>
      if id >= |s.users| then Some(UnknownUser)
      else if !isAdmin && IsLastAdmin(s.users, id) then Some(LastAdmin) else None
    case ResetPassword(id, password, _) =>
      OrElse(PasswordError(password), if id >= |s.users| then Some(UnknownUser) else None)
    case CreateSession(id, expiresAt, token, now) =>
      OrElse(if expiresAt <= now then Some(InvalidSessionExpiry) else None,
             OrElse(UserError(s.users, id), if c.digest(token) in s.sessions then Some(Database) else None))
    case RevokeSession(_) => None
    case CreateInvite(id, vault, role, expiresAt, token, now) =>
      OrElse(SlugError(vault),
             OrElse(if role == NoAccess then Some(InvalidInviteRole)
                    else if expiresAt <= now then Some(InvalidInviteExpiry) else None,
                    OrElse(UserError(s.users, id), if c.digest(token) in s.invites then Some(Database) else None)))
    case AcceptInvite(token, u, _, now) => OrElse(InviteError(s.invites, c.digest(token), now), InsertError(s.users, u))
    case RotateSecret(_) => None
  }

  /** The tables after an operation that is not refused. */
  function Effect(c: Crypto, s: State, op: Op): State
    requires Refusal(c, s, op).None?
  {
    match op
    case Open(secret) => if CurrentKeys(s.keys) == 0 then s.(keys := s.keys + [KeyRow(secret, true)]) else s
    case SetupFirstUser(u, salt) => s.(users := s.users + [RowFor(c, u, salt, true)])
    case CreateUser(u, salt) => s.(users := s.users + [RowFor(c, u, salt, false)])
    case SetDisabled(id, disabled) => s.(users := s.users[id := s.users[id].(disabled := disabled)])
    case SetAdmin(id, isAdmin) => s.(users := s.users[id := s.users[id].(isAdmin := isAdmin)])
    case ResetPassword(id, password, salt) =>
      s.(users := s.users[id := s.users[id].(passwordHash := c.hash(password, salt))],
         sessions := SessionsExcept(s.sessions, id))
    case CreateSession(id, expiresAt, token, _) =>
      s.(sessions := s.sessions[c.digest(token) := SessionRow(id, expiresAt)])
    case RevokeSession(token) => s.(sessions := s.sessions - {c.digest(token)})
    case CreateInvite(id, vault, role, expiresAt, token, _) =>
      s.(invites := s.invites[c.digest(token) := InviteRow(id, vault, role, expiresAt, false)])
    case AcceptInvite(token, u, salt, _) =>
      s.(users := s.users + [RowFor(c, u, salt, false)],
         invites := s.invites[c.digest(token) := s.invites[c.digest(token)].(accepted := true)])
    case RotateSecret(secret) => s.(keys := RetireAll(s.keys) + [KeyRow(secret, true)])
  }

  function SessionsExcept(sessions: map<Bytes, SessionRow>, id: nat): map<Bytes, SessionRow> {
    map d | d in sessions && sessions[d].user != id :: sessions[d]
  }

  /** A refused operation changes nothing: its transaction is rolled back. */
  function Apply(c: Crypto, s: State, op: Op): State {
    if Refusal(c, s, op).Some? then s else Effect(c, s, op)
  }

  function OutcomeOf(c: Crypto, s: State, op: Op): Outcome {
    match Refusal(c, s, op) case None => Done case Some(e) => Failed(e)
  }

  // ---------------------------------------------------------------- queries

  function SessionUser(c: Crypto, s: State, token: Bytes, now: int): Option<nat> {
    var d := c.digest(token);
    if d in s.sessions && s.sessions[d].expiresAt > now && s.sessions[d].user < |s.users|
       && !s.users[s.sessions[d].user].disabled
    then Some(s.sessions[d].user) else None
  }

  predicate IsHexByte(b: bv8) {
    0x30 <= b <= 0x39 || 0x61 <= b <= 0x66 || 0x41 <= b <= 0x46
  }

  /** 64 hexadecimal digits: what a bearer token and a signature look like. */
  predicate IsHexDigest(s: Bytes) {
    |s| == 64 && forall i :: 0 <= i < 64 ==> IsHexByte(s[i])
  }

  const DOT: bv8 := 0x2E

  function FindDot(s: Bytes): (n: nat)
    ensures n <= |s| && (n < |s| ==> s[n] == DOT)
    ensures forall i :: 0 <= i < n ==> s[i] != DOT
  {
    if s == [] || s[0] == DOT then 0 else 1 + FindDot(s[1..])
  }

  function SignedCookie(c: Crypto, s: State, token: Bytes): Option<Bytes> {
    match CurrentSecret(s.keys)
    case None => None
    case Some(secret) => Some(token + [DOT] + c.hmac(secret, token))
  }

  /** Whether some key, current or retired, signed this token. */
  predicate SignedByAny(c: Crypto, keys: seq<KeyRow>, token: Bytes, signature: Bytes) {
    exists i :: 0 <= i < |keys| && c.hmac(keys[i].secret, token) == signature
  }

  function CookieUser(c: Crypto, s: State, cookie: Bytes, now: int): Option<nat> {
    var n := FindDot(cookie);
    if n == |cookie| then None
    else
      var token, signature := cookie[..n], cookie[n + 1..];
      if IsHexDigest(signature) && IsHexDigest(token) && SignedByAny(c, s.keys, token, signature)
      then SessionUser(c, s, token, now) else None
  }

  /** `authenticate`: an enabled account with this name whose hash verifies. */
  function LoginUser(c: Crypto, s: State, username: string, password: string): Option<nat> {
    var found := UserNamed(s.users, username);
    if found.Some? && c.verify(password, s.users[found.value].passwordHash) && !s.users[found.value].disabled
    then found else None
  }

  function UserNamed(users: seq<UserRow>, username: string): (r: Option<nat>)
    ensures r.Some? ==> r.value < |users| && users[r.value].username == username
    ensures r.None? ==> !Taken(users, username)
  {
    if users == [] then None
    else if Last(users).username == username then Some(|users| - 1)
    else UserNamed(Init(users), username)
  }

  /** The first account created with a name keeps it, so at most one row has it. */
  predicate UniqueNames(users: seq<UserRow>) {
    forall i, j :: 0 <= i < j < |users| ==> users[i].username != users[j].username
  }
}
