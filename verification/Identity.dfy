/**
 The Auth database: users, refresh tokens and one-time tokens, and what each
 repository operation does to it.

 A token row is keyed by its digest. Raw tokens are fresh and the hash is
 injective, so a digest stands for the raw token, the stored hash and the row id
 at once. `password` stands for the stored hash of that password.
 */
module Identity {
  import opened Outcomes

  type UserId = nat
  type Digest = nat
  type Time = int  // microseconds since the epoch

  datatype Role = SUPER_ADMIN | ADMIN | USER

  datatype UserRow = UserRow(
    email: string,
    password: string,
    role: Role,
    isVerified: bool,
    emailVerifiedAt: Option<Time>,
    isActive: bool,
    disabledAt: Option<Time>,
    isBlocked: bool,
    blockedAt: Option<Time>,
    blockedReason: Option<string>,
    passwordChangedAt: Time)

  /** `login` is the model's own column: the digest the login that started the chain handed out. No operation reads it. */
  datatype RefreshRow = RefreshRow(userId: UserId, expiresAt: Time, isRevoked: bool, login: Digest)

  datatype OneTimeRow = OneTimeRow(userId: UserId, expiresAt: Time, isUsed: bool)

  /** `emails` is the unique index on the e-mail column. */
  datatype Tables = Tables(
    users: map<UserId, UserRow>,
    emails: map<string, UserId>,
    refresh: map<Digest, RefreshRow>,
    resets: map<Digest, OneTimeRow>,
    verifications: map<Digest, OneTimeRow>)

  const EMPTY := Tables(map[], map[], map[], map[], map[])

  // ---------------------------------------------------------------- users

  /** What `update_user` is asked to set: a column of the model, or a name that is not an editable column. */
  datatype Field =
    | Email(address: string)
    | RoleOf(newRole: Role)
    | Unknown(name: string)
    | Password(hash: string)
    | PasswordChangedAt(changed: Time)
    | IsVerified(verified: bool)
    | EmailVerifiedAt(verifiedAt: Option<Time>)
    | IsActive(active: bool)
    | DisabledAt(disabled: Option<Time>)
    | IsBlocked(blocked: bool)
    | BlockedAt(since: Option<Time>)
    | BlockedReason(reason: Option<string>)

  function SetField(row: UserRow, field: Field): UserRow {
    match field
    case Email(v) => row.(email := v)
    case RoleOf(v) => row.(role := v)
    case Unknown(_) => row
    case Password(v) => row.(password := v)
    case PasswordChangedAt(v) => row.(passwordChangedAt := v)
    case IsVerified(v) => row.(isVerified := v)
    case EmailVerifiedAt(v) => row.(emailVerifiedAt := v)
    case IsActive(v) => row.(isActive := v)
    case DisabledAt(v) => row.(disabledAt := v)
    case IsBlocked(v) => row.(isBlocked := v)
    case BlockedAt(v) => row.(blockedAt := v)
    case BlockedReason(v) => row.(blockedReason := v)
  }

  function SetFields(row: UserRow, fields: seq<Field>): UserRow {
    if fields == [] then row
    else SetField(SetFields(row, fields[..|fields| - 1]), fields[|fields| - 1])
  }

  lemma SetFieldsInOrder(row: UserRow, a: Field, b: Field, c: Field)
    ensures SetFields(row, [a, b]) == SetField(SetField(row, a), b)
    ensures SetFields(row, [a, b, c]) == SetField(SetField(SetField(row, a), b), c)
  {
    assert [a][..0] == [] && [a, b][..1] == [a] && [a, b, c][..2] == [a, b];
    assert SetFields(row, [a]) == SetField(row, a);
    assert SetFields(row, [a, b]) == SetField(SetFields(row, [a]), b);
  }

  /** The row holds what the field would set. */
  predicate ColumnIs(row: UserRow, field: Field) {
    match field
    case Email(v) => row.email == v
    case RoleOf(v) => row.role == v
    case Unknown(_) => true
    case Password(v) => row.password == v
    case PasswordChangedAt(v) => row.passwordChangedAt == v
    case IsVerified(v) => row.isVerified == v
    case EmailVerifiedAt(v) => row.emailVerifiedAt == v
    case IsActive(v) => row.isActive == v
    case DisabledAt(v) => row.disabledAt == v
    case IsBlocked(v) => row.isBlocked == v
    case BlockedAt(v) => row.blockedAt == v
    case BlockedReason(v) => row.blockedReason == v
  }

  predicate SameColumn(a: Field, b: Field) {
    || (a.Email? && b.Email?) || (a.RoleOf? && b.RoleOf?) || (a.Unknown? && b.Unknown?)
    || (a.Password? && b.Password?) || (a.PasswordChangedAt? && b.PasswordChangedAt?)
    || (a.IsVerified? && b.IsVerified?) || (a.EmailVerifiedAt? && b.EmailVerifiedAt?)
    || (a.IsActive? && b.IsActive?) || (a.DisabledAt? && b.DisabledAt?)
    || (a.IsBlocked? && b.IsBlocked?) || (a.BlockedAt? && b.BlockedAt?) || (a.BlockedReason? && b.BlockedReason?)
  }

  lemma OneAssignment(row: UserRow, field: Field, other: Field)
    ensures ColumnIs(SetField(row, field), field)
    ensures !SameColumn(field, other) && ColumnIs(row, other) ==> ColumnIs(SetField(row, field), other)
  {
  }

  /** Setting columns in order: what is set last stays, and a column nobody names is kept. */
  lemma {:induction false} LastAssignmentStays(row: UserRow, fields: seq<Field>, field: Field, i: nat)
    requires i <= |fields| && (if i == 0 then ColumnIs(row, field) else fields[i - 1] == field)
    requires forall j :: i <= j < |fields| ==> !SameColumn(fields[j], field)
    ensures ColumnIs(SetFields(row, fields), field)
  {
    hide ColumnIs, SetField, SameColumn;
    if fields != [] {
      var before, last := fields[..|fields| - 1], fields[|fields| - 1];
      if i < |fields| {
        LastAssignmentStays(row, before, field, i);
      }
      OneAssignment(SetFields(row, before), last, field);
    }
  }

  /** The address the row will have after the given columns are set. */
  function AddressAfter(fields: seq<Field>, current: string): string {
    if fields == [] then current
    else if fields[|fields| - 1].Email? then fields[|fields| - 1].address
    else AddressAfter(fields[..|fields| - 1], current)
  }

  lemma {:induction false} AddressIsSet(row: UserRow, fields: seq<Field>)
    ensures SetFields(row, fields).email == AddressAfter(fields, row.email)
  {
    if fields != [] {
      AddressIsSet(row, fields[..|fields| - 1]);
    }
  }

  function WithUser(t: Tables, u: UserId, row: UserRow): Tables {
    t.(users := t.users[u := row])
  }

  /** Replaces the row of `u`; the index follows a changed address. */
  function ReplaceUser(t: Tables, u: UserId, row: UserRow): Tables
    requires u in t.users
  {
    if row.email == t.users[u].email then WithUser(t, u, row)
    else InsertUser(t.(emails := t.emails - {t.users[u].email}), u, row)
  }

  function InsertUser(t: Tables, u: UserId, row: UserRow): Tables {
    t.(users := t.users[u := row], emails := t.emails[row.email := u])
  }

  /** The index on the addresses and the users agree. */
  ghost predicate IndexAgrees(t: Tables) {
    && (forall u :: u in t.users ==> t.users[u].email in t.emails && t.emails[t.users[u].email] == u)
    && (forall email :: email in t.emails ==> t.emails[email] in t.users && t.users[t.emails[email]].email == email)
  }

  /** Replacing a row by one with a free address keeps the index, frees the old address and touches nobody else. */
  lemma ReplacingKeepsTheIndex(t: Tables, u: UserId, row: UserRow)
    requires IndexAgrees(t) && u in t.users && (row.email in t.emails ==> t.emails[row.email] == u)
    ensures
      var t' := ReplaceUser(t, u, row);
      && IndexAgrees(t') && t' == t.(users := t.users[u := row], emails := t'.emails)
      && t'.emails.Keys == t.emails.Keys - {t.users[u].email} + {row.email}
  {
    var t' := ReplaceUser(t, u, row);
    assert forall email :: email in t.emails && t.emails[email] == u ==> email == t.users[u].email;
    if row.email == t.users[u].email {
      assert t.emails.Keys - {row.email} + {row.email} == t.emails.Keys;
    } else {
      assert t'.emails.Keys == t.emails.Keys - {t.users[u].email} + {row.email};
    }
  }

  /** Deleting a user cascades to the three token tables. */
  function DeleteUser(t: Tables, u: UserId): Tables
    requires u in t.users
  {
    Tables(
      t.users - {u},
      t.emails - {t.users[u].email},
      map d | d in t.refresh && t.refresh[d].userId != u :: t.refresh[d],
      map d | d in t.resets && t.resets[d].userId != u :: t.resets[d],
      map d | d in t.verifications && t.verifications[d].userId != u :: t.verifications[d])
  }

  // ------------------------------------------------------- refresh tokens

  function InsertRefresh(t: Tables, d: Digest, row: RefreshRow): Tables {
    t.(refresh := t.refresh[d := row])
  }

  function Revoke(t: Tables, d: Digest): Tables
    requires d in t.refresh
  {
    t.(refresh := t.refresh[d := t.refresh[d].(isRevoked := true)])
  }

  /** `rotate_token`: it does not look at the old row's `is_revoked`. */
  function Rotate(t: Tables, d: Digest, u: UserId, successor: Digest, expiresAt: Time): Tables
    requires d in t.refresh
  {
    InsertRefresh(Revoke(t, d), successor, RefreshRow(u, expiresAt, false, t.refresh[d].login))
  }

  function RevokeRows(rows: map<Digest, RefreshRow>, which: set<Digest>): map<Digest, RefreshRow> {
    map d | d in rows :: if d in which then rows[d].(isRevoked := true) else rows[d]
  }

  /** The unrevoked refresh tokens of a user. */
  function LiveTokens(t: Tables, u: UserId): set<Digest> {
    set d | d in t.refresh && t.refresh[d].userId == u && !t.refresh[d].isRevoked
  }

  function RevokeAll(t: Tables, u: UserId): Tables {
    t.(refresh := RevokeRows(t.refresh, LiveTokens(t, u)))
  }

  function RevokeAllExcept(t: Tables, u: UserId, keep: Digest): Tables {
    t.(refresh := RevokeRows(t.refresh, LiveTokens(t, u) - {keep}))
  }

  function DeleteExpired(t: Tables, now: Time): Tables {
    t.(refresh := map d | d in t.refresh && t.refresh[d].expiresAt > now :: t.refresh[d])
  }

  // ------------------------------------------------------ one-time tokens

  /** Marks every unused row of `u` as used. */
  function UseAll(rows: map<Digest, OneTimeRow>, u: UserId): map<Digest, OneTimeRow> {
    map d | d in rows :: if rows[d].userId == u then rows[d].(isUsed := true) else rows[d]
  }

  function Use(rows: map<Digest, OneTimeRow>, d: Digest): map<Digest, OneTimeRow>
    requires d in rows
  {
    rows[d := rows[d].(isUsed := true)]
  }

  /** `validate_one_time_token`: the row must exist, be unused and expire strictly later than now. */
  function ValidateOneTime(rows: map<Digest, OneTimeRow>, d: Digest, now: Time): (r: Option<Error>)
    ensures r == None <==> d in rows && !rows[d].isUsed && now < rows[d].expiresAt
    ensures d in rows && rows[d].isUsed ==> r == Some(UsedToken)
  {
    if d !in rows then Some(InvalidToken)
    else if rows[d].isUsed then Some(UsedToken)
    else if rows[d].expiresAt <= now then Some(ExpiredToken)
    else None
  }
}
