/** The three token tables of the back end: refresh tokens (rotated on every
    login, revoked on expiry), e-mail verification tokens and password-reset
    tokens (single use). Each table is a sequence of rows; the database's
    `save` writes a row over the row with the same id, or appends it. The
    clock reading `now` and the expiry durations are parameters, instants in
    milliseconds. */
module Tokens {
  import opened Wrappers
  import opened Entities

  // ---------------------------------------------------------------------------
  // The table's `save`

  predicate HasId<T>(rows: seq<T>, id: Uuid, idOf: T -> Uuid)
  {
    exists j :: 0 <= j < |rows| && idOf(rows[j]) == id
  }

  predicate IdsUnique<T>(rows: seq<T>, idOf: T -> Uuid)
  {
    forall i, j :: 0 <= i < j < |rows| ==> idOf(rows[i]) != idOf(rows[j])
  }

  /** `save(t)`: the row carrying `t`'s id is overwritten with `t`; without one, `t` is appended. */
  function Save<T>(rows: seq<T>, t: T, idOf: T -> Uuid): (r: seq<T>)
    ensures HasId(rows, idOf(t), idOf) ==> |r| == |rows|
    ensures !HasId(rows, idOf(t), idOf) ==> r == rows + [t]
    ensures t in r
  {
    if rows == [] then [t]
    else if idOf(rows[0]) == idOf(t) then [t] + rows[1..]
    else
      assert HasId(rows, idOf(t), idOf) <==> HasId(rows[1..], idOf(t), idOf) by {
        if HasId(rows, idOf(t), idOf) {
          var j :| 0 <= j < |rows| && idOf(rows[j]) == idOf(t);
          assert idOf(rows[1..][j - 1]) == idOf(t);
        }
        if HasId(rows[1..], idOf(t), idOf) {
          var j :| 0 <= j < |rows[1..]| && idOf(rows[1..][j]) == idOf(t);
          assert idOf(rows[j + 1]) == idOf(t);
        }
      }
      [rows[0]] + Save(rows[1..], t, idOf)
  }

  /** With unique ids, saving a row that carries the id of row `i` replaces exactly row `i`. */
  lemma {:induction false} SaveReplacesAt<T>(rows: seq<T>, t: T, idOf: T -> Uuid, i: nat)
    requires IdsUnique(rows, idOf) && i < |rows| && idOf(rows[i]) == idOf(t)
    ensures Save(rows, t, idOf) == rows[i := t]
    decreases |rows|
  {
    if i > 0 {
      assert idOf(rows[0]) != idOf(t);
      SaveReplacesAt(rows[1..], t, idOf, i - 1);
      assert rows[i := t] == [rows[0]] + rows[1..][i - 1 := t];
    }
  }

  /** Saving the same row twice is saving it once. */
  lemma {:induction false} SaveIdempotent<T>(rows: seq<T>, t: T, idOf: T -> Uuid)
    ensures Save(Save(rows, t, idOf), t, idOf) == Save(rows, t, idOf)
    decreases |rows|
  {
    if rows != [] && idOf(rows[0]) != idOf(t) {
      SaveIdempotent(rows[1..], t, idOf);
    }
  }

  /** Saving keeps ids unique, and every row after the save is `t` or a row of another id. */
  lemma {:induction false} SaveKeepsIdsUnique<T>(rows: seq<T>, t: T, idOf: T -> Uuid)
    requires IdsUnique(rows, idOf)
    ensures IdsUnique(Save(rows, t, idOf), idOf)
    ensures forall x :: x in Save(rows, t, idOf) ==> x == t || (x in rows && idOf(x) != idOf(t))
  {
    if HasId(rows, idOf(t), idOf) {
      var i :| 0 <= i < |rows| && idOf(rows[i]) == idOf(t);
      SaveReplacesAt(rows, t, idOf, i);
      var r := rows[i := t];
      forall x | x in r ensures x == t || (x in rows && idOf(x) != idOf(t)) {
        var k :| 0 <= k < |r| && r[k] == x;
        if k != i {
          assert x == rows[k];
        }
      }
    } else {
      var r := rows + [t];
      forall x | x in r ensures x == t || (x in rows && idOf(x) != idOf(t)) {
        var k :| 0 <= k < |r| && r[k] == x;
        if k < |rows| {
          assert x == rows[k];
        }
      }
    }
  }

  // ---------------------------------------------------------------------------
  // Refresh tokens (`RefreshTokenService`)

  datatype RefreshToken = RefreshToken(id: Uuid, token: string, userId: Uuid, expiryDate: int, revoked: bool)

  function RefreshId(t: RefreshToken): Uuid { t.id }

  const InvalidRefreshToken := "Invalid refresh token"
  const RefreshTokenExpired := "Refresh token expired"

  predicate Active(t: RefreshToken, value: string)
  {
    t.token == value && !t.revoked
  }

  /** `findByTokenAndRevokedFalse`: the first row with that value that is not revoked. */
  function FirstActive(rows: seq<RefreshToken>, value: string): (r: Option<nat>)
    ensures r.Some? ==> r.value < |rows| && Active(rows[r.value], value)
    ensures r.Some? ==> forall j :: 0 <= j < r.value ==> !Active(rows[j], value)
    ensures r.None? <==> forall j :: 0 <= j < |rows| ==> !Active(rows[j], value)
  {
    if rows == [] then None
    else if Active(rows[0], value) then Some(0)
    else
      match FirstActive(rows[1..], value)
      case None =>
        assert forall j :: 1 <= j < |rows| ==> rows[j] == rows[1..][j - 1];
        None
      case Some(i) => Some(i + 1)
  }

  /** `revokeAllByUser`: every row of the user becomes revoked; nothing else changes. */
  function RevokeAllOf(rows: seq<RefreshToken>, userId: Uuid): (r: seq<RefreshToken>)
    ensures |r| == |rows|
  {
    if rows == [] then []
    else [if rows[0].userId == userId then rows[0].(revoked := true) else rows[0]] + RevokeAllOf(rows[1..], userId)
  }

  lemma {:induction false} RevokeAllOfAt(rows: seq<RefreshToken>, userId: Uuid, i: nat)
    requires i < |rows|
    ensures RevokeAllOf(rows, userId)[i] == if rows[i].userId == userId then rows[i].(revoked := true) else rows[i]
    decreases |rows|
  {
    if i > 0 {
      RevokeAllOfAt(rows[1..], userId, i - 1);
    }
  }

  /** `deleteByUser`: the user's rows are removed, every other row is kept, in order. */
  function DeleteAllOf(rows: seq<RefreshToken>, userId: Uuid): (r: seq<RefreshToken>)
    ensures forall x :: x in r <==> x in rows && x.userId != userId
    ensures |r| <= |rows|
  {
    if rows == [] then []
    else (if rows[0].userId == userId then [] else [rows[0]]) + DeleteAllOf(rows[1..], userId)
  }

  /** What validating `value` at `now` answers: unknown or revoked values are invalid, and an
      expiry strictly before `now` is expired, so a token expiring exactly at `now` still passes. */
  function RefreshOutcome(rows: seq<RefreshToken>, value: string, now: int): (r: Result<RefreshToken>)
    ensures r.Ok? ==> r.value in rows && Active(r.value, value) && r.value.expiryDate >= now
    ensures r.Err? ==> r.msg == InvalidRefreshToken || r.msg == RefreshTokenExpired
    ensures r == Err(InvalidRefreshToken) <==> forall j :: 0 <= j < |rows| ==> !Active(rows[j], value)
    ensures FirstActive(rows, value).Some? ==>
      (r.Ok? <==> rows[FirstActive(rows, value).value].expiryDate >= now)
  {
    match FirstActive(rows, value)
    case None => Err(InvalidRefreshToken)
    case Some(i) => if rows[i].expiryDate < now then Err(RefreshTokenExpired) else Ok(rows[i])
  }

  class RefreshTokenService {
    var rows: seq<RefreshToken>
    /** `app.jwt.refresh-token-expiration`. */
    const refreshTokenExpirationMs: int

    constructor (refreshTokenExpirationMs: int)
      ensures rows == [] && this.refreshTokenExpirationMs == refreshTokenExpirationMs
    {
      rows := [];
      this.refreshTokenExpirationMs := refreshTokenExpirationMs;
    }

    /** `createRefreshToken`: revokes all of the user's tokens, then stores the new value, unrevoked,
        expiring at `now` plus the configured duration. `newId` is the id the database generates. */
    method CreateRefreshToken(userId: Uuid, tokenValue: string, now: int, newId: Uuid) returns (saved: RefreshToken)
      requires !HasId(rows, newId, RefreshId)
      modifies this
      ensures saved == RefreshToken(newId, tokenValue, userId, now + refreshTokenExpirationMs, false)
      ensures rows == RevokeAllOf(old(rows), userId) + [saved]
    {
      RevokeAllOfKeepsIds(rows, userId, newId);
      rows := RevokeAllOf(rows, userId);
      saved := RefreshToken(newId, tokenValue, userId, now + refreshTokenExpirationMs, false);
      rows := Save(rows, saved, RefreshId);
    }

    /** `validateRefreshToken`. The class is `@Transactional`, so the exception thrown on an expired
        token rolls back the revocation saved just before it: every answer leaves the table as it was. */
    method ValidateRefreshToken(value: string, now: int) returns (r: Result<RefreshToken>)
      modifies this
      ensures r == RefreshOutcome(old(rows), value, now)
      ensures rows == old(rows)
    {
      var found := FindActive(value);
      if found.None? {
        return Err(InvalidRefreshToken);
      }
      var token := rows[found.value];
      if token.expiryDate < now {
        var before := rows;
        rows := Save(rows, token.(revoked := true), RefreshId);
        // The `RuntimeException` that follows rolls the transaction back.
        rows := before;
        return Err(RefreshTokenExpired);
      }
      r := Ok(token);
    }

    /** The lookup of `findByTokenAndRevokedFalse`, as a scan of the table. */
    method FindActive(value: string) returns (r: Option<nat>)
      ensures r == FirstActive(rows, value)
    {
      var i := 0;
      while i < |rows|
        invariant 0 <= i <= |rows|
        invariant forall j :: 0 <= j < i ==> !Active(rows[j], value)
      {
        if Active(rows[i], value) {
          return Some(i);
        }
        i := i + 1;
      }
      r := None;
    }

    /** `revokeToken`: the given row is marked revoked and saved. */
    method RevokeToken(token: RefreshToken)
      modifies this
      ensures rows == Save(old(rows), token.(revoked := true), RefreshId)
    {
      rows := Save(rows, token.(revoked := true), RefreshId);
    }

    /** `revokeAllForUser`: despite its name, deletes the user's rows. */
    method RevokeAllForUser(userId: Uuid)
      modifies this
      ensures rows == DeleteAllOf(old(rows), userId)
    {
      rows := DeleteAllOf(rows, userId);
    }
  }

  lemma RevokeAllOfKeepsIds(rows: seq<RefreshToken>, userId: Uuid, id: Uuid)
    requires !HasId(rows, id, RefreshId)
    ensures !HasId(RevokeAllOf(rows, userId), id, RefreshId)
  {
    forall j | 0 <= j < |rows| ensures RevokeAllOf(rows, userId)[j].id == rows[j].id {
      RevokeAllOfAt(rows, userId, j);
    }
  }

  /** Right after `createRefreshToken` the new token is the user's only unrevoked one; the other
      users' rows are as they were. */
  lemma CreateLeavesOneActive(rows: seq<RefreshToken>, t: RefreshToken)
    requires !t.revoked
    ensures var r := RevokeAllOf(rows, t.userId) + [t];
      && (forall i :: 0 <= i < |r| && r[i].userId == t.userId && !r[i].revoked ==> i == |rows|)
      && (forall i :: 0 <= i < |rows| && rows[i].userId != t.userId ==> r[i] == rows[i])
  {
    var r := RevokeAllOf(rows, t.userId) + [t];
    forall i | 0 <= i < |rows|
      ensures r[i] == if rows[i].userId == t.userId then rows[i].(revoked := true) else rows[i]
    {
      RevokeAllOfAt(rows, t.userId, i);
    }
  }

  /** After a create, the search for the new value stops at the new row when no other user holds an
      unrevoked row with that value. */
  lemma CreatedIsFirstActive(rows: seq<RefreshToken>, t: RefreshToken)
    requires !t.revoked
    requires forall j :: 0 <= j < |rows| && rows[j].userId != t.userId ==> !Active(rows[j], t.token)
    ensures FirstActive(RevokeAllOf(rows, t.userId) + [t], t.token) == Some(|rows|)
  {
    var r := RevokeAllOf(rows, t.userId) + [t];
    forall j | 0 <= j < |rows| ensures !Active(r[j], t.token) {
      RevokeAllOfAt(rows, t.userId, j);
    }
    assert Active(r[|rows|], t.token);
  }

  /** The token just created validates until its expiry instant, inclusive, when no other user holds
      an unrevoked row with the same value. */
  lemma CreatedRefreshTokenValidates(rows: seq<RefreshToken>, t: RefreshToken, now: int)
    requires !t.revoked
    requires forall j :: 0 <= j < |rows| && rows[j].userId != t.userId ==> !Active(rows[j], t.token)
    ensures now <= t.expiryDate ==> RefreshOutcome(RevokeAllOf(rows, t.userId) + [t], t.token, now) == Ok(t)
    ensures now > t.expiryDate ==> RefreshOutcome(RevokeAllOf(rows, t.userId) + [t], t.token, now) == Err(RefreshTokenExpired)
  {
    CreatedIsFirstActive(rows, t);
    assert (RevokeAllOf(rows, t.userId) + [t])[|rows|] == t;
  }

  /** The revocation of an expired token does not survive the rollback, so the value is never
      reported invalid afterwards: at every later instant it answers "expired" again. */
  lemma ExpiredRefreshTokenStaysExpired(rows: seq<RefreshToken>, value: string, now: int, later: int)
    requires RefreshOutcome(rows, value, now) == Err(RefreshTokenExpired)
    requires later >= now
    ensures RefreshOutcome(rows, value, later) == Err(RefreshTokenExpired)
  {
    var i := FirstActive(rows, value).value;
    assert rows[i].expiryDate < now <= later;
  }

  /** `revokeToken` is idempotent. */
  lemma RevokeTwiceIsRevokeOnce(rows: seq<RefreshToken>, token: RefreshToken)
    ensures Save(Save(rows, token.(revoked := true), RefreshId), token.(revoked := true), RefreshId)
         == Save(rows, token.(revoked := true), RefreshId)
  {
    SaveIdempotent(rows, token.(revoked := true), RefreshId);
  }

  /** After `revokeAllForUser` none of the user's values validates any more (unless another user
      holds the same value), while the outcome for values only other users hold does not change. */
  lemma DeletedUserCannotRefresh(rows: seq<RefreshToken>, userId: Uuid, value: string, now: int)
    ensures (forall j :: 0 <= j < |rows| && Active(rows[j], value) ==> rows[j].userId == userId) ==>
      RefreshOutcome(DeleteAllOf(rows, userId), value, now) == Err(InvalidRefreshToken)
    ensures (forall j :: 0 <= j < |rows| && Active(rows[j], value) ==> rows[j].userId != userId) ==>
      RefreshOutcome(DeleteAllOf(rows, userId), value, now) == RefreshOutcome(rows, value, now)
  {
    var d := DeleteAllOf(rows, userId);
    if forall j :: 0 <= j < |rows| && Active(rows[j], value) ==> rows[j].userId == userId {
      forall j | 0 <= j < |d| ensures !Active(d[j], value) {
        assert d[j] in d;
      }
    }
    if forall j :: 0 <= j < |rows| && Active(rows[j], value) ==> rows[j].userId != userId {
      FirstActiveAfterDelete(rows, userId, value);
      assert FoundActive(d, value) == FoundActive(rows, value);
    }
  }

  /** The token the search finds, if any. */
  function FoundActive(rows: seq<RefreshToken>, value: string): Option<RefreshToken>
  {
    match FirstActive(rows, value)
    case None => None
    case Some(i) => Some(rows[i])
  }

  /** One step of the search: the head if it is active, otherwise what the tail yields. */
  lemma FoundActiveStep(rows: seq<RefreshToken>, value: string)
    requires rows != []
    ensures FoundActive(rows, value) == if Active(rows[0], value) then Some(rows[0]) else FoundActive(rows[1..], value)
  {
    if !Active(rows[0], value) && FirstActive(rows[1..], value).Some? {
      var i := FirstActive(rows[1..], value).value;
      assert rows[1..][i] == rows[i + 1];
    }
  }

  /** Deleting a user whose tokens are all inactive for `value` leaves the token found for `value`
      as it was. */
  lemma {:induction false} FirstActiveAfterDelete(rows: seq<RefreshToken>, userId: Uuid, value: string)
    requires forall j :: 0 <= j < |rows| && Active(rows[j], value) ==> rows[j].userId != userId
    ensures FoundActive(DeleteAllOf(rows, userId), value) == FoundActive(rows, value)
    decreases |rows|
  {
    if rows != [] {
      var tail := rows[1..];
      assert forall j :: 0 <= j < |tail| && Active(tail[j], value) ==> tail[j].userId != userId by {
        forall j | 0 <= j < |tail| ensures tail[j] == rows[j + 1] { }
      }
      FirstActiveAfterDelete(tail, userId, value);
      var d := DeleteAllOf(rows, userId);
      var dt := DeleteAllOf(tail, userId);
      FoundActiveStep(rows, value);
      if rows[0].userId == userId {
        assert d == dt;
      } else {
        assert d == [rows[0]] + dt;
        assert d[1..] == dt;
        FoundActiveStep(d, value);
      }
    }
  }

  // ---------------------------------------------------------------------------
  // Single-use tokens (`EmailVerificationService`, `PasswordResetService`)

  datatype OneTimeToken = OneTimeToken(id: Uuid, token: string, userId: Uuid, expiryDate: int, used: bool)

  function OneTimeId(t: OneTimeToken): Uuid { t.id }

  const InvalidVerificationToken := "Invalid verification token"
  const VerificationTokenExpired := "Verification token expired"
  const InvalidResetToken := "Invalid reset token"
  const ResetTokenExpired := "Reset token expired"

  predicate Unused(t: OneTimeToken, value: string)
  {
    t.token == value && !t.used
  }

  /** `findByTokenAndUsedFalse`: the first unused row with that value. */
  function FirstUnused(rows: seq<OneTimeToken>, value: string): (r: Option<nat>)
    ensures r.Some? ==> r.value < |rows| && Unused(rows[r.value], value)
    ensures r.Some? ==> forall j :: 0 <= j < r.value ==> !Unused(rows[j], value)
    ensures r.None? <==> forall j :: 0 <= j < |rows| ==> !Unused(rows[j], value)
  {
    if rows == [] then None
    else if Unused(rows[0], value) then Some(0)
    else
      match FirstUnused(rows[1..], value)
      case None =>
        assert forall j :: 1 <= j < |rows| ==> rows[j] == rows[1..][j - 1];
        None
      case Some(i) => Some(i + 1)
  }

  /** What `validateToken` answers: no unused row with the value is `invalid`, an expiry strictly
      before `now` is `expired`, anything else is the row itself. */
  function CheckToken(rows: seq<OneTimeToken>, value: string, now: int, invalid: string, expired: string): (r: Result<OneTimeToken>)
    ensures r.Ok? ==> r.value in rows && Unused(r.value, value) && r.value.expiryDate >= now
    ensures (forall j :: 0 <= j < |rows| ==> !Unused(rows[j], value)) ==> r == Err(invalid)
    ensures (exists j :: 0 <= j < |rows| && Unused(rows[j], value)) ==> r.Ok? || r == Err(expired)
    ensures FirstUnused(rows, value).Some? ==>
      (r.Ok? <==> rows[FirstUnused(rows, value).value].expiryDate >= now)
  {
    match FirstUnused(rows, value)
    case None => Err(invalid)
    case Some(i) => if rows[i].expiryDate < now then Err(expired) else Ok(rows[i])
  }

  /** One class serves both services; they differ only in their messages and configured duration. */
  class OneTimeTokenService {
    var rows: seq<OneTimeToken>
    const expirationMs: int
    const invalidMessage: string
    const expiredMessage: string

    /** `EmailVerificationService`, with `app.email.verification-expiration`. */
    constructor EmailVerification(verificationExpirationMs: int)
      ensures rows == [] && expirationMs == verificationExpirationMs
      ensures invalidMessage == InvalidVerificationToken && expiredMessage == VerificationTokenExpired
    {
      rows := [];
      expirationMs := verificationExpirationMs;
      invalidMessage := InvalidVerificationToken;
      expiredMessage := VerificationTokenExpired;
    }

    /** `PasswordResetService`, with `app.password.reset-expiration`. */
    constructor PasswordReset(resetExpirationMs: int)
      ensures rows == [] && expirationMs == resetExpirationMs
      ensures invalidMessage == InvalidResetToken && expiredMessage == ResetTokenExpired
    {
      rows := [];
      expirationMs := resetExpirationMs;
      invalidMessage := InvalidResetToken;
      expiredMessage := ResetTokenExpired;
    }

    /** `createToken`: a fresh random value for the user, unused, expiring at `now` plus the configured
        duration; earlier rows are kept. `newValue` and `newId` stand for the random UUID and the id the
        database generates. */
    method CreateToken(userId: Uuid, now: int, newValue: string, newId: Uuid) returns (saved: OneTimeToken)
      requires !HasId(rows, newId, OneTimeId)
      modifies this
      ensures saved == OneTimeToken(newId, newValue, userId, now + expirationMs, false)
      ensures rows == old(rows) + [saved]
    {
      saved := OneTimeToken(newId, newValue, userId, now + expirationMs, false);
      rows := Save(rows, saved, OneTimeId);
    }

    /** `validateToken`: reads the table and changes nothing. */
    method ValidateToken(value: string, now: int) returns (r: Result<OneTimeToken>)
      ensures r == CheckToken(rows, value, now, invalidMessage, expiredMessage)
    {
      var i := 0;
      while i < |rows| && !Unused(rows[i], value)
        invariant 0 <= i <= |rows|
        invariant forall j :: 0 <= j < i ==> !Unused(rows[j], value)
      {
        i := i + 1;
      }
      if i == |rows| {
        return Err(invalidMessage);
      }
      if rows[i].expiryDate < now {
        return Err(expiredMessage);
      }
      r := Ok(rows[i]);
    }

    /** `markUsed`: the given row is marked used and saved. */
    method MarkUsed(token: OneTimeToken)
      modifies this
      ensures rows == Save(old(rows), token.(used := true), OneTimeId)
    {
      rows := Save(rows, token.(used := true), OneTimeId);
    }
  }

  /** Appending a row leaves the first unused row as it was; only when there was none can the new row
      be the one found. */
  lemma {:induction false} FirstUnusedAppend(rows: seq<OneTimeToken>, t: OneTimeToken, value: string)
    ensures FirstUnused(rows + [t], value)
      == if FirstUnused(rows, value).Some? then FirstUnused(rows, value)
         else if Unused(t, value) then Some(|rows|) else None
  {
    if rows != [] {
      assert (rows + [t])[1..] == rows[1..] + [t];
      FirstUnusedAppend(rows[1..], t, value);
    }
  }

  /** A freshly created token validates until its expiry instant, inclusive, and is expired after it;
      the outcome for every other value is unchanged, so earlier tokens stay valid. */
  lemma CreatedTokenValidates(rows: seq<OneTimeToken>, t: OneTimeToken, now: int, other: string, invalid: string, expired: string)
    requires !t.used && forall j :: 0 <= j < |rows| ==> rows[j].token != t.token
    ensures now <= t.expiryDate ==> CheckToken(rows + [t], t.token, now, invalid, expired) == Ok(t)
    ensures now > t.expiryDate ==> CheckToken(rows + [t], t.token, now, invalid, expired) == Err(expired)
    ensures other != t.token ==> CheckToken(rows + [t], other, now, invalid, expired) == CheckToken(rows, other, now, invalid, expired)
  {
    FirstUnusedAppend(rows, t, t.token);
    FirstUnusedAppend(rows, t, other);
    assert (rows + [t])[|rows|] == t;
    if other != t.token {
      match FirstUnused(rows, other)
      case None =>
      case Some(i) =>
        assert (rows + [t])[i] == rows[i];
    }
  }

  /** After `markUsed` on a row that was the only unused one with its value, that value never validates
      again, at any instant. */
  lemma UsedTokenNeverValidates(rows: seq<OneTimeToken>, t: OneTimeToken, now: int, invalid: string, expired: string)
    requires IdsUnique(rows, OneTimeId)
    requires forall j :: 0 <= j < |rows| && Unused(rows[j], t.token) ==> rows[j].id == t.id
    ensures CheckToken(Save(rows, t.(used := true), OneTimeId), t.token, now, invalid, expired) == Err(invalid)
  {
    var after := Save(rows, t.(used := true), OneTimeId);
    SaveKeepsIdsUnique(rows, t.(used := true), OneTimeId);
    forall j | 0 <= j < |after| ensures !Unused(after[j], t.token) {
      assert after[j] in after;
    }
  }

  /** The answer is explained by the table: a success is the first unused row with the value, and an
      "expired" answer (when the messages differ) points at an unused row that expired before `now`. */
  lemma CheckTokenWitness(rows: seq<OneTimeToken>, value: string, now: int, invalid: string, expired: string)
    ensures CheckToken(rows, value, now, invalid, expired).Ok? ==>
      CheckToken(rows, value, now, invalid, expired).value == rows[FirstUnused(rows, value).value]
    ensures CheckToken(rows, value, now, invalid, expired) == Err(expired) && invalid != expired ==>
      exists j :: 0 <= j < |rows| && Unused(rows[j], value) && rows[j].expiryDate < now
  {
  }
}
