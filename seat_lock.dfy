/** The seat-lock table of `SeatLockService`: short-lived holds keyed by
    (schedule, seat number), grouped by a lock token. The table's unique
    constraint `uq_route_schedule_seat_lock` allows one row per key whether the
    row has expired or not, so the table is a map from that key. The clock is a
    parameter (`now`, in milliseconds) and the random token is supplied by the
    caller, fresh. */
module SeatLocking {
  import opened Wrappers
  import opened Entities

  /** `LOCK_DURATION = Duration.ofMinutes(15)`. */
  const LockDurationMs: int := 15 * 60 * 1000

  /** The unique key (route_schedule_id, seat_number). */
  type LockKey = (Uuid, string)

  datatype SeatLock = SeatLock(lockToken: Uuid, lockedBy: Uuid, expiresAt: int, createdAt: int)

  type LockTable = map<LockKey, SeatLock>

  /** What the store reports when an insert hits the unique constraint. */
  const UniqueViolation := "duplicate key value violates unique constraint \"uq_route_schedule_seat_lock\""

  function LockedMessage(seatNumber: string): string
  {
    "Seat " + seatNumber + " is locked"
  }

  /** A row counts as a lock only while its expiry is strictly after `now`. */
  predicate IsActive(locks: LockTable, key: LockKey, now: int)
  {
    key in locks && locks[key].expiresAt > now
  }

  predicate Distinct(s: seq<string>)
  {
    forall i, j :: 0 <= i < j < |s| ==> s[i] != s[j]
  }

  /** The lock loop, seat by seat: check for an active lock, then insert; the first seat that
      fails ends the call and the rows inserted before it stay. */
  function LockAll(locks: LockTable, scheduleId: Uuid, seats: seq<string>, user: Uuid, token: Uuid, expiry: int, now: int)
    : (LockTable, Result<Uuid>)
    decreases |seats|
  {
    if seats == [] then (locks, Ok(token))
    else
      var key := (scheduleId, seats[0]);
      if IsActive(locks, key, now) then (locks, Err(LockedMessage(seats[0])))
      else if key in locks then (locks, Err(UniqueViolation))
      else LockAll(locks[key := SeatLock(token, user, expiry, now)], scheduleId, seats[1..], user, token, expiry, now)
  }

  /** `release`: every row carrying the token goes, every other row stays. */
  function Released(locks: LockTable, token: Uuid): LockTable
  {
    map k | k in locks && locks[k].lockToken != token :: locks[k]
  }

  /** `deleteExpired`: every row whose expiry is at or before `now` goes. */
  function Reaped(locks: LockTable, now: int): LockTable
  {
    map k | k in locks && locks[k].expiresAt > now :: locks[k]
  }

  class SeatLockService {
    /** The `seat_locks` table. */
    var locks: LockTable

    constructor ()
      ensures locks == map[]
    {
      locks := map[];
    }

    /** `findByRouteScheduleIdAndSeatNumber`, which the repository interface does not declare:
        the one row stored under the key, if any. */
    function FindLock(scheduleId: Uuid, seatNumber: string): (r: Option<SeatLock>)
      reads this
      ensures r.Some? <==> (scheduleId, seatNumber) in locks
      ensures r.Some? ==> r.value == locks[(scheduleId, seatNumber)]
    {
      var key := (scheduleId, seatNumber);
      if key in locks then Some(locks[key]) else None
    }

    /** `save` of a new row: the unique constraint rejects an insert onto a taken key. */
    method Insert(key: LockKey, lock: SeatLock) returns (ok: bool)
      modifies this
      ensures ok <==> key !in old(locks)
      ensures locks == if ok then old(locks)[key := lock] else old(locks)
    {
      ok := key !in locks;
      if ok {
        locks := locks[key := lock];
      }
    }

    /** `lockSeats`. Not transactional: a failure leaves the rows inserted before it. */
    method LockSeats(scheduleId: Uuid, seatNumbers: seq<string>, user: Uuid, token: Uuid, now: int)
      returns (r: Result<Uuid>)
      modifies this
      ensures (locks, r) == LockAll(old(locks), scheduleId, seatNumbers, user, token, now + LockDurationMs, now)
    {
      var expiry := now + LockDurationMs;
      for i := 0 to |seatNumbers|
        invariant LockAll(old(locks), scheduleId, seatNumbers, user, token, expiry, now)
               == LockAll(locks, scheduleId, seatNumbers[i..], user, token, expiry, now)
      {
        var seatNumber := seatNumbers[i];
        assert seatNumbers[i..][1..] == seatNumbers[i + 1..];
        var found := FindLock(scheduleId, seatNumber);
        var alreadyLocked := found.Some? && found.value.expiresAt > now;
        if alreadyLocked {
          return Err(LockedMessage(seatNumber));
        }
        var ok := Insert((scheduleId, seatNumber), SeatLock(token, user, expiry, now));
        if !ok {
          return Err(UniqueViolation);
        }
      }
      return Ok(token);
    }

    /** `release`: deletes exactly the rows carrying the token. */
    method Release(token: Uuid)
      modifies this
      ensures locks == Released(old(locks), token)
    {
      locks := Released(locks, token);
    }

    /** `cleanupExpired`: only calls `deleteExpired`, which the repository interface does not
        declare either; it is taken to delete the rows that no longer count as locks. */
    method CleanupExpired(now: int)
      modifies this
      ensures locks == Reaped(old(locks), now)
    {
      locks := Reaped(locks, now);
    }
  }

  // ---------------------------------------------------------------------------
  // Properties of the lock loop

  /** Rows that existed before the call are never overwritten or removed by it. */
  lemma {:induction false} LockAllKeepsExistingRows(locks: LockTable, scheduleId: Uuid, seats: seq<string>, user: Uuid, token: Uuid, expiry: int, now: int, key: LockKey)
    requires key in locks
    ensures var (after, _) := LockAll(locks, scheduleId, seats, user, token, expiry, now);
      key in after && after[key] == locks[key]
    decreases |seats|
  {
    if seats != [] {
      var k := (scheduleId, seats[0]);
      if !IsActive(locks, k, now) && k !in locks {
        LockAllKeepsExistingRows(locks[k := SeatLock(token, user, expiry, now)], scheduleId, seats[1..], user, token, expiry, now, key);
      }
    }
  }

  /** Every row the call adds is for a requested seat of this schedule and is the new lock:
      the new token, the caller, and the common expiry. */
  lemma {:induction false} LockAllAddsOnlyRequestedSeats(locks: LockTable, scheduleId: Uuid, seats: seq<string>, user: Uuid, token: Uuid, expiry: int, now: int, key: LockKey)
    requires key !in locks
    ensures var (after, _) := LockAll(locks, scheduleId, seats, user, token, expiry, now);
      key in after ==> key.0 == scheduleId && key.1 in seats && after[key] == SeatLock(token, user, expiry, now)
    decreases |seats|
  {
    if seats != [] {
      var k := (scheduleId, seats[0]);
      if !IsActive(locks, k, now) && k !in locks {
        var next := locks[k := SeatLock(token, user, expiry, now)];
        if key == k {
          LockAllKeepsExistingRows(next, scheduleId, seats[1..], user, token, expiry, now, key);
        } else {
          LockAllAddsOnlyRequestedSeats(next, scheduleId, seats[1..], user, token, expiry, now, key);
        }
      }
    }
  }

  /** The call succeeds exactly when no requested seat has a row (active or expired) and no seat
      is requested twice; on success it returns the token it was given. */
  lemma {:induction false} LockAllSucceedsIffAllFree(locks: LockTable, scheduleId: Uuid, seats: seq<string>, user: Uuid, token: Uuid, expiry: int, now: int)
    ensures var (_, r) := LockAll(locks, scheduleId, seats, user, token, expiry, now);
      (r.Ok? <==> Distinct(seats) && forall i :: 0 <= i < |seats| ==> (scheduleId, seats[i]) !in locks)
      && (r.Ok? ==> r.value == token)
    decreases |seats|
  {
    if seats != [] {
      var k := (scheduleId, seats[0]);
      if !IsActive(locks, k, now) && k !in locks {
        var next := locks[k := SeatLock(token, user, expiry, now)];
        LockAllSucceedsIffAllFree(next, scheduleId, seats[1..], user, token, expiry, now);
        if Distinct(seats) && forall i :: 0 <= i < |seats| ==> (scheduleId, seats[i]) !in locks {
          forall i | 0 <= i < |seats[1..]| ensures (scheduleId, seats[1..][i]) !in next {
            assert seats[1..][i] == seats[i + 1];
          }
        }
        var (_, r) := LockAll(locks, scheduleId, seats, user, token, expiry, now);
        if r.Ok? {
          forall i, j | 0 <= i < j < |seats| ensures seats[i] != seats[j] {
            if i > 0 {
              assert seats[1..][i - 1] == seats[i] && seats[1..][j - 1] == seats[j];
            } else {
              assert seats[1..][j - 1] == seats[j];
            }
          }
        }
      }
    }
  }

  /** On success every requested seat holds the new lock. */
  lemma {:induction false} LockAllSuccessLocksEverySeat(locks: LockTable, scheduleId: Uuid, seats: seq<string>, user: Uuid, token: Uuid, expiry: int, now: int, i: int)
    requires 0 <= i < |seats|
    requires LockAll(locks, scheduleId, seats, user, token, expiry, now).1.Ok?
    ensures var (after, _) := LockAll(locks, scheduleId, seats, user, token, expiry, now);
      (scheduleId, seats[i]) in after && after[(scheduleId, seats[i])] == SeatLock(token, user, expiry, now)
    decreases |seats|
  {
    var k := (scheduleId, seats[0]);
    var next := locks[k := SeatLock(token, user, expiry, now)];
    if i == 0 {
      LockAllKeepsExistingRows(next, scheduleId, seats[1..], user, token, expiry, now, k);
    } else {
      LockAllSuccessLocksEverySeat(next, scheduleId, seats[1..], user, token, expiry, now, i - 1);
    }
  }

  /** With a fresh token, the rows carrying it after a successful call are exactly the requested
      seats: `release` of that token then removes exactly this call's locks. */
  lemma LockAllTokenRowsAreTheBatch(locks: LockTable, scheduleId: Uuid, seats: seq<string>, user: Uuid, token: Uuid, expiry: int, now: int, key: LockKey)
    requires forall k :: k in locks ==> locks[k].lockToken != token
    requires LockAll(locks, scheduleId, seats, user, token, expiry, now).1.Ok?
    ensures var (after, _) := LockAll(locks, scheduleId, seats, user, token, expiry, now);
      (key in after && after[key].lockToken == token) <==> (key.0 == scheduleId && key.1 in seats)
  {
    var (after, _) := LockAll(locks, scheduleId, seats, user, token, expiry, now);
    if key in locks {
      LockAllKeepsExistingRows(locks, scheduleId, seats, user, token, expiry, now, key);
      LockAllSucceedsIffAllFree(locks, scheduleId, seats, user, token, expiry, now);
      if key.0 == scheduleId {
        forall i | 0 <= i < |seats| ensures seats[i] != key.1 {
          assert (scheduleId, seats[i]) !in locks;
        }
      }
    } else {
      LockAllAddsOnlyRequestedSeats(locks, scheduleId, seats, user, token, expiry, now, key);
      if key.0 == scheduleId && key.1 in seats {
        var i :| 0 <= i < |seats| && seats[i] == key.1;
        LockAllSuccessLocksEverySeat(locks, scheduleId, seats, user, token, expiry, now, i);
      }
    }
  }

  /** The loop is not atomic: when the k-th seat is actively locked, the call reports that seat,
      yet the locks it inserted for the seats before it remain. Nothing is inserted for the k-th
      seat or any later one, and no row that was there before changes. */
  lemma {:induction false} FailureKeepsEarlierLocks(locks: LockTable, scheduleId: Uuid, seats: seq<string>, user: Uuid, token: Uuid, now: int, k: int)
    requires 0 <= k < |seats|
    requires Distinct(seats[..k]) && forall i :: 0 <= i < k ==> (scheduleId, seats[i]) !in locks
    requires IsActive(locks, (scheduleId, seats[k]), now)
    ensures var (after, r) := LockAll(locks, scheduleId, seats, user, token, now + LockDurationMs, now);
      && r == Err(LockedMessage(seats[k]))
      && after.Keys == locks.Keys + (set i | 0 <= i < k :: (scheduleId, seats[i]))
      && (forall key :: key in locks ==> after[key] == locks[key])
      && (forall i :: 0 <= i < k ==> after[(scheduleId, seats[i])] == SeatLock(token, user, now + LockDurationMs, now))
    decreases k
  {
    var lock := SeatLock(token, user, now + LockDurationMs, now);
    if k > 0 {
      var key := (scheduleId, seats[0]);
      var next := locks[key := lock];
      var tail := seats[1..];
      assert seats[0] == seats[..k][0];
      forall i | 0 <= i < k - 1 ensures (scheduleId, tail[i]) !in next {
        assert tail[i] == seats[..k][i + 1] && seats[0] == seats[..k][0];
      }
      var rest := tail[..k - 1];
      assert Distinct(rest) by {
        forall a, b | 0 <= a < b < k - 1 ensures rest[a] != rest[b] {
          assert rest[a] == seats[..k][a + 1] && rest[b] == seats[..k][b + 1];
        }
      }
      assert tail[k - 1] == seats[k];
      assert seats[k] != seats[0] by { assert IsActive(locks, (scheduleId, seats[k]), now); }
      FailureKeepsEarlierLocks(next, scheduleId, tail, user, token, now, k - 1);
      var (after, r) := LockAll(next, scheduleId, tail, user, token, now + LockDurationMs, now);
      assert LockAll(locks, scheduleId, seats, user, token, now + LockDurationMs, now) == (after, r);
      var added := set i | 0 <= i < k :: (scheduleId, seats[i]);
      var addedTail := set i | 0 <= i < k - 1 :: (scheduleId, tail[i]);
      assert added == {key} + addedTail by {
        forall x | x in added ensures x in {key} + addedTail {
          var i :| 0 <= i < k && x == (scheduleId, seats[i]);
          if i > 0 { assert x == (scheduleId, tail[i - 1]); }
        }
        forall x | x in addedTail ensures x in added {
          var i :| 0 <= i < k - 1 && x == (scheduleId, tail[i]);
          assert x == (scheduleId, seats[i + 1]);
        }
      }
      forall i | 0 <= i < k ensures after[(scheduleId, seats[i])] == lock {
        if i > 0 { assert seats[i] == tail[i - 1]; }
      }
    }
  }

  /** A request listing the same free seat twice fails at its second occurrence, holding the
      lock taken at the first. */
  lemma DuplicateSeatFails(locks: LockTable, scheduleId: Uuid, seat: string, user: Uuid, token: Uuid, now: int)
    requires (scheduleId, seat) !in locks
    ensures var (after, r) := LockAll(locks, scheduleId, [seat, seat], user, token, now + LockDurationMs, now);
      r == Err(LockedMessage(seat)) && (scheduleId, seat) in after && after[(scheduleId, seat)].lockToken == token
  {
    assert [seat, seat][1..] == [seat];
  }

  /** An expired row that has not been reaped does not count as a lock, yet the insert onto its
      key fails at the store and nothing changes. */
  lemma ExpiredUnreapedSeatFailsAtStore(locks: LockTable, scheduleId: Uuid, seat: string, user: Uuid, token: Uuid, now: int)
    requires (scheduleId, seat) in locks && locks[(scheduleId, seat)].expiresAt <= now
    ensures !IsActive(locks, (scheduleId, seat), now)
    ensures LockAll(locks, scheduleId, [seat], user, token, now + LockDurationMs, now) == (locks, Err(UniqueViolation))
  {
  }

  /** Once the reaper has run, the same seat can be locked again. */
  lemma ReapedSeatCanBeLocked(locks: LockTable, scheduleId: Uuid, seat: string, user: Uuid, token: Uuid, now: int)
    requires (scheduleId, seat) in locks && locks[(scheduleId, seat)].expiresAt <= now
    ensures LockAll(Reaped(locks, now), scheduleId, [seat], user, token, now + LockDurationMs, now).1 == Ok(token)
  {
    assert [seat][1..] == [];
  }

  /** Calls in sequence exclude each other: after one call has locked a seat, a second call
      starting with that seat before the lock expires fails and leaves the table as it was. */
  lemma SequentialMutualExclusion(locks: LockTable, scheduleId: Uuid, seats: seq<string>, user: Uuid, token: Uuid, now: int,
                                  seats2: seq<string>, user2: Uuid, token2: Uuid, now2: int, i: int)
    requires 0 <= i < |seats|
    requires LockAll(locks, scheduleId, seats, user, token, now + LockDurationMs, now).1.Ok?
    requires now2 < now + LockDurationMs
    requires seats2 != [] && seats2[0] == seats[i]
    ensures var (mid, _) := LockAll(locks, scheduleId, seats, user, token, now + LockDurationMs, now);
      var (after, r2) := LockAll(mid, scheduleId, seats2, user2, token2, now2 + LockDurationMs, now2);
      && r2 == Err(LockedMessage(seats[i]))
      && after == mid
      && (scheduleId, seats[i]) in after && after[(scheduleId, seats[i])].lockToken == token
  {
    LockAllSuccessLocksEverySeat(locks, scheduleId, seats, user, token, now + LockDurationMs, now, i);
    var (mid, _) := LockAll(locks, scheduleId, seats, user, token, now + LockDurationMs, now);
    LockAllKeepsExistingRows(mid, scheduleId, seats2, user2, token2, now2 + LockDurationMs, now2, (scheduleId, seats[i]));
  }

  // ---------------------------------------------------------------------------
  // Properties of release and reaping

  /** `release` removes exactly the token's rows; an unknown token changes nothing. */
  lemma ReleaseRemovesExactlyTheToken(locks: LockTable, token: Uuid, key: LockKey)
    ensures key in Released(locks, token) <==> key in locks && locks[key].lockToken != token
    ensures key in Released(locks, token) ==> Released(locks, token)[key] == locks[key]
    ensures (forall k :: k in locks ==> locks[k].lockToken != token) ==> Released(locks, token) == locks
  {
  }

  /** Releasing twice is the same as releasing once. */
  lemma ReleaseIdempotent(locks: LockTable, token: Uuid)
    ensures Released(Released(locks, token), token) == Released(locks, token)
  {
  }

  /** Reaping never changes which seats count as locked at that instant, and leaves no expired row. */
  lemma ReapingPreservesActiveLocks(locks: LockTable, now: int, key: LockKey)
    ensures IsActive(Reaped(locks, now), key, now) == IsActive(locks, key, now)
    ensures key in Reaped(locks, now) ==> IsActive(Reaped(locks, now), key, now)
  {
  }
}
