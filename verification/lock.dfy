/** The leased run-lock: a table of named leases `name -> (owner,
    expires_at)`. Acquiring inserts a lease when the name is free, steals it
    when its expiry lies strictly in the past, and otherwise retries until
    the waiting window closes; releasing deletes the lease only while it
    still carries the caller's owner token. Time is integer clock readings
    handed in as a sequence, one pair per attempt. */
module Lock {

  datatype Lease = Lease(owner: string, expires_at: int)

  /** The clock readings of one attempt: the loop test, then `now`. */
  datatype Reading = Reading(check: int, now: int)

  /** What one attempt does: whether it acquired, and the table after it. */
  datatype AttemptResult = AttemptResult(acquired: bool, rows: map<string, Lease>)

  /** One pass of the retry loop's body at time `now`. */
  function Attempt(rows: map<string, Lease>, name: string, owner: string, now: int, ttl: int): (r: AttemptResult)
    ensures r.acquired ==> r.rows == rows[name := Lease(owner, now + ttl)]
    ensures !r.acquired ==> r.rows == rows
    ensures r.acquired <==> name !in rows || rows[name].expires_at < now
  {
    if name !in rows then AttemptResult(true, rows[name := Lease(owner, now + ttl)])      // INSERT
    else if rows[name].expires_at < now then AttemptResult(true, rows[name := Lease(owner, now + ttl)])  // steal
    else AttemptResult(false, rows)
  }

  /** The retry loop over the clock readings: it stops at the first attempt
      that acquires, when the window closes, or when the readings run out. */
  function Acquire(rows: map<string, Lease>, name: string, owner: string, ttl: int, start: int, maxWait: int,
                   readings: seq<Reading>): AttemptResult
    decreases |readings|
  {
    if readings == [] || !(readings[0].check - start < maxWait) then AttemptResult(false, rows)
    else
      var a := Attempt(rows, name, owner, readings[0].now, ttl);
      if a.acquired then a else Acquire(rows, name, owner, ttl, start, maxWait, readings[1..])
  }

  /** `DELETE ... WHERE name = ? AND owner = ?` */
  function Released(rows: map<string, Lease>, name: string, owner: string): (r: map<string, Lease>)
    ensures name in rows && rows[name].owner == owner ==> r == rows - {name}
    ensures !(name in rows && rows[name].owner == owner) ==> r == rows
  {
    if name in rows && rows[name].owner == owner then rows - {name} else rows
  }

  // ------------------------------------------------------------ properties

  /** Acquiring leaves the caller holding the lease, or changes nothing. */
  lemma {:induction false} AcquireOutcome(rows: map<string, Lease>, name: string, owner: string, ttl: int,
                                          start: int, maxWait: int, readings: seq<Reading>)
    ensures var r := Acquire(rows, name, owner, ttl, start, maxWait, readings);
      && (r.acquired ==> exists k :: 0 <= k < |readings| && r.rows == rows[name := Lease(owner, readings[k].now + ttl)])
      && (!r.acquired ==> r.rows == rows)
    decreases |readings|
  {
    if readings != [] && readings[0].check - start < maxWait {
      var a := Attempt(rows, name, owner, readings[0].now, ttl);
      if !a.acquired {
        AcquireOutcome(rows, name, owner, ttl, start, maxWait, readings[1..]);
        var r := Acquire(rows, name, owner, ttl, start, maxWait, readings[1..]);
        if r.acquired {
          var k :| 0 <= k < |readings[1..]| && r.rows == rows[name := Lease(owner, readings[1..][k].now + ttl)];
          assert readings[1..][k] == readings[k + 1];
        }
      }
    }
  }

  /** A lease that stays live through every attempt in the window keeps
      every other owner out, and the table is left as it was. */
  lemma {:induction false} LiveLeaseExcludes(rows: map<string, Lease>, name: string, owner: string, ttl: int,
                                             start: int, maxWait: int, readings: seq<Reading>)
    requires name in rows
    requires forall k :: 0 <= k < |readings| ==> readings[k].now <= rows[name].expires_at
    ensures Acquire(rows, name, owner, ttl, start, maxWait, readings) == AttemptResult(false, rows)
    decreases |readings|
  {
    if readings != [] {
      LiveLeaseExcludes(rows, name, owner, ttl, start, maxWait, readings[1..]);
    }
  }

  /** A free name, or an expired lease, is taken on the first attempt in
      the window. */
  lemma FirstAttemptTakes(rows: map<string, Lease>, name: string, owner: string, ttl: int,
                          start: int, maxWait: int, readings: seq<Reading>)
    requires readings != [] && readings[0].check - start < maxWait
    requires name !in rows || rows[name].expires_at < readings[0].now
    ensures Acquire(rows, name, owner, ttl, start, maxWait, readings)
         == AttemptResult(true, rows[name := Lease(owner, readings[0].now + ttl)])
  {
  }

  /** After the holder releases, another owner acquires at once. */
  lemma AcquireAfterRelease(rows: map<string, Lease>, name: string, holder: string, other: string, ttl: int,
                            start: int, maxWait: int, readings: seq<Reading>)
    requires name in rows && rows[name].owner == holder
    requires readings != [] && readings[0].check - start < maxWait
    ensures Acquire(Released(rows, name, holder), name, other, ttl, start, maxWait, readings).acquired
  {
  }

  /** A lease stolen by another owner survives the first owner's release. */
  lemma StolenLeaseSurvives(rows: map<string, Lease>, name: string, owner: string, thief: string, expires: int)
    requires thief != owner
    ensures var stolen := rows[name := Lease(thief, expires)];
      Released(stolen, name, owner) == stolen
  {
  }

  /** Acquiring and releasing one name leave the leases of other names alone. */
  lemma OtherNamesUntouched(rows: map<string, Lease>, name: string, owner: string, ttl: int,
                            start: int, maxWait: int, readings: seq<Reading>, n: string)
    requires n != name
    ensures var r := Acquire(rows, name, owner, ttl, start, maxWait, readings).rows;
      && (n in r <==> n in rows) && (n in rows ==> r[n] == rows[n])
      && (n in Released(rows, name, owner) <==> n in rows)
      && (n in rows ==> Released(rows, name, owner)[n] == rows[n])
  {
    AcquireOutcome(rows, name, owner, ttl, start, maxWait, readings);
  }

  // ---------------------------------------------------------------- table

  class LockTable {
    var rows: map<string, Lease>

    constructor ()
      ensures rows == map[]
    {
      rows := map[];
    }

    /** The attempt loop of `acquire_lock`. */
    method AcquireLock(name: string, owner: string, ttl: int, maxWait: int, start: int, readings: seq<Reading>)
      returns (got: bool)
      modifies this
      ensures AttemptResult(got, rows) == Acquire(old(rows), name, owner, ttl, start, maxWait, readings)
    {
      got := false;
      var i := 0;
      while i < |readings| && readings[i].check - start < maxWait
        invariant 0 <= i <= |readings| && !got && rows == old(rows)
        invariant Acquire(rows, name, owner, ttl, start, maxWait, readings)
               == Acquire(rows, name, owner, ttl, start, maxWait, readings[i..])
      {
        assert readings[i..][0] == readings[i] && readings[i..][1..] == readings[i + 1..];
        var now := readings[i].now;
        var exp := now + ttl;
        if name !in rows {
          rows := rows[name := Lease(owner, exp)];
          got := true;
          break;
        }
        var row := rows[name];
        if row.expires_at < now {
          rows := rows[name := Lease(owner, exp)];
          got := true;
          break;
        }
        i := i + 1;
      }
    }

    /** The clean-up on leaving the `with` block. */
    method ReleaseLock(name: string, owner: string, got: bool)
      modifies this
      ensures rows == if got then Released(old(rows), name, owner) else old(rows)
    {
      if got {
        if name in rows && rows[name].owner == owner {
          rows := rows - {name};
        }
      }
    }
  }
}
