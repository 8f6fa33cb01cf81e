/**
 * The incident repository of internal/repository/incident.go, with Postgres
 * and Redis replaced by in-memory state: the `incidents` table as a sequence
 * of rows in insertion order, the `location_checks` table as a sequence, the
 * Redis cache namespace as a map from key to entry, and the database clock
 * NOW(). Every method takes a `fail` flag standing for the driver or server
 * error the real call can return at any time.
 */
module Repository {
  import opened Wrappers
  import opened Models

  const CacheKeyPrefix: string := "incident:"

  /** Cache entries are written with a fixed time-to-live of five minutes. */
  const CacheTtlSeconds: nat := 5 * 60

  const SecondsPerMinute: int := 60

  /**
   * The geodesic test `ST_DWithin(location, point, radius_meters)` on the
   * geography type: (centre latitude, centre longitude, radius in meters,
   * point latitude, point longitude). It is left uninterpreted.
   */
  type WithinRadius = (Coordinate, Coordinate, int, Coordinate, Coordinate) -> bool

  /** The errors the repository returns, one per distinct Go error message. */
  datatype RepoError =
    | DbError                          // any error reported by the database driver
    | NotFound(id: Id)                 // "incident with id %s not found"
    | NotFoundForUpdate(id: Id)        // RowsAffected() == 0 in Update
    | NotFoundForDeactivate(id: Id)    // RowsAffected() == 0 in Delete
    | CacheError                       // any error reported by Redis or by unmarshalling

  /** A cached incident snapshot and the TTL it was stored with. */
  datatype CacheEntry = CacheEntry(snapshot: Incident, ttlSeconds: nat)

  /** One call on the repository, as a mock would record it. */
  datatype Call =
    | Create(incident: Incident)
    | GetByID(id: Id)
    | Update(incident: Incident)
    | Delete(id: Id)
    | ListIncidents(page: int, pageSize: int)
    | FindActiveLocation(latitude: Coordinate, longitude: Coordinate)
    | GetLocationCheckStats(minutes: int)
    | SaveLocationCheck(check: LocationCheck)
    | GetIncidentFromCache(id: Id)
    | SetIncidentCache(incident: Incident)
    | InvalidateIncidentCache(id: Id)

  /** The Redis key of an incident's cache entry: "incident:" followed by the id. */
  function CacheKey(id: Id): (key: string)
    ensures |key| == |CacheKeyPrefix| + |id|
    ensures key[..|CacheKeyPrefix|] == CacheKeyPrefix && key[|CacheKeyPrefix|..] == id
  {
    CacheKeyPrefix + id
  }

  /** Distinct incidents never share a cache entry. */
  lemma CacheKeyInjective(a: Id, b: Id)
    ensures CacheKey(a) == CacheKey(b) <==> a == b
  {
    if CacheKey(a) == CacheKey(b) {
      assert a == CacheKey(a)[|CacheKeyPrefix|..];
    }
  }

  /** The position of the row with primary key `id`, if there is one. */
  function Find(rows: seq<Incident>, id: Id): (r: Option<nat>)
    ensures r.Some? ==> r.value < |rows| && rows[r.value].id == id
    ensures r.None? <==> forall k :: 0 <= k < |rows| ==> rows[k].id != id
  {
    if rows == [] then None
    else if rows[0].id == id then Some(0)
    else match Find(rows[1..], id)
      case None => None
      case Some(k) => Some(k + 1)
  }

  /** Rewriting a row without touching its id leaves every lookup by id where it was. */
  lemma {:induction false} FindAfterRewrite(rows: seq<Incident>, k: nat, row: Incident, id: Id)
    requires k < |rows| && row.id == rows[k].id
    ensures Find(rows[k := row], id) == Find(rows, id)
  {
    if k > 0 {
      FindAfterRewrite(rows[1..], k - 1, row, id);
      assert rows[k := row][1..] == rows[1..][k - 1 := row];
    }
  }

  ghost predicate UniqueIds(rows: seq<Incident>) {
    forall i, j :: 0 <= i < j < |rows| ==> rows[i].id != rows[j].id
  }

  ghost predicate CreatedInOrder(rows: seq<Incident>) {
    forall i, j :: 0 <= i < j < |rows| ==> rows[i].createdAt <= rows[j].createdAt
  }

  /**
   * The row after `UPDATE incidents SET name, description, location, radius_meters, status, updated_at = NOW()`:
   * it keeps its id and created_at, is stamped `now`, and otherwise agrees with `source`.
   */
  function Revised(row: Incident, source: Incident, now: Time): (r: Incident)
    ensures r.id == row.id && r.createdAt == row.createdAt && r.updatedAt == now
    ensures r.(id := source.id, createdAt := source.createdAt, updatedAt := source.updatedAt) == source
  {
    row.(name := source.name, description := source.description,
         latitude := source.latitude, longitude := source.longitude,
         radiusMeters := source.radiusMeters, status := source.status, updatedAt := now)
  }

  /** The row after `UPDATE incidents SET status = 'inactive', updated_at = NOW()`: only those two columns change. */
  function Deactivated(row: Incident, now: Time): (r: Incident)
    ensures r.status == InactiveStatus && r.updatedAt == now
    ensures r.(status := row.status, updatedAt := row.updatedAt) == row
  {
    row.(status := InactiveStatus, updatedAt := now)
  }

  /** The WHERE clause of FindActiveLocation: a soft-deleted row never matches, wherever the point is. */
  predicate ActiveAndWithin(within: WithinRadius, row: Incident, lat: Coordinate, lon: Coordinate): (b: bool)
    ensures row.status == InactiveStatus ==> !b
    ensures b ==> within(row.latitude, row.longitude, row.radiusMeters, lat, lon)
    ensures b <==> row.status == ActiveStatus && within(row.latitude, row.longitude, row.radiusMeters, lat, lon)
  {
    row.status == ActiveStatus && within(row.latitude, row.longitude, row.radiusMeters, lat, lon)
  }

  /** The rows of `rows` that FindActiveLocation selects, in table order. */
  function ActiveWithin(within: WithinRadius, rows: seq<Incident>, lat: Coordinate, lon: Coordinate): (found: seq<Incident>)
    ensures |found| <= |rows|
    ensures forall x :: x in found <==> x in rows && ActiveAndWithin(within, x, lat, lon)
  {
    if rows == [] then []
    else
      var last := rows[|rows| - 1];
      ActiveWithin(within, rows[..|rows| - 1], lat, lon) + (if ActiveAndWithin(within, last, lat, lon) then [last] else [])
  }

  /** The users with at least one location check at or after `cutoff`. */
  function RecentUsers(checks: seq<LocationCheck>, cutoff: Time): (users: set<string>)
    ensures forall u :: u in users <==> exists k :: 0 <= k < |checks| && checks[k].userId == u && checks[k].checkedAt >= cutoff
  {
    if checks == [] then {}
    else
      var last := checks[|checks| - 1];
      assert forall k :: 0 <= k < |checks| - 1 ==> checks[..|checks| - 1][k] == checks[k];
      RecentUsers(checks[..|checks| - 1], cutoff) + (if last.checkedAt >= cutoff then {last.userId} else {})
  }

  /** The earliest check time GetLocationCheckStats counts: `minutes` before `now`. */
  function StatsCutoff(now: Time, minutes: int): Time {
    now - minutes * SecondsPerMinute
  }

  /** The number of rows ListIncidents skips, `(page - 1) * pageSize`, without overflow: never negative from page 1 on. */
  function Offset(page: int, pageSize: int): (o: int)
    ensures page >= 1 && pageSize >= 0 ==> o >= 0
  {
    (page - 1) * pageSize
  }

  /** The number of rows a page of `pageSize` rows starting at `offset` holds in a table of `n` rows. */
  function PageLength(n: nat, offset: nat, pageSize: nat): (len: nat)
    ensures len <= pageSize
    ensures offset + len <= n || len == 0
    ensures len < pageSize ==> offset + len >= n
  {
    if offset >= n then 0 else if n - offset < pageSize then n - offset else pageSize
  }

  /** Two's-complement reduction of an integer to Go's 64-bit `int`. */
  function Wrap64(x: int): (r: Int64)
    ensures MinInt64 <= x <= MaxInt64 ==> r == x
    ensures (x - r) % 0x1_0000_0000_0000_0000 == 0
  {
    (x - MinInt64) % 0x1_0000_0000_0000_0000 + MinInt64
  }

  /**
   * The offset exactly as incident.go:141 computes it, in 64-bit arithmetic:
   * it is the true offset whenever that fits in 64 bits.
   */
  function OffsetAsWritten(page: Int64, pageSize: Int64): (o: Int64)
    ensures page >= 1 && MinInt64 <= Offset(page, pageSize) <= MaxInt64 ==> o == Offset(page, pageSize)
  {
    Wrap64(Wrap64(page - 1) * pageSize)
  }

  /**
   * A page and page size that both pass the service's clamping (page >= 1,
   * 1 <= pageSize <= 100) make the 64-bit offset negative, which Postgres
   * rejects ("OFFSET must not be negative").
   */
  lemma OffsetAsWrittenGoesNegative()
    ensures OffsetAsWritten(92233720368547760, 100) < 0
    ensures Offset(92233720368547760, 100) >= 0
  {
    assert Wrap64(92233720368547760 - 1) == 92233720368547759;
    assert 92233720368547759 * 100 == 9223372036854775900;
    assert Wrap64(9223372036854775900) == 9223372036854775900 - 0x1_0000_0000_0000_0000;
  }

  /**
   * The 64-bit offset can also wrap to a small positive value: page
   * 1106804644422573098 with page size 100 skips 4 rows instead of about
   * 1.1 * 10^20, so on any table of more than 4 rows the query returns a
   * non-empty page where the intended one is empty.
   */
  lemma OffsetAsWrittenWrapsToSmallOffset(n: nat)
    requires 4 < n <= MaxInt64
    ensures OffsetAsWritten(1106804644422573098, 100) == 4
    ensures Offset(1106804644422573098, 100) == 110680464442257309700
    ensures PageLength(n, 4, 100) > 0
    ensures PageLength(n, Offset(1106804644422573098, 100), 100) == 0
  {
    assert Wrap64(1106804644422573098 - 1) == 1106804644422573097;
    assert 1106804644422573097 * 100 == 110680464442257309700;
    assert 110680464442257309700 == 6 * 0x1_0000_0000_0000_0000 + 4;
    assert Wrap64(110680464442257309700) == 4;
  }

  /** The offset without overflow is never negative once page >= 1 and pageSize >= 0. */
  lemma OffsetNonNegative(page: int, pageSize: int)
    requires page >= 1 && pageSize >= 0
    ensures Offset(page, pageSize) >= 0
    ensures Offset(page, pageSize) == 0 <==> page == 1 || pageSize == 0
  {
    if page > 1 && pageSize > 0 {
      assert (page - 1) * pageSize >= pageSize by {
        assert (page - 1) * pageSize == (page - 2) * pageSize + pageSize;
        assert (page - 2) * pageSize >= 0;
      }
    }
  }

  class IncidentRepository {
    /** The `incidents` table, in insertion order. */
    var incidents: seq<Incident>
    /** The `location_checks` table, in insertion order. */
    var checks: seq<LocationCheck>
    /** The Redis key space used by the cache methods. */
    var cache: map<string, CacheEntry>
    /** The database's NOW(). */
    var clock: Time
    /** Every call made on the repository, oldest first. */
    ghost var calls: seq<Call>
    /** The geodesic containment test of ST_DWithin. */
    const within: WithinRadius

    ghost predicate Valid()
      reads this
    {
      && UniqueIds(incidents)
      && CreatedInOrder(incidents)
      && (forall k :: 0 <= k < |incidents| ==> incidents[k].createdAt <= clock)
      && (forall key :: key in cache ==> key == CacheKey(cache[key].snapshot.id))
    }

    constructor (within: WithinRadius, start: Time)
      ensures Valid()
      ensures incidents == [] && checks == [] && cache == map[] && clock == start && calls == []
      ensures this.within == within
    {
      this.within := within;
      incidents, checks, cache, clock, calls := [], [], map[], start, [];
    }

    /** Time passes: the database clock moves forward. */
    method AdvanceClock(t: Time)
      requires Valid() && clock <= t
      modifies this`clock
      ensures Valid() && clock == t
    {
      clock := t;
    }

    /**
     * INSERT ... RETURNING id, created_at, updated_at. `newId` is the UUID
     * the database generates; inserting an id that is already present violates
     * the primary key and fails like any other driver error. On success the
     * returned incident is the caller's struct after Scan.
     */
    method Create(incident: Incident, newId: Id, fail: bool) returns (r: Result<Incident, RepoError>)
      requires Valid()
      modifies this`incidents, this`calls
      ensures Valid()
      ensures calls == old(calls) + [Call.Create(incident)]
      ensures fail || Find(old(incidents), newId).Some? ==> r == Err(DbError) && incidents == old(incidents)
      ensures !fail && Find(old(incidents), newId).None? ==>
        && r == Ok(incident.(id := newId, createdAt := clock, updatedAt := clock))
        && incidents == old(incidents) + [r.value]
    {
      calls := calls + [Call.Create(incident)];
      if fail || Find(incidents, newId).Some? {
        return Err(DbError);
      }
      var row := incident.(id := newId, createdAt := clock, updatedAt := clock);
      incidents := incidents + [row];
      r := Ok(row);
    }

    /** SELECT ... WHERE id = $1: the row, or NotFound when there is none. */
    method GetByID(id: Id, fail: bool) returns (r: Result<Incident, RepoError>)
      modifies this`calls
      ensures calls == old(calls) + [Call.GetByID(id)]
      ensures fail ==> r == Err(DbError)
      ensures !fail && Find(incidents, id).None? ==> r == Err(NotFound(id))
      ensures !fail && Find(incidents, id).Some? ==> r == Ok(incidents[Find(incidents, id).value])
    {
      calls := calls + [Call.GetByID(id)];
      if fail {
        return Err(DbError);
      }
      match Find(incidents, id)
      case None => r := Err(NotFound(id));
      case Some(k) => r := Ok(incidents[k]);
    }

    /**
     * UPDATE ... WHERE id = $7: overwrites name, description, location,
     * radius and status, and stamps updated_at; zero rows affected is NotFound.
     */
    method Update(incident: Incident, fail: bool) returns (err: Option<RepoError>)
      requires Valid()
      modifies this`incidents, this`calls
      ensures Valid()
      ensures calls == old(calls) + [Call.Update(incident)]
      ensures fail ==> err == Some(DbError) && incidents == old(incidents)
      ensures !fail && Find(old(incidents), incident.id).None? ==>
        err == Some(NotFoundForUpdate(incident.id)) && incidents == old(incidents)
      ensures !fail && Find(old(incidents), incident.id).Some? ==>
        var k := Find(old(incidents), incident.id).value;
        err == None && incidents == old(incidents)[k := Revised(old(incidents)[k], incident, clock)]
    {
      calls := calls + [Call.Update(incident)];
      if fail {
        return Some(DbError);
      }
      match Find(incidents, incident.id)
      case None =>
        err := Some(NotFoundForUpdate(incident.id));
      case Some(k) =>
        incidents := incidents[k := Revised(incidents[k], incident, clock)];
        err := None;
    }

    /** Soft delete: status becomes 'inactive' and updated_at is stamped; the row stays. */
    method Delete(id: Id, fail: bool) returns (err: Option<RepoError>)
      requires Valid()
      modifies this`incidents, this`calls
      ensures Valid()
      ensures calls == old(calls) + [Call.Delete(id)]
      ensures |incidents| == |old(incidents)|
      ensures fail ==> err == Some(DbError) && incidents == old(incidents)
      ensures !fail && Find(old(incidents), id).None? ==>
        err == Some(NotFoundForDeactivate(id)) && incidents == old(incidents)
      ensures !fail && Find(old(incidents), id).Some? ==>
        var k := Find(old(incidents), id).value;
        err == None && incidents == old(incidents)[k := Deactivated(old(incidents)[k], clock)]
    {
      calls := calls + [Call.Delete(id)];
      if fail {
        return Some(DbError);
      }
      match Find(incidents, id)
      case None =>
        err := Some(NotFoundForDeactivate(id));
      case Some(k) =>
        incidents := incidents[k := Deactivated(incidents[k], clock)];
        err := None;
    }

    /**
     * SELECT ... ORDER BY created_at DESC LIMIT pageSize OFFSET (page-1)*pageSize.
     * Rows are created with a clock that never goes back, so reverse
     * insertion order is an order by created_at descending. Postgres refuses a
     * negative LIMIT or OFFSET.
     */
    method ListIncidents(page: int, pageSize: int, fail: bool) returns (r: Result<seq<Incident>, RepoError>)
      requires Valid()
      modifies this`calls
      ensures calls == old(calls) + [Call.ListIncidents(page, pageSize)]
      ensures fail || Offset(page, pageSize) < 0 || pageSize < 0 ==> r == Err(DbError)
      ensures !fail && Offset(page, pageSize) >= 0 && pageSize >= 0 ==>
        && r.Ok?
        && |r.value| == PageLength(|incidents|, Offset(page, pageSize), pageSize)
        && forall k :: 0 <= k < |r.value| ==> r.value[k] == incidents[|incidents| - 1 - (Offset(page, pageSize) + k)]
      ensures r.Ok? ==> forall a, b :: 0 <= a < b < |r.value| ==> r.value[a].createdAt >= r.value[b].createdAt
    {
      calls := calls + [Call.ListIncidents(page, pageSize)];
      var offset := Offset(page, pageSize);
      if fail || offset < 0 || pageSize < 0 {
        return Err(DbError);
      }
      var n := |incidents|;
      var rows: seq<Incident> := [];
      var i := offset;
      while i < n && i - offset < pageSize
        invariant offset <= i && (i <= n || i == offset)
        invariant |rows| == i - offset <= pageSize
        invariant forall k :: 0 <= k < |rows| ==> rows[k] == incidents[n - 1 - (offset + k)]
      {
        rows := rows + [incidents[n - 1 - i]];
        i := i + 1;
      }
      r := Ok(rows);
    }

    /** SELECT ... WHERE status = 'active' AND ST_DWithin(...), scanned row by row. */
    method FindActiveLocation(lat: Coordinate, lon: Coordinate, fail: bool) returns (r: Result<seq<Incident>, RepoError>)
      modifies this`calls
      ensures calls == old(calls) + [Call.FindActiveLocation(lat, lon)]
      ensures fail ==> r == Err(DbError)
      ensures !fail ==> r == Ok(ActiveWithin(within, incidents, lat, lon))
    {
      calls := calls + [Call.FindActiveLocation(lat, lon)];
      if fail {
        return Err(DbError);
      }
      var found: seq<Incident> := [];
      var i := 0;
      while i < |incidents|
        invariant 0 <= i <= |incidents|
        invariant found == ActiveWithin(within, incidents[..i], lat, lon)
      {
        assert incidents[..i + 1][..i] == incidents[..i];
        if ActiveAndWithin(within, incidents[i], lat, lon) {
          found := found + [incidents[i]];
        }
        i := i + 1;
      }
      assert incidents[..i] == incidents;
      r := Ok(found);
    }

    /** SELECT COUNT(DISTINCT user_id) ... WHERE checked_at >= NOW() - minutes. */
    method GetLocationCheckStats(minutes: int, fail: bool) returns (r: Result<int, RepoError>)
      modifies this`calls
      ensures calls == old(calls) + [Call.GetLocationCheckStats(minutes)]
      ensures fail ==> r == Err(DbError)
      ensures !fail ==> r == Ok(|RecentUsers(checks, StatsCutoff(clock, minutes))|)
    {
      calls := calls + [Call.GetLocationCheckStats(minutes)];
      if fail {
        return Err(DbError);
      }
      r := Ok(|RecentUsers(checks, StatsCutoff(clock, minutes))|);
    }

    /** INSERT INTO location_checks ... RETURNING id, checked_at. */
    method SaveLocationCheck(check: LocationCheck, fail: bool) returns (r: Result<LocationCheck, RepoError>)
      modifies this`checks, this`calls
      ensures calls == old(calls) + [Call.SaveLocationCheck(check)]
      ensures fail ==> r == Err(DbError) && checks == old(checks)
      ensures !fail ==>
        && r == Ok(check.(id := |old(checks)| + 1, checkedAt := clock))
        && checks == old(checks) + [r.value]
    {
      calls := calls + [Call.SaveLocationCheck(check)];
      if fail {
        return Err(DbError);
      }
      var saved := check.(id := |checks| + 1, checkedAt := clock);
      checks := checks + [saved];
      r := Ok(saved);
    }

    /** GET incident:<id>: a hit, a miss (no key: no incident and no error), or an error. */
    method GetIncidentFromCache(id: Id, fail: bool) returns (r: Result<Option<Incident>, RepoError>)
      modifies this`calls
      ensures calls == old(calls) + [Call.GetIncidentFromCache(id)]
      ensures fail ==> r == Err(CacheError)
      ensures !fail && CacheKey(id) !in cache ==> r == Ok(None)
      ensures !fail && CacheKey(id) in cache ==> r == Ok(Some(cache[CacheKey(id)].snapshot))
    {
      calls := calls + [Call.GetIncidentFromCache(id)];
      if fail {
        return Err(CacheError);
      }
      var key := CacheKey(id);
      if key in cache {
        r := Ok(Some(cache[key].snapshot));
      } else {
        r := Ok(None);
      }
    }

    /** SET incident:<id> with the five-minute TTL. */
    method SetIncidentCache(incident: Incident, fail: bool) returns (err: Option<RepoError>)
      requires Valid()
      modifies this`cache, this`calls
      ensures Valid()
      ensures calls == old(calls) + [Call.SetIncidentCache(incident)]
      ensures fail ==> err == Some(CacheError) && cache == old(cache)
      ensures !fail ==> err == None && cache == old(cache)[CacheKey(incident.id) := CacheEntry(incident, CacheTtlSeconds)]
    {
      calls := calls + [Call.SetIncidentCache(incident)];
      if fail {
        return Some(CacheError);
      }
      cache := cache[CacheKey(incident.id) := CacheEntry(incident, CacheTtlSeconds)];
      err := None;
    }

    /** DEL incident:<id>; deleting an absent key is not an error. */
    method InvalidateIncidentCache(id: Id, fail: bool) returns (err: Option<RepoError>)
      requires Valid()
      modifies this`cache, this`calls
      ensures Valid()
      ensures calls == old(calls) + [Call.InvalidateIncidentCache(id)]
      ensures fail ==> err == Some(CacheError) && cache == old(cache)
      ensures !fail ==> err == None && cache == old(cache) - {CacheKey(id)}
    {
      calls := calls + [Call.InvalidateIncidentCache(id)];
      if fail {
        return Some(CacheError);
      }
      cache := cache - {CacheKey(id)};
      err := None;
    }

    /** A successful SET followed by a GET of the same id returns the incident that was set. */
    method SetThenGet(incident: Incident, readFails: bool) returns (r: Result<Option<Incident>, RepoError>)
      requires Valid()
      modifies this`cache, this`calls
      ensures Valid()
      ensures !readFails ==> r == Ok(Some(incident))
      ensures CacheKey(incident.id) in cache && cache[CacheKey(incident.id)].ttlSeconds == CacheTtlSeconds
    {
      var _ := SetIncidentCache(incident, false);
      r := GetIncidentFromCache(incident.id, readFails);
    }

    /** After a successful invalidation a GET of the same id is a miss: no incident and no error. */
    method InvalidateThenGet(id: Id, readFails: bool) returns (r: Result<Option<Incident>, RepoError>)
      requires Valid()
      modifies this`cache, this`calls
      ensures Valid()
      ensures !readFails ==> r == Ok(None)
    {
      var _ := InvalidateIncidentCache(id, false);
      r := GetIncidentFromCache(id, readFails);
    }
  }
}
