/**
 * The incident service of internal/service/incident.go: cache-aside reads,
 * write-then-invalidate mutations, page clamping, and the location check that
 * queries the zones, writes the audit record and publishes a webhook event
 * when the point is dangerous. Which repository and queue calls fail is given
 * by a `Faults` record, one flag per kind of call.
 */
module Service {
  import opened Wrappers
  import opened Models
  import opened Repository
  import opened Publisher

  const DefaultPageSize: int := 20
  const MaxPageSize: int := 100

  /** Which of the calls an operation makes return an error. */
  datatype Faults = Faults(
    storeRead: bool,    // GetByID, ListIncidents, FindActiveLocation, GetLocationCheckStats
    storeWrite: bool,   // Create, Update, Delete, SaveLocationCheck
    cacheRead: bool,    // GetIncidentFromCache
    cacheWrite: bool,   // SetIncidentCache, InvalidateIncidentCache
    push: bool)         // the LPUSH inside Publish

  /** The service's wrapped errors, one per distinct message prefix. */
  datatype ServiceError =
    | CouldNotCreate(cause: RepoError)
    | CouldNotGet(cause: RepoError)
    | MissingForUpdate(id: Id, cause: RepoError)       // "incident with id %s not found for update"
    | CouldNotUpdate(cause: RepoError)
    | MissingForDeactivate(id: Id, cause: RepoError)   // "incident with id %s not found for deactivate"
    | CouldNotDeactivate(cause: RepoError)
    | CouldNotList(cause: RepoError)
    | FindActiveFailed(cause: RepoError)
    | StatsFailed(cause: RepoError)

  /** The error GetByID reports for `id`. */
  function LookupError(id: Id, fail: bool): RepoError {
    if fail then DbError else NotFound(id)
  }

  /** True when GetByID for `id` fails. */
  predicate LookupFails(rows: seq<Incident>, id: Id, fail: bool) {
    fail || Find(rows, id).None?
  }

  /**
   * `existing` with the six fields UpdateIncident copies from the request:
   * the stored id and timestamps stay, everything else is the request's.
   */
  function Overwritten(existing: Incident, incident: Incident): (r: Incident)
    ensures r.id == existing.id && r.createdAt == existing.createdAt && r.updatedAt == existing.updatedAt
    ensures r.(id := incident.id, createdAt := incident.createdAt, updatedAt := incident.updatedAt) == incident
  {
    existing.(name := incident.name, description := incident.description,
              latitude := incident.latitude, longitude := incident.longitude,
              radiusMeters := incident.radiusMeters, status := incident.status)
  }

  /** The page ListIncidents asks the repository for: at least 1, and the caller's page when that is. */
  function PageParameter(page: int): (p: int)
    ensures p >= 1
    ensures page >= 1 ==> p == page
  {
    if page < 1 then 1 else page
  }

  /** The page size ListIncidents asks the repository for: within 1..100, and the caller's size when that is. */
  function PageSizeParameter(pageSize: int): (s: int)
    ensures 1 <= s <= MaxPageSize
    ensures 1 <= pageSize <= MaxPageSize ==> s == pageSize
  {
    if pageSize < 1 || pageSize > MaxPageSize then DefaultPageSize else pageSize
  }

  /**
   * Clamping keeps in-range values and maps the rest to page 1 and 20 rows,
   * so the repository is only ever asked for a page >= 1 of 1..100 rows, and
   * the offset it skips is never negative.
   */
  lemma {:induction false} ClampedQueryIsWellFormed(page: int, pageSize: int)
    ensures var p, s := PageParameter(page), PageSizeParameter(pageSize);
      && p >= 1 && 1 <= s <= MaxPageSize
      && (page >= 1 ==> p == page) && (page < 1 ==> p == 1)
      && (1 <= pageSize <= MaxPageSize ==> s == pageSize)
      && (pageSize < 1 || pageSize > MaxPageSize ==> s == DefaultPageSize)
      && Offset(p, s) >= 0
  {
    OffsetNonNegative(PageParameter(page), PageSizeParameter(pageSize));
  }

  /**
   * The audit record CheckLocation hands to SaveLocationCheck: the caller's
   * user and point, flagged dangerous exactly when some zone was found.
   */
  function AuditRecord(userId: string, lat: Coordinate, lon: Coordinate, found: seq<Incident>): (c: LocationCheck)
    ensures c.userId == userId && c.latitude == lat && c.longitude == lon
    ensures c.isDangerous <==> found != []
  {
    LocationCheck(0, userId, lat, lon, |found| > 0, ZeroTime)
  }

  class IncidentService {
    const repo: IncidentRepository
    const publisher: RedisWebhookPublisher
    /** cfg.StatsTimeWindowMinutes */
    const statsTimeWindowMinutes: int

    ghost predicate Valid()
      reads repo
    {
      repo.Valid()
    }

    constructor (repo: IncidentRepository, publisher: RedisWebhookPublisher, statsTimeWindowMinutes: int)
      ensures this.repo == repo && this.publisher == publisher
      ensures this.statsTimeWindowMinutes == statsTimeWindowMinutes
    {
      this.repo, this.publisher := repo, publisher;
      this.statsTimeWindowMinutes := statsTimeWindowMinutes;
    }

    /**
     * Forces the status to "active", stores the incident, and only after the
     * store succeeds invalidates the new id's cache entry; an invalidation
     * error does not fail the call. `newId` is the UUID the database
     * generates. `written` is the caller's struct after the call.
     */
    method CreateIncident(incident: Incident, newId: Id, f: Faults) returns (err: Option<ServiceError>, written: Incident)
      requires Valid()
      modifies repo`incidents, repo`calls, repo`cache
      ensures Valid()
      ensures var submitted := incident.(status := ActiveStatus);
        if f.storeWrite || Find(old(repo.incidents), newId).Some? then
          && err == Some(CouldNotCreate(DbError)) && written == submitted
          && repo.incidents == old(repo.incidents) && repo.cache == old(repo.cache)
          && repo.calls == old(repo.calls) + [Call.Create(submitted)]
        else
          && err == None
          && written == submitted.(id := newId, createdAt := repo.clock, updatedAt := repo.clock)
          && repo.incidents == old(repo.incidents) + [written]
          && repo.calls == old(repo.calls) + [Call.Create(submitted), Call.InvalidateIncidentCache(newId)]
          && repo.cache == if f.cacheWrite then old(repo.cache) else old(repo.cache) - {CacheKey(newId)}
    {
      written := incident.(status := ActiveStatus);
      var created := repo.Create(written, newId, f.storeWrite);
      if created.Err? {
        return Some(CouldNotCreate(created.error)), written;
      }
      written := created.value;
      var _ := repo.InvalidateIncidentCache(written.id, f.cacheWrite);
      err := None;
    }

    /**
     * Cache-aside read: a cache hit is returned as it is; a miss or a cache
     * error falls through to the store, whose result is written back to the
     * cache, best effort.
     */
    method GetIncident(id: Id, f: Faults) returns (r: Result<Incident, ServiceError>)
      requires Valid()
      modifies repo`calls, repo`cache
      ensures Valid()
      ensures r.Ok? ==> r.value.id == id
      ensures !f.cacheRead && CacheKey(id) in old(repo.cache) ==>
        && r == Ok(old(repo.cache)[CacheKey(id)].snapshot)
        && repo.calls == old(repo.calls) + [Call.GetIncidentFromCache(id)]
        && repo.cache == old(repo.cache)
      ensures (f.cacheRead || CacheKey(id) !in old(repo.cache)) && LookupFails(repo.incidents, id, f.storeRead) ==>
        && r == Err(CouldNotGet(LookupError(id, f.storeRead)))
        && repo.calls == old(repo.calls) + [Call.GetIncidentFromCache(id), Call.GetByID(id)]
        && repo.cache == old(repo.cache)
      ensures (f.cacheRead || CacheKey(id) !in old(repo.cache)) && !LookupFails(repo.incidents, id, f.storeRead) ==>
        var row := repo.incidents[Find(repo.incidents, id).value];
        && r == Ok(row)
        && repo.calls == old(repo.calls) + [Call.GetIncidentFromCache(id), Call.GetByID(id), Call.SetIncidentCache(row)]
        && repo.cache == if f.cacheWrite then old(repo.cache) else old(repo.cache)[CacheKey(id) := CacheEntry(row, CacheTtlSeconds)]
    {
      var cached := repo.GetIncidentFromCache(id, f.cacheRead);
      if cached.Ok? && cached.value.Some? {
        CacheKeyInjective(id, cached.value.value.id);
        return Ok(cached.value.value);
      }
      var stored := repo.GetByID(id, f.storeRead);
      if stored.Err? {
        return Err(CouldNotGet(stored.error));
      }
      var _ := repo.SetIncidentCache(stored.value, f.cacheWrite);
      r := Ok(stored.value);
    }

    /**
     * Reads the existing record (a failed read of any kind is reported as
     * "not found for update"), overwrites its six editable fields, stores it,
     * and only after the store succeeds invalidates the cache entry.
     */
    method UpdateIncident(incident: Incident, f: Faults) returns (err: Option<ServiceError>)
      requires Valid()
      modifies repo`incidents, repo`calls, repo`cache
      ensures Valid()
      ensures LookupFails(old(repo.incidents), incident.id, f.storeRead) ==>
        && err == Some(MissingForUpdate(incident.id, LookupError(incident.id, f.storeRead)))
        && repo.incidents == old(repo.incidents) && repo.cache == old(repo.cache)
        && repo.calls == old(repo.calls) + [Call.GetByID(incident.id)]
      ensures !LookupFails(old(repo.incidents), incident.id, f.storeRead) ==>
        var k := Find(old(repo.incidents), incident.id).value;
        var existing := old(repo.incidents)[k];
        var calls := old(repo.calls) + [Call.GetByID(incident.id), Call.Update(Overwritten(existing, incident))];
        if f.storeWrite then
          && err == Some(CouldNotUpdate(DbError))
          && repo.incidents == old(repo.incidents) && repo.cache == old(repo.cache)
          && repo.calls == calls
        else
          && err == None
          && repo.incidents == old(repo.incidents)[k := Revised(existing, incident, repo.clock)]
          && repo.calls == calls + [Call.InvalidateIncidentCache(incident.id)]
          && repo.cache == if f.cacheWrite then old(repo.cache) else old(repo.cache) - {CacheKey(incident.id)}
    {
      var existing := repo.GetByID(incident.id, f.storeRead);
      if existing.Err? {
        return Some(MissingForUpdate(incident.id, existing.error));
      }
      var revised := Overwritten(existing.value, incident);
      var updateErr := repo.Update(revised, f.storeWrite);
      if updateErr.Some? {
        return Some(CouldNotUpdate(updateErr.value));
      }
      var _ := repo.InvalidateIncidentCache(incident.id, f.cacheWrite);
      err := None;
    }

    /**
     * Reads the record (a failed read is reported as "not found for
     * deactivate"), soft-deletes it, and only then invalidates the cache entry.
     */
    method DeactivateIncident(id: Id, f: Faults) returns (err: Option<ServiceError>)
      requires Valid()
      modifies repo`incidents, repo`calls, repo`cache
      ensures Valid()
      ensures LookupFails(old(repo.incidents), id, f.storeRead) ==>
        && err == Some(MissingForDeactivate(id, LookupError(id, f.storeRead)))
        && repo.incidents == old(repo.incidents) && repo.cache == old(repo.cache)
        && repo.calls == old(repo.calls) + [Call.GetByID(id)]
      ensures !LookupFails(old(repo.incidents), id, f.storeRead) ==>
        var k := Find(old(repo.incidents), id).value;
        var calls := old(repo.calls) + [Call.GetByID(id), Call.Delete(id)];
        if f.storeWrite then
          && err == Some(CouldNotDeactivate(DbError))
          && repo.incidents == old(repo.incidents) && repo.cache == old(repo.cache)
          && repo.calls == calls
        else
          && err == None
          && repo.incidents == old(repo.incidents)[k := Deactivated(old(repo.incidents)[k], repo.clock)]
          && repo.calls == calls + [Call.InvalidateIncidentCache(id)]
          && repo.cache == if f.cacheWrite then old(repo.cache) else old(repo.cache) - {CacheKey(id)}
    {
      var existing := repo.GetByID(id, f.storeRead);
      if existing.Err? {
        return Some(MissingForDeactivate(id, existing.error));
      }
      var deleteErr := repo.Delete(id, f.storeWrite);
      if deleteErr.Some? {
        return Some(CouldNotDeactivate(deleteErr.value));
      }
      var _ := repo.InvalidateIncidentCache(id, f.cacheWrite);
      err := None;
    }

    /**
     * Clamps the page parameters and lists. Because of the clamping the
     * repository's refusal of a negative OFFSET or LIMIT never happens: the
     * call fails exactly when the store does.
     */
    method ListIncidents(page: Int64, pageSize: Int64, f: Faults) returns (r: Result<seq<Incident>, ServiceError>)
      requires Valid()
      modifies repo`calls
      ensures repo.calls == old(repo.calls) + [Call.ListIncidents(PageParameter(page), PageSizeParameter(pageSize))]
      ensures r.Err? <==> f.storeRead
      ensures r.Err? ==> r.error == CouldNotList(DbError)
      ensures r.Ok? ==>
        var offset := Offset(PageParameter(page), PageSizeParameter(pageSize));
        && offset >= 0
        && |r.value| == PageLength(|repo.incidents|, offset, PageSizeParameter(pageSize))
        && (forall k :: 0 <= k < |r.value| ==> r.value[k] == repo.incidents[|repo.incidents| - 1 - (offset + k)])
        && (forall a, b :: 0 <= a < b < |r.value| ==> r.value[a].createdAt >= r.value[b].createdAt)
    {
      var p: int := page;
      var s: int := pageSize;
      if p < 1 {
        p := 1;
      }
      if s < 1 || s > MaxPageSize {
        s := DefaultPageSize;
      }
      ClampedQueryIsWellFormed(page, pageSize);
      var rows := repo.ListIncidents(p, s, f.storeRead);
      if rows.Err? {
        return Err(CouldNotList(rows.error));
      }
      r := Ok(rows.value);
    }

    /**
     * The location check: the containment query is the only failure that
     * reaches the caller. Otherwise exactly one audit record is attempted,
     * flagged dangerous iff the query found something, an event is published
     * iff it found something, and the found list is returned whatever the
     * audit write or the publish did. `now` is time.Now().
     */
    method CheckLocation(userId: string, lat: Coordinate, lon: Coordinate, now: Time, f: Faults)
      returns (r: Result<seq<Incident>, ServiceError>)
      requires Valid()
      modifies repo`calls, repo`checks, publisher`published, publisher.queue
      ensures Valid()
      ensures f.storeRead ==>
        && r == Err(FindActiveFailed(DbError))
        && repo.calls == old(repo.calls) + [Call.FindActiveLocation(lat, lon)]
        && repo.checks == old(repo.checks)
        && publisher.published == old(publisher.published)
        && publisher.queue.items == old(publisher.queue.items)
      ensures !f.storeRead ==>
        var found := ActiveWithin(repo.within, repo.incidents, lat, lon);
        var check := AuditRecord(userId, lat, lon, found);
        var event := WebhookEvent(userId, lat, lon, true, now, found);
        && r == Ok(found)
        && repo.calls == old(repo.calls) + [Call.FindActiveLocation(lat, lon), Call.SaveLocationCheck(check)]
        && repo.checks == old(repo.checks) + (if f.storeWrite then [] else [check.(id := |old(repo.checks)| + 1, checkedAt := repo.clock)])
        && publisher.published == old(publisher.published) + (if |found| > 0 then [event] else [])
        && publisher.queue.items ==
             if |found| > 0 && !f.push && publisher.codec.encode(event).Some?
             then [publisher.codec.encode(event).value] + old(publisher.queue.items)
             else old(publisher.queue.items)
    {
      var active := repo.FindActiveLocation(lat, lon, f.storeRead);
      if active.Err? {
        return Err(FindActiveFailed(active.error));
      }
      var found := active.value;
      var isDanger := |found| > 0;
      var check := LocationCheck(0, userId, lat, lon, isDanger, ZeroTime);
      var _ := repo.SaveLocationCheck(check, f.storeWrite);
      if isDanger {
        var event := WebhookEvent(userId, lat, lon, isDanger, now, found);
        var _ := publisher.Publish(event, f.push);
      }
      r := Ok(found);
    }

    /**
     * Read-your-writes through the cache: once an update is stored and its
     * cache entry invalidated, the next read returns the revised row, whatever
     * the earlier cached snapshot held and whether or not the cache can be read.
     */
    method ReadAfterUpdate(incident: Incident, update: Faults, read: Faults)
      returns (err: Option<ServiceError>, r: Result<Incident, ServiceError>)
      requires Valid()
      requires Find(repo.incidents, incident.id).Some?
      requires !update.storeRead && !update.storeWrite && !update.cacheWrite && !read.storeRead
      modifies repo`incidents, repo`calls, repo`cache
      ensures Valid()
      ensures err == None
      ensures r == Ok(Revised(old(repo.incidents)[Find(old(repo.incidents), incident.id).value], incident, repo.clock))
    {
      ghost var k := Find(repo.incidents, incident.id).value;
      ghost var rows := repo.incidents;
      err := UpdateIncident(incident, update);
      FindAfterRewrite(rows, k, Revised(rows[k], incident, repo.clock), incident.id);
      r := GetIncident(incident.id, read);
    }

    /** After a successful deactivation and invalidation, a read sees the incident as inactive. */
    method ReadAfterDeactivate(id: Id, deactivate: Faults, read: Faults)
      returns (err: Option<ServiceError>, r: Result<Incident, ServiceError>)
      requires Valid()
      requires Find(repo.incidents, id).Some?
      requires !deactivate.storeRead && !deactivate.storeWrite && !deactivate.cacheWrite && !read.storeRead
      modifies repo`incidents, repo`calls, repo`cache
      ensures Valid()
      ensures err == None
      ensures r.Ok? && r.value.status == InactiveStatus && r.value.updatedAt == repo.clock
    {
      ghost var k := Find(repo.incidents, id).value;
      ghost var rows := repo.incidents;
      err := DeactivateIncident(id, deactivate);
      FindAfterRewrite(rows, k, Deactivated(rows[k], repo.clock), id);
      r := GetIncident(id, read);
    }

    /** The number of distinct users who checked their location within the configured window. */
    method GetStats(f: Faults) returns (r: Result<int, ServiceError>)
      modifies repo`calls
      ensures repo.calls == old(repo.calls) + [Call.GetLocationCheckStats(statsTimeWindowMinutes)]
      ensures f.storeRead ==> r == Err(StatsFailed(DbError))
      ensures !f.storeRead ==> r == Ok(|RecentUsers(repo.checks, StatsCutoff(repo.clock, statsTimeWindowMinutes))|)
    {
      var count := repo.GetLocationCheckStats(statsTimeWindowMinutes, f.storeRead);
      match count
      case Err(e) => r := Err(StatsFailed(e));
      case Ok(n) => r := Ok(n);
    }
  }
}
