/** The two commands that talk to the stats service: the incremental sync run by the session hook
    and the one-time setup. The service is seen only through the calls made to it and their
    outcomes, which are parameters. */
module Commands {
  import opened Util
  import opened Parser
  import opened Storage
  import Calendar

  /** A request sent to the stats service. */
  datatype Call =
    | Register
    | Upload(publicId: string, writeToken: string, records: Records)

  /** What a successful registration returns. */
  datatype Registration = Registration(publicId: string, writeToken: string, widgetUrl: string)

  /** How setup ends: it stops early for a registered user, completes, or fails (and the process
      exits with status 1). */
  datatype SetupOutcome = AlreadyRegistered | Completed | Failed

  /** Incremental sync. It does nothing until the sync interval has passed, or for an unregistered
      user. Otherwise it extracts the records of the files modified since the last sync time, from
      the day of the last sync on, and uploads them once with the stored secrets. The sync time
      moves to `syncedAt` when there was nothing to upload or the upload succeeded; a failed upload,
      like an unreadable last sync time, is swallowed and leaves the store as it was. */
  method RunSync(store: Store, dir: string, root: Node, now: int, uploadSucceeds: bool, syncedAt: int)
    returns (calls: seq<Call>)
    modifies store`cache
    ensures store.config == old(store.config) && store.legacy == old(store.legacy)
    ensures !old(store.ShouldSync(now)) || !old(store.IsRegistered()) ==> calls == [] && store.cache == old(store.cache)
    ensures (old(store.ShouldSync(now)) && old(store.IsRegistered()) && old(store.LastSyncDate()).Failure?)
              ==> calls == [] && store.cache == old(store.cache)
    ensures old(store.ShouldSync(now)) && old(store.IsRegistered()) && old(store.LastSyncDate()).Success? ==>
              var records := ModifiedRecords(dir, root, old(store.LastSyncTime()), old(store.LastSyncDate()).value);
              && calls == (if records == map[] then [] else [Upload(old(store.config).value.publicId, old(store.config).value.writeToken, records)])
              && store.cache == (if records == map[] || uploadSucceeds
                                 then Present(old(store.ReadCache())[LAST_SYNC_TIME := syncedAt])
                                 else old(store.cache))
  {
    calls := [];
    if !store.ShouldSync(now) {
      return;
    }
    var config := store.ReadConfig();
    if config.None? || config.value.writeToken == "" || config.value.publicId == "" {
      return;
    }
    var lastSyncTime := store.LastSyncTime();
    var lastSyncDate := store.LastSyncDate();
    if lastSyncDate.Failure? {
      return;
    }
    var records := ParseModifiedToRecords(dir, root, lastSyncTime, lastSyncDate.value);
    if records == map[] {
      store.UpdateSyncTime(syncedAt);
      return;
    }
    calls := [Upload(config.value.publicId, config.value.writeToken, records)];
    if uploadSucceeds {
      store.UpdateSyncTime(syncedAt);
    }
  }

  /** Setup. A registered user is only shown the existing widget. Otherwise it registers, stores
      the returned secrets, extracts every record and uploads them in one call, and records the
      sync time only once the upload has succeeded. A failed registration writes nothing; a failed
      upload leaves the secrets stored and the cache untouched. */
  method RunSetup(store: Store, dir: string, root: Node, registration: Option<Registration>, uploadSucceeds: bool, syncedAt: int)
    returns (outcome: SetupOutcome, calls: seq<Call>)
    modifies store`config, store`cache
    ensures store.legacy == old(store.legacy)
    ensures old(store.IsRegistered()) ==>
              outcome == AlreadyRegistered && calls == [] && store.config == old(store.config) && store.cache == old(store.cache)
    ensures !old(store.IsRegistered()) && registration.None? ==>
              outcome == Failed && calls == [Register] && store.config == old(store.config) && store.cache == old(store.cache)
    ensures !old(store.IsRegistered()) && registration.Some? ==>
              var r := registration.value;
              && store.config == Present(Config(r.writeToken, r.publicId))
              && calls == [Register, Upload(r.publicId, r.writeToken, AllRecords(dir, root))]
              && outcome == (if uploadSucceeds then Completed else Failed)
              && store.cache == (if uploadSucceeds then Present(old(store.ReadCache())[LAST_SYNC_TIME := syncedAt]) else old(store.cache))
  {
    if store.IsRegistered() {
      return AlreadyRegistered, [];
    }
    calls := [Register];
    if registration.None? {
      return Failed, calls;
    }
    var result := registration.value;
    store.WriteConfig(Config(result.writeToken, result.publicId));
    var records := ParseAllToRecords(dir, root);
    calls := calls + [Upload(result.publicId, result.writeToken, records)];
    if !uploadSucceeds {
      return Failed, calls;
    }
    store.UpdateSyncTime(syncedAt);
    outcome := Completed;
  }

  /** Starting from an empty storage directory, a setup whose upload fails keeps the secrets but
      records no sync time, so running setup again stops at the registration check and uploads
      nothing. The next incremental sync is due at once and, with no sync time and no date floor,
      uploads the records of every file modified after time 0. */
  method SetupRetryAfterFailedUpload(dir: string, root: Node, r: Registration, now: int, syncedAt: int)
    returns (first: SetupOutcome, second: SetupOutcome, retryCalls: seq<Call>, syncCalls: seq<Call>)
    requires r.writeToken != "" && r.publicId != ""
    ensures first == Failed && second == AlreadyRegistered && retryCalls == []
    ensures var records := ModifiedRecords(dir, root, 0, None);
            syncCalls == if records == map[] then [] else [Upload(r.publicId, r.writeToken, records)]
  {
    var store := new Store(Missing, Missing, Missing);
    var calls;
    first, calls := RunSetup(store, dir, root, Some(r), false, syncedAt);
    second, retryCalls := RunSetup(store, dir, root, Some(r), true, syncedAt);
    syncCalls := RunSync(store, dir, root, now, true, syncedAt);
  }

  /** For years 0..9999, the date floor of an incremental sync works on whole UTC days: an event
      whose timestamp starts with the ISO day of time `t` is kept exactly when `t` falls on the day
      of the last sync or later. Events earlier on that same day pass the floor as well. */
  lemma DateFloorByDay(s: Store, line: LogLine, t: int)
    requires s.LastSyncTime() != 0 && Calendar.FourDigitYear(s.LastSyncTime()) && Calendar.FourDigitYear(t)
    requires IsUsageEvent(line) && StartsWith(line.event.timestamp.value, Calendar.IsoDay(t).value)
    ensures s.LastSyncDate().Success?
    ensures Extract(line, s.LastSyncDate().value).Some? <==> t / Calendar.MS_PER_DAY >= s.LastSyncTime() / Calendar.MS_PER_DAY
  {
    var floor := Calendar.IsoDay(s.LastSyncTime()).value;
    var day := Calendar.IsoDay(t).value;
    assert Take(line.event.timestamp.value, DAY_LENGTH) == day;
    Calendar.IsoDayChronological(t, s.LastSyncTime());
    assert PassesDateFloor(day, Some(floor)) <==> t / Calendar.MS_PER_DAY >= s.LastSyncTime() / Calendar.MS_PER_DAY;
  }
}
