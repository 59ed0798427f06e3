/** The sync state store: the config with the two secrets and the cache holding `lastSyncTime`,
    both in the storage directory, and the legacy single-file state that older versions wrote
    beside it. */
module Storage {
  import opened Util
  import Calendar

  /** The service every request goes to; it is not configurable. */
  const API_URL: string := "https://claude-github-stats.vercel.app"

  /** Ten minutes, in milliseconds: the least time between two incremental syncs. */
  const SYNC_INTERVAL: int := 10 * 60 * 1000

  /** The cache field that records when the last sync finished. */
  const LAST_SYNC_TIME: string := "lastSyncTime"

  const WIDGET_PATH: string := "/api/w/"
  const WIDGET_EXTENSION: string := ".svg"

  /** A JSON file of the store: absent, present but unreadable or not valid JSON, or its value. */
  datatype Doc<T> = Missing | Corrupt | Present(value: T)

  /** The two secrets of the config; "" stands for a field that is absent or empty. */
  datatype Config = Config(writeToken: string, publicId: string)

  /** The numeric fields of the cache object, by name. */
  type Cache = map<string, int>

  /** Both secrets are present. */
  predicate HasCredentials(c: Config)
  {
    c.writeToken != "" && c.publicId != ""
  }

  /** The widget address for a public id. */
  function WidgetUrlFor(publicId: string): (url: string)
    ensures StartsWith(url, API_URL + WIDGET_PATH) && EndsWith(url, WIDGET_EXTENSION)
    ensures |url| == |API_URL + WIDGET_PATH| + |publicId| + |WIDGET_EXTENSION|
    ensures url[|API_URL + WIDGET_PATH|..|url| - |WIDGET_EXTENSION|] == publicId
  {
    var url := API_URL + WIDGET_PATH + publicId + WIDGET_EXTENSION;
    assert url[..|API_URL + WIDGET_PATH|] == API_URL + WIDGET_PATH;
    assert url[|url| - |WIDGET_EXTENSION|..] == WIDGET_EXTENSION;
    url
  }

  /** Distinct public ids get distinct widget addresses. */
  lemma WidgetUrlInjective(a: string, b: string)
    ensures WidgetUrlFor(a) == WidgetUrlFor(b) <==> a == b
  {
    if WidgetUrlFor(a) == WidgetUrlFor(b) {
      var n := |API_URL + WIDGET_PATH|;
      var m := |WidgetUrlFor(a)| - |WIDGET_EXTENSION|;
      assert a == WidgetUrlFor(a)[n..m] == WidgetUrlFor(b)[n..m] == b;
    }
  }

  /** The two JSON files of the storage directory `~/.claude-stats`, `config.json` and
      `cache.json`, and the legacy state file `~/.claude-stats-state` beside it. */
  class Store {
    var config: Doc<Config>
    var cache: Doc<Cache>
    var legacy: Doc<Config>

    constructor (config: Doc<Config>, cache: Doc<Cache>, legacy: Doc<Config>)
      ensures this.config == config && this.cache == cache && this.legacy == legacy
    {
      this.config := config;
      this.cache := cache;
      this.legacy := legacy;
    }

    /** The config, or None when the file is missing or cannot be parsed; reading never fails. */
    function ReadConfig(): (r: Option<Config>)
      reads this
      ensures r.Some? <==> config.Present?
      ensures r.Some? ==> r.value == config.value
    {
      if config.Present? then Some(config.value) else None
    }

    /** The cache, or the empty object when the file is missing or cannot be parsed. */
    function ReadCache(): (r: Cache)
      reads this
      ensures cache.Present? ==> r == cache.value
      ensures !cache.Present? ==> r == map[]
    {
      if cache.Present? then cache.value else map[]
    }

    /** A config exists and holds both secrets. */
    predicate IsRegistered()
      reads this
      ensures IsRegistered() <==> config.Present? && config.value.writeToken != "" && config.value.publicId != ""
    {
      ReadConfig().Some? && HasCredentials(ReadConfig().value)
    }

    /** The widget address, None when there is no config or it has no public id. */
    function WidgetUrl(): (r: Option<string>)
      reads this
      ensures r.None? <==> !config.Present? || config.value.publicId == ""
      ensures r.Some? ==> r.value == WidgetUrlFor(config.value.publicId)
    {
      var c := ReadConfig();
      if c.None? || c.value.publicId == "" then None else Some(WidgetUrlFor(c.value.publicId))
    }

    /** `lastSyncTime || 0` */
    function LastSyncTime(): (t: int)
      reads this
      ensures LAST_SYNC_TIME in ReadCache() ==> t == ReadCache()[LAST_SYNC_TIME]
      ensures LAST_SYNC_TIME !in ReadCache() ==> t == 0
    {
      var c := ReadCache();
      if LAST_SYNC_TIME in c && c[LAST_SYNC_TIME] != 0 then c[LAST_SYNC_TIME] else 0
    }

    /** A sync is due when none was ever recorded (absent or 0) or when at least the sync interval
        has passed since the recorded one. */
    predicate ShouldSync(now: int)
      reads this
      ensures ShouldSync(now) <==> LastSyncTime() == 0 || now - LastSyncTime() >= SYNC_INTERVAL
    {
      var c := ReadCache();
      if LAST_SYNC_TIME !in c || c[LAST_SYNC_TIME] == 0 then true
      else now - c[LAST_SYNC_TIME] >= SYNC_INTERVAL
    }

    /** The UTC day of the last sync, None when none was recorded; fails as `toISOString` does
        when the recorded time is out of range. */
    function LastSyncDate(): (r: Result<Option<string>>)
      reads this
      ensures r == Success(None) <==> LastSyncTime() == 0
      ensures LastSyncTime() != 0 ==> (r.Success? <==> -Calendar.MAX_TIME_MS <= LastSyncTime() <= Calendar.MAX_TIME_MS)
      ensures LastSyncTime() != 0 && r.Success? ==> r.value == Some(Calendar.IsoDay(LastSyncTime()).value)
                                                     && |r.value.value| == 10
    {
      var t := LastSyncTime();
      if t == 0 then Success(None)
      else
        var day := Calendar.IsoDay(t);
        if day.Failure? then Failure(day.error) else Success(Some(day.value))
    }

    method WriteConfig(c: Config)
      modifies this`config
      ensures config == Present(c)
    {
      config := Present(c);
    }

    method WriteCache(c: Cache)
      modifies this`cache
      ensures cache == Present(c)
    {
      cache := Present(c);
    }

    /** Records `now` as the last sync time; the other cache fields are kept, and a cache that
        could not be read is replaced. Right afterwards no sync is due unless `now` is 0, which
        reads as "never synced". */
    method UpdateSyncTime(now: int)
      modifies this`cache
      ensures cache == Present(old(ReadCache())[LAST_SYNC_TIME := now])
      ensures LastSyncTime() == now
      ensures ShouldSync(now) <==> now == 0
    {
      var c := ReadCache();
      c := c[LAST_SYNC_TIME := now];
      WriteCache(c);
    }

    /** Moves the secrets of the legacy state file into the config. Without a legacy file nothing
        happens; a legacy file that cannot be parsed is left in place; otherwise the config is
        written when both secrets are present, the legacy file is removed, and the result is true. */
    method MigrateFromOldFormat() returns (migrated: bool)
      modifies this`config, this`legacy
      ensures migrated <==> old(legacy).Present?
      ensures !old(legacy).Present? ==> config == old(config) && legacy == old(legacy)
      ensures old(legacy).Present? ==> legacy == Missing
      ensures old(legacy).Present? && HasCredentials(old(legacy).value) ==> config == Present(old(legacy).value)
      ensures old(legacy).Present? && !HasCredentials(old(legacy).value) ==> config == old(config)
    {
      if legacy.Missing? {
        return false;
      }
      if legacy.Corrupt? {
        return false;
      }
      var oldState := legacy.value;
      if oldState.writeToken != "" && oldState.publicId != "" {
        WriteConfig(Config(oldState.writeToken, oldState.publicId));
      }
      legacy := Missing;
      return true;
    }
  }

  /** Once a sync time `t` other than 0 is recorded, a sync is due again exactly when the clock
      has moved at least the sync interval past `t`. */
  lemma SyncGate(s: Store, t: int, now: int)
    requires s.cache.Present? && LAST_SYNC_TIME in s.cache.value && s.cache.value[LAST_SYNC_TIME] == t && t != 0
    ensures s.ShouldSync(now) <==> now >= t + SYNC_INTERVAL
  {
  }

  /** A store whose config holds both secrets has a widget address built from its public id. */
  lemma RegisteredHasWidget(s: Store)
    requires s.IsRegistered()
    ensures s.WidgetUrl() == Some(WidgetUrlFor(s.config.value.publicId))
  {
  }
}
