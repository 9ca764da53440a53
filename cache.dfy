/**
 * What every reader does before it answers: `refresh_if_needed`. The clock
 * is the parameter `now` (an instant in some unit), the cache time a
 * duration in the same unit, and the file system the map `Files` from a path
 * to the text of a readable file; a path outside it stands for any error of
 * `read_to_string` (missing file, no permission, invalid UTF-8).
 */
module Cache {
  import opened Wrappers

  type Files = map<string, string>

  /** `std::io::Error`; its kind is not modelled. */
  datatype IoError = IoError

  /** `Result<T, std::io::Error>`. */
  datatype IoResult<T> = Ok(value: T) | Err(error: IoError)

  /** `read_to_string(path)`. */
  function ReadToString(fs: Files, path: string): (r: IoResult<string>)
    ensures r.Ok? <==> path in fs
    ensures r.Ok? ==> r.value == fs[path]
  {
    if path in fs then Ok(fs[path]) else Err(IoError)
  }

  /** `file.unwrap_or(default)`: the configured file, or the system default. */
  function PathOr(file: Option<string>, default: string): (p: string)
    ensures file.None? ==> p == default
    ensures file.Some? ==> p == file.value
  {
    match file
    case Some(f) => f
    case None => default
  }

  /** `now < last_check + cache_time`: the records may be served without a read. */
  predicate IsFresh(lastCheck: int, cacheTime: nat, now: int)
  {
    now < lastCheck + cacheTime
  }

  /** Outcome of `refresh_if_needed` and the records held afterwards. */
  datatype Refreshed<R> = Refreshed(status: IoResult<()>, records: seq<R>)

  /**
   * `refresh_if_needed`: when fresh, nothing is read; otherwise the file at
   * `path` is read and, if that succeeds, the records are replaced by what
   * `load` makes of its text; on a read error the records stay as they were.
   * `last_check` is never advanced.
   */
  function Refresh<R>(records: seq<R>, lastCheck: int, cacheTime: nat, now: int,
                      fs: Files, path: string, load: string -> seq<R>): Refreshed<R>
  {
    if IsFresh(lastCheck, cacheTime, now) then Refreshed(Ok(()), records)
    else
      match ReadToString(fs, path)
      case Err(e) => Refreshed(Err(e), records)
      case Ok(contents) => Refreshed(Ok(()), load(contents))
  }

  /** `refresh_if_needed()?; Ok(value)`: the value, unless the refresh failed. */
  function Then<T>(status: IoResult<()>, value: T): (r: IoResult<T>)
    ensures r.Ok? <==> status.Ok?
    ensures r.Ok? ==> r.value == value
  {
    match status
    case Err(e) => Err(e)
    case Ok(_) => Ok(value)
  }

  /** A cache hit reads nothing: the records stay, whatever the files hold. */
  lemma RefreshWhenFresh<R>(records: seq<R>, lastCheck: int, cacheTime: nat, now: int,
                            fs: Files, path: string, load: string -> seq<R>)
    requires IsFresh(lastCheck, cacheTime, now)
    ensures Refresh(records, lastCheck, cacheTime, now, fs, path, load) == Refreshed(Ok(()), records)
  {
  }

  /** When stale and the read succeeds, the records become exactly what the file says. */
  lemma RefreshWhenStale<R>(records: seq<R>, lastCheck: int, cacheTime: nat, now: int,
                            fs: Files, path: string, load: string -> seq<R>)
    requires !IsFresh(lastCheck, cacheTime, now) && path in fs
    ensures Refresh(records, lastCheck, cacheTime, now, fs, path, load) == Refreshed(Ok(()), load(fs[path]))
  {
  }

  /** When stale and the read fails, the error is returned and the records stay. */
  lemma RefreshWhenUnreadable<R>(records: seq<R>, lastCheck: int, cacheTime: nat, now: int,
                                 fs: Files, path: string, load: string -> seq<R>)
    requires !IsFresh(lastCheck, cacheTime, now) && path !in fs
    ensures Refresh(records, lastCheck, cacheTime, now, fs, path, load) == Refreshed(Err(IoError), records)
  {
  }

  /**
   * Refreshing twice at the same instant against the same files changes
   * nothing more than refreshing once.
   */
  lemma RefreshIdempotent<R>(records: seq<R>, lastCheck: int, cacheTime: nat, now: int,
                             fs: Files, path: string, load: string -> seq<R>)
    ensures var once := Refresh(records, lastCheck, cacheTime, now, fs, path, load);
            Refresh(once.records, lastCheck, cacheTime, now, fs, path, load) == once
  {
  }

  /**
   * Because `last_check` is never advanced, a reader that is stale once is
   * stale at every later instant: from then on every lookup reads the file.
   */
  lemma StaleForever(lastCheck: int, cacheTime: nat, now: int, later: int)
    requires !IsFresh(lastCheck, cacheTime, now) && now <= later
    ensures !IsFresh(lastCheck, cacheTime, later)
  {
  }

  /**
   * A reader created at `created` starts with `last_check = created -
   * cache_time`, so its first refresh at or after `created` reads the file.
   */
  lemma StaleFromCreation(created: int, cacheTime: nat, now: int)
    requires created <= now
    ensures !IsFresh(created - cacheTime, cacheTime, now)
  {
  }

  /**
   * With a cache time of zero, two refreshes at any instants after the
   * reader was created each read the file, so a change of the file between
   * them is seen by the second.
   */
  lemma ZeroCacheSeesChanges<R>(records: seq<R>, created: int, now1: int, now2: int,
                                fs1: Files, fs2: Files, path: string, load: string -> seq<R>)
    requires created <= now1 && created <= now2 && path in fs1 && path in fs2
    ensures var first := Refresh(records, created, 0, now1, fs1, path, load);
            first == Refreshed(Ok(()), load(fs1[path])) &&
            Refresh(first.records, created, 0, now2, fs2, path, load) == Refreshed(Ok(()), load(fs2[path]))
  {
  }

  /**
   * With a positive cache time, a refresh before `last_check + cache_time`
   * following a successful one keeps its records, even if the file changed.
   */
  lemma CacheHitKeepsRecords<R>(records: seq<R>, lastCheck: int, cacheTime: nat, now1: int, now2: int,
                                fs1: Files, fs2: Files, path: string, load: string -> seq<R>)
    requires now2 < lastCheck + cacheTime
    ensures var first := Refresh(records, lastCheck, cacheTime, now1, fs1, path, load);
            Refresh(first.records, lastCheck, cacheTime, now2, fs2, path, load) == Refreshed(Ok(()), first.records)
  {
  }

  /**
   * The cache never hits: since `last_check` stays at `created - cache_time`,
   * every refresh at or after the reader's creation reads the file, whatever
   * the cache time and whatever was read before.
   */
  lemma NoCacheHitAfterCreation<R>(records: seq<R>, created: int, cacheTime: nat, now: int,
                                   fs: Files, path: string, load: string -> seq<R>)
    requires created <= now
    ensures Refresh(records, created - cacheTime, cacheTime, now, fs, path, load) ==
            if path in fs then Refreshed(Ok(()), load(fs[path])) else Refreshed(Err(IoError), records)
  {
    StaleFromCreation(created, cacheTime, now);
  }

  /** A refresh as the crate documentation describes it: with the new `last_check`. */
  datatype Checked<R> = Checked(status: IoResult<()>, records: seq<R>, lastCheck: int)

  /**
   * `refresh_if_needed` as documented (cache the information for the given
   * duration): like `Refresh`, but a successful read also sets `last_check`
   * to `now`. A cache hit or a read error leaves it as it was.
   */
  function RefreshAsDocumented<R>(records: seq<R>, lastCheck: int, cacheTime: nat, now: int,
                                  fs: Files, path: string, load: string -> seq<R>): (r: Checked<R>)
    ensures r.lastCheck == (if !IsFresh(lastCheck, cacheTime, now) && path in fs then now else lastCheck)
  {
    var refreshed := Refresh(records, lastCheck, cacheTime, now, fs, path, load);
    var checked := if !IsFresh(lastCheck, cacheTime, now) && refreshed.status.Ok? then now else lastCheck;
    Checked(refreshed.status, refreshed.records, checked)
  }

  /**
   * As documented, a successful read at `t` is served from the cache, whatever
   * the files then hold, by every refresh before `t + cache_time`.
   */
  lemma {:induction false} DocumentedCacheHolds<R>(records: seq<R>, lastCheck: int, cacheTime: nat,
                                                   t: int, later: int, fs1: Files, fs2: Files,
                                                   path: string, load: string -> seq<R>)
    requires !IsFresh(lastCheck, cacheTime, t) && path in fs1
    requires t <= later < t + cacheTime
    ensures var first := RefreshAsDocumented(records, lastCheck, cacheTime, t, fs1, path, load);
            first == Checked(Ok(()), load(fs1[path]), t) &&
            RefreshAsDocumented(first.records, first.lastCheck, cacheTime, later, fs2, path, load) == first
  {
    RefreshWhenStale(records, lastCheck, cacheTime, t, fs1, path, load);
    RefreshWhenFresh(load(fs1[path]), t, cacheTime, later, fs2, path, load);
  }

  /**
   * The same two refreshes of a reader created at `created`, as written and as
   * documented: within the cache time of the first read, the code reads the
   * changed file again, where the documentation promises the first records.
   */
  lemma AsWrittenIgnoresCacheTime<R>(records: seq<R>, created: int, cacheTime: nat,
                                     t: int, later: int, fs1: Files, fs2: Files,
                                     path: string, load: string -> seq<R>)
    requires created <= t <= later < t + cacheTime && path in fs1 && path in fs2
    ensures var first := Refresh(records, created - cacheTime, cacheTime, t, fs1, path, load);
            Refresh(first.records, created - cacheTime, cacheTime, later, fs2, path, load).records == load(fs2[path])
    ensures var first := RefreshAsDocumented(records, created - cacheTime, cacheTime, t, fs1, path, load);
            RefreshAsDocumented(first.records, first.lastCheck, cacheTime, later, fs2, path, load).records == load(fs1[path])
  {
    NoCacheHitAfterCreation(records, created, cacheTime, t, fs1, path, load);
    NoCacheHitAfterCreation(load(fs1[path]), created, cacheTime, later, fs2, path, load);
    StaleFromCreation(created, cacheTime, t);
    DocumentedCacheHolds(records, created - cacheTime, cacheTime, t, later, fs1, fs2, path, load);
  }
}
