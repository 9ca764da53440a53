/**
 * The blocking readers of src/sync_reader.rs. Each method takes the instant
 * `now` in place of `Instant::now()` and reads the `Files` argument in place
 * of `std::fs::read_to_string`.
 */
module SyncReader {
  import opened Wrappers
  import opened Decimal
  import opened Entries
  import opened Queries
  import opened Cache

  /** Reads and looks up `/etc/passwd`, or another passwd file, caching the entries. */
  class PasswdReader {
    var file: Option<string>
    var cacheTime: nat
    var lastCheck: int
    var passwd: seq<PasswdEntry>

    /** The file read on a refresh. */
    function Path(): string
      reads this
    {
      PathOr(file, "/etc/passwd")
    }

    /** What `refresh_if_needed` at `now` against `fs` returns, and the entries it leaves. */
    ghost function AfterRefresh(now: int, fs: Files): Cache.Refreshed<PasswdEntry>
      reads this
    {
      Refresh(passwd, lastCheck, cacheTime, now, fs, Path(), LoadPasswd)
    }

    /** `PasswdReader::new`: reads `/etc/passwd`; the first lookup always reads. */
    constructor New(cacheTime: nat, now: int)
      ensures file == None && Path() == "/etc/passwd"
      ensures this.cacheTime == cacheTime && lastCheck == now - cacheTime && passwd == []
      ensures !IsFresh(lastCheck, this.cacheTime, now)
    {
      file := None;
      this.cacheTime := cacheTime;
      lastCheck := now - cacheTime;
      passwd := [];
    }

    /** `PasswdReader::from_file`: reads the given file instead. */
    constructor FromFile(file: string, cacheTime: nat, now: int)
      ensures this.file == Some(file) && Path() == file
      ensures this.cacheTime == cacheTime && lastCheck == now - cacheTime && passwd == []
      ensures !IsFresh(lastCheck, this.cacheTime, now)
    {
      this.file := Some(file);
      this.cacheTime := cacheTime;
      lastCheck := now - cacheTime;
      passwd := [];
    }

    /** `refresh_if_needed`. Only the entries may change; `last_check` is never advanced. */
    method RefreshIfNeeded(now: int, fs: Files) returns (r: IoResult<()>)
      modifies this`passwd
      ensures r == old(AfterRefresh(now, fs)).status
      ensures passwd == old(AfterRefresh(now, fs)).records
    {
      if now < lastCheck + cacheTime {
        return Ok(());
      }
      var contents := ReadToString(fs, Path());
      if contents.Err? {
        return Err(contents.error);
      }
      passwd := LoadPasswd(contents.value);
      return Ok(());
    }

    /** `get_entries`: every entry, in file order. */
    method GetEntries(now: int, fs: Files) returns (r: IoResult<seq<PasswdEntry>>)
      modifies this`passwd
      ensures passwd == old(AfterRefresh(now, fs)).records
      ensures r == Then(old(AfterRefresh(now, fs)).status, passwd)
    {
      var status := RefreshIfNeeded(now, fs);
      if status.Err? {
        return Err(status.error);
      }
      return Ok(passwd);
    }

    /** `try_iter`: an iterator over every entry, in file order. */
    method TryIter(now: int, fs: Files) returns (r: IoResult<seq<PasswdEntry>>)
      modifies this`passwd
      ensures passwd == old(AfterRefresh(now, fs)).records
      ensures r == Then(old(AfterRefresh(now, fs)).status, passwd)
    {
      var status := RefreshIfNeeded(now, fs);
      if status.Err? {
        return Err(status.error);
      }
      return Ok(passwd);
    }

    /** `get_by_username`. */
    method GetByUsername(username: string, now: int, fs: Files) returns (r: IoResult<Option<PasswdEntry>>)
      modifies this`passwd
      ensures passwd == old(AfterRefresh(now, fs)).records
      ensures r == Then(old(AfterRefresh(now, fs)).status, ByUsername(passwd, username))
    {
      var status := RefreshIfNeeded(now, fs);
      if status.Err? {
        return Err(status.error);
      }
      return Ok(ByUsername(passwd, username));
    }

    /** `get_by_uid`. */
    method GetByUid(uid: U32, now: int, fs: Files) returns (r: IoResult<Option<PasswdEntry>>)
      modifies this`passwd
      ensures passwd == old(AfterRefresh(now, fs)).records
      ensures r == Then(old(AfterRefresh(now, fs)).status, ByUid(passwd, uid))
    {
      var status := RefreshIfNeeded(now, fs);
      if status.Err? {
        return Err(status.error);
      }
      return Ok(ByUid(passwd, uid));
    }

    /** `get_username_by_uid`. */
    method GetUsernameByUid(uid: U32, now: int, fs: Files) returns (r: IoResult<Option<string>>)
      modifies this`passwd
      ensures passwd == old(AfterRefresh(now, fs)).records
      ensures r == Then(old(AfterRefresh(now, fs)).status, UsernameByUid(passwd, uid))
    {
      var status := RefreshIfNeeded(now, fs);
      if status.Err? {
        return Err(status.error);
      }
      return Ok(UsernameByUid(passwd, uid));
    }

    /** `get_uid_by_username`. */
    method GetUidByUsername(username: string, now: int, fs: Files) returns (r: IoResult<Option<U32>>)
      modifies this`passwd
      ensures passwd == old(AfterRefresh(now, fs)).records
      ensures r == Then(old(AfterRefresh(now, fs)).status, UidByUsername(passwd, username))
    {
      var status := RefreshIfNeeded(now, fs);
      if status.Err? {
        return Err(status.error);
      }
      return Ok(UidByUsername(passwd, username));
    }
  }

  /** Reads and looks up `/etc/group`, or another group file, caching the groups. */
  class GroupReader {
    var file: Option<string>
    var cacheTime: nat
    var lastCheck: int
    var groups: seq<GroupEntry>

    /** The file read on a refresh. */
    function Path(): string
      reads this
    {
      PathOr(file, "/etc/group")
    }

    /** What `refresh_if_needed` at `now` against `fs` returns, and the groups it leaves. */
    ghost function AfterRefresh(now: int, fs: Files): Cache.Refreshed<GroupEntry>
      reads this
    {
      Refresh(groups, lastCheck, cacheTime, now, fs, Path(), LoadGroups)
    }

    /** `GroupReader::new`: reads `/etc/group`; the first lookup always reads. */
    constructor New(cacheTime: nat, now: int)
      ensures file == None && Path() == "/etc/group"
      ensures this.cacheTime == cacheTime && lastCheck == now - cacheTime && groups == []
      ensures !IsFresh(lastCheck, this.cacheTime, now)
    {
      file := None;
      this.cacheTime := cacheTime;
      lastCheck := now - cacheTime;
      groups := [];
    }

    /** `GroupReader::from_file`: reads the given file instead. */
    constructor FromFile(file: string, cacheTime: nat, now: int)
      ensures this.file == Some(file) && Path() == file
      ensures this.cacheTime == cacheTime && lastCheck == now - cacheTime && groups == []
      ensures !IsFresh(lastCheck, this.cacheTime, now)
    {
      this.file := Some(file);
      this.cacheTime := cacheTime;
      lastCheck := now - cacheTime;
      groups := [];
    }

    /** `refresh_if_needed`. Only the groups may change; `last_check` is never advanced. */
    method RefreshIfNeeded(now: int, fs: Files) returns (r: IoResult<()>)
      modifies this`groups
      ensures r == old(AfterRefresh(now, fs)).status
      ensures groups == old(AfterRefresh(now, fs)).records
    {
      if now < lastCheck + cacheTime {
        return Ok(());
      }
      var contents := ReadToString(fs, Path());
      if contents.Err? {
        return Err(contents.error);
      }
      groups := LoadGroups(contents.value);
      return Ok(());
    }

    /** `get_groups`: every group, in file order. */
    method GetGroups(now: int, fs: Files) returns (r: IoResult<seq<GroupEntry>>)
      modifies this`groups
      ensures groups == old(AfterRefresh(now, fs)).records
      ensures r == Then(old(AfterRefresh(now, fs)).status, groups)
    {
      var status := RefreshIfNeeded(now, fs);
      if status.Err? {
        return Err(status.error);
      }
      return Ok(groups);
    }

    /** `try_iter`: an iterator over every group, in file order. */
    method TryIter(now: int, fs: Files) returns (r: IoResult<seq<GroupEntry>>)
      modifies this`groups
      ensures groups == old(AfterRefresh(now, fs)).records
      ensures r == Then(old(AfterRefresh(now, fs)).status, groups)
    {
      var status := RefreshIfNeeded(now, fs);
      if status.Err? {
        return Err(status.error);
      }
      return Ok(groups);
    }

    /** `get_by_name`. */
    method GetByName(name: string, now: int, fs: Files) returns (r: IoResult<Option<GroupEntry>>)
      modifies this`groups
      ensures groups == old(AfterRefresh(now, fs)).records
      ensures r == Then(old(AfterRefresh(now, fs)).status, ByName(groups, name))
    {
      var status := RefreshIfNeeded(now, fs);
      if status.Err? {
        return Err(status.error);
      }
      return Ok(ByName(groups, name));
    }

    /** `get_by_gid`. */
    method GetByGid(gid: U32, now: int, fs: Files) returns (r: IoResult<Option<GroupEntry>>)
      modifies this`groups
      ensures groups == old(AfterRefresh(now, fs)).records
      ensures r == Then(old(AfterRefresh(now, fs)).status, ByGid(groups, gid))
    {
      var status := RefreshIfNeeded(now, fs);
      if status.Err? {
        return Err(status.error);
      }
      return Ok(ByGid(groups, gid));
    }

    /** `get_name_by_gid`. */
    method GetNameByGid(gid: U32, now: int, fs: Files) returns (r: IoResult<Option<string>>)
      modifies this`groups
      ensures groups == old(AfterRefresh(now, fs)).records
      ensures r == Then(old(AfterRefresh(now, fs)).status, NameByGid(groups, gid))
    {
      var status := RefreshIfNeeded(now, fs);
      if status.Err? {
        return Err(status.error);
      }
      return Ok(NameByGid(groups, gid));
    }

    /** `get_gid_by_name`. */
    method GetGidByName(name: string, now: int, fs: Files) returns (r: IoResult<Option<U32>>)
      modifies this`groups
      ensures groups == old(AfterRefresh(now, fs)).records
      ensures r == Then(old(AfterRefresh(now, fs)).status, GidByName(groups, name))
    {
      var status := RefreshIfNeeded(now, fs);
      if status.Err? {
        return Err(status.error);
      }
      return Ok(GidByName(groups, name));
    }
  }

  /**
   * The documentation example of `PasswdReader`, for any contents of
   * `test_files/passwd`: with cache time zero every call reads the file, so
   * the count and both lookups are those of the entries the file holds. On
   * the documentation's file (`Queries.PasswdDocExample`) they are 3, user1
   * and user2.
   */
  method PasswdReaderExample(now: int, later: int, fs: Files)
    returns (count: nat, first: IoResult<Option<string>>, second: IoResult<Option<string>>)
    requires now <= later && "test_files/passwd" in fs
    ensures count == |LoadPasswd(fs["test_files/passwd"])|
    ensures first == Ok(UsernameByUid(LoadPasswd(fs["test_files/passwd"]), 1000))
    ensures second == Ok(UsernameByUid(LoadPasswd(fs["test_files/passwd"]), 1001))
  {
    var reader := new PasswdReader.FromFile("test_files/passwd", 0, now);
    var entries := reader.GetEntries(now, fs);
    count := |entries.value|;
    first := reader.GetUsernameByUid(1000, later, fs);
    second := reader.GetUsernameByUid(1001, later, fs);
  }

  /**
   * The documentation example of `GroupReader`, for any contents of
   * `test_files/group`: with cache time zero every call reads the file. On the
   * documentation's file (`Queries.GroupDocExample`) the count is 3 and gid
   * 100 is users.
   */
  method GroupReaderExample(now: int, later: int, fs: Files)
    returns (count: nat, name: IoResult<Option<string>>)
    requires now <= later && "test_files/group" in fs
    ensures count == |LoadGroups(fs["test_files/group"])|
    ensures name == Ok(NameByGid(LoadGroups(fs["test_files/group"]), 100))
  {
    var reader := new GroupReader.FromFile("test_files/group", 0, now);
    var groups := reader.GetGroups(now, fs);
    count := |groups.value|;
    name := reader.GetNameByGid(100, later, fs);
  }
}
