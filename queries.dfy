/**
 * The lookups every reader serves after its refresh: `iter().find` over the
 * current records, exact and case-sensitive, first match wins.
 */
module Queries {
  import opened Wrappers
  import opened Decimal
  import opened Entries
  import Seqs

  /** `get_by_username`: the first entry with this username. */
  function ByUsername(entries: seq<PasswdEntry>, username: string): (r: Option<PasswdEntry>)
    ensures r.None? <==> forall j :: 0 <= j < |entries| ==> entries[j].username != username
    ensures r.Some? ==> exists i :: (0 <= i < |entries| && entries[i] == r.value && entries[i].username == username
                  && forall j :: 0 <= j < i ==> entries[j].username != username)
  {
    Seqs.Find(entries, (e: PasswdEntry) => e.username == username)
  }

  /** `get_by_uid`: the first entry with this uid. */
  function ByUid(entries: seq<PasswdEntry>, uid: U32): (r: Option<PasswdEntry>)
    ensures r.None? <==> forall j :: 0 <= j < |entries| ==> entries[j].uid != uid
    ensures r.Some? ==> exists i :: (0 <= i < |entries| && entries[i] == r.value && entries[i].uid == uid
                  && forall j :: 0 <= j < i ==> entries[j].uid != uid)
  {
    Seqs.Find(entries, (e: PasswdEntry) => e.uid == uid)
  }

  /** `get_username_by_uid`: the username of the entry `get_by_uid` finds. */
  function UsernameByUid(entries: seq<PasswdEntry>, uid: U32): (r: Option<string>)
    ensures r.Some? <==> ByUid(entries, uid).Some?
    ensures r.Some? ==> r.value == ByUid(entries, uid).value.username
  {
    match Seqs.Find(entries, (e: PasswdEntry) => e.uid == uid)
    case Some(e) => Some(e.username)
    case None => None
  }

  /** `get_uid_by_username`: the uid of the entry `get_by_username` finds. */
  function UidByUsername(entries: seq<PasswdEntry>, username: string): (r: Option<U32>)
    ensures r.Some? <==> ByUsername(entries, username).Some?
    ensures r.Some? ==> r.value == ByUsername(entries, username).value.uid
  {
    match Seqs.Find(entries, (e: PasswdEntry) => e.username == username)
    case Some(e) => Some(e.uid)
    case None => None
  }

  /** `get_by_name`: the first group with this name. */
  function ByName(groups: seq<GroupEntry>, name: string): (r: Option<GroupEntry>)
    ensures r.None? <==> forall j :: 0 <= j < |groups| ==> groups[j].name != name
    ensures r.Some? ==> exists i :: (0 <= i < |groups| && groups[i] == r.value && groups[i].name == name
                  && forall j :: 0 <= j < i ==> groups[j].name != name)
  {
    Seqs.Find(groups, (g: GroupEntry) => g.name == name)
  }

  /** `get_by_gid`: the first group with this gid. */
  function ByGid(groups: seq<GroupEntry>, gid: U32): (r: Option<GroupEntry>)
    ensures r.None? <==> forall j :: 0 <= j < |groups| ==> groups[j].gid != gid
    ensures r.Some? ==> exists i :: (0 <= i < |groups| && groups[i] == r.value && groups[i].gid == gid
                  && forall j :: 0 <= j < i ==> groups[j].gid != gid)
  {
    Seqs.Find(groups, (g: GroupEntry) => g.gid == gid)
  }

  /** `get_name_by_gid`: the name of the group `get_by_gid` finds. */
  function NameByGid(groups: seq<GroupEntry>, gid: U32): (r: Option<string>)
    ensures r.Some? <==> ByGid(groups, gid).Some?
    ensures r.Some? ==> r.value == ByGid(groups, gid).value.name
  {
    match Seqs.Find(groups, (g: GroupEntry) => g.gid == gid)
    case Some(g) => Some(g.name)
    case None => None
  }

  /** `get_gid_by_name`: the gid of the group `get_by_name` finds. */
  function GidByName(groups: seq<GroupEntry>, name: string): (r: Option<U32>)
    ensures r.Some? <==> ByName(groups, name).Some?
    ensures r.Some? ==> r.value == ByName(groups, name).value.gid
  {
    match Seqs.Find(groups, (g: GroupEntry) => g.name == name)
    case Some(g) => Some(g.gid)
    case None => None
  }

  /** First match wins: with a uid on two lines, the earlier line is the one found. */
  lemma ByUidFirstMatch(entries: seq<PasswdEntry>, i: nat, j: nat)
    requires i < j < |entries| && entries[i].uid == entries[j].uid
    requires forall k :: 0 <= k < i ==> entries[k].uid != entries[i].uid
    ensures ByUid(entries, entries[j].uid) == Some(entries[i])
  {
    var r := ByUid(entries, entries[j].uid);
    var m :| 0 <= m < |entries| && entries[m] == r.value && entries[m].uid == entries[j].uid
             && forall k :: 0 <= k < m ==> entries[k].uid != entries[j].uid;
    assert !(m > i);
  }

  /** A three-line passwd file: root, then user1 (uid 1000) and user2 (uid 1001). */
  function ExamplePasswd(): seq<PasswdEntry>
  {
    [PasswdEntry("root", "x", 0, 0, "root", "/root", "/bin/bash"),
     PasswdEntry("user1", "x", 1000, 1000, "User One", "/home/user1", "/bin/bash"),
     PasswdEntry("user2", "x", 1001, 1001, "User Two", "/home/user2", "/bin/sh")]
  }

  /** A three-line group file: root, wheel and users (gid 100). */
  function ExampleGroups(): seq<GroupEntry>
  {
    [GroupEntry("root", "x", 0, ["root"]),
     GroupEntry("wheel", "x", 10, ["root", "user1"]),
     GroupEntry("users", "x", 100, ["user1", "user2"])]
  }

  /**
   * The documentation example of the passwd readers: the file lists three
   * entries, uid 1000 is user1, uid 1001 is user2, and uid 9999 is nobody.
   */
  lemma PasswdDocExample()
    ensures var es := LoadPasswd(PasswdFile(ExamplePasswd()));
            && |es| == 3
            && UsernameByUid(es, 1000) == Some("user1")
            && UsernameByUid(es, 1001) == Some("user2")
            && UsernameByUid(es, 9999) == None
  {
    ExamplePasswdWritable();
    LoadPasswdOfFile(ExamplePasswd());
    ExamplePasswdLookups();
  }

  lemma ExamplePasswdWritable()
    ensures forall k :: 0 <= k < |ExamplePasswd()| ==> WritablePasswd(ExamplePasswd()[k])
  {
    var es := ExamplePasswd();
    assert WritablePasswd(es[0]);
    assert WritablePasswd(es[1]);
    assert WritablePasswd(es[2]);
  }

  lemma ExamplePasswdLookups()
    ensures UsernameByUid(ExamplePasswd(), 1000) == Some("user1")
    ensures UsernameByUid(ExamplePasswd(), 1001) == Some("user2")
    ensures UsernameByUid(ExamplePasswd(), 9999) == None
  {
    var es := ExamplePasswd();
    assert ByUid(es, 1000) == Some(es[1]);
    assert ByUid(es, 1001) == Some(es[2]);
  }

  /**
   * The documentation example of the group readers: the file lists three
   * groups, gid 100 is users, and gid 9999 is no group.
   */
  lemma GroupDocExample()
    ensures var gs := LoadGroups(GroupFile(ExampleGroups()));
            && |gs| == 3
            && NameByGid(gs, 100) == Some("users")
            && NameByGid(gs, 9999) == None
  {
    ExampleGroupsWritable();
    LoadGroupsOfFile(ExampleGroups());
    ExampleGroupsLookups();
  }

  lemma ExampleGroupsWritable()
    ensures forall k :: 0 <= k < |ExampleGroups()| ==> WritableGroup(ExampleGroups()[k])
  {
    var gs := ExampleGroups();
    assert WritableGroup(gs[0]);
    assert WritableGroup(gs[1]);
    assert WritableGroup(gs[2]);
  }

  lemma ExampleGroupsLookups()
    ensures NameByGid(ExampleGroups(), 100) == Some("users")
    ensures NameByGid(ExampleGroups(), 9999) == None
  {
    var gs := ExampleGroups();
    assert ByGid(gs, 100) == Some(gs[2]);
  }
}
