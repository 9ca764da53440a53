/**
 * The records of `/etc/passwd` and `/etc/group` (src/lib.rs): one line of
 * the file is parsed into a record or into nothing, and a file is parsed
 * into the records of the lines that parse.
 */
module Entries {
  import opened Wrappers
  import opened Decimal
  import Text
  import Seqs

  /** One row of `/etc/passwd`. */
  datatype PasswdEntry = PasswdEntry(
    username: string,
    passwd: string,
    uid: U32,
    gid: U32,
    gecos: string,
    homeDir: string,
    shell: string)

  /** One row of `/etc/group`. */
  datatype GroupEntry = GroupEntry(
    name: string,
    passwd: string,
    gid: U32,
    users: seq<string>)

  /**
   * `PasswdEntry::parse`: the line split at its first six colons; the uid and
   * gid pieces must parse as `u32`; every other piece is kept verbatim, and
   * the shell keeps any further colons.
   */
  function ParsePasswd(line: string): (r: Option<PasswdEntry>)
    ensures r.Some? ==> ':' !in r.value.username && ':' !in r.value.passwd
    ensures r.Some? ==> ':' !in r.value.gecos && ':' !in r.value.homeDir
    ensures Text.Count(line, ':') < 6 ==> r.None?
  {
    var fields := Text.SplitN(line, ':', 7);
    Text.SplitNLength(line, ':', 7);
    Text.SplitNPieces(line, ':', 7);
    if |fields| < 7 then None
    else
      match (ParseU32(fields[2]), ParseU32(fields[3]))
      case (Some(uid), Some(gid)) =>
        Some(PasswdEntry(fields[0], fields[1], uid, gid, fields[4], fields[5], fields[6]))
      case _ => None
  }

  /**
   * `GroupEntry::parse`: the line split at its first three colons; the gid
   * piece must parse as `u32`; the rest of the line is split at every comma
   * into the member list, so an empty rest gives `[""]`.
   */
  function ParseGroup(line: string): (r: Option<GroupEntry>)
    ensures r.Some? ==> ':' !in r.value.name && ':' !in r.value.passwd
    ensures r.Some? ==> |r.value.users| >= 1
    ensures r.Some? ==> forall k :: 0 <= k < |r.value.users| ==> ',' !in r.value.users[k]
    ensures Text.Count(line, ':') < 3 ==> r.None?
  {
    var fields := Text.SplitN(line, ':', 4);
    Text.SplitNLength(line, ':', 4);
    Text.SplitNPieces(line, ':', 4);
    if |fields| < 4 then None
    else
      Text.SplitPieces(fields[3], ',');
      match ParseU32(fields[2])
      case Some(gid) => Some(GroupEntry(fields[0], fields[1], gid, Text.Split(fields[3], ',')))
      case None => None
  }

  /** The seven pieces of a passwd line, ids in decimal. */
  function PasswdFields(e: PasswdEntry): seq<string>
  {
    [e.username, e.passwd, ToDecimal(e.uid), ToDecimal(e.gid), e.gecos, e.homeDir, e.shell]
  }

  /** The line of `/etc/passwd` that describes `e`. */
  function FormatPasswd(e: PasswdEntry): string
  {
    Text.Join(PasswdFields(e), ':')
  }

  /** The line of `/etc/group` that describes `g`. */
  function FormatGroup(g: GroupEntry): string
  {
    Text.Join([g.name, g.passwd, ToDecimal(g.gid), Text.Join(g.users, ',')], ':')
  }

  /**
   * A line made of seven pieces, the first six colon-free, parses exactly when
   * its third and fourth pieces are `u32`s, into those pieces verbatim: the
   * seventh (the shell) may hold colons of its own.
   */
  lemma ParsePasswdOfFields(fields: seq<string>)
    requires |fields| == 7
    requires forall k :: 0 <= k < 6 ==> ':' !in fields[k]
    ensures ParsePasswd(Text.Join(fields, ':')) ==
      if ParseU32(fields[2]).Some? && ParseU32(fields[3]).Some? then
        Some(PasswdEntry(fields[0], fields[1], ParseU32(fields[2]).value, ParseU32(fields[3]).value,
                         fields[4], fields[5], fields[6]))
      else None
  {
    Text.SplitNOfJoin(fields, ':', 7);
  }

  /**
   * A line made of four pieces, the first three colon-free, parses exactly
   * when its third piece is a `u32`; the fourth piece, colons included, is
   * split at commas into the members.
   */
  lemma ParseGroupOfFields(name: string, passwd: string, gid: string, members: string)
    requires ':' !in name && ':' !in passwd && ':' !in gid
    ensures ParseGroup(Text.Join([name, passwd, gid, members], ':')) ==
      if ParseU32(gid).Some? then Some(GroupEntry(name, passwd, ParseU32(gid).value, Text.Split(members, ',')))
      else None
  {
    Text.SplitNOfJoin([name, passwd, gid, members], ':', 4);
  }

  /** Decimal digits never contain a separator of either file. */
  lemma DecimalSeparatorFree(n: nat)
    ensures ':' !in ToDecimal(n) && ',' !in ToDecimal(n) && '\n' !in ToDecimal(n)
  {
  }

  /** Round trip: an entry whose text fields before the shell are colon-free parses back to itself. */
  lemma ParsePasswdOfFormat(e: PasswdEntry)
    requires ':' !in e.username && ':' !in e.passwd && ':' !in e.gecos && ':' !in e.homeDir
    ensures ParsePasswd(FormatPasswd(e)) == Some(e)
  {
    DecimalSeparatorFree(e.uid);
    DecimalSeparatorFree(e.gid);
    ParseU32OfDecimal(e.uid);
    ParseU32OfDecimal(e.gid);
    ParsePasswdOfFields(PasswdFields(e));
  }

  /**
   * Round trip: a group whose name and password are colon-free and whose
   * members are a non-empty list of comma-free names parses back to itself.
   */
  lemma ParseGroupOfFormat(g: GroupEntry)
    requires ':' !in g.name && ':' !in g.passwd
    requires |g.users| >= 1 && forall k :: 0 <= k < |g.users| ==> ',' !in g.users[k]
    ensures ParseGroup(FormatGroup(g)) == Some(g)
  {
    DecimalSeparatorFree(g.gid);
    ParseU32OfDecimal(g.gid);
    ParseGroupOfFields(g.name, g.passwd, ToDecimal(g.gid), Text.Join(g.users, ','));
    Text.SplitOfJoin(g.users, ',');
  }

  /**
   * The round trip does not hold for an empty member list: it is written as an
   * empty field and read back as the single member `""`.
   */
  lemma ParseGroupOfFormatNoUsers(g: GroupEntry)
    requires ':' !in g.name && ':' !in g.passwd && g.users == []
    ensures ParseGroup(FormatGroup(g)) == Some(g.(users := [""]))
  {
    DecimalSeparatorFree(g.gid);
    ParseU32OfDecimal(g.gid);
    ParseGroupOfFields(g.name, g.passwd, ToDecimal(g.gid), "");
  }

  /** The records of a passwd file: `contents.lines().filter_map(PasswdEntry::parse)`. */
  function LoadPasswd(contents: string): (r: seq<PasswdEntry>)
    ensures |r| <= |contents|
  {
    Text.LinesLength(contents);
    Seqs.FilterMap(Text.Lines(contents), ParsePasswd)
  }

  /** The records of a group file: `contents.lines().filter_map(GroupEntry::parse)`. */
  function LoadGroups(contents: string): (r: seq<GroupEntry>)
    ensures |r| <= |contents|
  {
    Text.LinesLength(contents);
    Seqs.FilterMap(Text.Lines(contents), ParseGroup)
  }

  /** An entry that its own line in a passwd file describes exactly. */
  predicate WritablePasswd(e: PasswdEntry)
  {
    && ':' !in e.username && ':' !in e.passwd && ':' !in e.gecos && ':' !in e.homeDir
    && '\n' !in e.username && '\n' !in e.passwd && '\n' !in e.gecos && '\n' !in e.homeDir
    && '\n' !in e.shell && !Text.EndsWithCR(e.shell)
  }

  /** A group that its own line in a group file describes exactly. */
  predicate WritableGroup(g: GroupEntry)
  {
    && ':' !in g.name && ':' !in g.passwd && '\n' !in g.name && '\n' !in g.passwd
    && |g.users| >= 1 && !Text.EndsWithCR(g.users[|g.users| - 1])
    && forall k :: 0 <= k < |g.users| ==> ',' !in g.users[k] && '\n' !in g.users[k]
  }

  lemma FormatPasswdIsLine(e: PasswdEntry)
    requires WritablePasswd(e)
    ensures '\n' !in FormatPasswd(e) && !Text.EndsWithCR(FormatPasswd(e))
  {
    DecimalSeparatorFree(e.uid);
    DecimalSeparatorFree(e.gid);
    Text.JoinExcludes(PasswdFields(e), ':', '\n');
    Text.JoinNotEndsWithCR(PasswdFields(e), ':');
  }

  lemma FormatGroupIsLine(g: GroupEntry)
    requires WritableGroup(g)
    ensures '\n' !in FormatGroup(g) && !Text.EndsWithCR(FormatGroup(g))
  {
    DecimalSeparatorFree(g.gid);
    Text.JoinExcludes(g.users, ',', '\n');
    Text.JoinNotEndsWithCR(g.users, ',');
    var parts := [g.name, g.passwd, ToDecimal(g.gid), Text.Join(g.users, ',')];
    Text.JoinExcludes(parts, ':', '\n');
    Text.JoinNotEndsWithCR(parts, ':');
  }

  /** The passwd file that lists `es`, one line each, every line ended by `'\n'`. */
  function PasswdFile(es: seq<PasswdEntry>): string
  {
    Text.Terminated(seq(|es|, i requires 0 <= i < |es| => FormatPasswd(es[i])), "\n")
  }

  /** The group file that lists `gs`, one line each, every line ended by `'\n'`. */
  function GroupFile(gs: seq<GroupEntry>): string
  {
    Text.Terminated(seq(|gs|, i requires 0 <= i < |gs| => FormatGroup(gs[i])), "\n")
  }

  /** Reading a written passwd file gives back exactly its entries, in order. */
  lemma LoadPasswdOfFile(es: seq<PasswdEntry>)
    requires forall k :: 0 <= k < |es| ==> WritablePasswd(es[k])
    ensures LoadPasswd(PasswdFile(es)) == es
  {
    var lines := seq(|es|, i requires 0 <= i < |es| => FormatPasswd(es[i]));
    forall k | 0 <= k < |es|
      ensures '\n' !in lines[k] && !Text.EndsWithCR(lines[k])
      ensures ParsePasswd(lines[k]) == Some(es[k])
    {
      FormatPasswdIsLine(es[k]);
      ParsePasswdOfFormat(es[k]);
    }
    Text.LinesOfTerminated(lines);
    Seqs.FilterMapAllSome(lines, ParsePasswd, es);
  }

  /** Reading a written group file gives back exactly its groups, in order. */
  lemma LoadGroupsOfFile(gs: seq<GroupEntry>)
    requires forall k :: 0 <= k < |gs| ==> WritableGroup(gs[k])
    ensures LoadGroups(GroupFile(gs)) == gs
  {
    var lines := seq(|gs|, i requires 0 <= i < |gs| => FormatGroup(gs[i]));
    forall k | 0 <= k < |gs|
      ensures '\n' !in lines[k] && !Text.EndsWithCR(lines[k])
      ensures ParseGroup(lines[k]) == Some(gs[k])
    {
      FormatGroupIsLine(gs[k]);
      ParseGroupOfFormat(gs[k]);
    }
    Text.LinesOfTerminated(lines);
    Seqs.FilterMapAllSome(lines, ParseGroup, gs);
  }

  /**
   * Lines that do not parse are dropped without disturbing the others: a
   * passwd file whose first part ends in a line break is read as the records
   * of that part followed by the records of the rest.
   */
  lemma LoadPasswdAppend(a: string, b: string)
    requires a == [] || a[|a| - 1] == '\n'
    ensures LoadPasswd(a + b) == LoadPasswd(a) + LoadPasswd(b)
  {
    Text.LinesAppend(a, b);
    Seqs.FilterMapAppend(Text.Lines(a), Text.Lines(b), ParsePasswd);
  }

  /** The same for a group file. */
  lemma LoadGroupsAppend(a: string, b: string)
    requires a == [] || a[|a| - 1] == '\n'
    ensures LoadGroups(a + b) == LoadGroups(a) + LoadGroups(b)
  {
    Text.LinesAppend(a, b);
    Seqs.FilterMapAppend(Text.Lines(a), Text.Lines(b), ParseGroup);
  }
}
