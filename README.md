# user_lookup in Dafny

A verified model of `user_lookup` / `async_user_lookup`, a Rust library that
reads `/etc/passwd` and `/etc/group` (or files in the same format at other
paths) and answers lookups by user or group name and numeric id. It keeps
the parsed records in memory and, on every call, decides from a cache time
whether to read the file again.

The model follows the library's three layers:

- **Line parsers** (`Entries`). `PasswdEntry::parse` and `GroupEntry::parse`
  turn one line into a record or into nothing. They are built on models of
  the `str` operations they use: `splitn`, `split` and `lines` (`Text`), and
  `parse::<u32>` (`Decimal`). Each parser is paired with a formatter that
  writes a record as a line. The lemmas prove the round trips, the field
  characterisation and the rejection cases.
- **Readers** (`AsyncLookup` for src/lib.rs, `SyncReader` for
  src/sync_reader.rs). Each `PasswdReader` and `GroupReader` is a class with
  the source's fields `file`, `cache_time`, `last_check` and the record
  sequence. `refresh_if_needed` and every public lookup are methods. Each
  method's postcondition ties the new records and the returned value to the
  specification function `Cache.Refresh`. The properties of that function
  are proved as lemmas in `Cache`.
- **Lookups** (`Queries`, built on `Seqs.Find`). These are the `iter().find`
  scans: the first record whose key matches, or `None`.

The clock is an integer argument `now`, and the cache time is a `nat` in the
same unit. The file system is a `map<string, string>` argument from a path
to the text of a readable file. A path outside the map stands for any error
of `read_to_string`.

The code never advances `last_check`, so as written the cache never hits
after the reader's creation; the model follows the code, and "## Findings"
sets it against the documented behaviour.

Also from the code: `lines()` is modelled as the current Rust standard
library has it. A line loses its `'\r'` only when `'\r'` comes right
before the `'\n'` that ends it. A lone `'\r'` at the end of the text stays.

## Model

| member | source | states |
|---|---|---|
| `Seqs.Find` | src/lib.rs:209-213 | `iter().find(p)` is `None` exactly when no element satisfies `p`; otherwise it is an element satisfying `p` with none before it |
| `Seqs.FilterMap` | src/lib.rs:187 | `filter_map` keeps at most as many items as there are lines; each kept item is the `Some` payload of some line; the result is empty exactly when no line yields `Some` |
| `Seqs.FilterMapAppend` | src/lib.rs:187 | `filter_map` over two concatenated line lists is the concatenation of the two results, so line order is kept and dropped lines do not disturb the others |
| `Seqs.FilterMapAllSome` | src/lib.rs:187 | when every line yields `Some`, `filter_map` returns exactly those payloads, in order |
| `Text.SplitN` | src/lib.rs:53 | `splitn(n, c)` yields between 1 and `n` pieces |
| `Text.SplitNPieces` | src/lib.rs:53 | every piece of `splitn(n, c)` but the last is free of `c`, and so is the last when there are fewer than `n` |
| `Text.SplitNJoin` | src/lib.rs:53 | joining the pieces of `splitn` with the separator gives back the text verbatim |
| `Text.SplitNLength` | src/lib.rs:53 | `splitn(n, c)` yields one piece per occurrence of `c` plus one, capped at `n` |
| `Text.SplitNOfJoin` | src/lib.rs:53 | `splitn` undoes joining: pieces whose separators are all the ones put by the join come back unchanged |
| `Text.Split` | src/lib.rs:120 | `split(c)` yields at least one piece, so `""` gives one empty piece |
| `Text.SplitPieces` | src/lib.rs:120 | no piece of `split(c)` contains `c` |
| `Text.SplitJoin` | src/lib.rs:120 | joining the pieces of `split` with the separator gives back the text |
| `Text.SplitOfJoin` | src/lib.rs:120 | `split` undoes joining a non-empty list of separator-free pieces |
| `Text.Lines` | src/lib.rs:187 | `str::lines()`: the text is cut at each `'\n'`, one `'\r'` right before a `'\n'` is dropped, and a final `'\n'` adds no empty line; stated by `Text.LinesPieces`, `Text.LinesLength`, `Text.LinesOfTerminated`, `Text.LinesOfCrlfTerminated`, `Text.LinesOfSingleLine`, `Text.TrailingNewlineOptional` and `Text.LinesAppend` |
| `Text.LinesPieces` | src/lib.rs:187 | no line of `lines()` contains `'\n'` |
| `Text.LinesLength` | src/lib.rs:187 | `lines()` never yields more lines than the text has characters |
| `Text.LinesOfTerminated` | src/lib.rs:187 | `lines()` of `'\n'`-terminated lines that neither contain `'\n'` nor end in `'\r'` gives back exactly those lines: the final newline adds no empty line |
| `Text.LinesOfCrlfTerminated` | src/lib.rs:187 | `lines()` of `"\r\n"`-terminated lines gives back exactly those lines: one `'\r'` before each `'\n'` is dropped |
| `Text.TrailingNewlineOptional` | src/sync_reader.rs:88 | a non-empty text whose last character is neither `'\n'` nor `'\r'` has the same lines with one `'\n'` added |
| `Text.LinesAppend` | src/lib.rs:187 | the lines of two texts end to end, the first empty or ending in `'\n'`, are the lines of the first followed by those of the second |
| `Text.LinesOfSingleLine` | src/sync_reader.rs:88 | a non-empty text without `'\n'` is one line, kept whole, including any final `'\r'` |
| `Decimal.ParseU32` | src/lib.rs:63 | `parse::<u32>` succeeds only on non-empty text made of ASCII digits with at most one leading `'+'`, holding at least one digit |
| `Decimal.ToDecimal` | src/lib.rs:63 | the decimal text of a number is non-empty, all digits, with no leading zero |
| `Decimal.ParseU32OfDecimal` | src/lib.rs:63 | `parse::<u32>` reads back the decimal text of every `u32` |
| `Decimal.ParseU32OfPlusDecimal` | src/lib.rs:67 | a leading `'+'` is accepted |
| `Decimal.ParseU32OfPlusDigits` | src/lib.rs:67 | a leading `'+'` before any digit text gives the same result as the digits alone, zero-padded or overflowing |
| `Decimal.ParseU32RejectsOverflow` | src/lib.rs:63 | the decimal text of a number above 2^32 - 1 is rejected, not wrapped |
| `Decimal.ParseU32RejectsMinus` | src/lib.rs:67 | text starting with `'-'` is rejected, including `-0` |
| `Decimal.ParseU32LeadingZero` | src/lib.rs:114 | a leading zero does not change the result |
| `Decimal.ParseU32RejectsMalformed` | src/lib.rs:63 | the empty text, a lone `'+'`, surrounding whitespace and non-digits are rejected |
| `Entries.ParsePasswd` | src/lib.rs:52-84 | a parsed entry's username, password, gecos and home directory are colon-free; a line with fewer than six colons gives `None` |
| `Entries.ParseGroup` | src/lib.rs:103-123 | a parsed group's name and password are colon-free; it has at least one member and no member contains a comma; a line with fewer than three colons gives `None` |
| `Entries.ParsePasswdOfFields` | src/lib.rs:52-84 | a line of seven pieces, the first six colon-free, parses exactly when pieces 3 and 4 are `u32`s, and every text field is its piece verbatim; the shell keeps its own colons |
| `Entries.ParseGroupOfFields` | src/lib.rs:103-123 | a line of four pieces, the first three colon-free, parses exactly when piece 3 is a `u32`; the members are piece 4, colons included, split at every comma |
| `Entries.ParsePasswdOfFormat` | src/lib.rs:52-84 | round trip: an entry whose username, password, gecos and home directory are colon-free parses back from its line to itself |
| `Entries.ParseGroupOfFormat` | src/lib.rs:103-123 | round trip: a group with colon-free name and password and a non-empty list of comma-free members parses back to itself |
| `Entries.ParseGroupOfFormatNoUsers` | src/lib.rs:118-121 | an empty member field is read as the single member `""`, not as no members |
| `Entries.LoadPasswdOfFile` | src/lib.rs:187 | reading a written passwd file gives back exactly its entries, in line order |
| `Entries.LoadGroupsOfFile` | src/lib.rs:313 | reading a written group file gives back exactly its groups, in line order |
| `Entries.LoadPasswd` | src/lib.rs:187 | `contents.lines().filter_map(PasswdEntry::parse)` gives no more entries than the text has characters (at most one per line); what it gives exactly is stated by `Entries.LoadPasswdOfFile` and `Entries.LoadPasswdAppend`, with the contract of `Seqs.FilterMap` |
| `Entries.LoadGroups` | src/lib.rs:313 | `contents.lines().filter_map(GroupEntry::parse)` gives no more groups than the text has characters (at most one per line); what it gives exactly is stated by `Entries.LoadGroupsOfFile` and `Entries.LoadGroupsAppend`, with the contract of `Seqs.FilterMap` |
| `Entries.LoadPasswdAppend` | src/sync_reader.rs:88 | a passwd text cut after a line break reads as the entries of the first part followed by those of the second: lines that do not parse drop out without disturbing the others |
| `Entries.LoadGroupsAppend` | src/sync_reader.rs:203 | a group text cut after a line break reads as the groups of the first part followed by those of the second |
| `Queries.ByUsername` | src/lib.rs:204-214 | `None` exactly when no entry has the username; otherwise the entry at the first index with that username |
| `Queries.ByUid` | src/lib.rs:217-224 | `None` exactly when no entry has the uid; otherwise the entry at the first index with that uid |
| `Queries.UsernameByUid` | src/lib.rs:227-237 | found exactly when `get_by_uid` finds an entry, and then it is that entry's username |
| `Queries.UidByUsername` | src/lib.rs:240-250 | found exactly when `get_by_username` finds an entry, and then it is that entry's uid |
| `Queries.ByName` | src/lib.rs:330-337 | `None` exactly when no group has the name; otherwise the group at the first index with that name |
| `Queries.ByGid` | src/lib.rs:340-347 | `None` exactly when no group has the gid; otherwise the group at the first index with that gid |
| `Queries.NameByGid` | src/lib.rs:350-357 | found exactly when `get_by_gid` finds a group, and then it is that group's name |
| `Queries.GidByName` | src/lib.rs:360-363 | found exactly when `get_by_name` finds a group, and then it is that group's gid |
| `Queries.ByUidFirstMatch` | src/sync_reader.rs:118-125 | when two entries share a uid, the lookup returns the earlier one |
| `Queries.PasswdDocExample` | src/lib.rs:135-140 | a three-line passwd file yields three entries; uid 1000 is user1, uid 1001 is user2 and uid 9999 is nobody |
| `Queries.GroupDocExample` | src/lib.rs:262-266 | a three-line group file yields three groups; gid 100 is users and gid 9999 is no group |
| `Cache.ReadToString` | src/lib.rs:184-186 | reading a path succeeds exactly when the file is readable, and then yields the file's whole text |
| `Cache.IsFresh` | src/lib.rs:181 | the strict test `now < last_check + cache_time`; its consequences are stated by `Cache.RefreshWhenFresh`, `Cache.StaleForever` and `Cache.StaleFromCreation` |
| `Cache.Refresh` | src/lib.rs:180-189 | `refresh_if_needed` as a function of the records, `last_check`, `cache_time`, `now` and the files; its three outcomes are stated by `Cache.RefreshWhenFresh`, `Cache.RefreshWhenStale` and `Cache.RefreshWhenUnreadable` |
| `Cache.PathOr` | src/lib.rs:185 | with no file configured the default path is read, otherwise the configured file |
| `Cache.Then` | src/lib.rs:193-194 | a lookup succeeds exactly when its refresh succeeds, and then returns its value |
| `Cache.RefreshWhenFresh` | src/lib.rs:180-183 | when `now < last_check + cache_time`, the refresh succeeds and the records are kept, whatever the files hold |
| `Cache.RefreshWhenStale` | src/lib.rs:184-188 | otherwise, when the file can be read, the records become exactly what its text yields |
| `Cache.RefreshWhenUnreadable` | src/lib.rs:184-186 | otherwise, when the file cannot be read, the error is returned and the records are kept |
| `Cache.RefreshIdempotent` | src/lib.rs:180-189 | a second refresh at the same instant against the same files gives the same result and records |
| `Cache.StaleForever` | src/sync_reader.rs:82-90 | a reader stale at some instant is stale at every later instant, because `last_check` is never advanced |
| `Cache.StaleFromCreation` | src/sync_reader.rs:57-65 | a reader created at `t` is stale at every instant from `t` on |
| `Cache.ZeroCacheSeesChanges` | src/sync_reader.rs:56 | with cache time zero, two successive lookups each read the file, so the second sees a changed file |
| `Cache.CacheHitKeepsRecords` | src/sync_reader.rs:83-85 | a refresh before `last_check + cache_time` keeps the records of the previous refresh, even if the file changed |
| `Cache.NoCacheHitAfterCreation` | src/sync_reader.rs:82-90 | at or after creation, every refresh reads the file, whatever the cache time: the result is the file's records, or the error with the records kept |
| `Cache.RefreshAsDocumented` | src/lib.rs:10-11 | the refresh the documentation describes: as `refresh_if_needed`, and `last_check` becomes `now` exactly when the file was due and readable |
| `Cache.DocumentedCacheHolds` | src/lib.rs:10-11 | as documented, after a successful read at `t` every refresh before `t + cache_time` succeeds with the records read at `t`, whatever the files then hold |
| `Cache.AsWrittenIgnoresCacheTime` | src/lib.rs:180-189 | within the cache time of a reader's first read, the code reads a changed file again, where the documented refresh keeps the records first read |
| `AsyncLookup.PasswdReader.New` | src/lib.rs:155-163 | reads `/etc/passwd`; `last_check = now - cache_time`; no entries; stale from the start |
| `AsyncLookup.PasswdReader.NewAt` | src/lib.rs:170-178 | reads the given file; `last_check = now - cache_time`; no entries; stale from the start |
| `AsyncLookup.PasswdReader.RefreshIfNeeded` | src/lib.rs:180-189 | the status and new entries are those of `Cache.Refresh`; only the entries may change |
| `AsyncLookup.PasswdReader.GetEntries` | src/lib.rs:192-195 | the refreshed entries, or the refresh error |
| `AsyncLookup.PasswdReader.ToIter` | src/lib.rs:198-201 | the refreshed entries in order, or the refresh error |
| `AsyncLookup.PasswdReader.GetByUsername` | src/lib.rs:204-214 | the first entry with the username after the refresh, or the refresh error |
| `AsyncLookup.PasswdReader.GetByUid` | src/lib.rs:217-224 | the first entry with the uid after the refresh, or the refresh error |
| `AsyncLookup.PasswdReader.GetUsernameByUid` | src/lib.rs:227-237 | the username of the first entry with the uid after the refresh, or the refresh error |
| `AsyncLookup.PasswdReader.GetUidByUsername` | src/lib.rs:240-250 | the uid of the first entry with the username after the refresh, or the refresh error |
| `AsyncLookup.GroupReader.New` | src/lib.rs:281-289 | reads `/etc/group`; `last_check = now - cache_time`; no groups; stale from the start |
| `AsyncLookup.GroupReader.NewAt` | src/lib.rs:296-304 | reads the given file; `last_check = now - cache_time`; no groups; stale from the start |
| `AsyncLookup.GroupReader.RefreshIfNeeded` | src/lib.rs:306-315 | the status and new groups are those of `Cache.Refresh`; only the groups may change |
| `AsyncLookup.GroupReader.GetGroups` | src/lib.rs:318-321 | the refreshed groups, or the refresh error |
| `AsyncLookup.GroupReader.ToIter` | src/lib.rs:324-327 | the refreshed groups in order, or the refresh error |
| `AsyncLookup.GroupReader.GetByName` | src/lib.rs:330-337 | the first group with the name after the refresh, or the refresh error |
| `AsyncLookup.GroupReader.GetByGid` | src/lib.rs:340-347 | the first group with the gid after the refresh, or the refresh error |
| `AsyncLookup.GroupReader.GetNameByGid` | src/lib.rs:350-357 | the name of the first group with the gid after the refresh, or the refresh error |
| `AsyncLookup.GroupReader.GetGidByName` | src/lib.rs:360-363 | the gid of the first group with the name after the refresh, or the refresh error |
| `AsyncLookup.PasswdReaderExample` | src/lib.rs:135-140 | a zero-cache reader answers every call from the file as it is: the entry count and the names of uid 1000 and uid 1001 are those of the file's parsed entries (3, user1 and user2 for the documentation's file, by `Queries.PasswdDocExample`) |
| `AsyncLookup.GroupReaderExample` | src/lib.rs:262-266 | a zero-cache reader answers every call from the file as it is: the group count and the name of gid 100 are those of the file's parsed groups (3 and users for the documentation's file, by `Queries.GroupDocExample`) |
| `SyncReader.PasswdReader.New` | src/sync_reader.rs:57-65 | reads `/etc/passwd`; `last_check = now - cache_time`; no entries; stale from the start |
| `SyncReader.PasswdReader.FromFile` | src/sync_reader.rs:72-80 | reads the given file; `last_check = now - cache_time`; no entries; stale from the start |
| `SyncReader.PasswdReader.RefreshIfNeeded` | src/sync_reader.rs:82-90 | the status and new entries are those of `Cache.Refresh`; only the entries may change |
| `SyncReader.PasswdReader.GetEntries` | src/sync_reader.rs:93-96 | the refreshed entries, or the refresh error |
| `SyncReader.PasswdReader.TryIter` | src/sync_reader.rs:99-102 | the refreshed entries in order, or the refresh error |
| `SyncReader.PasswdReader.GetByUsername` | src/sync_reader.rs:105-115 | the first entry with the username after the refresh, or the refresh error |
| `SyncReader.PasswdReader.GetByUid` | src/sync_reader.rs:118-125 | the first entry with the uid after the refresh, or the refresh error |
| `SyncReader.PasswdReader.GetUsernameByUid` | src/sync_reader.rs:128-135 | the username of the first entry with the uid after the refresh, or the refresh error |
| `SyncReader.PasswdReader.GetUidByUsername` | src/sync_reader.rs:138-145 | the uid of the first entry with the username after the refresh, or the refresh error |
| `SyncReader.GroupReader.New` | src/sync_reader.rs:173-181 | reads `/etc/group`; `last_check = now - cache_time`; no groups; stale from the start |
| `SyncReader.GroupReader.FromFile` | src/sync_reader.rs:188-196 | reads the given file; `last_check = now - cache_time`; no groups; stale from the start |
| `SyncReader.GroupReader.RefreshIfNeeded` | src/sync_reader.rs:198-205 | the status and new groups are those of `Cache.Refresh`; only the groups may change |
| `SyncReader.GroupReader.GetGroups` | src/sync_reader.rs:208-211 | the refreshed groups, or the refresh error |
| `SyncReader.GroupReader.TryIter` | src/sync_reader.rs:214-217 | the refreshed groups in order, or the refresh error |
| `SyncReader.GroupReader.GetByName` | src/sync_reader.rs:220-227 | the first group with the name after the refresh, or the refresh error |
| `SyncReader.GroupReader.GetByGid` | src/sync_reader.rs:230-237 | the first group with the gid after the refresh, or the refresh error |
| `SyncReader.GroupReader.GetNameByGid` | src/sync_reader.rs:240-247 | the name of the first group with the gid after the refresh, or the refresh error |
| `SyncReader.GroupReader.GetGidByName` | src/sync_reader.rs:250-253 | the gid of the first group with the name after the refresh, or the refresh error |
| `SyncReader.PasswdReaderExample` | src/sync_reader.rs:38-43 | a zero-cache reader answers every call from the file as it is: the entry count and the names of uid 1000 and uid 1001 are those of the file's parsed entries (3, user1 and user2 for the documentation's file, by `Queries.PasswdDocExample`) |
| `SyncReader.GroupReaderExample` | src/sync_reader.rs:155-159 | a zero-cache reader answers every call from the file as it is: the group count and the name of gid 100 are those of the file's parsed groups (3 and users for the documentation's file, by `Queries.GroupDocExample`) |

## Left out

- File I/O: `tokio::fs::read_to_string` and `std::fs::read_to_string` become a lookup in the `Files` map. UTF-8 validation and the kinds of `std::io::Error` are not modelled; any failure is the one value `IoError`.
- async/await and the tokio runtime: an `async fn` is an ordinary method here, since the code has no concurrency.
- Clocks: `Instant::now()` is the argument `now` and `Duration` is a `nat`. The panic of `Instant - Duration` on underflow in the constructors is not modelled, because integers are unbounded.
- Borrowed and owned results: `&Vec` and clones of entries are both plain sequence values. `to_iter` consuming the reader and the iterators of `try_iter` are modelled as the sequence they traverse.
- `PathBuf` and `Into<PathBuf>` conversions: paths are strings.
- The `Debug`, `Clone`, `PartialEq` and `Eq` derives: datatype equality stands for `PartialEq`.
- The files `test_files/passwd` and `test_files/group` used by the documentation examples are not part of this model. The examples use three-line files that meet the documentation's assertions (3 records, uid 1000 is user1, uid 1001 is user2, gid 100 is users); their other lines (root with uid 0, wheel with gid 10) are invented.
- A text whose last character is a bare `'\r'`: `Text.Lines` keeps that `'\r'`, as the current Rust standard library does. Older Rust toolchains, current when this crate was written, strip it as well, so on those a last line `…:/bin/sh\r` without a newline gives the shell `/bin/sh`; the result for such a text depends on the toolchain.
- `Decimal.ParseU32`: its contract states the accepted shape, and the value is stated by the lemmas next to it (round trip, leading `'+'` before any digits, leading zeros, overflow). There is no single ensures giving the value of arbitrary digit text.

## Findings

| source | as written | input that shows it | evidently intended | confidence | as-written member | corrected member |
|---|---|---|---|---|---|---|
| src/lib.rs:180-189 | `refresh_if_needed` never assigns `last_check`, and the constructors set it to `now - cache_time` (src/lib.rs:156, 171), so `now < last_check + cache_time` is false at every call after creation and every lookup reads the file again | a reader made with a cache time of 60 s; a lookup at creation and another 1 s later, with the file changed between them: the second lookup returns the changed file's records | the information is cached for the given duration (src/lib.rs:10-11): a successful read sets `last_check` to the time of the read, so lookups within the cache time are answered from memory | high; not executed | `Cache.AsWrittenIgnoresCacheTime` | `Cache.DocumentedCacheHolds` |
