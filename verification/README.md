# OpenAdmin: multi-server model

Dafny model of the part of OpenAdmin that runs several servers as one cluster
(`internal/cluster`), of the INI files it keeps in step (`internal/config`) and of four text
formats that are edited in place (`internal/handlers`, `internal/activity`).

Verify everything with `dafny verify dfyconfig.toml`.

## How it is modelled

- Files are a map from path to content. Text is ASCII (`Text`); a file write is atomic.
- Code that changes things step by step is a class or a method with a loop, proved against a
  specification function; what the code promises is then proved about that function.
- The cluster protocol (`Protocol`), account moves (`Moves`, `MoveSafety`, `FinishRace`) and
  apply-all (`ApplyAll`) are state machines. A remote call is a request, an effect and an
  answer; messages stay in the network, so answers can be late, repeated or lost.
- Signing and hashing are abstract: the public key determines the seed, and where a statement
  needs it the hash is assumed to have no collisions. Random ids are fresh.
- A page (`Tables`) is a sequence of HTML tokens whose raw texts follow each other.
- `State()` has value semantics, admin operations on one server are serial, node ids are
  distinct, and a failed move call had no effect. `FinishRace` and `JoinRace` say exactly what
  happens without the second of these.

Modules by theme:

| theme | modules |
|---|---|
| text and order | `Text`, `Ordering` |
| settings sync and undo | `Config`, `Settings`, `Shared`, `Pull`, `Convergence`, `Undelivered`, `UndeliveredCases`, `Undo`, `Revision`, `SlaveSync` |
| cluster protocol | `Membership`, `Protocol`, `Promotion`, `JoinRace`, `Replay`, `JoinLimit`, `AuthorizedKeys`, `Moves`, `MoveSafety`, `MoveOwnership`, `FinishRace`, `MoveManager`, `Health` |
| fan-out and merged pages | `ApplyAll`, `Tables`, `TableSpans`, `TagSpans`, `PageForm`, `PageNesting`, `TableEdges`, `Groups`, `Splices`, `Merge`, `MergedRows`, `MergeCases` |
| edited files | `EnvFile`, `EnvGrammar`, `EnvForm`, `EnvReading`, `EnvRoundTrip`, `HostKey`, `Cron`, `Activity` |

## Where the code does not do what one expects

Each item names a concrete case first, then the lemma that says exactly when the code is right.

- A section name with a dot can keep a sync from converging:
  `Convergence.DottedSectionReturns` and `UndeliveredCases.SpacedSectionReturns`; exactly when,
  in `Undelivered.ConvergesExactly`. Where a written line reads as a section header the
  condition is sufficient but not necessary: `UndeliveredCases.LostHeaderConverges`.
- A rollback does not remove an INI file that the sync created: `Undo.CreatedIniStays`; exactly
  in `Undo.RestoreUndoes`.
- A NUL in a shared file can give two different snapshots one revision: `Revision.NulCollides`;
  `Revision.HashInputIsCanonical` holds for all maps without NUL.
- Two overlapping calls to finish a move can delete both copies: `FinishRace.OverlapLoses`;
  exactly when, in `FinishRace.CallsCanLoseExactly` before the calls and in
  `FinishRace.SettledLossExactly` after them.
- A server that is joined while it adds another loses its seed:
  `JoinRace.JoinWhileAddingBreaks`; exactly when trust is kept, in `JoinRace.TrustKeptExactly`.
- Choosing another backup destination can show an example line instead of the value that was in
  use: `EnvRoundTrip.SwitchingShowsTheExample`; exactly in `EnvRoundTrip.SwitchKeepsValueExactly`.
- Editing the number of a commented cron line activates it: `Cron.CommentExample`, for all such
  lines in `Cron.EditActivatesComments`. A schedule that is not five words does not read back:
  exactly in `Cron.EditReadsBack`.
- With an active server that is no live node, apply-all stops asking one report early:
  `ApplyAll.ActiveNodeGone`; exactly in `ApplyAll.ReportersMatch`.
- The join limit of ten a minute admits 19 in some minutes and never more:
  `JoinLimit.NineteenIsReached`, `JoinLimit.NineteenAMinute`.
- A remote page that begins with a detail row gives it to another server's group:
  `Groups.LeadingDetailJoins`; exactly in `Groups.GroupsStayWithTheirServer`.
- A local row without cells is a run-time error: `MergeCases.EmptyRowFails`; exactly in
  `Merge.FailsExactly`.
- A closing header tag that is not spelled `</tr>` is split: `TagSpans.SpacedClosingTag`; exactly
  in `TagSpans.HeaderEndBoundary`.
- An activity line of a million bytes empties a full log: `Activity.LongActionEmptiesTheLog`;
  exactly in `Activity.TrimKeepsLines`.

## Model

| member | source | states |
|---|---|---|
| Config.Data.Get | internal/config/config.go:16-29 | the stored value of section and key; the fallback when the section or the key is missing |
| Config.Data.Set | internal/config/config.go:33-38 | stores one value; every other section and key keeps its own |
| Config.Load | internal/config/config.go:42-76 | reading line by line gives the parse of the text; a missing file gives no data |
| Text.TrimSpaceExactly | internal/config/config.go:50-76 | trimming takes exactly the white space at both ends |
| Text.Space | internal/config/config.go:50-76 | the six characters that are white space |
| Config.Save | internal/config/config.go:82-105 | the text is the one canonical print of the data, whatever order the maps are visited in |
| Config.ParseIsLoadable | internal/config/config.go:42-76 | every text, however malformed, parses to data in the loadable form: trimmed single-line keys and values, no brackets at the edges of section names |
| Config.RoundTrip | internal/config/config.go:42-105 | printing and parsing undo each other exactly for loadable data, and loadable data is exactly what some text parses to |
| Config.SaveIsStable | internal/config/config.go:42-105 | saving what was loaded keeps the data, and a second save writes the same text |
| Ordering.SortStrings | internal/config/config.go:82-105 | sorting distinct keys gives their one increasing order |
| Ordering.SortedIsUnique | internal/cluster/sync.go:139-150 | a set of keys has only one sorted sequence, so prints and hashes do not depend on map order |
| Settings.ClassifiedFile | internal/cluster/sync.go:71-100 | a file key that is shared names one of six fixed files or a direct child of one of two directories: a master cannot reach any other path |
| Settings.IniPathIsNotShared | internal/cluster/sync.go:63-100 | the two INI files can never be written as whole files |
| Settings.IniKeyInjective | internal/cluster/sync.go:108-137 | settings whose section names have no dot never share a key |
| Shared.SettingGroups | internal/cluster/sync.go:31-100 | by name: which settings are in the core group, which are secrets and which are nameservers; every other setting, the mail token among them, is in none |
| Shared.SecretsStay | internal/cluster/sync.go:71-100 | without "secrets" among the groups a sync writes no SMTP, CAPTCHA, AI or Cloudflare setting, whatever the master has |
| Shared.MailTokenStays | internal/cluster/sync.go:48-100 | no sync writes the mail security token, whatever the groups |
| Shared.UnwrittenStays | internal/cluster/sync.go:71-100 | a setting whose group was not chosen is not written and keeps its value |
| Shared.SharedFiles | internal/cluster/sync.go:51-82 | by path: a file is shared if and only if it is one of six, lies directly in the custom code directory, or is a text file directly in the features directory |
| Shared.FileIsReported | internal/cluster/sync.go:108-137 | a snapshot has a shared file, with its content, if and only if the file has at most two megabytes |
| Shared.IniFiles | internal/cluster/sync.go:63-68 | the paths of the two INI files |
| SlaveSync.BuildSnapshot | internal/cluster/sync.go:108-137 | the loops over sections, keys and glob matches collect a snapshot: exactly the shared settings and files with their present values |
| SlaveSync.ComputeDiff | internal/cluster/sync.go:170-182 | the sorted list of keys of both maps that are shared, in a chosen group and different, with both values |
| Pull.DiffExactly | internal/cluster/sync.go:170-182 | a comparison reports, by increasing key, exactly the shared keys of the master that are in a chosen group and have another value here, each with its group, both values and whether it is pinned |
| Pull.AppliedEffect | internal/cluster/sync.go:345-390 | after any list of shared changes every shared file has the last content written to it or what it had; and every INI setting reads back as the last value written to it or what it was, if and only if each value written to an INI file can be stored under its key |
| Pull.PullEffect | internal/cluster/sync.go:257-296 | for every master map, a sync writes the master value of exactly the shared, chosen, unpinned and different keys, and pinned, unclassified, foreign-group keys and keys the master lacks stay as they are; for INI settings this is what reads back if and only if each written value can be stored under its key |
| Convergence.PullConverges | internal/cluster/sync.go:257-296 | between servers whose section names have no dot, a second comparison after one sync finds pinned keys only |
| Convergence.ConvergesExactlyWhenSettled | internal/cluster/sync.go:257-296 | when the written values can be stored under their keys: a second comparison finds pinned keys only if and only if no stored setting with another value shares a key with the one that is written |
| Undelivered.ConvergesExactly | internal/cluster/sync.go:257-296 | for any section names on both sides: a second comparison finds pinned keys only if and only if no setting with another value shares a key with a written one and every written value can be stored under its key; the only-if half leaves out syncs that write a line reading as a section header |
| Undelivered.UndeliverableReturns | internal/cluster/sync.go:257-296 | a value the slave cannot store under its key is reported again by the next comparison, unless a written line reads as a section header |
| UndeliveredCases.SpacedSectionReturns | internal/cluster/sync.go:108-137 | a concrete master with a section "USERS. x" whose setting a slave without settings is told about again after every sync |
| UndeliveredCases.LostHeaderConverges | internal/cluster/sync.go:108-137 | concrete servers where a written line reads as a section header, its value is lost and the second comparison still finds nothing |
| Convergence.DottedSectionReturns | internal/cluster/sync.go:108-137 | a concrete master without dotted sections and a slave with one, for which the old value is reported again after a sync |
| Convergence.SnapshotIsDeliverable | internal/cluster/sync.go:108-137 | every snapshot of a master without dotted sections can be written on a slave and read back |
| SlaveSync.TouchedPaths | internal/cluster/sync.go:345-363 | an unclassified change stops the sync before anything is written; otherwise the paths to back up are those the changes write to |
| SlaveSync.Slave.BackUp | internal/cluster/sync.go:310-343 | the newest backup holds the old content of every touched path and lists those that did not exist; older backups beyond ten are dropped |
| SlaveSync.NewestBackup | internal/cluster/sync.go:310-343 | after an apply the newest backup has the old content of exactly the paths it may write, lists those without a file, and has at most nine older ones behind it |
| SlaveSync.Slave.ApplyChanges | internal/cluster/sync.go:345-390 | backs up first, then writes files and saves INI files; cut off after any number of writes the files differ from before only at touched paths |
| SlaveSync.Slave.Pull | internal/cluster/sync.go:257-296 | one sync of the server object: its files become those of the pull, its saved revision that of the master; whenever it applies anything, even if that fails, the newest backup holds the old files at all paths it may have written, and only those paths differ |
| SlaveSync.Slave.RollBack | internal/cluster/sync.go:393-431 | restores the newest backup, removes the synced files it lists as missing, and drops it |
| SlaveSync.Slave.FollowTick | internal/cluster/sync.go:516-537 | one round of the loop of a slave: a sync happens exactly in follow mode, five minutes or more after the last round that was due, when the fetched values are not the ones last applied; it applies what its own second fetch returns |
| SlaveSync.RevisionMoved | internal/cluster/sync.go:516-537 | with a hash without collisions the revision moved exactly when the master map is not the one last applied |
| Undo.RestoreUndoes | internal/cluster/sync.go:393-431 | a rollback right after an apply, cut off anywhere, gives back every file byte for byte if and only if the apply created no INI file |
| Undo.CreatedIniStays | internal/cluster/sync.go:393-431 | a run in which a sync creates openpanel.config and the rollback right after it leaves the file there |
| Undo.StepSimulates | internal/cluster/sync.go:310-431 | backup directories behave as a stack of at most ten earlier file states |
| Undo.RollbacksUndoApplies | internal/cluster/sync.go:310-431 | after any applies, each cut off anywhere, n rollbacks (n at most ten and at most the number of applies) are possible and give exactly the files before the last n applies |
| Undo.BackupsAreBounded | internal/cluster/sync.go:310-343 | never more than ten backups are kept |
| Revision.SnapshotRev | internal/cluster/sync.go:139-150 | hashes the keys in sorted order with their values |
| Revision.HashInputIsCanonical | internal/cluster/sync.go:139-150 | for maps without NUL characters the hashed text is equal if and only if the maps are |
| Revision.NulCollides | internal/cluster/sync.go:108-150 | two concrete servers with different snapshots that hash the same text, because a shared file holds NUL characters |
| Membership.Manager.HandleJoin | internal/cluster/routes.go:94-164 | accepts exactly the requests with master key and address, a valid code and a fitting version on a server that has no nodes and no other master, keeps the id it already had, and becomes a slave of the caller; otherwise nothing changes |
| Membership.Manager.BeginAdd | internal/cluster/cluster.go:551-600 | adding creates a seed if there is none and changes nothing else before the answer; a slave or a server without a licence cannot add |
| Membership.Manager.FinishAdd | internal/cluster/cluster.go:627-648 | the answer appends the node in place of any with the same address |
| Membership.Manager.RemoveNode | internal/cluster/cluster.go:673-698 | removes every entry of the id, and the master role with the last one |
| Membership.Manager.Leave | internal/cluster/cluster.go:701-714 | a slave forgets its master completely; other roles are refused |
| Membership.Manager.BeginPromote | internal/cluster/fleet.go:73-105 | a promotion goes out exactly from a licensed master with a known, unpaused, ready server and no running move, and sends its seed, the address of the other server and the list with itself in its place |
| Membership.Manager.FinishPromote | internal/cluster/fleet.go:106-131 | the old master becomes a slave that trusts the key of its own former seed |
| Membership.Manager.AcceptPromotion | internal/cluster/fleet.go:133-152 | a slave with a licence takes over seed, list and address; anything else changes nothing |
| Membership.Manager.ApplyStatusArgs | internal/cluster/fleet.go:33-49 | a status call updates what a slave knows of its master and never its role or key |
| Membership.PromotionKeepsCount | internal/cluster/fleet.go:52-152 | a completed promotion gives both servers the same cluster count, and the old one if and only if the promoted id was listed once; the slave counts the old list less the entries of that id, itself and the new master |
| Membership.CountShown | internal/cluster/fleet.go:52-63 | a slave shows the size its master last told it and 1 if it was told none; a server outside a cluster shows 1, a master its list and itself |
| Protocol.NextKeeps | internal/cluster/cluster.go:551-714 | every step of join, add, remove, leave, promote, status and pause, with answers lost or late, keeps the protocol invariant when no server is joined in the middle of an add of its own |
| Protocol.ListedSlaveTrustsItsMaster | internal/cluster/fleet.go:73-152 | in every reachable state a slave whose id a server lists trusts the key of that server, and its calls verify there |
| Protocol.NodeIdsAreExclusive | internal/cluster/routes.go:94-164 | no two servers ever hold the same node id |
| Promotion.HandingOverKeepsMembers | internal/cluster/fleet.go:73-105 | the list with the two servers swapped has the same members, seen from the other server |
| Promotion.TakeOverKeepsMembers | internal/cluster/fleet.go:73-152 | in any run, a server that took over with the list an old master still waits to hand over has exactly the members of that master |
| Promotion.CompletedPromotion | internal/cluster/fleet.go:52-152 | in any run, when a master finishes a promotion another server took over before; it is master of the same members, the old master has its name, address and key as those of its master, both servers count the same cluster, and the old count if and only if the promoted id was listed once |
| JoinRace.TrustKeptExactly | internal/cluster/cluster.go:551-648 | with joins at any time: in every state of a run all lists name ids issued for the key of their owner, if and only if no server uses an add answer under another key than it sent |
| JoinRace.UnhitAddsKeepTrust | internal/cluster/cluster.go:551-648 | with joins at any time, trust is kept over any run in which no server finishes an add during which it was itself joined |
| JoinRace.MatchingRunIsTrusted | internal/cluster/fleet.go:73-152 | as long as the keys match, every listed slave accepts the calls of its lister |
| JoinRace.JoinWhileAddingBreaks | internal/cluster/cluster.go:551-648 | a concrete run of five steps from blank servers: one is joined while it waits for an add answer, and then lists a slave that rejects its calls |
| Replay.Verifier.Verify | internal/cluster/cluster.go:442-481 | accepts exactly signed claims for this server within their time whose id is not held; remembers them until a minute after they expire, and a refused call changes nothing it holds |
| Replay.AcceptedExactly | internal/cluster/cluster.go:442-481 | in any run a call is accepted if and only if it is signed, for this server and in time, and no earlier accepted call still holds its id |
| Replay.NoClaimTwice | internal/cluster/cluster.go:427-481 | in any run of one process no claim is accepted twice, despite whole-second clocks |
| Replay.PaddingThreshold | internal/cluster/cluster.go:458-476 | the margin an id must be kept beyond expiry is one second less a nanosecond: any less admits a replay |
| Replay.ClockWindow | internal/cluster/cluster.go:427-456 | a claim is in time if and only if the clocks differ by at most sixty whole seconds |
| AuthorizedKeys.KeyFile.Authorize | internal/cluster/health.go:527-541 | appends one restricted key line, first ending an unfinished last line |
| AuthorizedKeys.KeyFile.Revoke | internal/cluster/health.go:543-555 | drops the lines that end in the tag comment; a missing file stays missing |
| AuthorizedKeys.KeysAfterRevoke | internal/cluster/health.go:543-555 | exactly the key lines without the tag remain, in order |
| AuthorizedKeys.KeysAfterAuthorize | internal/cluster/health.go:527-541 | exactly one key line is added, at the end |
| AuthorizedKeys.TagDecides | internal/cluster/health.go:543-555 | the comments of two different hex tags never end alike |
| AuthorizedKeys.GrantCarries | internal/cluster/health.go:527-541 | a granted line carries its own tag and no other |
| AuthorizedKeys.GrantSays | internal/cluster/health.go:527-541 | the text of a granted line: the one address it is for, no forwarding, the key and the tag |
| AuthorizedKeys.ValidExactly | internal/cluster/health.go:236-239 | which grants are written: the form of key, address and tag, by their characters and lengths |
| AuthorizedKeys.TransfersDoNotInterfere | internal/cluster/health.go:527-555 | under any interleaving of grants and revocations the file keeps its own keys in order, followed by exactly the grants in force |
| MoveManager.Manager.SaveStatus | internal/cluster/move.go:210-219 | rewrites the status of the jobs with the id in place and nothing else |
| MoveManager.Manager.StartMove | internal/cluster/move.go:131-208 | a job is added exactly when the account is on the source, not on the destination and in no unfinished move; the list keeps its last fifty jobs |
| MoveManager.Manager.FindJob | internal/cluster/move.go:333-345 | the last job with the id |
| MoveManager.Manager.FinishMove | internal/cluster/move.go:333-374 | deletes one copy and closes the job exactly when it was copied, mail was synced (for finalizing) and the delete call succeeded; otherwise nothing changes |
| MoveManager.WatchMove | internal/cluster/move.go:262-304 | polls up to the deadline and reports the first finished answer |
| MoveManager.FirstFinishedDecides | internal/cluster/move.go:262-304 | answers before the first finished one do not matter, later ones are never asked for |
| MoveManager.RetryCall | internal/cluster/move.go:307-316 | stops at the first success and fails only if every try does |
| MoveSafety.NextKeeps | internal/cluster/move.go:179-374 | every step of a move, of a restart and of finishing keeps the invariant on jobs, accounts and keys |
| MoveSafety.AccountsAreNeverLost | internal/cluster/move.go:131-374 | over any run every account that existed somewhere still exists somewhere |
| MoveOwnership.OnlyOwnCopiesAreDeleted | internal/cluster/move.go:179-374 | over any run a copy is deleted only for a move of that account: the source copy of a copied move while the destination has one, or the destination copy of an unfinished one while the source has one and the destination had none when the move was started |
| MoveSafety.UnfinishedMovesAreSafe | internal/cluster/move.go:179-304 | no account has two unfinished moves; an unfinished move still has its source copy, a copied one both |
| MoveSafety.StatusesFollow | internal/cluster/move.go:210-374 | a status only goes from running to copied or failed and from copied to finalized or cancelled |
| MoveSafety.FinishKeeps | internal/cluster/move.go:333-374 | finalizing leaves the account on the destination only, cancelling on the source only |
| MoveSafety.AccessEndsWithTheMove | internal/cluster/move.go:228-331 | once a move is over and its revoke call succeeded, the destination accepts no key with its tag |
| FinishRace.CallsCanLoseExactly | internal/cluster/move.go:333-374 | for a copied job and any calls on it: some interleaving loses the account if and only if both a finalize and a cancel are among the calls |
| FinishRace.SettledLossExactly | internal/cluster/move.go:333-374 | once all calls of a run have ended, the account is lost if and only if a finalize and a cancel both passed the status check |
| FinishRace.SerialCallsAreSafe | internal/cluster/move.go:333-374 | with one call at a time the account survives where the saved status says |
| FinishRace.OverlapLoses | internal/cluster/move.go:333-374 | the run in which a given finalize and a given cancel overlap and lose the account |
| Health.Monitor.StoreHealth | internal/cluster/health.go:176-194 | replaces the health map, keeping a failed server online until its third failure |
| Health.Monitor.RefreshHealth | internal/cluster/health.go:134-173 | one poll and the notices it sends |
| Health.OnlineIsASlidingWindow | internal/cluster/health.go:176-194 | a polled server is shown online if and only if one of its last three polls was answered |
| Health.ShownRow | internal/cluster/health.go:176-194 | the row shown for a server: the last answered one through its first two failures, else the row of the last poll |
| Health.NoticesExactly | internal/cluster/health.go:150-173 | when exactly an offline or back-online notice is sent |
| Health.NoticesAlternate | internal/cluster/health.go:134-194 | under uninterrupted polling notices alternate, offline first, and their parity is the shown state |
| EnvFile.SectionIs | internal/handlers/backups_env_form.go:60-69 | no key belongs to two destinations |
| EnvGrammar.LineExactly | internal/handlers/backups_env_form.go:39-40 | by its text: a line is a setting of a key, commented or not, if and only if it is spelled so |
| EnvGrammar.UnquoteExactly | internal/handlers/backups_env_form.go:71-78 | a value loses one pair of equal quotes around it, else only the space around it |
| EnvGrammar.S3KeysAre | internal/handlers/backups_env_form.go:21-25 | the keys of the S3 destination |
| EnvGrammar.WebdavKeysAre | internal/handlers/backups_env_form.go:26-26 | the keys of the WebDAV destination |
| EnvGrammar.SshKeysAre | internal/handlers/backups_env_form.go:27-30 | the keys of the SSH destination |
| EnvGrammar.AzureKeysAre | internal/handlers/backups_env_form.go:31-34 | the keys of the Azure destination |
| EnvGrammar.DropboxKeysAre | internal/handlers/backups_env_form.go:35-35 | the keys of the Dropbox destination |
| EnvForm.ParseBackupEnvForm | internal/handlers/backups_env_form.go:81-124 | the loops give the form of the folded lines |
| EnvForm.ChooseDestination | internal/handlers/backups_env_form.go:100-124 | the first active destination in menu order, and how many are active |
| EnvReading.SeveralExactly | internal/handlers/backups_env_form.go:100-124 | the form says that several destinations are active if and only if lines of two destinations are |
| EnvReading.DestinationExactly | internal/handlers/backups_env_form.go:100-124 | the destination is the first of s3, webdav, ssh, azure and dropbox with an active line, none if there is none |
| EnvReading.FieldShows | internal/handlers/backups_env_form.go:81-124 | a field shows its last active line; without one its first commented line; without any, nothing |
| EnvReading.SavedField | internal/handlers/backups_env_form.go:81-175 | after saving, the form has the posted values of the chosen destination in its fields |
| EnvForm.RenderBackupEnvForm | internal/handlers/backups_env_form.go:127-175 | the in-place rewrite of the lines and the appended missing keys |
| EnvForm.RewriteLine | internal/handlers/backups_env_form.go:135-163 | one line of the rewrite |
| EnvRoundTrip.SavedDestination | internal/handlers/backups_env_form.go:81-175 | reading a saved form never shows two destinations, and the chosen one if and only if one of its posted values is not empty |
| EnvRoundTrip.SavedValue | internal/handlers/backups_env_form.go:81-175 | every posted value of the chosen destination is read back, less one pair of quotes |
| EnvRoundTrip.SavedSettings | internal/handlers/backups_env_form.go:81-175 | the general settings are the old ones in order with exactly the posted ones replaced |
| EnvRoundTrip.OtherLinesStay | internal/handlers/backups_env_form.go:127-163 | every line that is not a destination key, an active other destination or a posted general setting keeps its text and place |
| EnvRoundTrip.SavedOtherValue | internal/handlers/backups_env_form.go:81-175 | a value of another destination is afterwards read from the first line of its key |
| EnvRoundTrip.SwitchKeepsValueExactly | internal/handlers/backups_env_form.go:81-175 | a value of another destination stays as it is shown if and only if the first line of its key, once commented, reads as the last active line of the key, or no line of the key is active |
| EnvRoundTrip.SwitchingShowsTheExample | internal/handlers/backups_env_form.go:81-175 | a file whose value in use is hidden by an example line once another destination is chosen |
| HostKey.BackupEnvValues | internal/handlers/backups_ssh_hostkey.go:37-45 | the last uncommented value of each key |
| HostKey.FindPlace | internal/handlers/backups_ssh_hostkey.go:52-72 | the first active line, else the first commented one, else behind the last line with the same prefix, else the end |
| HostKey.PlaceExactly | internal/handlers/backups_ssh_hostkey.go:52-72 | that place in terms of the lines of the file: whose setting, commented or not, and which of several |
| HostKey.PrefixIs | internal/handlers/backups_ssh_hostkey.go:51-51 | the prefix goes up to and with the first underscore |
| HostKey.SetBackupEnvValue | internal/handlers/backups_ssh_hostkey.go:48-79 | the text is the file with the key set at that place, all other lines kept |
| HostKey.SetEffect | internal/handlers/backups_ssh_hostkey.go:48-79 | no other active value changes; the key gets the value if it had at most one active line |
| HostKey.PinBackupSSHHostKey | internal/handlers/backups_ssh_hostkey.go:82-103 | a key is fetched exactly for an active SSH host without a key or with the old key after a move; the fetched key is set, and without one the file stays and an error is reported; with a key and no move, or with a new key, the file stays and there is no error whatever the fetch answers |
| HostKey.PinKeeps | internal/handlers/backups_ssh_hostkey.go:82-103 | a stored key stays as long as host and port do, and so does one that was just changed; the file changes only in the other cases |
| HostKey.PinEffect | internal/handlers/backups_ssh_hostkey.go:82-103 | pinning changes no other active value and nothing without an active SSH host; on success the host key is not empty, and not the old one after host or port moved |
| HostKey.SavedHostKeyLines | internal/handlers/backups_env_form.go:127-175 | a saved form has at most one active host key line and no active SSH host under another destination |
| HostKey.OtherDestination | internal/handlers/backups_env_form.go:127-175 | after saving no key of a destination that was not chosen is active |
| HostKey.SaveThenPin | internal/handlers/backups.go:362-366 | saving and pinning together: nothing is added under another destination, an active SSH host ends with a host key, not the old one after host or port moved, and a stored or newly typed key is kept |
| Cron.CronTab.ReadCronJobs | internal/handlers/cronjobs.go:183-198 | the listed jobs with their line numbers |
| Cron.CronTab.CronLineForCommand | internal/handlers/cronjobs.go:207-221 | the first listed line that runs the command, 0 only if there is none |
| Cron.CronTab.AddOrUpdateCron | internal/handlers/cronjobs.go:76-128 | rewrites the numbered line when it parses, through the dance with the final newline; a missing file stays missing |
| Cron.EditWrites | internal/handlers/cronjobs.go:76-128 | the text an edit writes: schedule, root, the command with the full path of opencli, and the logging tail |
| Cron.ListedExactly | internal/handlers/cronjobs.go:34-37 | a line is listed if and only if it has six words and begins with neither # nor @ |
| Cron.LineReads | internal/handlers/cronjobs.go:45-71 | the schedule, command and flag a line reads as |
| Cron.EveryJobIsListed | internal/handlers/cronjobs.go:183-198 | the list has exactly the jobs of the lines that parse, in order |
| Cron.ParsedIsCommand | internal/handlers/cronjobs.go:45-71 | a shown command is single-spaced, has no "&&" and is a fixed point of restoring and showing the opencli path |
| Cron.ReadsBack | internal/handlers/cronjobs.go:45-128 | a written line parses to the same command and flag, and to its schedule if and only if that is five single-spaced words |
| Cron.EditKeepsOthers | internal/handlers/cronjobs.go:76-128 | an edit changes one line and keeps every other byte for byte |
| Cron.EditReadsBack | internal/handlers/cronjobs.go:34-198 | an edited line is listed with the posted schedule and flag and its command if and only if the schedule is well formed |
| Cron.EditedJobs | internal/handlers/cronjobs.go:76-221 | the job list after an edit is the old one with that job changed, and every command is still found on its line |
| Cron.EditActivatesComments | internal/handlers/cronjobs.go:45-128 | editing the number of a commented line of six words turns it into a job |
| Cron.CommentExample | internal/handlers/cronjobs.go:45-71 | such a line |
| Activity.PathIsOwn | internal/activity/activity.go:37-42 | different users have different files, directly inside the directory |
| Activity.PathExactly | internal/activity/activity.go:37-42 | the file of a safe user name, and none for any other |
| Activity.NormalKeepsWords | internal/activity/activity.go:45-60 | the recorded action has the words of the given one |
| Activity.ScannedLines | internal/activity/activity.go:111-134 | the scanner returns the lines of the file, an unfinished last one among them |
| Activity.ReturnIsDropped | internal/activity/activity.go:111-134 | one carriage return at the end of a line is dropped |
| Activity.Activity.Record | internal/activity/activity.go:45-73 | appends the normalised line and trims; it continues any run of the log by one entry, which parses back if the address does; unsafe names and empty actions change nothing |
| Activity.Activity.TrimFile | internal/activity/activity.go:76-100 | cuts a file that grew too large and leaves others alone |
| Activity.Activity.Read | internal/activity/activity.go:111-134 | every entry that parses, newest first |
| Activity.TurnAround | internal/activity/activity.go:130-132 | the loop reverses the entries in place |
| Activity.Activity.Last | internal/activity/activity.go:137-162 | the entry of the last line within the final 8192 bytes |
| Activity.TrimKeepsLines | internal/activity/activity.go:76-100 | trimming leaves whole newest lines within the size; the newest line survives if and only if it fits into the kept part with the newline before it |
| Activity.LongActionEmptiesTheLog | internal/activity/activity.go:76-100 | two concrete actions of a million bytes, the second of which empties the log |
| Activity.LogIsTail | internal/activity/activity.go:45-100 | over any run the log is at most 2,000,000 bytes and a whole-line tail of what was recorded |
| Activity.ParsesBack | internal/activity/activity.go:102-108 | a recorded line parses to its time, address and action if and only if the address has no double space and no space at its end |
| Activity.LastReads | internal/activity/activity.go:137-162 | Last parses the newest line, or its final 8191 bytes if it is longer |
| Activity.ReadsWhatWasRecorded | internal/activity/activity.go:45-162 | Read returns the kept entries newest first, and Last the first of them if its line has at most 8191 bytes |
| ApplyAll.Applies.ApplyBegin | internal/cluster/applyall.go:157-166 | announces n more reports |
| ApplyAll.Applies.ApplyDone | internal/cluster/applyall.go:168-174 | files one report |
| ApplyAll.Applies.ApplyTake | internal/cluster/applyall.go:177-187 | hands over and clears the finished reports, and says whether more are pending |
| ApplyAll.FanOut | internal/cluster/applyall.go:396-426 | who reports: this server unless the page was its own, and then each live node but the active one, once and in its place |
| ApplyAll.ReportersMatch | internal/cluster/applyall.go:396-426 | as many servers report as were announced if and only if the active server is this one and not a node, or exactly one live node |
| ApplyAll.StepsAreCalls | internal/cluster/applyall.go:157-187 | the steps of a run change the map as the three calls do |
| ApplyAll.ExactlyOnce | internal/cluster/applyall.go:157-426 | in every interleaving batches plus held reports are the finished ones, each once and in order; pending is announced minus finished, and with balanced fan-outs the number still running |
| ApplyAll.TakeSeesTheEnd | internal/cluster/applyall.go:177-187 | more is reported as long as a server is running, and the take after that completes the reports |
| ApplyAll.ActiveNodeGone | internal/cluster/applyall.go:396-426 | with an active server that is no live node the count reaches zero while one server still runs |
| ApplyAll.BulkTargets | internal/cluster/applyall.go:432-446 | every selected item goes to exactly one server, in order |
| ApplyAll.KeysArePicked | internal/cluster/applyall.go:432-446 | a server gets the keys of exactly the selected items that are for it, in order |
| ApplyAll.OwnItemStays | internal/cluster/applyall.go:432-446 | an item without a server id goes to the active server as it is |
| ApplyAll.RemoteItemReachesItsServer | internal/cluster/applyall.go:432-446 | an item printed with a server id is sent to that server with its key |
| JoinLimit.JoinAttempts.JoinAllowed | internal/cluster/routes.go:84-92 | ten calls a window; a new window starts more than a minute after the last one |
| JoinLimit.NineteenAMinute | internal/cluster/routes.go:77-92 | no closed interval of sixty seconds lets more than 19 attempts through |
| JoinLimit.NineteenIsReached | internal/cluster/routes.go:77-92 | a run that reaches 19 |
| Tables.ParseTables | internal/cluster/merge.go:80-165 | the token loop computes the fold of its steps |
| Tables.AfterChecks | internal/cluster/merge.go:189-194 | the column behind the last one with a check box |
| Tables.BehindChecks | internal/cluster/merge.go:180-194 | by the cells: the check boxes of the header and of the first row that is no detail row decide where the search for a naming column begins |
| Tables.FirstNaming | internal/cluster/merge.go:195-203 | the first column from there that names the row |
| Tables.TableColumn | internal/cluster/merge.go:179-204 | directly behind the first column that names the row, looked for behind the check boxes; without one, behind the first column there |
| Tables.FindTableColumn | internal/cluster/merge.go:179-204 | the loops find that column |
| Tables.RowColumnKeepsRight | internal/cluster/merge.go:207-213 | in a shorter row the column keeps its distance from the right end, or stays when there is no room |
| Tables.MatchTable | internal/cluster/merge.go:759-772 | the table with the same id, or at the same place when there is no id; none only if there is none |
| TableSpans.StepKeeps | internal/cluster/merge.go:103-164 | every token of a well-nested page keeps all spans in order and inside each other |
| TableSpans.SpansAreOrdered | internal/cluster/merge.go:80-165 | in a well-nested page header, rows and body end of each table are in order, tables lie apart, and all of it is within the page |
| TagSpans.SpansAreTags | internal/cluster/merge.go:80-165 | in any page a row span runs from its <tr> to behind its </tr>, a cell from its tag to behind its end tag, and the body end is in front of </tbody> |
| TagSpans.HeaderEndBoundary | internal/cluster/merge.go:694-697 | a header cell put five bytes before the end of the row is in front of the closing tag if and only if that tag has five bytes |
| TagSpans.SpacedClosingTag | internal/cluster/merge.go:694-697 | a concrete header row that ends in </tr >, in which five bytes before the end is inside of that tag |
| PageForm.CellRun | internal/cluster/merge.go:144-163 | a cell with its content adds exactly one cell: place, class, text, check box, sort key |
| PageForm.TableRun | internal/cluster/merge.go:110-164 | a table adds exactly itself with all its rows |
| PageForm.ParseFindsEveryTable | internal/cluster/merge.go:80-165 | parsing a printed page of tables finds exactly its tables, rows and cells |
| TableEdges.ParsingBeginsAnew | internal/cluster/merge.go:107-124 | in any page, behind the end of a table parsing begins anew, whatever was left open: the tables are those so far and those of the rest |
| TableEdges.NestedIsSkipped | internal/cluster/merge.go:107-127 | a table inside of a table is passed over, whatever it holds |
| TableEdges.LateCell | internal/cluster/merge.go:98-163 | a cell still open when its row ends gets the text up to its own end in the stored row, header or body |
| TableEdges.ReplacedHeader | internal/cluster/merge.go:140-147 | a cell left open in a header that another row replaces is lost |
| TableEdges.TemplateMarks | internal/cluster/merge.go:137-139 | a table is marked as filled by JavaScript exactly by a template in its body between two rows |
| PageNesting.PrintedPageIsWellNested | internal/cluster/merge.go:80-165 | every page of tables in their usual form is well nested, so the tables found in it are in order and apart |
| Groups.OwnGroups | internal/cluster/merge.go:602-617 | rows added behind others form their own groups if and only if the first is no detail row |
| Groups.GroupingKeepsText | internal/cluster/merge.go:602-617 | grouping loses, doubles and moves no row |
| Groups.GroupsAreRuns | internal/cluster/merge.go:602-617 | each group is a row with exactly the detail rows behind it, with the server, sort text and time of that row |
| Groups.GroupsStayWithTheirServer | internal/cluster/merge.go:619-632 | no group mixes two servers if and only if no server behind another begins with a detail row |
| Groups.LeadingDetailJoins | internal/cluster/merge.go:602-632 | two concrete servers: the second begins with a detail row, which joins the group of the first |
| Groups.SortIsPermutation | internal/cluster/merge.go:663-686 | sorting moves whole groups only, whatever the order |
| Groups.SortSorts | internal/cluster/merge.go:663-686 | with a consistent order the result is sorted |
| Groups.SortIsStable | internal/cluster/merge.go:663-686 | groups that tie keep their order |
| Groups.OrdersAreWeak | internal/cluster/merge.go:671-686 | the orders by server and by time are consistent |
| Groups.LowerExactly | internal/cluster/merge.go:671-678 | server names compare with capital letters read as small ones |
| Splices.WriteSplices | internal/cluster/merge.go:722-731 | the writing loop for splices that lie behind each other |
| Splices.OnlySplicesDiffer | internal/cluster/merge.go:722-731 | page and result are the same kept pieces, with the cut text in the one and the new text in the other |
| Splices.PlaceIs | internal/cluster/merge.go:719-722 | the filter splice is added in its place and no other is lost or moved |
| Splices.PlaceKeepsOrder | internal/cluster/merge.go:719-722 | the filter splice goes to its place if it is in no region that is cut |
| Merge.FindLastColumn | internal/cluster/merge.go:587-601 | the last column with a property, for times and sort keys |
| Merge.CellAt | internal/cluster/merge.go:640-660 | the local Server cell goes in front of a cell or behind the last one |
| Merge.AddLocalRows | internal/cluster/merge.go:638-661 | the groups of the local rows, each printed with a Server cell at its column unless it is a detail row; or the run-time error if a row has no cell |
| Merge.LocalLinesShow | internal/cluster/merge.go:638-661 | every local row is the row of the page with one cell more, at the column of the row and with the class of the cell there; detail rows stay as they are |
| MergedRows.TakesPart | internal/cluster/merge.go:580-645 | a table is left alone if and only if it has a template, no header or no body, or nobody has rows to show and no column is forced; it fails exactly if it shows a local row without cells |
| MergedRows.HeaderCell | internal/cluster/merge.go:688-700 | the header gets one cell more, at its column and with the class there |
| MergedRows.SameColumn | internal/cluster/merge.go:179-213 | in rows as wide as the header the new cell is in the column of the new header cell |
| MergedRows.RemoteLinesShow | internal/cluster/merge.go:619-632 | the rows of another server, with its name, in its order |
| MergedRows.Arranged | internal/cluster/merge.go:663-686 | by the sorted column if another server has rows, else by server name in the direction asked for, else newest first, else unmoved |
| MergedRows.MergedBody | internal/cluster/merge.go:580-717 | the body of a merged table: the own rows and those of every other server, each printed as stated, their groups in the order asked for, and nothing else |
| MergedRows.EveryPlanIsSpliced | internal/cluster/merge.go:570-718 | the splices of a page are those of exactly the tables with a plan, header cell and body of each, in order |
| MergedRows.FilterIsAdded | internal/cluster/merge.go:719-722 | with a filter one splice is added to them, without one none |
| Merge.AddRemoteRows | internal/cluster/merge.go:619-632 | the groups of all remote rows, and whether there are any |
| Merge.PlanTable | internal/cluster/merge.go:580-717 | one table: skipped, failed, or a header splice and a body splice with the ordered groups; what these hold is stated in `MergedRows` |
| Merge.SplicesInOrder | internal/cluster/merge.go:570-722 | the splices of a page with ordered tables lie behind each other, each a header cell or the body of a table |
| Merge.MergeTables | internal/cluster/merge.go:570-731 | for tables in order and a filter outside of the replaced bodies: the merged page is the page with those splices, unchanged if there are none, and an error exactly if a table fails |
| Merge.FailsExactly | internal/cluster/merge.go:640-650 | merging fails if and only if a table that takes part shows local rows and one of them has no cell |
| MergeCases.EmptyRowFails | internal/cluster/merge.go:640-650 | a concrete page with two body rows without cells that cannot be merged, whatever the other servers send |
| Merge.MergeKeepsPage | internal/cluster/merge.go:570-731 | for any well-nested page, everything outside of header cells and body regions is kept piece by piece |
| Merge.BodyHasEveryRow | internal/cluster/merge.go:602-717 | a merged body is a permutation of the groups of all local and remote rows, with their whole text |

## Left out

- HTTP, TLS pinning, cookies, CSRF tokens, sessions, the reverse proxy and `switcher.js`: network and interface plumbing.
- The mathematics of Ed25519 (section 5.1 of RFC 8032), SHA-256 and random numbers: abstract functions.
- `opencli`, `systemd-run`, `podman`, `rsync` and SQL: only their effect on files or on which server has an account; a transfer never deletes its source.
- The HTML tokenizer, the rewriting of attributes in rows of other servers, pickers and dropdowns: parameters of `Merge`, and token kinds, names, attributes and raw texts.
- `fixCounts`: the merged page is stated before its totals are counted again.
- MergedRows.Arranged: the order by text is a parameter, and the result is sorted by it only if it is consistent, which `lessText` is not on columns that mix numbers and words; there only `Groups.SortIsPermutation` holds, and `sort.SliceStable` is modelled by insertion, which gives another permutation than the library may when the order is inconsistent.
- Groups.OrdersAreWeak: covers the orders by server and by time, not the one by text, for the reason above.
- Merge.MergeTables: asks for tables whose spans are in order, which every page in the usual form has (`PageNesting.PrintedPageIsWellNested`), and for a filter next to the search box that is not inside a replaced body; where the search box is found, and the run-time error of a page whose spans overlap, are not modelled.
- Merge.MergeKeepsPage: needs the page to be well nested, for the same reason.
- TableSpans.SpansAreOrdered: needs the page to be well nested (one thead before one closed tbody, rows and cells closed before the next); in other pages only `TagSpans.SpansAreTags` holds.
- Write failures in the middle of a file and crashes during one write: a write happens or does not. Between writes a sync may stop anywhere.
- Line lengths above which a scanner stops (64 KB for INI files, 1 MB for the activity log), and Unicode: texts are ASCII, and white space is ASCII white space.
- Activity.ReadsWhatWasRecorded: takes the time stamp as a parameter in the format of the log, and addresses that parse back; `Activity.ParsesBack` says which do.
- Cron.EditedJobs: one edit; the loop over several posted edits is not modelled.
- EnvRoundTrip.SavedValue: posted values cover the destination and have one line each, which the form guarantees.
- HostKey.PinEffect: needs at most one active host key line, which `HostKey.SavedHostKeyLines` proves of every saved form.
- MoveSafety.AccountsAreNeverLost: finishing runs one call at a time, an unfinished job stays on the list of fifty, and a failed call had no effect; `FinishRace` drops the first of these.
- Protocol.NextKeeps: a server that waits for an add answer is not joined by another; `JoinRace` drops this and says exactly when trust is kept.
- Membership.Manager.HandleJoin: the pinned certificate (SPKI and TLS name) that a complete request also has to name, and the sync mode, groups, pinned keys and last revision that the new state carries over, are left out; so is the join code file, which a successful join removes.
- Membership.Manager.ApplyStatusArgs: the certificate the call also has to name and would update is left out.
- Undelivered.ConvergesExactly: the only-if half says nothing of a sync that writes a line reading as a section header; there the settings behind that line move to another section, and `UndeliveredCases.LostHeaderConverges` shows that the condition is not necessary.
- Shared.SecretsStay: that nothing is written holds for every sync; that the old value reads back holds when each written value can be stored under its key, the condition of `Pull.PullEffect`.
- Replay.NoClaimTwice: one process; the map of seen ids does not survive a restart.
- Health.Monitor.RefreshHealth: a poll is the set of answers, not the goroutines that fetch them.
- Slices that Go shares in place (`s.Nodes[:0]`, jobs, rows, lines) are sequences in fields or variables, so aliasing of their backing arrays is not captured; the array of `Activity.Read` is.
- `internal/handlers/api_*.go`, the routing in `cmd/openadmin/main.go`, auth middleware, dashboards and pagination: thin wrappers.
- `combined.go` (lists of tasks and activity of all servers), `enroll.go` (one-time invites), `keyreuse.go` (one line of a Caddyfile), `reseller.go` (copying a reseller account) and `versionNewer`: not modelled.
