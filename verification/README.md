# Factorio Discord bot: backups, RCON and server lifecycle in Dafny

The bot runs a Factorio server for a Discord guild. `/start` launches an EC2 instance
(or uses one fixed bare-metal host) and restores a backup archive. `/stop` saves the
game over RCON, uploads a backup and terminates the instance. `/save` takes a backup
without stopping. `/describe` shows a backup's metadata. Backups live in an S3 bucket
under keys of the form `<name>.<YYYY.MM.DD>.tar.bz2`.

This project models the logic of that bot that does not depend on the outside world:

- `backup_key.dfy` (module `BackupKey`): the key grammar. It builds a key from a save
  name and a calendar date, and parses a key back.
- `registry.dfy` (module `Registry`): what the bot reads from a bucket listing. This is
  the distinct save names, the newest archive of a save, and the name/date tree the
  bot prints.
- `metadata.dfy` (module `Metadata`): nested metadata flattened into `a.b: value` lines.
- `messages.dfy` (module `Messages`): long replies split into Discord-sized chunks, and
  the choice between `reply`, `editReply` and `followUp`.
- `rcon.dfy` (module `Rcon`): the RCON packet encoder, as a method over an array
  checked against a byte-sequence specification. It also holds the handshake client,
  as a class with the `authenticated` flag, and the bounded `waitForPort` retry loop.
  Last comes the SSH-tunnelled `sendRcon`.
- `lifecycle.dfy` (module `Lifecycle`): the provider strategies and the `start`, `stop`
  and `save` handlers.
  - The AWS, S3 and SSH services are a record of their answers (`Cloud`).
  - Every call a handler makes is appended, in order, to an effect log.
  - The log and the shared `state.instanceId` are fields of the class `ControlPlane`.
  - Each handler's behaviour is stated by a function and lemmas over it.
- `autocomplete.dfy` (module `Autocomplete`): the option lists of the `start`, `save`
  and `describe` commands.
- `text.dfy`, `seqs.dfy` and `wrappers.dfy` hold shared helpers. These are decimal
  rendering, `trimEnd`, `split`/`join`, de-duplication, `slice`, and an optional value
  standing for `null`/`undefined`.

Where the description of the system and the code disagree, the model follows the code:

- A key parses only with a date stamp `dddd.dd.dd` right before `.tar.bz2`. No other
  date form is accepted.
- The bucket listing is not filtered for `.json` companions. Those keys are dropped only
  because they do not parse (`BackupKey.MetadataKeyIsNotBackup`).
- The AWS strategy's `save` makes no RCON save before its backup. `commands/save.js`
  does make one. The strategy's `stop` makes one too.
- `lib.js` declares `sshAndSetup(ip, backupFile)`. The TypeScript strategies call it with
  a version and a list of preparation commands. The model records what the strategies
  pass.
- The TypeScript `rcon.ts` encoder is byte for byte the one in `rcon.js`, so one
  `Rcon.Encode` models both.
- `CreateTags` replaces an existing tag with the same key. `Lifecycle.Retag` models
  that service behaviour, which the bot relies on when a later `stop` reads the tag.

## Model

| member | source | states |
|---|---|---|
| BackupKey.ParseBackupKey | lib.js:324-328 | a parsed key is exactly `name + "." + date + ".tar.bz2"`, with a `dddd.dd.dd` date and a name without line terminators |
| BackupKey.ParseBackupKeyExactly | lib.js:324-328 | the parse returns `{name, date}` if and only if the key is built from that name and date by the grammar (both directions) |
| BackupKey.DateStampWellFormed | lib.js:299-303 | a date with a four-digit year renders as `YYYY.MM.DD`, with month and day padded to two digits |
| BackupKey.ParseBackupFilename | lib.js:299-307 | round trip: the key `backupFilename(name)` parses back to `name` and that day's date stamp |
| BackupKey.BackupFilenameNeedsFourDigitYear | lib.js:299-307 | for a year outside 1000..9999, the bot's own key does not parse |
| BackupKey.MetadataKeyIsNotBackup | lib.js:309-328 | the `.json` companion key written by the backup never parses as a backup key |
| Text.NatToStringWidth | lib.js:299-303 | `String(n)` has `k` digits exactly when `10^(k-1) <= n < 10^k` |
| Text.Pad2 | lib.js:301 | `padStart(2, '0')` of a number below 100 has two digits, with a leading zero below 10 |
| Text.TrimEnd | lib.js:399 | `trimEnd` keeps the longest prefix that does not end in whitespace, and only whitespace is dropped |
| Text.Split | lib.js:394 | `split('\n')` gives at least one piece, and no piece holds the separator |
| Text.JoinSplit | lib.js:394 | joining the pieces of `split` with the separator gives the text back |
| Registry.ParsedNamesExactly | lib.js:330-338 | a name occurs among the parsed names exactly when some listed key parses to it |
| Registry.BackupNamesExactly | lib.js:330-338 | the names are distinct, and a name is listed if and only if some key parses to it |
| Registry.ListBackupNames | lib.js:330-338 | the set-filling loop returns the distinct parsed names in first-seen order, with no name from a key that does not parse |
| Registry.BackupsOf | lib.js:342-344 | the filtered entries are exactly those whose key parses to the requested name |
| Registry.NewestIndex | lib.js:345-346 | the chosen entry has the greatest `LastModified`, and it is the first such entry, as a stable sort leaves it |
| Registry.LatestBackupKey | lib.js:340-347 | `null` if and only if no key parses to the name; otherwise a listed key of that name |
| Registry.LatestBackupKeyParses | lib.js:340-347 | the latest key parses back to the requested name |
| Registry.ItemsOfSource | lib.js:351-355 | every item of a name comes from a listed key that parses to that name and date, with that key's size |
| Registry.ItemsOfUnlisted | lib.js:351-355 | a name no key parses to has no items |
| Registry.InsertByDateSorted | lib.js:360 | inserting into a newest-first list keeps it newest first and adds exactly that item |
| Registry.SortByDateDescCorrect | lib.js:360 | the group sort puts dates in descending string order and is a permutation |
| Registry.CollectByName | lib.js:350-356 | the map-filling loop gives the names in first-seen order, and each name's items in listing order |
| Registry.BackupTree | lib.js:349-360 | the grouping of `formatBackupTree` equals its specification: names in first-seen order, each group sorted newest first |
| Registry.BackupTreeNames | lib.js:358-359 | the tree has one group per distinct parsed name, each name once |
| Registry.BackupTreeGroup | lib.js:349-361 | each group is newest first, holds exactly its name's items, and every date comes from a key of that name |
| Registry.RenderTree | lib.js:361-366 | the tree text opens and closes with a code fence |
| Metadata.FlattenUnderPrefix | lib.js:272-283 | under a non-empty prefix, every flattened key is `prefix.` followed by the rest of the path |
| Metadata.FlattenFlatObject | lib.js:272-283 | an object with no nested objects gives one `[key, String(v)]` row per property, in property order |
| Metadata.FlattenRows | lib.js:272-283 | a row `[key, String(v)]` comes out if and only if a non-object leaf `v` is reached by a property path whose dotted name is `key` (every step but the last through an object or array; `Object.entries` of an array or string gives its indices) |
| Metadata.FormatMetadata | lib.js:289-297 | `undefined` exactly when `Object.entries` of the value is empty; otherwise a text whose first and last lines are code fences |
| Metadata.FormatMetadataLines | lib.js:289-297 | when no key or value holds a newline, the text's lines are the opening fence, one `key: value` line per flattened row in order (an empty line when there is no row), and the closing fence |
| Messages.SplitMessage | lib.js:386-406 | the loop of `splitMessage` computes exactly `SplitAsWritten` |
| Messages.PackLines | lib.js:394-404 | the buffer loop pushes the trimmed buffer of each group the greedy packing makes |
| Messages.PackCover | lib.js:397-404 | the groups, read in order, are exactly the lines |
| Messages.PackFits | lib.js:397-403 | every group fits the limit unless it holds a single line |
| Messages.PackGreedy | lib.js:398 | a group is closed only when the next line would not fit in it |
| Messages.PackNoEmptyGroup | lib.js:397-404 | when an empty buffer is never closed, no group is empty |
| Messages.PackEmptyFirstGroup | lib.js:397-401 | as written, a first line that overflows closes the empty buffer, which becomes an empty first group |
| Messages.SplitShortText | lib.js:387 | a text within the limit comes back as `[text]`, unchanged |
| Messages.SplitLayout | lib.js:388-405 | a long text gives one chunk per group; the groups are its lines (inside the fences if it was fenced); every chunk of a fenced text is fenced again |
| Messages.SplitCorrectedFits | lib.js:389-405 | corrected: every chunk, fences included, is within the limit, unless it is one line too long by itself |
| Messages.SplitCorrectedCount | lib.js:397-404 | corrected: a long text gives at least one chunk and no more chunks than lines |
| Messages.SplitNonEmpty | lib.js:386-406 | both the split as written and the corrected one give at least one chunk |
| Messages.SplitEmptyFirstChunk | lib.js:397-401 | as written: a long single line with no fence is sent as `""` followed by the trimmed text |
| Messages.SplitFenceOverflow | lib.js:389-405 | as written: a fenced text of `limit + 1` characters gives a first chunk of `limit + 1` characters |
| Messages.ChooseMethod | lib.js:424-431 | `editReply` if and only if deferred and not replied; `followUp` if and only if replied; `reply` otherwise |
| Messages.SendDiscordMessage | lib.js:408-422 | a non-string is sent whole with the given method; a text is split as `splitMessage` is written, one send per chunk in order, the first with the given method and the rest as follow-ups |
| Messages.SendDiscordMessageCorrected | lib.js:408-422 | corrected: the same sends over the corrected split, so every text sent is within 2000 characters unless it is one line too long by itself |
| Messages.SendParts | lib.js:413-421 | one send per part, in order: the first with the method, the others as follow-ups |
| Messages.SendReply | lib.js:424-432 | the first message uses the method the interaction state calls for, and the later ones are follow-ups; a non-string goes out as the one message, a text as its chunks in order |
| Messages.SendFollowUp | lib.js:434-435 | every message is a follow-up; a non-string goes out as the one message, a text as its chunks in order |
| Rcon.ReadInt32LEOfWrite | rcon.js:7-9 | reading back what `writeInt32LE` wrote gives the value |
| Rcon.WriteInt32LEOfRead | rcon.js:7-9 | the 32-bit little-endian encoding is onto: writing what four bytes read as gives back those bytes |
| Rcon.Packet | rcon.js:3-13 | a packet is `len(body) + 14` bytes long |
| Rcon.DecodeEncoded | rcon.js:3-13 | the size field is `n + 10`, followed by id, type and body, then two zero bytes; decoding an encoded packet returns its id, type and body |
| Rcon.EncodeDecoded | rcon.js:3-13 | anything that decodes is exactly the encoding of what it decodes to |
| Rcon.WriteInt32LE | rcon.js:7-9 | `writeInt32LE(x, offset)` puts the four bytes of `x` at `offset` and leaves the rest of the buffer alone |
| Rcon.CopyInto | rcon.js:10 | `copy` puts the body at the offset and leaves the rest of the buffer alone |
| Rcon.Encode | rcon.js:3-13 | the buffer `encode` fills is exactly the packet layout |
| Rcon.ResponseBody | rcon.js:27 | the reply is bytes `12..len-2` of the data, or empty for shorter data |
| Rcon.ResponseOfPacket | rcon.js:27 | the reply read from an encoded packet is its body |
| Rcon.FirstSettleExactly | rcon.js:21-33 | the promise is settled by the earliest error, or by the earliest data after the first data; nothing before it settles |
| Rcon.ExpectedSettled | rcon.js:21-33 | the promise is pending if and only if no event has settled it |
| Rcon.HandshakeStep | rcon.js:17-33 | one more event changes the data count, the connect flag and the outcome exactly as the handlers do |
| Rcon.RconClient.constructor | rcon.js:15-20 | a new client is not authenticated, has written nothing and is pending |
| Rcon.RconClient.OnConnect | rcon.js:17-19 | on connect it writes the auth packet (id 1, type 3, password) |
| Rcon.RconClient.OnData | rcon.js:21-29 | the first data writes the command packet (id 2, type 2) and sets the flag; later data ends the socket and resolves with the reply |
| Rcon.RconClient.OnError | rcon.js:30-33 | an error ends the socket and rejects, with no retry |
| Rcon.SendRcon | rcon.js:15-35 | over any event trace: the auth packet on connect, the command exactly once after the first data; the socket ends exactly when the promise settles |
| Rcon.WaitForPort | rcon.ts:5-20 | resolves at the first attempt that connects; otherwise rejects with the last error after `max(attempts, 1)` attempts; every attempt's socket is closed, ended when it connected and destroyed on error |
| Rcon.TunnelArgs | rcon.ts:37-46 | exactly `-i key -o StrictHostKeyChecking=no -L port:localhost:port user@host -N`, the user being `SSH_USER` when truthy and `ec2-user` otherwise |
| Rcon.SendRconTunnel | rcon.ts:34-73 | without a key it rejects before spawning; with one it spawns the tunnel, waits (10 attempts), and runs the handshake, whose outcome, writes and socket end are those its events determine; the tunnel is killed when the exchange ends or fails; a failed wait rejects and leaves the tunnel running |
| Rcon.SendRconTunnelCorrected | rcon.ts:47-58 | corrected: the same run, except that a failed wait also kills the tunnel, so once the promise has settled a spawned tunnel has been killed |
| Rcon.LeakingRun | rcon.ts:47-49 | as written: a refused port rejects the call with the tunnel still running |
| Lifecycle.LaunchTags | lib.js:120-124 | the template tags in order, plus one `SaveName` tag if and only if the label is truthy |
| Lifecycle.FindSaveName | strategies/AwsProviderStrategy.ts:85 | the `SaveName` tag's value, or none if and only if there is no such tag |
| Lifecycle.SaveNameChoice | strategies/AwsProviderStrategy.ts:129-131 | the input name when truthy, else the `SaveName` tag, else `backup-<ms>` |
| Lifecycle.SaveLabel | strategies/AwsProviderStrategy.ts:42-43 | the parsed name for a backup key, the argument itself otherwise, nothing without a backup |
| Lifecycle.BackupFileChoice | strategies/AwsProviderStrategy.ts:47-51 | the argument verbatim with `.tar.bz2`, else the latest key of that name, else `null`; `null` if and only if there is no backup or no archive of that name |
| Lifecycle.VersionArg | strategies/AwsProviderStrategy.ts:68 | the version passed to setup is truthy exactly when the given version is, and is that version when present |
| Lifecycle.BackupEffects | strategies/AwsProviderStrategy.ts:88-91 | the RCON save and the backup run if and only if there is a public address; the backup is last |
| Lifecycle.Resolve | strategies/AwsProviderStrategy.ts:73-79 | the cached id is described when set (an unknown id throws); discovery is used otherwise |
| Lifecycle.AwsStartDiscoveryGate | strategies/AwsProviderStrategy.ts:34-41 | reply, then discovery; a running instance ends `start` with no security group and no launch, and if and only if none runs, it launches |
| Lifecycle.AwsStartStoresIdBeforeWait | strategies/AwsProviderStrategy.ts:44-46 | the new id is stored before the wait, and a failed wait ends the command with the id kept |
| Lifecycle.AwsStartSetup | strategies/AwsProviderStrategy.ts:58-69 | setup runs only after a successful wait, on the ready address, with the chosen archive and version, and is followed by the running message |
| Lifecycle.AwsStartLookup | strategies/AwsProviderStrategy.ts:47-51 | the latest archive is looked up only for a bare save name, and for that name |
| Lifecycle.AwsStopResolution | strategies/AwsProviderStrategy.ts:73-83 | cached id described, else discovery; with no instance the only reply is "No running server" and the state is unchanged |
| Lifecycle.AwsStopSaves | strategies/AwsProviderStrategy.ts:84-92 | the save name is the tag, else `backup-<ms>`; RCON save then backup only with a public address; the instance is terminated |
| Lifecycle.AwsStopTerminateThenClear | strategies/AwsProviderStrategy.ts:92-94 | the state is cleared if and only if the resolved instance was terminated, and after the terminate |
| Lifecycle.SaveTagging | strategies/AwsProviderStrategy.ts:120-145 | with no instance it only replies; `CreateTags` runs if and only if a name is given, for that instance and name; it ends with "Save complete" |
| Lifecycle.SaveBackupRules | commands/save.js:55-59 | backup and RCON save only with a public address, the RCON save only in the command handler; never a terminate or launch |
| Lifecycle.StartCommandGate | commands/start.js:18-30 | defer, reply, discovery; a running instance ends the command; otherwise launch with the label's tags and store the id before the wait |
| Lifecycle.StartCommandLookup | commands/start.js:25-36 | the latest lookup happens if and only if a label was given and the instance came up; setup uses that archive |
| Lifecycle.BareMetalStartRules | strategies/BareMetalProviderStrategy.ts:8-31 | a running container ends `start`; otherwise, a failed check included, setup runs on the fixed address; it never launches, waits or terminates |
| Lifecycle.LaunchLabelIsStopName | lib.js:120-124 | an instance launched with a truthy label is stopped under that label, otherwise under `backup-<ms>` |
| Lifecycle.RestoredArchiveMatchesLabel | strategies/AwsProviderStrategy.ts:42-51 | when the archive restored parses, the instance label is its save name |
| Lifecycle.RestoreThenStopKeepsName | strategies/AwsProviderStrategy.ts:85-90 | restoring an archive of save `s` and then stopping writes a new archive of save `s`, dated the day of the stop |
| Lifecycle.Retag | strategies/AwsProviderStrategy.ts:133-140 | after tagging, the new tag is the only one with its key |
| Lifecycle.SaveTagIsStopName | strategies/AwsProviderStrategy.ts:133-140 | a name given to `save` is the name a later `stop` saves under |
| Lifecycle.ControlPlane.constructor | lib.js:43 | the shared state starts with no instance id and an empty log |
| Lifecycle.ControlPlane.AwsStart | strategies/AwsProviderStrategy.ts:28-70 | appends exactly the effects of `AwsStartRun` and sets the state to its result |
| Lifecycle.ControlPlane.AwsStop | strategies/AwsProviderStrategy.ts:72-95 | appends exactly the effects of `AwsStopRun` and sets the state to its result |
| Lifecycle.ControlPlane.AwsSave | strategies/AwsProviderStrategy.ts:120-146 | appends the save effects without an RCON save; the state is unchanged |
| Lifecycle.ControlPlane.SaveWith | strategies/AwsProviderStrategy.ts:124-145 | the shared save steps: discovery, tag, reply, backup, completion; the state is unchanged |
| Lifecycle.ControlPlane.StopCommand | commands/stop.js:6-28 | defer, then exactly the strategy's stop effects and state change |
| Lifecycle.ControlPlane.SaveCommand | commands/save.js:38-62 | defer, then the save effects with an RCON save; the state is unchanged |
| Lifecycle.ControlPlane.StartCommand | commands/start.js:17-38 | appends exactly the effects of `StartCommandRun` and sets the state to its result |
| Lifecycle.BareMetalStrategy.constructor | strategies/BareMetalProviderStrategy.ts:6 | a strategy bound to one fixed address, with an empty log |
| Lifecycle.BareMetalStrategy.Start | strategies/BareMetalProviderStrategy.ts:8-31 | appends exactly `BareMetalStartEffects` |
| Lifecycle.BareMetalStrategy.Stop | strategies/BareMetalProviderStrategy.ts:33-39 | reply, RCON save, backup with container stop, "Server stopped", under `backup-<ms>` |
| Lifecycle.BareMetalStrategy.Save | strategies/BareMetalProviderStrategy.ts:53-58 | backs up under the given name, else `backup-<ms>`, with no RCON save |
| Autocomplete.Matching | commands/start.js:14 | the filter keeps exactly the names that start with the typed text |
| Autocomplete.MatchingAppend | commands/start.js:14 | the filter keeps the order of the list |
| Autocomplete.MatchingNoDup | commands/describe.js:19-20 | filtering a list without repeats leaves none |
| Autocomplete.SameNameChoices | commands/start.js:15 | each option has name equal to value, in list order |
| Autocomplete.StartNameOptions | commands/start.js:11-16 | at most 25 options; each has name equal to value, starts with the typed text and is a listed name; they are a prefix of the matches |
| Autocomplete.StartNameOptionsComplete | commands/start.js:14 | no matching name is left out unless all 25 places are used |
| Autocomplete.KeyLabel | commands/start.ts:31-32 | `name.date` for a parseable key, the raw key otherwise |
| Autocomplete.KeyLabelIsStem | commands/start.ts:31-32 | for a backup key, the label is the key without `.tar.bz2` |
| Autocomplete.StartKeyOptions | commands/start.ts:22-36 | at most 25 options; the values are the first 25 matching keys, unmodified and in listing order; each is shown by its label |
| Autocomplete.Without | commands/save.js:33 | removing the typed text keeps exactly the other names |
| Autocomplete.WithoutNoDup | commands/save.js:33 | removing a name from a list without repeats leaves none |
| Autocomplete.SaveList | commands/save.js:29-34 | at most 25 names, each starting with the typed text; the typed text, when non-empty, comes first |
| Autocomplete.SaveOptions | commands/save.js:26-37 | at most 25 options with name equal to value, starting with the typed text; the typed text first when non-empty |
| Autocomplete.SaveOptionsValues | commands/save.js:35 | the final `slice(0, 25)` never drops a name |
| Autocomplete.SaveOptionsExactly | commands/save.js:29-35 | a name is offered if and only if it is the non-empty typed text or one of the first 24 save names that start with it |
| Autocomplete.SaveOptionsFocusedOnce | commands/save.js:33 | the typed text appears only as the first option |
| Autocomplete.SaveOptionsEmptyFocus | commands/save.js:29-34 | with nothing typed, the options are the first 24 names |
| Autocomplete.MatchingEverything | commands/save.js:30 | every name starts with the empty text |
| Autocomplete.SaveOptionsNoDup | commands/save.ts:16-29 | over distinct save names, the options have no repeats |
| Autocomplete.StemsExactly | commands/describe.js:14-18 | a suggestion stem is listed exactly when some key parses to that `name.date` |
| Autocomplete.DescribeChoices | commands/describe.js:19-22 | at most 25 options, each a listed stem starting with the typed text, with name equal to value |
| Autocomplete.DescribeChoicesNoDup | commands/describe.js:14-21 | suggestions are never repeated |
| Autocomplete.DescribeChoicesComplete | commands/describe.js:14-21 | every listed archive whose `name.date` starts with the typed text is suggested unless all 25 places are used |
| Autocomplete.DescribeChoicesAreArchives | commands/describe.js:15-17 | each suggestion plus `.tar.bz2` is a listed archive key |
| Autocomplete.DescribeOptions | commands/describe.js:11-23 | the set-filling loop and its filter give exactly `DescribeChoices` |

`commands/save.ts` (lines 16-29) builds the same list as `commands/save.js` (lines 26-37),
so `Autocomplete.SaveList` and `Autocomplete.SaveOptions` model both.

## Left out

- The AWS, S3 and SSH calls are not modelled as services.
  - `findRunningInstance`, `ensureSecurityGroup`, `launchInstance`'s request,
    `waitForInstance`, DescribeInstances, TerminateInstances, CreateTags and
    `listBackups` are answers in `Cloud` or effects in the log.
  - The S3 region probe and retry are not modelled.
  - `connectSSH`, `waitForPing` and `getSystemStats` are not modelled.
  - The command lists of `sshAndSetup` and `backupCommands` are not modelled. The key
    grammar they use is covered by `BackupKey.BackupFilename`.
- Clock reads (`new Date()`, `Date.now()`) are parameters (`CalendarDate`, `nowMs`).
- UTF-8 encoding of RCON bodies and replies is not modelled: bodies are byte sequences.
- Rcon.ResponseBody: the reply is the byte range `12..len-2`. Its decoding as UTF-8 text
  is not modelled.
- Registry.RenderTree: the megabyte figure `(size / 1024 / 1024).toFixed(1)` is a
  parameter (`mbText`), because floating-point formatting is not modelled. Its contract
  states only the fences; the lines are its definition.
- Registry.SortByDateDescCorrect: items with equal dates are ordered as the insertion
  sort leaves them. The order V8's sort gives them with the comparator `a < b ? 1 : -1`
  is not pinned down.
- Metadata: numbers are integers, and `Object.entries` order is the given field order.
  Floating-point rendering is not modelled.
- Lifecycle.Resolve: a DescribeInstances answer with no instances is not modelled. An
  unknown cached id is modelled as the lookup throwing.
- Exceptions are modelled only for the describe of a cached id, a failed wait and a
  failed terminate. Any other call that throws (SSH, S3, Discord) ends a handler at
  that point in the source, and the model does not follow those paths.
- Lifecycle.BareMetalStartRules: the `docker ps` answer is the output `sshExec` already
  trimmed. A failed check is `None`.
- The tunnel's spawn `error` event is a flag (`spawnError`) that kills the tunnel. Its
  timing relative to the other events is not modelled.
- The `options` object that `sendReply` passes through is not modelled.
- Messages.SplitAsWritten: lengths count characters (Unicode scalar values). JavaScript's
  `length` counts UTF-16 code units, so a text with characters outside the Basic
  Multilingual Plane splits later in the model than in the bot. The same holds for
  `Messages.SplitMessageCorrected` and for the string indices of `Metadata.CharRows`.
- Metadata.FlattenRows: it states which rows come out, not how often or in which order
  once objects nest. `Metadata.FlattenFlatObject` gives the order for a flat object.
- Timers (the 200 ms retry delay), logging, and concurrency between overlapping commands
  sharing `state.instanceId` are not modelled. Commands run one at a time.
- The `execute` bodies of `commands/start.ts`, `commands/save.ts` and
  `commands/describe.js` only forward to the strategy or to code that is not part of
  this model. `describe`'s metadata fetch (`getBackupJson`) is not part of this model.
- The status handlers, `list`, `githubstatus`, `sync`, the bot entry points and the
  provider factory are not part of this model.

## Findings

| source | as written | input that shows it | evidently intended | confidence | as-written member | corrected member |
|---|---|---|---|---|---|---|
| lib.js:397-401 | a line that overflows an empty buffer first pushes the empty buffer as a chunk | a text longer than the limit, not fenced, with no newline: the result is `["", trimEnd(text)]`, an empty Discord message | an empty buffer is never pushed | not executed | Messages.SplitEmptyFirstChunk | Messages.PackNoEmptyGroup |
| lib.js:389-405 | six characters are reserved for fences that add eight (`"```\n"` and `"\n```"`) | `OverflowingText(limit)`: a fenced text of `limit + 1` characters whose first line has `limit - 7` characters gives a first chunk of `limit + 1` characters | every chunk, fences included, fits the limit | not executed | Messages.SplitFenceOverflow | Messages.SplitCorrectedFits |
| rcon.ts:47-49 | when `waitForPort` rejects, `sendRcon` rejects without killing the spawned `ssh` tunnel | a key is set, `ssh` starts, and nothing accepts on the port: 10 refused attempts reject the call and the tunnel keeps running | the tunnel is killed on every path that settles the call | not executed | Rcon.LeakingRun | Rcon.SendRconTunnelCorrected |

`Messages.SendDiscordMessage`, `Messages.SendReply` and `Messages.SendFollowUp` send the
chunks of the split as written (`Messages.SplitAsWritten`), as the code does.
`Messages.SplitMessageCorrected` carries both corrections, and
`Messages.SendDiscordMessageCorrected` is the sender over it. The corrected split never
closes an empty buffer (`Messages.PackNoEmptyGroup`) and has at least one chunk, and no
more chunks than lines (`Messages.SplitCorrectedCount`).
