# zfswatch: a verified model

zfswatch is a daemon and a command-line client that watch for USB disks and run `zpool` and `zfs`
on a user's behalf. This project models its decision logic in Dafny and proves what that logic
promises over whole runs.

| module | models |
|---|---|
| `Wrappers`, `Text` | optional values and results; `lines`, `split`, `trim`, decimal digits |
| `Binary64`, `Floats`, `Sizes` | binary64 rounding (IEEE 754-2019, section 4.3.1), text to `f64`, the size parser, the byte formatter |
| `Devices`, `Udev`, `LinuxMonitor`, `MacMonitor` | device records, the event stream and its replay, both monitor backends |
| `Commands` | external commands, runners with arbitrary answers, scripts and their sequencing, the mock runner |
| `CreatePool`, `Tables`, `Pools`, `Encryption`, `Datasets` | argument lists, table decoders, the three managers |
| `Tools`, `Intents`, `Worlds` | what `zpool` and `zfs` take a command to mean, what requests ask of them, a world of pools they answer from |
| `Requests`, `Responses`, `Sessions`, `Daemon`, `Service`, `Progress`, `Termination`, `Framing` | one request, what its response means, one client, all clients interleaved, what each client may conclude then, that all of them get done, messages on the wire |
| `LockLedger` | secret strings and page locks |

How the parts fit. A *script* says which command an operation issues next, given the answers it has
had. Each manager method is imperative code over a `CommandRunner` whose answers may depend on
everything asked before, and is proved to extend the runner's log by exactly one conversation of its
script. `Sessions.ServeInOrder` connects that code to `Session`, a recursive account of one client's
requests; `Daemon` interleaves any number of clients whose commands start and end at separate
moments and proves that each client's part of the log is such a session; `Service` cuts that part
into one segment a response and proves each response true of its own segment; `Progress` proves that
no client is blocked, and `Termination` that every client's steps come to an end. `Tools` reads argument
lists as `zpool` and `zfs` would, on its own terms; `Intents` proves that a request's commands mean what
it asks for, and `Worlds` that answers given column by column, as the commands ask, from one world of
pools come back to the client as that world. Size arithmetic computes with exact reals and a rounding
function that is itself proved nearest, ties-to-even and monotone. Automatic induction is off in
every lemma, so each inductive step is written out.

Results that say where the code stops meeting an expectation:

- The size parser exceeds the exact floor, by one, exactly when the exact value lies within half a binary64 gap
  below the next integer (`ParseExact`, every text below 2^53 bytes); a point followed by k nines does so from k = 17 on.
- The commands of a request mean what it asks for exactly when its pool or dataset does not look like an option.
- On macOS a disk is known by its bare name exactly when nothing but white space follows its path on the line;
  a description there becomes part of the name and of the device path.
- The name test on Linux is meant to pass whole disks only; it passes every partition of an `nvme` or `vd` disk.
- The readers of the encryption property part on exactly the values `ReadersAgreeIff` names.
- A Linux consumer stays in agreement with what is plugged in exactly as long as every unplug is safe; a disk
  known only by a WWN leaves that WWN behind, and disks plugged in before the start are never announced.
- Insertions and removals on macOS alternate exactly when no scan lists a new disk twice; a repeated line announces
  its disk twice.
- After a key was loaded, a failed request leaves that load as the last successful change exactly when the
  main command failed; otherwise the dataset is mounted and only its mountpoint could not be asked for.
- A string taken out of a locked secret leaves its pages locked.
- Secrets that say they are locked are so throughout a run exactly when no release takes a page another locked one
  is on; two short passphrases on one heap page are enough to break it.
- A status never lists a pool, whatever was imported: no request fills that list.

Where the code and what is written around it differ, the model follows the code: the feature lists
hold 29 and 4 names although the unit tests register a call with 9 and 4; dropping a secret unlocks
pages and does not clear memory; the macOS backend describes every disk from one constant text, so
its model, size and speed patterns never see `diskutil`'s own. `SIZE * 512` wraps at 64 bits, as a
release build computes it; a debug build would stop instead.

## Model

| member | source | states |
|---|---|---|
| `Binary64.RoundNearest` | crates/zfswatch-zfs/src/pool.rs:279-280 | the rounding behind `f64` parsing and products: no representable magnitude is nearer to the exact value |
| `Binary64.RoundTiesToEven` | crates/zfswatch-zfs/src/pool.rs:279-280 | of two equally near magnitudes the one with the even significand is taken |
| `Binary64.RoundMonotone` | crates/zfswatch-zfs/src/pool.rs:279-280 | rounding never inverts an order |
| `Binary64.RoundsUpIff` | crates/zfswatch-zfs/src/pool.rs:279-280 | up to 2^53 a real rounds to the integer above it if and only if it is nearer than half the gap below that integer, or at the half way and the tie goes up |
| `Sizes.NumericPrefixLongest` | crates/zfswatch-zfs/src/pool.rs:278 | the scan takes digits and points and stops only at the first other character |
| `Sizes.SuffixLetters` | crates/zfswatch-zfs/src/pool.rs:260-281 | K, M, G, T and P of either case stand for the powers of 1024, every other ending for one |
| `Sizes.ParseIsBytes` | crates/zfswatch-zfs/src/pool.rs:260-281 | for every text the parser yields the truncated, saturated product of the rounded decimal it denotes and its suffix |
| `Sizes.ParseNearExact` | crates/zfswatch-zfs/src/pool.rs:260-281 | whenever decimal times multiplier is below 2^53 the result is its floor or one more |
| `Sizes.ParseExact` | crates/zfswatch-zfs/src/pool.rs:260-281 | below 2^53 the result is the floor of the exact value, plus one if and only if the exact value is that close under the next integer; neither rounding step shows otherwise |
| `Sizes.NinesRoundUp` | crates/zfswatch-zfs/src/pool.rs:260-281 | an instance: 0.99…9 with k nines reads as 1 exactly from k = 17 |
| `Sizes.ParseRelativeError` | crates/zfswatch-zfs/src/pool.rs:260-281 | from 2^53 up, until saturation, the error is at most one part in 2^53: the rounded product is whole and the cast drops nothing |
| `Sizes.ParseInteger` | crates/zfswatch-zfs/src/pool.rs:260-281 | integers up to 2^53 with any suffix read as min(n × multiplier, 2^64 − 1) |
| `Sizes.ParseMonotone` | crates/zfswatch-zfs/src/pool.rs:260-281 | for a fixed suffix a larger decimal never reads as fewer bytes |
| `Sizes.RecordSizeRoundTrip` | crates/zfswatch-zfs/src/pool.rs:176 | `{kb}K` reads back as kb × 1024 if and only if kb is below 2^54 with a 53-bit significand; from 2^54 it saturates |
| `Sizes.FormatBytesIs` | crates/zfswatch/src/main.rs:220-229 | a size is shown as the whole number of the largest unit it exceeds; at a unit itself still in the next smaller one |
| `Sizes.ReadBackBounds` | crates/zfswatch/src/main.rs:220-229 | the formatted size read back is at most b, within one unit of it, more than half of it above 1 MiB, and b itself up to there |
| `Sizes.ReadBackMonotone` | crates/zfswatch/src/main.rs:220-229 | reading back what was formatted is monotone over all 64-bit sizes |
| `Sizes.ReadBackIdempotent` | crates/zfswatch/src/main.rs:220-229 | formatting and reading back a second time changes nothing, also at the strict unit boundaries |
| `Devices.HeldIffLastInserted` | crates/zfswatch-platform/src/macos.rs:120-134 | a consumer holds an id exactly when the last event about it was an insertion |
| `Devices.RemovalHasInsertion` | crates/zfswatch-platform/src/macos.rs:128-136 | in a stream whose removals are matched each removal has its insertion before it with nothing about that id between |
| `Udev.ThroughputMonotone` | crates/zfswatch-platform/src/linux.rs:23-37 | planned throughput grows with the reported speed exactly on recognised speeds and everything from 80000 up |
| `Udev.ThroughputWithinRate` | crates/zfswatch-core/src/types.rs:20-32 | planned throughput never exceeds the line rate and, from SuperSpeed on, is at least seven tenths of it |
| `Floats.ParseSigned` | crates/zfswatch-platform/src/linux.rs:120 | a plus in front changes nothing, a minus the sign |
| `Floats.ParseScientific` | crates/zfswatch-platform/src/linux.rs:120 | in the text of a speed an exponent after `e` or `E` multiplies or divides by that power of ten |
| `Floats.ProductUndone` | crates/zfswatch-platform/src/linux.rs:120 | multiplying by a power of ten is undone by dividing by it |
| `Floats.ParseNames` | crates/zfswatch-platform/src/linux.rs:120 | the names of infinity and NaN are read in any case and with either sign |
| `Text.ParseU64Reads` | crates/zfswatch-platform/src/linux.rs:92-96 | in the text of a size exactly the digits after an optional plus sign, within 64 bits, are a number |
| `Text.WhitespaceIs` | crates/zfswatch-platform/src/linux.rs:83 | trimming removes exactly the 25 characters with the White_Space property of Unicode |
| `Udev.UsbSpeedOf` | crates/zfswatch-platform/src/linux.rs:114-127 | the ancestor walk ends on every finite chain with the nearest parsable speed of the strict ancestors |
| `Udev.NearestSpeedIs` | crates/zfswatch-platform/src/linux.rs:117-125 | that speed is the class of the first ancestor whose `speed` parses; all nearer ones do not parse; none if none does |
| `Udev.SameIdIff` | crates/zfswatch-platform/src/linux.rs:68-73 | insertion and removal announce one id exactly when there is a serial, or no WWN (or one equal to the name) |
| `Udev.FileNameIn` | crates/zfswatch-platform/src/linux.rs:42 | the device name the filter looks at is the last component of the device path |
| `Udev.FileNameEnds` | crates/zfswatch-platform/src/linux.rs:42 | a trailing slash or dot changes no name, and a path that ends in two dots has none |
| `Udev.NameAcceptedIff` | crates/zfswatch-platform/src/linux.rs:45-52 | accepted are all `nvme` and `vd` names, partitions included, and the `sd` names that do not end in a digit, and nothing else |
| `Udev.EligibleIff` | crates/zfswatch-platform/src/linux.rs:41-90 | a device passes exactly with a known, accepted name and a USB bus or a removable attribute of one |
| `Udev.RemoveIdIs` | crates/zfswatch-platform/src/linux.rs:183-192 | a removal announces the serial, else the name, else nothing but an empty id |
| `Udev.ModelPrecedence` | crates/zfswatch-platform/src/linux.rs:54-58 | the plain model is taken whenever there is one, whatever the encoded one is; then the encoded one; then the name |
| `Udev.SectorBytesWrap` | crates/zfswatch-platform/src/linux.rs:92-96 | the capacity is exact below 2^55 sectors and comes round every 2^55 |
| `Udev.RecordReadBack` | crates/zfswatch-platform/src/linux.rs:40-112 | a record comes back whole from every device that shows it: any bus and any removable text that make it eligible together, a plain model beside any encoded one, an encoded one alone or none, id by serial, WWN or name, an unreadable size for none, speed past any silent ancestors or from none |
| `Udev.ProducedIffShowable` | crates/zfswatch-platform/src/linux.rs:40-112 | some udev device yields a record if and only if its path ends in the name of an accepted disk, it has no product id, its serial (if any) is its id, and its capacity (if any) is whole sectors within 64 bits |
| `LinuxMonitor.Monitor` | crates/zfswatch-platform/src/linux.rs:158-208 | the event loop sends, in order, what each udev event calls for |
| `LinuxMonitor.InSyncIff` | crates/zfswatch-platform/src/linux.rs:174-200 | over every run, repeated add events included, a consumer agrees with the eligible devices among those tracked after each step if and only if every unplug is safe |
| `LinuxMonitor.OrderlyRunAgrees` | crates/zfswatch-platform/src/linux.rs:174-200 | with serials or no WWNs and ids distinct among all present devices, the replayed stream is exactly the present eligible ids |
| `LinuxMonitor.LateStart` | crates/zfswatch-platform/src/linux.rs:158-208 | nothing announces disks plugged in before the start: from empty, a consumer holds the ids of the eligible devices heard of since at every step iff every unplug is safe among those, and then agrees with all that is plugged in iff every eligible disk not heard of shares an id with one of them |
| `LinuxMonitor.OrderlyLateStart` | crates/zfswatch-platform/src/linux.rs:158-208 | over an orderly run such a consumer misses exactly the eligible devices that were there before and of which nothing was heard |
| `LinuxMonitor.WwnLeftBehind` | crates/zfswatch-platform/src/linux.rs:183-199 | plugging and unplugging any eligible disk known only by a WWN leaves that WWN in the consumer's set |
| `LinuxMonitor.WwnOnlyDisk` | crates/zfswatch-platform/src/linux.rs:68-73 | such a disk exists |
| `LinuxMonitor.ScanDevices` | crates/zfswatch-platform/src/linux.rs:227-240 | the one-off scan records exactly the enumerated devices the filter accepts |
| `LinuxMonitor.ScanListsEligible` | crates/zfswatch-platform/src/linux.rs:227-240 | its ids are the ids the monitor would announce for those devices |
| `LinuxMonitor.AddsAreScanned` | crates/zfswatch-platform/src/linux.rs:174-182 | devices that are added are announced with exactly the records, field by field, that a scan makes of them |
| `MacMonitor.AssumedInfoPasses` | crates/zfswatch-platform/src/macos.rs:21-76 | the constant description passes the filter for every disk and yields a record of its name alone |
| `MacMonitor.InsertionsAsDescribed` | crates/zfswatch-platform/src/macos.rs:117-125 | in every run every insertion carries the record that the parser makes of that disk and the constant description |
| `MacMonitor.DiskLineNames` | crates/zfswatch-platform/src/macos.rs:105-114 | a line that starts like a disk path always names a disk, so the empty-name test never fires |
| `MacMonitor.DiskNameIs` | crates/zfswatch-platform/src/macos.rs:105-114 | the name is all that follows `/dev/` on such a line, up to white space at its end |
| `MacMonitor.BareNameIff` | crates/zfswatch-platform/src/macos.rs:105-114 | a disk path gives the bare disk name if and only if nothing but white space follows it on the line |
| `MacMonitor.OutputRead` | crates/zfswatch-platform/src/macos.rs:102-117 | what is listed of a printed output is exactly its disks, in order, amid any other lines |
| `MacMonitor.Poll` | crates/zfswatch-platform/src/macos.rs:100-139 | one poll: insertions in line order for unknown disks, removals of gone ones in some order, the new known set |
| `MacMonitor.Monitor` | crates/zfswatch-platform/src/macos.rs:86-147 | the polling loop over any trace of scans emits the specified stream for some visiting orders |
| `MacMonitor.RunReplay` | crates/zfswatch-platform/src/macos.rs:87-143 | after any scans, failed and repeating ones included, replay gives exactly the known set and every removal met a held id |
| `MacMonitor.HeldAreTheLastDisks` | crates/zfswatch-platform/src/macos.rs:86-147 | over printed outputs and failed scans in any order a consumer that starts empty ends up holding exactly the disks of the last output |
| `MacMonitor.RunAlternates` | crates/zfswatch-platform/src/macos.rs:104-136 | insertions and removals alternate per disk if and only if no scan lists twice a disk that was unknown before it |
| `MacMonitor.RepeatedLineRepeats` | crates/zfswatch-platform/src/macos.rs:104-136 | the other case: any disk line that comes twice in the first output is announced twice |
| `MacMonitor.RunBalance` | crates/zfswatch-platform/src/macos.rs:104-138 | then insertions minus removals equal the number of known disks |
| `MacMonitor.StutterInvariance` | crates/zfswatch-platform/src/macos.rs:104-142 | dropping failed and repeating scans leaves the stream and the known set unchanged |
| `MacMonitor.PollOrderIrrelevant` | crates/zfswatch-platform/src/macos.rs:128-136 | the hash set's order only permutes the events of one poll |
| `MacMonitor.StuttersAndOrdersIrrelevant` | crates/zfswatch-platform/src/macos.rs:87-143 | any two runs that differ only in failed or repeating scans, under any two visiting orders, send poll by poll the same events up to the order within a poll |
| `MacMonitor.ScanDevices` | crates/zfswatch-platform/src/macos.rs:159-183 | the one-off scan lists a record per disk line, in order |
| `MacMonitor.ScanAgreesWithMonitor` | crates/zfswatch-platform/src/macos.rs:168-180 | the scan and the monitor find the same ids in the same text |
| `Commands.CommandRunner.Run` | crates/zfswatch-zfs/src/command.rs:10-18 | a runner answers as it likes, from everything asked before, and logs the exchange |
| `Commands.FollowsDetermined` | crates/zfswatch-zfs/src/command.rs:10-18 | an operation's calls are determined by the answers it got |
| `Commands.MockCommandRunner.AddResponse` | crates/zfswatch-zfs/src/command.rs:104-108 | a registration becomes the answer to its command and arguments and to no other |
| `Commands.MockCommandRunner.Run` | crates/zfswatch-zfs/src/command.rs:190-210 | the latest registration since the last clearing answers, else empty success; the call is logged; standard input is ignored |
| `Commands.MockCommandRunner.GetCalls` | crates/zfswatch-zfs/src/command.rs:111-113 | the calls since the last clearing, in order |
| `Commands.MockCommandRunner.Clear` | crates/zfswatch-zfs/src/command.rs:116-119 | forgets registrations and calls |
| `Commands.LatestRegistrationAnswers` | crates/zfswatch-zfs/src/command.rs:103-108 | a registration stands until it is replaced or cleared |
| `Commands.UnregisteredSucceeds` | crates/zfswatch-zfs/src/command.rs:190-210 | what was never registered, or not since the last clearing, is answered with empty success |
| `CreatePool.BuildArgs` | crates/zfswatch-zfs/src/pool.rs:170-195 | the pushes build exactly the rendered settings between `create -f` and the operands |
| `CreatePool.ArgvReadsBack` | crates/zfswatch-zfs/src/pool.rs:170-195 | an independent option parser reads back every setting, the name and the device if and only if the name does not look like an option |
| `CreatePool.OptionsRecovered` | crates/zfswatch-zfs/src/pool.rs:172-192 | with the last assignment winning, every option field is recovered, the algorithm over `encryption=on` |
| `CreatePool.FilesystemAssigns` | crates/zfswatch-zfs/src/pool.rs:172-183 | all that is assigned to any file-system property, in order |
| `CreatePool.FeaturesAssignedOnce` | crates/zfswatch-zfs/src/pool.rs:185-192 | each listed feature is assigned exactly once, safe ones enabled and risky ones disabled; none without the option |
| `Tables.RowsPrinted` | crates/zfswatch-zfs/src/pool.rs:79-81 | cutting a printed table returns its rows in order |
| `Text.RawLinesPartition` | crates/zfswatch-zfs/src/pool.rs:79 | cutting text into lines loses nothing, and only the last line may be unterminated |
| `Tables.ShortLineIgnored` | crates/zfswatch-zfs/src/pool.rs:79-81 | a line with too few fields changes nothing wherever it is inserted in any text |
| `Tables.ReadDatasets` | crates/zfswatch-zfs/src/pool.rs:240-255 | the decoding loop yields the decoded rows of the text |
| `Tables.DatasetsPrinted` | crates/zfswatch-zfs/src/pool.rs:240-255 | decoding a listing returns the records its rows show, in order, whichever of `none`, `-`, `0`, `off` or `no` stands for what is absent, under every way of printing sizes whose texts the size parser gives back |
| `Tables.PoolsPrinted` | crates/zfswatch-zfs/src/pool.rs:78-88 | decoding a pool listing returns the records its rows show, health included, in order, under any such printing of sizes |
| `Tables.HealthAnyCase` | crates/zfswatch-zfs/src/pool.rs:450-460 | a health word means the same in every mixture of upper and lower case |
| `Tables.NiceSizeRead` | crates/zfswatch-zfs/src/pool.rs:260-281 | the unit form that `zpool` and `zfs` print is such a printing for every size below 2^60 that is whole in its unit |
| `Tables.RecordSizeListed` | crates/zfswatch-zfs/src/pool.rs:251 | the record size printed at creation is listed back as kb × 1024 exactly below 2^54 with a 53-bit significand |
| `Tables.MountInfoPrinted` | crates/zfswatch-zfs/src/pool.rs:216-230 | the two lines of the mount answer are read back, whichever marks stand for what is absent; a missing line says no |
| `Pools.PoolManager.ListPools` | crates/zfswatch-zfs/src/pool.rs:68-106 | the loop conducts the listing script: table, then three questions a row, then the records |
| `Pools.ListPoolsCount` | crates/zfswatch-zfs/src/pool.rs:68-106 | a listing that succeeds issued 1 + 3 × accepted rows commands and built its records from those answers; one that fails issued one |
| `Pools.ListPoolsReads` | crates/zfswatch-zfs/src/pool.rs:68-106 | every command it issues is a `list` or a `get` without input, whatever the answers |
| `Pools.ListingReadBack` | crates/zfswatch-zfs/src/pool.rs:68-106 | when the table shows some pools and the later answers describe each in turn, failed ones saying no, nowhere and none, listing returns exactly those pools, in order and with every field |
| `Pools.ListPoolsFails` | crates/zfswatch-zfs/src/pool.rs:69-76 | the table is asked for first, and without it the outcome is the runner's error or the command's error output |
| `Pools.PoolManager.IsEncrypted` | crates/zfswatch-zfs/src/pool.rs:206-214 | one query; an answer that is missing or failed counts as not encrypted |
| `Pools.PoolManager.GetMountInfo` | crates/zfswatch-zfs/src/pool.rs:216-230 | one query; an answer that is missing or failed counts as not mounted |
| `Pools.PoolManager.ListDatasets` | crates/zfswatch-zfs/src/pool.rs:232-256 | one query, decoded; an answer that is missing or failed counts as no datasets |
| `Pools.PoolManager.ImportPool` | crates/zfswatch-zfs/src/pool.rs:128-145 | conducts one import with the pushed arguments and reports its failure |
| `Pools.PoolManager.ExportPool` | crates/zfswatch-zfs/src/pool.rs:147-159 | conducts one export, forced on request |
| `Pools.PoolManager.CreatePool` | crates/zfswatch-zfs/src/pool.rs:161-204 | conducts one creation with the built arguments and the passphrase on standard input |
| `Pools.PoolManager.FindImportablePools` | crates/zfswatch-zfs/src/pool.rs:108-126 | conducts one search, whose exit status is not looked at |
| `Pools.SearchConversation` | crates/zfswatch-zfs/src/pool.rs:108-126 | a search is one command, and its output is read whatever its exit status |
| `Pools.LabelsFound` | crates/zfswatch-zfs/src/pool.rs:119-124 | the names found in a report's text are exactly the labelled ones, in order |
| `Encryption.ReadProps` | crates/zfswatch-zfs/src/encryption.rs:151-172 | the loop that overwrites fields yields, for each property, what the last well-formed line about it says |
| `Encryption.PropsPrinted` | crates/zfswatch-zfs/src/encryption.rs:151-172 | the five properties, listed as text in any order amid others and with any marks for what is absent, are read back field by field |
| `Encryption.FailedQueries` | crates/zfswatch-zfs/src/encryption.rs:132-150 | a query that could not be run reports why; one that failed finds an unknown status and no properties |
| `Encryption.PermutationInvariant` | crates/zfswatch-zfs/src/encryption.rs:151-172 | permuting lines about distinct properties changes nothing |
| `Encryption.PropsOfSameLines` | crates/zfswatch-zfs/src/encryption.rs:151-172 | with one value a property only the set of lines matters |
| `Encryption.IgnorableLine` | crates/zfswatch-zfs/src/encryption.rs:152-170 | a line without a tab or about an unknown property changes nothing wherever it is inserted |
| `Encryption.KeyStatusAgrees` | crates/zfswatch-zfs/src/encryption.rs:132-141 | the status query and the property listing find the same key status in the same value |
| `Encryption.ReadersAgreeIff` | crates/zfswatch-zfs/src/pool.rs:206-214 | survey, dataset listing and property reader agree on a value if and only if it is `off` or trims to neither `off`, nothing, a dash nor an error text |
| `Encryption.EncryptionManager.LoadKey` | crates/zfswatch-zfs/src/encryption.rs:94-102 | conducts one key load with the passphrase on standard input |
| `Encryption.EncryptionManager.UnloadKey` | crates/zfswatch-zfs/src/encryption.rs:104-112 | conducts one key unload |
| `Encryption.EncryptionManager.ChangeKey` | crates/zfswatch-zfs/src/encryption.rs:114-130 | loads the old key, returns its failure, and only otherwise sets the new one |
| `Encryption.EncryptionManager.KeyStatus` | crates/zfswatch-zfs/src/encryption.rs:132-141 | one query; a failed one means unknown |
| `Encryption.EncryptionManager.GetEncryptionProps` | crates/zfswatch-zfs/src/encryption.rs:143-173 | one query, folded; a failed one means no properties |
| `Datasets.DatasetManager.Mount` | crates/zfswatch-zfs/src/dataset.rs:86-106 | mounts, stops with its own message when the key is missing, then asks for the mountpoint |
| `Datasets.DatasetManager.MountWithKeyload` | crates/zfswatch-zfs/src/dataset.rs:108-125 | mounts loading the key, then asks for the mountpoint |
| `Datasets.DatasetManager.Unmount` | crates/zfswatch-zfs/src/dataset.rs:127-139 | conducts one unmount, unloading the key on request |
| `Datasets.MountpointReadBack` | crates/zfswatch-zfs/src/dataset.rs:97-102 | a printed mountpoint is read back; a dataset without one is taken to be under the root |
| `Datasets.MountpointConversation` | crates/zfswatch-zfs/src/dataset.rs:96-105 | the mountpoint query is one command whose exit status is not looked at |
| `Requests.ProcessRequest` | crates/zfswatchd/src/main.rs:166-306 | every request conducts its script, or reads or overwrites the configuration, and changes nothing else; status, device and reload responses are given field by field |
| `Requests.ServeMount` | crates/zfswatchd/src/main.rs:229-248 | mounting with a passphrase loads the key first and mounts only if that succeeded |
| `Responses.ResponsesTellTheTruth` | crates/zfswatchd/src/main.rs:205-284 | for every runner a change is answered with success if and only if all commands ran and all mutating ones succeeded; a mount names the mountpoint the last answer shows; errors carry the request's code and the last command's complaint |
| `Responses.ListPoolsAnswered` | crates/zfswatchd/src/main.rs:184-192 | a listing is answered with exactly the pools that were listed if and only if the table was had, otherwise with why not |
| `Responses.KeyLoadedFirst` | crates/zfswatchd/src/main.rs:229-284 | at every moment mount or change-key is issued only after this request's `zfs load-key` with its passphrase (the old one for a change) on standard input succeeded, and no compensating command follows |
| `Responses.FailureLeavesKeyLoaded` | crates/zfswatchd/src/main.rs:230-247 | after a loaded key, a failed request leaves that load as the last successful change if and only if the main command failed |
| `Responses.MountedButFailed` | crates/zfswatchd/src/main.rs:229-248 | the other case: key loaded, dataset mounted, mountpoint query not run; the response is an error and the mount is the last successful change |
| `Intents.CommandsMeanTheRequest` | crates/zfswatchd/src/main.rs:205-284 | however far a request for a change has got, an independent reader of argument lists reads its commands as exactly the actions it asks for, in order, with its names, flags and secrets, if and only if its pool or dataset does not look like an option |
| `Intents.SearchMeant` | crates/zfswatch-zfs/src/pool.rs:108-117 | the search asks for pools in the given directory, if any, and imports none |
| `Intents.UnloadKeyMeant` | crates/zfswatch-zfs/src/encryption.rs:104-112 | unloading a key is read as that and nothing else |
| `Intents.LoadingMountMeant` | crates/zfswatch-zfs/src/dataset.rs:108-125 | mounting with a key load is read as one mount that loads the key from the passphrase, and the mountpoint query |
| `Worlds.ListingIsTheWorld` | crates/zfswatch-zfs/src/pool.rs:68-106 | against tools that answer, column by column as they are asked, from one world of pools and datasets, a listing is answered with exactly the pools of that world, but for what a failed question would have told |
| `Worlds.MountIsTheWorld` | crates/zfswatch-zfs/src/dataset.rs:96-105 | a mount answered from a world reports where the dataset is mounted in it |
| `Worlds.KeyStatusIsTheWorld` | crates/zfswatch-zfs/src/encryption.rs:132-141 | the status query answered from a world finds the key status it has |
| `Worlds.PropsAreTheWorld` | crates/zfswatch-zfs/src/encryption.rs:143-173 | the property listing answered from a world finds the encryption properties it has |
| `Sessions.ServeInOrder` | crates/zfswatchd/src/main.rs:133-150 | requests served one after another issue the session's commands and give its responses, whatever the runner |
| `Sessions.SecretsOnlyInStdin` | crates/zfswatchd/src/main.rs:229-284 | sessions that differ only in passphrase contents and get the same answers issue equal commands and arguments, differing in standard inputs alone, and respond equally |
| `Daemon.ProjectionIsSequential` | crates/zfswatchd/src/main.rs:108-153 | in every reachable interleaving a client's part of the command log and its responses are those of its requests served alone under the answers it received; that session is never more than one call ahead, and not at all while a command runs |
| `Daemon.LockOrderLinearizes` | crates/zfswatchd/src/main.rs:173-182 | status and reload behave as one register in the order the mutex was taken; failed reloads change nothing; each client got its own answers in order |
| `Progress.NeverBlocked` | crates/zfswatchd/src/main.rs:108-153 | in every reachable state a client with an unanswered request can take a step, or waits for the mutex whose holder can |
| `Progress.RestIsDone` | crates/zfswatchd/src/main.rs:108-153 | a daemon in which only a new connection can happen has answered every request |
| `Termination.ScriptEnds` | crates/zfswatchd/src/main.rs:184-284 | whatever the answers, a request issues at most three commands, and a listing one more than three for each row of the table it was shown |
| `Termination.ClientEnds` | crates/zfswatchd/src/main.rs:108-153 | in every endless run, whatever the interleaving and the answers, a client takes finitely many steps |
| `Termination.EndlessConnects` | crates/zfswatchd/src/main.rs:108-153 | so a run goes on forever only if clients connect forever |
| `Service.EveryResponseTellsTheTruth` | crates/zfswatchd/src/main.rs:108-153 | in every reachable interleaving a client's finished commands fall into consecutive segments, one a response and one for the request in progress; each response, to changes, listings and all else commands answer, is true of its own segment, and each segment's commands mean what its request asks for |
| `Service.EveryListingIsTheWorld` | crates/zfswatchd/src/main.rs:184-192 | in every reachable interleaving, when a client's answers were given from one world, every listing it was sent shows exactly the pools of that world |
| `Framing.Reader.ReadLine` | crates/zfswatchd/src/main.rs:133 | appends one raw line to the caller's buffer, 0 only at the end; a stream that fails within a line, be it broken or invalid there, delivers nothing of it |
| `Framing.HandleClient` | crates/zfswatchd/src/main.rs:125-153 | the loop over the reused buffer answers the k-th delivered line with the k-th response; it ends well if and only if the stream ends without failure and the peer takes every answer, and otherwise what reached the peer is a prefix of those answers and the request with the first undeliverable answer is the last one served |
| `Framing.MalformedLine` | crates/zfswatchd/src/main.rs:134-145 | a line that does not decode is answered with INVALID_REQUEST and changes no other answer |
| `Framing.DeliveredIs` | crates/zfswatchd/src/main.rs:133 | the delivered lines are all of the text except an unfinished line before a failure |
| `Framing.FramesArrive` | crates/zfswatch/src/main.rs:419-422 | frames written by an encoder without raw LF are cut apart exactly, whatever follows them |
| `Framing.CutBetweenFrames` | crates/zfswatchd/src/main.rs:155-164 | a stream cut off after any number of characters delivers exactly the messages that were complete by then; the piece of the next one is lost if the stream fails and is given to the decoder as a last line if it merely ends |
| `Framing.MessagesServed` | crates/zfswatchd/src/main.rs:133-150 | exactly the completely sent messages are decoded, and the k-th response answers the k-th after those before it, also when the connection fails within a later one |
| `Framing.OneExchange` | crates/zfswatch/src/main.rs:419-430 | a client that sends one request reads back the server's response to it |
| `LockLedger.SecureString.constructor` | crates/zfswatch-keys/src/memory.rs:14-27 | locks the pages of a non-empty string if the system grants it, and says so |
| `LockLedger.SecureString.Clone` | crates/zfswatch-keys/src/memory.rs:69-73 | a copy is locked in its own right |
| `LockLedger.SecureString.Unlock` | crates/zfswatch-keys/src/memory.rs:50-57 | releases the pages of a locked string and says so |
| `LockLedger.SecureString.IntoString` | crates/zfswatch-keys/src/memory.rs:40-42 | hands the characters over and releases no page |
| `LockLedger.SecureString.Drop` | crates/zfswatch-keys/src/memory.rs:75-83 | releases the pages of a locked string |
| `LockLedger.LedgerBalances` | crates/zfswatch-keys/src/memory.rs:14-83 | a sufficient case: on pages of their own the ledger balances after every run, and dropping all secrets leaves the leftovers only |
| `LockLedger.LedgerBalancesIff` | crates/zfswatch-keys/src/memory.rs:14-83 | over every run, shared and reused pages included, the locked pages are those of locked live secrets and of strings consumed while locked at every step if and only if no release takes a page another of them is on |
| `LockLedger.HonestIff` | crates/zfswatch-keys/src/memory.rs:14-83 | over every run, every secret that says it is locked has all its pages locked at every step if and only if no release takes a page another locked secret is on |
| `LockLedger.SharedPageMisleads` | crates/zfswatch-keys/src/memory.rs:50-83 | for any two nonempty strings on one page: dropping the first secret unlocks the page while the second still says it is locked |

## Left out

- CreatePool.OptionsRecovered: the algorithm is recovered only when encryption is on, because otherwise it is not passed.
- Tables.DatasetsPrinted: a size must be printed in a form that reads back as itself and present fields must not print like absent ones; sizes that are not whole in their unit are printed rounded and change in the decoder.
- Tables.PoolsPrinted: a size must be printed in a form that reads back as itself; others are rounded when printed or by the parser.
- Tables.NiceSizeRead: stated for sizes whole in their unit and below 2^60; a larger one is printed with a suffix that the parser does not know.
- MacMonitor.AssumedInfoPasses: what the description parser would make of any other text is not stated, as every caller passes this one.
- Progress.NeverBlocked: that a started command ends and that a client which can move is scheduled is up to the system.
- Processes, sockets, task scheduling, udev and `diskutil` themselves, files and clocks: replaced by arbitrary answers, texts and input traces.
- What `zpool` and `zfs` do in the kernel: a runner's answers are arbitrary, or given from a world that stays as it is while a listing runs; nothing is claimed about what a change does to pools or keys.
- Stop signals of both monitors: the loops are modelled over an input trace; a stopped monitor has emitted a prefix.
- A udev device is taken to carry the same properties when it goes as when it came.
- Text is a sequence of Unicode scalar values: replacement of invalid bytes before `lines` or `trim` is not modelled, and invalid UTF-8 on a connection is a failure within that line.
- The wording of success messages and of device and size columns: responses carry what the message says as data.
- JSON: encoders and decoders are any pair that is lossless and emits no raw LF.
- Daemon start-up, socket permissions and the key vault.
- `check_zfs_installed` and `zfs_version`: single queries with easy outcomes.
- Automatic mounting on insertion: the daemon does not start a monitor.
- Contents of memory after a secret is dropped: the destructor only unlocks pages.
- Configuration parsing and defaults: a reload yields some configuration or some error.
- Upper-casing in the health parser covers the characters that can produce ASCII letters; the others cannot occur in a health word.
