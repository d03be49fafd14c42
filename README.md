# PingerTool core, modelled in Dafny

PingerTool is a Windows desktop tool that pings a list of hosts. It shows them in a grid,
raises an audio alert and posts to a Spark chat bot when hosts breach latency or timeout
thresholds. It also serves a live web dashboard. This project models the parts around the
probe loop and proves properties of them:

- the **target registry** of the main window (`Targets`, `Windows.MainWindow`);
- the **alert timer tick** (`Alerts`, `Windows.MainWindow.TimerElapsed`). The tick drives
  each record's alert flag, the single looping sound and the per-target Spark latch;
- the **project save state** and the save/open of project files (`ProjectFiles`,
  `Windows.ProjectControl`);
- the **web server's configuration and access checks** (`Web`);
- the **two WPF value converters** (`Converters`);
- the **browser dashboard client** (`Dashboard`).

## How the model is organised

The modules follow the program's structure.

- **`Targets`**: the target record `PingControlModel` and the pure rules behind the registry
  operations. Each registry operation is a `RegistryOp`, and `Apply` is the value it leaves
  behind. The lemmas prove what each operation changes and that addresses stay unique.
- **`Alerts`**: the specification of one timer tick, written as a left fold over the
  records.
  - `HandleOne` is one pass of the loop body and `Handle` runs the loop. It stops at the
    first record that throws.
  - `Tick` is the whole callback, including the re-entrancy guard.
  - Declarative summaries sit beside the fold: `AfterTickAll`, `AnySoundBreach`,
    `AnyFault` and `MessagesOf`. The lemmas `HandleFaults`, `HandleRecords` and
    `HandleSent` connect the fold to them. The closed forms `TickDone` and `TickFault`
    follow from those lemmas.
  - Spark messages are structured values (`Entered`/`Cleared` with the quoted lines).
    `Text` and `Markdown` render the two strings that `Spark.SendMessage` receives.
- **`Windows`**: the classes `MainWindow`, `ProjectControl`, `App` and `ProjectStore`.
  - Their methods update fields in place, as the C# does.
  - Each method is proved against the `Targets`, `Alerts` and `ProjectFiles` functions.
    For example, `TimerElapsed` ensures `AlertView() == Tick(Config(), old(AlertView()))`.
  - The loop of the timer callback is `HandleAll`, with a loop invariant stated through
    `Handle`. Its body for one record is `HandleControl`.
  - The foreach loop of `OpenProject` is `ImportElements`. The loop of `SaveProject` is
    `BuildSaveElements`.
- **`ProjectFiles`**: the stored project record (`SaveFileData`). `SaveElements` is what
  saving writes, `Imported` is what opening adds, and `ImportLength` is where a null entry
  stops an import. The round trip from save to open is proved here.
- **`Web`**:
  - `WebServer` is a class with `Dispose`.
  - `Validate` and `ThrowUnauthorized` are functions.
  - `CheckWhitelisted` is a loop proved against the recursive specification `Scan`.
    `ScanMeaning` states what `Scan` means with quantifiers, in both directions.
- **`Converters`**: the two converters as functions over a `BoundValue`, the runtime type
  they test. An exception is a `Throws` result naming its type.
- **`Dashboard`**:
  - `PingerClient` is a class with the client script's fields (`Authenticated`,
    `PingContainerLines`, the panels and the alert banner).
  - Its handlers are proved against `Receive` and `HandleUpdate`.
  - `Wellformed` is the invariant those handlers keep: one panel per address, a buffer
    for each panel, and no buffer over 15 lines.
- **`Strings`**: the library string operations the code relies on. These are `string.Join`,
  `String.Split(char)`, `String.Replace`, JavaScript's first-occurrence `replace`,
  `Contains` and `Path.GetFileName`.

### Behaviour modelled as written

- **EmptyListConverter.** A count of at least 1 gives `Collapsed`, and any other count
  gives `Visible`. The comment above that line in `EmptyListConverter.cs` says the
  opposite; the model follows the code.
- **Exceptions in the timer callback.**
  - The Spark message quotes `Lines[Count-4]`, `Lines[Count-3]` and `Lines[Count-2]`. A
    record with fewer than four display lines therefore throws after its latch has flipped.
  - Clearing a latch while no Spark bot is configured throws on the null `Spark`.
  - In both cases the loop ends at that record. Records after it are untouched, and the
    "Stop" step is skipped.
  - The `_IsTimerRunning` guard is never reset, because the timer swallows the exception.
    `Tick` reproduces this: every later tick does nothing (`TickFaultSticks`).
- **The allow-list default.** `AllowedSubnets` keeps `{"127.0.0.0/8"}` when the argument
  is null or empty, although the log text says the restriction is disabled. C# optional
  arguments are left to the caller: the constructor's signature defaults the argument to
  "0.0.0.0/0", so a server created with only a bind address admits every client
  (`Scan` never refuses a list holding that entry).
- **The alert status.** An "ALERT" message names "HIGH RESPONSE TIME" whenever the warning
  counter is non-zero, even when only the timeout threshold was breached
  (`TimeoutBreachReportedAsHighResponseTime`).
- **Import stops at a null entry.** `OpenProject` throws on a null entry, and what was
  imported before that entry stays. The thresholds are restored before the element list
  is read, so they also stay when the list is null.

## Model

| member | source | states |
|---|---|---|
| Targets.NewElement | PingerTool/Windows/MainWindow.xaml.cs:397-402 | the added record has the given name and address, ShowGraph = !GraphHidden, no display lines, zero failure counters, and neither the alert flag nor the Spark latch set |
| Targets.CountAddressMeansPresence | PingerTool/Windows/MainWindow.xaml.cs:393-394 | the Count used as the existence test is 0 exactly when no record has the address, and at most 1 while addresses are unique |
| Targets.FirstIndexOf | PingerTool/Windows/MainWindow.xaml.cs:426 | First(q => q.Address.Equals(a)) is a record with that address and no earlier record has it |
| Targets.ColumnsFor | PingerTool/Windows/MainWindow.xaml.cs:405-408 | three columns exactly when there are more than 8 targets, one exactly when there is at most 1, otherwise two |
| Targets.CreateAppends | PingerTool/Windows/MainWindow.xaml.cs:390-402 | a create with an address already present changes nothing; otherwise exactly one record is appended at the end and the earlier records are unchanged |
| Targets.RemoveTakesFirst | PingerTool/Windows/MainWindow.xaml.cs:419-427 | removal takes out exactly the first record with the address (as a multiset too) and keeps the others in order; with unique addresses the address is then gone |
| Targets.RenameTouchesOnlyName | PingerTool/Windows/MainWindow.xaml.cs:445-453 | a rename changes only the DisplayName of the first matching record; every other record and all addresses are unchanged, and names need not be unique |
| Targets.ReaddressTouchesOnlyAddress | PingerTool/Windows/MainWindow.xaml.cs:465-478 | re-addressing to an address in use, including the same address, changes nothing; otherwise only the matching record's address changes |
| Targets.ApplyKeepsUnique | PingerTool/Windows/MainWindow.xaml.cs:390-483 | each registry operation keeps addresses unique |
| Targets.ApplyAllKeepsUnique | PingerTool/Windows/MainWindow.xaml.cs:390-527 | any run of registry operations keeps addresses unique |
| Windows.App.constructor | PingerTool/App.xaml.cs:14-15 | the warning timeframe and the ping timeout both start at 2000 |
| Windows.MainWindow.constructor | PingerTool/Windows/MainWindow.xaml.cs:21-41 | the thresholds start at {2000, 2000, 0, 5} with notification off; the project control is created and opens the last project or starts a new one; the app's timeout and warning threshold are those of a readable last file, otherwise unchanged |
| Windows.MainWindow.NotifyProject | PingerTool/Windows/MainWindow.xaml.cs:410 | Proj?.TriggerSaveStatus(): with a project control the project is marked dirty and "*" is added to the title once |
| Windows.MainWindow.CreatePingElement | PingerTool/Windows/MainWindow.xaml.cs:390-412 | returns true exactly when the address is new; the records become Apply(old, Create); the column rule holds; only a success marks the project dirty; addresses stay unique |
| Windows.MainWindow.RemovePingElement | PingerTool/Windows/MainWindow.xaml.cs:419-437 | returns true exactly when the address is present; the records become Apply(old, Remove), i.e. without their first match; the column rule holds; only a success marks the project dirty |
| Windows.MainWindow.UpdatePingElementName | PingerTool/Windows/MainWindow.xaml.cs:445-457 | returns true exactly when the address is present; the records become Apply(old, Rename); only a success marks the project dirty |
| Windows.MainWindow.UpdatePingElementAddress | PingerTool/Windows/MainWindow.xaml.cs:465-484 | returns true exactly when the old address is present and the new one is not; the records become Apply(old, Readdress); with a web server, one "DELETED" message is sent carrying the record as it was before the change |
| Windows.MainWindow.ClearAllElements | PingerTool/Windows/MainWindow.xaml.cs:523-527 | no records and one column; the project is not marked dirty |
| Windows.MainWindow.GetAllElements | PingerTool/Windows/MainWindow.xaml.cs:533-536 | the snapshot is the records in order |
| Windows.MainWindow.TimerElapsed | PingerTool/Windows/MainWindow.xaml.cs:92-150 | the window's records, sound flag, guard, player calls and Spark messages become Tick of the old ones; addresses stay unique |
| Windows.RunTimer | PingerTool/Windows/MainWindow.xaml.cs:97-149 | what the callback computes once the guard is taken equals Tick with the guard clear; the record count and the uniqueness of addresses are kept |
| Windows.HandleAll | PingerTool/Windows/MainWindow.xaml.cs:97-139 | the foreach over the records yields the handled records, NeedsToAlert, _IsPlayingAlert, the calls, the messages and the fault of Handle; records after a fault are untouched |
| Windows.HandleControl | PingerTool/Windows/MainWindow.xaml.cs:100-138 | one record: Alerting follows the sound condition, the Spark latch follows the Spark condition, the flip yields its message, and a missing line or a null Spark is a fault |
| Windows.ProjectControl.constructor | PingerTool/Classes/ProjectControl.cs:19-33 | a non-empty last file that opens gives its targets, its title, it as current file and a clean state; otherwise a new untitled project that needs saving; a non-empty last file that is readable sets the app's timeout and warning threshold to the file's, even when its import then fails, and otherwise both are unchanged |
| Windows.ProjectControl.TriggerSaveStatus | PingerTool/Classes/ProjectControl.cs:38-45 | afterwards SaveNeeded holds, and "*" was appended to the title only if SaveNeeded was false, so a second call changes nothing |
| Windows.ProjectControl.NewProject | PingerTool/Classes/ProjectControl.cs:49-58 | no targets, one column, the title "PingerTool - Untitled Project*", no current file, SaveNeeded set, and it returns true |
| Windows.ProjectControl.OpenProject | PingerTool/Classes/ProjectControl.cs:60-100 | an unreadable file changes nothing; otherwise the thresholds are restored and the entries up to the first null entry are imported on top of the existing targets; returns true exactly when every entry was reached, and then sets the title from the file name, the current file and a clean state; on failure the current file is unchanged |
| Windows.ProjectControl.ImportElements | PingerTool/Classes/ProjectControl.cs:70-87 | the foreach calls CreatePingElement for each entry with a name and a parseable address, in file order; a null entry stops it; complete exactly when there is no null entry; the project is marked dirty when a target was added |
| Windows.ProjectControl.SaveProject | PingerTool/Classes/ProjectControl.cs:102-139 | a failed write changes nothing; a successful one stores SaveData of the targets and both thresholds, sets the title from the file name, records the current file and clears SaveNeeded |
| Windows.BuildSaveElements | PingerTool/Classes/ProjectControl.cs:107-115 | the list built is SaveElements: one {Address, Name} per target, in collection order |
| Windows.IndexOfFirst | PingerTool/Windows/MainWindow.xaml.cs:426 | the scan finds the first record with the address |
| ProjectFiles.SaveElements | PingerTool/Classes/ProjectControl.cs:107-115 | one saved entry per target; SaveElementsAt gives each entry |
| ProjectFiles.ImportOne | PingerTool/Classes/ProjectControl.cs:72-86 | one entry only appends to the registry, and adds a target exactly when it has a name and an address that parses to an address not yet present |
| ProjectFiles.Imported | PingerTool/Classes/ProjectControl.cs:70-87 | the import adds at most one target per entry and removes none; ImportAppends says which are added |
| ProjectFiles.SaveElementsAt | PingerTool/Classes/ProjectControl.cs:107-115 | entry i of the saved list is the address text and name of target i; graph visibility is not stored |
| ProjectFiles.ImportLength | PingerTool/Classes/ProjectControl.cs:70-72 | the import reaches exactly the entries before the first null entry |
| ProjectFiles.ImportAppends | PingerTool/Classes/ProjectControl.cs:70-87 | an import only appends: existing targets stay first and unchanged, entries with an address already present are rejected, every added target shows its graph, and addresses stay unique |
| ProjectFiles.ImportLengthAllPresent | PingerTool/Classes/ProjectControl.cs:70-72 | with no null entry every entry is reached |
| ProjectFiles.SaveOpenRoundTrip | PingerTool/Classes/ProjectControl.cs:60-123 | opening what was saved, into an empty registry, reaches every entry and gives back the same (address, name) sequence, provided each address's text parses back to it |
| ProjectFiles.SavedEntriesImported | PingerTool/Classes/ProjectControl.cs:78-80 | importing every saved entry into an empty registry rebuilds the (address, name) pairs, by induction over the targets |
| Strings.Split | PingerTool/Classes/WebServer.cs:66 | at least one piece, and a string without the separator is its own single piece; JoinSplit and SplitPiecesFree give the inverse and the pieces |
| Strings.ReplaceAll | PingerTool/Classes/WebServer.cs:85 | a string without the pattern is unchanged, and a replacement as long as the pattern keeps the length; ReplaceRemovesWildcard shows no occurrence remains |
| Strings.ReplaceFirst | PingerTool/Resources/js/template.js:104 | at most one occurrence is replaced: the length is unchanged or changed by exactly one replacement; ReplaceFirstAbsent gives the no-occurrence case |
| Strings.FileName | PingerTool/Classes/ProjectControl.cs:90 | the file name is never longer than the path; FileNameIsLastSegment characterises it |
| Strings.FileNameIsLastSegment | PingerTool/Classes/ProjectControl.cs:90 | the file name in the title is the longest suffix of the path without a separator |
| Alerts.TimeoutBreachReportedAsHighResponseTime | PingerTool/Windows/MainWindow.xaml.cs:118-128 | a record that breaches on timeouts alone, with some warning failures below the warning threshold, is announced as "HIGH RESPONSE TIME": the status reflects the warning counter, not the breached threshold |
| Alerts.TimeoutStatusMeansTimeoutBreach | PingerTool/Windows/MainWindow.xaml.cs:118-126 | "TIMEOUT" is announced only for a breach of the timeout threshold |
| Alerts.QuoteSkipsNewestLine | PingerTool/Windows/MainWindow.xaml.cs:128 | the quote never shows the newest display line: replacing it keeps the quote, and a new line moves each quoted line one place up |
| Alerts.RecordFaultsMeaning | PingerTool/Windows/MainWindow.xaml.cs:118-138 | a record throws only while its latch flips, and only for want of four display lines or of a Spark bot |
| Alerts.RecordMessagesMeaning | PingerTool/Windows/MainWindow.xaml.cs:118-138 | at most one message per record, one exactly when its latch flips: "ALERT" entering the breach, "OK" leaving it, naming the record and quoting its lines |
| Alerts.HandleOneMeaning | PingerTool/Windows/MainWindow.xaml.cs:100-138 | one pass of the loop body throws exactly when the record faults, handles the record even then with its latch set to the Spark condition, turns the sound on with at most one PlayLooping, and sends one message exactly on a latch flip that does not throw |
| Alerts.Handle | PingerTool/Windows/MainWindow.xaml.cs:97-139 | the loop handles every record unless one throws, and never more than there are; HandleFaults, HandleRecords and HandleSent state it without the loop |
| Alerts.Tick | PingerTool/Windows/MainWindow.xaml.cs:92-150 | the record count is kept, a run that finds the guard set changes nothing, and player calls and messages are only appended; TickDone, TickFault and TickCompleted give it in closed form |
| Alerts.KindFromText | PingerTool/Windows/MainWindow.xaml.cs:128-137 | the plain text starts with "ALERT: " exactly for an entered-state message and with "OK: " exactly for a cleared one |
| Alerts.AfterTickAllAt | PingerTool/Windows/MainWindow.xaml.cs:98-139 | record i after the tick is record i handled on its own |
| Alerts.HandleFaults | PingerTool/Windows/MainWindow.xaml.cs:118-138 | the loop faults exactly when some record's message cannot be built or sent, and it stops right after the first such record |
| Alerts.HandleRecords | PingerTool/Windows/MainWindow.xaml.cs:97-115 | the handled records are the records handled one by one; NeedsToAlert holds exactly when one of them breaches the sound thresholds; PlayLooping is called once, only on an off-to-on change |
| Alerts.HandledRecords | PingerTool/Windows/MainWindow.xaml.cs:98-114 | the records part of HandleRecords, by induction over the records |
| Alerts.HandleSound | PingerTool/Windows/MainWindow.xaml.cs:100-112 | the NeedsToAlert and sound part of HandleRecords, by induction over the records |
| Alerts.HandleSent | PingerTool/Windows/MainWindow.xaml.cs:117-138 | the messages sent are those of the records before the faulting one, in record order |
| Alerts.HandleStep | PingerTool/Windows/MainWindow.xaml.cs:98 | one more record is one more pass of the loop body, unless the loop has already thrown |
| Alerts.HandleStepRecords | PingerTool/Windows/MainWindow.xaml.cs:98-139 | handling record i in place in the collection gives the next state of the loop |
| Alerts.TickFresh | PingerTool/Windows/MainWindow.xaml.cs:92-150 | the tick in terms of the loop: after a fault the guard stays set, otherwise the sound stops when it was playing and nothing breached |
| Alerts.HandleStops | PingerTool/Windows/MainWindow.xaml.cs:98-139 | once a record has thrown, the records after it change nothing |
| Alerts.AfterTickAllSettled | PingerTool/Windows/MainWindow.xaml.cs:100-138 | handling is idempotent and keeps the sound condition; handled records are due no message |
| Alerts.MessagesCountFlips | PingerTool/Windows/MainWindow.xaml.cs:118-138 | exactly one Spark message per latch that flips |
| Alerts.SettledSendsNothing | PingerTool/Windows/MainWindow.xaml.cs:118-138 | when every latch agrees with its breach condition, no message is sent |
| Alerts.TickDone | PingerTool/Windows/MainWindow.xaml.cs:92-150 | a tick without a fault, in closed form: every record is handled, the sound plays exactly when some record breaches, PlayLooping only on off-to-on, Stop only on on-to-off, and the messages of the flipped latches are sent |
| Alerts.TickFault | PingerTool/Windows/MainWindow.xaml.cs:92-150 | a tick whose first faulting record is k, in closed form: records up to k are handled and later ones untouched, no Stop is issued, the messages before k are sent, and the guard stays set |
| Alerts.HandleFaultAt | PingerTool/Windows/MainWindow.xaml.cs:124-137 | the loop ends right after the first record that throws |
| Alerts.TickAppends | PingerTool/Windows/MainWindow.xaml.cs:92-150 | a tick only appends to the player calls and the messages sent |
| Alerts.TickCompleted | PingerTool/Windows/MainWindow.xaml.cs:97-146 | after a completed tick each Alerting is its sound condition and each latch its Spark condition, with no other field changed; _IsPlayingAlert holds exactly when some record alerts; PlayLooping is added exactly on an off-to-on change and Stop exactly on an on-to-off change; the message count is the number of latch flips |
| Alerts.ZeroThresholdsNeverAlert | PingerTool/Windows/MainWindow.xaml.cs:101-102 | with notification off, or both sound thresholds at 0, no record alerts and no sound plays |
| Alerts.TickSettles | PingerTool/Windows/MainWindow.xaml.cs:97-146 | a second tick on unchanged counters changes no record, makes no player call and sends no message |
| Alerts.TickFaultSticks | PingerTool/Windows/MainWindow.xaml.cs:94-95 | a tick leaves the guard set exactly when it faulted, and every later tick is then a no-op |
| Alerts.EnoughLinesNoFault | PingerTool/Windows/MainWindow.xaml.cs:124-137 | with a Spark bot configured and at least four display lines on every record, no tick faults |
| Alerts.BreachClearBreach | PingerTool/Windows/MainWindow.xaml.cs:118-138 | over breach, clear and breach again, with each state held for two ticks, exactly one ALERT, one OK and one ALERT are sent, each on the edge |
| Alerts.TickOne | PingerTool/Windows/MainWindow.xaml.cs:97-149 | a tick over one record that does not fault handles it and sends its messages |
| Alerts.TickKeepsAddresses | PingerTool/Windows/MainWindow.xaml.cs:98-139 | a tick keeps the number, order and addresses of the records, so unique addresses stay unique |
| Web.AuthEnabledFor | PingerTool/Classes/WebServer.cs:50-58 | authentication stays off unless asked for, stays off when the username or password is null or empty, and is on otherwise |
| Web.HostConfigFor | PingerTool/Classes/WebServer.cs:80-91 | the URI starts with "http://", and RewriteLocalhost is set exactly when the bind address contains "0.0.0.0" |
| Web.Scan | PingerTool/Classes/WebServer.cs:248-264 | an empty allow-list refuses, and one holding "0.0.0.0/0" never refuses; ScanMeaning states the outcome in both directions |
| Web.SubnetsFor | PingerTool/Classes/WebServer.cs:60-67 | a null or empty argument keeps {"127.0.0.0/8"}; otherwise the list is the argument split on ',' (rejoined it gives the argument back, and no piece contains ',') |
| Web.ReplaceRemovesWildcard | PingerTool/Classes/WebServer.cs:85 | replacing every "0.0.0.0" by "localhost" leaves no "0.0.0.0" |
| Web.HostConfigMeaning | PingerTool/Classes/WebServer.cs:80-91 | the URI is "http://" + the bind address; RewriteLocalhost is set exactly when the address contains "0.0.0.0", and then the URI holds no "0.0.0.0"; otherwise the address is used verbatim |
| Web.WebServer.constructor | PingerTool/Classes/WebServer.cs:46-105 | AuthEnabled exactly when authentication is asked for with a non-empty username and password, and then AuthDetails holds them, otherwise ["", ""]; the subnets come from SubnetsFor; a refused URI leaves no host |
| Web.WebServer.Dispose | PingerTool/Classes/WebServer.cs:107-125 | the first call disposes the host once and clears it; later calls change nothing |
| Web.ValidateIgnoresAuthEnabled | PingerTool/Classes/WebServer.cs:137-156 | the validator never reads AuthEnabled: servers with the same credentials answer every login alike whatever AuthEnabled says, and a login matching the credentials succeeds as that user |
| Web.LoginNeedsAuthEnabled | PingerTool/Classes/WebServer.cs:142-155 | on a server whose credentials are empty while authentication is off (as the constructor leaves them), and with non-empty hashes, a login succeeds only with authentication on, and then exactly with the configured username and password hash |
| Web.DisabledAuthAdmitsNobody | PingerTool/Classes/WebServer.cs:142-155 | with the empty credentials of disabled authentication no login succeeds, provided hashes are never empty |
| Web.ScanMeaning | PingerTool/Classes/WebServer.cs:248-264 | the scan admits exactly when some entry is "0.0.0.0/0" or contains the client and every entry before it parses; it refuses exactly when every entry parses and none admits; an empty list refuses |
| Web.CheckWhitelisted | PingerTool/Classes/WebServer.cs:245-265 | a null client is refused; otherwise the loop's outcome is the in-order scan of the allow-list, including a throw on an unparseable entry |
| Web.DefaultAdmitsLoopbackOnly | PingerTool/Classes/WebServer.cs:28 | with the default allow-list a client gets in exactly when 127.0.0.0/8 contains it |
| Web.ThrowUnauthorized | PingerTool/Classes/WebServer.cs:271-285 | a 403 response whose body starts "HTTP 403 Unauthorized." |
| Converters.EmptyListConvert | PingerTool/Converters/EmptyListConverter.cs:10-18 | null throws NullReferenceException; anything but an int, or a target type other than Visibility, throws ArgumentException; an int of at least 1 gives Collapsed, any other int Visible, never Hidden |
| Converters.EmptyListConvertBack | PingerTool/Converters/EmptyListConverter.cs:20-24 | always throws NotImplementedException |
| Converters.PlaceholderShownIffEmpty | PingerTool/Converters/EmptyListConverter.cs:17 | bound to a list's count, the placeholder is Visible exactly when the list is empty and Collapsed exactly when it is not |
| Converters.CollectionToTextConvert | PingerTool/Converters/CollectionToTextConverter.cs:10-20 | a null array throws, and so does an empty one on value[0]; if value[0] is not a non-empty string collection the result is "" |
| Converters.CollectionToTextConvertBack | PingerTool/Converters/CollectionToTextConverter.cs:22-25 | always throws NotImplementedException |
| Converters.OnlyFirstValueCounts | PingerTool/Converters/CollectionToTextConverter.cs:12 | arrays that agree on value[0] convert alike |
| Converters.LinesRoundTrip | PingerTool/Converters/CollectionToTextConverter.cs:14 | when no line contains "\n", splitting the text on "\n" gives back the lines in order |
| Converters.JoinedLength | PingerTool/Converters/CollectionToTextConverter.cs:14 | the text is the lines plus one separator between each pair, and a single line is returned unchanged |
| Dashboard.FindPanel | PingerTool/Resources/js/template.js:100 | the selector finds the first panel with the address, and finds nothing exactly when no panel has it |
| Dashboard.PanelIndex | PingerTool/Resources/js/template.js:100 | the scan over the panels finds what FindPanel specifies |
| Dashboard.Receive | PingerTool/Resources/js/template.js:58-80 | the client is authenticated afterwards exactly when it was before or the reply has no error, and before authentication the feed is untouched |
| Dashboard.HandleUpdate | PingerTool/Resources/js/template.js:97-165 | no buffer is ever dropped, the update's address has a buffer of at most 15 lines, and at most one panel is added or removed; HandleKeepsWellformed gives the invariant |
| Dashboard.UpdatePanel | PingerTool/Resources/js/template.js:101-133 | for a known address: the buffer keys stay, only that address's buffer changes and stays within 15 lines, and only a non-paused "DELETED" removes a panel |
| Dashboard.AddPanel | PingerTool/Resources/js/template.js:134-164 | for a new address: one panel for it is appended after the others, and only its buffer is added, with at most one line |
| Dashboard.AuthenticationGate | PingerTool/Resources/js/template.js:58-80 | before authentication no reply touches the panels or buffers, an error reply shows the danger banner, and the client authenticates exactly on a reply without error; afterwards every message goes to HandleMessage |
| Dashboard.UndefinedMessageIgnored | PingerTool/Resources/js/template.js:99 | a message whose Message field is undefined changes nothing |
| Dashboard.HandleKeepsWellformed | PingerTool/Resources/js/template.js:97-165 | every message keeps one panel per address, a buffer for every panel and no buffer over 15 lines |
| Dashboard.KnownKeepsWellformed | PingerTool/Resources/js/template.js:101-133 | a message for an address that has a panel keeps the feed well formed |
| Dashboard.DeletedKeepsWellformed | PingerTool/Resources/js/template.js:117-121 | removing a panel keeps the feed well formed |
| Dashboard.RefreshedKeepsWellformed | PingerTool/Resources/js/template.js:103-131 | refreshing a panel in place, or pushing onto its buffer, keeps the feed well formed |
| Dashboard.NewKeepsWellformed | PingerTool/Resources/js/template.js:134-164 | adding a panel for a new address keeps the feed well formed |
| Dashboard.PausedBeforeDeleted | PingerTool/Resources/js/template.js:108-121 | a paused message for a known address, even "DELETED", keeps the panel, shows "Ping Control Paused" and "Resume Check", and empties the buffer |
| Dashboard.DeletedRemovesPanel | PingerTool/Resources/js/template.js:117-121 | a non-paused "DELETED" removes exactly that panel, keeps the other panels in order, and leaves the buffer entry in place |
| Dashboard.LinePushed | PingerTool/Resources/js/template.js:123-130 | a line for a known address is pushed, dropping the oldest when 15 are held; the buffer stays at most 15 and ends with the line, and the panel shows it joined by "<br />" with "Pause Check" |
| Dashboard.UnknownAddressCreatesPanel | PingerTool/Resources/js/template.js:134-164 | a message for a new address appends exactly one panel for it with the rewritten colour, and a fresh buffer that holds the line only if it is neither paused nor empty (even "DELETED") |
| Dashboard.BufferKeepsLastLines | PingerTool/Resources/js/template.js:125-126 | pushing lines one by one leaves exactly the last 15 of the old buffer followed by the new lines |
| Dashboard.ShownColourMeaning | PingerTool/Resources/js/template.js:104 | an ARGB colour starting "#FF" is shown as "#" and its RGB digits; a colour without "#FF" is shown as sent |
| Dashboard.PingerClient.constructor | PingerTool/Resources/js/template.js:7-13 | a client starts unauthenticated with no buffers and no panels |
| Dashboard.PingerClient.SocketMessage | PingerTool/Resources/js/template.js:58-80 | the client state becomes Receive of the old state and the reply, keeping the feed well formed |
| Dashboard.PingerClient.SocketClose | PingerTool/Resources/js/template.js:83-87 | the banner shows the warning that the connection was closed |
| Dashboard.PingerClient.SocketError | PingerTool/Resources/js/template.js:90-94 | the banner shows the danger message about the connection error |
| Dashboard.PingerClient.HandleMessage | PingerTool/Resources/js/template.js:97-165 | the buffers and panels become HandleUpdate of the old ones, keeping the feed well formed |
| Dashboard.PingerClient.RefreshPanel | PingerTool/Resources/js/template.js:101-133 | the branch for a known address: the feed becomes UpdatePanel of the old one |
| Dashboard.PingerClient.AppendPanel | PingerTool/Resources/js/template.js:134-164 | the branch for a new address: the feed becomes AddPanel of the old one |

## Left out

- The WPF user interface is not modelled. This covers the ribbon and backstage handlers,
  the dialogs (`AddDialog`, `Settings`), `FindVisualChildren`, and the property-change
  plumbing of `ViewModel` and `PingControl`. `PausePingElement` and `ResumePingElement` go
  through controls that are not part of this model.
- The probe loop that updates `WarningFailures`, `TimeoutFailures`, `DisplayLines` and
  `LastContact` is not in the source. These fields are inputs to the tick.
- Concurrency is not modelled. The `System.Timers` timer and `Dispatcher.Invoke` are left
  out, and one timer callback is one atomic step. The `_IsTimerRunning` guard is kept only
  for its sequential effect after an exception.
- The `SoundPlayer` is recorded as a list of `PlayLooping`/`Stop` calls.
- Spark is not modelled as an HTTP client. A call to `Spark.SendMessage` is recorded as a
  structured message, and the asynchronous sending is not modelled.
- The web feed is a recorded list of `SendWebsocketMessage` calls. The Nancy host,
  bootstrapper, routes and websocket transport are not modelled.
- JSON serialisation, file reads and writes and the Windows registry
  (`GetLastOpenProject`) are abstracted:
  - a file is a stored record, or unreadable;
  - a write either succeeds or fails;
  - the last project path is a constructor argument, and it is never null. In the source,
    `GetLastOpenProject` returns null when reading the registry throws
    (`ProjectControl.cs` lines 165-169), and `LastFile.Length` at line 31 then throws a
    NullReferenceException out of the constructor. The model does not capture that.
- Logging (`Log.cs` and every log call) is left out.
- Foreign functions are passed in as function parameters: `IPAddress.TryParse`,
  `IPAddress.ToString`, `IPNetwork.Parse` with `ContainsAddress`, and SHA-256.
- `IPAddress.Equals` is equality of the address value. Reference identity of records is
  not modelled. The registry holds values, so the "DELETED" message's clone is the value
  before the change.
- Windows.MainWindow.constructor: the timer setup, player setup, icons and version text
  are left out. The constructor also takes its title and the store as arguments.
- In the dashboard, the DOM is a sequence of panel records. A ping text or pause label of
  `None` means the panel still holds what the template had. The AJAX dialogs, token fetch
  and websocket opening (template.js lines 16-54 and 168-500) are not modelled.
- Dashboard.Receive: `JSON.parse` failures and messages that lack fields are not modelled.
  A reply is an already parsed record.
- Converters.CollectionToTextConvert: a null string inside the collection is not
  modelled, since strings are values.
- Converters.EmptyListConvert: the int is unbounded, so a 32-bit count is not modelled.
- Alerts.Text and Alerts.Markdown render the message strings but carry no contract of
  their own. `KindFromText` states how the two kinds of message differ in their text.
- ProjectFiles.SaveOpenRoundTrip covers the target list. Both thresholds are stored and
  restored field by field (`SaveProject` and `OpenProject` ensure this).
