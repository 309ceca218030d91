# droidrun-gui core, modelled in Dafny

droidrun-gui is a desktop front end for the droidrun agent, which drives an Android device through
adb. This project models the parts of it that make decisions, and proves properties of them:

- **Device tools** (`droidrun/tools/actions.py`, module `Actions`):
  - parsing `pm list packages -f` output;
  - flattening the Portal app's UI tree into the clickable-element cache, and summarising it;
  - tapping an element by index, from the cache;
  - shell-escaping typed text and sending it in 500-character chunks;
  - naming key codes;
  - normalising the file name of a UI dump.
- **Device registry** (`droidrun_gui/device_manager.py`, module `DeviceManagement`):
  - parsing `adb devices`;
  - the persistent registry of known devices and the ids it announces;
  - disconnecting a device;
  - parsing the battery and storage reports and the connect reply.
- **Task runner** (`droidrun_gui/task_executor.py`, module `TaskExecution`):
  - choosing the LLM provider from the model label;
  - building the CLI's environment and command line;
  - the worker thread: it installs the Portal APK on a device's first run, records that in a flag file, starts the CLI and reports how the run ended;
  - stopping the worker.
- **Templates and history** (`droidrun_gui/task_manager.py`, module `Tasks`): task templates grouped by category, and a history capped at the 100 latest runs.
- **API keys** (`droidrun_gui/apikey_manager.py`, module `ApiKeys`): one API key per provider, filed under the provider's upper-case name.

Shared modules:
- `Text` holds Python's string operations as the source uses them: `split`, `splitlines`, `strip`, `in`, `int()`, `str()`, `upper()` and `lower()`.
- `Sorting` holds a sort proved sorted and a permutation.
- `Wrappers` holds `Option`.

Objects whose fields the source updates in place are classes:
- `ElementCache`, which models the module-level element cache;
- `DeviceManager`;
- `TaskManager`;
- `APIKeyManager`;
- `TaskWorker`;
- `TaskExecutor`;
- `FlagFiles`, which stands for the flag files on disk.

Their methods are specified by pure functions. The lemmas beside those functions state what the source promises.

The outside world is passed in as parameters:
- what adb or a subprocess printed;
- whether a call raised (`None`, or the error text);
- what the device shell reports for each command;
- the clock's timestamp.

Qt signals are the sequences of values a class emitted. JSON files are the values a manager starts from and holds.

## Model

| member | source | states |
|---|---|---|
| Actions.ParsePackageList | droidrun/tools/actions.py:45-62 | the loop over output lines yields exactly the per-line parse of every line, in order |
| Actions.ParsePackageLine | droidrun/tools/actions.py:56-61 | one line yields the entry PackageOfLine gives: an entry iff the line has the prefix and an '=' |
| Actions.PackageOfLine | droidrun/tools/actions.py:55-61 | a line yields a package iff it starts with "package:" and an "=" follows that prefix |
| Actions.PackageSplitsAtLastEquals | droidrun/tools/actions.py:58-61 | "package:" + path + "=" + name with no "=" in name parses to (stripped name, stripped path), whatever "=" the path holds |
| Actions.PackagesOfLinesAppend | droidrun/tools/actions.py:55-62 | parsing concatenated output is concatenating the parses: lines are independent |
| Actions.FlattenElements | droidrun/tools/actions.py:141-179 | the nested loops build exactly the flattening of the tree format or the legacy format |
| Actions.FlattenParents | droidrun/tools/actions.py:144-171 | the loop over top-level elements yields their entries in order |
| Actions.CollectParentEntries | droidrun/tools/actions.py:146-171 | one top-level element contributes its clickable copy, then each indexed child followed by its indexed children |
| Actions.CollectChildEntries | droidrun/tools/actions.py:154-171 | the loop over one element's children yields each indexed child, marked with its parent's index, followed by its indexed children |
| Actions.CollectGrandchildEntries | droidrun/tools/actions.py:165-171 | the indexed children of a child, copied with both ancestors' indexes |
| Actions.FlattenLegacyElements | droidrun/tools/actions.py:172-178 | the older format keeps every indexed element, without its "isClickable" key |
| Actions.FlattenTreeWellFormed | droidrun/tools/actions.py:144-172 | every flattened entry has an index and is either a clickable parent copy without children, marked as a parent, or a copy marked as not a parent that records a parentIndex |
| Actions.FlattenLegacyIndexed | droidrun/tools/actions.py:173-179 | legacy entries all have an index and have lost their isClickable key |
| Actions.FlattenTreeAppend | droidrun/tools/actions.py:144-172 | flattening a list of parents is the concatenation of flattening each one |
| Actions.ClickableParentIncluded | droidrun/tools/actions.py:147-151 | a clickable parent with an index appears in the flat list, without children and marked as a parent |
| Actions.ChildIncluded | droidrun/tools/actions.py:153-162 | every indexed child appears, with parentIndex set to the parent's index |
| Actions.GrandchildIncluded | droidrun/tools/actions.py:164-172 | every indexed grandchild of an indexed child appears, with parentIndex and grandparentIndex set |
| Actions.GrandchildEntriesOnlyCopies | droidrun/tools/actions.py:164-171 | every entry a child contributes for its children is a copy of one of its indexed children, marked with both ancestors |
| Actions.ChildEntriesOnlyCopies | droidrun/tools/actions.py:153-171 | every entry an element contributes for its children is a copy of one of its indexed children or of an indexed grandchild |
| Actions.FlattenTreeOnlyCopies | droidrun/tools/actions.py:144-171 | nothing else gets in: every flattened entry is a clickable parent's copy, an indexed child's copy or an indexed grandchild's copy |
| Actions.FlattenTreeDepthBound | droidrun/tools/actions.py:144-172 | the flat list is no longer than the number of nodes in the first three levels |
| Actions.FlattenedIndexed | droidrun/tools/actions.py:141-179 | every flattened element has an index, so the sort key is always present |
| Actions.TappableIndicesSpec | droidrun/tools/actions.py:193-196 | an index is collected iff it belongs to an element that has bounds and is clickable or a parent |
| Actions.GroupTextsSpec | droidrun/tools/actions.py:198-203 | the grouping by parentIndex holds each parent once, with exactly the non-empty text children of that parent, in order; no group is empty, so only parents with text get a summary line |
| Actions.FindElement | droidrun/tools/actions.py:207-212 | the loop finds the first element with the given index, or reports that none has it |
| Actions.CollectTexts | droidrun/tools/actions.py:339-344 | the loop collects exactly the texts of the text children of a parent, skipping given indices |
| Actions.Summarize | droidrun/tools/actions.py:184-236 | the summary loops compute the specified summary of the flat list |
| Actions.SortedTappableIndices | droidrun/tools/actions.py:193-196 | the sorted tappable indices keep every tappable element's index and only those |
| Actions.Summary | droidrun/tools/actions.py:184-185 | the summary's elements are the flat list sorted by index, as a permutation of it |
| Sorting.Sort | droidrun/tools/actions.py:185 | the sort used for elements, indices and summary lines returns its input sorted by the key, as a permutation |
| Actions.SummaryProperties | droidrun/tools/actions.py:184-236 | elements sorted by index and a permutation of the flat list, count and tappable count agree, tappable indices ascending and exactly the tappable elements' indices, text summary sorted |
| Actions.ElementCache.GetClickables | droidrun/tools/actions.py:141-236 | on parsed UI data the cache becomes the sorted flat list the summary reports; on a parse failure the cache is unchanged |
| Actions.ParseFormatBounds | droidrun/tools/actions.py:302-305 | bounds written as "l,t,r,b" read back as the same four integers |
| Actions.ParseBounds | droidrun/tools/actions.py:302-305 | bounds text is accepted iff it has exactly four comma-separated fields and each reads as an integer, and parsed bounds are those four integers |
| Actions.Centre | droidrun/tools/actions.py:307-309 | the tap point is the floor of the midpoint of each axis |
| Actions.KnownIndicesSpec | droidrun/tools/actions.py:279 | an index is listed iff some cached element has it |
| Actions.IndicesListingShape | droidrun/tools/actions.py:280-282 | up to 20 indices are joined by ", "; with more, the first 20 are joined and "... and n more" follows, n being the rest |
| Actions.SortedKnownIndices | droidrun/tools/actions.py:279 | the sorted indices are in ascending order and are exactly the indices of cached elements |
| Actions.NotFoundListing | droidrun/tools/actions.py:277-284 | the not-found message is the error head followed by the listing of the cache's indices in ascending order, cut after 20 with a count of the rest |
| Actions.DescribeTap | droidrun/tools/actions.py:322-377 | the response-building loops produce the " \| "-joined parts TapPartsShape describes |
| Actions.TapPartsShape | droidrun/tools/actions.py:332-375 | the response starts with "Tapped element with index i" and ends with the coordinates; a "Contains text" part appears iff the element is a parent with text children, a "Parent:" part iff it is not a parent, has a parentIndex and that parent is cached; never both |
| Actions.TapSpec | droidrun/tools/actions.py:265-309 | empty cache and unknown index give their error messages; a tap happens iff the first element with the index has bounds that parse, and then at their centre |
| Actions.TapAtCentre | droidrun/tools/actions.py:270-309 | an element with well-formed bounds is tapped at the centre of those bounds |
| Actions.ElementCache.TapByIndex | droidrun/tools/actions.py:263-377 | the point tapped and the message are what TapSpec gives for the cache and the index |
| Actions.EscapeText | droidrun/tools/actions.py:493-504 | the loop escapes each special character with a backslash and keeps the rest, spaces included |
| Actions.Escaped | droidrun/tools/actions.py:493-504 | escaping at least keeps and at most doubles the length |
| Actions.EscapedAppend | droidrun/tools/actions.py:493-504 | escaping works character by character: it distributes over concatenation |
| Actions.UnescapeEscaped | droidrun/tools/actions.py:493-504 | escaping loses nothing: removing the backslashes gives the text back |
| Actions.EscapedPlain | droidrun/tools/actions.py:493-504 | text without special characters is sent unchanged |
| Actions.Chunks | droidrun/tools/actions.py:506-508 | chunks are non-empty, at most the chunk size, and all but the last exactly that size |
| Actions.ConcatChunks | droidrun/tools/actions.py:506-508 | the chunks put together are the text |
| Actions.EscapedChunks | droidrun/tools/actions.py:506-512 | escaping chunk by chunk sends the same characters as escaping the whole text |
| Actions.SendChunk | droidrun/tools/actions.py:514-533 | "input text" is tried first and "input keyboard text" second; the first the shell accepts is used, and the last error is reported when both fail |
| Actions.InputText | droidrun/tools/actions.py:506-539 | chunks are sent in order until one fails; the result is the completion message iff all were sent, else the error of the failed chunk |
| Actions.KeyName | droidrun/tools/actions.py:568-579 | the six named codes are reported as HOME, BACK, VOLUME UP, VOLUME DOWN, POWER or MENU, and every other code as its decimal text |
| Actions.KeyNameReadsBack | droidrun/tools/actions.py:568-579 | the six named keys get a name, any other code its decimal text, which reads back as the code |
| Actions.KeyNameInjective | droidrun/tools/actions.py:568-579 | different key codes are reported under different names |
| Actions.PressKeyMessageInjective | droidrun/tools/actions.py:568-579 | the "Pressed key" report identifies the key: different codes give different reports |
| Actions.WithJsonSuffix | droidrun/tools/actions.py:768-770 | the name is unchanged iff it already ends with ".json", and otherwise is the name with ".json" appended |
| Actions.WithJsonSuffixIdempotent | droidrun/tools/actions.py:768-770 | normalising twice is normalising once |
| Actions.DumpFileName | droidrun/tools/actions.py:763-770 | without a name (or with an empty one) the file is "ui_state_<timestamp>.json"; a given name is normalised by WithJsonSuffix; the result always ends with ".json" |
| Actions.ElementCache.constructor | droidrun/tools/actions.py:17 | the cache starts empty |
| DeviceManagement.DeviceManager.constructor | droidrun-gui/droidrun_gui/device_manager.py:12-24 | the registry starts from the saved devices, or empty |
| DeviceManagement.DeviceManager.GetConnectedDevices | droidrun-gui/droidrun_gui/device_manager.py:30-49 | returns the ids of the device lines after the header; unknown ids are registered and announced once each; known entries are untouched; if adb raised, nothing changes and no ids come back |
| DeviceManagement.ScanSpec | droidrun-gui/droidrun_gui/device_manager.py:30-49 | walking the listing line by line gathers the listed ids, the registry RegisterSpec describes and the ids NewIdsSpec describes |
| DeviceManagement.ScanLineFrom | droidrun-gui/droidrun_gui/device_manager.py:35-44 | what one line adds does not depend on the ids gathered before it, only on the registry |
| DeviceManagement.DeviceManager.ObserveLine | droidrun-gui/droidrun_gui/device_manager.py:35-44 | one line of the listing registers and announces its id exactly as ScanLine says, and reports the id if it is a device line |
| DeviceManagement.DeviceManager.Observe | droidrun-gui/droidrun_gui/device_manager.py:38-44 | an unknown id is registered with its name and model and announced; a known one changes nothing |
| DeviceManagement.Register | droidrun-gui/droidrun_gui/device_manager.py:34-43 | every registered device stays registered |
| DeviceManagement.NewIds | droidrun-gui/droidrun_gui/device_manager.py:38-44 | only listed ids that were not registered are announced |
| DeviceManagement.RegisterSpec | droidrun-gui/droidrun_gui/device_manager.py:34-43 | the registry gains exactly the listed ids, keeps existing entries, and gives new ones the device's name and model (or the fallbacks) and status "connected" |
| DeviceManagement.NewIdsSpec | droidrun-gui/droidrun_gui/device_manager.py:38-44 | an id is announced iff it is listed and was not registered, and never twice |
| DeviceManagement.RegisteredOrAnnounced | droidrun-gui/droidrun_gui/device_manager.py:38-44 | after an update, an id is registered iff it already was or was just announced |
| DeviceManagement.DeviceRowParses | droidrun-gui/droidrun_gui/device_manager.py:35-36 | a row "id\tdevice" counts as a device line and yields its id |
| DeviceManagement.ListingParses | droidrun-gui/droidrun_gui/device_manager.py:32-37 | a listing of plain ids under the header parses back to those ids, in order |
| DeviceManagement.DeviceManager.GetDeviceInfo | droidrun-gui/droidrun_gui/device_manager.py:71-72 | the entry is present iff the id is registered, and it is that entry |
| DeviceManagement.DeviceManager.DisconnectDevice | droidrun-gui/droidrun_gui/device_manager.py:84-96 | succeeds iff adb did not raise; the device then leaves the registry and is announced iff it was registered |
| DeviceManagement.ConnectThenDisconnect | droidrun-gui/droidrun_gui/device_manager.py:30-96 | a device seen by a listing and then disconnected is no longer registered |
| DeviceManagement.ConnectSucceeded | droidrun-gui/droidrun_gui/device_manager.py:74-82 | success needs a reply from adb, at least as long as "connected" |
| DeviceManagement.ConnectSucceededIff | droidrun-gui/droidrun_gui/device_manager.py:74-82 | a connect succeeds iff nine consecutive characters of the reply spell "connected" in some letter case |
| DeviceManagement.ConnectReplyAccepted | droidrun-gui/droidrun_gui/device_manager.py:74-82 | "connected to " followed by the address as typed, in any case, counts as success |
| DeviceManagement.FirstLevelLine | droidrun-gui/droidrun_gui/device_manager.py:104-105 | the position found is the first line mentioning "level", or none does |
| DeviceManagement.BatteryLevelOf | droidrun-gui/droidrun_gui/device_manager.py:103-106 | a level is found only on a line mentioning "level", as that line's value; with no such line there is none |
| DeviceManagement.BatteryLevel | droidrun-gui/droidrun_gui/device_manager.py:98-108 | the loop returns the parse of the first "level" line; None if adb raised |
| DeviceManagement.LevelLineParses | droidrun-gui/droidrun_gui/device_manager.py:104-106 | a "level: n" line reads as n |
| DeviceManagement.BatteryUsesFirstLevelLine | droidrun-gui/droidrun_gui/device_manager.py:104-106 | later lines never affect the level: only the first "level" line is read |
| DeviceManagement.ParseStorage | droidrun-gui/droidrun_gui/device_manager.py:116-126 | a storage value is returned iff there is a second line with at least four fields whose fields 1, 2 and 3 read as integers, and it is those integers |
| DeviceManagement.ParseStorageRow | droidrun-gui/droidrun_gui/device_manager.py:116-124 | a header plus one df row reads back as its total, used and free sizes |
| ApiKeys.Lookup | droidrun-gui/droidrun_gui/apikey_manager.py:20-21 | a key is found iff one is filed under the provider's upper-case name |
| ApiKeys.LookupStore | droidrun-gui/droidrun_gui/apikey_manager.py:20-24 | a key just set is read back under any spelling with the same upper case, and other providers read as before |
| ApiKeys.StoreStore | droidrun-gui/droidrun_gui/apikey_manager.py:23-24 | setting a key twice keeps only the second |
| ApiKeys.LookupIgnoresCase | droidrun-gui/droidrun_gui/apikey_manager.py:20-21 | looking up by the upper-case name finds the same key |
| ApiKeys.Store | droidrun-gui/droidrun_gui/apikey_manager.py:23-24 | the key is filed under the upper-case name; at most that name is added and every other key is kept |
| ApiKeys.APIKeyManager.constructor | droidrun-gui/droidrun_gui/apikey_manager.py:5-14 | the keys start from the saved file, or empty |
| ApiKeys.APIKeyManager.GetKey | droidrun-gui/droidrun_gui/apikey_manager.py:20-21 | the key filed under the provider's upper-case name, if any |
| ApiKeys.APIKeyManager.SetKey | droidrun-gui/droidrun_gui/apikey_manager.py:23-25 | files the key under the upper-case name, after which it is read back |
| ApiKeys.APIKeyManager.AllKeys | droidrun-gui/droidrun_gui/apikey_manager.py:27-28 | returns every filed key |
| Tasks.AddTo | droidrun-gui/droidrun_gui/task_manager.py:44-50 | the category is created if missing and the template appended at its end; other categories are untouched |
| Tasks.Without | droidrun-gui/droidrun_gui/task_manager.py:55-56 | the filter keeps exactly the templates with another name |
| Tasks.WithoutCounts | droidrun-gui/droidrun_gui/task_manager.py:55-56 | each template with another name is kept as many times as it occurs |
| Tasks.Capped | droidrun-gui/droidrun_gui/task_manager.py:75-77 | the history is cut to its latest 100 entries and is otherwise unchanged |
| Tasks.RemoveFrom | droidrun-gui/droidrun_gui/task_manager.py:53-59 | no category is added, other categories are untouched, a remaining category is non-empty and holds only its old templates not named `name`, and it remains iff some template has another name |
| Tasks.RemoveFromSpec | droidrun-gui/droidrun_gui/task_manager.py:53-59 | the category, if it remains, holds the filtered templates, and every template with another name is still in it |
| Tasks.RemoveAfterAdd | droidrun-gui/droidrun_gui/task_manager.py:44-59 | removing a name just added is the same as removing it alone |
| Tasks.RemoveIdempotent | droidrun-gui/droidrun_gui/task_manager.py:53-59 | removing twice is removing once |
| Tasks.CategoriesStayNonEmpty | droidrun-gui/droidrun_gui/task_manager.py:44-59 | adding and removing never leave an empty category |
| Tasks.AppendCapped | droidrun-gui/droidrun_gui/task_manager.py:64-77 | after an entry is added the history ends with it, holds at most 100 entries and keeps the latest earlier ones |
| Tasks.FullHistoryDropsOldest | droidrun-gui/droidrun_gui/task_manager.py:75-77 | once full, each new entry pushes out exactly the oldest |
| Tasks.TaskManager.constructor | droidrun-gui/droidrun_gui/task_manager.py:14-34 | starts from the saved templates or the three default ones, and the saved history or none |
| Tasks.TaskManager.AddTemplate | droidrun-gui/droidrun_gui/task_manager.py:44-51 | the templates become the specified addition; history untouched |
| Tasks.TaskManager.FilterByName | droidrun-gui/droidrun_gui/task_manager.py:55-56 | the comprehension keeps exactly the templates not named `name`, in order |
| Tasks.TaskManager.RemoveTemplate | droidrun-gui/droidrun_gui/task_manager.py:53-59 | the category keeps exactly its templates not named `name` and disappears once empty; other categories and the history are untouched |
| Tasks.TaskManager.AddHistory | droidrun-gui/droidrun_gui/task_manager.py:64-78 | the history becomes the capped history with the new entry appended |
| Tasks.TaskManager.ClearHistory | droidrun-gui/droidrun_gui/task_manager.py:83-85 | the history becomes empty; templates untouched |
| TaskExecution.GuiLabelsSelectProviders | droidrun-gui/droidrun_gui/task_executor.py:83-89 | the three labels the main window offers select OpenAI, Anthropic and Gemini with their models |
| TaskExecution.LlmProvider | droidrun-gui/droidrun_gui/task_executor.py:83-89 | the provider is one of three; a label mentioning "OpenAI" gets ("openai", "gpt-4"); one mentioning "Anthropic" but not "OpenAI" gets ("anthropic", "claude-3-sonnet-20240229"); ("gemini", "gemini-2.0-flash") iff it mentions neither |
| TaskExecution.BuildEnv | droidrun-gui/droidrun_gui/task_executor.py:93-96 | only PROVIDER_API_KEY may change, and it is set to the key iff a non-empty key is stored |
| TaskExecution.StoredKeyReachesCli | droidrun-gui/droidrun_gui/task_executor.py:93-96 | a non-empty key set for a provider is the one the CLI receives |
| TaskExecution.BuildCommand | droidrun-gui/droidrun_gui/task_executor.py:97-104 | ten arguments: "droidrun", then `task`, and after "--device" the device id |
| TaskExecution.BuildCommandReadsBack | droidrun-gui/droidrun_gui/task_executor.py:97-104 | each argument sits after its flag, and the steps text reads back as the step count |
| TaskExecution.ExecutedCommand | droidrun-gui/droidrun_gui/task_executor.py:57-58 | only a leading "droidrun" is replaced by the CLI path; the rest of the command is unchanged |
| TaskExecution.FlagFile | droidrun-gui/droidrun_gui/task_executor.py:33 | the device id sits whole between the fixed prefix and suffix of the path |
| TaskExecution.FlagFileInjective | droidrun-gui/droidrun_gui/task_executor.py:33 | different devices have different flag files |
| TaskExecution.SetupFailure | droidrun-gui/droidrun_gui/task_executor.py:41-54 | setup stops the run iff it raised, exited non-zero or the flag could not be written, always as a failure with 0 steps |
| TaskExecution.LaunchSpec | droidrun-gui/droidrun_gui/task_executor.py:31-59 | before the CLI starts, the run either starts it or reports one failed finish, never both |
| TaskExecution.FlagWrittenOnlyAfterSetup | droidrun-gui/droidrun_gui/task_executor.py:33-59 | the flag is written iff the device had none and setup exited with 0; the CLI starts iff the setup was not needed or succeeded, the command is non-empty and Popen did not raise |
| TaskExecution.FlaggedDeviceSkipsSetup | droidrun-gui/droidrun_gui/task_executor.py:34-55 | on a flagged device no setup runs: the first line emitted echoes the command |
| TaskExecution.RunSucceedsIff | droidrun-gui/droidrun_gui/task_executor.py:31-67 | a run reports success iff the setup was not needed or succeeded, the CLI started and exited with 0; steps are always 0 |
| TaskExecution.FlagFiles.constructor | droidrun-gui/droidrun_gui/task_executor.py:33-34 | the flag files present at start |
| TaskExecution.TaskWorker.constructor | droidrun-gui/droidrun_gui/task_executor.py:25-30 | holds the command, environment and device, with no process |
| TaskExecution.TaskWorker.Launch | droidrun-gui/droidrun_gui/task_executor.py:31-59 | emits, finishes, writes the flag, rewrites the command and starts the process as LaunchSpec says for the flag, the setup outcome and the Popen outcome |
| TaskExecution.TaskWorker.InstallPortal | droidrun-gui/droidrun_gui/task_executor.py:35-53 | announces the setup command, emits its output, and writes the flag iff setup exited with 0; otherwise reports one failed finish; the command and process are untouched |
| TaskExecution.TaskWorker.StartCli | droidrun-gui/droidrun_gui/task_executor.py:54-58 | echoes the command, replaces a leading "droidrun" by the CLI path and starts the process unless the command is empty or Popen raised, in which case one failed finish is reported |
| TaskExecution.TaskWorker.Communicate | droidrun-gui/droidrun_gui/task_executor.py:60-64 | emits the CLI's output and one finish, successful iff the exit code is 0 |
| TaskExecution.TaskWorker.Run | droidrun-gui/droidrun_gui/task_executor.py:31-67 | every run reports exactly one finish, the one RunFinish gives |
| TaskExecution.TaskWorker.Stop | droidrun-gui/droidrun_gui/task_executor.py:68-71 | when a started process that has not been reaped is reported alive by poll() (`alive`), it is terminated and the interruption announced, again on every such call; before a start, after the process exited, or when poll() reports it dead, nothing changes |
| TaskExecution.TaskExecutor.constructor | droidrun-gui/droidrun_gui/task_executor.py:78-81 | a fresh key manager over the saved keys, and no worker |
| TaskExecution.TaskExecutor.StartTask | droidrun-gui/droidrun_gui/task_executor.py:91-108 | a fresh worker gets the built command, with 15 steps unless given, and the environment with the stored key of the chosen provider |

## Left out

- Everything `actions.py` does on the device itself is outside the model. That covers the adb shell calls, the broadcast to the Portal service, the logcat polling, pulling the JSON file, the tap and key press, and the device lookup by serial. The model starts from the parsed JSON or the shell's reply to each command.
- JSON decoding is outside the model. `UiData` is already decoded, and `None` stands for a decode failure. That failure is raised as an error in the source; `GetClickables` returns `None` and leaves the cache unchanged.
- JSON values of unexpected types are outside the model: any field that is `null` or not of its expected type. A `null` `text`, `className` or `type`, which the source shows as "None", is treated like a missing key, which shows the default.
- The `children` and `clickable_elements` keys are modelled as optional lists. `index: -1` and a missing index are treated alike, as the source does.
- Actions.SummaryProperties and Sorting.Sort do not state that the sort is stable. Python's sort is stable, and the model uses an insertion sort that keeps equal keys in order, but no lemma proves it.
- Actions.SummaryProperties does not describe the summary lines themselves beyond their order. `SummaryLine` gives their exact text.
- Actions.InputText requires ASCII text. For text with a character above 127, the source first tries ADBKeyboard and then a clipboard paste, and adds a warning. That branch is not modelled.
- The 0.1 s pause between chunks and the 0.5 s pause in `get_clickables` are not modelled, because time is outside the model.
- `start_app`, `install_app`, `uninstall_app`, `take_screenshot`, `list_packages`, `swipe`, `complete` and `get_all_elements` are adb or file I/O, and are not part of this model.
- The `extract` body is not modelled beyond its file-name rule (`DumpFileName`). Saving the file and `os.path.abspath` are I/O.
- Python's `int()` also accepts digit-group underscores and Unicode digits. `Text.ParseInt` accepts an optional sign, ASCII digits and surrounding ASCII whitespace.
- Whitespace, `upper()` and `lower()` are ASCII-only in `Text`. Python's are Unicode-aware.
- DeviceManagement.DeviceManager.GetConnectedDevices treats a failure of `adb devices` as `None` before the loop starts. A failure while saving `devices.json` after the registry was updated is not modelled.
- `get_device_storage` when adb raises is left out: it returns `None`, and `ParseStorage` starts from the printed text.
- `_load_devices` and `_save_devices`, `_load_data` and the `_save_*` methods, and `_load_keys` and `save_keys` are JSON file I/O. The managers start from an optional saved value instead.
- `device_status_changed` is never emitted in the source, so it is not modelled.
- `get_templates` and `get_history` return the manager's own fields. They are the `templates` and `history` fields of `TaskManager`, so they have no member of their own.
- The history timestamp is a parameter of `AddHistory`, because the clock is outside the model.
- The order of categories in `templates.json` is not modelled: a Dafny map has no order.
- `get_portal_apk_path` and `get_droidrun_cli_path` depend on how the program was packaged. Both paths are parameters of `TaskWorker.Launch`.
- Qt threads are outside the model. `Run` and `Stop` are modelled as separate steps, and `Stop` may come between `Launch` and `Communicate`. A `communicate` that raises after the process started is not modelled.
- The worker's signals are forwarded to the executor's signals. The model records them on the worker.
- TaskExecution.TaskExecutor.StartTask does not model `start()`, the thread launch; the new worker is left not started.
- `task_executor.py` has no cancelled state and does not refuse a start while a task runs: a new task replaces the worker, and a stopped run reports whatever `communicate` returns.
