# Tab Switcher coordination core, in Dafny

Tab Switcher gives Chromium browsers a Ctrl+Tab switcher in most-recently-used
(MRU) order. Three programs cooperate:

- The extension's service worker (`mainsw.js`) keeps the MRU list of tab ids. It
  runs switch sessions over that list and keeps a 20-entry thumbnail cache.
- A native helper catches the hotkey and draws the switcher. The macOS helper is
  `native-host/Sources/tab-switcher/main.swift`; the Windows helper is under
  `native-host-windows/TabSwitcher/`.
- The extension and the helper exchange length-prefixed JSON frames over
  standard input and output (Chrome native messaging).
- On Windows, one helper runs per browser. A named mutex elects the one that
  installs the keyboard hook. That leader relays key events to the other
  helpers over a named pipe. Each helper forwards only the events addressed to
  the browser that owns it.

This project models that coordination logic:

- The MRU list edits, the cursor, the legacy and native switch sessions and the
  thumbnail cache of the service worker, as a class (`ServiceWorker`) proved
  against value-level specifications (`Mru`).
- The frame format of both helpers (`Framing`, `MacHost`, `WinNativeHost`). This
  includes the Windows `ReadExact` loop over an array buffer and a stream that
  may deliver short reads.
- The hotkey state machines: the macOS event tap (`MacHost`) and the Windows
  low-level keyboard hook (`KeyboardHook`).
- The named mutex and leader election (`LeaderElection`).
- The pipe protocol, with its broadcast and dispatch (`InstanceCommunication`).
- The Windows application object that ties these together (`WinApp`).
- Owner detection by a bounded walk up the process tree (`MacHost`,
  `WinBrowserDetector`).
- The browser configuration, its merge with the saved file and the native
  messaging registrations (`MacConfig`, `WinBrowserConfig`, `WinBrowserInfo`).
- The shortcut display strings (`ShortcutConfig`).
- The update checker: version comparison, deduplicated notices and its own
  leader election (`UpdateService`).

JSON documents are values of an abstract `Json` datatype (`Wire`). Text-to-JSON
conversion is a parameter. `Wire` states how each helper reads a field: the Swift
`as?` casts, and the C# `JsonNode.GetValue`, which throws on a mistyped field.

Where the code and its own comments or documentation disagree, the model
follows the code:

- The macOS reader rejects a frame of exactly 10 MiB; the Windows reader accepts
  it (`WinNativeHost.HelpersDisagreeAtTenMiB`).
- The macOS reader never stops at end of input: it sleeps and polls again
  (`MacHost.ReaderAtEndOfInputSpins`).
- Helpers filter relayed events by browser id only, never by process id.
- `initialize` unshifts tabs one by one, so the list ends in reverse enumeration
  order.
- `addTabToMRUAtBack` inserts before the last element, not after it.
- A tab thumbnail arrives as a data URL. The Windows helper keeps the text
  after its first comma; the macOS helper keeps the text after its last comma
  (`WinNativeHost.HelpersSplitThumbnailsDifferently`).
- Windows leader liveness rests on the mutex alone; nothing polls.

## Model

| member | source | states |
|---|---|---|
| Framing.EncodeFrame | native-host/Sources/tab-switcher/main.swift:947-958 | a frame is four bytes encoding the payload length little-endian, followed by exactly the payload |
| Framing.DecodeLengthPrefix | native-host/Sources/tab-switcher/main.swift:965-970 | decoding the 4-byte little-endian prefix of any length below 2^32 gives the length back |
| Framing.LengthPrefixOfDecoded | native-host/Sources/tab-switcher/main.swift:965-970 | every 4-byte header is the prefix of the length it decodes to (the other half of the round trip) |
| Wire.CsString | native-host-windows/TabSwitcher/NativeMessaging/NativeMessagingHost.cs:186-187 | `GetValue<string>`: a value exactly when the field is a string, absent exactly when missing or null, an exception otherwise |
| Wire.CsInt | native-host-windows/TabSwitcher/NativeMessaging/NativeMessagingHost.cs:205 | `GetValue<int>`: absent exactly when missing or null; a value only within the 32-bit range |
| Wire.CsBool | native-host-windows/TabSwitcher/IPC/InstanceCommunication.cs:294-295 | `GetValue<bool>`: a value exactly when the field is a boolean, absent exactly when missing or null |
| Wire.SwString | native-host/Sources/tab-switcher/main.swift:1040 | `as? String` succeeds exactly when the field is a string |
| Wire.SwInt | native-host/Sources/tab-switcher/main.swift:1039 | `as? Int` on what JSONSerialization produced succeeds exactly for a boolean, giving 0 or 1, and for a number within the 64-bit `Int` range, giving that number |
| Mru.MovedToFrontSpec | mainsw.js:248-254 | a present id goes to index 0, the rest is the list without it, length and multiset are kept, and so is absence of duplicates; an absent id changes nothing |
| Mru.MovedToFront | mainsw.js:248-254 | the length is kept and a present id ends up first; an absent id leaves the list unchanged |
| Mru.AddedAtBack | mainsw.js:229-237 | the id is present afterwards; a present id changes nothing; a new one grows the list by one and the old last element stays last |
| Mru.AddedAtFront | mainsw.js:239-247 | the id is present afterwards; a present id changes nothing; a new one grows the list by one and goes first |
| Mru.Removed | mainsw.js:256-261 | a present id shortens the list by one; an absent id changes nothing |
| Mru.RemovedAtIndex | mainsw.js:263-267 | an index at or past the end changes nothing; an index inside the list shortens it by one |
| Mru.EditsKeepNoDup | mainsw.js:229-261 | insert-at-back, insert-at-front and remove keep the list duplicate-free; inserts add only an absent id, remove takes out only a present one; the members after each edit |
| Mru.AddedAtBackIsBeforeLast | mainsw.js:229-237 | `splice(-1, 0, id)` puts a new id second to last and leaves the old last element last |
| Mru.RemovedAtIndexSpec | mainsw.js:263-267 | an index inside the list removes exactly that element, an index at or past the end removes nothing, a negative one counts from the end |
| Mru.CursorStepsAreInverse | mainsw.js:269-279 | over a non-empty list both cursor steps keep the cursor in range and undo each other |
| Mru.AdvancedBelowEnd | mainsw.js:269-271 | forward steps that do not reach the end just add |
| Mru.AdvancedCompose | mainsw.js:269-271 | a forward steps then b more are a + b forward steps |
| Mru.FullCycleReturns | mainsw.js:269-271 | n forward steps over n tabs bring the cursor back to where it started |
| Mru.IntSwitchKeepsLiveTabs | mainsw.js:130-165 | a legacy switch step removes only vanished tabs and keeps every live one |
| Mru.IntSwitch | mainsw.js:130-165 | a switch step never grows the list; with the cursor past the end nothing changes; an activated tab sits at the resulting cursor |
| Mru.IntSwitchActivatesLiveTab | mainsw.js:130-165 | a switch step activates only a live tab, at an index of the resulting list, and leaves the cursor there |
| Mru.IntSwitchKeepsNoDup | mainsw.js:130-165 | a switch step keeps the list duplicate-free |
| Mru.IntSwitchFindsLiveTab | mainsw.js:130-165 | with the cursor in range and some live tab listed, a switch step always activates one |
| Mru.WindowChoiceSpec | mainsw.js:513-540 | the full list is used when only-this-window is off, the window is unknown, or none of its tabs are listed; otherwise the result is non-empty and holds exactly the listed tabs of that window, in MRU order |
| Mru.TouchedSpec | mainsw.js:333-337 | after a capture the tab is first in the recency order, which stays duplicate-free and holds the old members plus the tab |
| Mru.RemovalKeepsCacheConsistent | mainsw.js:217-226 | closing a tab drops its thumbnail and its place in the order together, keeping cache and order in agreement |
| Mru.CaptureKeepsCacheConsistent | mainsw.js:333-347 | a capture stores the thumbnail, puts the tab first, evicts only ids past the 20th, and leaves cache and order in agreement with at most 20 entries |
| Mru.BundleIdForUserAgent | mainsw.js:399-428 | the first user-agent marker wins, Edge before Brave, then Vivaldi, Opera (Opera GX exactly with `OPGX`), Arc, Helium and Chromium; Google Chrome exactly when no marker is present |
| ServiceWorker.RegisteredIdIsKnownBrowser | mainsw.js:399-428 | whatever the user agent, the id the extension registers with is one the macOS helper lists among its known browsers |
| ServiceWorker.ServiceWorker.constructor | mainsw.js:7-34 | the state when the script loads: empty list, no session, cursor 0, empty cache, bundle id from the user agent |
| ServiceWorker.ServiceWorker.AddTabToMRUAtBack | mainsw.js:229-237 | the new list is the insert-at-back of the old one |
| ServiceWorker.ServiceWorker.AddTabToMRUAtFront | mainsw.js:239-247 | the new list is the insert-at-front of the old one |
| ServiceWorker.ServiceWorker.PutExistingTabToTop | mainsw.js:248-254 | the new list is the move-to-front of the old one |
| ServiceWorker.ServiceWorker.RemoveTabFromMRU | mainsw.js:256-261 | the new list is the old one without the id |
| ServiceWorker.ServiceWorker.RemoveItemAtIndexFromMRU | mainsw.js:263-267 | the new list is the old one without the element at the index, if any |
| ServiceWorker.ServiceWorker.IncrementSwitchCounter | mainsw.js:269-271 | the cursor takes one wrap-around forward step |
| ServiceWorker.ServiceWorker.DecrementSwitchCounter | mainsw.js:273-279 | the cursor takes one wrap-around backward step |
| ServiceWorker.ServiceWorker.DoIntSwitch | mainsw.js:130-165 | the loop yields the list, the cursor and the activated tab of the switch-step specification |
| ServiceWorker.ServiceWorker.EndSwitch | mainsw.js:167-175 | all three sessions end and the tab at the saved index of the full list moves to the front |
| ServiceWorker.ServiceWorker.StartSwitch | mainsw.js:71-80 | exactly the session of the command's class starts, and the first step runs from cursor 0 |
| ServiceWorker.ServiceWorker.ClassifyCommand | mainsw.js:59-69 | a command is fast unless it is one of the two slow ones, and forward only for the slow forward one |
| ServiceWorker.ServiceWorker.ProcessCommand | mainsw.js:57-112 | afterwards exactly the session of the command's class is ongoing, a class change ends the old session first, and the end timer is 200 ms or 1500 ms by class; the list, cursor, saved index and activated tab are those of one switch step from the cursor kept, or from 0 after a start |
| ServiceWorker.ServiceWorker.EndTimerFires | mainsw.js:106-110 | a pending end timer ends every session and commits; with no timer pending nothing changes |
| ServiceWorker.ServiceWorker.Initialize | mainsw.js:281-294 | the first call puts every window's tabs in front of the list in reverse enumeration order; later calls change nothing |
| ServiceWorker.ServiceWorker.UnshiftAll | mainsw.js:286-290 | unshifting a window's tabs one by one puts them in front in reverse order |
| ServiceWorker.ServiceWorker.OnActivated | mainsw.js:177-200 | outside every session the tab moves to the front (inserted if unknown) and a capture is scheduled; during a session the list is untouched |
| ServiceWorker.ServiceWorker.OnCreated | mainsw.js:212-215 | a created tab is inserted at the back position |
| ServiceWorker.ServiceWorker.OnRemoved | mainsw.js:217-226 | a closed tab leaves the list, the thumbnail cache and the cache order |
| ServiceWorker.ServiceWorker.CaptureThumbnail | mainsw.js:304-353 | a thumbnail is stored only for a tab that exists with an unrestricted URL and a non-empty capture; the cache then follows the capture specification, and it is unchanged otherwise |
| ServiceWorker.ServiceWorker.TrimThumbnails | mainsw.js:343-347 | the eviction loop cuts the order to 20 entries and deletes exactly the cut ids from the cache |
| ServiceWorker.ServiceWorker.GetFilteredMru | mainsw.js:513-540 | the loop returns the full list itself exactly when the window choice says so, and otherwise the chosen window's tabs |
| ServiceWorker.ServiceWorker.HandleNativeCycle | mainsw.js:569-633 | unfocused: a running session is reset and nothing is sent; focused: a session is running, a new one starts at cursor 0, the cursor moves one step over the filtered list and stays in range, and the switcher is shown once or its selection updated |
| ServiceWorker.ServiceWorker.ResetNativeSession | mainsw.js:577-587 | losing focus ends the session, hides the switcher state and clears the filtered list |
| ServiceWorker.ServiceWorker.StartNativeSession | mainsw.js:589-597 | a new session starts at cursor 0 with the switcher hidden and the filtered list chosen once |
| ServiceWorker.ServiceWorker.StepNativeSession | mainsw.js:604-632 | the cursor moves one wrap-around step over the filtered list and the saved index follows it |
| ServiceWorker.ServiceWorker.ShowOrUpdate | mainsw.js:617-632 | `show_switcher` is sent only the first time it is asked for in a session; afterwards only `update_selection` |
| ServiceWorker.ServiceWorker.SwitcherList | mainsw.js:368-371 | the switcher is shown the filtered list during a native session and the full MRU list otherwise |
| ServiceWorker.ServiceWorker.IncrementFilteredCounter | mainsw.js:605-606 | one forward step over the filtered list |
| ServiceWorker.ServiceWorker.DecrementFilteredCounter | mainsw.js:607-613 | one backward step over the filtered list |
| ServiceWorker.ServiceWorker.HandleRequestShowUI | mainsw.js:637-656 | the switcher is shown only while this profile has focus, a session runs and it is not yet shown |
| ServiceWorker.ServiceWorker.HandleNativeEndSwitchAsWritten | mainsw.js:658-700 | as written: it hides the switcher if it was shown; unfocused, it only ends the session; focused, it activates the selected filtered tab but commits by the full-list index |
| ServiceWorker.EndSwitchCommitsFullListIndex | mainsw.js:683 | counterexample: with list [1,2,3] and only tabs 1 and 3 in the window, tab 3 is activated but tab 2 moves to the front |
| ServiceWorker.ServiceWorker.ActivateAndCommit | mainsw.js:682-694 | the activated tab, and only it, moves to the front of an unchanged number of tabs |
| ServiceWorker.ServiceWorker.HandleNativeEndSwitch | mainsw.js:658-700 | corrected end of a native session: the tab made active is the one that becomes most recent |
| ServiceWorker.ServiceWorker.OnNativeMessage | mainsw.js:443-470 | any message marks the helper alive except the accessibility error; `ready` answers with `register` and this browser's id and, like the messages it ignores, leaves the list and every session field as they were; a cycle moves the cursor one step over the filtered list while focused and resets the session otherwise; a show request shows the switcher once per focused session; `end_switch` runs the handler as written: it hides a shown switcher, activates the selected filtered tab and commits the full-list index |
| MacHost.ReadFrame | native-host/Sources/tab-switcher/main.swift:964-980 | a frame is accepted only with a complete header, a length in 1 to 10 MiB - 1, and a complete payload |
| MacHost.ReadMessage | native-host/Sources/tab-switcher/main.swift:964-987 | a message is read only from an accepted frame whose payload decodes to a JSON object; the input advances as the frame reader says |
| MacHost.ReadFrameOfSentFrame | native-host/Sources/tab-switcher/main.swift:947-987 | reading a frame written by the sender gives the payload back and leaves what follows, for every length below 10 MiB |
| MacHost.ReadFrameRejects | native-host/Sources/tab-switcher/main.swift:966-980 | fewer than 4 header bytes, a length of 0 or of 10 MiB or more, or a short payload give no message |
| MacHost.ReaderAtEndOfInputSpins | native-host/Sources/tab-switcher/main.swift:1299-1306 | at end of input the reader gets nothing and the input stays empty, so the loop polls forever |
| MacHost.AfterLastComma | native-host/Sources/tab-switcher/main.swift:1048-1051 | the thumbnail text is the comma-free suffix after the last comma, or the whole string without one |
| MacHost.ParseTabInfo | native-host/Sources/tab-switcher/main.swift:1038-1056 | a tab exactly when `id` is a number and `title` a string; icon and URL default to "" |
| MacHost.ParseTabList | native-host/Sources/tab-switcher/main.swift:1001-1003 | the parsed tabs are at most as many as the entries |
| MacHost.AsObjectArray | native-host/Sources/tab-switcher/main.swift:1001 | `as? [[String: Any]]`: an array whose every element is an object |
| MacHost.SupportedBrowserActive | native-host/Sources/tab-switcher/main.swift:1060-1082 | with an owner, true exactly when the frontmost app is the owner; with none, false for a pipe stdin and membership of the enabled set for a terminal |
| MacHost.ActiveBrowserBundleId | native-host/Sources/tab-switcher/main.swift:1085-1105 | the frontmost id exactly when the supported-browser check holds |
| MacHost.AppMatch | native-host/Sources/tab-switcher/main.swift:1130-1150 | an app without a bundle id never matches; an enabled bundle id matches as itself |
| MacHost.FirstMatch | native-host/Sources/tab-switcher/main.swift:1120-1166 | no match exactly when no visited process matches |
| MacHost.Visited | native-host/Sources/tab-switcher/main.swift:1120-1166 | the walk visits at most ten processes, starting with the parent |
| MacHost.DetectParentBrowser | native-host/Sources/tab-switcher/main.swift:1115-1170 | the loop returns the first match along the bounded walk |
| MacHost.WalkIsAncestorChain | native-host/Sources/tab-switcher/main.swift:1120-1166 | for any reading of a pid as a browser, in particular the walk's own (`Matcher`): each visited process is the parent of the one before, none before the last matches, and a result is the last one's match |
| MacHost.MacHost.constructor | native-host/Sources/tab-switcher/main.swift:1108-1111 | the hotkey state starts released, with no session, no presses and no reveal timer |
| MacHost.MacHost.SetupEventTap | native-host/Sources/tab-switcher/main.swift:1271-1292 | a tap that cannot be created sends `error_no_accessibility` |
| MacHost.MacHost.ReaderTurn | native-host/Sources/tab-switcher/main.swift:1299-1306 | one turn of the reader consumes one frame and handles its message, or leaves an empty input as it is |
| MacHost.MacHost.SendFrame | native-host/Sources/tab-switcher/main.swift:947-958 | standard output grows by exactly the encoded frame |
| MacHost.MacHost.HandleMessage | native-host/Sources/tab-switcher/main.swift:991-1036 | `register` adopts the first owner and replies `registered` with the owner, or else the bundle id; a `register` without a string bundle id, a message without a string action and an unknown action change nothing; show, update and hide drive the overlay and send nothing |
| MacHost.MacHost.EventTap | native-host/Sources/tab-switcher/main.swift:1176-1267 | the callback performs one step of the tap state machine while a supported browser is in front, and passes events through unchanged otherwise |
| MacHost.CombineWindowsFor | native-host/Sources/tab-switcher/main.swift:1236-1239 | all windows are combined exactly when there is an owner and the first configured entry with its bundle id has the switch on; false otherwise |
| MacHost.MacHost.RevealTimerFires | native-host/Sources/tab-switcher/main.swift:1246-1253 | a pending reveal sends one `request_show_ui` and clears the timer |
| MacHost.TapStepKeepsInvariant | native-host/Sources/tab-switcher/main.swift:1176-1267 | a session with presses has a pressed modifier and a positive count; a reveal is pending only after exactly one press |
| MacHost.TapStep | native-host/Sources/tab-switcher/main.swift:1176-1267 | at most one message per event; a disabled tap or an inactive browser passes the event through unchanged; an event is swallowed exactly when it sends a cycle |
| MacHost.RunOne | native-host/Sources/tab-switcher/main.swift:1176-1267 | a run of one event is one tap step |
| MacHost.TapPressOutcome | native-host/Sources/tab-switcher/main.swift:1222-1262 | Ctrl+Tab is swallowed and counted; the first press sends `show_ui:false` and arms the reveal, later ones cancel it and send `show_ui:true`; Shift gives `cycle_prev` |
| MacHost.TapReleaseEndsOnce | native-host/Sources/tab-switcher/main.swift:1205-1215 | releasing Ctrl during a switch cancels the reveal, sends `end_switch` once and resets the session |
| MacHost.RunConcat | native-host/Sources/tab-switcher/main.swift:1176-1267 | for any step function, in particular the tap's own (`Stepper`): running two event runs in a row is running their concatenation |
| MacHost.RunMorePresses | native-host/Sources/tab-switcher/main.swift:1222-1262 | k further presses in a session send k `show_ui:true` cycles and count up by k |
| MacHost.SessionMessages | native-host/Sources/tab-switcher/main.swift:1176-1267 | a whole session of n presses and a release sends one hidden cycle, n - 1 shown cycles and one `end_switch` |
| MacConfig.AppName | native-host/Sources/tab-switcher/main.swift:39-55 | the application name differs from the display name only for the listed ids |
| MacConfig.FirstWithId | native-host/Sources/tab-switcher/main.swift:121-127 | `firstIndex(where:)`: the first entry with the id, or none exactly when no entry has it |
| MacConfig.MergeSaved | native-host/Sources/tab-switcher/main.swift:121-127 | the merge keeps the known list's length |
| MacConfig.MergeSavedFields | native-host/Sources/tab-switcher/main.swift:121-127 | a known entry takes the extension id and both switches of the first saved entry with its id and keeps everything else; without one it is unchanged |
| MacConfig.EnabledBundleIds | native-host/Sources/tab-switcher/main.swift:200-202 | exactly the ids of the enabled entries |
| MacConfig.EnabledAfterLoadAreKnown | native-host/Sources/tab-switcher/main.swift:113-138 | after loading, every enabled id is a known browser's: saved entries of unknown browsers are dropped |
| MacConfig.ManifestPlan | native-host/Sources/tab-switcher/main.swift:169-198 | one manifest action per browser |
| MacConfig.ManifestPlanWritesExactlyEnabled | native-host/Sources/tab-switcher/main.swift:169-198 | a manifest is written exactly for an enabled browser with an extension id; otherwise it is removed |
| MacConfig.MergeInto | native-host/Sources/tab-switcher/main.swift:121-127 | the merge loop computes the merge specification |
| MacConfig.BrowserConfigManager.constructor | native-host/Sources/tab-switcher/main.swift:109-111 | construction loads the configuration and schedules setup when nothing is enabled |
| MacConfig.BrowserConfigManager.LoadConfig | native-host/Sources/tab-switcher/main.swift:113-138 | the list becomes the known list merged with the saved one, if any; setup is scheduled when nothing is enabled |
| MacConfig.BrowserConfigManager.SaveConfig | native-host/Sources/tab-switcher/main.swift:140-145 | the list is persisted and the manifests follow it |
| MacConfig.BrowserConfigManager.EnableBrowser | native-host/Sources/tab-switcher/main.swift:147-153 | the first entry with the id gets the extension id and is enabled, then saved; an unknown id changes nothing |
| MacConfig.BrowserConfigManager.DisableBrowser | native-host/Sources/tab-switcher/main.swift:155-160 | only the first entry with the id is disabled, then saved |
| MacConfig.BrowserConfigManager.SetCombineWindows | native-host/Sources/tab-switcher/main.swift:162-167 | only the first entry with the id changes its switch, then saved |
| MacConfig.EnableThenDisable | native-host/Sources/tab-switcher/main.swift:147-160 | enabling then disabling an entry leaves its extension id recorded and the entry disabled |
| WinNativeHost.InputStream.Read | native-host-windows/TabSwitcher/NativeMessaging/NativeMessagingHost.cs:169 | `Stream.Read` delivers some prefix of the remaining input into the buffer, at least one byte while any remain, and touches nothing else |
| WinNativeHost.ReadExact | native-host-windows/TabSwitcher/NativeMessaging/NativeMessagingHost.cs:164-174 | the loop reads exactly `count` bytes, or all that remain at end of input, and those are the next bytes of the stream |
| WinNativeHost.CsReadFrame | native-host-windows/TabSwitcher/NativeMessaging/NativeMessagingHost.cs:122-162 | end of input exactly when the header is short; a payload only with a length in 1 to 10 MiB and a complete body |
| WinNativeHost.CsReadFrameOfSentFrame | native-host-windows/TabSwitcher/NativeMessaging/NativeMessagingHost.cs:122-162 | reading a frame written by the sender gives the payload back for every length up to 10 MiB |
| WinNativeHost.HelpersDisagreeAtTenMiB | native-host-windows/TabSwitcher/NativeMessaging/NativeMessagingHost.cs:138 | a payload of exactly 10 MiB is accepted by the Windows reader and rejected by the macOS reader |
| WinNativeHost.HelpersAgreeBelowTenMiB | native-host-windows/TabSwitcher/NativeMessaging/NativeMessagingHost.cs:138 | for every other header both readers return the same payload and the same remaining input |
| WinNativeHost.AfterFirstComma | native-host-windows/TabSwitcher/NativeMessaging/NativeMessagingHost.cs:251-254 | the thumbnail text follows the first comma |
| WinNativeHost.TabOf | native-host-windows/TabSwitcher/NativeMessaging/NativeMessagingHost.cs:235-277 | a tab only from an object whose `id` and `title` read as values, carrying them; icon and URL default to "" |
| WinNativeHost.TabsOf | native-host-windows/TabSwitcher/NativeMessaging/NativeMessagingHost.cs:230-281 | the list is never absent and has at most as many tabs as entries |
| WinNativeHost.TabsOfAppend | native-host-windows/TabSwitcher/NativeMessaging/NativeMessagingHost.cs:235-277 | parsing two runs of entries is parsing each, in order; an exception in either is one for both |
| WinNativeHost.TabsOfKeepsOnlyIdentifiedTabs | native-host-windows/TabSwitcher/NativeMessaging/NativeMessagingHost.cs:235-277 | every parsed tab is the parse of some entry |
| WinNativeHost.ParsedMessage | native-host-windows/TabSwitcher/NativeMessaging/NativeMessagingHost.cs:179-225 | a message only from an object with a string `action`; each optional field is set only for its own action |
| WinNativeHost.ParseTabs | native-host-windows/TabSwitcher/NativeMessaging/NativeMessagingHost.cs:230-281 | the loop returns the parsed list, and none exactly when an entry throws |
| WinNativeHost.ParseMessage | native-host-windows/TabSwitcher/NativeMessaging/NativeMessagingHost.cs:179-225 | the method returns the message specification |
| WinNativeHost.HelpersAgreeOnWellTypedTab | native-host-windows/TabSwitcher/NativeMessaging/NativeMessagingHost.cs:235-277 | on well-typed fields the two helpers accept the same tabs with the same id, title, icon and URL |
| WinNativeHost.WindowsSplitsAtFirstComma | native-host-windows/TabSwitcher/NativeMessaging/NativeMessagingHost.cs:251-254 | the thumbnail "a,b,c" becomes "b,c" on Windows |
| WinNativeHost.MacSplitsAtLastComma | native-host/Sources/tab-switcher/main.swift:1048-1051 | the thumbnail "a,b,c" becomes "c" on macOS |
| WinNativeHost.HelpersSplitThumbnailsDifferently | native-host-windows/TabSwitcher/NativeMessaging/NativeMessagingHost.cs:251-254 | the two helpers accept the same tab with different thumbnails |
| WinNativeHost.NativeMessagingHost.constructor | native-host-windows/TabSwitcher/NativeMessaging/NativeMessagingHost.cs:43-47 | a stopped host with nothing written or received |
| WinNativeHost.NativeMessagingHost.Start | native-host-windows/TabSwitcher/NativeMessaging/NativeMessagingHost.cs:49-59 | the host runs |
| WinNativeHost.NativeMessagingHost.Stop | native-host-windows/TabSwitcher/NativeMessaging/NativeMessagingHost.cs:61-64 | the host stops |
| WinNativeHost.NativeMessagingHost.SendMessage | native-host-windows/TabSwitcher/NativeMessaging/NativeMessagingHost.cs:70-95 | standard output grows by exactly the encoded frame |
| WinNativeHost.NativeMessagingHost.ReadMessage | native-host-windows/TabSwitcher/NativeMessaging/NativeMessagingHost.cs:122-162 | a short header stops the host and reports the disconnect; a bad length or short payload gives nothing and keeps it running |
| WinNativeHost.NativeMessagingHost.ReadLoop | native-host-windows/TabSwitcher/NativeMessaging/NativeMessagingHost.cs:105-120 | a running loop handles every message in order until the input ends, then stops once with one disconnect |
| InstanceCommunication.Encode | native-host-windows/TabSwitcher/IPC/InstanceCommunication.cs:76-145 | every posted event is an object carrying its `type` |
| InstanceCommunication.OrDefault | native-host-windows/TabSwitcher/IPC/InstanceCommunication.cs:286-321 | a missing field takes its default; only a mistyped one fails |
| InstanceCommunication.Dispatch | native-host-windows/TabSwitcher/IPC/InstanceCommunication.cs:281-330 | an event comes only from a JSON object with a string `type` |
| InstanceCommunication.DispatchOfEncoded | native-host-windows/TabSwitcher/IPC/InstanceCommunication.cs:281-330 | dispatching an encoded event gives the same event back |
| InstanceCommunication.DispatchIgnoresUnknown | native-host-windows/TabSwitcher/IPC/InstanceCommunication.cs:290-325 | unparsable text, a non-object, a missing or mistyped `type`, or any type outside the seven known ones raises nothing; every raised event comes from a known type |
| InstanceCommunication.DispatchDefaults | native-host-windows/TabSwitcher/IPC/InstanceCommunication.cs:290-300 | for a `ctrlTab` line: the event is dropped exactly when one of its four fields is mistyped; otherwise each string is its value or "" and each boolean its value or false |
| InstanceCommunication.Broadcast | native-host-windows/TabSwitcher/IPC/InstanceCommunication.cs:209-224 | a broadcast keeps the number of connections |
| InstanceCommunication.BroadcastReachesConnectedOthers | native-host-windows/TabSwitcher/IPC/InstanceCommunication.cs:209-224 | every connected connection but the excluded one gets the line once; the others are untouched |
| InstanceCommunication.RelayRaisesSameEventElsewhere | native-host-windows/TabSwitcher/IPC/InstanceCommunication.cs:188-194 | a relayed event reaches every other connected client as the same event, never the sender |
| InstanceCommunication.InstanceCommunication.constructor | native-host-windows/TabSwitcher/IPC/InstanceCommunication.cs:36-39 | a channel in the given role with no connections and nothing sent |
| InstanceCommunication.InstanceCommunication.BroadcastMessage | native-host-windows/TabSwitcher/IPC/InstanceCommunication.cs:209-224 | the loop computes the broadcast specification |
| InstanceCommunication.InstanceCommunication.HandleReceivedMessage | native-host-windows/TabSwitcher/IPC/InstanceCommunication.cs:281-330 | a line raises its dispatched event, if any |
| InstanceCommunication.InstanceCommunication.SendToLeader | native-host-windows/TabSwitcher/IPC/InstanceCommunication.cs:263-277 | a line is written only with a writer and a connected pipe |
| InstanceCommunication.InstanceCommunication.Post | native-host-windows/TabSwitcher/IPC/InstanceCommunication.cs:76-145 | a leader broadcasts the event and raises it locally; a follower only sends it to the leader |
| InstanceCommunication.InstanceCommunication.AcceptClient | native-host-windows/TabSwitcher/IPC/InstanceCommunication.cs:149-179 | an accepted client joins the connections, connected |
| InstanceCommunication.InstanceCommunication.ClientDisconnects | native-host-windows/TabSwitcher/IPC/InstanceCommunication.cs:181-201 | only that connection becomes disconnected |
| InstanceCommunication.InstanceCommunication.ServerReceivedLine | native-host-windows/TabSwitcher/IPC/InstanceCommunication.cs:181-201 | a line from a client is raised locally and broadcast to the others |
| InstanceCommunication.InstanceCommunication.ConnectToLeader | native-host-windows/TabSwitcher/IPC/InstanceCommunication.cs:228-261 | the client is connected with a writer |
| InstanceCommunication.InstanceCommunication.LeaderGone | native-host-windows/TabSwitcher/IPC/InstanceCommunication.cs:228-261 | the client pipe is no longer connected |
| InstanceCommunication.InstanceCommunication.ClientReceivedLine | native-host-windows/TabSwitcher/IPC/InstanceCommunication.cs:240-250 | a line from the leader raises its event |
| InstanceCommunication.InstanceCommunication.Stop | native-host-windows/TabSwitcher/IPC/InstanceCommunication.cs:57-72 | a leader broadcasts `leaderResigned` to every connected client before all connections close |
| LeaderElection.NamedMutex.constructor | native-host-windows/TabSwitcher/IPC/LeaderElection.cs:24 | no handle is open and nobody owns the mutex |
| LeaderElection.NamedMutex.Open | native-host-windows/TabSwitcher/IPC/LeaderElection.cs:24 | created exactly when no handle was open; only then is the initial owner set |
| LeaderElection.NamedMutex.WaitZero | native-host-windows/TabSwitcher/IPC/LeaderElection.cs:34 | `WaitOne(0)` acquires exactly when the mutex is free or already ours, and reports abandonment |
| LeaderElection.NamedMutex.ReleaseBy | native-host-windows/TabSwitcher/IPC/LeaderElection.cs:68 | only the owner can release |
| LeaderElection.NamedMutex.Close | native-host-windows/TabSwitcher/IPC/LeaderElection.cs:81 | one handle fewer |
| LeaderElection.NamedMutex.OwnerEnds | native-host-windows/TabSwitcher/IPC/LeaderElection.cs:45-51 | a process ending while it owns the mutex leaves it free and abandoned |
| LeaderElection.LeaderElection.constructor | native-host-windows/TabSwitcher/IPC/LeaderElection.cs:14-15 | no handle and not leader |
| LeaderElection.LeaderElection.TryBecomeLeaderAsWritten | native-host-windows/TabSwitcher/IPC/LeaderElection.cs:20-57 | as written: the creator leads without owning the mutex; otherwise leading needs a successful wait; a failure leaves a follower |
| LeaderElection.TwoInstancesBothLeadAsWritten | native-host-windows/TabSwitcher/IPC/LeaderElection.cs:24-34 | counterexample: two instances electing one after the other both become leader |
| LeaderElection.LeaderElection.TryBecomeLeader | native-host-windows/TabSwitcher/IPC/LeaderElection.cs:20-57 | corrected: a leader always owns the mutex; the same cases lead |
| LeaderElection.LeaderElection.Release | native-host-windows/TabSwitcher/IPC/LeaderElection.cs:62-77 | not leader afterwards; the mutex is released only when this leader owned it, so a second call does nothing |
| LeaderElection.LeaderElection.Dispose | native-host-windows/TabSwitcher/IPC/LeaderElection.cs:79-83 | releases first, then closes the handle |
| LeaderElection.TwoInstancesElect | native-host-windows/TabSwitcher/IPC/LeaderElection.cs:20-57 | with the corrected election, two instances never both lead |
| LeaderElection.AtMostOneLeader | native-host-windows/TabSwitcher/IPC/LeaderElection.cs:20-57 | two distinct instances that own the mutex whenever they lead are never both leader |
| KeyboardHook.Step | native-host-windows/TabSwitcher/Keyboard/KeyboardHook.cs:69-183 | no browser in front or a negative code passes through unchanged; only swallowed keys post, and only switch or copy events; a release posts only when ending a session; the hook invariant is kept |
| KeyboardHook.Decide | native-host-windows/TabSwitcher/Keyboard/KeyboardHook.cs:94-183 | the branch logic on the modifiers read: the same pass-through, posting and invariant guarantees as the step |
| KeyboardHook.HookStepAsWritten | native-host-windows/TabSwitcher/Keyboard/KeyboardHook.cs:69-183 | the callback as written, reading Ctrl, Shift and Alt only: pass-through without a browser in front or for a negative code; only switch or copy events are swallowed; the hook invariant is kept |
| KeyboardHook.HookStep | native-host-windows/TabSwitcher/Keyboard/KeyboardHook.cs:69-183 | the corrected callback that also reads the Windows key, with the same guarantees |
| KeyboardHook.StepsAgreeWithoutWin | native-host-windows/TabSwitcher/Keyboard/KeyboardHook.cs:86-124 | with the Windows key up and a switch shortcut without it, the callback as written and the corrected one decide alike |
| KeyboardHook.ReadingIgnoresWin | native-host-windows/TabSwitcher/Keyboard/KeyboardHook.cs:86-124 | with the Windows key up and a switch shortcut without it, both readings see the same modifiers and the same release |
| KeyboardHook.HeldModifiers | native-host-windows/TabSwitcher/Keyboard/KeyboardHook.cs:86-93 | the reading holds Ctrl, Shift and Alt exactly when each is down, and Win only when Win is read and down; as written it is never read |
| KeyboardHook.Released | native-host-windows/TabSwitcher/Keyboard/KeyboardHook.cs:103-114 | only a Ctrl, Alt or Win key release can end a switch; as written, releasing Win never does |
| KeyboardHook.StepsAgreeOnSameReading | native-host-windows/TabSwitcher/Keyboard/KeyboardHook.cs:94-183 | two steps that read the same modifiers and release decide alike |
| KeyboardHook.WinShortcutNeverFiresAsWritten | native-host-windows/TabSwitcher/Keyboard/KeyboardHook.cs:86-93 | as written, a shortcut with the Win flag never fires |
| KeyboardHook.WinCExample | native-host-windows/TabSwitcher/Keyboard/KeyboardHook.cs:174 | counterexample: Win+C configured for copying the URL is passed through as written and fires when corrected |
| KeyboardHook.CopyUrlShortcutFires | native-host-windows/TabSwitcher/Keyboard/KeyboardHook.cs:174-178 | copy-URL fires exactly on a key-down of its key with exactly its non-empty modifiers held, when the switch shortcut does not match first |
| KeyboardHook.TimerTick | native-host-windows/TabSwitcher/Keyboard/KeyboardHook.cs:155-159 | a reveal tick posts `RequestShowUI` for the browser it was armed for, swallowing nothing |
| KeyboardHook.Repeat | native-host-windows/TabSwitcher/Keyboard/KeyboardHook.cs:133-171 | n copies of a key event |
| KeyboardHook.PressesFrom | native-host-windows/TabSwitcher/Keyboard/KeyboardHook.cs:133-171 | for the callback as written and for the corrected one: from k presses, m more and a release post m shown cycles and one release, and end idle |
| KeyboardHook.SwitchSession | native-host-windows/TabSwitcher/Keyboard/KeyboardHook.cs:100-171 | for the callback as written and for the corrected one: a whole session of n presses and a release posts one hidden cycle, n - 1 shown cycles and one release |
| KeyboardHook.FrontmostBrowserId | native-host-windows/TabSwitcher/Keyboard/KeyboardHook.cs:189-218 | no window, no process or an unreadable name give none; otherwise only the six listed browsers |
| KeyboardHook.FrontmostBrowserIdIsLookup | native-host-windows/TabSwitcher/Keyboard/KeyboardHook.cs:189-218 | the result is a browser exactly when a window, a process id and a name are there and the lower-cased name is one of the six table entries, which names that browser |
| KeyboardHook.FrontmostIgnoresCase | native-host-windows/TabSwitcher/Keyboard/KeyboardHook.cs:200-212 | for every name, the name and its lower-cased form pick the same browser |
| KeyboardHook.KeyboardHook.constructor | native-host-windows/TabSwitcher/Keyboard/KeyboardHook.cs:30-33 | an idle, uninstalled hook over the given channel |
| KeyboardHook.KeyboardHook.Install | native-host-windows/TabSwitcher/Keyboard/KeyboardHook.cs:35-54 | installed exactly when the system call succeeds |
| KeyboardHook.KeyboardHook.Uninstall | native-host-windows/TabSwitcher/Keyboard/KeyboardHook.cs:56-64 | not installed afterwards |
| KeyboardHook.KeyboardHook.HookCallback | native-host-windows/TabSwitcher/Keyboard/KeyboardHook.cs:69-183 | the callback performs one hook step as written: new state, swallow decision and the one event posted |
| KeyboardHook.KeyboardHook.OnTimerTick | native-host-windows/TabSwitcher/Keyboard/KeyboardHook.cs:155-159 | the tick posts the reveal once and stops the timer |
| WinApp.LaunchedDirectly | native-host-windows/TabSwitcher/App.xaml.cs:99-113 | launched directly exactly when no argument starts with `chrome-extension://` |
| WinApp.Forward | native-host-windows/TabSwitcher/App.xaml.cs:220-259 | a relayed event is passed on exactly when an owner is set and the event targets it |
| WinApp.Target | native-host-windows/TabSwitcher/App.xaml.cs:220-259 | a relayed event names a target browser exactly unless it is a shortcuts change, a leader resignation or a show-config request |
| WinApp.ForwardAll | native-host-windows/TabSwitcher/App.xaml.cs:220-259 | forwarding a run of events passes on at most one message per event, and nothing without an owner |
| WinApp.ForwardAllConcat | native-host-windows/TabSwitcher/App.xaml.cs:220-259 | forwarding two runs of events is forwarding each |
| WinApp.ForwardAllRepeat | native-host-windows/TabSwitcher/App.xaml.cs:220-259 | n copies of an event forward as n copies of its message, or nothing |
| WinApp.SwitchSessionReachesOwner | native-host-windows/TabSwitcher/App.xaml.cs:220-239 | with the hook as written (and with the corrected one), a whole switch session reaches the extension of the browser in front, as cycles with `current_window_only` and one `end_switch`, and reaches no other helper |
| WinApp.OwnerIsFirstKnown | native-host-windows/TabSwitcher/App.xaml.cs:184-186 | after any run of registrations the owner is the one first learned |
| WinApp.LoadSettings | native-host-windows/TabSwitcher/App.xaml.cs:42-43 | the browser list is the merged configuration and the shortcuts those saved, if any |
| WinApp.ElectAndHook | native-host-windows/TabSwitcher/App.xaml.cs:47-64 | the election runs as written: the pipe takes its role, only a leader installs the hook; a helper that creates the mutex leads without owning it, one that takes an existing free mutex owns it |
| WinApp.StartFrontEnd | native-host-windows/TabSwitcher/App.xaml.cs:75-92 | a helper launched by a browser detects its owner, starts the host and sends `ready`; one launched directly shows the setup window |
| WinApp.DetectedOwner | native-host-windows/TabSwitcher/App.xaml.cs:115-128 | the owner and its process id are found together; the owner is the browser the process at that id is recognised as; none is found only when no visited process is a browser |
| WinApp.StartUpdates | native-host-windows/TabSwitcher/App.xaml.cs:95-96 | the update checker starts as written and schedules checks exactly when it leads; a creator of the update mutex leads without owning it |
| WinApp.App.constructor | native-host-windows/TabSwitcher/App.xaml.cs:38-96 | the start-up sequence after loading settings, with the election and update start as written: launch mode, election, pipe, hook, front end, update checker |
| WinApp.App.HandleRegister | native-host-windows/TabSwitcher/App.xaml.cs:174-210 | the version is recorded; the first bundle id becomes owner, with a late process id only if none is known; the reply names the owner, or else the bundle id |
| WinApp.App.AdoptOwner | native-host-windows/TabSwitcher/App.xaml.cs:184-196 | the owner is set only when none was, and the process id only when none was |
| WinApp.App.OnNativeMessage | native-host-windows/TabSwitcher/App.xaml.cs:132-172 | `ping` sends exactly one `pong`; show, update and hide drive the overlay; `register` goes to its handler; an unknown action does nothing |
| WinApp.App.OnNativeDisconnected | native-host-windows/TabSwitcher/App.xaml.cs:212-216 | end of input requests shutdown |
| WinApp.App.OnIpcBrowserEvent | native-host-windows/TabSwitcher/App.xaml.cs:220-259 | the event's message is sent exactly when it targets this helper's owner |
| WinApp.App.OnIpcShortcutsChanged | native-host-windows/TabSwitcher/App.xaml.cs:261-265 | the shortcuts are reloaded from their file |
| WinApp.App.OnIpcLeaderResignedAsWritten | native-host-windows/TabSwitcher/App.xaml.cs:267-280 | as written: the election runs as written, and a follower that wins installs a hook over its follower-mode channel |
| WinApp.TakeoverSwallowsKeysAsWritten | native-host-windows/TabSwitcher/App.xaml.cs:275 | counterexample: after the takeover the hook handles a Ctrl+Tab, and the follower-mode channel drops the event: no helper raises it and nothing is written to any leader |
| WinApp.App.OnIpcLeaderResigned | native-host-windows/TabSwitcher/App.xaml.cs:267-280 | corrected: with the same election, a follower that wins also switches its channel to leader mode before installing the hook |
| WinApp.TakeoverKeysReachBrowser | native-host-windows/TabSwitcher/App.xaml.cs:267-280 | with the corrected takeover, in which the channel turns leader and the hook runs on the UI thread, the same key press reaches the browser's extension |
| WinApp.App.OnExit | native-host-windows/TabSwitcher/App.xaml.cs:295-303 | the hook is removed, leadership given up (the mutex is released only when this helper owned it), the pipe stopped and the host stopped |
| WinApp.OnStartup | native-host-windows/TabSwitcher/App.xaml.cs:31-97 | the settings are loaded, then the application starts with them, electing as written |
| WinBrowserDetector.BrowserIdForName | native-host-windows/TabSwitcher/Services/BrowserDetector.cs:18-27 | a recognised name maps to one of the listed browser ids |
| WinBrowserDetector.BrowserIdForNameIgnoresCase | native-host-windows/TabSwitcher/Services/BrowserDetector.cs:145-149 | a name and its lower-case form map to the same browser |
| WinBrowserDetector.ChromiumRecognised | native-host-windows/TabSwitcher/Services/BrowserDetector.cs:26 | Chromium's executable is recognised here, unlike in the foreground lookup |
| WinBrowserDetector.Visited | native-host-windows/TabSwitcher/Services/BrowserDetector.cs:138-167 | the walk opens at most ten processes, starting with the given one when it is positive |
| WinBrowserDetector.FirstDetected | native-host-windows/TabSwitcher/Services/BrowserDetector.cs:149-153 | nothing exactly when no visited process is a browser; a result pairs a visited pid with its browser |
| WinBrowserDetector.DetectParentBrowser | native-host-windows/TabSwitcher/Services/BrowserDetector.cs:126-177 | the loop returns the walk's result from the helper's parent |
| WinBrowserDetector.WalkIsAncestorChain | native-host-windows/TabSwitcher/Services/BrowserDetector.cs:138-167 | each visited pid is the parent of the one before; all but the last continue; a result is the last process with its pid; no result means a failed step or ten levels |
| WinBrowserDetector.GetSearchPatterns | native-host-windows/TabSwitcher/Services/BrowserDetector.cs:82-119 | no location exactly for an unknown id |
| WinBrowserInfo.GuessBrowserExeName | native-host-windows/TabSwitcher/Models/BrowserInfo.cs:93-109 | the guess is always one of the six executables |
| WinBrowserInfo.GuessBrowserRegistryKey | native-host-windows/TabSwitcher/Models/BrowserInfo.cs:111-127 | Chrome's key exactly for Chrome, Opera, Opera GX and every id outside the table |
| WinBrowserInfo.RegistryKeyFallsBackToChrome | native-host-windows/TabSwitcher/Models/BrowserInfo.cs:111-127 | Opera, Opera GX and every id outside the table use Chrome's key, and every such unknown id runs chrome.exe; any other key belongs to one of the listed ids |
| WinBrowserInfo.FromDefinition | native-host-windows/TabSwitcher/Models/BrowserInfo.cs:78-91 | id and names are copied; the entry is disabled with no extension id; each Windows field comes from the definition when present and from the guesses, or no paths, when it or the whole Windows part is missing |
| WinBrowserConfig.GuessesMatchKnownBrowsers | native-host-windows/TabSwitcher/Services/BrowserConfigManager.cs:62-88 | the guess tables agree with the built-in list on every built-in browser |
| WinBrowserConfig.BaseBrowserList | native-host-windows/TabSwitcher/Services/BrowserConfigManager.cs:134-158 | a non-empty cached list converted entry by entry, otherwise the built-in list; every base entry is disabled |
| WinBrowserConfig.FirstWithId | native-host-windows/TabSwitcher/Services/BrowserConfigManager.cs:108 | `FirstOrDefault` by id, as an index: the first entry with the id, or none exactly when no entry has it |
| WinBrowserConfig.AppendEnabled | native-host-windows/TabSwitcher/Services/BrowserConfigManager.cs:118-122 | the second loop only appends |
| WinBrowserConfig.AppendedAreEnabledSavedAndNew | native-host-windows/TabSwitcher/Services/BrowserConfigManager.cs:118-122 | every appended entry is an enabled saved one, and no appended id repeats another id in the list |
| WinBrowserConfig.EnabledSavedIdsKept | native-host-windows/TabSwitcher/Services/BrowserConfigManager.cs:118-122 | every enabled saved id is present after the loop |
| WinBrowserConfig.LoadedShape | native-host-windows/TabSwitcher/Services/BrowserConfigManager.cs:92-132 | base entries keep their order and take the three saved fields of their id; enabled saved entries with new ids follow; without a saved file the base list is the result |
| WinBrowserConfig.Loaded | native-host-windows/TabSwitcher/Services/BrowserConfigManager.cs:92-132 | without a saved file the result is the base list; the merge never shortens the base list |
| WinBrowserConfig.EnabledBrowserIds | native-host-windows/TabSwitcher/Services/BrowserConfigManager.cs:58-59 | exactly the ids of the enabled entries |
| WinBrowserConfig.LastEntryDecidesKeyAsWritten | native-host-windows/TabSwitcher/Services/BrowserConfigManager.cs:259-304 | as written, the last entry with a registry key alone decides whether that key exists |
| WinBrowserConfig.RegisteredAsWritten | native-host-windows/TabSwitcher/Services/BrowserConfigManager.cs:259-304 | every key UpdateManifests adds points to the one shared manifest file |
| WinBrowserConfig.KeyPathsDiffer | native-host-windows/TabSwitcher/Services/BrowserConfigManager.cs:261 | different registry keys give different registration keys |
| WinBrowserConfig.ChromeAloneIsUnregisteredAsWritten | native-host-windows/TabSwitcher/Services/BrowserConfigManager.cs:295-303 | counterexample: with the built-in list and only Chrome enabled, Chrome's key ends up deleted |
| WinBrowserConfig.SharedManifestIsLastAsWritten | native-host-windows/TabSwitcher/Services/BrowserConfigManager.cs:266-280 | as written, the one manifest file allows only the last registering browser's extension |
| WinBrowserConfig.SharedManifestAllowsOnlyLastAsWritten | native-host-windows/TabSwitcher/Services/BrowserConfigManager.cs:266-280 | counterexample: with Brave and Edge enabled, Brave's key points to a manifest that does not allow Brave's extension |
| WinBrowserConfig.BrowserConfigManager.constructor | native-host-windows/TabSwitcher/Services/BrowserConfigManager.cs:34-36 | no browsers, the default shortcuts, nothing saved |
| WinBrowserConfig.BrowserConfigManager.LoadConfig | native-host-windows/TabSwitcher/Services/BrowserConfigManager.cs:92-132 | the two loops compute the load specification |
| WinBrowserConfig.BrowserConfigManager.LoadShortcuts | native-host-windows/TabSwitcher/Services/BrowserConfigManager.cs:176-192 | a readable file replaces the shortcuts; otherwise they are kept |
| WinBrowserConfig.BrowserConfigManager.UpdateManifestsAsWritten | native-host-windows/TabSwitcher/Services/BrowserConfigManager.cs:249-305 | the loop walks the list in order and leaves the registrations of the as-written specification |
| WinBrowserConfig.BrowserConfigManager.UpdateManifests | native-host-windows/TabSwitcher/Services/BrowserConfigManager.cs:249-305 | corrected: a key exists exactly when some browser using it registers, and its manifest allows every such browser's extension; a key no entry uses keeps its value or stays absent, and a manifest file no used key names is left as it was |
| WinBrowserConfig.BrowserConfigManager.SaveConfig | native-host-windows/TabSwitcher/Services/BrowserConfigManager.cs:160-172 | the list is saved, then the registrations are those UpdateManifests writes as written |
| WinBrowserConfig.BrowserConfigManager.SaveConfigCorrected | native-host-windows/TabSwitcher/Services/BrowserConfigManager.cs:160-172 | with the corrected UpdateManifests, every key the list uses is decided by all the browsers sharing it; keys no entry uses and manifest files no used key names are left as they were |
| WinBrowserConfig.BrowserConfigManager.EnableBrowser | native-host-windows/TabSwitcher/Services/BrowserConfigManager.cs:209-219 | the first entry with the id gets the extension id and is enabled, then saved with the registrations written as written; its key then points to the shared manifest when no later entry uses the same key; an unknown id changes nothing |
| WinBrowserConfig.BrowserConfigManager.DisableBrowser | native-host-windows/TabSwitcher/Services/BrowserConfigManager.cs:221-230 | only the first entry with the id is disabled, then saved with the registrations written as written; an unknown id changes nothing |
| WinBrowserConfig.BrowserConfigManager.SetCombineWindows | native-host-windows/TabSwitcher/Services/BrowserConfigManager.cs:232-240 | only the first entry with the id changes its switch, then saved with the registrations written as written; an unknown id changes nothing |
| WinBrowserConfig.DisableRemovesId | native-host-windows/TabSwitcher/Services/BrowserConfigManager.cs:221-230 | disabling the only entry with an id removes exactly that id from the enabled ids |
| ShortcutConfig.FlagsAreDistinctBits | native-host-windows/TabSwitcher/Models/ShortcutConfig.cs:70-78 | the four modifier flags are distinct single bits, so a combination holds exactly the flags it was built from |
| ShortcutConfig.VkCodeToString | native-host-windows/TabSwitcher/Models/ShortcutConfig.cs:29-67 | every key name is non-empty and free of '+' |
| ShortcutConfig.VkCodeNames | native-host-windows/TabSwitcher/Models/ShortcutConfig.cs:32-65 | every letter and digit code is its own character, every code from 0x70 to 0x7B is F1 to F12, Tab is "Tab", and every code without a name is "Key(n)" |
| ShortcutConfig.DisplayStringSplits | native-host-windows/TabSwitcher/Models/ShortcutConfig.cs:15-27 | a display string splits at '+' into the modifier names in the order Ctrl, Alt, Shift, Win, then the key name |
| ShortcutConfig.DisplayString | native-host-windows/TabSwitcher/Models/ShortcutConfig.cs:15-27 | a display string ends with the key name, and is just the key name without modifiers |
| ShortcutConfig.JoinEndsWithLast | native-host-windows/TabSwitcher/Models/ShortcutConfig.cs:26 | a `+`-joined list ends with its last part |
| ShortcutConfig.SameDisplaySameShortcut | native-host-windows/TabSwitcher/Models/ShortcutConfig.cs:15-27 | two shortcuts shown alike have the same four flags and keys of the same name |
| ShortcutConfig.ConfigurationNeverBuiltAsWritten | native-host-windows/TabSwitcher/Models/ShortcutConfig.cs:82-92 | as written, constructing a configuration or its defaults never finishes, however deep the stack |
| ShortcutConfig.NewConfigurationAsWritten | native-host-windows/TabSwitcher/Models/ShortcutConfig.cs:82-86 | as written, a configuration would only be built with some stack left and would hold the intended defaults |
| ShortcutConfig.DefaultsAsWritten | native-host-windows/TabSwitcher/Models/ShortcutConfig.cs:88-92 | as written, the defaults would only be built with some stack left and would equal the intended defaults |
| ShortcutConfig.Defaults | native-host-windows/TabSwitcher/Models/ShortcutConfig.cs:88-92 | the defaults display as "Ctrl+Tab" and "Ctrl+Shift+C" |
| UpdateService.ParseInt | native-host-windows/TabSwitcher/Services/UpdateService.cs:130 | `int.Parse` succeeds only within the 32-bit range; white space around the number is skipped (ParseIntIgnoresPadding) |
| UpdateService.ParseSigned | native-host-windows/TabSwitcher/Services/UpdateService.cs:130 | an optional sign and digits parse only within the 32-bit range |
| UpdateService.ParseIntIgnoresPadding | native-host-windows/TabSwitcher/Services/UpdateService.cs:130 | a white-space character before or after the text changes nothing |
| UpdateService.ParseIntOfNatToString | native-host-windows/TabSwitcher/Services/UpdateService.cs:130 | parsing a number's decimal text gives it back within range |
| UpdateService.ParsePartsEach | native-host-windows/TabSwitcher/Services/UpdateService.cs:130-131 | every component is parsed in order, or the whole parse fails |
| UpdateService.NewerPartsIsLexicographic | native-host-windows/TabSwitcher/Services/UpdateService.cs:132-141 | newer exactly when, after zero padding, the first differing component is larger |
| UpdateService.NewerIrreflexive | native-host-windows/TabSwitcher/Services/UpdateService.cs:134-141 | no version is newer than itself |
| UpdateService.NewerAsymmetric | native-host-windows/TabSwitcher/Services/UpdateService.cs:138-139 | of two versions at most one is newer |
| UpdateService.NewerTransitive | native-host-windows/TabSwitcher/Services/UpdateService.cs:134-141 | newer is transitive |
| UpdateService.TrailingZeroIgnored | native-host-windows/TabSwitcher/Services/UpdateService.cs:136-137 | a trailing zero component changes no comparison |
| UpdateService.IsNewerVersion | native-host-windows/TabSwitcher/Services/UpdateService.cs:128-142 | the method fails when a component does not parse and otherwise returns the numeric comparison |
| UpdateService.CompareParts | native-host-windows/TabSwitcher/Services/UpdateService.cs:132-141 | the loop returns the numeric comparison of the parsed components |
| UpdateService.EmptyVersionThrows | native-host-windows/TabSwitcher/Services/UpdateService.cs:185 | an empty version, the default of a missing field, makes the comparison fail |
| UpdateService.Process | native-host-windows/TabSwitcher/Services/UpdateService.cs:97-123 | the step both variants share: at most two notices (ProcessAnnounces gives them exactly) |
| UpdateService.ProcessAnnounces | native-host-windows/TabSwitcher/Services/UpdateService.cs:97-123 | for both variants: the app version is announced when newer and unrecorded, then the extension version likewise when one is connected; the extension field records what was announced; the app field is kept only when the extension save starts from the loaded record |
| UpdateService.ProcessAsWritten | native-host-windows/TabSwitcher/Services/UpdateService.cs:97-123 | as written: the same notices and the same extension field as the corrected processing |
| UpdateService.ProcessCorrected | native-host-windows/TabSwitcher/Services/UpdateService.cs:97-123 | corrected: every announced version is recorded |
| UpdateService.ProcessRecordsAnnounced | native-host-windows/TabSwitcher/Services/UpdateService.cs:97-123 | corrected processing records exactly what it announces and keeps the rest of the record |
| UpdateService.AnnouncedOnce | native-host-windows/TabSwitcher/Services/UpdateService.cs:97-123 | corrected: processing the same information twice announces nothing the second time |
| UpdateService.AppAnnouncedTwiceAsWritten | native-host-windows/TabSwitcher/Services/UpdateService.cs:109-120 | counterexample: when both versions are new, the app version is announced again on the next check |
| UpdateService.AppAnnouncedTwiceExample | native-host-windows/TabSwitcher/Services/UpdateService.cs:109-120 | counterexample: app 9.0.0 and extension 2.0.0 against 1.0.0, from an empty record: both are announced, and the next check announces app 9.0.0 again |
| UpdateService.BothNewerExample | native-host-windows/TabSwitcher/Services/UpdateService.cs:128-142 | 9.0.0 is newer than the running 3.7.4, and 2.0.0 newer than 1.0.0 |
| UpdateService.UpdateService.constructor | native-host-windows/TabSwitcher/Services/UpdateService.cs:27-30 | not leader, no extension version, nothing scheduled |
| UpdateService.UpdateService.StartAsWritten | native-host-windows/TabSwitcher/Services/UpdateService.cs:32-70 | as written: the creator leads without owning the mutex |
| UpdateService.TwoCheckersBothLeadAsWritten | native-host-windows/TabSwitcher/Services/UpdateService.cs:37-38 | counterexample: two helpers starting one after the other both check for updates |
| UpdateService.UpdateService.Start | native-host-windows/TabSwitcher/Services/UpdateService.cs:32-70 | corrected: a leader owns the mutex; checks are scheduled exactly when leading |
| UpdateService.TwoCheckersElect | native-host-windows/TabSwitcher/Services/UpdateService.cs:32-53 | with the corrected start, at most one of two helpers checks |
| UpdateService.UpdateService.SetExtensionVersion | native-host-windows/TabSwitcher/Services/UpdateService.cs:72-75 | the connected extension's version is recorded |
| UpdateService.UpdateService.ProcessVersionInfoAsWritten | native-host-windows/TabSwitcher/Services/UpdateService.cs:97-123 | as written: both saves start from the record loaded before the first |
| UpdateService.UpdateService.ProcessVersionInfo | native-host-windows/TabSwitcher/Services/UpdateService.cs:97-123 | corrected: the extension's save builds on the app's, so the file and notices follow the corrected processing |
| UpdateService.UpdateService.CheckForUpdates | native-host-windows/TabSwitcher/Services/UpdateService.cs:77-92 | only the leader processes a fetched record, as written; a failed fetch changes nothing |

## Left out

- I/O is not modelled: files, the registry, standard streams and the named pipe.
  They are values (a saved configuration, a map of registry keys, byte
  sequences, lists of lines), and reading or writing them is an assignment.
- JSON text and UTF-8 are not modelled. Parsing text into the `Json` datatype
  is a function parameter. Serialised payloads are opaque byte sequences.
- Base64 decoding of thumbnails is not modelled. A thumbnail stays the text
  after the comma.
- Threads, `Task.Run`, the dispatcher and the pipe server and client loops are
  not modelled. Each event is a method call: a client connects, a line
  arrives, the leader goes away.
- `InstanceCommunication.Start`, and the reconnect delays and retries of
  `RunServer` and `ConnectAsClient`, are not modelled; they are tasks and
  timing only.
- Timers are not modelled as time. The end-switch timer, the reveal timers and
  the update timers are pending values, and firing them is a method call. The
  150 ms reveal delay is therefore not timed.
- The asynchronous Chrome APIs are not called. What they report is a
  `Browser` snapshot passed in: the focused flag, live tabs, the window of each
  tab, and the current window. A switch step therefore sees one consistent
  snapshot, and interleaving between awaits is not modelled.
- The extension's keep-alive port, its reconnect on disconnect and
  `onFocusChanged` are not modelled; they only reopen the connection.
- Capture on `onUpdated`, `captureCurrentTabThumbnail`, the setup page opened
  on install, and the popup's status query are not modelled. They only schedule
  the capture modelled above or deal with UI outside the core.
- `getTabDataForSwitcher` keeps only its choice of list and of live tabs. The
  title, icon and URL of each tab are not modelled.
- `windowOnly !== false` is read as a boolean argument. The undefined case of
  JavaScript is not distinguished.
- GUI windows, the overlay positioning, the toast and the setup window are
  not modelled. The model records only the overlay commands and messages sent.
- The clipboard is not modelled; `url_copied` and `copy_url` appear only as
  messages.
- Accessibility prompts, event-tap creation and `SetWindowsHookEx` are not
  modelled; each is a boolean input saying whether it succeeded.
- Process queries (`sysctl`, `NSRunningApplication`, `NtQueryInformationProcess`,
  `Process.GetProcessById`) are not modelled. A process table value stands in
  for them.
- The macOS helper's single-instance check (`isAnotherInstanceRunning`,
  `activateExistingInstance`) is not modelled; it is a process query plus UI
  activation.
- `FetchRemoteBrowserListAsync`, the update check's HTTP request, and
  `FindBrowserPath`/`IsBrowserInstalled` are not modelled. They need the network
  or the file system. The fetched list or record is an input.
- `UpdateService` notices are not displayed. On Windows they are log lines,
  and they are recorded as a list of `Notice` values.
- Logging is not modelled.
- Threads are not modelled: hook installation and mutex ownership belong to the
  process, not to a thread. The takeover after a leader resigns runs on the pipe
  client's thread-pool thread, where a low-level hook gets no message loop; the
  model runs the hook callback regardless.
- LeaderElection.LeaderElection.Release: after a takeover the mutex was acquired on
  the pool thread, so `ReleaseMutex` on the UI thread throws, the error is caught
  and the mutex stays owned until the process ends; the model's release frees it.
- Common.Lower: ASCII letters only are folded, where `OrdinalIgnoreCase` and
  `ToLowerInvariant` fold every letter; the process names compared are ASCII.
- ParseInt: trailing NUL characters, which `int.Parse` also skips, and signs of
  other cultures are not modelled; the current culture is taken to use `-` and `+`.
- WinBrowserConfig.BrowserConfigManager.constructor: starts from the intended
  default shortcuts. The source's initialiser never finishes (see Findings), so
  the manager as written is never built.
- SaveConfig: a failure to write the configuration file, which skips the
  registrations, is not modelled; the write always succeeds.
- MacHost.ParseTabList: the per-tab content is stated by `MacHost.ParseTabInfo`.
  The list function's own contract bounds only its length.
- WinNativeHost.TabsOf: its own contract bounds only the length. The content is
  stated by `WinNativeHost.TabsOfKeepsOnlyIdentifiedTabs` and
  `WinNativeHost.TabsOfAppend`.

## Findings

| source | as written | input that shows it | evidently intended | confidence | as-written member | corrected member |
|---|---|---|---|---|---|---|
| mainsw.js:683 | `handleNativeEndSwitch` activates `filteredMru[lastIntSwitchIndex]`, then `endSwitch` moves `mru[lastIntSwitchIndex]` to the front, indexing the full list | list [1,2,3], windows 1→7, 2→8, 3→7, current window 7: the session cycles over [1,3] to index 1; tab 3 is activated and `endSwitch` moves tab 2 to the front, so after the activation is reported the list is [3,2,1] | the activated tab moves to the front and the rest keeps its order: [3,1,2] | not executed | ServiceWorker.ServiceWorker.HandleNativeEndSwitchAsWritten, ServiceWorker.EndSwitchCommitsFullListIndex | ServiceWorker.ServiceWorker.HandleNativeEndSwitch |
| native-host-windows/TabSwitcher/IPC/LeaderElection.cs:24 | the mutex is created with `initiallyOwned: false`, and its creator leads without owning it | two helpers start one after the other: the first creates the mutex, and the second's `WaitOne(0)` succeeds; both leaders install a keyboard hook | the creator owns the mutex, so at most one helper leads | not executed | LeaderElection.LeaderElection.TryBecomeLeaderAsWritten, LeaderElection.TwoInstancesBothLeadAsWritten | LeaderElection.LeaderElection.TryBecomeLeader, LeaderElection.AtMostOneLeader |
| native-host-windows/TabSwitcher/Services/UpdateService.cs:37 | the same pattern: the update mutex is created not owned | two helpers start one after the other, and both become update leader | one update checker | not executed | UpdateService.UpdateService.StartAsWritten, UpdateService.TwoCheckersBothLeadAsWritten | UpdateService.UpdateService.Start, UpdateService.TwoCheckersElect |
| native-host-windows/TabSwitcher/Services/UpdateService.cs:120 | the extension's save writes `App = notified.App` from the record loaded before the app's save | app 9.0.0 newer and extension newer, empty record: the file ends with no app version, so the app update is announced again next check | each new version is announced once | not executed | UpdateService.UpdateService.ProcessVersionInfoAsWritten, UpdateService.AppAnnouncedTwiceAsWritten, UpdateService.AppAnnouncedTwiceExample | UpdateService.UpdateService.ProcessVersionInfo, UpdateService.AnnouncedOnce |
| native-host-windows/TabSwitcher/Keyboard/KeyboardHook.cs:86-93 | the current modifiers are read from Ctrl, Shift and Alt only; the Win flag is never set | copy-URL configured as Win+C: pressing Win+C never fires | shortcuts with Win, which the flag set and display strings offer, fire | not executed | KeyboardHook.WinShortcutNeverFiresAsWritten, KeyboardHook.WinCExample | KeyboardHook.CopyUrlShortcutFires |
| native-host-windows/TabSwitcher/App.xaml.cs:275 | a follower that wins the election after the leader resigns installs a hook over its channel still in follower mode; the takeover also runs on the pipe client's thread-pool thread (IPC/InstanceCommunication.cs:51, 244-247), which has no message loop for a low-level hook | leader resigns, follower takes over, Ctrl+Tab in its browser: whenever the hook runs, the event it posts goes to the gone leader and no helper raises it, so the key never reaches the extension | the new leader switches its channel to leader mode and installs the hook on the UI thread (`Dispatcher.Invoke`, as App.xaml.cs:139 does for the overlay), so key events reach the extension | not executed | WinApp.App.OnIpcLeaderResignedAsWritten, WinApp.TakeoverSwallowsKeysAsWritten | WinApp.App.OnIpcLeaderResigned, WinApp.TakeoverKeysReachBrowser |
| native-host-windows/TabSwitcher/Services/BrowserConfigManager.cs:268 | every registration is written to the one manifest file, and a disabled entry deletes its key even when an enabled entry shares it | built-in list with only Chrome enabled: Opera GX, later in the list with Chrome's key, deletes it; with Brave and Edge enabled the manifest allows only Edge's extension | each enabled browser's key points to a manifest allowing its extension | not executed | WinBrowserConfig.BrowserConfigManager.UpdateManifestsAsWritten, WinBrowserConfig.ChromeAloneIsUnregisteredAsWritten, WinBrowserConfig.SharedManifestAllowsOnlyLastAsWritten | WinBrowserConfig.BrowserConfigManager.UpdateManifests, WinBrowserConfig.BrowserConfigManager.SaveConfigCorrected |
| native-host-windows/TabSwitcher/Models/ShortcutConfig.cs:83-88 | the property initialisers read `Defaults`, and `Defaults` is `new()`, so each construction starts another | any `new ShortcutsConfiguration()`, including the manager's initial shortcuts: unbounded recursion | a configuration starts with Ctrl+Tab and Ctrl+Shift+C | not executed | ShortcutConfig.NewConfigurationAsWritten, ShortcutConfig.DefaultsAsWritten, ShortcutConfig.ConfigurationNeverBuiltAsWritten | ShortcutConfig.Defaults |
