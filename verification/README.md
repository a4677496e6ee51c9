# Verification of the Milkwave Remote

This project models the logic of the Milkwave Remote, the Windows program that controls the Milkwave
visualizer, and proves properties of it in Dafny 4.11. `dafny verify dfyconfig.toml` checks all of it.

Handlers that update fields are methods of classes with those fields, and each is proved against a
function of the old state; the lemmas then speak about these functions, over all inputs, all runs or all
interleavings. Lists that the program fixes (tab order, lines, entries, rows of a message) have any length
here wherever nothing depends on the number.

| file | part of the program |
|---|---|
| SpriteDefinitions.dfy | the editor and the reader of sprites.ini, and the map in memory that must agree with both |
| Connection.dfy | active client, re-scan timer, fail-over, network authentication, disconnects |
| PipeFraming.dfy | messages on the pipe and their reassembly from arbitrary reads |
| Fields.dfy, WaveProtocol.dfy, SettingsSync.dfy, Numerals.dfy | the WAVE and SETTINGS messages, down to the printed decimals |
| TabStrip.dfy | incremental updates of the tab strip |
| MixSwitches.dfy, MixSettings.dfy | the two exclusive mix switches, the messages they send, and what the visualizer makes and knows of them |
| Autoplay.dfy | the beat counter and the line index |
| ButtonCatalog.dfy, ButtonConfig.dfy | the command buttons in settings.ini: escaping, defaults, legacy formats, migration, and what a restart shows |
| KnobDebounce.dfy, MidiBanks.dfy | MIDI: delayed knob actions, the banked rows, the Learn boxes and learned messages |
| PresetDeck.dfy | the preset deck and its background screenshots |
| TagLists.dfy, TagFilter.dfy, TagCounts.dfy | tags: lists in text boxes, the filter language, the tag buttons |
| RtfBuilder.dfy, LinkSpans.dfy | the info window: RTF text, links and clicks |
| ImageGeometry.dfy | sizes and crops of previews and thumbnails |
| Text.dfy, Selections.dfy | trimming, searching, splitting and joining of strings; selecting elements of a list |

Where the program does not meet a property that one would expect, the code is modelled as it is, the exact
condition is proved, and an instance is given:

- a sprite path with a semicolon is written but lost as the buttons are refreshed (SpriteDefinitions.EditThenRead and
  SemicolonPathNotReadBack);
- a WAVE message carries the colour of the panel, not of the three components beside it, which differ as the
  form is shown and wherever a component has a fraction; and its mode is refused when it has a fraction
  (WaveProtocol.RoundTrip, RunInStep, ShownFormSendsPanel and FractionsDoNotArrive);
- after a message that could not be sent, unchecking a box can leave the visualizer mixing the other input;
  checking one always brings it back into step (MixSwitches.SyncedAfter, ResyncedIff and LostMessageLeavesVideo);
- a spout sender that is picked again after another one was told with an enable is not announced
  (MixSettings.KnownIff and PickedSenderNotTold);
- a deck request is lost when a task of an earlier request for the same button is still at work and times
  out, and only such a rival can take it away (PresetDeck.RequestServedIff, RivalLosesRequest and
  EarlierTimeoutDropsLaterRequest);
- for a preset with an empty tag, which the program itself never stores, a comma does not form the union
  (TagFilter.UnionExactly and EmptyTagBreaksUnion), and "! word" is not the complement of "word"
  (TagFilter.NotExactly and SpacedNegation);
- with the shift key, a tag restricts a filter list of several words at one of its ends only
  (TagFilter.ToggleAndIff and ToggleAndFreesList);
- a note learned on a knob's row is not answered, unless it is note 0, and a knob learned on a row without a
  type whose box of actions already is a list gets no action
  (MidiBanks.LearnedAnswers, NoteLearnedOnKnobRow and LearnedKnobActs);
- a MIDI row that is not canonical is changed by showing it and writing it back (MidiBanks.ShowWriteBack and
  KnobValueIsLost);
- a screenshot of one column of five pixels or more, or more than 640 times as wide as high, has no thumbnail
  (ImageGeometry.ThumbnailExists and NoThumbnail).

## Model

| member | source | states |
|---|---|---|
| SpriteDefinitions.EditThenRead | Remote/MilkwaveRemoteForm.cs:921-983 | After an edit the file reads as the old image map with just this section set to the new value, if and only if the value is one the reader can produce (trimmed, not empty, no comment mark, no forward slash) and no line behind the edited one redefines the section to something else. For any file, any number of sections and image lines. |
| SpriteDefinitions.OtherSectionsKept | Remote/MilkwaveRemoteForm.cs:921-983 | No edit, whatever the value, changes the image of any other section, although the edited line is found by one set of rules and read by another. |
| SpriteDefinitions.MissingHeader | Remote/MilkwaveRemoteForm.cs:929-972 | The editor has no place to write exactly when no line spells the section's header (trimmed, ignoring case). |
| SpriteDefinitions.EditIsInSection | Remote/MilkwaveRemoteForm.cs:933-972 | The line the editor picks is one that the reader reads while in that section. |
| SpriteDefinitions.ImageAtNone | Remote/MilkwaveRemoteForm.cs:941-962 | When the first pass finds no image line, every image line further down belongs to a later section. |
| SpriteDefinitions.ParseRewritten | Remote/MilkwaveRemoteForm.cs:952-961 | The rewritten line is read back as the new value if that is clean, and never as a section header. |
| SpriteDefinitions.EditIsRight | Remote/MilkwaveRemoteForm.cs:921-983 | Every edit that is made either changes one line, the section's first image line, and in it only what stands between img= and the first comment mark, so that indentation and comment stay; or, when the section has no image line, adds one right behind its first header. Every other line stays. |
| SpriteDefinitions.RewrittenShape | Remote/MilkwaveRemoteForm.cs:955-958 | A rewritten line is its old indentation, img=, the new value, and everything from the first comment mark behind the key on. |
| SpriteDefinitions.ImagesAreLast | Remote/MilkwaveRemoteForm.cs:400-446 | The map the reader builds holds for each key the last image given in a section of that name, in lower case, that begins with img. |
| SpriteDefinitions.StripAfterClean | Remote/MilkwaveRemoteForm.cs:985-996 | Removing comments from a clean value followed by any comment gives the value. |
| SpriteDefinitions.AllClean | Remote/MilkwaveRemoteForm.cs:416-441 | Every value the reader stores is clean; this is why an unclean one cannot be read back. |
| SpriteDefinitions.RunFrame | Remote/MilkwaveRemoteForm.cs:416-441 | What a part of the file contributes to the map does not depend on what was read before it, except for the section it starts in. |
| SpriteDefinitions.FindInlineCommentIndex | Remote/MilkwaveRemoteForm.cs:998-1010 | The first comment mark of either kind at or after the start, or -1 when there is none. |
| SpriteDefinitions.SemicolonPathNotReadBack | Remote/MilkwaveRemoteForm.cs:855-860 | A path with a semicolon, legal in a file name, is written but not read back. |
| SpriteDefinitions.SpriteSettings.LoadSpriteDefinitions | Remote/MilkwaveRemoteForm.cs:400-446 | The loop over the lines computes the map defined by reading the file; the map is then coherent with the file. |
| SpriteDefinitions.SpriteSettings.RewriteImageLine | Remote/MilkwaveRemoteForm.cs:933-962 | The first pass changes the lines exactly when the section has an image line of its own, and then to the specified file. |
| SpriteDefinitions.SpriteSettings.InsertAfterHeader | Remote/MilkwaveRemoteForm.cs:964-972 | The second pass puts the image line right under the first header of the section. |
| SpriteDefinitions.SpriteSettings.UpdateSpriteDefinition | Remote/MilkwaveRemoteForm.cs:921-983 | Reports success exactly when the file exists and has the section, and then has made the one change that EditIsRight describes in terms of the lines; otherwise the file is the old one. |
| SpriteDefinitions.SpriteSettings.SelectImage | Remote/MilkwaveRemoteForm.cs:855-864 | After a successful edit the map is what the file reads as, because the refresh reads it again (lines 385-388); so the path just set stays in the map exactly under the condition of EditThenRead. Without the file or the section nothing changes. |
| Connection.ConnectionManager.constructor | Remote/MilkwaveRemoteForm.cs:1483-1493 | The invariant holds for the loaded form: every client ever created is the active one, with its handlers, or is detached and disposed, and without a client the re-scan timer runs. |
| Connection.ConnectionManager.Run | Remote/MilkwaveRemoteForm.cs:1442-1821 | After every event of every sequence the invariant holds, and each event led to what its handler promises, whatever discovery and connection attempts answer. |
| Connection.ConnectionManager.Handle | Remote/MilkwaveRemoteForm.cs:1442-1821 | Each event keeps the invariant and leads to what its handler promises: which client is connected, and to what, for every answer of the surroundings. |
| Connection.ActiveInOrder | Remote/MilkwaveRemoteForm.cs:1453-1478 | The network targets listed are exactly the active ones, in the order of the configuration. |
| Connection.ConnectionManager.DetachAndDisposeActiveClient | Remote/MilkwaveRemoteForm.cs:1442-1451 | Leaves no active client, the old one disposed and without handlers, and the timer running. |
| Connection.ConnectionManager.EnsureAutoScanTimerState | Remote/MilkwaveRemoteForm.cs:1483-1493 | The timer runs exactly when there is no client. |
| Connection.ConnectionManager.ScanAndPopulateVisualizers | Remote/MilkwaveRemoteForm.cs:1453-1478 | The list shows what is discovered now, then the active network targets, with the first entry selected. |
| Connection.ConnectionManager.TryConnect | Remote/MilkwaveRemoteForm.cs:1647-1675 | One attempt: the new client stays active with the target's process if it connects, otherwise it is disposed and the instances are listed afresh. |
| Connection.ConnectionManager.ConnectToInstance | Remote/MilkwaveRemoteForm.cs:1647-1692 | On failure falls over once, to the instance with the greatest process id found then, and terminates; says which client is active in each of the four outcomes. |
| Connection.HighestPid | Remote/MilkwaveRemoteForm.cs:1678-1681 | The first instance with the greatest process id. |
| Connection.HighestIsUnique | Remote/MilkwaveRemoteForm.cs:1678-1681 | There is only one such instance. |
| Connection.ConnectionManager.ConnectToNetworkTarget | Remote/MilkwaveRemoteForm.cs:1694-1731 | A new network client for exactly the given target becomes the active one; the old one is disposed. |
| Connection.ConnectionManager.AutoScanTimer_Tick | Remote/MilkwaveRemoteForm.cs:1499-1527 | With a client it only stops the timer, while a message is sent it does nothing. Otherwise it attempts the first instance found; if that one refuses, the instance with the greatest process id found then; and the first network target only if there is no instance. |
| Connection.ConnectionManager.VisualizerScan_Click | Remote/MilkwaveRemoteForm.cs:1529-1541 | Drops the client, then attempts the first instance found, with the fail-over, or, without instances, connects to the first active network target. |
| Connection.ConnectionManager.WindowTitle_SelectedIndexChanged | Remote/MilkwaveRemoteForm.cs:1764-1775 | The entry chosen decides: an instance by its place, with the fail-over, a network target behind them, nothing outside the list. |
| Connection.ConnectionManager.OnPipeDisconnected | Remote/MilkwaveRemoteForm.cs:1777-1821 | The client is disposed; the greatest process id is attempted, with the fail-over, if and only if the closed instance was the selected one and there are instances. |
| Connection.ConnectionManager.OnAuthStateChanged | Remote/MilkwaveRemoteForm.cs:1702-1720 | A failure detaches whatever client is active, even one that replaced the client the callback belongs to; other states change nothing. |
| Connection.ConnectionManager.LaunchedInstance | Remote/MilkwaveRemoteForm.cs:1601-1612 | A launched instance that is found again is attempted, with the fail-over; otherwise the client stays. |
| Autoplay.Timing | Remote/MilkwaveRemoteForm.cs:2832-2871 | From any countdown, tick t sends a line exactly when it lies a whole number of periods of max(2, beats) ticks behind the first send, and the k-th send is line start + k, wrapping at the end. |
| Autoplay.NextSend | Remote/MilkwaveRemoteForm.cs:2840-2869 | When the beats field changes in between, the next line still follows exactly one period after a send, the period being the one read at the send, and nothing is sent earlier. |
| Autoplay.ExpectedHolds | Remote/MilkwaveRemoteForm.cs:2832-2871 | The state before every tick, in closed form: which line is selected and how many beats are left. |
| Autoplay.Period | Remote/MilkwaveRemoteForm.cs:2841-2849 | Two lines are at least two ticks apart, even for one beat. |
| Autoplay.AutoplayForm.SendAutoplayLine | Remote/MilkwaveRemoteForm.cs:2832-2871 | A tick does one step of the schedule; a manual send handles the selected line and leaves the schedule alone. |
| Autoplay.AutoplayForm.ResetAndStartTimer | Remote/MilkwaveRemoteForm.cs:2803-2814 | Resets the countdown, sends at once for an instant start, and does nothing for an unreadable beats field. |
| Autoplay.AutoplayForm.Ticks | Remote/MilkwaveRemoteForm.cs:2828-2830 | A run of ticks handles exactly the lines the schedule names, in order. |
| TabStrip.TabControl.Run | Remote/MilkwaveRemoteForm.cs:2166-2267 | After any events the strip is the canonical order filtered by the configuration they produce. |
| TabStrip.TabControl.UpdateTabPages | Remote/MilkwaveRemoteForm.cs:2233-2251 | From any ordered part of the canonical order, inserting and removing one by one reaches exactly the configured tabs in canonical order, with a valid selection while a tab is shown. |
| TabStrip.TabControl.InsertTabAtCanonicalPosition | Remote/MilkwaveRemoteForm.cs:2253-2267 | Inserting before the next shown tab gives the canonical order of the enlarged set. |
| TabStrip.TabControl.RemoveTab | Remote/MilkwaveRemoteForm.cs:2242-2244 | Removing a page gives the canonical order of the reduced set. |
| TabStrip.TabControl.SetTabVisible | Remote/MilkwaveRemoteForm.cs:2222-2230 | Adds or removes just this tab and brings the strip up to date. |
| TabStrip.TabControl.ApplyTabVisibility | Remote/MilkwaveRemoteForm.cs:2166-2192 | A SHOWTAB setting sets the menu mark as configured and the tab as configured, the MIDI tab only with MIDI enabled; an unknown key changes nothing. |
| TabStrip.TabControl.ShowTab_Click | Remote/MilkwaveRemoteForm.cs:4316-4328 | Toggles the menu mark and shows the tab accordingly. |
| TabStrip.ShownMembers | Remote/MilkwaveRemoteForm.cs:2235-2245 | The filtered order contains exactly the tabs of the set that the order knows. |
| TabStrip.ShownDistinct | Remote/MilkwaveRemoteForm.cs:2235-2245 | No tab is shown twice. |
| TabStrip.TabOrderFits | Remote/MilkwaveRemoteForm.cs:2147-2150 | The program's own order of tabs meets the conditions of the theorems about any order. |
| TabStrip.LastSettingWins | Remote/MilkwaveRemoteForm.cs:2166-2192 | A tab follows its last setting; settings for other tabs, however many and in whatever order, make no difference to it. |
| TabStrip.TabAfterRun | Remote/MilkwaveRemoteForm.cs:2166-2267 | After any run of settings, clicks and MIDI being switched off, each tab is marked as its last setting says, flipped by every click behind it, and shown as its mark says, the MIDI tab only with MIDI. |
| TabStrip.ClickTwice | Remote/MilkwaveRemoteForm.cs:4316-4328 | A click flips the mark and shows the tab accordingly; two clicks leave the marks as they were. |
| TabStrip.SettingsTwice | Remote/MilkwaveRemoteForm.cs:2166-2192 | The same settings again change neither the tabs nor the menu marks. |
| TabStrip.SettingsAnyOrder | Remote/MilkwaveRemoteForm.cs:2166-2192 | Settings for different tabs may come in any order. |
| Fields.LastSetWins | Remote/MilkwaveRemoteForm.cs:1849-1900 | Every control ends up with the last acceptable value sent for it, or keeps its own. |
| Fields.LastFieldDecides | Remote/MilkwaveRemoteForm.cs:1849-1900 | The last field for a control gives it its value, or leaves what the fields before it have left when that is not acceptable. |
| Fields.ApplyTwice | Remote/MilkwaveRemoteForm.cs:1849-1900 | Applying a message twice is applying it once. |
| Fields.BadFieldIsolated | Remote/MilkwaveRemoteForm.cs:1849-1900 | A field with an unknown key or an unacceptable value changes nothing, wherever it stands. |
| Fields.AnyOrder | Remote/MilkwaveRemoteForm.cs:1971-2128 | Fields for different controls may come in any order. |
| Fields.PrintParseFields | Remote/MilkwaveRemoteForm.cs:2413-2434 | Fields printed as KEY=value and joined are taken apart as they were. |
| WaveProtocol.RoundTrip | Remote/MilkwaveRemoteForm.cs:2412-2434 | Parsing the printed WAVE message gives the sender's 21 controls, whatever the receiver showed, if and only if the colour panel, from which the colours are printed, shows the three components and they are whole, and the mode is whole (or the receiver already has it). |
| WaveProtocol.ShownFormSendsPanel | Remote/MilkwaveRemoteForm.cs:2276-2277 | An instance: as the form is shown its components are 255 and its panel is dark green, and 0, 200 and 0 arrive. |
| WaveProtocol.RunInStep | Remote/MilkwaveRemoteForm.cs:5389-5410 | After any run the panel has the colour of the components if and only if it had so before, or a component has changed or the colour dialog was used. |
| WaveProtocol.RoundTripAfter | Remote/MilkwaveRemoteForm.cs:2412-2434 | After any run in which that happened, the 21 controls arrive exactly if and only if components and mode are whole (or the receiver already has the mode). |
| WaveProtocol.InStepShows | Remote/MilkwaveRemoteForm.cs:5404-5410 | A panel in step shows the components exactly when they are whole. |
| WaveProtocol.MessageIsRun | Remote/MilkwaveRemoteForm.cs:1845-1901 | Receiving a message is a run of assignments, one for each acceptable field; they leave in the controls what the parser makes of the message. |
| WaveProtocol.FractionsDoNotArrive | Remote/MilkwaveRemoteForm.cs:2412-2418 | An instance: of a mode and a red component of 1.5 the mode does not arrive and the component arrives as 1. |
| WaveProtocol.ControlArrives | Remote/MilkwaveRemoteForm.cs:1845-1901 | What arrives in each control: of a colour the panel's component, a mode with a fraction is refused, everything else arrives digit for digit. |
| WaveProtocol.FieldLeaves | Remote/MilkwaveRemoteForm.cs:1849-1900 | What the last field for a control leaves in it: a number that is read and in range, or what was there; a check box is checked by 1 and unchecked by any other text. |
| WaveProtocol.PrintedFields | Remote/MilkwaveRemoteForm.cs:2412-2434 | The text of each field sent: a colour from the panel, a number as it is, 1 or 0 for a check box. |
| WaveProtocol.StaysInRange | Remote/MilkwaveRemoteForm.cs:1849-1900 | Whatever a message says, every number stays between its control's minimum and maximum. |
| WaveProtocol.WholeInRange | Remote/MilkwaveRemoteForm.cs:5404-5410 | Cutting off the fraction keeps a colour component between 0 and 255, and changes nothing exactly when there is none. |
| WaveProtocol.WaveTab.OnWaveMessage | Remote/MilkwaveRemoteForm.cs:1845-1901 | From any panel, the loop makes exactly the run of assignments of the acceptable fields, and sends nothing back although each assignment that changes a control raises its event. |
| WaveProtocol.WaveTab.Assign | Remote/MilkwaveRemoteForm.cs:5389-5410 | A change is echoed exactly when linked, no message is being applied or sent, and the pipe can send; a component that changes takes the panel along, anything else leaves it. |
| WaveProtocol.WaveTab.ColorChosen | Remote/MilkwaveRemoteForm.cs:3139-3154 | The colour dialog sets panel and components together and sends at most one message, because the handlers of the components are detached. |
| WaveProtocol.WaveTab.SendWaveInfo | Remote/MilkwaveRemoteForm.cs:4714-4718 | Sends the message printed from controls and panel unless one is being applied or sent or the pipe is closed. |
| SettingsSync.SettingsForm.OnSettingsMessage | Remote/MilkwaveRemoteForm.cs:1967-2133 | Applies the fields to controls and tabs, sends nothing, leaves the guard cleared, and makes After available exactly when the preset is neither locked nor changed with the song. The last field for a control leaves in it what its kind makes of the text (FieldLeaves). |
| SettingsSync.FieldLeaves | Remote/MilkwaveRemoteForm.cs:1971-2127 | By kind: a check box is checked by 1 only, a text is kept, a list shows the first item with that text or stays, a colour component is cut to a byte or its default, an index reaches its item, a number is taken, cut to the nearer end, or refused. |
| SettingsSync.TabFieldReaches | Remote/MilkwaveRemoteForm.cs:2123-2125 | A field SHOWTAB and a suffix is handed to the tab strip as the setting of that tab, and touches no control. |
| SettingsSync.SettingsForm.ApplyField | Remote/MilkwaveRemoteForm.cs:1971-2127 | One field sets its control, or its tab, or nothing. |
| SettingsSync.SettingsForm.Assign | Remote/MilkwaveRemoteForm.cs:7480-7499 | The lock and song events refresh the dependent controls even while a message is applied; only then does the guard stop them from sending. |
| SettingsSync.SettingsForm.UpdatePresetDependentControls | Remote/MilkwaveRemoteForm.cs:7508-7519 | Song is available unless locked, After unless locked or changing with the song. |
| SettingsSync.SettingsIdempotent | Remote/MilkwaveRemoteForm.cs:1967-2133 | A second delivery of the same message changes no control and no tab. |
| SettingsSync.SettingsAnyOrder | Remote/MilkwaveRemoteForm.cs:1967-2133 | Messages with the same fields for different controls and tabs lead to the same controls and tabs in any order. |
| SettingsSync.SettingsStayInRange | Remote/MilkwaveRemoteForm.cs:1967-2128 | Whatever a message says, every number, list index and colour component stays in its range. |
| SettingsSync.RefusedOrClamped | Remote/MilkwaveRemoteForm.cs:1985-2029 | A readable number always reaches a clamped control, itself or the end of the range on its side, however many digits it has; the quality refuses exactly the numbers out of its range. |
| SettingsSync.LargestMixTypeWraps | Remote/MilkwaveRemoteForm.cs:1997-2003 | The largest 32-bit transition type wraps around as one is added and selects the first item. |
| Numerals.PrintParse | Remote/MilkwaveRemoteForm.cs:2415-2426 | A decimal printed with the invariant culture is parsed back with its trailing zeros. |
| Numerals.PrintParseInt | Remote/MilkwaveRemoteForm.cs:1856-1864 | int.Parse accepts a printed decimal exactly when it has no fraction and fits 32 bits. |
| Numerals.ReadWithoutPoint | Remote/MilkwaveRemoteForm.cs:1856-1864 | A text without a point is read exactly when it is digits, as the number they write. |
| Numerals.ReadAtPoint | Remote/MilkwaveRemoteForm.cs:1856-1864 | A text cut at its first point is read exactly when both parts are digits and not both empty; the digits behind the point are the scale. |
| Numerals.ReadSigned | Remote/MilkwaveRemoteForm.cs:1856-1864 | A sign goes before, and a minus sign negates. |
| MixSwitches.RunSound | Remote/MilkwaveRemoteForm.cs:8207-8342 | While the pipe can send, on every run: no prefix of the messages asks for both inputs, each enable follows opacity, layer and luma key with at most the source in between, and the visualizer, replaying them with its own exclusion, mixes what the check boxes say. |
| MixSwitches.SyncedIff | Remote/MilkwaveRemoteForm.cs:8207-8342 | Once in step, the visualizer stays so over a run if and only if the pipe can send during every event that flips a check box; and then no prefix of the messages asks for both inputs. |
| MixSwitches.SyncedAfter | Remote/MilkwaveRemoteForm.cs:8207-8342 | After one event, whatever was sent or lost before: a box that is checked while the pipe can send brings the visualizer into step; one that is unchecked leaves it in step if and only if it does not mix the other input at that moment; an event that flips no box changes nothing; and a flip that is not sent takes it out of step. |
| MixSwitches.ResyncedIff | Remote/MilkwaveRemoteForm.cs:8207-8342 | After any run with any messages lost, one box that is checked and sent restores step, and every later run keeps it if and only if its flips can be sent. |
| MixSwitches.StepEffect | Remote/MilkwaveRemoteForm.cs:8207-8342 | What each event makes of the visualizer, nested handlers included, from any state of it and whether or not the messages get through. |
| MixSwitches.LostMessageLeavesVideo | Remote/MilkwaveRemoteForm.cs:8211-8252 | An instance: video is mixed, the change to spout is lost, spout is switched off; both boxes are unchecked and video is still mixed. |
| MixSwitches.OneAtMost | Visualizer/milkwave/plugin_inputmix.cpp:49-60 | Whatever is sent to it, the visualizer mixes at most one input. |
| MixSwitches.RequestsFollowed | Visualizer/milkwave/plugin_inputmix.cpp:145-156 | Messages that never ask for both inputs get what they ask for; the visualizer's own exclusion does not come into play. |
| MixSwitches.RunExclusive | Remote/MilkwaveRemoteForm.cs:8211-8214 | The two boxes exclude each other on every run, whether or not messages get through. |
| MixSwitches.RunPrepared | Remote/MilkwaveRemoteForm.cs:8216-8241 | On every run, whatever is lost, each enable that is sent follows opacity, layer and luma key with at most the source in between; what they say is the subject of MixSettings. |
| MixSwitches.EnablePrepared | Remote/MilkwaveRemoteForm.cs:8216-8241 | After the settings, source and enable may follow. |
| MixSwitches.StepControls | Remote/MilkwaveRemoteForm.cs:4653-4680 | Each event leaves its value in its own control and touches no other setting; a changed setting is one message if it can be sent. |
| MixSettings.CheckTellsAll | Remote/MilkwaveRemoteForm.cs:8216-8241 | A box that is checked while the pipe can send: its messages end in the enable, and then the visualizer knows opacity, layer, luma key and the selected source as the controls show them, whatever it was told or not told before. |
| MixSettings.StepKnown | Remote/MilkwaveRemoteForm.cs:8207-8362 | Every event that can be sent keeps the settings known; and it keeps the source known if and only if it is not a sender picked that the form takes for the last one announced while the visualizer has another. |
| MixSettings.SettingsStayKnown | Remote/MilkwaveRemoteForm.cs:4653-4680 | Over every run that can be sent, opacity, layer and luma key stay known. |
| MixSettings.KnownIff | Remote/MilkwaveRemoteForm.cs:8207-8362 | Over such a run the source stays known throughout if and only if no announcement is skipped like that. |
| MixSettings.PickedSenderNotTold | Remote/MilkwaveRemoteForm.cs:8344-8362 | An instance: sender B is picked while spout is off and told with the enable; back at A, announced before, nothing is sent, and the visualizer keeps B while the form shows A. |
| MixSwitches.MixForm.VideoMixCheckedChanged | Remote/MilkwaveRemoteForm.cs:8207-8259 | The handler, with the nested handler of the other box, sends exactly the specified messages. |
| MixSwitches.MixForm.SpoutMixCheckedChanged | Remote/MilkwaveRemoteForm.cs:8293-8342 | The same for the other box. |
| MixSwitches.MixForm.SetVideoMix | Remote/MilkwaveRemoteForm.cs:8207-8214 | Assigning the box raises its handler only on a change; the mutual calls terminate. |
| MixSwitches.MixForm.SetSpoutMix | Remote/MilkwaveRemoteForm.cs:8293-8300 | The same for the other box. |
| MixSwitches.MixForm.SpoutSenderSelected | Remote/MilkwaveRemoteForm.cs:8344-8362 | A sender is announced exactly when the box is checked, one is selected, it is not the last one announced here, and the pipe can send. |
| ButtonConfig.LoadedInStep | Remote/MilkwaveRemoteForm.cs:3579-3624 | With the defaults the program ships, for every store: loading again changes neither store nor configurations, a restart finds what the first start left, and memory is in step with the store. |
| ButtonConfig.DefaultsAreSafe | Remote/MilkwaveRemoteForm.cs:3445-3463 | The shipped defaults fit the read buffer and never set up a second migration, whatever is stored. |
| ButtonConfig.AssignedInStep | Remote/MilkwaveRemoteForm.cs:3355-3373 | Assigning any function of the catalog to any button, as left or right function, keeps memory and store in step: a restart shows it, and every other button as before. |
| ButtonConfig.ClearedInStep | Remote/MilkwaveRemoteForm.cs:3375-3384 | So does clearing a right-click function, which is stored as the word none. |
| ButtonConfig.RestartReproduces | Remote/MilkwaveRemoteForm.cs:3579-3624 | Being in step means that loading the store from the defaults gives back exactly the store and the configurations in memory. |
| ButtonConfig.FreshStart | Remote/MilkwaveRemoteForm.cs:3579-3624 | Without a file, or with an empty one, the buttons are the shipped ones. |
| ButtonConfig.PersistedIsRead | Remote/MilkwaveRemoteForm.cs:3386-3399 | Every caption and command the program writes is read back as it was, whatever the defaults; none of them is taken for a command or cut off. |
| ButtonConfig.LoadTwice | Remote/MilkwaveRemoteForm.cs:3579-3624 | The same for arbitrary defaults that fit the buffer: loading again leaves everything unchanged if and only if they do not set up a second migration. |
| ButtonConfig.RestartKeeps | Remote/MilkwaveRemoteForm.cs:3579-3624 | Under the same condition a restart finds what the first start left, for arbitrary defaults. |
| ButtonConfig.SecondMigration | Remote/MilkwaveRemoteForm.cs:3586-3594 | After loading, the migration would fire again exactly in that case. |
| ButtonConfig.NoneStays | Remote/MilkwaveRemoteForm.cs:3590-3593 | A migration leaves "none" with button 14, which was not there before. |
| ButtonConfig.LoadOneTwice | Remote/MilkwaveRemoteForm.cs:3596-3619 | One button loaded again: same stored values and same configuration, with what is in memory and with the defaults alike. |
| ButtonConfig.EscapeRoundTrip | Remote/MilkwaveRemoteForm.cs:3666-3669 | A caption survives escaping and unescaping if and only if it contains neither a literal backslash-n nor a backslash, r, line break. |
| ButtonConfig.StoredLeftIsRead | Remote/MilkwaveRemoteForm.cs:3386-3399 | A caption and command written by the program are read back as they were. |
| ButtonConfig.StoredRightIsRead | Remote/MilkwaveRemoteForm.cs:3386-3399 | Any right-click function that can be written as a value, a cleared one included, is read back as it was if and only if its caption neither starts like SEND= nor is SIGNAL. |
| ButtonConfig.ParseLeftTwice | Remote/MilkwaveRemoteForm.cs:3626-3636 | Reading a value twice is reading it once, and leaves the right-click part alone. |
| ButtonConfig.ParseRightTwice | Remote/MilkwaveRemoteForm.cs:3638-3664 | The same for the right-click value, legacy command-only values and none included. |
| ButtonConfig.ButtonPanel.LoadButtonConfiguration | Remote/MilkwaveRemoteForm.cs:3579-3624 | Every stored text is answered and left as it stands: of an old command without caption the button gets the command, with the caption in memory if the command is the default's; of the word none nothing; of any other text its parts. Without a file nothing is written. The old default of button 14 goes to button 11. Started from the shipped buttons, a restart shows the same. |
| ButtonConfig.LoadedButton | Remote/MilkwaveRemoteForm.cs:3602-3620 | One button, for every stored text: what its configuration becomes and what is written back. |
| ButtonConfig.RightIsAnswered | Remote/MilkwaveRemoteForm.cs:3638-3664 | What a right-click value makes of a button, by the shape of its text: none, a command alone, text without a bar, text around a bar. |
| ButtonConfig.LeftIsAnswered | Remote/MilkwaveRemoteForm.cs:3626-3636 | What a left value makes of a button: an empty part keeps what was there. |
| ButtonConfig.MoveAnswers | Remote/MilkwaveRemoteForm.cs:3586-3595 | After the migration button 11 answers to the moved text, and button 14 has no right-click function and is stored so. |
| ButtonConfig.MovedCommandKeepsCaption | Remote/MilkwaveRemoteForm.cs:3586-3595 | From the shipped buttons the moved command appears under the shipped caption, Borderless Fullscreen. |
| ButtonConfig.ButtonPanel.AssignCommandFunctionToButton | Remote/MilkwaveRemoteForm.cs:3355-3373 | Changes just the button's function and keeps memory and store in step; an index outside the buttons changes nothing. |
| ButtonConfig.ButtonPanel.ClearCommandFunctionFromButton | Remote/MilkwaveRemoteForm.cs:3375-3384 | Clears just the right-click function and keeps memory and store in step. |
| ButtonConfig.ButtonPanel.PersistButtonSetting | Remote/MilkwaveRemoteForm.cs:3386-3399 | Writes one value of one button, and nothing without a file. |
| ButtonConfig.ButtonPanel.MigrateBorderlessFullscreen | Remote/MilkwaveRemoteForm.cs:3586-3594 | Moves the old default only when button 14 holds it and button 11 holds nothing. |
| ButtonConfig.ButtonPanel.LoadButton | Remote/MilkwaveRemoteForm.cs:3596-3619 | One round writes a missing default back only if it may persist, and changes no other button. |
| KnobDebounce.RunKeeps | Remote/MilkwaveRemoteForm.cs:6457-6471 | The invariant holds in every interleaving of messages, expiring delays and turns of the UI thread. |
| KnobDebounce.OneWaiting | Remote/MilkwaveRemoteForm.cs:6460-6466 | At most one action of a controller is waiting, and it is its latest. |
| KnobDebounce.RunsInOrder | Remote/MilkwaveRemoteForm.cs:6457-6471 | Actions of one controller are carried out in the order they were scheduled, none twice, even when an expired one is still queued as the next is scheduled. |
| KnobDebounce.LatestNeverLost | Remote/MilkwaveRemoteForm.cs:6457-6471 | When everything has settled, the last action scheduled for a controller has been carried out, as its last. |
| KnobDebounce.Settles | Remote/MilkwaveRemoteForm.cs:6468-6471 | Letting delays run out and the UI thread catch up settles every reachable state. |
| KnobDebounce.LatestEventuallyRuns | Remote/MilkwaveRemoteForm.cs:6457-6471 | After any history these steps alone carry out the last action of every controller. |
| KnobDebounce.ShadowedRowCancelled | Remote/MilkwaveRemoteForm.cs:6454-6466 | Of two active rows with one channel and controller, the first one's action is cancelled by the second's in the same message. |
| KnobDebounce.ReceiveSchedules | Remote/MilkwaveRemoteForm.cs:6454-6475 | A message schedules one action with its value for each active row of its channel and controller, in row order, and leaves the earlier ones their rows and values. |
| Selections.KeptInOrder | Remote/MilkwaveRemoteForm.cs:6454-6458 | Selecting by a condition keeps exactly the elements that meet it, in their order. |
| KnobDebounce.MidiForm.ScheduleKnob | Remote/MilkwaveRemoteForm.cs:6459-6471 | Cancels the controller's pending action, then stores and starts the new one. |
| KnobDebounce.MidiForm.MidiMessageReceived | Remote/MilkwaveRemoteForm.cs:6452-6475 | The loop over the rows schedules the matching knob rows in order, triggers exactly the active rows whose note it is, in order, and keeps the invariant. |
| KnobDebounce.MidiForm.DelayExpired | Remote/MilkwaveRemoteForm.cs:6468-6471 | An expired delay queues its action unless it was cancelled. |
| KnobDebounce.MidiForm.RunQueuedAction | Remote/MilkwaveRemoteForm.cs:6468-6471 | The UI thread carries out the queue's first action. |
| PresetDeck.EveryInterleaving | Remote/MilkwaveRemoteForm.cs:7900-8098 | In every interleaving of user actions, pollers, time-outs and captures each deck entry was loaded or was requested for exactly its button and carries that button's thumbnail, and in preset mode the buttons show the current bank. |
| PresetDeck.StepJustified | Remote/MilkwaveRemoteForm.cs:7900-8098 | Each single step keeps this. |
| PresetDeck.StepWellformed | Remote/MilkwaveRemoteForm.cs:8069-8076 | Each step keeps the buttons in step with the deck, redrawing only what belongs to the current bank. |
| PresetDeck.BankBijection | Remote/MilkwaveRemoteForm.cs:7718-7723 | Bank and local button number the 45 entries one by one, and back. |
| PresetDeck.RequestServedIff | Remote/MilkwaveRemoteForm.cs:7942-8076 | A request survives if and only if, as it is made, no other background task still works for its button: exactly then every interleaving in which its own task comes to an end, without time-out or failure of its own and without a further request for the button, has put the requested preset there. |
| PresetDeck.EntryAfterRun | Remote/MilkwaveRemoteForm.cs:7900-8179 | After any interleaving a button holds an entry if and only if the last that happened to it was a capture, not an unassignment, or it was loaded with one and nothing happened to it; and that is the entry it holds. |
| PresetDeck.StepEntry | Remote/MilkwaveRemoteForm.cs:8060-8179 | One event: a capture puts its preset at its button, unassigning takes away the entry of the button that was clicked, nothing else touches an entry. |
| PresetDeck.AroundTheBanks | Remote/MilkwaveRemoteForm.cs:7642-7705 | Three changes of the bank, or two of the mode, lead back to the same deck with the same faces. |
| PresetDeck.LostForever | Remote/MilkwaveRemoteForm.cs:7956-8076 | Once nothing is pending for the button and the task has not begun its capture, no interleaving ever serves the request. |
| PresetDeck.RivalLosesRequest | Remote/MilkwaveRemoteForm.cs:7956-8015 | Where another task still works for the button, two of its steps lose the request for good: no interleaving behind them serves it. |
| PresetDeck.LockedTriesAgain | Remote/MilkwaveRemoteForm.cs:7977-8034 | A screenshot that stays locked is tried again with the preset pending by then; if the time is over first, the request is given up and the deck keeps its entries. |
| PresetDeck.CaptureCompletes | Remote/MilkwaveRemoteForm.cs:7956-8068 | Such a request can be completed after any of these interleavings: it has been, or the task's own remaining steps put exactly the requested preset at exactly this button. |
| PresetDeck.CommandFaces | Remote/MilkwaveRemoteForm.cs:7642-7648 | On every run, in command mode a button shows its own command unless a capture drew over it since the mode was changed. |
| PresetDeck.EarlierTimeoutDropsLaterRequest | Remote/MilkwaveRemoteForm.cs:8012-8015 | The time-out of an earlier request discards a later one for the same button, whose screenshot then goes unused. |
| PresetDeck.CaptureDrawsOverCommandButton | Remote/MilkwaveRemoteForm.cs:8073-8076 | A capture that ends after the panel went back to command mode draws over a command button. |
| PresetDeck.DeckForm.AssignCurrentPreset | Remote/MilkwaveRemoteForm.cs:7934-7953 | Records the request under the global index and starts its poller. |
| PresetDeck.DeckForm.UnassignPreset | Remote/MilkwaveRemoteForm.cs:8155-8179 | Removes exactly the entry of the clicked button of the current bank, which then shows its number; without an entry nothing changes. |
| PresetDeck.DeckForm.CycleBank | Remote/MilkwaveRemoteForm.cs:7697-7705 | Moves to the next of the three banks and redraws every button. |
| PresetDeck.DeckForm.CompleteAssignment | Remote/MilkwaveRemoteForm.cs:8060-8076 | The end of a capture writes the preset found pending at its start, under the button it was requested for. |
| PresetDeck.DeckForm.UpdatePresetDeckButtonAppearance | Remote/MilkwaveRemoteForm.cs:7802-7839 | A button shows the entry at its global index, or its number. |
| MidiBanks.BankBijection | Remote/MilkwaveRemoteForm.cs:6735-6736 | Row r of bank b is stored row (r-1)+5(b-1), a bijection onto the fifty rows. |
| MidiBanks.ShowWriteBack | Remote/MilkwaveRemoteForm.cs:6732-6768 | Showing a stored row and writing the controls back restores it if and only if it is canonical: a knob has a knob action and value 0, only a button has a text. |
| MidiBanks.KnobValueIsLost | Remote/MilkwaveRemoteForm.cs:6750-6754 | An instance: a knob row with a value, as a saved file may hold it, loses the value. |
| MidiBanks.WrittenIsCanonical | Remote/MilkwaveRemoteForm.cs:6732-6768 | When a knob has an action selected and nothing else has, the row written is canonical, whatever is edited, and writing it again changes nothing. |
| MidiBanks.EditedIsShown | Remote/MilkwaveRemoteForm.cs:6732-6814 | What is edited in the controls of a row is what the row shows once it has been written; a knob shows the value 0, and only a button its text. |
| MidiBanks.KnobActions | Remote/MilkwaveRemoteForm.cs:6491-6502 | The list of a knob offers exactly these twelve actions. |
| MidiBanks.SelectedIsActive | Remote/MilkwaveRemoteForm.cs:6609-6640 | Selecting an action checks the row and proposes the increment that goes with the action of the first bank's row. |
| MidiBanks.LabelLearned | Remote/MilkwaveRemoteForm.cs:6432-6434 | Learning names a row that has no label of the user's own, and learning again renames it. |
| MidiBanks.LearnedAnswers | Remote/MilkwaveRemoteForm.cs:6426-6451 | A row answers the message it has learned if and only if that was a knob's, or the row was no knob before, or the note is number 0: the row is written before its type is set. |
| MidiBanks.NoteLearnedOnKnobRow | Remote/MilkwaveRemoteForm.cs:6443-6444 | An instance: note 60, learned on a knob's row, is not answered, and note 0 is. |
| MidiBanks.LearnedKnobActs | Remote/MilkwaveRemoteForm.cs:6483-6506 | A knob learned while the box of actions already is a list, which is then not filled: the row has a knob's action if and only if one was selected or stored. |
| MidiBanks.MidiTab.MessageLearned | Remote/MilkwaveRemoteForm.cs:6426-6451 | A learned message shows its numbers, keeps a label of the user's own, writes just the row shown, then sets its type, and prepares the box of actions only if it is of the other kind; for a knob that selects the first action, which writes the row again. |
| MidiBanks.MidiTab.ShowMessage | Remote/MilkwaveRemoteForm.cs:6432-6443 | The texts are set one by one, with the event of the label in between, and the row is written with its old type. |
| MidiBanks.MidiTab.PopulateForKnob | Remote/MilkwaveRemoteForm.cs:6483-6506 | A box that is not a list yet becomes one with its first action selected, which raises the event; a list is left as it is unless forced. |
| MidiBanks.MidiTab.PopulateForButton | Remote/MilkwaveRemoteForm.cs:6508-6530 | The box loses its selection, and its text only if it was a list or this is forced. |
| MidiBanks.MidiTab.BankChanged | Remote/MilkwaveRemoteForm.cs:6674-6687 | Switching banks changes no stored row, shows the rows of the new bank, and ends learning. |
| MidiBanks.MidiTab.FillRowsFromData | Remote/MilkwaveRemoteForm.cs:6778-6814 | Every control is set in turn and raises its event, whose handlers could write; the cleared flag alone keeps all stored rows, and afterwards each visible row shows its own. |
| MidiBanks.MidiTab.FillRow | Remote/MilkwaveRemoteForm.cs:6783-6806 | One round: the controls end up showing the stored row, the box of actions refilled; for a row without a type it stays a list if it was one. |
| MidiBanks.MidiTab.SetControl | Remote/MilkwaveRemoteForm.cs:6787-6788 | A control that changes while the flag is cleared writes nothing. |
| MidiBanks.MidiTab.ActionSelected | Remote/MilkwaveRemoteForm.cs:6605-6644 | Selecting an action checks the row, proposes an increment and writes just the row shown; the increment is chosen by the row of the first bank, whatever bank is shown. |
| MidiBanks.MidiTab.UpdateRowData | Remote/MilkwaveRemoteForm.cs:6732-6768 | Writes one row of controls to the stored row of the current bank, and no other; the row written is canonical unless a knob has nothing selected; nothing at all while the controls are being filled. |
| MidiBanks.MidiTab.Update | Remote/MilkwaveRemoteForm.cs:6738-6766 | The assignments to the single fields make up the specified row. |
| MidiBanks.MidiTab.Edited | Remote/MilkwaveRemoteForm.cs:6728-6730 | An edit of a visible row changes just the row it stands for. |
| MidiBanks.MidiTab.SetLearn | Remote/MilkwaveRemoteForm.cs:6408-6418 | Checking a Learn box leaves only it checked, through the nested events; at most one box is ever checked. |
| MidiBanks.MidiTab.LearnChanged | Remote/MilkwaveRemoteForm.cs:6408-6418 | The handler of a checked box unchecks all others, that of an unchecked box changes nothing. |
| MidiBanks.MidiTab.GetLearningRowIndex | Remote/MilkwaveRemoteForm.cs:6580-6587 | The row that learns, if any. |
| TagFilter.UnionExactly | Remote/MilkwaveRemoteForm.cs:5181-5228 | A comma forms the union of two filters, for all filters, if and only if the preset carries no empty tag. |
| TagFilter.OrIsUnion | Remote/MilkwaveRemoteForm.cs:5185-5187 | The result for "f,g" is the union of the results, blanks and stray commas included. |
| TagFilter.EmptyTagBreaksUnion | Remote/MilkwaveRemoteForm.cs:5185-5187 | A filter of two commas around a space asks for the empty tag, which neither half does. |
| TagFilter.AndIsIntersection | Remote/MilkwaveRemoteForm.cs:5196-5208 | An ampersand between conjunctions forms the intersection. |
| TagFilter.MatchesConjunction | Remote/MilkwaveRemoteForm.cs:5196-5208 | Terms joined by ampersands are one filter that asks for all of them. |
| TagFilter.NotExactly | Remote/MilkwaveRemoteForm.cs:5211-5218 | An exclamation mark before a word forms the complement for every preset if and only if the word neither starts with a space nor is negated itself. |
| TagFilter.SpacedNegation | Remote/MilkwaveRemoteForm.cs:5211-5218 | An instance: a preset with just the tag matches both the tag and its negation with a space behind the mark. |
| TagFilter.FilteredInOrder | Remote/MilkwaveRemoteForm.cs:5191-5226 | The result lists exactly the matching entries, each once, in dictionary order. |
| TagFilter.MatchesIgnoresCase | Remote/MilkwaveRemoteForm.cs:5191-5226 | The case of a preset's tags makes no difference to any filter. |
| TagFilter.WordIgnoresCase | Remote/MilkwaveRemoteForm.cs:5191-5226 | A word matches exactly the presets that carry it as a tag, in whatever case. |
| TagFilter.ToggleOr | Remote/MilkwaveRemoteForm.cs:5114-5131 | Adding a tag to the filter adds what the tag alone matches, removing it takes away no more; sorting the tokens does not change what they mean. |
| TagFilter.ToggleAnd | Remote/MilkwaveRemoteForm.cs:5109-5131 | With the shift key, adding a tag to a conjunction restricts it by the tag, removing it frees it; a filter with commas is the subject of ToggleAndIff. |
| TagFilter.ToggleAndIff | Remote/MilkwaveRemoteForm.cs:5109-5131 | With the shift key on a list of words joined by commas, none of them the tag: every preset the list gave is restricted by the tag if and only if the list is a single word. |
| TagFilter.ToggleAndList | Remote/MilkwaveRemoteForm.cs:5109-5131 | What such a click means: exactly one word is restricted by the tag, the first or the last as the sort decides; all others still match alone. |
| TagFilter.ToggleAndFreesList | Remote/MilkwaveRemoteForm.cs:5109-5131 | An instance: the tag a on the list of b and z gives "a & b, z", which a preset with the tag z alone matches. |
| TagFilter.ToggleAndFirst | Remote/MilkwaveRemoteForm.cs:5109-5131 | With the shift key on an empty box the tag is the whole filter. |
| TagFilter.SaveShowSave | Remote/MilkwaveRemoteForm.cs:4961-4982 | Saving tags, showing them and saving again changes nothing, and no empty tag is ever stored. |
| TagFilter.FindPut | Remote/MilkwaveRemoteForm.cs:4961-4969 | Saving for one preset leaves the tags of all others. |
| TagFilter.TagForm.FilterTagEntries | Remote/MilkwaveRemoteForm.cs:5181-5228 | The two loops compute the specified list. |
| TagFilter.TagForm.AddOrRemoveTopTag | Remote/MilkwaveRemoteForm.cs:5100-5133 | Toggles the tag in the box and with the separator that the modifier keys choose, and leaves the other box alone. |
| TagFilter.TagForm.SaveTags | Remote/MilkwaveRemoteForm.cs:4934-4985 | Stores the tags so that the key finds them in whatever case, and every other key finds what it found before; keys stay distinct. |
| TagFilter.TagForm.UpdateTagsDisplay | Remote/MilkwaveRemoteForm.cs:4616-4621 | Shows the stored tags of the preset, or nothing. |
| TagLists.ToggleTwice | Remote/MilkwaveRemoteForm.cs:5114-5131 | Clicking a tag twice restores a sorted text without duplicates, for both separators. |
| TagLists.SortIsRight | Remote/MilkwaveRemoteForm.cs:5128 | Sorting gives an ordered list of the same tokens. |
| TagLists.SortedUnique | Remote/MilkwaveRemoteForm.cs:5128 | There is only one such list. |
| TagLists.PartsConcat | Remote/MilkwaveRemoteForm.cs:5185-5187 | The parts of two texts with a separator between them are the parts of both. |
| TagLists.TokensJoin | Remote/MilkwaveRemoteForm.cs:5115-5131 | Joined tokens come apart again. |
| TagLists.SavedIsRight | Remote/MilkwaveRemoteForm.cs:4972-4982 | What is stored: the lower-cased parts that are not blank, each once, in order. |
| TagLists.SaveTwice | Remote/MilkwaveRemoteForm.cs:4972-4982 | Saving what is shown for a preset stores the same tags. |
| TagCounts.TagButtons.GetTagsListSortedByCount | Remote/MilkwaveRemoteForm.cs:5054-5076 | The counting loops and the sort give the ranking: each stored tag once, with its multiplicity over all presets, strictly ordered by count descending, then name. |
| TagCounts.RankingUnique | Remote/MilkwaveRemoteForm.cs:5070-5075 | There is only one ranking. |
| TagCounts.RankingTotal | Remote/MilkwaveRemoteForm.cs:5054-5076 | No tag is listed twice and the counts add up to the number of stored tags. |
| TagCounts.TopTags | Remote/MilkwaveRemoteForm.cs:5008-5052 | A tag on none of the first six buttons is outranked by the tags on all of them. |
| TagCounts.TagButtons.SetTopTags | Remote/MilkwaveRemoteForm.cs:5008-5052 | The six buttons hold the first six of the ranking, or nothing. |
| TagCounts.CountedNext | Remote/MilkwaveRemoteForm.cs:5059-5067 | One more tag counts up its own entry only. |
| RtfBuilder.DecodeEscaped | Remote/Helper/RtfBuilder.cs:56-85 | A reader of escaped characters, \line and \uN (N modulo 65536, one fallback character) gets back the text without its carriage returns. |
| RtfBuilder.DecodeThen | Remote/Helper/RtfBuilder.cs:56-85 | This holds whatever follows the escaped text. |
| RtfBuilder.NothingLost | Remote/Helper/RtfBuilder.cs:69-70 | Only carriage returns are dropped. |
| RtfBuilder.DocumentIsOneGroup | Remote/Helper/RtfBuilder.cs:52-54 | For every text and both headers the document is one group: it is opened by the first character and closed by the last one, not before. |
| RtfBuilder.Builder.Build | Remote/Helper/RtfBuilder.cs:52-54 | Whatever was appended, the result is one group and its body reads back as what was appended. |
| RtfBuilder.Builder.Escape | Remote/Helper/RtfBuilder.cs:56-85 | The loop escapes the whole text. |
| RtfBuilder.Builder.AppendText | Remote/Helper/RtfBuilder.cs:29-32 | The body stays the escaped form of what was appended. |
| RtfBuilder.Builder.AppendLink | Remote/Helper/RtfBuilder.cs:34-39 | Appends a bullet and the caption. |
| RtfBuilder.Builder.AppendLine | Remote/Helper/RtfBuilder.cs:41-46 | Appends as many line breaks as asked for, none for a negative number. |
| RtfBuilder.Builder.AppendParagraphBreak | Remote/Helper/RtfBuilder.cs:48-50 | Appends two line breaks. |
| LinkSpans.SpansAreRight | Remote/MilkwaveInfoForm.cs:101-121 | The spans of a caption are in range, in order, disjoint and equal to the caption, and every occurrence in the text begins inside one of them. |
| LinkSpans.OnlyTheseSpans | Remote/MilkwaveInfoForm.cs:101-121 | They are the only list of spans with these properties. |
| LinkSpans.ClickOpensLink | Remote/MilkwaveInfoForm.cs:129-148 | A click on the first character of any occurrence of a usable caption opens a link, and this one unless an earlier one was found there. |
| LinkSpans.HighlightedIff | Remote/MilkwaveInfoForm.cs:101-127 | A link is highlighted if and only if neither its caption nor its address is blank and the caption occurs in the text. |
| LinkSpans.FirstLinkWins | Remote/MilkwaveInfoForm.cs:129-148 | Where several links overlap, the first in the list is opened. |
| LinkSpans.LookupCovered | Remote/MilkwaveInfoForm.cs:140-147 | A lookup finds a span exactly when one covers the position. |
| LinkSpans.InfoWindow.HighlightLink | Remote/MilkwaveInfoForm.cs:101-121 | The search loop terminates and adds exactly these spans; a blank caption or address adds none. |
| LinkSpans.InfoWindow.SetTextContent | Remote/MilkwaveInfoForm.cs:79-99 | The list holds the spans of all links in turn, and none from before. |
| LinkSpans.InfoWindow.TryGetLinkAtPoint | Remote/MilkwaveInfoForm.cs:129-148 | Returns the first span covering the position, and nothing for a position outside the text. |
| PipeFraming.Delivered | Remote/Helper/PipeClient.cs:132-243 | Whatever messages are sent and however the pipe cuts the bytes up, they arrive unchanged, in order, each once. |
| PipeFraming.AnyChunking | Remote/Helper/PipeClient.cs:207-236 | However a stream is cut into reads, exactly its messages are delivered and exactly its unterminated rest is kept. |
| PipeFraming.ChunkingSafeIff | Remote/Helper/PipeClient.cs:232-236 | No way of cutting up a stream loses data if and only if no message in it is longer than the limit. |
| PipeFraming.SentIsRead | Remote/Helper/PipeClient.cs:137-138 | Messages that are not empty and have no zero inside are read back from the bytes sent. |
| PipeFraming.DecodeEncode | Remote/Helper/PipeClient.cs:138 | The UTF-16 bytes of a message decode to it. |
| PipeFraming.MessagesAppend | Remote/Helper/PipeClient.cs:207-236 | Reading on from the kept rest gives what reading the whole stream gives. |
| PipeFraming.PipeClient.Receive | Remote/Helper/PipeClient.cs:207-236 | The scanning loop over the pending bytes does one read of the specification. |
| PipeFraming.PipeClient.ReadLoop | Remote/Helper/PipeClient.cs:187-237 | The loop over the reads does all of them. |
| ImageGeometry.PreviewFits | Remote/MilkwaveRemoteForm.cs:788-810 | The preview keeps the margins if and only if the target measures at least 19 pixels each way. |
| ImageGeometry.PreviewFills | Remote/MilkwaveRemoteForm.cs:788-810 | It is as large as it can be: one side fills the space, the other is in proportion up to half a pixel, and what is left over is shared equally. |
| ImageGeometry.CropInside | Remote/MilkwaveRemoteForm.cs:733-757 | The part of the image drawn on a button lies inside the image, in the middle of it, and one side is shown in full. |
| ImageGeometry.CropProportional | Remote/MilkwaveRemoteForm.cs:733-757 | The part drawn has the proportions of the button's content, up to half a pixel of the image or of the button. |
| ImageGeometry.NoPreview | Remote/MilkwaveRemoteForm.cs:788-810 | There is no preview if and only if one of the four sizes has no pixels. |
| ImageGeometry.ThumbnailProportional | Remote/MilkwaveRemoteForm.cs:8115-8117 | A screenshot larger than 640 by 360 is reduced until one side has that size, the other in proportion up to a pixel; a smaller one keeps its size. |
| ImageGeometry.ThumbnailInside | Remote/MilkwaveRemoteForm.cs:8105-8113 | The 16:9 crop lies inside the screenshot, in the middle, and cuts only what is at least five pixels too tall, to 9/16 of the width. |
| ImageGeometry.ThumbnailCapped | Remote/MilkwaveRemoteForm.cs:8115-8117 | The thumbnail is never larger than 640 by 360. |
| ImageGeometry.ThumbnailExists | Remote/MilkwaveRemoteForm.cs:8115-8117 | There is a thumbnail of at least one pixel each way if and only if the screenshot is at most 640 times as wide as high and is not a single column of five pixels or more. |
| ImageGeometry.NoThumbnail | Remote/MilkwaveRemoteForm.cs:8105-8117 | Instances at the border: 1 by 5 and 641 by 1 pixels give none, 1 by 4 and 640 by 1 do. |

## Left out

- Drawing, fonts, tooltips, status texts and designer code: user interface only.
- File system, process launch, audio, MIDI and screen capture devices: their answers are parameters or
  arbitrary; a write that fails is not modelled. Discovery and connection attempts answer arbitrarily.
- SpriteDefinitions: case folding is for ASCII letters, and so it is everywhere else; a string of the
  program is a sequence of UTF-16 units, here of characters except in PipeFraming and RtfBuilder.
- SpriteDefinitions.EditThenRead: lines and values have no line breaks inside in the program, since the file
  is read line by line and a path holds none; here they are characters like others.
- TagLists.SortIsRight: uses one total order of strings in place of the culture's comparison.
- Numerals.PrintParse: thousands separators, exponents, trailing signs and white space that .NET's parsers
  also accept in incoming numbers are not modelled, so such a text is refused here.
- PipeFraming.DecodeEncode: a lone surrogate, which .NET replaces, is passed on unchanged.
- WaveProtocol.WaveTab.Assign: assigning a number that differs only in trailing zeros counts as a change, of
  a component even of the panel.
- SettingsSync.SettingsForm.ApplyField: the 96-bit limit of decimals is left out, as everywhere else, and a
  number with an exponent, which the program accepts where it reads a decimal (NumberStyles.Float), is refused
  here.
- SettingsSync.SettingsForm.Assign: one guarded handler stands for the handlers of all controls; which
  message a control's own event sends is not modelled, only whether one is sent; the numeric events that
  adjust other controls on a user's change are left out.
- TabStrip.TabControl.Run: where the tab control moves its selection as pages come and go is arbitrary; what
  is proved is that it is valid afterwards. The message a menu click sends is left out.
- Autoplay.Timing: random line selection and lines whose commands change the schedule themselves are left
  out, and HandleScriptLine is an abstract action, because a line can refer to itself; the interval in
  milliseconds and its rounding are not modelled.
- Connection.ConnectionManager.ScanAndPopulateVisualizers: the texts in the list are left out; a selection
  by the program raises no event because the handler is detached for it.
- Connection.ConnectionManager.AutoScanTimer_Tick: the guard against a tick inside a tick and the closed
  form are left out; handlers run one after the other.
- Connection.ConnectionManager.Run: starting the program and launching a visualizer are left out up to the
  point where the launched instance is found or the wait ends.
- MixSwitches.SyncedIff: whether messages get through is decided once for a whole event, while in the program
  each of them may fail on its own.
- MixSwitches.OneAtMost: a device the visualizer cannot open, which leaves its input switched off, is left
  out.
- MixSwitches.RunSound: waiting times between messages are left out, and so are the events of the mix
  controls while a SETTINGS message is being applied, which send nothing.
- KnobDebounce.RunKeeps: messages in learning mode and what a button note triggers are left out; delays
  expire in any order, so wall-clock time is not modelled, nor is the effect of an action on its control.
- PresetDeck.DeckForm.UpdatePresetDeckButtonAppearance: a thumbnail file that is missing or cannot be read,
  for which the program shows the number, is left out; an entry always shows its picture.
- PresetDeck.EveryInterleaving: the search for the screenshot file is a poller that finds one at any time
  or times out, thumbnail files are their button's number, and waiting for a locked file ends in success or
  failure.
- ButtonConfig.LoadedInStep: the store is a table of values, changed by the program alone; removal of
  quotation marks by the Windows profile functions is left out, their limit of 255 characters is modelled.
- ButtonConfig.LoadTwice: defaults other than the shipped ones are required to fit that limit.
- MidiBanks.MidiTab.MessageLearned: emptying a box of actions raises no event; the suggestions read from a
  file and the texts of the knob actions are left out.
- TagFilter.TagForm.SaveTags: shortening the preset path is left out; the path is stored as given.
- TagCounts.TagButtons.SetTopTags: captions and tooltips of the buttons are left out.
- ImageGeometry.PreviewFits: float and double numbers are real, so rounding errors of a pixel are not
  modelled; nor is resampling.
- RtfBuilder.Builder.Build: the link colour prefixes, which the builder stores and never uses, are left out.
- LinkSpans.InfoWindow.SetTextContent: what the text box displays for an RTF text is a parameter.
- RemoveParam, shader conversion, scripts, lyrics, network pairing and the TCP framing are left out.
