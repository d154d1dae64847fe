# Photobooth core, modelled in Dafny

This project models the core of an unattended photobooth kiosk. A live camera preview
feeds a touchscreen UI. On a trigger the booth runs a countdown, fires a flash and
captures one or more stills from a webcam or a tethered Canon EOS DSLR, then composes
them into a printable layout.

The model covers:

- **Screens**: the screen state machine (`screens/screen_manager.py`) and the
  layout-selection, countdown, photo and settings screens.
- **Session state**: the per-shoot session (`utils/session_manager.py`).
- **Layouts**: the layout catalogue and the layout composer.
- **Settings**: the settings store.
- **Camera handlers**: the gphoto2 EOS, webcam and focus-GUI camera handlers. This
  includes their start/stop live-view protocol, their worker loops and their
  capture-target configuration.
- **Canon camera over the gphoto2 command line**: the camera itself, the parsing of
  the output of its `--capture-movie=1` recording, and the MJPEG stream reader of
  `cam-test2.py`.
- **Logging**: the JSON-lines logger with daily files and size-based rotation.
- **Drawing**: the text wrapper, the live-preview crop, and the image and GL
  coordinate helpers.

There is one Dafny module per source file, plus three support modules:

- `Common`: shared value types (Option, byte, Rect, context values, events, switch
  requests);
- `TextUtil`: ASCII lower-casing, stripping, decimal and hexadecimal digits;
- `Cv2`: a scripted `cv2.VideoCapture`.

Objects whose fields the program updates in place are classes. Their methods state
the new state either field by field or as `State() == F(old(State()), …)` for a
specification function `F`. The lemmas about `F` state what the program promises
over whole runs. Hardware and library outcomes are method parameters: whether a
preview, capture, read, rename or file write succeeds, what gphoto2 printed, and
which rectangle a touch hits. An exception that escapes a method the program does
not catch is an explicit outcome (`Raised`, or a `raised` flag).

In these places the model follows the code as written:

- The photo screen asks for the next photo while `photo_index < 3`, a hard-coded
  three. It does not compare against `total_photos`. The context it passes on holds
  only `photo_index` and `polaroids`.
- The countdown screen does not step through named phases. It is a count/timer
  machine: it shows 4, 3, 2, 1 and tries a capture from the fourth expiry on. It
  captures through its own `cv2.VideoCapture(0)`, not through the live-capture
  handler.
- The layout-selection screen always asks for four photos for a collage and one for
  a single. It does not read a slot count from the layout.

## Model

| member | source | states |
|---|---|---|
| ScreenManager.Manager.constructor | screens/screen_manager.py:5-7 | no screens registered, no current screen, no calls made |
| ScreenManager.Manager.AddScreen | screens/screen_manager.py:9-11 | registers or overwrites exactly one name; every other registration, the current screen and the call trace are unchanged |
| ScreenManager.Manager.SetInitialScreen | screens/screen_manager.py:13-19 | succeeds exactly when the name is registered; it then becomes current and is entered with an empty context; otherwise (ValueError) nothing changes |
| ScreenManager.Manager.SwitchTo | screens/screen_manager.py:21-31 | an unknown name changes nothing; otherwise on_exit of the old screen (if any) comes strictly before on_enter(context) of the new one, which becomes current |
| ScreenManager.Manager.HandleEvent | screens/screen_manager.py:33-36 | the event reaches only the current screen; a switch it requests is then carried out exactly as SwitchTo; without a current screen nothing happens |
| ScreenManager.Manager.Update | screens/screen_manager.py:38-41 | dt reaches only the current screen, followed by the switch it requests |
| ScreenManager.Manager.Draw | screens/screen_manager.py:43-46 | only the current screen draws; the registry and the current screen are unchanged |
| ScreenManager.Manager.Exit | screens/screen_manager.py:48-51 | exactly one final on_exit, on the current screen if there is one |
| SessionManager.AddedAllAppends | utils/session_manager.py:40-43 | after any run of add_polaroid calls the list is the old list followed by the new polaroids in order, and nothing else in the session changed |
| SessionManager.SessionProgress | utils/session_manager.py:33-53 | a session started for n photos is complete exactly when at least n polaroids were added; the count is the number added and the next index is one past it |
| SessionManager.SessionManager.constructor | utils/session_manager.py:17-22 | a fresh session is the cleared one |
| SessionManager.SessionManager.ResetSession | utils/session_manager.py:24-31 | inactive, no layout, total 0, nothing captured, no final path |
| SessionManager.SessionManager.StartSession | utils/session_manager.py:33-38 | a fresh active session for the layout and total, whatever came before |
| SessionManager.SessionManager.AddPolaroid | utils/session_manager.py:40-43 | the polaroid is appended and nothing else changes |
| SessionManager.SessionManager.IsComplete | utils/session_manager.py:45-46 | true exactly when at least the expected number of photos was captured |
| SessionManager.SessionManager.GetPhotoCount | utils/session_manager.py:48-49 | the number of captured polaroids |
| SessionManager.SessionManager.GetCurrentIndex | utils/session_manager.py:51-53 | the 1-based index of the next photo |
| SessionManager.SessionSingleton.constructor | utils/session_manager.py:10 | no instance yet |
| SessionManager.SessionSingleton.Construct | utils/session_manager.py:10-22 | the first call creates and resets the single instance; later calls return that same instance with its session untouched |
| LayoutManager.IdMapDefined | utils/layout_manager.py:37 | the id map can be built exactly when every layout carries an id |
| LayoutManager.IdMapLastWins | utils/layout_manager.py:37 | with duplicate ids the map keeps the last layout in list order, i.e. it agrees with the reference lookup on the list |
| LayoutManager.LastWithIdSpec | utils/layout_manager.py:50-52 | the reference lookup yields l exactly when l has the id and no later layout does |
| LayoutManager.LoadedParsed | utils/layout_manager.py:31-44 | a parsed file whose layouts all carry ids is loaded whole and in order; one layout without an id empties both list and map |
| LayoutManager.LayoutManager.constructor | utils/layout_manager.py:15-23 | the new catalogue is the load of the file, and the map is the id map of the list |
| LayoutManager.LayoutManager.LoadLayouts | utils/layout_manager.py:25-44 | a missing file changes nothing; an unreadable or unparsable file, or any layout without an id, leaves list and map empty; otherwise the file's layouts and their id map |
| LayoutManager.LayoutManager.GetLayout | utils/layout_manager.py:50-52 | the last layout in the list with that id, or None when no layout has it |
| LayoutManager.LayoutSingleton.constructor | utils/layout_manager.py:8 | no instance yet |
| LayoutManager.LayoutSingleton.Construct | utils/layout_manager.py:8-18 | the first call builds and loads the single instance; later calls return it without reloading |
| LayoutComposer.PastesAreSuccessfulSlots | utils/layout_composer.py:49-73 | slots are visited once each, in order; a failing slot skips only itself; the j-th paste comes from the j-th successful slot |
| LayoutComposer.SucceededIncreasing | utils/layout_composer.py:49-73 | the successful slots are listed in strictly increasing order, each once |
| LayoutComposer.SlotOutcome | utils/layout_composer.py:55-73 | a slot fails exactly when its photo cannot be opened, a key is missing, or its width or height is 0 or less; otherwise the photo is pasted at the slot's position and size |
| LayoutComposer.SucceededExactly | utils/layout_composer.py:55-73 | a slot is among the successful ones exactly when processing it does not raise, a slot without area counting as raising |
| LayoutComposer.OnePhotoPerSlot | utils/layout_composer.py:49-70 | with enough photos, all readable, and every slot complete with positive sides, slot i holds photo i at the slot's position and size |
| LayoutComposer.PhotosUsed | utils/layout_composer.py:49-54 | only the first min(slots, photos) photos are used, and once photos run out every later slot reuses the last one |
| LayoutComposer.Join | utils/layout_composer.py:78 | the directory, then exactly one separator where needed, then the file name |
| LayoutComposer.LayoutComposer.constructor | utils/layout_composer.py:11-16 | keeps the output directory and the shared layout catalogue |
| LayoutComposer.LayoutComposer.Compose | utils/layout_composer.py:18-83 | None for an empty photo list or an unknown layout; raises before any slot for a negative canvas size; otherwise a canvas of the layout's size (1800x1200 by default) holding the pastes of all successful slots, saved under output_dir/composed_{mode}_{timestamp}.jpg, whose path is returned, or raises when saving fails |
| PhotoScreen.FlashAlphaFades | screens/photo_screen.py:100-107 | the flash is 255 at the start, stays in [0, 255], never brightens, and is 0 from the fade duration on |
| PhotoScreen.FallParamClamped | screens/photo_screen.py:150-152 | the fall parameter is in [0, 1] and reaches 1 exactly at the fall duration |
| PhotoScreen.TargetSlotsInARow | screens/photo_screen.py:124-142 | consecutive slots sit one shrunk width plus the gap apart on one row, and the row of three is centred to within a pixel |
| PhotoScreen.CentredPolaroid | screens/photo_screen.py:82-85 | the captured polaroid starts centred to within a pixel |
| PhotoScreen.PhasesOnlyAdvance | screens/photo_screen.py:109-181 | phases only move forward: flash, hold, fall, done |
| PhotoScreen.CameraProtocol | screens/photo_screen.py:54-97 | the first update after on_enter calls stop_continuous, take_photo, start_continuous (even without a photo), then get_latest_image; later updates only poll; the capture restarts the timeline |
| PhotoScreen.DoneHandsOver | screens/photo_screen.py:183-200 | once done, the countdown is asked for the next photo exactly while the index is below 3, with index + 1 and the list grown by the polaroid, which is appended only once |
| PhotoScreen.CapturesOncePerEntry | screens/photo_screen.py:58-91 | however many updates follow an on_enter, exactly one take_photo and one stop_continuous reach the handler |
| PhotoScreen.LaterUpdatesOnlyPoll | screens/photo_screen.py:58-97 | after the capture every update only asks for the latest image |
| PhotoScreen.PhotoScreen.constructor | screens/photo_screen.py:17-45 | the freshly constructed screen state |
| PhotoScreen.PhotoScreen.HandleEvent | screens/photo_screen.py:47-52 | space, escape, a touch or a click request the main screen; anything else requests nothing |
| PhotoScreen.PhotoScreen.Update | screens/photo_screen.py:54-200 | the new state and switch request are those of the update specification function |
| PhotoScreen.PhotoScreen.FallStep | screens/photo_screen.py:148-181 | one fall step: the timer advances and the fall ends once its parameter reaches 1 |
| PhotoScreen.PhotoScreen.Capture | screens/photo_screen.py:57-94 | captures only when not yet captured: stop, take, resume, restart the timeline; a returned photo becomes the centred polaroid |
| PhotoScreen.PhotoScreen.AdvancePhase | screens/photo_screen.py:109-146 | flash goes to hold after the fade, hold goes to fall after the hold time, aimed at the photo's slot |
| PhotoScreen.PhotoScreen.Finish | screens/photo_screen.py:183-200 | the polaroid joins the list once; before the third photo the next countdown is requested |
| PhotoScreen.PhotoScreen.OnEnter | screens/photo_screen.py:219-230 | re-arms capture and flash and takes index and list from the context |
| PhotoScreen.PhotoScreen.OnExit | screens/photo_screen.py:232-242 | drops the screen's list; the current polaroid is kept |
| CountdownScreen.Ticked | screens/countdown_screen.py:35-41 | the count drops by one exactly when the timer runs out, and the timer then restarts at one second whatever the overshoot; otherwise the timer just loses dt and stays positive |
| CountdownScreen.CountIsExpiries | screens/countdown_screen.py:37-41 | after any run of updates the count has dropped by exactly the number of expiries |
| CountdownScreen.FiresFromFourthExpiry | screens/countdown_screen.py:39-43 | from a fresh screen an update tries to capture exactly when it brings the fourth expiry or a later one |
| CountdownScreen.DisplayedDigits | screens/countdown_screen.py:78-83 | a fresh screen shows 4, 3, 2, 1 between expiries and nothing from the fourth expiry on |
| CountdownScreen.CountdownScreen.constructor | screens/countdown_screen.py:13-19 | count 3 and a full one-second timer |
| CountdownScreen.CountdownScreen.Update | screens/countdown_screen.py:35-76 | the timer follows Ticked; a capture flushes the warm-up reads, keeps the next frame and releases the device; a failed read switches nothing, a good one is saved and shown on the preview screen |
| LayoutSelectionScreen.LookFor | screens/layout_selection_screen.py:109-136 | an option is drawn active exactly when it is the one selected, and Next exactly when something is selected |
| LayoutSelectionScreen.ConfirmCounts | screens/layout_selection_screen.py:149-167 | confirming any mode asks the countdown for that mode with exactly the keys mode and total_photos, one photo exactly for 'single' and four otherwise; there is no selection exactly when there was none and no option was hit |
| LayoutSelectionScreen.LayoutSelectionScreen.constructor | screens/layout_selection_screen.py:35-93 | nothing selected and every widget inactive |
| LayoutSelectionScreen.LayoutSelectionScreen.UpdateUiState | screens/layout_selection_screen.py:109-147 | the widgets show the current selection |
| LayoutSelectionScreen.LayoutSelectionScreen.HandleEvent | screens/layout_selection_screen.py:149-168 | option 1 selects single and option 2 collage (option 2 wins when both are hit); Next with a selection requests the countdown with its mode and photo count |
| LayoutSelectionScreen.LayoutSelectionScreen.OnEnter | screens/layout_selection_screen.py:192-195 | the selection is cleared and the widgets dimmed |
| GpuSelector.FirstHit | ui/gpu_selector.py:63-69 | the first option the press hits, or None exactly when it hits none |
| GpuSelector.RowsDisjoint | ui/gpu_selector.py:38-53 | the main button and the option rows never overlap, so one press hits at most one |
| GpuSelector.Selector.constructor | ui/gpu_selector.py:8-34 | collapsed, showing the given value, with one row per option below the main button |
| GpuSelector.Selector.CreateOptions | ui/gpu_selector.py:36-53 | one rectangle per option, each one row pitch below the previous |
| GpuSelector.Selector.HandleEvent | ui/gpu_selector.py:55-70 | a click on the main button toggles the list; while expanded the first option hit becomes the value and collapses it; anything else is unhandled and changes nothing |
| GpuSelector.Selector.Drawn | ui/gpu_selector.py:75-80 | the main button first, then the option rows only while expanded |
| SettingsScreen.ButtonsDisjoint | screens/settings_screen.py:46-61 | Apply and Cancel do not overlap |
| SettingsScreen.SettingsScreen.constructor | screens/settings_screen.py:15-43 | the dropdown offers webcam and dslr and starts at camera_type, or webcam when unset |
| SettingsScreen.SettingsScreen.HandleEvent | screens/settings_screen.py:63-83 | an event the dropdown handles goes no further; Cancel returns to the main screen; Apply stores camera_type, saves (the file then as save leaves it), runs the callback and returns to the main screen |
| SettingsManager.MergedKeys | utils/settings_manager.py:26-27 | a key is present after a load exactly when it was before or the file has it; keys the file lacks keep their value; a key the file has takes its last value in the file |
| SettingsManager.DefaultsSurvive | utils/settings_manager.py:25-27 | every default key survives any load |
| SettingsManager.SaveOverwrites | utils/settings_manager.py:35-41 | once save has opened the file its old content is gone whatever the dump does; the file holds settings after a save exactly when the dump completed, or the open failed over a file that held them |
| SettingsManager.SetThenGet | utils/settings_manager.py:43-47 | get after set gives the value set, and no other key changes |
| SettingsManager.SettingsManager.constructor | utils/settings_manager.py:15-18 | the defaults, then the load of the file |
| SettingsManager.SettingsManager.Load | utils/settings_manager.py:20-33 | a missing file is written from the current settings, as save leaves it; an unreadable one changes nothing; otherwise the file's items are merged in file order |
| SettingsManager.SettingsManager.Save | utils/settings_manager.py:35-41 | the settings never change; the file holds them after a complete dump, is untouched when the open fails, and is left emptied or cut short when the dump fails after the open |
| SettingsManager.SettingsManager.Get | utils/settings_manager.py:43-44 | the stored value, or the default exactly when the key is absent |
| SettingsManager.SettingsManager.Set | utils/settings_manager.py:46-47 | only that key changes, and the file is not written |
| CameraConfig.FirstInternal | cameras/gphoto2_eos_camera_handler.py:190-196 | the first choice containing "internal", or None exactly when no choice does |
| CameraConfig.SavedOnce | cameras/gphoto2_eos_camera_handler.py:188-189 | a second _set_config keeps the original capture target remembered by the first |
| CameraConfig.SelectThenRestore | cameras/gphoto2_eos_camera_handler.py:182-215 | _set_config then _reset_config leaves the target at its original value with nothing remembered, having sent the internal choice and then the original |
| CameraConfig.RestoreIdle | cameras/gphoto2_eos_camera_handler.py:209-215 | _reset_config with nothing remembered changes nothing and never raises |
| CameraConfig.RejectedRestoreRetries | cameras/gphoto2_eos_camera_handler.py:209-215 | a _reset_config the camera rejects keeps the original remembered, so the next accepted one restores it as if the first had not happened |
| CameraConfig.RejectedSelectRestores | cameras/gphoto2_eos_camera_handler.py:185-196 | a _set_config the camera rejects still remembers the original, so an accepted _reset_config puts it back and sends it |
| CameraConfig.CameraConfig.constructor | cameras/gphoto2_eos_camera_handler.py:24-25 | the camera's configuration with no original remembered |
| CameraConfig.CameraConfig.SetConfig | cameras/gphoto2_eos_camera_handler.py:182-204 | remembers the original once and selects the first internal choice; raises exactly when the camera rejects sending it, and otherwise reports false exactly for a RAW image format |
| CameraConfig.CameraConfig.ResetConfig | cameras/gphoto2_eos_camera_handler.py:206-215 | puts the remembered original back, sends it and forgets it; when the camera rejects it, raises and keeps it remembered |
| Gphoto2Handler.WorkerStartedOnce | cameras/gphoto2_eos_camera_handler.py:86-93 | over any sequence of operations the worker has been started exactly when running is set, at most once, and running is never cleared |
| Gphoto2Handler.RefusedAfterStart | cameras/gphoto2_eos_camera_handler.py:108-132 | after a successful start_continuous every later one_shot is refused, whatever happens in between |
| Gphoto2Handler.WorkerStepOutcome | cameras/gphoto2_eos_camera_handler.py:64-71 | a live worker step stores a good preview as the latest image; a GPhoto2Error switches live view off; an undecodable preview kills the worker with running still set; both keep the previous image |
| Gphoto2Handler.LatestOnlyFromWorker | cameras/gphoto2_eos_camera_handler.py:101-106 | the latest image changes only through a successful live worker step |
| Gphoto2Handler.DeadWorkerIsFinal | cameras/gphoto2_eos_camera_handler.py:59-93 | once the worker has died, running stays set over any later operations, so no worker is started again, one_shot is refused, and the latest image never changes |
| Gphoto2Handler.EosCameraHandler.constructor | cameras/gphoto2_eos_camera_handler.py:12-25 | idle: not running, not live, no latest image, nothing remembered |
| Gphoto2Handler.EosCameraHandler.StartContinuous | cameras/gphoto2_eos_camera_handler.py:82-93 | raises exactly when _set_config raises; when _set_config raises or returns false no flag changes; otherwise live view is on and the worker is started unless already running |
| Gphoto2Handler.EosCameraHandler.StopContinuous | cameras/gphoto2_eos_camera_handler.py:95-99 | only live view is switched off |
| Gphoto2Handler.EosCameraHandler.GetLatestImage | cameras/gphoto2_eos_camera_handler.py:101-106 | the stored latest image, without changing anything |
| Gphoto2Handler.EosCameraHandler.DoPreview | cameras/gphoto2_eos_camera_handler.py:148-180 | a good preview is returned; a GPhoto2Error switches live view off and returns None; an undecodable one raises with nothing changed |
| Gphoto2Handler.EosCameraHandler.OneShot | cameras/gphoto2_eos_camera_handler.py:108-120 | refused while running; raises when _set_config raises; None for a RAW format; otherwise exactly one preview, with its outcome |
| Gphoto2Handler.EosCameraHandler.TakePhoto | cameras/gphoto2_eos_camera_handler.py:122-132 | refused while running; otherwise the capture target is restored before the capture (raising when the camera rejects that), then the image is returned, None after a GPhoto2Error, or the decode error raised |
| Gphoto2Handler.EosCameraHandler.ShutDown | cameras/gphoto2_eos_camera_handler.py:134-144 | the worker is told to stop and the capture target restored; the camera is released unless restoring raised |
| Gphoto2Handler.EosCameraHandler.WorkerStep | cameras/gphoto2_eos_camera_handler.py:59-78 | only a started, not stopped, living worker iterates; while live it takes a preview and stores a good one; a decode error ends the worker for good |
| WebcamHandler.WebcamHandler.constructor | cameras/webcam_camera_handler.py:12-23 | no device, not running, not live, no frame |
| WebcamHandler.WebcamHandler.StartContinuous | cameras/webcam_camera_handler.py:57-76 | a device is opened only when none is open; live view is switched on even if opening failed; the worker starts unless it runs |
| WebcamHandler.WebcamHandler.StopContinuous | cameras/webcam_camera_handler.py:78-82 | only live view is switched off |
| WebcamHandler.WebcamHandler.GetLatestImage | cameras/webcam_camera_handler.py:84-89 | None until the worker has stored a frame, then the latest one |
| WebcamHandler.WebcamHandler.WorkerStep | cameras/webcam_camera_handler.py:29-53 | a live worker with an open device reads one frame and stores it only if the read succeeded; in every other case nothing changes |
| WebcamHandler.WebcamHandler.TakePhoto | cameras/webcam_camera_handler.py:91-108 | with an open device five frames are flushed and the sixth read is returned if it succeeded; without one nothing is read and None returned |
| WebcamHandler.WebcamHandler.ShutDown | cameras/webcam_camera_handler.py:110-123 | the stop event is set and the device, if any, released |
| FocusCameraHandler.StreamEmitsInOrder | focus-gui.py:98-116 | while previews succeed each do_next emits its image, in order, and posts exactly one more do_next |
| FocusCameraHandler.ErrorEndsStream | focus-gui.py:118-125 | a preview error stops the stream: after the last posted do_next the target is restored and nothing more is emitted or posted |
| FocusCameraHandler.ToggleOnOff | focus-gui.py:76-84 | continuous twice from idle starts and then only stops the stream; the next do_next restores the original target |
| FocusCameraHandler.RawFormatRefused | focus-gui.py:66-84 | with a RAW format neither continuous nor one_shot starts anything or emits |
| FocusCameraHandler.FocusCameraHandler.constructor | focus-gui.py:27-36 | idle, with nothing emitted or posted |
| FocusCameraHandler.FocusCameraHandler.DoPreview | focus-gui.py:118-127 | a preview error stops the stream; an image is emitted |
| FocusCameraHandler.FocusCameraHandler.DoContinuous | focus-gui.py:105-116 | when stopped the target is restored and nothing is posted; otherwise one preview and one more do_next |
| FocusCameraHandler.FocusCameraHandler.OneShot | focus-gui.py:66-74 | nothing while running; otherwise configure and take one preview unless the format is RAW |
| FocusCameraHandler.FocusCameraHandler.Continuous | focus-gui.py:76-84 | while running only clears running; otherwise configures and, unless RAW, starts the stream with a first preview |
| FocusCameraHandler.FocusCameraHandler.TakePhoto | focus-gui.py:86-91 | nothing while running; otherwise restores the target and captures |
| FocusCameraHandler.FocusCameraHandler.ShutDown | focus-gui.py:93-96 | the stream is stopped and the target restored |
| Gphoto2Camera.NewlineFrom | cameras/gphoto2_eos_camera.py:107 | the first newline at or after k, or None exactly when there is none |
| Gphoto2Camera.FirstMatch | cameras/gphoto2_eos_camera.py:107 | the leftmost position where the save-path pattern matches, or None exactly when it matches nowhere |
| Gphoto2Camera.SavePathChoice | cameras/gphoto2_eos_camera.py:104-110 | the leftmost report is used, and the target path when there is none |
| Gphoto2Camera.MarkerMatches | cameras/gphoto2_eos_camera.py:107 | gphoto2's "Saving file as " matches the case-insensitive marker |
| Gphoto2Camera.ReportedPath | cameras/gphoto2_eos_camera.py:104-110 | a report at the start of the output yields its path, stripped, whatever follows |
| Gphoto2Camera.EmptyReportIgnored | cameras/gphoto2_eos_camera.py:107 | a marker with nothing after it on its line is no report |
| Gphoto2Camera.EosCamera.constructor | cameras/gphoto2_eos_camera.py:22-26 | not ready, 640x480 |
| Gphoto2Camera.EosCamera.Start | cameras/gphoto2_eos_camera.py:31-69 | ready exactly when auto-detect succeeded and printed "Canon"; an error outside the three caught ones raises and leaves readiness as it was |
| Gphoto2Camera.EosCamera.ReadFrame | cameras/gphoto2_eos_camera.py:71-174 | nothing when not ready or when recording fails; otherwise the non-empty image read from the reported path, which also sets the resolution |
| Gphoto2Camera.EosCamera.Release | cameras/gphoto2_eos_camera.py:177-181 | no longer ready; releasing again changes nothing |
| JpegReader.FindPair | cam-test2.py:84-101 | a pair it finds has the code, at or after the start |
| JpegReader.FindPairFirst | cam-test2.py:84-101 | the first such pair, and None only when there is none |
| JpegReader.ReadJpeg | cam-test2.py:80-110 | the frame and consumed count are those of the two-byte scan |
| JpegReader.Truncated | cam-test2.py:91-110 | a scan that meets a single trailing byte returns nothing |
| JpegReader.Complete | cam-test2.py:94-97 | a scan that stops at an EOI returns SOI through that EOI |
| JpegReader.Exhausted | cam-test2.py:86-89 | a scan reaching the end of an even stream returns what it collected |
| JpegReader.FrameShape | cam-test2.py:94-103 | the output is empty or begins with SOI, and has even length |
| JpegReader.FrameStopsAtFirstEoi | cam-test2.py:94-97 | with an SOI and a later EOI the output is a complete image ending at the first EOI |
| JpegReader.ReadsBackImage | cam-test2.py:84-103 | a complete image is read back exactly, whatever follows, and the next read starts right after it |
| JpegReader.TrailingOddByte | cam-test2.py:86-110 | a trailing odd byte is harmless after a complete image and discards the frame otherwise |
| LivePreview.Crop | ui/live_preview.py:26-39 | a frame wider than the display keeps its full height and loses equal sides; any other keeps its full width and loses equal top and bottom |
| LivePreview.WideCropFits | ui/live_preview.py:30-33 | the full-height crop of a wider frame is narrower than the frame |
| LivePreview.TallCropFits | ui/live_preview.py:34-39 | the full-width crop of any other frame is no taller than the frame |
| LivePreview.CropInside | ui/live_preview.py:26-39 | the crop lies inside the frame and is centred in it to within a pixel |
| LivePreview.LivePreview.constructor | ui/live_preview.py:13-24 | the display size and ratio, and no texture |
| LivePreview.LivePreview.Update | ui/live_preview.py:41-73 | None changes nothing; a new frame size is tracked and, at height 0, raises ZeroDivisionError with nothing else changed; otherwise it gets a fresh crop and texture (a failed creation drops the frame); the frame is uploaded only into a live texture |
| LivePreview.LivePreview.Draw | ui/live_preview.py:75-88 | nothing exactly when there is no texture; otherwise the crop drawn at (x, y), by default over the whole display |
| LivePreview.LivePreview.Release | ui/live_preview.py:90-94 | the texture is dropped and nothing else changes |
| ImageUtils.SquareCropInside | utils/image_utils.py:41-52 | the crop is a min(w, h) square inside the image, centred to within a pixel; a square image is kept whole |
| ImageUtils.FitInside | utils/image_utils.py:17-27 | for any image with a positive side, the scaled sides lie in [0, size], the longer is exactly size, and the image sits inside the square centred to within a pixel |
| GlUtils.ScreenEdges | utils/gl_utils.py:4-10 | the screen's edges map to -aspect, +aspect, 1 and -1 |
| GlUtils.Spans | utils/gl_utils.py:4-10 | the GL extent is proportional to the pixel extent and never negative |
| GlUtils.Monotone | utils/gl_utils.py:4-10 | moving a rectangle right or down moves its GL edges right or down |
| UiText.SplitNoSpace | ui/text.py:30 | no piece of the split holds a space |
| UiText.JoinSplit | ui/text.py:30 | joining the pieces with spaces gives the text back |
| UiText.WrapKeepsWords | ui/text.py:30-44 | the wrapped lines concatenated are the words in order, each with its space |
| UiText.WrapFits | ui/text.py:34-41 | every line fits, except a line holding one word too wide on its own |
| UiText.WrapGreedy | ui/text.py:34-41 | a line is closed only when its next word would not fit |
| UiText.TextWrap | ui/text.py:30-44 | the lines hold the text's words in order, break only where the next word does not fit, and are too wide only when they hold a single word |
| UiText.WrapNonEmpty | ui/text.py:43-44 | with at least one word there is at least one line |
| UiText.FirstWordTooWide | ui/text.py:34-39 | a first word too wide on its own is preceded by an empty line |
| UiText.Stacked | ui/text.py:48-54 | consecutive lines are exactly one line height apart |
| UiText.Heights | ui/text.py:54 | one height per line, each the height of that line |
| UiText.UIText.constructor | ui/text.py:4-24 | keeps the text, position and maximum width, and pre-renders the lines: the whole text when the width is falsy, else its greedy wrap |
| UiText.UIText.RenderLines | ui/text.py:26-46 | the whole text as one line when the maximum width is falsy; otherwise the greedy wrap of its words, each line stripped |
| UiText.UIText.Draw | ui/text.py:48-54 | line k is placed the sum of the heights of the lines above it below the position |
| Logger.BytesValue | utils/logger.py:31-34 | the id's bytes read back as a number give the node number's low bytes |
| Logger.ByteAt | utils/logger.py:31-34 | byte k from the end is (node >> 8k) & 0xff |
| Logger.HexJoinParses | utils/logger.py:33-34 | the colon-joined two-digit hex text parses back to its bytes |
| Logger.SystemIdRoundTrip | utils/logger.py:31-36 | the system id is 17 characters "xx:xx:xx:xx:xx:xx" and reads back as the node number modulo 2^48 |
| Logger.DigitsRoundTrip | utils/logger.py:39 | zero-padded decimal digits read back as the number when it fits the width |
| Logger.DateRoundTrip | utils/logger.py:39 | the date in a file name is ten characters and reads back as the date |
| Logger.LastIndex | utils/logger.py:44 | the last occurrence of the character, or None exactly when it does not occur |
| Logger.SplitExtJoins | utils/logger.py:45 | splitting off the extension loses nothing |
| Logger.DailyBasename | utils/logger.py:44 | today's file is the date plus ".log", directly in the log directory |
| Logger.DailySplitExt | utils/logger.py:45 | today's file name splits into the date and ".log" |
| Logger.PartNameInjective | utils/logger.py:49 | different part numbers give different names |
| Logger.RotationStartsFresh | utils/logger.py:50-56 | after a successful rotation today's file holds only the new line, the old content is kept whole under the part name, and no other file changes |
| Logger.FailedRotationAppends | utils/logger.py:51-55 | a failed rename keeps appending to the full file |
| Logger.MakeEntry | utils/logger.py:61-73 | the entry carries the level, message, id and logger name, and a stack trace exactly when a non-empty one was given |
| Logger.StackFor | utils/logger.py:99-104 | a traceback is passed exactly when exc_info is set |
| Logger.LogDirectory.constructor | utils/logger.py:28-29 | the log directory and its files |
| Logger.Logger.constructor | utils/logger.py:18-29 | the id and host are read once and the log directory is created if missing |
| Logger.Logger.RotateLog | utils/logger.py:42-57 | renames today's file to the first free part name; a failed rename is ignored |
| Logger.Logger.Log | utils/logger.py:59-93 | today's file is rotated to the first free part name exactly when it has reached the maximum size, and the entry's line is appended when the directory exists |
| Logger.Logger.Debug | utils/logger.py:95 | log at DEBUG without a trace |
| Logger.Logger.Info | utils/logger.py:96 | log at INFO without a trace |
| Logger.Logger.Warn | utils/logger.py:97-98 | log at level "WARN" without a trace |
| Logger.Logger.Error | utils/logger.py:99-101 | log at ERROR, with the traceback only when exc_info is set |
| Logger.Logger.Fatal | utils/logger.py:102-104 | log at level "FATAL", with the traceback unless exc_info is cleared |
| Logger.Registry.constructor | utils/logger.py:107 | no loggers yet |
| Logger.Registry.GetLogger | utils/logger.py:109-112 | one logger per name, created on first request and returned ever after |

## Left out

- Threads are single steps. Each handler's `run()` loop is one `WorkerStep` per
  iteration, and the locks are not modelled. The Qt event queue of `focus-gui.py`
  is reduced to a count of posted `do_next` events.
- Pixels are left out: image decoding, scaling, blitting, fonts and textures. Images
  are opaque handles. In the composer, opening a photo is abstracted as a set of
  photos that cannot be opened, and whether saving the canvas works is a parameter.
- Floating point is left out. Ratios and scale factors are exact reals, and `int()`
  of a non-negative value is its floor.
- Text handling is ASCII-only: `lower()`, `strip()` and the regular expression's
  IGNORECASE flag. There is no Unicode.
- JSON and file I/O for settings, layouts and log lines are parameters: the parsed
  content, whether reading or writing succeeds, and the JSON encoder of a log entry.
- UiText.UIText.RenderLines: the font is reduced to a measuring function and a
  line-height function. A maximum width of 0 is falsy, as in Python. Drawing returns
  the anchor point of each line instead of blitting.
- LivePreview.LivePreview.Update: after a failed texture creation the old texture
  stays destroyed, as in the source; the upload of pixel data is a success flag.
- PhotoScreen.PhotoScreen.Update: the interpolation of the fall position, rotation
  and scale (sine easing, random tilt) is left out. Only the phase, timers and
  target slot are modelled. Saving the photo to disk is also left out.
- CountdownScreen.CountdownScreen.Update: `save_photo`'s file write, the sound, and
  the `cv2` property settings are left out. The capture reads and the release are
  modelled.
- LayoutSelectionScreen: the `update` and `draw` of the screen only animate and
  paint. They are left out.
- Gphoto2Handler.EosCameraHandler.constructor: the camera-model lookup and the
  `capturesizeclass` setting in `__init__` are left out. The handler starts from the
  configuration the camera reports.
- Gphoto2Handler.RefusedAfterStart states the refusal of `one_shot`. The refusal of
  `take_photo` while running is in `TakePhoto`'s own contract.
- Gphoto2Camera.EosCamera.ReadFrame: the wait for the file to appear, its removal and
  the autopoweroff setting are left out. The files present at the reported path are a
  parameter.
- FocusCameraHandler: errors raised by the image library inside `_send_file` are left
  out, and the camera is taken to accept every `set_config`. The gphoto2 handler's
  model covers both.
- ScreenManager.Manager.HandleEvent and ScreenManager.Manager.Update: a screen calls
  `switch_to` at most once per `handle_event` or `update`, which holds for every screen
  modelled here.
- LayoutComposer.LayoutComposer.Compose: slot fields and canvas sizes are integers. A
  JSON value of another type, which the image library may reject, is not modelled.
- ImageUtils.Fit: a 0x0 image, for which the source divides by zero, is excluded by
  its precondition.
- WebcamHandler.WebcamHandler.StartContinuous: setting the resolution with
  `camera.set` is left out.
- Logger:
  - printing to the console is left out;
  - the generic `except Exception` fallback is modelled only for a missing log
    directory;
  - `%Y` is modelled as a 4-digit zero-padded year;
  - `os.path.join` is modelled for relative names;
  - the defaults of `exc_info` are passed explicitly;
  - the timestamp, thread id, process id, node number and host name are parameters.
