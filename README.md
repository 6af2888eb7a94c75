# MUTZIN Tether — a Dafny model of its bookkeeping

MUTZIN Tether is a desktop tethering tool for a gphoto2 camera. It
downloads every shot into a save folder under a fresh name, shows JPEGs in
a preview pane with per-image rotation and zoom, reads and sets exposure
settings on the camera, and uploads JPEGs to S3. A small AWS Lambda function
hands out presigned upload URLs.

This project models the deterministic logic around the I/O:

- allocation of save names;
- the extension policy and the file filters of the listener and of a PC-triggered capture;
- camera-config probing and setting;
- error classification;
- the preview history and rotation state;
- the S3 settings history, form validation, client configuration and upload gate;
- pose-result formatting;
- the Lambda's status-code decision.

How the modules map onto the program:

| module | file | models |
|---|---|---|
| `Wrappers` | wrappers.dfy | `Option`, `Result` |
| `PyText` | pytext.dfy | the parts of `str` and `posixpath` the program relies on: ASCII `lower`, `startswith`, `strip`, `splitext`, `basename`, `join`, decimal formatting |
| `JsonValues` | json.dfy | values as `json.load` produces them, with Python truthiness |
| `TetherFiles` | tether_files.dfy | `get_unique_filename`, `download_file`, one `event_listener` iteration, `CameraGUI.capture` |
| `TetherConfig` | tether_config.dfy | `get_camera_setting`, `set_camera_config_with_choices`, `set_aperture`, `CameraGUI.load_settings` |
| `TetherPreview` | tether_preview.dfy | the preview fields of `CameraGUI` and the methods that update them |
| `TetherNotify` | tether_notify.dfy | `CameraGUI.notify_saved_from_thread` |
| `AwsManager` | aws_manager.dfy | `AWSConfigManager`, `AWSSettingsWindow.save_settings`, `AWSS3Manager` |
| `PoseEstimator` | pose_estimator.dfy | `classify_pose`'s leg rule, `estimate`, `get_formatted_result` |
| `PresignLambda` | presign_lambda.dfy | `lambda_handler` |

Modelling choices:

- **Save folder.** It is a `set<string>` of the names that exist in it. Saving a file adds its name.
- **Camera folder listing.** It is the sequence of optional names that the capture loop iterates over.
- **Camera and S3 calls become inputs:**
  - the gphoto2 error code a file download raises;
  - the options the camera refuses to set;
  - whether a settings file can be written;
  - whether creating the boto3 client raises;
  - the results of `json.loads` and `generate_presigned_url`.
- **Clock.** The clock's readings are parameters (`timestamp`, `month`).
- **State that the program changes in place.** These are Dafny classes with those fields:
  - `PreviewState` holds the window's preview fields;
  - `ConfigStore` holds the two settings files;
  - `S3Manager` holds the loaded settings, the client and the bucket.
- **Loops.** The source's loops are `while` loops with invariants:
  - the name search;
  - the capture loop over the listing;
  - the aperture fallback;
  - the kelvin probe.

## Model

| member | source | states |
|---|---|---|
| TetherFiles.ExtensionPolicy | mutzin_tether.py:98-103 | an extension is selected iff it is a RAW one and the format is not "jpeg", or a JPEG one and the format is not "raw"; so "raw" keeps only RAW, "jpeg" only JPEG, anything else both |
| TetherFiles.PolicyListsDisjoint | mutzin_tether.py:863-864 | the RAW and JPEG extension lists share no entry and are all lower-case, so a lower-cased extension is compared against lower-case entries |
| TetherFiles.UniqueFilename | mutzin_tether.py:62-68 | the returned name is not in the folder, and it is the first free candidate: `base+ext` if free, else `base_n+ext` for the least n ≥ 2 that is free, all smaller candidates being taken |
| TetherFiles.CandidateInjective | mutzin_tether.py:64-67 | different counters give different candidate names, so the search progresses through distinct names |
| TetherFiles.FirstFreeUnique | mutzin_tether.py:62-68 | the first free name is unique, so the allocation is a function of the folder, base and extension |
| TetherFiles.FirstFreeFresh | mutzin_tether.py:62-68 | the first free name is absent from the folder and ends with the requested extension |
| TetherFiles.UniqueFilenameExample | mutzin_tether.py:63-67 | with img.jpg and img_2.jpg present, the chosen name is img_3.jpg |
| TetherFiles.RecoveryFor | mutzin_tether.py:112-125 | a gphoto2 error re-initialises the camera iff its code is -53 or -110; on any other code the listener only backs off, and it never stops on an error |
| TetherFiles.DownloadFile | mutzin_tether.py:70-85 | skipped (nothing fetched, folder unchanged) iff the lower-cased extension is not in the policy; a failed fetch reports its code and saves nothing; a download stores the file under the first free name for its extension, returns its joined path and adds the name to the folder |
| TetherFiles.MonitorIteration | mutzin_tether.py:90-128 | a file-added event downloads under the current policy and notifies exactly the saved path; a filtered file notifies nothing; an error from waiting or fetching yields the code's recovery and no notification |
| TetherFiles.SelectedMembers | mutzin_tether.py:876-881 | a name is saved by the capture loop iff it is a present listing entry that starts with the captured stem and has a policy extension; no more names than listing entries |
| TetherFiles.SaveEntry | mutzin_tether.py:877-888 | one listing entry: a selected entry is fetched and joined to the saved paths, an unselected one is skipped, and a failing fetch reports its error with nothing else saved |
| TetherFiles.SaveSiblings | mutzin_tether.py:876-888 | after the loop, each saved name is the first free name for its file's extension in the folder grown by the earlier saves; either every selected file was saved or the loop stopped at the first one whose fetch failed, reporting its code |
| TetherFiles.SavedChainFresh | mutzin_tether.py:882-887 | names saved by one capture are pairwise distinct and none existed in the folder before |
| TetherFiles.Capture | mutzin_tether.py:841-921 | no camera: nothing happens; a capture error fails with a re-init flag iff the code is a link error; otherwise the selected siblings are saved as in SaveSiblings, with "saved" paths when some were and "nothing saved" when none were; the folder grows by exactly the saved names |
| TetherFiles.JpegOnlyCaptureExample | mutzin_tether.py:876-887 | with a JPEG-only policy and DSC1.ARW and DSC1.JPG in the listing, only DSC1.JPG is saved |
| TetherFiles.PrefixMatchExample | mutzin_tether.py:877 | the sibling test is a prefix match: capturing DSC1.JPG also saves DSC10.JPG |
| TetherConfig.GetSetting | mutzin_tether.py:34-40 | the option's current value when the camera has it, None otherwise |
| TetherConfig.SetWithChoices | mutzin_tether.py:42-53 | succeeds iff the option exists, the value is among its choices and the camera accepts it; on success only that option's value changes; on failure the config is unchanged, and an unlisted value reports the choices |
| TetherConfig.SetThenGet | mutzin_tether.py:49-51 | after a successful set, reading the option back gives the value set |
| TetherConfig.SetAperture | mutzin_tether.py:55-60 | succeeds iff "aperture" or "f-number" accepts the value; "aperture" is used when it accepts, "f-number" only otherwise; with neither, a dedicated failure and an unchanged config |
| TetherConfig.FirstPresent | mutzin_tether.py:785-792 | None iff no key is known to the camera; otherwise the value of the first known key in list order |
| TetherConfig.OrNA | mutzin_tether.py:783-784 | `value or "N/A"`: a missing or empty value shows as "N/A", any other value as itself |
| TetherConfig.LoadSettings | mutzin_tether.py:773-803 | without a camera all five fields are "N/A"; otherwise iso and shutter speed are their values or "N/A"; aperture falls back to "f-number" and white balance to "white balance" only when the first key is missing; kelvin is the value of the first present key of the five kelvin keys, else "N/A" |
| TetherConfig.EmptyApertureShadowsFNumber | mutzin_tether.py:785-788 | a present but empty "aperture" shows "N/A" without consulting "f-number" |
| TetherPreview.RotatedLeft | mutzin_tether.py:626 | a left step lands in [0, 360) and is congruent to the angle minus 90 |
| TetherPreview.RotatedRight | mutzin_tether.py:635 | a right step lands in [0, 360) and is congruent to the angle plus 90 |
| TetherPreview.LeftUndoesRight | mutzin_tether.py:624-640 | from an angle in [0, 360), a left step undoes a right step and vice versa |
| TetherPreview.FourRightsIdentity | mutzin_tether.py:633-636 | four right steps return to the starting angle |
| TetherPreview.PreviewState.constructor | mutzin_tether.py:262-269 | an empty history, empty maps, no compare image, default rotation 0 and zoom 1.0 |
| TetherPreview.PreviewState.MainRotation | mutzin_tether.py:564-569 | the newest path's own rotation when it has one, else the default; in range when the state is |
| TetherPreview.PreviewState.CompareRotation | mutzin_tether.py:571-573 | the compare path's rotation, 0 with no (or an empty) compare path or no entry |
| TetherPreview.WithPathContents | mutzin_tether.py:671-674 | the history after a preview holds the shown path, is the listing itself when the path was listed and the path followed by the listing otherwise, and gains no duplicate |
| TetherPreview.PreviewState.ShowJpegPreview | mutzin_tether.py:671-686 | the history becomes the refreshed listing with the path put in front only if absent; the first preview with two entries picks the second as compare image; a new path inherits the default rotation and zoom, and known paths keep theirs |
| TetherPreview.PreviewState.SetMainRotation | mutzin_tether.py:575-580 | the default becomes the angle; the newest path, when non-empty, stores it, so the main rotation reads back as the angle; nothing else changes |
| TetherPreview.PreviewState.SetCompareRotation | mutzin_tether.py:582-586 | only with a non-empty compare path, that path's rotation becomes the angle; nothing else changes |
| TetherPreview.PreviewState.RotateMainLeft | mutzin_tether.py:624-627 | the main rotation and the default become one left step from the current main rotation; only the shown path's entry in the main map changes, and the history, compare state and zooms stay as they were |
| TetherPreview.PreviewState.RotateMainRight | mutzin_tether.py:633-636 | the main rotation and the default become one right step from the current main rotation; only the shown path's entry in the main map changes, and the history, compare state and zooms stay as they were |
| TetherPreview.PreviewState.ResetMainRotation | mutzin_tether.py:642-644 | the main rotation and the default become 0; only the shown path's entry in the main map changes, and the history, compare state and zooms stay as they were |
| TetherPreview.PreviewState.RotateCompareLeft | mutzin_tether.py:628-632 | with a compare image its rotation takes one left step, and only its entry in the compare map changes; without one nothing changes; main rotation, history and zooms stay as they were |
| TetherPreview.PreviewState.RotateCompareRight | mutzin_tether.py:637-641 | with a compare image its rotation takes one right step, and only its entry in the compare map changes; without one nothing changes; main rotation, history and zooms stay as they were |
| TetherPreview.PreviewState.ResetCompareRotation | mutzin_tether.py:645-648 | with a compare image its rotation becomes 0, and only its entry in the compare map changes; without one nothing changes; main rotation, history and zooms stay as they were |
| TetherPreview.PreviewState.SetCompareImage | mutzin_tether.py:696-703 | the clicked path becomes the compare image; a path seen for the first time starts at rotation 0 and zoom 1.0 |
| TetherPreview.RightThenLeftRestores | mutzin_tether.py:624-640 | pressing right then left on the main canvas restores its rotation |
| TetherNotify.NotifySaved | mutzin_tether.py:754-761 | a saved file is previewed iff its lower-cased extension is .jpg or .jpeg; a JPEG is uploaded exactly as the automatic upload gate decides, and any other file never is |
| TetherNotify.RawFilesStayLocal | mutzin_tether.py:756-761 | a saved .ARW file is neither uploaded nor previewed |
| AwsManager.EntryFor | aws_manager.py:30-37 | a history record holds the time, the user "USER" and the settings' region and bucket, each '' when missing |
| AwsManager.EntryIgnoresCredentials | aws_manager.py:29-37 | the record does not depend on the access or secret key |
| AwsManager.WithoutMembers | aws_manager.py:39-43 | a record survives iff it was in the history and names a different (region, bucket) |
| AwsManager.UpdatedHistory | aws_manager.py:39-46 | the new record is last; no earlier record has its target; the length is the filtered length plus one, capped at 10; the records before it are the most recent filtered ones |
| AwsManager.UpdatedHistoryOneTarget | aws_manager.py:39-45 | exactly one record of the new history has the saved target: the last one |
| AwsManager.UpdatedHistoryKeepsOrder | aws_manager.py:40-46 | the kept older records are a subsequence of the old history, in their original order |
| AwsManager.UpdatedHistoryResave | aws_manager.py:39-46 | saving the same target again replaces its record as the last one and leaves the others as they were |
| AwsManager.ConfigStore.LoadHistory | aws_manager.py:67-75 | an absent or unreadable history file reads as an empty history |
| AwsManager.ConfigStore.LoadSettings | aws_manager.py:57-65 | an absent or unreadable settings file reads as `{}` |
| AwsManager.ConfigStore.SaveSettings | aws_manager.py:20-55 | succeeds iff both files can be written; the settings file then holds the settings and the history file the updated history; a failing write leaves that file and the later ones as they were |
| AwsManager.FormSettings | aws_manager.py:246-253 | the saved dictionary holds the four stripped text fields and the upload flag, under their keys |
| AwsManager.FormCompleteIffNoBlank | aws_manager.py:255-256 | a form is accepted iff none of the four fields is empty or whitespace only |
| AwsManager.SubmitSettingsForm | aws_manager.py:246-267 | an incomplete form writes nothing; a complete one is saved as in ConfigStore.SaveSettings, reporting success iff both writes succeed; a file that is not written keeps its old contents |
| AwsManager.FormSettingsComplete | aws_manager.py:255-256 | settings saved from an accepted form are complete enough to configure an S3 client |
| AwsManager.UploadEnabledByDefault | aws_manager.py:386 | a missing `upload_enabled` counts as enabled; a present one counts by its truthiness |
| AwsManager.UploadKey | aws_manager.py:390-392 | the key is `photos/<month>/` followed by the local path's base name: the longest slash-free suffix of the path |
| AwsManager.UploadKeyInjective | aws_manager.py:390-392 | within a month, two uploads share a key iff their base names agree |
| AwsManager.S3Manager.constructor | aws_manager.py:286-295 | the manager starts from empty settings and runs the client initialisation, so a client exists iff the settings file holds complete settings and creating the client succeeds |
| AwsManager.S3Manager.LoadSettings | aws_manager.py:301-311 | returns true and takes the file's content iff the file can be read; otherwise the settings are unchanged |
| AwsManager.S3Manager.InitializeClient | aws_manager.py:313-337 | succeeds iff the file can be read, all four settings are truthy and the client is created; then the bucket is the settings' bucket; a read file with incomplete settings clears the client; an unreadable file keeps the previous client; a client is only ever held for complete settings |
| AwsManager.S3Manager.ProcessUpload | aws_manager.py:385-396 | an upload happens iff there is a client and upload is enabled; it sends the local file to the configured bucket under the photos key as image/jpeg |
| AwsManager.S3Manager.ManualUpload | aws_manager.py:339-353 | an upload happens iff there is a client, whatever the upload flag; same bucket, key and content type |
| AwsManager.S3Manager.UploadTargetsConfiguredBucket | aws_manager.py:385-396 | in a consistent manager every upload targets the bucket of complete loaded settings |
| PoseEstimator.VisibleIndices | pose_estimator.py:32 | exactly the indices whose landmark visibility exceeds 0.5 |
| PoseEstimator.HasLegsIff | pose_estimator.py:33-35 | legs are seen iff landmark 25 or 26 is visible and landmark 27 or 28 is visible |
| PoseEstimator.ClassifyPose | pose_estimator.py:14-89 | fails iff there are at most 12 landmarks; otherwise the upper-body flag is the negated leg rule, the view is the shoulder rule's, and the pose is "unknown" with at most 28 landmarks, else the angle rule's |
| PoseEstimator.Estimate | pose_estimator.py:102-129 | an unreadable image, no person or a failed classification gives ('unknown', 'unknown', False); otherwise full_body is the leg rule, view is the shoulder rule's name, and pose is "unknown" with at most 28 landmarks and the angle rule's name otherwise |
| PoseEstimator.FullBodyNeedsLegs | pose_estimator.py:33-35 | whatever the number of landmarks, a full body is claimed only for a found person with a visible knee and a visible ankle; with no ankle landmark in the list it never is |
| PoseEstimator.PoseLabel | pose_estimator.py:133-138 | the label is one of Standing/Sitting/Lying/Unknown, the table's entry for a known pose, and Unknown exactly for "unknown" and unknown names |
| PoseEstimator.ViewLabel | pose_estimator.py:140-145 | the label is one of Front/Side/Back/Unknown, the table's entry for a known view, and Unknown exactly for "unknown" and unknown names |
| PoseEstimator.PoseLabelInjective | pose_estimator.py:133-138 | distinct known poses get distinct labels |
| PoseEstimator.ViewLabelInjective | pose_estimator.py:140-145 | distinct known views get distinct labels |
| PoseEstimator.EstimateLabelsKnown | pose_estimator.py:117-149 | every estimate result has table entries, so its pose label is Unknown only for pose "unknown" |
| PoseEstimator.FormattedResult | pose_estimator.py:131-149 | the text is "Pose: ", the pose label, " \| View: ", the view label, " \| Body: " and the body label, each part at its place |
| PoseEstimator.FormattedResultDetermines | pose_estimator.py:147-149 | equal texts have equal pose labels, equal view labels and the same full_body flag |
| PoseEstimator.FormattedResultInjective | pose_estimator.py:131-149 | for poses and views in the label tables, equal texts come from equal results |
| PoseEstimator.FormattedBodyIff | pose_estimator.py:147-149 | the text ends in "Full body" iff full_body holds |
| PoseEstimator.FailureText | pose_estimator.py:125-149 | a failed estimate is shown as "Pose: Unknown \| View: Unknown \| Body: Upper body only" |
| PresignLambda.RequestFor | lambda_gen_pre_url.py:36-44 | the URL is requested for put_object on the configured bucket, with the filename as key, content type image/jpeg and a 3600-second expiry |
| PresignLambda.ParsedBody | lambda_gen_pre_url.py:23-29 | an absent or falsy body reads as `{}`; a truthy non-string body fails; a string body is parsed, and must parse into a dictionary |
| PresignLambda.Handler | lambda_gen_pre_url.py:20-55 | the status is always 200, 400 or 500; 400, with "filename required", iff the body parses and the filename is falsy; 500 iff parsing or presigning raises; 200 carries only `presigned_url`, the URL for that filename's request |
| PresignLambda.MissingBodyIsBadRequest | lambda_gen_pre_url.py:23-34 | a request with no body, a null body or an empty body is answered 400 "filename required" |
| PresignLambda.EmptyFilenameIsBadRequest | lambda_gen_pre_url.py:29-34 | an empty filename is answered 400 |
| PresignLambda.UnparsableBodyIsServerError | lambda_gen_pre_url.py:51-55 | a body that fails to parse is answered 500 with the parser's message |
| PresignLambda.ValidRequestGetsUrl | lambda_gen_pre_url.py:36-49 | a dictionary body with a non-empty string filename gets 200 and the signed URL for exactly that key |

## Left out

- Threads and locks are not modelled: the `event_listener` loop, `camera_lock`, `event_stop`, the upload worker, `queue.Queue` and the pose-estimation thread. Their logic is sequential once scheduling is set aside; `MonitorIteration` models one turn of the listener loop.
- `connect_camera`, with its three one-second retries and camera autodetection, is not modelled: it is hardware access and sleeping.
- gphoto2 calls are not performed. `capture`, `file_get`, `wait_for_event`, `folder_list_files`, `get_config`/`set_config` and `exit`/`init` appear only through their results, as inputs.
- Camera re-initialisation is not modelled. It is reported as the `Reinit` recovery; whether `exit`/`init` themselves succeed is not modelled.
- The capture loop takes `folder_list_files(folder)[0]` as given, so `Shot.listing` is that sequence.
- `Capture` does not model the `jpeg_saved` preview. In the source it is always None, because the upload-queue lines that would set it are commented out.
- boto3 `upload_file` is not performed. `ProcessUpload` and `ManualUpload` return the request they would make, not whether the upload succeeded, so `manual_upload`'s True/False result after the call is not modelled.
- `generate_presigned_url` and `json.loads` are inputs, as functions that may fail with a message; the `s3_client` created at Lambda load time is not modelled. aws_upload_test.py is not part of this model.
- Camera widget values are modelled as strings (`ConfigOption.value`). So `str(v)` in the kelvin probe is the identity here, and the falsiness of a numeric 0 under `or "N/A"` is not modelled.
- Only the crash-free parts of file I/O are modelled. `json.dump`/`json.load` of the settings and history files are whole-file values (`StoredFile`); `os.makedirs`, partially written files and `_save_pose_estimation` are not modelled.
- A settings file whose top level is not a dictionary is not modelled. `StoredFile<Settings>` holds only dictionaries.
- History records are modelled as read back well-formed. A record without a `settings` entry, which would make `save_settings` raise, is not modelled.
- Python's cross-type equality in the history filter (`1 == 1.0 == True`) is not modelled: JSON values compare structurally.
- `refresh_thumbnails` (the glob over six extensions and the mtime sort) is abstracted. `ShowJpegPreview` takes its resulting list as the `listing` argument.
- Zoom stepping and clamping (`_main_zoom`, `_compare_zoom`), the zoom getters, JPEG quality, image resizing, canvas caching and every Tk widget are not modelled. They are floating-point display code. The zoom maps are kept only as the values new paths inherit.
- The first `show_jpeg_preview` (the one at mutzin_tether.py:351) is not modelled, because the later definition at line 671 replaces it. The pose-estimation thread start is not modelled.
- `classify_pose` geometry is an input. The torso-angle and shoulder-distance rules (arctan2, norms and their thresholds) appear as `AnglePose` and `ShoulderView`.
- OpenCV image reading and MediaPipe inference are abstracted. They are the `Detection` cases.
- Clocks are inputs. `datetime.utcnow()` and `datetime.now()` are the `timestamp` and `month` parameters.
- PyText.Lower: lower-cases ASCII letters only. Python's `str.lower` also folds non-ASCII letters, which no extension list here contains.
- Paths are handled as plain strings. `posixpath.join` and `basename` are modelled on them, but the save folder is keyed by the joined name only; absolute base names and path normalisation are not modelled.
- Log and message-box texts, including the Korean dialog strings, are not modelled. They are replaced by the `SetMessage`, `CaptureOutcome` and `FormResult` cases.
- AWSSettingsWindow.test_connection, the history window and loading a history entry into the form are not modelled. They are UI actions whose only logic is a boto3 call.
- TetherPreview.PreviewState.SetMainRotation: the read-back guarantee is stated only for a non-empty newest path; with an empty one the source does not store the angle for it.
