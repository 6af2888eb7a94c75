/**
 * Where the tether program puts downloaded camera files: the save-name
 * allocation of `get_unique_filename`, the extension policy chosen by the
 * save-format setting, `download_file`, one iteration of `event_listener`,
 * and the sibling loop of `CameraGUI.capture`.
 *
 * The save folder is modelled as the set `dir` of the names `c` for which
 * `os.path.exists(os.path.join(folder, c))` holds; saving a file adds its
 * name to the set. Camera calls are oracles: `fetchErrors` maps a camera file
 * (folder, name) to the gphoto2 error code its download raises.
 */
module TetherFiles {
  import opened Wrappers
  import opened PyText

  const RAW_EXTS: seq<string> := [".arw", ".raw", ".nef", ".cr2", ".cr3", ".orf", ".rw2", ".dng"]
  const JPEG_EXTS: seq<string> := [".jpg", ".jpeg"]

  /** The extensions saved under a save-format setting: "raw", "jpeg", or anything else for both. */
  function ExtensionPolicy(saveFormat: string): (exts: seq<string>)
    ensures forall e :: e in exts <==>
      (e in RAW_EXTS && saveFormat != "jpeg") || (e in JPEG_EXTS && saveFormat != "raw")
  {
    if saveFormat == "raw" then RAW_EXTS
    else if saveFormat == "jpeg" then JPEG_EXTS
    else RAW_EXTS + JPEG_EXTS
  }

  /** No extension is both a RAW and a JPEG extension, and all of them are lower-case. */
  lemma PolicyListsDisjoint()
    ensures forall e :: e in RAW_EXTS ==> e !in JPEG_EXTS
    ensures forall e :: e in RAW_EXTS + JPEG_EXTS ==> Lower(e) == e
  {
  }

  /** The `n`-th name `get_unique_filename` tries: `base+ext`, then `base_2+ext`, `base_3+ext`, ... */
  function Candidate(base: string, n: nat, ext: string): string
  {
    if n <= 1 then base + ext else base + "_" + DecimalString(n) + ext
  }

  /** Candidate `n` is free and every earlier candidate is taken. */
  ghost predicate FirstFreeAt(dir: set<string>, base: string, ext: string, n: nat)
  {
    Candidate(base, n, ext) !in dir
    && forall m: nat :: 1 <= m < n ==> Candidate(base, m, ext) in dir
  }

  /** `name` is the first free candidate for `base` and `ext` in `dir`. */
  ghost predicate IsFirstFree(dir: set<string>, base: string, ext: string, name: string)
  {
    exists n: nat :: 1 <= n && name == Candidate(base, n, ext) && FirstFreeAt(dir, base, ext, n)
  }

  lemma {:induction false} CandidateInjective(base: string, ext: string, m: nat, n: nat)
    requires 1 <= m && 1 <= n
    requires Candidate(base, m, ext) == Candidate(base, n, ext)
    ensures m == n
  {
    if 2 <= m && 2 <= n {
      var dm, dn := DecimalString(m), DecimalString(n);
      var cm, cn := Candidate(base, m, ext), Candidate(base, n, ext);
      assert |cm| == |base| + 1 + |dm| + |ext|;
      assert |cn| == |base| + 1 + |dn| + |ext|;
      assert cm[|base| + 1..|base| + 1 + |dm|] == dm;
      assert cn[|base| + 1..|base| + 1 + |dn|] == dn;
      DecimalStringInjective(m, n);
    }
  }

  ghost function CandidateSet(base: string, ext: string, n: nat): set<string>
  {
    set m: nat | 1 <= m <= n :: Candidate(base, m, ext)
  }

  /** The first `n` candidates are `n` different names. */
  lemma {:induction false} CandidateSetSize(base: string, ext: string, n: nat)
    ensures |CandidateSet(base, ext, n)| == n
  {
    if n == 0 {
      assert CandidateSet(base, ext, 0) == {};
    } else {
      CandidateSetSize(base, ext, n - 1);
      assert CandidateSet(base, ext, n) == CandidateSet(base, ext, n - 1) + {Candidate(base, n, ext)};
      if Candidate(base, n, ext) in CandidateSet(base, ext, n - 1) {
        var m: nat :| 1 <= m <= n - 1 && Candidate(base, m, ext) == Candidate(base, n, ext);
        CandidateInjective(base, ext, m, n);
      }
    }
  }

  lemma SubsetSize(a: set<string>, b: set<string>)
    requires a <= b
    ensures |a| <= |b|
  {
    assert b == a + (b - a);
  }

  /** `get_unique_filename`: the first candidate name that does not exist in the folder. */
  method UniqueFilename(dir: set<string>, base: string, ext: string) returns (name: string)
    ensures name !in dir
    ensures IsFirstFree(dir, base, ext, name)
  {
    var n := 1;
    name := base + ext;
    while name in dir
      invariant 1 <= n && name == Candidate(base, n, ext)
      invariant forall m: nat :: 1 <= m < n ==> Candidate(base, m, ext) in dir
      decreases |dir| + 1 - n
    {
      CandidateSetSize(base, ext, n);
      SubsetSize(CandidateSet(base, ext, n), dir);
      n := n + 1;
      name := base + "_" + DecimalString(n) + ext;
    }
    assert FirstFreeAt(dir, base, ext, n);
  }

  /** The first free name is unique: two names that are both first free are equal. */
  lemma FirstFreeUnique(dir: set<string>, base: string, ext: string, a: string, b: string)
    requires IsFirstFree(dir, base, ext, a) && IsFirstFree(dir, base, ext, b)
    ensures a == b
  {
    var na: nat :| 1 <= na && a == Candidate(base, na, ext) && FirstFreeAt(dir, base, ext, na);
    var nb: nat :| 1 <= nb && b == Candidate(base, nb, ext) && FirstFreeAt(dir, base, ext, nb);
  }

  /** A first free name is not in the folder and ends with the requested extension. */
  lemma FirstFreeFresh(dir: set<string>, base: string, ext: string, name: string)
    requires IsFirstFree(dir, base, ext, name)
    ensures name !in dir
    ensures |ext| <= |name| && name[|name| - |ext|..] == ext
  {
    var n: nat :| 1 <= n && name == Candidate(base, n, ext) && FirstFreeAt(dir, base, ext, n);
  }

  /** With img.jpg and img_2.jpg present, the name chosen for "img" and ".jpg" is img_3.jpg. */
  lemma UniqueFilenameExample(name: string)
    requires IsFirstFree({"img.jpg", "img_2.jpg"}, "img", ".jpg", name)
    ensures name == "img_3.jpg"
  {
    var dir := {"img.jpg", "img_2.jpg"};
    assert DecimalString(2) == "2" && DecimalString(3) == "3";
    assert Candidate("img", 1, ".jpg") == "img.jpg";
    assert Candidate("img", 2, ".jpg") == "img_2.jpg";
    assert Candidate("img", 3, ".jpg") == "img_3.jpg";
    assert FirstFreeAt(dir, "img", ".jpg", 3);
    FirstFreeUnique(dir, "img", ".jpg", name, "img_3.jpg");
  }

  /** gphoto2 error codes -53 and -110 mark a stale USB link and trigger a close/re-init of the camera. */
  predicate IsLinkError(code: int)
  {
    code == -53 || code == -110
  }

  /** What a loop does after a camera error. */
  datatype Recovery = Continue | Reinit | Backoff

  function RecoveryFor(code: int): (r: Recovery)
    ensures r == Reinit <==> IsLinkError(code)
    ensures r != Continue
  {
    if IsLinkError(code) then Reinit else Backoff
  }

  /** The outcome of `download_file`. */
  datatype Download = Skipped | Downloaded(name: string, target: string) | FetchFailed(code: int)

  /**
   * `download_file`: skips a file whose lower-cased extension is not in
   * `exts`; otherwise picks the first free save name, fetches the camera file
   * (which may fail with a gphoto2 error), and stores it under that name.
   */
  method DownloadFile(dir: set<string>, fetchErrors: map<(string, string), int>, folder: string, name: string,
                      savePath: string, base: string, exts: seq<string>)
    returns (d: Download, dir': set<string>)
    ensures d.Skipped? <==> Lower(Ext(name)) !in exts
    ensures d.FetchFailed? <==> Lower(Ext(name)) in exts && (folder, name) in fetchErrors
    ensures d.FetchFailed? ==> d.code == fetchErrors[(folder, name)]
    ensures d.Downloaded? ==>
      IsFirstFree(dir, base, Lower(Ext(name)), d.name) && d.name !in dir
      && d.target == Join(savePath, d.name) && dir' == dir + {d.name}
    ensures !d.Downloaded? ==> dir' == dir
  {
    var ext := Lower(Ext(name));
    dir' := dir;
    if ext !in exts {
      return Skipped, dir';
    }
    var outname := UniqueFilename(dir, base, ext);
    if (folder, name) in fetchErrors {
      return FetchFailed(fetchErrors[(folder, name)]), dir';
    }
    dir' := dir + {outname};
    d := Downloaded(outname, Join(savePath, outname));
  }

  /** What `camera.wait_for_event(1000)` returned. */
  datatype Event = FileAdded(folder: string, name: string) | OtherEvent

  /**
   * One iteration of `event_listener`: a file-added event downloads the file
   * under the current save-format policy and notifies its path; a gphoto2
   * error re-initialises the camera for the two link-error codes and only
   * backs off for any other code; the loop never ends on an error.
   */
  method MonitorIteration(dir: set<string>, fetchErrors: map<(string, string), int>, wait: Result<Event, int>,
                          saveFormat: string, saveDir: string, base: string)
    returns (notified: Option<string>, recovery: Recovery, dir': set<string>)
    ensures wait.Err? ==> notified == None && recovery == RecoveryFor(wait.error) && dir' == dir
    ensures wait == Ok(OtherEvent) ==> notified == None && recovery == Continue && dir' == dir
    ensures wait.Ok? && wait.value.FileAdded? ==>
      var ev := wait.value;
      var ext := Lower(Ext(ev.name));
      && (ext !in ExtensionPolicy(saveFormat) ==> notified == None && recovery == Continue && dir' == dir)
      && (ext in ExtensionPolicy(saveFormat) && (ev.folder, ev.name) in fetchErrors ==>
            notified == None && recovery == RecoveryFor(fetchErrors[(ev.folder, ev.name)]) && dir' == dir)
      && (ext in ExtensionPolicy(saveFormat) && (ev.folder, ev.name) !in fetchErrors ==>
            recovery == Continue && notified.Some?
            && exists out :: IsFirstFree(dir, base, ext, out) && notified.value == Join(saveDir, out) && dir' == dir + {out})
  {
    notified, recovery, dir' := None, Continue, dir;
    if wait.Err? {
      recovery := RecoveryFor(wait.error);
      return;
    }
    match wait.value
    case OtherEvent =>
    case FileAdded(folder, name) =>
      var exts := ExtensionPolicy(saveFormat);
      var d;
      d, dir' := DownloadFile(dir, fetchErrors, folder, name, saveDir, base, exts);
      match d
      case Skipped =>
      case FetchFailed(code) =>
        recovery := RecoveryFor(code);
      case Downloaded(_, target) =>
        notified := Some(target);
  }

  /** The camera's answer to `capture`: the captured file and the folder listing the loop iterates over. */
  datatype Shot = Shot(folder: string, name: string, listing: seq<Option<string>>)

  /** How `CameraGUI.capture` ends (the dialog it shows). */
  datatype CaptureOutcome = NoCamera | Saved(paths: seq<string>) | NothingSaved | CaptureFailed(code: int, reinit: bool)

  /** The loop's filter: a present name that starts with the captured stem and has a policy extension. */
  predicate Selectable(entry: Option<string>, stem: string, exts: seq<string>)
  {
    entry.Some? && StartsWith(entry.value, stem) && Lower(Ext(entry.value)) in exts
  }

  /** The listing entries the capture loop saves, in listing order. */
  function Selected(listing: seq<Option<string>>, stem: string, exts: seq<string>): seq<string>
    decreases |listing|
  {
    if listing == [] then []
    else
      var last := listing[|listing| - 1];
      Selected(listing[..|listing| - 1], stem, exts) + (if Selectable(last, stem, exts) then [last.value] else [])
  }

  /** A name is saved iff it is a present entry of the listing that passes the filter; no more names than entries. */
  lemma {:induction false} SelectedMembers(listing: seq<Option<string>>, stem: string, exts: seq<string>)
    ensures |Selected(listing, stem, exts)| <= |listing|
    ensures forall f :: f in Selected(listing, stem, exts) <==> Some(f) in listing && Selectable(Some(f), stem, exts)
    decreases |listing|
  {
    if listing != [] {
      var init := listing[..|listing| - 1];
      SelectedMembers(init, stem, exts);
      assert listing == init + [listing[|listing| - 1]];
    }
  }

  lemma {:induction false} SelectedAppend(a: seq<Option<string>>, b: seq<Option<string>>, stem: string, exts: seq<string>)
    ensures Selected(a + b, stem, exts) == Selected(a, stem, exts) + Selected(b, stem, exts)
    decreases |b|
  {
    if b != [] {
      var b' := b[..|b| - 1];
      assert (a + b)[..|a + b| - 1] == a + b';
      SelectedAppend(a, b', stem, exts);
    } else {
      assert a + b == a;
    }
  }

  function Elems(s: seq<string>): set<string>
  {
    set x | x in s
  }

  /**
   * Each saved name is the first free name for its file's lower-cased
   * extension in the folder as it stands after the earlier saves.
   */
  ghost predicate SavedChain(dir: set<string>, base: string, files: seq<string>, names: seq<string>)
  {
    |names| == |files|
    && forall k :: 0 <= k < |names| ==> IsFirstFree(dir + Elems(names[..k]), base, Lower(Ext(files[k])), names[k])
  }

  /** The names saved by one capture are pairwise different and none of them existed before. */
  lemma SavedChainFresh(dir: set<string>, base: string, files: seq<string>, names: seq<string>)
    requires SavedChain(dir, base, files, names)
    ensures forall k :: 0 <= k < |names| ==> names[k] !in dir
    ensures forall j, k :: 0 <= j < k < |names| ==> names[j] != names[k]
  {
    forall k | 0 <= k < |names|
      ensures names[k] !in dir + Elems(names[..k])
    {
      FirstFreeFresh(dir + Elems(names[..k]), base, Lower(Ext(files[k])), names[k]);
    }
    forall j, k | 0 <= j < k < |names|
      ensures names[j] != names[k]
    {
      assert names[..k][j] == names[j];
      assert names[j] in Elems(names[..k]);
    }
  }

  function SavedPaths(saveDir: string, names: seq<string>): (r: seq<string>)
    ensures |r| == |names|
  {
    seq(|names|, i requires 0 <= i < |names| => Join(saveDir, names[i]))
  }

  lemma SelectedStep(listing: seq<Option<string>>, i: int, stem: string, exts: seq<string>)
    requires 0 <= i < |listing|
    ensures Selected(listing[..i + 1], stem, exts)
         == Selected(listing[..i], stem, exts) + (if Selectable(listing[i], stem, exts) then [listing[i].value] else [])
  {
    assert listing[..i + 1][..i] == listing[..i];
  }

  lemma SelectedPrefixAt(listing: seq<Option<string>>, i: int, stem: string, exts: seq<string>)
    requires 0 <= i < |listing| && Selectable(listing[i], stem, exts)
    ensures var files := Selected(listing, stem, exts);
      var before := Selected(listing[..i], stem, exts);
      |before| < |files| && files[..|before|] == before && files[|before|] == listing[i].value
  {
    var before, rest := Selected(listing[..i], stem, exts), Selected(listing[i + 1..], stem, exts);
    var x := listing[i].value;
    assert Selected(listing, stem, exts) == before + [x] + rest by {
      SelectedStep(listing, i, stem, exts);
      SelectedAppend(listing[..i + 1], listing[i + 1..], stem, exts);
      assert listing[..i + 1] + listing[i + 1..] == listing;
    }
    ConcatAround(before, x, rest);
  }

  lemma ConcatAround<T>(a: seq<T>, x: T, b: seq<T>)
    ensures var s := a + [x] + b; |a| < |s| && s[..|a|] == a && s[|a|] == x
  {
    var s := a + [x] + b;
    assert s[..|a|] == a;
  }

  lemma SavedChainExtend(dir: set<string>, base: string, files: seq<string>, names: seq<string>, file: string, name: string)
    requires SavedChain(dir, base, files, names)
    requires IsFirstFree(dir + Elems(names), base, Lower(Ext(file)), name)
    ensures SavedChain(dir, base, files + [file], names + [name])
  {
    var names', files' := names + [name], files + [file];
    forall k | 0 <= k < |names'|
      ensures IsFirstFree(dir + Elems(names'[..k]), base, Lower(Ext(files'[k])), names'[k])
    {
      if k < |names| {
        assert names'[..k] == names[..k];
        assert files'[k] == files[k] && names'[k] == names[k];
      } else {
        assert names'[..k] == names;
      }
    }
  }

  /**
   * What the sibling loop has done: `names` were saved for the first
   * `|names|` selected files, none of whose downloads failed; `failure` is
   * the error code raised by the next selected file's download, and with no
   * failure every selected file was saved.
   */
  ghost predicate SiblingsSaved(dir: set<string>, fetchErrors: map<(string, string), int>, folder: string,
                                base: string, files: seq<string>, names: seq<string>, failure: Option<int>)
  {
    && |names| <= |files|
    && SavedChain(dir, base, files[..|names|], names)
    && (forall k :: 0 <= k < |names| ==> (folder, files[k]) !in fetchErrors)
    && (failure.Some? ==>
          |names| < |files| && (folder, files[|names|]) in fetchErrors
          && failure.value == fetchErrors[(folder, files[|names|])])
    && (failure.None? ==> |names| == |files|)
  }

  /** The invariant of the sibling loop over the files selected so far. */
  ghost predicate LoopState(dir: set<string>, fetchErrors: map<(string, string), int>, folder: string,
                            base: string, before: seq<string>, names: seq<string>)
  {
    SavedChain(dir, base, before, names) && forall k :: 0 <= k < |names| ==> (folder, before[k]) !in fetchErrors
  }

  lemma LoopStateExtend(dir: set<string>, fetchErrors: map<(string, string), int>, folder: string, base: string,
                        before: seq<string>, names: seq<string>, file: string, name: string)
    requires LoopState(dir, fetchErrors, folder, base, before, names)
    requires IsFirstFree(dir + Elems(names), base, Lower(Ext(file)), name) && (folder, file) !in fetchErrors
    ensures LoopState(dir, fetchErrors, folder, base, before + [file], names + [name])
  {
    SavedChainExtend(dir, base, before, names, file, name);
  }

  lemma LoopStateFailed(dir: set<string>, fetchErrors: map<(string, string), int>, folder: string, base: string,
                        before: seq<string>, names: seq<string>, files: seq<string>)
    requires LoopState(dir, fetchErrors, folder, base, before, names)
    requires |before| < |files| && files[..|before|] == before && (folder, files[|before|]) in fetchErrors
    ensures SiblingsSaved(dir, fetchErrors, folder, base, files, names, Some(fetchErrors[(folder, files[|before|])]))
  {
    assert forall k :: 0 <= k < |names| ==> files[k] == before[k];
  }

  lemma LoopStateDone(dir: set<string>, fetchErrors: map<(string, string), int>, folder: string, base: string,
                      files: seq<string>, names: seq<string>)
    requires LoopState(dir, fetchErrors, folder, base, files, names)
    ensures SiblingsSaved(dir, fetchErrors, folder, base, files, names, None)
  {
    assert files[..|names|] == files;
  }

  /** One pass of the capture loop's body, over the listing entry `entry`. */
  method SaveEntry(dir: set<string>, fetchErrors: map<(string, string), int>, folder: string, base: string,
                   ghost before: seq<string>, names: seq<string>, current: set<string>,
                   entry: Option<string>, stem: string, exts: seq<string>)
    returns (names': seq<string>, failure: Option<int>, current': set<string>)
    requires LoopState(dir, fetchErrors, folder, base, before, names) && current == dir + Elems(names)
    ensures failure.None? ==>
      LoopState(dir, fetchErrors, folder, base,
                before + (if Selectable(entry, stem, exts) then [entry.value] else []), names')
      && current' == dir + Elems(names')
    ensures failure.Some? ==>
      Selectable(entry, stem, exts) && (folder, entry.value) in fetchErrors
      && failure.value == fetchErrors[(folder, entry.value)] && names' == names && current' == current
  {
    names', failure, current' := names, None, current;
    if entry.None? || !StartsWith(entry.value, stem) || Lower(Ext(entry.value)) !in exts {
      assert before + [] == before;
      return;
    }
    var file := entry.value;
    var fext := Lower(Ext(file));
    var outname := UniqueFilename(current, base, fext);
    if (folder, file) in fetchErrors {
      return names, Some(fetchErrors[(folder, file)]), current;
    }
    LoopStateExtend(dir, fetchErrors, folder, base, before, names, file, outname);
    names' := names + [outname];
    current' := current + {outname};
    assert Elems(names') == Elems(names) + {outname};
  }

  /** The `for file in files` loop of `capture`. */
  method SaveSiblings(dir: set<string>, fetchErrors: map<(string, string), int>, folder: string,
                      listing: seq<Option<string>>, stem: string, exts: seq<string>, base: string)
    returns (names: seq<string>, failure: Option<int>, dir': set<string>)
    ensures SiblingsSaved(dir, fetchErrors, folder, base, Selected(listing, stem, exts), names, failure)
    ensures dir' == dir + Elems(names)
  {
    names, failure, dir' := [], None, dir;
    var i := 0;
    while i < |listing|
      invariant 0 <= i <= |listing|
      invariant LoopState(dir, fetchErrors, folder, base, Selected(listing[..i], stem, exts), names)
      invariant dir' == dir + Elems(names)
    {
      ghost var before := Selected(listing[..i], stem, exts);
      SelectedStep(listing, i, stem, exts);
      var saved, failed, grown := SaveEntry(dir, fetchErrors, folder, base, before, names, dir', listing[i], stem, exts);
      if failed.Some? {
        SelectedPrefixAt(listing, i, stem, exts);
        LoopStateFailed(dir, fetchErrors, folder, base, before, names, Selected(listing, stem, exts));
        return names, failed, dir';
      }
      names, dir' := saved, grown;
      i := i + 1;
    }
    assert listing[..i] == listing;
    LoopStateDone(dir, fetchErrors, folder, base, Selected(listing, stem, exts), names);
  }

  /** The files a capture of `shot` selects under a save-format setting. */
  function CaptureSelection(shot: Shot, saveFormat: string): seq<string>
  {
    Selected(shot.listing, Stem(shot.name), ExtensionPolicy(saveFormat))
  }

  function FailureOf(outcome: CaptureOutcome): Option<int>
  {
    if outcome.CaptureFailed? then Some(outcome.code) else None
  }

  /**
   * `CameraGUI.capture`: takes a picture, then walks the camera's folder
   * listing and saves every entry that is present, starts with the captured
   * file's stem (a prefix match) and has a lower-cased extension in the
   * policy, each under the first free name in the folder as it grows. A
   * gphoto2 error ends the capture as failed (files saved so far stay on
   * disk); a link error also re-initialises the camera.
   */
  method Capture(connected: bool, dir: set<string>, fetchErrors: map<(string, string), int>,
                 saveDir: string, base: string, saveFormat: string, shot: Result<Shot, int>)
    returns (outcome: CaptureOutcome, names: seq<string>, dir': set<string>)
    ensures dir' == dir + Elems(names)
    ensures forall k :: 0 <= k < |names| ==> names[k] !in dir
    ensures forall j, k :: 0 <= j < k < |names| ==> names[j] != names[k]
    ensures !connected ==> outcome == NoCamera && names == []
    ensures connected && shot.Err? ==> outcome == CaptureFailed(shot.error, IsLinkError(shot.error)) && names == []
    ensures connected && shot.Ok? ==>
      SiblingsSaved(dir, fetchErrors, shot.value.folder, base, CaptureSelection(shot.value, saveFormat), names, FailureOf(outcome))
    ensures outcome.CaptureFailed? ==> outcome.reinit == IsLinkError(outcome.code)
    ensures outcome.Saved? <==> connected && shot.Ok? && FailureOf(outcome).None? && |names| > 0
    ensures outcome.Saved? ==> outcome.paths == SavedPaths(saveDir, names)
    ensures outcome.NothingSaved? <==> connected && shot.Ok? && FailureOf(outcome).None? && |names| == 0
  {
    names, dir' := [], dir;
    if !connected {
      return NoCamera, names, dir';
    }
    if shot.Err? {
      return CaptureFailed(shot.error, IsLinkError(shot.error)), names, dir';
    }
    var stem := Stem(shot.value.name);
    var exts := ExtensionPolicy(saveFormat);
    var failure;
    names, failure, dir' := SaveSiblings(dir, fetchErrors, shot.value.folder, shot.value.listing, stem, exts, base);
    SavedChainFresh(dir, base, CaptureSelection(shot.value, saveFormat)[..|names|], names);
    match failure
    case Some(code) =>
      outcome := CaptureFailed(code, IsLinkError(code));
    case None =>
      outcome := if |names| == 0 then NothingSaved else Saved(SavedPaths(saveDir, names));
  }

  /** A name of the form stem + "." + suffix splits at that dot. */
  lemma SplitSimpleName(stem: string, ext: string)
    requires stem != "" && forall i :: 0 <= i < |stem| ==> stem[i] != '.' && stem[i] != '/'
    requires |ext| >= 1 && ext[0] == '.' && forall i :: 1 <= i < |ext| ==> ext[i] != '.' && ext[i] != '/'
    ensures Ext(stem + ext) == ext && Stem(stem + ext) == stem
  {
    var p := stem + ext;
    var sep, dot := RFind(p, '/'), RFind(p, '.');
    assert p[|stem|] == '.';
    assert forall i :: 0 <= i < |p| ==> p[i] != '/';
    assert forall i :: |stem| < i < |p| ==> p[i] != '.';
    assert sep == -1;
    assert dot == |stem|;
    assert p[0] == stem[0];
  }

  /** With a JPEG-only policy, a capture whose siblings are an .ARW and a .JPG saves only the JPG. */
  lemma JpegOnlyCaptureExample()
    ensures Selected([Some("DSC1.ARW"), Some("DSC1.JPG")], Stem("DSC1.ARW"), ExtensionPolicy("jpeg")) == ["DSC1.JPG"]
  {
    assert "DSC1" + ".ARW" == "DSC1.ARW" && "DSC1" + ".JPG" == "DSC1.JPG";
    SplitSimpleName("DSC1", ".ARW");
    SplitSimpleName("DSC1", ".JPG");
    var exts := ExtensionPolicy("jpeg");
    assert exts == JPEG_EXTS;
    assert Lower(".ARW") == ".arw" && Lower(".JPG") == ".jpg";
    assert !Selectable(Some("DSC1.ARW"), "DSC1", exts);
    assert "DSC1.JPG"[..4] == "DSC1";
    assert Selectable(Some("DSC1.JPG"), "DSC1", exts);
    var listing := [Some("DSC1.ARW"), Some("DSC1.JPG")];
    assert listing[..1] == [Some("DSC1.ARW")];
    assert listing[..1][..0] == [];
    assert Selected(listing[..1], "DSC1", exts) == [];
  }

  /** The sibling test is a prefix match: capturing DSC1.JPG also saves DSC10.JPG from the same folder. */
  lemma PrefixMatchExample()
    ensures Selected([Some("DSC1.JPG"), Some("DSC10.JPG")], Stem("DSC1.JPG"), ExtensionPolicy("jpeg"))
         == ["DSC1.JPG", "DSC10.JPG"]
  {
    assert "DSC1" + ".JPG" == "DSC1.JPG" && "DSC10" + ".JPG" == "DSC10.JPG";
    SplitSimpleName("DSC1", ".JPG");
    SplitSimpleName("DSC10", ".JPG");
    var exts := ExtensionPolicy("jpeg");
    assert exts == JPEG_EXTS;
    assert Lower(".JPG") == ".jpg";
    assert "DSC1.JPG"[..4] == "DSC1" && "DSC10.JPG"[..4] == "DSC1";
    assert Selectable(Some("DSC1.JPG"), "DSC1", exts);
    assert Selectable(Some("DSC10.JPG"), "DSC1", exts);
    var listing := [Some("DSC1.JPG"), Some("DSC10.JPG")];
    assert listing[..1] == [Some("DSC1.JPG")];
    assert listing[..1][..0] == [];
    assert Selected(listing[..1], "DSC1", exts) == ["DSC1.JPG"];
  }
}
