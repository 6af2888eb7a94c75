/**
 * What the tether window does when the listener or a capture reports a
 * saved file: a JPEG is uploaded (when automatic upload is on) and shown
 * in the preview; any other file is only logged.
 */
module TetherNotify {
  import opened Wrappers
  import opened PyText
  import opened AwsManager
  import opened TetherFiles

  /** The file is a JPEG by its lower-cased extension. */
  predicate IsJpegPath(path: string)
  {
    Lower(Ext(path)) in [".jpg", ".jpeg"]
  }

  datatype Reaction = Reaction(upload: Option<UploadRequest>, preview: bool)

  /** `notify_saved_from_thread`; `month` stands for the current `YYYY-MM`. */
  function NotifySaved(manager: S3Manager, path: string, month: string): (r: Reaction)
    reads manager
    ensures r.preview <==> IsJpegPath(path)
    ensures IsJpegPath(path) ==> r.upload == manager.ProcessUpload(path, month)
    ensures !IsJpegPath(path) ==> r.upload.None?
  {
    var jpeg := IsJpegPath(path);
    var upload := if jpeg && UploadEnabled(manager.settings) then manager.ManualUpload(path, month) else None;
    Reaction(upload, jpeg)
  }

  /** A RAW file is never uploaded nor previewed, whatever the settings. */
  lemma RawFilesStayLocal(manager: S3Manager, stem: string, month: string)
    requires stem != "" && forall i :: 0 <= i < |stem| ==> stem[i] != '.' && stem[i] != '/'
    ensures NotifySaved(manager, stem + ".ARW", month) == Reaction(None, false)
  {
    SplitSimpleName(stem, ".ARW");
    assert Lower(".ARW") == ".arw";
  }
}
