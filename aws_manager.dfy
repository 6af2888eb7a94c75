/**
 * The S3 side of the tether application: the settings file and its
 * ten-entry history of (region, bucket) targets, the validation of the AWS
 * settings form, the decision whether an S3 client can be configured, and
 * the gate and object key of an upload.
 *
 * Files on disk are values of `StoredFile`: absent, present but unreadable
 * as JSON, or holding the content.  The clock is a parameter (`timestamp`,
 * `month`); whether a file can be written and whether creating the boto3
 * client raises are boolean oracles.
 */
module AwsManager {
  import opened Wrappers
  import opened JsonValues
  import opened PyText

  type Settings = map<string, Json>

  datatype StoredFile<T> = Absent | Malformed | Present(content: T)

  /**
   * One history record: when and by whom a target was saved, and the
   * target itself.  The access and secret keys have no place in it.
   */
  datatype HistoryEntry = HistoryEntry(timestamp: string, user: string, region: Json, bucket: Json)

  const CURRENT_USER: string := "USER"
  const HISTORY_LIMIT: nat := 10

  /**
   * The history record `save_settings` writes for `settings`.  The ensures only
   * spell out the record; what it guarantees is in EntryIgnoresCredentials.
   */
  function EntryFor(settings: Settings, timestamp: string): (e: HistoryEntry)
    ensures e.user == CURRENT_USER && e.timestamp == timestamp
    ensures "region" in settings ==> e.region == settings["region"]
    ensures "region" !in settings ==> e.region == JStr("")
    ensures "bucket" in settings ==> e.bucket == settings["bucket"]
    ensures "bucket" !in settings ==> e.bucket == JStr("")
  {
    HistoryEntry(timestamp, CURRENT_USER, Get(settings, "region", JStr("")), Get(settings, "bucket", JStr("")))
  }

  /** The record does not depend on the credentials in the settings. */
  lemma EntryIgnoresCredentials(settings: Settings, timestamp: string, accessKey: Json, secretKey: Json)
    ensures EntryFor(settings, timestamp)
         == EntryFor(settings["access_key" := accessKey]["secret_key" := secretKey], timestamp)
  {
    var other := settings["access_key" := accessKey]["secret_key" := secretKey];
    assert Get(other, "region", JStr("")) == Get(settings, "region", JStr(""));
    assert Get(other, "bucket", JStr("")) == Get(settings, "bucket", JStr(""));
  }

  /** Two records name the same (region, bucket) target. */
  predicate SameTarget(h: HistoryEntry, e: HistoryEntry)
  {
    h.region == e.region && h.bucket == e.bucket
  }

  /** The history with every record for `e`'s target filtered out, order kept. */
  function Without(history: seq<HistoryEntry>, e: HistoryEntry): seq<HistoryEntry>
    decreases |history|
  {
    if |history| == 0 then []
    else if SameTarget(history[0], e) then Without(history[1..], e)
    else [history[0]] + Without(history[1..], e)
  }

  /** A record survives the filter iff it was in the history and names a different target. */
  lemma {:induction false} WithoutMembers(history: seq<HistoryEntry>, e: HistoryEntry)
    ensures |Without(history, e)| <= |history|
    ensures forall x :: x in Without(history, e) <==> x in history && !SameTarget(x, e)
    decreases |history|
  {
    if |history| > 0 {
      WithoutMembers(history[1..], e);
      assert history == [history[0]] + history[1..];
    }
  }

  /** `idx` picks the elements of `a` out of `b`, in order. */
  ghost predicate SubsequenceBy<T>(a: seq<T>, b: seq<T>, idx: seq<int>)
  {
    |idx| == |a|
    && (forall i :: 0 <= i < |idx| ==> 0 <= idx[i] < |b| && b[idx[i]] == a[i])
    && (forall i, j :: 0 <= i < j < |idx| ==> idx[i] < idx[j])
  }

  ghost predicate IsSubsequence<T>(a: seq<T>, b: seq<T>)
  {
    exists idx :: SubsequenceBy(a, b, idx)
  }

  lemma {:induction false} WithoutIndices(history: seq<HistoryEntry>, e: HistoryEntry) returns (idx: seq<int>)
    ensures SubsequenceBy(Without(history, e), history, idx)
    decreases |history|
  {
    if |history| == 0 {
      idx := [];
    } else {
      var rest := WithoutIndices(history[1..], e);
      var shifted := seq(|rest|, i requires 0 <= i < |rest| => rest[i] + 1);
      if SameTarget(history[0], e) {
        idx := shifted;
      } else {
        idx := [0] + shifted;
        assert forall i :: 1 <= i < |idx| ==> idx[i] == rest[i - 1] + 1;
      }
    }
  }

  /** Filtering leaves a history with no record for `e`'s target unchanged. */
  lemma {:induction false} WithoutNoMatch(history: seq<HistoryEntry>, e: HistoryEntry)
    requires forall i :: 0 <= i < |history| ==> !SameTarget(history[i], e)
    ensures Without(history, e) == history
    decreases |history|
  {
    if |history| > 0 {
      WithoutNoMatch(history[1..], e);
    }
  }

  /** The history list `AWSConfigManager.save_settings` writes back. */
  function UpdatedHistory(history: seq<HistoryEntry>, e: HistoryEntry): (r: seq<HistoryEntry>)
    ensures 0 < |r| <= HISTORY_LIMIT && r[|r| - 1] == e
    ensures |r| == if |Without(history, e)| + 1 < HISTORY_LIMIT then |Without(history, e)| + 1 else HISTORY_LIMIT
    ensures var w := Without(history, e); r[..|r| - 1] == w[|w| - (|r| - 1)..]
  {
    var kept := Without(history, e) + [e];
    if |kept| > HISTORY_LIMIT then kept[|kept| - HISTORY_LIMIT..] else kept
  }

  /** Exactly one record of the new history names the saved target: the last one. */
  lemma UpdatedHistoryOneTarget(history: seq<HistoryEntry>, e: HistoryEntry)
    ensures var r := UpdatedHistory(history, e);
            forall i :: 0 <= i < |r| ==> (SameTarget(r[i], e) <==> i == |r| - 1)
  {
    var w := Without(history, e);
    var r := UpdatedHistory(history, e);
    WithoutMembers(history, e);
    forall i | 0 <= i < |r| - 1
      ensures !SameTarget(r[i], e)
    {
      assert r[i] == r[..|r| - 1][i] == w[|w| - (|r| - 1) + i];
      assert r[i] in w;
    }
  }

  /** The records kept before the new one are earlier records, in their original order. */
  lemma UpdatedHistoryKeepsOrder(history: seq<HistoryEntry>, e: HistoryEntry)
    ensures var r := UpdatedHistory(history, e); IsSubsequence(r[..|r| - 1], history)
  {
    var w := Without(history, e);
    var r := UpdatedHistory(history, e);
    var idx := WithoutIndices(history, e);
    var k := |w| - (|r| - 1);
    assert SubsequenceBy(r[..|r| - 1], history, idx[k..]);
  }

  /** Saving the same target twice replaces its record and keeps the others as they were. */
  lemma UpdatedHistoryResave(history: seq<HistoryEntry>, e: HistoryEntry, e': HistoryEntry)
    requires SameTarget(e', e)
    ensures var r := UpdatedHistory(history, e);
            UpdatedHistory(r, e') == r[..|r| - 1] + [e']
  {
    var r := UpdatedHistory(history, e);
    UpdatedHistoryOneTarget(history, e);
    WithoutNoMatch(r[..|r| - 1], e');
    assert r == r[..|r| - 1] + [e];
    assert Without(r, e') == Without(r[..|r| - 1], e') + Without([e], e') by {
      WithoutAppend(r[..|r| - 1], [e], e');
    }
    assert Without([e], e') == [] by {
      assert [e][1..] == [];
    }
    assert Without(r, e') == r[..|r| - 1];
  }

  lemma {:induction false} WithoutAppend(a: seq<HistoryEntry>, b: seq<HistoryEntry>, e: HistoryEntry)
    ensures Without(a + b, e) == Without(a, e) + Without(b, e)
    decreases |a|
  {
    if |a| > 0 {
      assert (a + b)[1..] == a[1..] + b;
      WithoutAppend(a[1..], b, e);
    } else {
      assert a + b == b;
    }
  }

  function HistoryOf(file: StoredFile<seq<HistoryEntry>>): seq<HistoryEntry>
  {
    if file.Present? then file.content else []
  }

  /** `AWSConfigManager`: the settings file and the history file. */
  class ConfigStore {
    var configFile: StoredFile<Settings>
    var historyFile: StoredFile<seq<HistoryEntry>>

    constructor (configFile: StoredFile<Settings>, historyFile: StoredFile<seq<HistoryEntry>>)
      ensures this.configFile == configFile && this.historyFile == historyFile
    {
      this.configFile := configFile;
      this.historyFile := historyFile;
    }

    /** `load_history`: an absent or unreadable history reads as empty. */
    function LoadHistory(): (r: seq<HistoryEntry>)
      reads this
      ensures historyFile.Present? ==> r == historyFile.content
      ensures !historyFile.Present? ==> r == []
    {
      HistoryOf(historyFile)
    }

    /** `load_settings`: an absent or unreadable settings file reads as `{}`. */
    function LoadSettings(): (r: Settings)
      reads this
      ensures configFile.Present? ==> r == configFile.content
      ensures !configFile.Present? ==> r == map[]
    {
      if configFile.Present? then configFile.content else map[]
    }

    /**
     * `save_settings`: write the settings, then the updated history.  A
     * failing write ends the call with False and later steps are skipped.
     */
    method SaveSettings(settings: Settings, timestamp: string, configWritable: bool, historyWritable: bool)
      returns (ok: bool)
      modifies this
      ensures ok <==> configWritable && historyWritable
      ensures configFile == if configWritable then Present(settings) else old(configFile)
      ensures historyFile == if ok then Present(UpdatedHistory(old(LoadHistory()), EntryFor(settings, timestamp)))
                             else old(historyFile)
    {
      if !configWritable {
        return false;
      }
      configFile := Present(settings);
      var history := UpdatedHistory(LoadHistory(), EntryFor(settings, timestamp));
      if !historyWritable {
        return false;
      }
      historyFile := Present(history);
      ok := true;
    }
  }

  /** What the user typed into the AWS settings window. */
  datatype SettingsForm = SettingsForm(accessKey: string, secretKey: string, region: string, bucket: string,
                                       uploadEnabled: bool)

  /**
   * The settings dictionary the window builds from the stripped fields.  The
   * ensures only spell out the record; what it guarantees is in FormSettingsComplete.
   */
  function FormSettings(form: SettingsForm): (s: Settings)
    ensures s.Keys == {"access_key", "secret_key", "region", "bucket", "upload_enabled"}
    ensures s["access_key"] == JStr(Strip(form.accessKey)) && s["secret_key"] == JStr(Strip(form.secretKey))
    ensures s["region"] == JStr(Strip(form.region)) && s["bucket"] == JStr(Strip(form.bucket))
    ensures s["upload_enabled"] == JBool(form.uploadEnabled)
  {
    map["access_key" := JStr(Strip(form.accessKey)), "secret_key" := JStr(Strip(form.secretKey)),
        "region" := JStr(Strip(form.region)), "bucket" := JStr(Strip(form.bucket)),
        "upload_enabled" := JBool(form.uploadEnabled)]
  }

  predicate BlankText(s: string)
  {
    forall i :: 0 <= i < |s| ==> IsSpace(s[i])
  }

  /** All four text fields are non-empty once stripped. */
  predicate FormComplete(form: SettingsForm)
  {
    Strip(form.accessKey) != "" && Strip(form.secretKey) != "" && Strip(form.region) != "" && Strip(form.bucket) != ""
  }

  /** A form is rejected exactly when one of its four fields is blank (empty or whitespace only). */
  lemma FormCompleteIffNoBlank(form: SettingsForm)
    ensures FormComplete(form) <==>
            !BlankText(form.accessKey) && !BlankText(form.secretKey) && !BlankText(form.region) && !BlankText(form.bucket)
  {
    StripEmpty(form.accessKey);
    StripEmpty(form.secretKey);
    StripEmpty(form.region);
    StripEmpty(form.bucket);
  }

  datatype FormResult = IncompleteInput | Saved | SaveFailed

  /** `AWSSettingsWindow.save_settings`: nothing is written for an incomplete form. */
  method SubmitSettingsForm(store: ConfigStore, form: SettingsForm, timestamp: string,
                            configWritable: bool, historyWritable: bool)
    returns (res: FormResult)
    modifies store
    ensures !FormComplete(form) ==> res == IncompleteInput
    ensures !FormComplete(form) ==> store.configFile == old(store.configFile) && store.historyFile == old(store.historyFile)
    ensures FormComplete(form) ==> (res == Saved <==> configWritable && historyWritable) && res != IncompleteInput
    ensures FormComplete(form) && configWritable ==> store.configFile == Present(FormSettings(form))
    ensures FormComplete(form) && !configWritable ==> store.configFile == old(store.configFile)
    ensures FormComplete(form) && res != Saved ==> store.historyFile == old(store.historyFile)
    ensures FormComplete(form) && res == Saved ==>
            store.historyFile == Present(UpdatedHistory(HistoryOf(old(store.historyFile)),
                                                        EntryFor(FormSettings(form), timestamp)))
  {
    var settings := FormSettings(form);
    if !FormComplete(form) {
      return IncompleteInput;
    }
    var ok := store.SaveSettings(settings, timestamp, configWritable, historyWritable);
    res := if ok then Saved else SaveFailed;
  }

  /** All four credentials and target fields are present and truthy. */
  predicate Complete(settings: Settings)
  {
    Truthy(Get(settings, "access_key", JNull)) && Truthy(Get(settings, "secret_key", JNull))
    && Truthy(Get(settings, "region", JNull)) && Truthy(Get(settings, "bucket", JNull))
  }

  /** A form the window accepts yields settings the S3 manager can configure a client from. */
  lemma FormSettingsComplete(form: SettingsForm)
    requires FormComplete(form)
    ensures Complete(FormSettings(form))
  {
  }

  /** The parameters the boto3 client is created with. */
  datatype S3Client = S3Client(accessKey: Json, secretKey: Json, region: Json)

  /** One `upload_file` call. */
  datatype UploadRequest = UploadRequest(bucket: Json, key: string, localPath: string, contentType: string)

  /** `upload_enabled` with a missing key counting as True. */
  predicate UploadEnabled(settings: Settings)
  {
    Truthy(Get(settings, "upload_enabled", JBool(true)))
  }

  lemma UploadEnabledByDefault(settings: Settings)
    ensures "upload_enabled" !in settings ==> UploadEnabled(settings)
    ensures "upload_enabled" in settings ==> (UploadEnabled(settings) <==> Truthy(settings["upload_enabled"]))
  {
  }

  /** The object key `photos/<month>/<basename>`. */
  function UploadKey(month: string, path: string): (key: string)
    ensures StartsWith(key, "photos/" + month + "/")
    ensures var name := key[|"photos/" + month + "/"|..]; '/' !in name && |name| <= |path| && path[|path| - |name|..] == name
    ensures var name := key[|"photos/" + month + "/"|..]; |name| < |path| ==> path[|path| - |name| - 1] == '/'
  {
    "photos/" + month + "/" + Basename(path)
  }

  /** Within one month, two uploads share a key exactly when their file names agree. */
  lemma UploadKeyInjective(month: string, p: string, q: string)
    ensures UploadKey(month, p) == UploadKey(month, q) <==> Basename(p) == Basename(q)
  {
    var prefix := "photos/" + month + "/";
    if UploadKey(month, p) == UploadKey(month, q) {
      assert UploadKey(month, p)[|prefix|..] == Basename(p);
      assert UploadKey(month, q)[|prefix|..] == Basename(q);
    }
  }

  /** `AWSS3Manager`: the loaded settings, the client and the bucket it uploads to. */
  class S3Manager {
    var settings: Settings
    var client: Option<S3Client>
    var bucketName: Json

    /** `__init__` runs `initialize_client` on the settings file. */
    constructor (file: StoredFile<Settings>, clientFails: bool)
      ensures Valid()
      ensures file.Present? ==> settings == file.content
      ensures !file.Present? ==> settings == map[] && client == None
      ensures client.Some? <==> file.Present? && Complete(file.content) && !clientFails
    {
      settings := map[];
      client := None;
      bucketName := JNull;
      new;
      var _ := InitializeClient(file, clientFails);
    }

    /** A client exists only for complete settings, and uploads then go to their bucket. */
    predicate Valid()
      reads this
    {
      client.Some? ==> Complete(settings)
                       && client.value == S3Client(settings["access_key"], settings["secret_key"], settings["region"])
                       && bucketName == settings["bucket"]
    }

    /** `load_settings`: True and the file's content when it can be read, else False and no change. */
    method LoadSettings(file: StoredFile<Settings>) returns (ok: bool)
      modifies this
      ensures ok <==> file.Present?
      ensures settings == if ok then file.content else old(settings)
      ensures client == old(client) && bucketName == old(bucketName)
    {
      if file.Present? {
        settings := file.content;
        return true;
      }
      return false;
    }

    /**
     * `initialize_client`.  When the settings cannot be loaded, the previous
     * client, if any, is kept.
     */
    method InitializeClient(file: StoredFile<Settings>, clientFails: bool) returns (ok: bool)
      modifies this
      ensures ok <==> file.Present? && Complete(file.content) && !clientFails
      ensures !file.Present? ==> settings == old(settings) && client == old(client) && bucketName == old(bucketName)
      ensures file.Present? ==> settings == file.content && (client.Some? <==> ok)
      ensures ok ==> bucketName == settings["bucket"]
      ensures !ok ==> bucketName == old(bucketName)
      ensures file.Present? ==> Valid()
      ensures old(Valid()) ==> Valid()
    {
      var loaded := LoadSettings(file);
      if !loaded {
        return false;
      }
      if Complete(settings) {
        if clientFails {
          client := None;
          return false;
        }
        client := Some(S3Client(settings["access_key"], settings["secret_key"], settings["region"]));
        bucketName := settings["bucket"];
        return true;
      }
      client := None;
      return false;
    }

    /** `_process_upload`: the upload it makes, if any. */
    function ProcessUpload(path: string, month: string): (r: Option<UploadRequest>)
      reads this
      ensures r.Some? <==> client.Some? && UploadEnabled(settings)
      ensures r.Some? ==> r.value.key == UploadKey(month, path) && r.value.localPath == path
                          && r.value.bucket == bucketName && r.value.contentType == "image/jpeg"
    {
      if client.None? || !UploadEnabled(settings) then None
      else Some(UploadRequest(bucketName, UploadKey(month, path), path, "image/jpeg"))
    }

    /** `manual_upload`: like `_process_upload` but without the `upload_enabled` gate. */
    function ManualUpload(path: string, month: string): (r: Option<UploadRequest>)
      reads this
      ensures r.Some? <==> client.Some?
      ensures r.Some? ==> r.value.key == UploadKey(month, path) && r.value.localPath == path
                          && r.value.bucket == bucketName && r.value.contentType == "image/jpeg"
    {
      if client.None? then None
      else Some(UploadRequest(bucketName, UploadKey(month, path), path, "image/jpeg"))
    }

    /** Every automatic upload goes to the bucket of complete loaded settings. */
    lemma UploadTargetsConfiguredBucket(path: string, month: string)
      requires Valid()
      ensures ProcessUpload(path, month).Some? ==>
              Complete(settings) && ProcessUpload(path, month).value.bucket == settings["bucket"]
    {
    }
  }
}
