/**
 * Camera configuration probing: reading one option, setting an option
 * against its list of allowed choices, the aperture fallback and the
 * ordered first-present lookups of the settings panel.
 *
 * The camera's configuration tree is modelled as a map from option name to
 * its allowed choices and current value; an option that is absent from the
 * map is one `get_child_by_name` cannot find.  Whether the camera accepts a
 * `set_config` call is an oracle: the set of option names it rejects.
 */
module TetherConfig {
  import opened Wrappers

  datatype ConfigOption = ConfigOption(choices: seq<string>, value: string)

  type CameraConfig = map<string, ConfigOption>

  /** `get_camera_setting`: the option's value, or None when it is missing. */
  function GetSetting(config: CameraConfig, option: string): (r: Option<string>)
    ensures r.Some? <==> option in config
    ensures r.Some? ==> r.value == config[option].value
  {
    if option in config then Some(config[option].value) else None
  }

  /** What `set_camera_config_with_choices` reports back to the user. */
  datatype SetMessage =
    | InvalidChoice(choices: seq<string>)   // value not among the allowed ones
    | Applied(option: string, value: string)
    | SetFailed(option: string)             // missing option or camera refused
    | ApertureUnsupported                   // neither aperture option could be set

  datatype SetOutcome = SetOutcome(ok: bool, message: SetMessage, config: CameraConfig)

  /** The camera takes `value` for `option`. */
  predicate Accepts(config: CameraConfig, option: string, value: string, rejected: set<string>)
  {
    option in config && value in config[option].choices && option !in rejected
  }

  /** `set_camera_config_with_choices`. */
  function SetWithChoices(config: CameraConfig, option: string, value: string, rejected: set<string>): (r: SetOutcome)
    ensures r.ok <==> Accepts(config, option, value, rejected)
    ensures r.ok ==> r.config == config[option := ConfigOption(config[option].choices, value)]
                     && r.message == Applied(option, value)
    ensures !r.ok ==> r.config == config
    ensures option in config && value !in config[option].choices ==> r.message == InvalidChoice(config[option].choices)
    ensures !r.ok && (option !in config || value in config[option].choices) ==> r.message == SetFailed(option)
  {
    if option !in config then SetOutcome(false, SetFailed(option), config)
    else if value !in config[option].choices then SetOutcome(false, InvalidChoice(config[option].choices), config)
    else if option in rejected then SetOutcome(false, SetFailed(option), config)
    else SetOutcome(true, Applied(option, value), config[option := ConfigOption(config[option].choices, value)])
  }

  const APERTURE_KEYS: seq<string> := ["aperture", "f-number"]

  /** `set_aperture`: the first option of `APERTURE_KEYS` that takes the value. */
  method SetAperture(config: CameraConfig, value: string, rejected: set<string>) returns (r: SetOutcome)
    ensures r.ok <==> exists i :: 0 <= i < |APERTURE_KEYS| && Accepts(config, APERTURE_KEYS[i], value, rejected)
    ensures Accepts(config, "aperture", value, rejected) ==> r == SetWithChoices(config, "aperture", value, rejected)
    ensures !Accepts(config, "aperture", value, rejected) && Accepts(config, "f-number", value, rejected)
            ==> r == SetWithChoices(config, "f-number", value, rejected)
    ensures !r.ok ==> r == SetOutcome(false, ApertureUnsupported, config)
  {
    assert APERTURE_KEYS[0] == "aperture" && APERTURE_KEYS[1] == "f-number";
    var i := 0;
    while i < |APERTURE_KEYS|
      invariant 0 <= i <= |APERTURE_KEYS|
      invariant forall j :: 0 <= j < i ==> !Accepts(config, APERTURE_KEYS[j], value, rejected)
    {
      var attempt := SetWithChoices(config, APERTURE_KEYS[i], value, rejected);
      if attempt.ok {
        return attempt;
      }
      i := i + 1;
    }
    return SetOutcome(false, ApertureUnsupported, config);
  }

  /** `keys[i]` is the first of `keys` the camera knows. */
  ghost predicate FirstPresentAt(config: CameraConfig, keys: seq<string>, i: int)
  {
    0 <= i < |keys| && keys[i] in config && forall j :: 0 <= j < i ==> keys[j] !in config
  }

  /** The value of the first of `keys` the camera knows, if any. */
  function FirstPresent(config: CameraConfig, keys: seq<string>): (r: Option<string>)
    ensures r.None? <==> forall i :: 0 <= i < |keys| ==> keys[i] !in config
    ensures forall i :: FirstPresentAt(config, keys, i) ==> r == Some(config[keys[i]].value)
    decreases |keys|
  {
    if |keys| == 0 then None
    else if keys[0] in config then Some(config[keys[0]].value)
    else
      var r := FirstPresent(config, keys[1..]);
      assert forall i :: FirstPresentAt(config, keys, i) ==> i >= 1 && FirstPresentAt(config, keys[1..], i - 1);
      r
  }

  /** Python's `value or "N/A"` on an optional string. */
  function OrNA(v: Option<string>): (r: string)
    ensures r == "N/A" <==> v.None? || v.value == "" || v.value == "N/A"
    ensures v.Some? && v.value != "" ==> r == v.value
  {
    if v.None? || v.value == "" then "N/A" else v.value
  }

  /** The five fields the settings panel shows. */
  datatype Snapshot = Snapshot(iso: string, shutterSpeed: string, aperture: string,
                               whiteBalance: string, kelvin: string)

  const KELVIN_KEYS: seq<string> :=
    ["colortemperature", "color temperature", "kelvin", "whitebalancekelvin", "whitebalance_kelvin"]

  const WHITE_BALANCE_KEYS: seq<string> := ["whitebalance", "white balance"]

  /** `load_settings`; `camera` is None when no camera is connected. */
  method LoadSettings(camera: Option<CameraConfig>) returns (snap: Snapshot)
    ensures camera.None? ==> snap == Snapshot("N/A", "N/A", "N/A", "N/A", "N/A")
    ensures camera.Some? ==> snap.iso == OrNA(GetSetting(camera.value, "iso"))
    ensures camera.Some? ==> snap.shutterSpeed == OrNA(GetSetting(camera.value, "shutterspeed"))
    ensures camera.Some? ==> snap.aperture == OrNA(FirstPresent(camera.value, APERTURE_KEYS))
    ensures camera.Some? ==> snap.whiteBalance == OrNA(FirstPresent(camera.value, WHITE_BALANCE_KEYS))
    ensures camera.Some? && (forall i :: 0 <= i < |KELVIN_KEYS| ==> KELVIN_KEYS[i] !in camera.value)
            ==> snap.kelvin == "N/A"
    ensures camera.Some? ==> forall i :: FirstPresentAt(camera.value, KELVIN_KEYS, i)
                               ==> snap.kelvin == camera.value[KELVIN_KEYS[i]].value
  {
    if camera.None? {
      return Snapshot("N/A", "N/A", "N/A", "N/A", "N/A");
    }
    var config := camera.value;
    var iso := OrNA(GetSetting(config, "iso"));
    var ss := OrNA(GetSetting(config, "shutterspeed"));
    var ap := GetSetting(config, "aperture");
    if ap.None? {
      ap := GetSetting(config, "f-number");
    }
    var wb := GetSetting(config, "whitebalance");
    if wb.None? {
      wb := GetSetting(config, "white balance");
    }
    var kelvin := "N/A";
    var i := 0;
    while i < |KELVIN_KEYS|
      invariant 0 <= i <= |KELVIN_KEYS|
      invariant forall j :: 0 <= j < i ==> KELVIN_KEYS[j] !in config
    {
      var v := GetSetting(config, KELVIN_KEYS[i]);
      if v.Some? {
        assert FirstPresentAt(config, KELVIN_KEYS, i);
        kelvin := v.value;
        break;
      }
      i := i + 1;
    }
    assert ap == FirstPresent(config, APERTURE_KEYS) by {
      assert FirstPresent(config, APERTURE_KEYS[1..]) == GetSetting(config, "f-number") by {
        assert APERTURE_KEYS[1..][1..] == [];
      }
    }
    assert wb == FirstPresent(config, WHITE_BALANCE_KEYS) by {
      assert FirstPresent(config, WHITE_BALANCE_KEYS[1..]) == GetSetting(config, "white balance") by {
        assert WHITE_BALANCE_KEYS[1..][1..] == [];
      }
    }
    snap := Snapshot(iso, ss, OrNA(ap), OrNA(wb), kelvin);
  }

  /** A present but empty aperture shows "N/A" without consulting "f-number". */
  lemma EmptyApertureShadowsFNumber(config: CameraConfig)
    requires "aperture" in config && config["aperture"].value == ""
    ensures OrNA(FirstPresent(config, APERTURE_KEYS)) == "N/A"
  {
    assert FirstPresentAt(config, APERTURE_KEYS, 0);
  }

  /** Setting an option to a value it offers and then reading it back yields that value. */
  lemma SetThenGet(config: CameraConfig, option: string, value: string, rejected: set<string>)
    requires Accepts(config, option, value, rejected)
    ensures GetSetting(SetWithChoices(config, option, value, rejected).config, option) == Some(value)
  {
  }
}
