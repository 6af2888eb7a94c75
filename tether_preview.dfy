/**
 * The preview pane's bookkeeping in the tether window: the history of
 * shown JPEG paths (newest first), the image picked for comparison, and the
 * per-path rotation and zoom maps with the defaults new paths inherit.
 *
 * Rotation is stepped by a quarter turn either way, modulo 360.  Python's
 * `%` by a positive modulus never yields a negative result, which is what
 * Dafny's `%` on `int` does as well.
 */
module TetherPreview {
  import opened Wrappers

  /** One quarter turn to the left, as the "⟲ 90°" button computes it. */
  function RotatedLeft(deg: int): (r: int)
    ensures 0 <= r < 360
    ensures (r - (deg - 90)) % 360 == 0
  {
    (deg - 90) % 360
  }

  /** One quarter turn to the right, as the "⟳ 90°" button computes it. */
  function RotatedRight(deg: int): (r: int)
    ensures 0 <= r < 360
    ensures (r - (deg + 90)) % 360 == 0
  {
    (deg + 90) % 360
  }

  /** A rotation as the buttons leave it: a whole number of degrees in [0, 360). */
  predicate IsAngle(deg: int)
  {
    0 <= deg < 360
  }

  /** A right step from an angle in range, without the modulus. */
  lemma RightStep(deg: int)
    requires IsAngle(deg)
    ensures RotatedRight(deg) == if deg < 270 then deg + 90 else deg - 270
  {
  }

  /** A left step from an angle in range, without the modulus. */
  lemma LeftStep(deg: int)
    requires IsAngle(deg)
    ensures RotatedLeft(deg) == if deg < 90 then deg + 270 else deg - 90
  {
  }

  /** From an angle in range, a left step undoes a right step and vice versa. */
  lemma LeftUndoesRight(deg: int)
    requires IsAngle(deg)
    ensures RotatedLeft(RotatedRight(deg)) == deg
    ensures RotatedRight(RotatedLeft(deg)) == deg
  {
    RightStep(deg);
    LeftStep(RotatedRight(deg));
    LeftStep(deg);
    RightStep(RotatedLeft(deg));
  }

  /** Four quarter turns the same way come back to the start. */
  lemma FourRightsIdentity(deg: int)
    requires IsAngle(deg)
    ensures RotatedRight(RotatedRight(RotatedRight(RotatedRight(deg)))) == deg
  {
    var a := RotatedRight(deg);
    var b := RotatedRight(a);
    var c := RotatedRight(b);
    RightStep(deg);
    RightStep(a);
    RightStep(b);
    RightStep(c);
  }

  lemma PrependKeepsNoDuplicates(s: seq<string>, x: string)
    requires NoDuplicates(s) && x !in s
    ensures NoDuplicates([x] + s)
  {
    var t := [x] + s;
    forall i, j | 0 <= i < j < |t|
      ensures t[i] != t[j]
    {
      assert t[j] == s[j - 1];
      if i > 0 {
        assert t[i] == s[i - 1];
      }
    }
  }

  predicate NoDuplicates(s: seq<string>)
  {
    forall i, j :: 0 <= i < j < |s| ==> s[i] != s[j]
  }

  /** The history after showing `path`: the listing, with `path` put first when it is missing. */
  function WithPath(listing: seq<string>, path: string): seq<string>
  {
    if path in listing then listing else [path] + listing
  }

  /** The shown path is always in the history, which keeps the listing's order and has no new duplicates. */
  lemma WithPathContents(listing: seq<string>, path: string)
    ensures path in WithPath(listing, path)
    ensures path in listing ==> WithPath(listing, path) == listing
    ensures path !in listing ==> WithPath(listing, path)[0] == path && WithPath(listing, path)[1..] == listing
    ensures forall p :: p in WithPath(listing, path) <==> p == path || p in listing
    ensures NoDuplicates(listing) ==> NoDuplicates(WithPath(listing, path))
  {
    if path !in listing {
      var r := WithPath(listing, path);
      assert r[0] == path && r[1..] == listing;
      if NoDuplicates(listing) {
        PrependKeepsNoDuplicates(listing, path);
      }
    }
  }

  /** The preview pane's state, as the window object keeps it in its fields. */
  class PreviewState {
    var jpegHistory: seq<string>
    var mainRotationMap: map<string, int>
    var compareRotationMap: map<string, int>
    var mainZoomMap: map<string, real>
    var compareZoomMap: map<string, real>
    var comparePath: Option<string>
    var defaultMainRotation: int
    var defaultMainZoom: real

    /** The fields as the window is first built. */
    constructor ()
      ensures jpegHistory == [] && comparePath == None
      ensures mainRotationMap == map[] && compareRotationMap == map[]
      ensures mainZoomMap == map[] && compareZoomMap == map[]
      ensures defaultMainRotation == 0 && defaultMainZoom == 1.0
      ensures RotationsInRange()
    {
      jpegHistory := [];
      mainRotationMap := map[];
      compareRotationMap := map[];
      mainZoomMap := map[];
      compareZoomMap := map[];
      comparePath := None;
      defaultMainRotation := 0;
      defaultMainZoom := 1.0;
    }

    /** Every stored rotation and the default are angles in [0, 360). */
    predicate RotationsInRange()
      reads this
    {
      IsAngle(defaultMainRotation)
      && (forall p :: p in mainRotationMap ==> IsAngle(mainRotationMap[p]))
      && (forall p :: p in compareRotationMap ==> IsAngle(compareRotationMap[p]))
    }

    /** The path on the main canvas: the newest history entry, if any. */
    function MainPath(): (r: Option<string>)
      reads this
      ensures r.Some? <==> |jpegHistory| > 0
      ensures r.Some? ==> r.value == jpegHistory[0]
    {
      if |jpegHistory| > 0 then Some(jpegHistory[0]) else None
    }

    /** `get_main_rotation`: the main path's own rotation, else the default. */
    function MainRotation(): (r: int)
      reads this
      ensures RotationsInRange() ==> IsAngle(r)
      ensures MainPath().Some? && MainPath().value in mainRotationMap ==> r == mainRotationMap[MainPath().value]
      ensures MainPath().None? || MainPath().value !in mainRotationMap ==> r == defaultMainRotation
    {
      var path := MainPath();
      if path.Some? && path.value in mainRotationMap then mainRotationMap[path.value] else defaultMainRotation
    }

    /** `get_compare_rotation`: the compare path's rotation, 0 when it has none. */
    function CompareRotation(): (r: int)
      reads this
      ensures RotationsInRange() ==> IsAngle(r)
      ensures comparePath.Some? && comparePath.value != "" && comparePath.value in compareRotationMap
              ==> r == compareRotationMap[comparePath.value]
      ensures comparePath.None? || comparePath.value == "" || comparePath.value !in compareRotationMap ==> r == 0
    {
      if comparePath.Some? && comparePath.value != "" && comparePath.value in compareRotationMap
      then compareRotationMap[comparePath.value]
      else 0
    }

    /**
     * `show_jpeg_preview` (the definition that takes effect).  `listing` is
     * the history `refresh_thumbnails` rebuilds from the save folder.
     */
    method ShowJpegPreview(listing: seq<string>, path: string)
      modifies this
      ensures jpegHistory == WithPath(listing, path)
      ensures comparePath == if old(comparePath).None? && |jpegHistory| > 1 then Some(jpegHistory[1]) else old(comparePath)
      ensures mainRotationMap == if path in old(mainRotationMap) then old(mainRotationMap)
                                 else old(mainRotationMap)[path := old(defaultMainRotation)]
      ensures mainZoomMap == if path in old(mainZoomMap) then old(mainZoomMap)
                             else old(mainZoomMap)[path := old(defaultMainZoom)]
      ensures compareRotationMap == old(compareRotationMap) && compareZoomMap == old(compareZoomMap)
      ensures defaultMainRotation == old(defaultMainRotation) && defaultMainZoom == old(defaultMainZoom)
      ensures old(RotationsInRange()) ==> RotationsInRange()
      ensures path in mainRotationMap && path in mainZoomMap
    {
      var history := WithPath(listing, path);
      var rotations := if path in mainRotationMap then mainRotationMap else mainRotationMap[path := defaultMainRotation];
      var zooms := if path in mainZoomMap then mainZoomMap else mainZoomMap[path := defaultMainZoom];
      var compare := if |history| > 1 && comparePath.None? then Some(history[1]) else comparePath;
      assert IsAngle(defaultMainRotation) && (forall p :: p in mainRotationMap ==> IsAngle(mainRotationMap[p]))
        ==> forall p :: p in rotations ==> IsAngle(rotations[p]);
      jpegHistory, mainRotationMap, mainZoomMap, comparePath := history, rotations, zooms, compare;
    }

    /** `set_main_rotation`: the default always follows; a shown path keeps its own copy. */
    method SetMainRotation(deg: int)
      modifies this
      ensures defaultMainRotation == deg
      ensures mainRotationMap == if MainPath().Some? && MainPath().value != ""
                                 then old(mainRotationMap)[MainPath().value := deg]
                                 else old(mainRotationMap)
      ensures MainPath() != Some("") ==> MainRotation() == deg
      ensures jpegHistory == old(jpegHistory) && comparePath == old(comparePath)
      ensures compareRotationMap == old(compareRotationMap)
      ensures mainZoomMap == old(mainZoomMap) && compareZoomMap == old(compareZoomMap)
      ensures defaultMainZoom == old(defaultMainZoom)
      ensures old(RotationsInRange()) && IsAngle(deg) ==> RotationsInRange()
    {
      defaultMainRotation := deg;
      var path := MainPath();
      if path.Some? && path.value != "" {
        mainRotationMap := mainRotationMap[path.value := deg];
      }
    }

    /** `set_compare_rotation`: only when an image is picked for comparison. */
    method SetCompareRotation(deg: int)
      modifies this
      ensures compareRotationMap == if comparePath.Some? && comparePath.value != ""
                                    then old(compareRotationMap)[comparePath.value := deg]
                                    else old(compareRotationMap)
      ensures comparePath.Some? && comparePath.value != "" ==> CompareRotation() == deg
      ensures jpegHistory == old(jpegHistory) && comparePath == old(comparePath)
      ensures mainRotationMap == old(mainRotationMap) && defaultMainRotation == old(defaultMainRotation)
      ensures mainZoomMap == old(mainZoomMap) && compareZoomMap == old(compareZoomMap)
      ensures defaultMainZoom == old(defaultMainZoom)
      ensures old(RotationsInRange()) && IsAngle(deg) ==> RotationsInRange()
    {
      if comparePath.Some? && comparePath.value != "" {
        compareRotationMap := compareRotationMap[comparePath.value := deg];
      }
    }

    /** The main canvas's "⟲ 90°" button. */
    method RotateMainLeft()
      modifies this
      ensures MainPath() != Some("") ==> MainRotation() == RotatedLeft(old(MainRotation()))
      ensures defaultMainRotation == RotatedLeft(old(MainRotation()))
      ensures jpegHistory == old(jpegHistory) && comparePath == old(comparePath)
      ensures compareRotationMap == old(compareRotationMap)
      ensures mainRotationMap == if MainPath().Some? && MainPath().value != ""
                                 then old(mainRotationMap)[MainPath().value := RotatedLeft(old(MainRotation()))]
                                 else old(mainRotationMap)
      ensures mainZoomMap == old(mainZoomMap) && compareZoomMap == old(compareZoomMap)
      ensures defaultMainZoom == old(defaultMainZoom)
      ensures old(RotationsInRange()) ==> RotationsInRange()
    {
      SetMainRotation(RotatedLeft(MainRotation()));
    }

    /** The main canvas's "⟳ 90°" button. */
    method RotateMainRight()
      modifies this
      ensures MainPath() != Some("") ==> MainRotation() == RotatedRight(old(MainRotation()))
      ensures defaultMainRotation == RotatedRight(old(MainRotation()))
      ensures jpegHistory == old(jpegHistory) && comparePath == old(comparePath)
      ensures compareRotationMap == old(compareRotationMap)
      ensures mainRotationMap == if MainPath().Some? && MainPath().value != ""
                                 then old(mainRotationMap)[MainPath().value := RotatedRight(old(MainRotation()))]
                                 else old(mainRotationMap)
      ensures mainZoomMap == old(mainZoomMap) && compareZoomMap == old(compareZoomMap)
      ensures defaultMainZoom == old(defaultMainZoom)
      ensures old(RotationsInRange()) ==> RotationsInRange()
    {
      SetMainRotation(RotatedRight(MainRotation()));
    }

    /** The main canvas's reset button. */
    method ResetMainRotation()
      modifies this
      ensures MainPath() != Some("") ==> MainRotation() == 0
      ensures defaultMainRotation == 0
      ensures jpegHistory == old(jpegHistory) && comparePath == old(comparePath)
      ensures compareRotationMap == old(compareRotationMap)
      ensures mainRotationMap == if MainPath().Some? && MainPath().value != ""
                                 then old(mainRotationMap)[MainPath().value := 0]
                                 else old(mainRotationMap)
      ensures mainZoomMap == old(mainZoomMap) && compareZoomMap == old(compareZoomMap)
      ensures defaultMainZoom == old(defaultMainZoom)
      ensures old(RotationsInRange()) ==> RotationsInRange()
    {
      SetMainRotation(0);
    }

    /** The compare canvas's "⟲ 90°" button; nothing happens without a compare image. */
    method RotateCompareLeft()
      modifies this
      ensures comparePath.Some? && comparePath.value != "" ==> CompareRotation() == RotatedLeft(old(CompareRotation()))
      ensures comparePath.None? || comparePath.value == "" ==> compareRotationMap == old(compareRotationMap)
      ensures jpegHistory == old(jpegHistory) && comparePath == old(comparePath)
      ensures mainRotationMap == old(mainRotationMap) && defaultMainRotation == old(defaultMainRotation)
      ensures compareRotationMap == if comparePath.Some? && comparePath.value != ""
                                    then old(compareRotationMap)[comparePath.value := RotatedLeft(old(CompareRotation()))]
                                    else old(compareRotationMap)
      ensures mainZoomMap == old(mainZoomMap) && compareZoomMap == old(compareZoomMap)
      ensures defaultMainZoom == old(defaultMainZoom)
      ensures old(RotationsInRange()) ==> RotationsInRange()
    {
      if comparePath.Some? && comparePath.value != "" {
        var current := if comparePath.value in compareRotationMap then compareRotationMap[comparePath.value] else 0;
        SetCompareRotation(RotatedLeft(current));
      }
    }

    /** The compare canvas's "⟳ 90°" button. */
    method RotateCompareRight()
      modifies this
      ensures comparePath.Some? && comparePath.value != "" ==> CompareRotation() == RotatedRight(old(CompareRotation()))
      ensures comparePath.None? || comparePath.value == "" ==> compareRotationMap == old(compareRotationMap)
      ensures jpegHistory == old(jpegHistory) && comparePath == old(comparePath)
      ensures mainRotationMap == old(mainRotationMap) && defaultMainRotation == old(defaultMainRotation)
      ensures compareRotationMap == if comparePath.Some? && comparePath.value != ""
                                    then old(compareRotationMap)[comparePath.value := RotatedRight(old(CompareRotation()))]
                                    else old(compareRotationMap)
      ensures mainZoomMap == old(mainZoomMap) && compareZoomMap == old(compareZoomMap)
      ensures defaultMainZoom == old(defaultMainZoom)
      ensures old(RotationsInRange()) ==> RotationsInRange()
    {
      if comparePath.Some? && comparePath.value != "" {
        var current := if comparePath.value in compareRotationMap then compareRotationMap[comparePath.value] else 0;
        SetCompareRotation(RotatedRight(current));
      }
    }

    /** The compare canvas's reset button. */
    method ResetCompareRotation()
      modifies this
      ensures comparePath.Some? && comparePath.value != "" ==> CompareRotation() == 0
      ensures comparePath.None? || comparePath.value == "" ==> compareRotationMap == old(compareRotationMap)
      ensures jpegHistory == old(jpegHistory) && comparePath == old(comparePath)
      ensures mainRotationMap == old(mainRotationMap) && defaultMainRotation == old(defaultMainRotation)
      ensures compareRotationMap == if comparePath.Some? && comparePath.value != ""
                                    then old(compareRotationMap)[comparePath.value := 0]
                                    else old(compareRotationMap)
      ensures mainZoomMap == old(mainZoomMap) && compareZoomMap == old(compareZoomMap)
      ensures defaultMainZoom == old(defaultMainZoom)
      ensures old(RotationsInRange()) ==> RotationsInRange()
    {
      if comparePath.Some? && comparePath.value != "" {
        SetCompareRotation(0);
      }
    }

    /** `set_compare_image` (a thumbnail click): fresh paths start unrotated and unzoomed. */
    method SetCompareImage(path: string)
      modifies this
      ensures comparePath == Some(path)
      ensures compareRotationMap == if path in old(compareRotationMap) then old(compareRotationMap)
                                    else old(compareRotationMap)[path := 0]
      ensures compareZoomMap == if path in old(compareZoomMap) then old(compareZoomMap)
                                else old(compareZoomMap)[path := 1.0]
      ensures jpegHistory == old(jpegHistory) && mainRotationMap == old(mainRotationMap)
      ensures mainZoomMap == old(mainZoomMap)
      ensures defaultMainRotation == old(defaultMainRotation) && defaultMainZoom == old(defaultMainZoom)
      ensures old(RotationsInRange()) ==> RotationsInRange()
    {
      comparePath := Some(path);
      if path !in compareRotationMap {
        compareRotationMap := compareRotationMap[path := 0];
      }
      if path !in compareZoomMap {
        compareZoomMap := compareZoomMap[path := 1.0];
      }
    }
  }

  /** A right turn followed by a left turn on the main canvas restores its rotation. */
  method RightThenLeftRestores(s: PreviewState)
    requires s.RotationsInRange() && s.MainPath() != Some("")
    modifies s
    ensures s.MainRotation() == old(s.MainRotation())
    ensures s.jpegHistory == old(s.jpegHistory)
  {
    ghost var before := s.MainRotation();
    s.RotateMainRight();
    s.RotateMainLeft();
    LeftUndoesRight(before);
  }
}
