/**
 * File names of captured photos and videos: the extension rules of
 * `capture_photo` and `start_recording`, the join with the output
 * directory, and `Path.with_suffix('.avi')` used by the MJPG fallback.
 */
module FileNames {
  import opened Options

  /** `s.endswith(suffix)` */
  predicate EndsWith(s: string, suffix: string) {
    |suffix| <= |s| && s[|s| - |suffix|..] == suffix
  }

  lemma {:induction false} EndsWithAppend(prefix: string, suffix: string)
    ensures EndsWith(prefix + suffix, suffix)
  {
    var s := prefix + suffix;
    assert s[|s| - |suffix|..] == suffix;
  }

  /** `str(directory / name)`: the directory, one separator, the name. */
  function Join(dir: string, name: string): (p: string)
    ensures |p| == |dir| + 1 + |name|
    ensures p[..|dir|] == dir && p[|dir|] == '/' && p[|dir| + 1..] == name
  {
    dir + "/" + name
  }

  /** A suffix of the name is a suffix of the joined path. */
  lemma {:induction false} JoinKeepsSuffix(dir: string, name: string, suffix: string)
    requires EndsWith(name, suffix)
    ensures EndsWith(Join(dir, name), suffix)
  {
    var p := Join(dir, name);
    assert p == (dir + "/") + name;
    assert p[|p| - |suffix|..] == name[|name| - |suffix|..];
  }

  /**
   * Appends "." + ext unless the name already ends with it
   * (the extension check of both `capture_photo` and `start_recording`).
   */
  function WithExtension(name: string, ext: string): (r: string)
    ensures EndsWith(r, "." + ext)
    ensures r == name <==> EndsWith(name, "." + ext)
    ensures !EndsWith(name, "." + ext) ==> r == name + "." + ext
    ensures |name| <= |r| && r[..|name|] == name
  {
    if EndsWith(name, "." + ext) then name
    else
      EndsWithAppend(name, "." + ext);
      assert name + "." + ext == name + ("." + ext);
      name + "." + ext
  }

  /** Normalising twice gives the same name as normalising once: no double extension. */
  lemma WithExtensionIdempotent(name: string, ext: string)
    ensures WithExtension(WithExtension(name, ext), ext) == WithExtension(name, ext)
  {
  }

  /** The name `capture_photo` stores under the output directory. */
  function PhotoFileName(name: Option<string>, timestamp: string, ext: string): (r: string)
    ensures EndsWith(r, "." + ext)
    ensures name.None? ==> r == "photo_" + timestamp + "." + ext
    ensures name.Some? ==> r == WithExtension(name.value, ext)
  {
    match name
    case None =>
      assert "photo_" + timestamp + "." + ext == ("photo_" + timestamp) + ("." + ext);
      EndsWithAppend("photo_" + timestamp, "." + ext);
      WithExtension("photo_" + timestamp + "." + ext, ext)
    case Some(n) => WithExtension(n, ext)
  }

  /** "shot" and "shot.jpg" both give "shot.jpg" with the jpg format. */
  lemma ShotExample(timestamp: string)
    ensures PhotoFileName(Some("shot"), timestamp, "jpg") == "shot.jpg"
    ensures PhotoFileName(Some("shot.jpg"), timestamp, "jpg") == "shot.jpg"
  {
    assert "shot"[0] != "."[0];
    assert "shot" + "." + "jpg" == "shot.jpg";
    assert EndsWith("shot.jpg", ".jpg");
  }

  /** The name `start_recording` resolves before any codec is tried. */
  function VideoFileName(name: Option<string>, timestamp: string): (r: string)
    ensures EndsWith(r, ".mp4")
    ensures name.None? ==> r == "video_" + timestamp + ".mp4"
    ensures name.Some? ==> r == WithExtension(name.value, "mp4")
  {
    match name
    case None =>
      EndsWithAppend("video_" + timestamp, ".mp4");
      WithExtension("video_" + timestamp + ".mp4", "mp4")
    case Some(n) => WithExtension(n, "mp4")
  }

  /**
   * `Path(p).with_suffix('.avi')` for a path whose last component ends in
   * ".mp4". Python gives a last component that is exactly ".mp4" no suffix
   * at all (it is a hidden-file name), so ".avi" is appended to it; every
   * other such component has its ".mp4" replaced.
   */
  function AviPath(p: string): string
    requires EndsWith(p, ".mp4")
  {
    if |p| == 4 || p[|p| - 5] == '/' then p + ".avi" else p[..|p| - 4] + ".avi"
  }

  /**
   * The MJPG path ends in ".avi" and no longer in ".mp4", and removing its
   * ".avi" gives back the original path or the original less its ".mp4".
   */
  lemma AviPathSuffix(p: string)
    requires EndsWith(p, ".mp4")
    ensures var r := AviPath(p);
      EndsWith(r, ".avi") && !EndsWith(r, ".mp4")
      && (r[..|r| - 4] == p || r[..|r| - 4] + ".mp4" == p)
      && (r[..|r| - 4] + ".mp4" == p <==> |p| > 4 && p[|p| - 5] != '/')
  {
    var r := AviPath(p);
    assert r[|r| - 4..] == ".avi";
    assert r[..|r| - 4] + ".mp4" == p || r[..|r| - 4] == p;
  }
}
