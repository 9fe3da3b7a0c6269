/**
 * The camera's settings dictionary, the key merge of `update_settings` and
 * `load_settings`, and the device property writes of `_apply_settings`.
 */
module CameraSettings {

  /** A settings value: a number, a string, or a (width, height) pair. */
  datatype Value = Number(n: int) | Text(s: string) | Dimensions(width: int, height: int)

  type Settings = map<string, Value>

  /** Marks brightness, contrast and saturation as "leave the device default". */
  const Unset: int := -1

  /** The settings a new `Camera` starts with. */
  const Defaults: Settings := map[
    "resolution" := Dimensions(1280, 720),
    "fps" := Number(30),
    "photo_format" := Text("png"),
    "video_format" := Text("avi"),
    "video_codec" := Text("XVID"),
    "brightness" := Number(Unset),
    "contrast" := Number(Unset),
    "saturation" := Number(Unset)
  ]

  /**
   * Every key the camera reads is present with a value of the kind it is
   * read as ("video_format" and "video_codec" are stored but never read).
   */
  ghost predicate Shaped(s: Settings) {
    && "resolution" in s && s["resolution"].Dimensions?
    && "fps" in s && s["fps"].Number?
    && "photo_format" in s && s["photo_format"].Text?
    && "brightness" in s && s["brightness"].Number?
    && "contrast" in s && s["contrast"].Number?
    && "saturation" in s && s["saturation"].Number?
  }

  lemma DefaultsShaped()
    ensures Shaped(Defaults)
  {
  }

  function Width(s: Settings): int requires Shaped(s) { s["resolution"].width }
  function Height(s: Settings): int requires Shaped(s) { s["resolution"].height }
  function Fps(s: Settings): int requires Shaped(s) { s["fps"].n }
  function PhotoFormat(s: Settings): string requires Shaped(s) { s["photo_format"].s }
  function BrightnessLevel(s: Settings): int requires Shaped(s) { s["brightness"].n }
  function ContrastLevel(s: Settings): int requires Shaped(s) { s["contrast"].n }
  function SaturationLevel(s: Settings): int requires Shaped(s) { s["saturation"].n }

  // ----- merging keyword arguments or a loaded file into the settings -----

  type Entry = (string, Value)

  /** An entry for a key the camera reads carries a value of the kind it is read as. */
  ghost predicate FitsKey(e: Entry) {
    && (e.0 == "resolution" ==> e.1.Dimensions?)
    && (e.0 == "fps" ==> e.1.Number?)
    && (e.0 == "photo_format" ==> e.1.Text?)
    && (e.0 == "brightness" ==> e.1.Number?)
    && (e.0 == "contrast" ==> e.1.Number?)
    && (e.0 == "saturation" ==> e.1.Number?)
  }

  /** Every entry fits the key it names. */
  ghost predicate Fits(kw: seq<Entry>) {
    forall i :: 0 <= i < |kw| ==> FitsKey(kw[i])
  }

  /** One step of the merge loop: a known key is overwritten, an unknown one ignored. */
  function Assign(s: Settings, e: Entry): Settings {
    if e.0 in s then s[e.0 := e.1] else s
  }

  /** The settings after the merge loop has run over all of `kw`, in order. */
  function Merged(s: Settings, kw: seq<Entry>): Settings
    decreases |kw|
  {
    if kw == [] then s else Assign(Merged(s, kw[..|kw| - 1]), kw[|kw| - 1])
  }

  /** The warnings of `update_settings`: the unknown keys, in the order given. */
  function UnknownKeys(s: Settings, kw: seq<Entry>): (r: seq<string>)
    ensures forall k :: k in r ==> k !in s
    ensures forall i :: 0 <= i < |kw| && kw[i].0 !in s ==> kw[i].0 in r
    ensures forall k :: k in r ==> exists i :: 0 <= i < |kw| && kw[i].0 == k
    ensures |r| <= |kw|
    decreases |kw|
  {
    if kw == [] then []
    else
      var front := UnknownKeys(s, kw[..|kw| - 1]);
      assert forall i :: 0 <= i < |kw| - 1 ==> kw[..|kw| - 1][i] == kw[i];
      if kw[|kw| - 1].0 in s then front else front + [kw[|kw| - 1].0]
  }

  /** Assigning an entry that fits its key keeps the settings well shaped. */
  lemma AssignShaped(s: Settings, e: Entry)
    requires Shaped(s) && FitsKey(e)
    ensures Shaped(Assign(s, e))
  {
  }

  /** One more entry extends the merge and the warnings by one step. */
  lemma MergeStep(s: Settings, kw: seq<Entry>, i: nat)
    requires i < |kw|
    ensures Merged(s, kw[..i + 1]) == Assign(Merged(s, kw[..i]), kw[i])
    ensures UnknownKeys(s, kw[..i + 1]) ==
      UnknownKeys(s, kw[..i]) + (if kw[i].0 in s then [] else [kw[i].0])
  {
    assert kw[..i + 1][..i] == kw[..i];
  }

  /**
   * The warnings of a run of entries are those of its first part followed by
   * those of the rest: one warning per unknown entry, in entry order.
   */
  lemma {:induction false} UnknownKeysAppend(s: Settings, a: seq<Entry>, b: seq<Entry>)
    ensures UnknownKeys(s, a + b) == UnknownKeys(s, a) + UnknownKeys(s, b)
    decreases |b|
  {
    if b == [] {
      assert a + b == a;
    } else {
      var front := b[..|b| - 1];
      assert (a + b)[..|a + b| - 1] == a + front;
      assert (a + b)[|a + b| - 1] == b[|b| - 1];
      UnknownKeysAppend(s, a, front);
    }
  }

  /** A single entry is warned about exactly when its key is unknown. */
  lemma UnknownKeysSingle(s: Settings, e: Entry)
    ensures UnknownKeys(s, [e]) == if e.0 in s then [] else [e.0]
  {
    assert [e][..0] == [];
  }

  /** The merge never adds or removes a key. */
  lemma {:induction false} MergedKeys(s: Settings, kw: seq<Entry>)
    ensures Merged(s, kw).Keys == s.Keys
    decreases |kw|
  {
    if kw != [] {
      MergedKeys(s, kw[..|kw| - 1]);
    }
  }

  /**
   * After the merge, a key holds the value of the last entry that names it,
   * or its old value when no entry does.
   */
  lemma {:induction false} MergedValue(s: Settings, kw: seq<Entry>, k: string)
    requires k in s
    ensures k in Merged(s, kw)
    ensures (forall i :: 0 <= i < |kw| ==> kw[i].0 != k) ==> Merged(s, kw)[k] == s[k]
    ensures forall i :: 0 <= i < |kw| && kw[i].0 == k && (forall j :: i < j < |kw| ==> kw[j].0 != k) ==>
      Merged(s, kw)[k] == kw[i].1
    decreases |kw|
  {
    MergedKeys(s, kw);
    if kw != [] {
      var front := kw[..|kw| - 1];
      MergedValue(s, front, k);
      assert forall i :: 0 <= i < |front| ==> front[i] == kw[i];
    }
  }

  /** Merging values of the right kinds keeps the settings well shaped. */
  lemma {:induction false} MergedShaped(s: Settings, kw: seq<Entry>)
    requires Shaped(s) && Fits(kw)
    ensures Shaped(Merged(s, kw))
    decreases |kw|
  {
    if kw != [] {
      var front := kw[..|kw| - 1];
      assert forall i :: 0 <= i < |front| ==> front[i] == kw[i];
      MergedShaped(s, front);
      AssignShaped(Merged(s, front), kw[|kw| - 1]);
    }
  }

  // ----- the property writes of `_apply_settings` -----

  /** The capture properties `_apply_settings` sets on the device. */
  datatype Prop = FrameWidth | FrameHeight | FrameRate | Brightness | Contrast | Saturation

  /** One `cap.set(prop, value)` call. */
  type Write = (Prop, int)

  /** An image adjustment is written only when it is not the sentinel. */
  function Adjust(p: Prop, level: int): seq<Write> {
    if level != Unset then [(p, level)] else []
  }

  /** The `cap.set` calls `_apply_settings` makes, in order. */
  function SettingsWrites(s: Settings): seq<Write>
    requires Shaped(s)
  {
    [(FrameWidth, Width(s)), (FrameHeight, Height(s)), (FrameRate, Fps(s))]
      + Adjust(Brightness, BrightnessLevel(s))
      + Adjust(Contrast, ContrastLevel(s))
      + Adjust(Saturation, SaturationLevel(s))
  }

  /** The configuration a sequence of writes leaves on a device: the last write to each property wins. */
  function Effective(ws: seq<Write>): map<Prop, int>
    decreases |ws|
  {
    if ws == [] then map[] else Effective(ws[..|ws| - 1])[ws[|ws| - 1].0 := ws[|ws| - 1].1]
  }

  lemma {:induction false} EffectiveAppend(a: seq<Write>, b: seq<Write>)
    ensures Effective(a + b) == Effective(a) + Effective(b)
    decreases |b|
  {
    if b == [] {
      assert a + b == a;
    } else {
      var b', last := b[..|b| - 1], b[|b| - 1];
      assert (a + b)[..|a + b| - 1] == a + b';
      assert (a + b)[|a + b| - 1] == last;
      EffectiveAppend(a, b');
      assert Effective(a + b) == (Effective(a) + Effective(b'))[last.0 := last.1];
      assert Effective(b) == Effective(b')[last.0 := last.1];
    }
  }

  /** Applying the settings leaves the device at the configured width, height and frame rate. */
  lemma AppliedResolution(s: Settings)
    requires Shaped(s)
    ensures var c := Effective(SettingsWrites(s));
      && FrameWidth in c && c[FrameWidth] == Width(s)
      && FrameHeight in c && c[FrameHeight] == Height(s)
      && FrameRate in c && c[FrameRate] == Fps(s)
  {
    EffectiveWrites(s);
    EffectiveAdjust(Brightness, BrightnessLevel(s));
    EffectiveAdjust(Contrast, ContrastLevel(s));
    EffectiveAdjust(Saturation, SaturationLevel(s));
  }

  /**
   * Applying the settings sets an image adjustment exactly when it is not
   * the sentinel, and then to the configured level.
   */
  lemma AppliedAdjustments(s: Settings)
    requires Shaped(s)
    ensures var c := Effective(SettingsWrites(s));
      && (Brightness in c <==> BrightnessLevel(s) != Unset)
      && (Brightness in c ==> c[Brightness] == BrightnessLevel(s))
      && (Contrast in c <==> ContrastLevel(s) != Unset)
      && (Contrast in c ==> c[Contrast] == ContrastLevel(s))
      && (Saturation in c <==> SaturationLevel(s) != Unset)
      && (Saturation in c ==> c[Saturation] == SaturationLevel(s))
  {
    EffectiveWrites(s);
    EffectiveAdjust(Brightness, BrightnessLevel(s));
    EffectiveAdjust(Contrast, ContrastLevel(s));
    EffectiveAdjust(Saturation, SaturationLevel(s));
  }

  /** The configuration the writes leave, as a union of maps. */
  lemma EffectiveWrites(s: Settings)
    requires Shaped(s)
    ensures Effective(SettingsWrites(s))
      == map[FrameWidth := Width(s), FrameHeight := Height(s), FrameRate := Fps(s)]
         + Effective(Adjust(Brightness, BrightnessLevel(s)))
         + Effective(Adjust(Contrast, ContrastLevel(s)))
         + Effective(Adjust(Saturation, SaturationLevel(s)))
  {
    var base: seq<Write> := [(FrameWidth, Width(s)), (FrameHeight, Height(s)), (FrameRate, Fps(s))];
    var b := Adjust(Brightness, BrightnessLevel(s));
    var c := Adjust(Contrast, ContrastLevel(s));
    var t := Adjust(Saturation, SaturationLevel(s));
    assert base[..2] == [(FrameWidth, Width(s)), (FrameHeight, Height(s))];
    assert base[..2][..1] == [(FrameWidth, Width(s))];
    assert [(FrameWidth, Width(s))][..0] == [];
    assert Effective([(FrameWidth, Width(s))]) == map[FrameWidth := Width(s)];
    assert Effective(base[..2]) == map[FrameWidth := Width(s), FrameHeight := Height(s)];
    assert Effective(base)
      == map[FrameWidth := Width(s), FrameHeight := Height(s), FrameRate := Fps(s)];
    EffectiveAppend(base, b);
    EffectiveAppend(base + b, c);
    EffectiveAppend(base + b + c, t);
  }

  lemma EffectiveAdjust(p: Prop, level: int)
    ensures Effective(Adjust(p, level)) == if level != Unset then map[p := level] else map[]
  {
    if level != Unset {
      assert Adjust(p, level)[..0] == [];
    }
  }

  /**
   * Re-applying new settings to an already configured device (update after
   * open) agrees with applying them to a fresh device (open after update) on
   * every property the new settings write; it can differ only in an image
   * adjustment the old settings set and the new ones leave at the sentinel.
   */
  lemma ReapplyAgreesWithReopen(old0: Settings, new1: Settings)
    requires Shaped(old0) && Shaped(new1)
    ensures var reapplied := Effective(SettingsWrites(old0) + SettingsWrites(new1));
      var reopened := Effective(SettingsWrites(new1));
      && reopened.Keys <= reapplied.Keys
      && (forall p :: p in reopened ==> reapplied[p] == reopened[p])
      && (forall p :: p in reapplied && p !in reopened ==>
            p in {Brightness, Contrast, Saturation} && p in Effective(SettingsWrites(old0)))
  {
    EffectiveAppend(SettingsWrites(old0), SettingsWrites(new1));
    AppliedResolution(new1);
    var reopened := Effective(SettingsWrites(new1));
    var reapplied := Effective(SettingsWrites(old0) + SettingsWrites(new1));
    forall p | p in reapplied && p !in reopened
      ensures p in {Brightness, Contrast, Saturation} && p in Effective(SettingsWrites(old0))
    {
      assert FrameWidth in reopened && FrameHeight in reopened && FrameRate in reopened;
      assert p != FrameWidth && p != FrameHeight && p != FrameRate;
    }
  }

  /**
   * The sentinel does not reset the device: setting brightness back to -1 on
   * an open camera keeps the earlier brightness, while a camera opened with
   * the same settings leaves brightness at the device default.
   */
  lemma SentinelKeepsEarlierAdjustment()
    ensures var old0 := Defaults["brightness" := Number(50)];
      Shaped(old0) && Shaped(Defaults)
      && Brightness in Effective(SettingsWrites(old0) + SettingsWrites(Defaults))
      && Brightness !in Effective(SettingsWrites(Defaults))
  {
    var old0 := Defaults["brightness" := Number(50)];
    assert Shaped(old0);
    AppliedAdjustments(old0);
    AppliedAdjustments(Defaults);
    EffectiveAppend(SettingsWrites(old0), SettingsWrites(Defaults));
  }
}
