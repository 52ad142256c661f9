/**
 * The restore rules of `SettingsHelper`: which restored settings are
 * applied through a system API, whether a restored value is still written
 * to the settings database, when GPS counts as enabled, and the ringer and
 * sound-effect choices.
 *
 * The system services it calls (AudioManager, the hardware service, the
 * location settings) are outside the model: the calls are returned as
 * values.  `Integer.parseInt` is outside the model too: its result is passed
 * in, `None` standing for a `NumberFormatException`.
 */
module SettingsHelper {
  import opened Common

  /** Setting keys and the GPS provider name, as the Android platform
      defines them. */
  const SCREEN_BRIGHTNESS := "screen_brightness"
  const SOUND_EFFECTS_ENABLED := "sound_effects_enabled"
  const LOCATION_PROVIDERS_ALLOWED := "location_providers_allowed"
  const GPS_PROVIDER := "gps"

  /** `AudioManager` constants. */
  const RINGER_MODE_SILENT := 0
  const RINGER_MODE_VIBRATE := 1
  const RINGER_MODE_NORMAL := 2
  const VIBRATE_TYPE_RINGER := 0
  const VIBRATE_SETTING_OFF := 0
  const VIBRATE_SETTING_ON := 1

  /** `PROVIDERS`, the sync providers the backup knows about. */
  const PROVIDERS: seq<string> := ["gmail-ls", "calendar", "contacts"]

  /** A call into a system service. */
  datatype SystemCall =
    | SetBacklights(brightness: int)
    | LoadSoundEffects
    | UnloadSoundEffects
    | SetLocationProviderEnabled(provider: string, enabled: bool)
    | SetRingerMode(mode: int)
    | SetVibrateSetting(vibrateType: int, setting: int)

  /** How `restoreValue` ends: whether the value should still be written to
      the database and the calls made on the way, or the exception thrown
      when a numeric setting does not parse. */
  datatype Restore = Restored(write: bool, calls: seq<SystemCall>) | NumberFormatError

  predicate StartsWith(s: string, prefix: string)
  {
    |prefix| <= |s| && s[..|prefix|] == prefix
  }

  predicate EndsWith(s: string, suffix: string)
  {
    |suffix| <= |s| && s[|s| - |suffix|..] == suffix
  }

  /** `part` occurs in `s` at index `i`. */
  predicate OccursAt(s: string, part: string, i: int)
  {
    0 <= i && i + |part| <= |s| && s[i..i + |part|] == part
  }

  predicate Contains(s: string, part: string)
  {
    exists i :: 0 <= i <= |s| && OccursAt(s, part, i)
  }

  /** The test in `setGpsLocation`. */
  predicate GpsEnabled(value: string)
  {
    || value == GPS_PROVIDER
    || StartsWith(value, GPS_PROVIDER + ",")
    || EndsWith(value, "," + GPS_PROVIDER)
    || Contains(value, "," + GPS_PROVIDER + ",")
  }

  /** `restoreValue`: brightness and sound effects are applied and still
      written; the allowed location providers are applied to the GPS
      setting and not written; any other setting is just written.  `parsed`
      is what `Integer.parseInt(value)` yields and `hardwareFound` whether
      the hardware service lookup succeeds. */
  function RestoreValue(name: string, value: string, parsed: Option<int>, hardwareFound: bool): (r: Restore)
    ensures r.Restored? ==> (r.write <==> name != LOCATION_PROVIDERS_ALLOWED)
    ensures r.NumberFormatError? <==>
              parsed.None? && (name == SCREEN_BRIGHTNESS || name == SOUND_EFFECTS_ENABLED)
    ensures name == SCREEN_BRIGHTNESS && parsed.Some? ==>
              r.calls == if hardwareFound then [SetBacklights(parsed.value)] else []
    ensures name == SOUND_EFFECTS_ENABLED && parsed.Some? ==>
              r.calls == [if parsed.value == 1 then LoadSoundEffects else UnloadSoundEffects]
    ensures name == LOCATION_PROVIDERS_ALLOWED ==>
              r.calls == [SetLocationProviderEnabled(GPS_PROVIDER, GPS_PROVIDER in Fields(value))]
    ensures name !in {SCREEN_BRIGHTNESS, SOUND_EFFECTS_ENABLED, LOCATION_PROVIDERS_ALLOWED} ==>
              r == Restored(true, [])
  {
    if name == SCREEN_BRIGHTNESS then
      if parsed.None? then NumberFormatError else Restored(true, BrightnessCalls(parsed.value, hardwareFound))
    else if name == SOUND_EFFECTS_ENABLED then
      if parsed.None? then NumberFormatError else Restored(true, SoundEffectsCalls(parsed.value == 1))
    else if name == LOCATION_PROVIDERS_ALLOWED then
      GpsEnabledIsField(value);
      Restored(false, [SetLocationProviderEnabled(GPS_PROVIDER, GpsEnabled(value))])
    else
      Restored(true, [])
  }

  /** `setBrightness`: the backlight is set only when the hardware service
      is found; a `RemoteException` from it is swallowed. */
  function BrightnessCalls(brightness: int, hardwareFound: bool): (r: seq<SystemCall>)
    ensures r != [] <==> hardwareFound
    ensures forall c :: c in r ==> c == SetBacklights(brightness)
    ensures |r| <= 1
  {
    if hardwareFound then [SetBacklights(brightness)] else []
  }

  /** `setSoundEffects`. */
  function SoundEffectsCalls(enable: bool): (r: seq<SystemCall>)
    ensures |r| == 1
    ensures r[0] == LoadSoundEffects <==> enable
    ensures r[0] == UnloadSoundEffects <==> !enable
  {
    if enable then [LoadSoundEffects] else [UnloadSoundEffects]
  }

  /** `setRingerMode` for the two flags: silent picks vibrate or silent
      ringing; otherwise normal ringing with vibration on or off. */
  function RingerCalls(silent: bool, vibrate: bool): (r: seq<SystemCall>)
    ensures |r| > 0 && r[0].SetRingerMode?
    ensures r[0].mode == RINGER_MODE_SILENT <==> silent && !vibrate
    ensures r[0].mode == RINGER_MODE_VIBRATE <==> silent && vibrate
    ensures r[0].mode == RINGER_MODE_NORMAL <==> !silent
    ensures !silent ==> r[1..] == [SetVibrateSetting(VIBRATE_TYPE_RINGER, if vibrate then VIBRATE_SETTING_ON else VIBRATE_SETTING_OFF)]
    ensures silent ==> |r| == 1
  {
    if silent then
      [SetRingerMode(if vibrate then RINGER_MODE_VIBRATE else RINGER_MODE_SILENT)]
    else
      [SetRingerMode(RINGER_MODE_NORMAL),
       SetVibrateSetting(VIBRATE_TYPE_RINGER, if vibrate then VIBRATE_SETTING_ON else VIBRATE_SETTING_OFF)]
  }

  /** The calls tell both flags apart. */
  lemma RingerCallsInjective(silent1: bool, vibrate1: bool, silent2: bool, vibrate2: bool)
    requires RingerCalls(silent1, vibrate1) == RingerCalls(silent2, vibrate2)
    ensures silent1 == silent2 && vibrate1 == vibrate2
  {
    var r1, r2 := RingerCalls(silent1, vibrate1), RingerCalls(silent2, vibrate2);
    assert r1[0] == r2[0];
    if !silent1 {
      assert r1[1] == r2[1];
    }
  }

  /** `getSyncProviders`: one zero byte for the tickle flag and one per
      provider, since the code that would fill them in is disabled. */
  method GetSyncProviders() returns (sync: array<byte>)
    ensures fresh(sync)
    ensures sync.Length == 1 + |PROVIDERS| == 4
    ensures forall i :: 0 <= i < sync.Length ==> sync[i] == 0
  {
    sync := new byte[1 + |PROVIDERS|](_ => 0);
  }

  // ---------------------------------------------------------------------
  // GPS as an element of the comma-separated list

  /** The commas splitting `s` into its fields, as a reference definition:
      the text before the first comma, then the fields of the rest. */
  function Fields(s: string): (r: seq<string>)
    ensures |r| > 0
    decreases |s|
  {
    if ',' in s then
      var c := FirstComma(s);
      [s[..c]] + Fields(s[c + 1..])
    else
      [s]
  }

  function FirstComma(s: string): (c: nat)
    requires ',' in s
    ensures c < |s| && s[c] == ',' && ',' !in s[..c]
  {
    if s[0] == ',' then 0
    else
      assert ',' in s[1..];
      var c := 1 + FirstComma(s[1..]);
      assert s[..c] == [s[0]] + s[1..][..c - 1];
      c
  }

  /** `part` occurs in `s` between commas or the ends of `s`, at `i`. */
  predicate FieldAt(s: string, part: string, i: int)
  {
    && 0 <= i && i + |part| <= |s|
    && s[i..i + |part|] == part
    && (i == 0 || s[i - 1] == ',')
    && (i + |part| == |s| || s[i + |part|] == ',')
  }

  predicate IsField(s: string, part: string)
  {
    exists i :: 0 <= i <= |s| && FieldAt(s, part, i)
  }

  /** The four tests of `setGpsLocation` say exactly that "gps" occurs as a
      field. */
  lemma GpsEnabledIsFieldAt(value: string)
    ensures GpsEnabled(value) <==> IsField(value, GPS_PROVIDER)
  {
    var g := GPS_PROVIDER;
    if GpsEnabled(value) {
      if value == g {
        assert FieldAt(value, g, 0);
      } else if StartsWith(value, g + ",") {
        StartsWithField(value, g);
      } else if EndsWith(value, "," + g) {
        EndsWithField(value, g);
      } else {
        var k :| 0 <= k <= |value| && OccursAt(value, "," + g + ",", k);
        ContainsField(value, g, k);
      }
    }
    if IsField(value, g) {
      var i :| 0 <= i <= |value| && FieldAt(value, g, i);
      FieldTests(value, g, i);
    }
  }

  lemma StartsWithField(s: string, part: string)
    requires StartsWith(s, part + ",")
    ensures FieldAt(s, part, 0)
  {
    assert s[..|part|] == s[..|part| + 1][..|part|];
  }

  lemma EndsWithField(s: string, part: string)
    requires EndsWith(s, "," + part)
    ensures FieldAt(s, part, |s| - |part|)
  {
    var n := |s|;
    assert s[n - |part|..] == s[n - |part| - 1..][1..];
  }

  lemma ContainsField(s: string, part: string, k: int)
    requires OccursAt(s, "," + part + ",", k)
    ensures FieldAt(s, part, k + 1)
  {
    var sep := "," + part + ",";
    assert |sep| == |part| + 2;
    assert forall j :: 0 <= j < |part| ==> s[k + 1 + j] == sep[1 + j] == part[j];
    assert s[k + 1..k + 1 + |part|] == part;
  }

  /** A field passes one of the four tests of `setGpsLocation`. */
  lemma FieldTests(s: string, part: string, i: int)
    requires FieldAt(s, part, i)
    ensures s == part || StartsWith(s, part + ",") || EndsWith(s, "," + part)
            || OccursAt(s, "," + part + ",", i - 1)
  {
    if i == 0 && |part| == |s| {
      assert s == s[0..|part|];
    } else if i == 0 {
      FieldAtFront(s, part);
    } else if i + |part| == |s| {
      FieldAtBack(s, part, i);
    } else {
      FieldInside(s, part, i);
    }
  }

  /** The characters of a field are those of `part`. */
  lemma FieldChars(s: string, part: string, i: int)
    requires FieldAt(s, part, i)
    ensures forall j :: 0 <= j < |part| ==> s[i + j] == part[j]
  {
    forall j | 0 <= j < |part|
      ensures s[i + j] == part[j]
    {
      assert s[i..i + |part|][j] == s[i + j];
    }
  }

  lemma FieldAtFront(s: string, part: string)
    requires FieldAt(s, part, 0) && |part| < |s|
    ensures StartsWith(s, part + ",")
  {
    FieldChars(s, part, 0);
    var t := part + ",";
    assert forall j :: 0 <= j < |t| ==> s[..|t|][j] == t[j];
    assert s[..|t|] == t;
  }

  lemma FieldAtBack(s: string, part: string, i: int)
    requires FieldAt(s, part, i) && i > 0 && i + |part| == |s|
    ensures EndsWith(s, "," + part)
  {
    FieldChars(s, part, i);
    var t := "," + part;
    assert forall j :: 0 <= j < |t| ==> s[i - 1..][j] == t[j];
    assert s[|s| - |t|..] == t;
  }

  lemma FieldInside(s: string, part: string, i: int)
    requires FieldAt(s, part, i) && i > 0 && i + |part| < |s|
    ensures OccursAt(s, "," + part + ",", i - 1)
  {
    FieldChars(s, part, i);
    var t := "," + part + ",";
    assert forall j :: 0 <= j < |t| ==> s[i - 1..i - 1 + |t|][j] == t[j];
    assert s[i - 1..i - 1 + |t|] == t;
  }

  /** A comma-free string is one of the fields of `s` exactly when it
      occurs in `s` between commas or the ends of `s`. */
  lemma {:induction false} FieldsMembership(s: string, part: string)
    requires ',' !in part
    ensures part in Fields(s) <==> IsField(s, part)
    decreases |s|
  {
    if ',' !in s {
      FieldOfCommaFree(s, part);
    } else {
      var c := FirstComma(s);
      var t := s[c + 1..];
      assert Fields(s) == [s[..c]] + Fields(t);
      FieldsMembership(t, part);
      if part == s[..c] {
        assert FieldAt(s, part, 0);
      }
      if IsField(t, part) {
        var j :| FieldAt(t, part, j);
        FieldAfterComma(s, part, c, j);
      }
      if IsField(s, part) {
        var i :| FieldAt(s, part, i);
        if i == 0 {
          FieldAtStart(s, part, c);
        } else {
          FieldBeyondComma(s, part, c, i);
        }
      }
    }
  }

  /** Without commas, `s` has itself as its only field. */
  lemma FieldOfCommaFree(s: string, part: string)
    requires ',' !in s && ',' !in part
    ensures part in Fields(s) <==> IsField(s, part)
  {
    assert Fields(s) == [s];
    if part == s {
      assert FieldAt(s, part, 0);
    }
    if IsField(s, part) {
      var i :| FieldAt(s, part, i);
      assert FieldAt(s, part, i);
      assert forall k :: 0 <= k < |s| ==> s[k] in s;
      assert s == s[0..|s|];
    }
  }

  /** A field of the text after the first comma is a field of `s`. */
  lemma FieldAfterComma(s: string, part: string, c: nat, j: int)
    requires c < |s| && s[c] == ','
    requires FieldAt(s[c + 1..], part, j)
    ensures FieldAt(s, part, c + 1 + j)
  {
    var t := s[c + 1..];
    assert t[j..j + |part|] == s[c + 1 + j..c + 1 + j + |part|];
  }

  /** A field of `s` that does not start it lies after the first comma. */
  lemma FieldBeyondComma(s: string, part: string, c: nat, i: int)
    requires c < |s| && s[c] == ',' && ',' !in s[..c]
    requires FieldAt(s, part, i) && i > 0
    ensures FieldAt(s[c + 1..], part, i - c - 1)
  {
    assert forall k :: 0 <= k < c ==> s[..c][k] == s[k] && s[k] in s[..c];
    var t := s[c + 1..];
    assert s[i..i + |part|] == t[i - c - 1..i - c - 1 + |part|];
  }

  /** A comma-free field at the start of `s` is the text before the first
      comma. */
  lemma FieldAtStart(s: string, part: string, c: nat)
    requires ',' !in part && FieldAt(s, part, 0)
    requires c < |s| && s[c] == ',' && ',' !in s[..c]
    ensures part == s[..c]
  {
    assert forall k :: 0 <= k < |part| ==> s[k] == part[k] && part[k] in part;
    assert forall k :: 0 <= k < c ==> s[..c][k] == s[k] && s[k] in s[..c];
  }

  /** Therefore GPS is enabled exactly when "gps" is one of the fields. */
  lemma GpsEnabledIsField(value: string)
    ensures GpsEnabled(value) <==> GPS_PROVIDER in Fields(value)
  {
    GpsEnabledIsFieldAt(value);
    FieldsMembership(value, GPS_PROVIDER);
  }
}
