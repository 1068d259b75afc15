/**
 * Display names for sensor columns: every copy of `format_sensor_name`
 * turns the underscores of a column name into spaces, and two of them then
 * title-case the result.
 */
module SensorNames {
  import opened Strings

  /** `' '.join(sensor.split('_'))` (scripts/updated_visualizer.py). */
  function JoinedName(sensor: string): (r: string)
    ensures r == ReplaceChar(sensor, '_', ' ')
  {
    JoinSplitIsReplace(sensor, '_', ' ');
    Join(" ", Split(sensor, '_'))
  }

  /** `sensor.replace('_', ' ')` (simplified_sensor_visualization.py). */
  function SpacedName(sensor: string): (r: string)
    ensures |r| == |sensor| && '_' !in r
    ensures forall i :: 0 <= i < |sensor| && sensor[i] != '_' ==> r[i] == sensor[i]
    ensures forall i :: 0 <= i < |sensor| && sensor[i] == '_' ==> r[i] == ' '
  {
    ReplaceRemoves(sensor, '_', ' ');
    ReplaceCharAt(sensor, '_', ' ');
    ReplaceChar(sensor, '_', ' ')
  }

  /** `sensor.replace('_', ' ').title()` (src/utils/utils.py, visualization.py). */
  function TitledName(sensor: string): (r: string)
    ensures |r| == |sensor| && '_' !in r
    ensures forall i :: 0 <= i < |sensor| && sensor[i] == '_' ==> r[i] == ' '
    ensures Title(r) == r
    ensures r == Title(SpacedName(sensor))
    ensures forall i :: 0 <= i < |sensor| && sensor[i] != '_' && !IsCased(sensor[i]) ==> r[i] == sensor[i]
    ensures forall i :: 0 <= i < |sensor| && IsCased(sensor[i]) ==>
      r[i] == if i > 0 && IsCased(sensor[i - 1]) then ToLowerChar(sensor[i]) else ToUpperChar(sensor[i])
  {
    var spaced := SpacedName(sensor);
    var r := Title(spaced);
    forall i | 0 <= i < |r|
      ensures r[i] != '_' && (sensor[i] == '_' ==> r[i] == ' ')
      ensures sensor[i] != '_' && !IsCased(sensor[i]) ==> r[i] == sensor[i]
      ensures IsCased(sensor[i]) ==>
        r[i] == if i > 0 && IsCased(sensor[i - 1]) then ToLowerChar(sensor[i]) else ToUpperChar(sensor[i])
    {
      if !IsCased(spaced[i]) {
        TitleFromKeepsUncased(spaced, false, i);
      } else {
        assert r[i] == TitleFrom(spaced, false)[i];
        TitleFromCased(spaced, false, i);
        TitleFromAt(spaced, false, i);
        if i > 0 {
          assert IsCased(spaced[i - 1]) == IsCased(sensor[i - 1]);
        }
      }
    }
    TitleIdempotent(spaced);
    r
  }

  /** A letter stays a letter under title-casing. */
  lemma {:induction false} TitleFromCased(s: string, afterCased: bool, i: nat)
    requires i < |s| && IsCased(s[i])
    ensures IsCased(TitleFrom(s, afterCased)[i])
  {
    if i > 0 {
      TitleFromCased(s[1..], IsCased(s[0]), i - 1);
    }
  }

  /** The joined and the replaced spelling are the same name. */
  lemma JoinedIsSpaced(sensor: string)
    ensures JoinedName(sensor) == SpacedName(sensor)
  {
  }

  /** Title-casing decides each character from the one before it. */
  lemma {:induction false} TitleFromAt(s: string, afterCased: bool, i: nat)
    requires i < |s|
    ensures TitleFrom(s, afterCased)[i] ==
      if (if i == 0 then afterCased else IsCased(s[i - 1])) then ToLowerChar(s[i]) else ToUpperChar(s[i])
  {
    if i > 0 {
      TitleFromAt(s[1..], IsCased(s[0]), i - 1);
    }
  }

  /** `'Sensor_1'` is shown as `'Sensor 1'` by every variant. */
  lemma SensorOneExample()
    ensures JoinedName("Sensor_1") == "Sensor 1"
    ensures SpacedName("Sensor_1") == "Sensor 1"
    ensures TitledName("Sensor_1") == "Sensor 1"
  {
    SpacedExample("Sensor_1", "Sensor 1");
    TitleChars("Sensor 1", "Sensor 1");
    TitleExample("Sensor 1", "Sensor 1");
  }

  /** `'sensor_x'` is title-cased to `'Sensor X'`. */
  lemma SensorXExample()
    ensures TitledName("sensor_x") == "Sensor X"
  {
    SpacedExample("sensor_x", "sensor x");
    TitleChars("sensor x", "Sensor X");
    TitleExample("sensor x", "Sensor X");
  }

  lemma SpacedExample(raw: string, spaced: string)
    requires |raw| == |spaced| == 8
    requires forall i :: 0 <= i < 8 ==> spaced[i] == if raw[i] == '_' then ' ' else raw[i]
    ensures SpacedName(raw) == spaced
  {
  }

  lemma TitleExample(s: string, t: string)
    requires |s| == |t| == 8
    requires forall i :: 0 <= i < 8 ==> t[i] == TitleCharAt(s, i)
    ensures Title(s) == t
  {
    forall i | 0 <= i < 8 ensures Title(s)[i] == t[i] {
      TitleFromAt(s, false, i);
    }
  }

  /** The character `title` puts at position `i`: lower case after a cased character, upper case otherwise. */
  function TitleCharAt(s: string, i: nat): char
    requires i < |s|
  {
    if (if i == 0 then false else IsCased(s[i - 1])) then ToLowerChar(s[i]) else ToUpperChar(s[i])
  }

  /** The title-cased characters of the two examples. */
  lemma TitleChars(s: string, t: string)
    requires (s == "sensor x" && t == "Sensor X") || (s == "Sensor 1" && t == "Sensor 1")
    ensures forall i :: 0 <= i < 8 ==> t[i] == TitleCharAt(s, i)
  {
    forall i | 0 <= i < 8 ensures t[i] == TitleCharAt(s, i) {
      if i == 0 {
      } else if i < 6 {
        assert IsCased(s[i - 1]);
      } else if i == 6 {
        assert IsCased(s[5]);
      } else {
        assert !IsCased(s[6]);
      }
    }
  }
}
