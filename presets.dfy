/** The options presets the form offers: which one is chosen by default, and lookup by id. */
module Presets {
  import opened Wrappers
  import opened JsSemantics

  /** One element of the presets endpoint's JSON array. */
  datatype Preset = Preset(id: int, name: string, options: seq<string>)

  /** The name of the preset chosen by default; it is compared literally, never translated. */
  const DefaultName := "Default"

  const NoPresetsError := "There are no presets. Please create a system preset from the Administration -- Presets page, then try again."

  /** `presets.find(p => p.name === name)`: the first preset with that name, if any. */
  function FindByName(presets: seq<Preset>, name: string): (r: Option<Preset>)
    ensures r.None? <==> forall i :: 0 <= i < |presets| ==> presets[i].name != name
    ensures r.Some? ==>
      r.value.name == name &&
      exists i :: 0 <= i < |presets| && presets[i] == r.value && forall j :: 0 <= j < i ==> presets[j].name != name
  {
    if presets == [] then None
    else if presets[0].name == name then Some(presets[0])
    else
      var r := FindByName(presets[1..], name);
      assert forall i :: 1 <= i < |presets| ==> presets[i] == presets[1..][i - 1];
      assert r.Some? ==> exists i :: 1 <= i < |presets| && presets[i] == r.value && forall j :: 0 <= j < i ==> presets[j].name != name by {
        if r.Some? {
          var i :| 0 <= i < |presets[1..]| && presets[1..][i] == r.value && forall j :: 0 <= j < i ==> presets[1..][j].name != name;
          assert presets[i + 1] == r.value;
          assert forall j :: 1 <= j < i + 1 ==> presets[j].name != name;
        }
      }
      r
  }

  /**
   * The preset selected when a list arrives: the first one named "Default" if any, else the
   * first preset; none for an empty list.
   */
  function ChoosePreset(presets: seq<Preset>): (r: Option<Preset>)
    ensures r.None? <==> presets == []
    ensures r.Some? ==> r.value in presets
    ensures (exists i :: 0 <= i < |presets| && presets[i].name == DefaultName) ==>
      r.Some? && r.value.name == DefaultName &&
      exists i :: 0 <= i < |presets| && presets[i] == r.value && forall j :: 0 <= j < i ==> presets[j].name != DefaultName
    ensures presets != [] && (forall i :: 0 <= i < |presets| ==> presets[i].name != DefaultName) ==>
      r == Some(presets[0])
  {
    if presets == [] then None
    else match FindByName(presets, DefaultName)
      case Some(d) => Some(d)
      case None => Some(presets[0])
  }

  /** `presets.find(p => p.id === parseInt(id))`: NaN matches no preset. */
  function FindPresetById(presets: seq<Preset>, id: JsValue): (r: Option<Preset>)
    ensures r.Some? ==> r.value in presets && ParseIntValue(id) == Some(r.value.id)
    ensures r.None? <==> forall i :: 0 <= i < |presets| ==> ParseIntValue(id) != Some(presets[i].id)
  {
    FindPresetWithId(presets, ParseIntValue(id))
  }

  /** The search behind `FindPresetById`, given the parsed id (`None` for NaN). */
  function FindPresetWithId(presets: seq<Preset>, parsed: Option<int>): (r: Option<Preset>)
    ensures r.Some? ==> r.value in presets && parsed == Some(r.value.id)
    ensures r.None? <==> forall i :: 0 <= i < |presets| ==> parsed != Some(presets[i].id)
  {
    if presets == [] then None
    else if parsed == Some(presets[0].id) then Some(presets[0])
    else
      assert forall i :: 1 <= i < |presets| ==> presets[i] == presets[1..][i - 1];
      FindPresetWithId(presets[1..], parsed)
  }

  /** The search returns the first preset with the parsed id. */
  lemma {:induction false} FindPresetWithIdFirst(presets: seq<Preset>, parsed: Option<int>)
    ensures var r := FindPresetWithId(presets, parsed);
      r.Some? ==>
        exists i :: 0 <= i < |presets| && presets[i] == r.value &&
          forall j :: 0 <= j < i ==> parsed != Some(presets[j].id)
  {
    if presets != [] && parsed != Some(presets[0].id) {
      FindPresetWithIdFirst(presets[1..], parsed);
      var r := FindPresetWithId(presets, parsed);
      if r.Some? {
        var i :| 0 <= i < |presets[1..]| && presets[1..][i] == r.value &&
          forall j :: 0 <= j < i ==> parsed != Some(presets[1..][j].id);
        assert presets[i + 1] == r.value;
        assert forall j :: 1 <= j < i + 1 ==> presets[j] == presets[1..][j - 1];
      }
    }
  }

  /** `find` returns the first preset whose id is `parseInt(id)`. */
  lemma FindPresetByIdFirst(presets: seq<Preset>, id: JsValue)
    ensures var r := FindPresetById(presets, id);
      r.Some? ==>
        exists i :: 0 <= i < |presets| && presets[i] == r.value &&
          forall j :: 0 <= j < i ==> ParseIntValue(id) != Some(presets[j].id)
  {
    FindPresetWithIdFirst(presets, ParseIntValue(id));
  }

  /**
   * Choosing a preset in the drop-down reports its id as a string; looking that string up finds
   * a preset with the same id, the chosen one itself when ids are distinct.
   */
  lemma SelectRenderedPresetId(presets: seq<Preset>, k: nat)
    requires k < |presets|
    ensures var found := FindPresetById(presets, Str(NumberToString(presets[k].id)));
      found.Some? && found.value.id == presets[k].id &&
      ((forall i, j :: 0 <= i < j < |presets| ==> presets[i].id != presets[j].id) ==> found.value == presets[k])
  {
    var id := presets[k].id;
    var chosen := Str(NumberToString(id));
    ParseIntRoundTrip(id);
    assert ParseIntValue(chosen) == Some(id);
    var found := FindPresetById(presets, chosen);
    assert found.Some?;
    var i :| 0 <= i < |presets| && presets[i] == found.value;
    if forall i, j :: 0 <= i < j < |presets| ==> presets[i].id != presets[j].id {
      assert presets[i].id == presets[k].id;
    }
  }

  /** A number id, as the component could also be handed, selects the preset with that id. */
  lemma SelectPresetByNumber(presets: seq<Preset>, n: int)
    ensures FindPresetById(presets, Num(n)).Some? <==> exists i :: 0 <= i < |presets| && presets[i].id == n
  {
    ParseIntRoundTrip(n);
    if exists i :: 0 <= i < |presets| && presets[i].id == n {
      var i :| 0 <= i < |presets| && presets[i].id == n;
      assert ParseIntValue(Num(n)) == Some(presets[i].id);
    }
  }
}
