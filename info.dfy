/**
 * Name resolution for a macro feature class (`MacroFeatureInfo`): the base name under which its
 * features appear in the host and the COM ProgId the host creates it by. Both are plain fallback
 * chains over what reflection finds on the class.
 */
module Info {
  import opened Wrappers
  import opened Attributes

  /** `InvalidCastException`: the type does not inherit `MacroFeatureEx`. */
  datatype InfoError = MustInheritMacroFeatureEx(typeFullName: string)

  /** `OptionsAttribute.BaseName`, or null when the class has no such attribute. */
  function OptionsBaseName(t: FeatureType): Option<string> {
    if t.options.Some? then t.options.value.baseName else None
  }

  /** `DisplayNameAttribute.DisplayName`, or null when the class has no such attribute. */
  function DisplayName(t: FeatureType): Option<string> {
    if t.displayName.Some? then t.displayName.value.displayName else None
  }

  /** The base name of a macro feature type: the options' base name, else the display name, else the type name. */
  function GetBaseName(t: FeatureType): (r: Result<string, InfoError>)
    ensures r.Failure? <==> !t.derivesFromMacroFeatureEx
    ensures r.Failure? ==> r.error == MustInheritMacroFeatureEx(t.fullName)
    ensures r.Success? && !IsNullOrEmpty(OptionsBaseName(t)) ==> r.value == OptionsBaseName(t).value
    ensures r.Success? && IsNullOrEmpty(OptionsBaseName(t)) && !IsNullOrEmpty(DisplayName(t)) ==>
              r.value == DisplayName(t).value
    ensures r.Success? && IsNullOrEmpty(OptionsBaseName(t)) && IsNullOrEmpty(DisplayName(t)) ==>
              r.value == t.name
  {
    if !t.derivesFromMacroFeatureEx then
      Failure(MustInheritMacroFeatureEx(t.fullName))
    else if !IsNullOrEmpty(OptionsBaseName(t)) then
      Success(OptionsBaseName(t).value)
    else if !IsNullOrEmpty(DisplayName(t)) then
      Success(DisplayName(t).value)
    else
      Success(t.name)
  }

  /** The first candidate that is neither null nor empty, or `last` when there is none. */
  function FirstNonEmpty(candidates: seq<Option<string>>, last: string): (r: string)
    ensures r == last || exists i :: 0 <= i < |candidates| && candidates[i] == Some(r) && r != ""
  {
    if candidates == [] then last
    else if !IsNullOrEmpty(candidates[0]) then candidates[0].value
    else
      var r := FirstNonEmpty(candidates[1..], last);
      assert r != last ==> exists i :: 0 <= i < |candidates[1..]| && candidates[1..][i] == Some(r) && r != "";
      r
  }

  /** The base name is the first usable name in the order options, display name, type name. */
  lemma GetBaseNameIsFirstNonEmpty(t: FeatureType)
    requires t.derivesFromMacroFeatureEx
    ensures GetBaseName(t) == Success(FirstNonEmpty([OptionsBaseName(t), DisplayName(t)], t.name))
  {
  }

  /** A type with a non-empty name always gets a non-empty base name. */
  lemma BaseNameIsNeverEmpty(t: FeatureType)
    requires t.derivesFromMacroFeatureEx && t.name != ""
    ensures GetBaseName(t).Success? && GetBaseName(t).value != ""
  {
  }

  /**
   * The ProgId of a macro feature type: the `ProgIdAttribute` value whenever the attribute is
   * present (even a null or empty value), otherwise the type's full name.
   */
  function GetProgId(t: FeatureType): (r: Result<Option<string>, InfoError>)
    ensures r.Failure? <==> !t.derivesFromMacroFeatureEx
    ensures r.Failure? ==> r.error == MustInheritMacroFeatureEx(t.fullName)
    ensures r.Success? && t.progId.Some? ==> r.value == t.progId.value.value
    ensures r.Success? && t.progId.None? ==> r.value == Some(t.fullName)
  {
    if !t.derivesFromMacroFeatureEx then
      Failure(MustInheritMacroFeatureEx(t.fullName))
    else if t.progId.Some? then
      Success(t.progId.value.value)
    else
      Success(Some(t.fullName))
  }

  /**
   * `GetBaseName<TMacroFeature>()`: the type parameter is constrained to derive from
   * `MacroFeatureEx`, so this overload cannot fail and agrees with the `Type` overload.
   */
  function GetBaseNameOf(t: FeatureType): (r: string)
    requires t.derivesFromMacroFeatureEx
    ensures GetBaseName(t) == Success(r)
  {
    GetBaseName(t).value
  }

  /** `GetProgId<TMacroFeature>()`: never fails, agrees with the `Type` overload. */
  function GetProgIdOf(t: FeatureType): (r: Option<string>)
    requires t.derivesFromMacroFeatureEx
    ensures GetProgId(t) == Success(r)
  {
    GetProgId(t).value
  }
}
