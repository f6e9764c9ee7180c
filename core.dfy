/**
 * The base macro feature class (`MacroFeatureEx`): the three entry points the host calls on a
 * macro feature (edit, regenerate, security), the overridable hooks they forward to, the provider
 * tag stamped onto a feature's definition and the best-effort choice of the feature's icons.
 */
module Core {
  import opened Wrappers
  import opened Attributes

  /** The host objects an entry point receives (application, document, feature), as identities. */
  datatype Context = Context(app: nat, model: nat, feature: nat)

  /**
   * `swMacroFeatureSecurityOptions_e`. Only its default member matters here; the host's other
   * members are carried by their code.
   */
  datatype SecurityOptions = SecurityByDefault | HostSecurityOption(code: int)

  /** `MacroFeatureRebuildResult`; `result` stands for the host object `GetResult()` produces. */
  datatype RebuildResult = RebuildResult(result: nat) {
    function GetResult(): nat { result }
  }

  /**
   * What a derived class overrides. `None` means the base class's virtual method is used. The
   * rebuild hook sees the feature's stored provider as it is when the hook runs.
   */
  datatype Overrides = Overrides(
    onEditDefinition: Option<Context -> bool>,
    onRebuild: Option<(Context, string) -> Option<RebuildResult>>,
    onUpdateState: Option<Context -> SecurityOptions>)

  /** The three icons a feature type is shown with. */
  datatype IconSet = IconSet(regular: MacroFeatureIcon, highlighted: MacroFeatureIcon, suppressed: MacroFeatureIcon)

  /** `MacroFeatureIcon.Clone(name)`: the same picture under another slot's name. */
  function Clone(icon: MacroFeatureIcon, name: IconSlot): (r: MacroFeatureIcon)
    ensures r.name == name && r.picture == icon.picture
  {
    icon.(name := name)
  }

  /**
   * The choice made by `TryCreateIcons`: the icons of the `IconAttribute` where given; a missing
   * regular icon becomes the default master icon; a missing highlighted or suppressed icon becomes
   * a clone of the regular one under its own name. Converting the icons to files happens after
   * this choice and its failures are swallowed, so the choice never depends on it.
   */
  method TryCreateIcons(attribute: Option<IconAttribute>) returns (icons: IconSet)
    ensures attribute.Some? && attribute.value.regular.Some? ==> icons.regular == attribute.value.regular.value
    ensures (attribute.None? || attribute.value.regular.None?) ==>
              icons.regular == MacroFeatureIcon(RegularIcon, DefaultPicture)
    ensures attribute.Some? && attribute.value.highlighted.Some? ==> icons.highlighted == attribute.value.highlighted.value
    ensures (attribute.None? || attribute.value.highlighted.None?) ==>
              icons.highlighted == MacroFeatureIcon(HighlightedIcon, icons.regular.picture)
    ensures attribute.Some? && attribute.value.suppressed.Some? ==> icons.suppressed == attribute.value.suppressed.value
    ensures (attribute.None? || attribute.value.suppressed.None?) ==>
              icons.suppressed == MacroFeatureIcon(SuppressedIcon, icons.regular.picture)
  {
    var regIcon: Option<MacroFeatureIcon> := None;
    var highIcon: Option<MacroFeatureIcon> := None;
    var suppIcon: Option<MacroFeatureIcon> := None;
    if attribute.Some? {
      regIcon := attribute.value.regular;
      highIcon := attribute.value.highlighted;
      suppIcon := attribute.value.suppressed;
    }
    if regIcon.None? {
      regIcon := Some(MacroFeatureIcon(RegularIcon, DefaultPicture));
    }
    if highIcon.None? {
      highIcon := Some(Clone(regIcon.value, HighlightedIcon));
    }
    if suppIcon.None? {
      suppIcon := Some(Clone(regIcon.value, SuppressedIcon));
    }
    icons := IconSet(regIcon.value, highIcon.value, suppIcon.value);
  }

  /** The host's `IMacroFeatureData` of one feature: its stored provider and how often it was written. */
  class FeatureData {
    var provider: string
    ghost var providerWrites: nat

    constructor (provider: string)
      ensures this.provider == provider && providerWrites == 0
    {
      this.provider := provider;
      providerWrites := 0;
    }

    /** The `Provider` property setter. */
    method WriteProvider(value: string)
      modifies this
      ensures provider == value && providerWrites == old(providerWrites) + 1
    {
      provider := value;
      providerWrites := providerWrites + 1;
    }
  }

  /** The host's translation of a rebuild hook's answer: its `GetResult()` when there is one, else null. */
  function RebuildOutcome(res: Option<RebuildResult>): (r: Option<nat>)
    ensures r.None? <==> res.None?
    ensures res.Some? ==> r == Some(res.value.GetResult())
  {
    if res.Some? then Some(res.value.GetResult()) else None
  }

  class MacroFeatureEx {
    /** `m_Provider`: read from `OptionsAttribute.Provider` once, at construction. */
    const provider: Option<string>
    /** The hooks the concrete feature class overrides. */
    const overrides: Overrides
    /**
     * The icons chosen at construction. The framework keeps them only in locals of
     * `TryCreateIcons` and hands them to the icon converter; this constant stands for those
     * values, not for a field of the framework's class.
     */
    const icons: IconSet

    /** Construction reads the provider tag and chooses the icons of the concrete class `t`. */
    constructor (t: FeatureType, overrides: Overrides)
      ensures t.options.Some? ==> provider == t.options.value.provider
      ensures t.options.None? ==> provider == None
      ensures this.overrides == overrides
      ensures t.icon.Some? && t.icon.value.regular.Some? ==> icons.regular == t.icon.value.regular.value
      ensures (t.icon.None? || t.icon.value.regular.None?) ==>
                icons.regular == MacroFeatureIcon(RegularIcon, DefaultPicture)
      ensures t.icon.Some? && t.icon.value.highlighted.Some? ==> icons.highlighted == t.icon.value.highlighted.value
      ensures (t.icon.None? || t.icon.value.highlighted.None?) ==>
                icons.highlighted == MacroFeatureIcon(HighlightedIcon, icons.regular.picture)
      ensures t.icon.Some? && t.icon.value.suppressed.Some? ==> icons.suppressed == t.icon.value.suppressed.value
      ensures (t.icon.None? || t.icon.value.suppressed.None?) ==>
                icons.suppressed == MacroFeatureIcon(SuppressedIcon, icons.regular.picture)
    {
      provider := if t.options.Some? then t.options.value.provider else None;
      this.overrides := overrides;
      var chosen := TryCreateIcons(t.icon);
      icons := chosen;
    }

    /** `OnEditDefinition`: the override, or `true` by default. */
    function OnEditDefinition(c: Context): (r: bool)
      ensures overrides.onEditDefinition.None? ==> r
      ensures overrides.onEditDefinition.Some? ==> r == overrides.onEditDefinition.value(c)
    {
      if overrides.onEditDefinition.Some? then overrides.onEditDefinition.value(c) else true
    }

    /** `OnRebuild`: the override, or no result by default. */
    function OnRebuild(c: Context, storedProvider: string): (r: Option<RebuildResult>)
      ensures overrides.onRebuild.None? ==> r.None?
      ensures overrides.onRebuild.Some? ==> r == overrides.onRebuild.value(c, storedProvider)
    {
      if overrides.onRebuild.Some? then overrides.onRebuild.value(c, storedProvider) else None
    }

    /** `OnUpdateState`: the override, or `swMacroFeatureSecurityByDefault` by default. */
    function OnUpdateState(c: Context): (r: SecurityOptions)
      ensures overrides.onUpdateState.None? ==> r == SecurityByDefault
      ensures overrides.onUpdateState.Some? ==> r == overrides.onUpdateState.value(c)
    {
      if overrides.onUpdateState.Some? then overrides.onUpdateState.value(c) else SecurityByDefault
    }

    /** `Edit`: whatever `OnEditDefinition` answers; without an override, the edit is accepted. */
    function Edit(c: Context): (r: bool)
      ensures overrides.onEditDefinition.None? ==> r
      ensures overrides.onEditDefinition.Some? ==> r == overrides.onEditDefinition.value(c)
    {
      OnEditDefinition(c)
    }

    /** `Security`: whatever `OnUpdateState` answers; without an override, the neutral default. */
    function Security(c: Context): (r: SecurityOptions)
      ensures overrides.onUpdateState.None? ==> r == SecurityByDefault
      ensures overrides.onUpdateState.Some? ==> r == overrides.onUpdateState.value(c)
    {
      OnUpdateState(c)
    }

    /**
     * `SetProvider`: with a configured (non-null, non-empty) tag, the feature's stored provider
     * becomes the tag, written only when it differed; otherwise the feature is left alone.
     */
    method SetProvider(data: FeatureData)
      modifies data
      ensures IsNullOrEmpty(provider) ==> data.provider == old(data.provider) && data.providerWrites == old(data.providerWrites)
      ensures !IsNullOrEmpty(provider) ==> data.provider == provider.value
      ensures !IsNullOrEmpty(provider) ==>
                data.providerWrites == old(data.providerWrites) + (if old(data.provider) != provider.value then 1 else 0)
    {
      if !IsNullOrEmpty(provider) {
        if data.provider != provider.value {
          data.WriteProvider(provider.value);
        }
      }
    }

    /**
     * `Regenerate`: stamps the provider first, so the rebuild hook sees the stamped definition,
     * then answers the hook's result translated for the host, or null when the hook gave none.
     */
    method Regenerate(c: Context, data: FeatureData) returns (r: Option<nat>)
      modifies data
      ensures IsNullOrEmpty(provider) ==> data.provider == old(data.provider) && data.providerWrites == old(data.providerWrites)
      ensures !IsNullOrEmpty(provider) ==> data.provider == provider.value
      ensures !IsNullOrEmpty(provider) ==>
                data.providerWrites == old(data.providerWrites) + (if old(data.provider) != provider.value then 1 else 0)
      ensures r == RebuildOutcome(OnRebuild(c, data.provider))
      ensures overrides.onRebuild.None? ==> r.None?
    {
      SetProvider(data);
      var res := OnRebuild(c, data.provider);
      if res.Some? {
        r := Some(res.value.GetResult());
      } else {
        r := None;
      }
    }
  }

  /** Stamping twice writes at most once: the second call finds the tag already stored. */
  method SetProviderTwice(f: MacroFeatureEx, data: FeatureData)
    modifies data
    ensures !IsNullOrEmpty(f.provider) ==> data.provider == f.provider.value
    ensures data.providerWrites <= old(data.providerWrites) + 1
  {
    f.SetProvider(data);
    ghost var afterFirst := data.providerWrites;
    f.SetProvider(data);
    assert data.providerWrites == afterFirst;
  }

  /**
   * The stamping scenario: with the tag "Acme" configured and an empty stored provider, one
   * regeneration stores "Acme" with one write and a second regeneration writes nothing more.
   */
  method RegenerateStampsOnce(c: Context) returns (f: MacroFeatureEx, data: FeatureData, first: Option<nat>, second: Option<nat>)
    ensures data.provider == "Acme" && data.providerWrites == 1
    ensures first.None? && second.None?
    ensures f.Edit(c) && f.Security(c) == SecurityByDefault
  {
    var t := FeatureType("AcmeFeature", "Acme.AcmeFeature", true, Some(OptionsAttribute(None, Some("Acme"))), None, None, None);
    f := new MacroFeatureEx(t, Overrides(None, None, None));
    data := new FeatureData("");
    first := f.Regenerate(c, data);
    second := f.Regenerate(c, data);
  }
}
