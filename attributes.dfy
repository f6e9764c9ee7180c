/**
 * What the framework reads from a macro feature class by reflection: the class's names, whether it
 * derives from the framework base class, and the attributes that decorate it. Every string property
 * of an attribute is a .NET string and may therefore be null, hence `Option<string>`.
 */
module Attributes {
  import opened Wrappers

  /** `OptionsAttribute`: only the two properties the core reads. */
  datatype OptionsAttribute = OptionsAttribute(baseName: Option<string>, provider: Option<string>)

  /** `System.ComponentModel.DisplayNameAttribute`. */
  datatype DisplayNameAttribute = DisplayNameAttribute(displayName: Option<string>)

  /** `System.Runtime.InteropServices.ProgIdAttribute`. */
  datatype ProgIdAttribute = ProgIdAttribute(value: Option<string>)

  /** The three slots an icon may stand in within the host's feature tree. */
  datatype IconSlot = RegularIcon | HighlightedIcon | SuppressedIcon

  /** The picture behind an icon: the framework's built-in default or one supplied by the user. */
  datatype Picture = DefaultPicture | UserPicture(resource: nat)

  /** `MacroFeatureIcon`: a picture under the name of the slot it is written for. */
  datatype MacroFeatureIcon = MacroFeatureIcon(name: IconSlot, picture: Picture)

  /** `IconAttribute`: each of its three icons may be missing (null). */
  datatype IconAttribute = IconAttribute(
    regular: Option<MacroFeatureIcon>,
    highlighted: Option<MacroFeatureIcon>,
    suppressed: Option<MacroFeatureIcon>)

  /** A `System.Type` as far as the core inspects it. */
  datatype FeatureType = FeatureType(
    name: string,
    fullName: string,
    derivesFromMacroFeatureEx: bool,
    options: Option<OptionsAttribute>,
    displayName: Option<DisplayNameAttribute>,
    progId: Option<ProgIdAttribute>,
    icon: Option<IconAttribute>)
}
