/** The Contentful side of the mapping: the shapes of the `contentful-go`
    library (`model.ContentType`, `model.Field`, the `model.FieldValidation*`
    variants, `contentful.EditorInterface` with its controls and sidebar) as the
    provider reads and writes them. Floating-point bounds are integers here. */
module Remote {
  import opened Common

  /** `model.FieldTypeArray`. */
  const FieldTypeArray := "Array"

  /** `model.MinMax`. */
  datatype MinMax = MinMax(min: Option<int>, max: Option<int>)

  /** `model.FieldValidation`: one constructor per variant the provider knows,
      `NoValidation` for the nil interface value, and `UnknownValidation` for any
      variant the provider does not know (named by its Go type). The bounds of
      the size, range and file-size variants and the `model.Regex` of the regex
      variant (here just its pattern) are held by pointer, so each may be nil. */
  datatype FieldValidation =
    | ValidationUnique(unique: bool)
    | ValidationSize(size: Option<MinMax>, errorMessage: Option<string>)
    | ValidationRange(range: Option<MinMax>, rangeMessage: string)
    | ValidationFileSize(size: Option<MinMax>)
    | ValidationRegex(regex: Option<string>, errorMessage: Option<string>)
    | ValidationLink(linkContentType: seq<string>)
    | ValidationMimeType(mimeTypes: seq<string>, errorMessage: Option<string>)
    | ValidationPredefinedValues(values: seq<string>)
    | ValidationEnabledMarks(marks: seq<string>, errorMessage: Option<string>)
    | ValidationEnabledNodeTypes(nodeTypes: seq<string>, errorMessage: Option<string>)
    | NoValidation
    | UnknownValidation(typeName: string)

  /** `model.FieldTypeArrayItem`. */
  datatype ArrayItem = ArrayItem(itemType: string, validations: seq<FieldValidation>, linkType: Option<string>)

  /** A JSON scalar held by a default-value map (`map[string]any`); `OtherScalar`
      is any other dynamic type, named by its Go type. */
  datatype Scalar = StringScalar(s: string) | BoolScalar(b: bool) | OtherScalar(typeName: string)

  /** `model.Field`; a nil default-value map is `None`. */
  datatype Field = Field(
    id: string,
    name: string,
    fieldType: string,
    linkType: string,
    localized: bool,
    required: bool,
    disabled: bool,
    omitted: bool,
    validations: seq<FieldValidation>,
    items: Option<ArrayItem>,
    defaultValue: Option<map<string, Scalar>>)

  /** The part of `model.EnvironmentSys` the provider uses. */
  datatype Sys = Sys(id: string, version: int)

  /** `model.ContentType`. */
  datatype ContentType = ContentType(
    sys: Option<Sys>,
    name: string,
    displayField: string,
    description: Option<string>,
    fields: seq<Field>)

  /** `contentful.Settings` of a field control. */
  datatype Settings = Settings(
    helpText: Option<string>,
    trueLabel: Option<string>,
    falseLabel: Option<string>,
    stars: Option<int>,
    format: Option<string>,
    ampm: Option<string>,
    bulkEditing: Option<bool>,
    trackingFieldId: Option<string>)

  /** `contentful.Controls`: the editor widget bound to one field. */
  datatype Control = Control(
    fieldId: string,
    widgetId: Option<string>,
    widgetNamespace: Option<string>,
    settings: Option<Settings>)

  /** `contentful.Sidebar`: one sidebar widget; nil settings are `None`. */
  datatype SidebarWidget = SidebarWidget(
    widgetId: string,
    widgetNamespace: string,
    settings: Option<map<string, string>>,
    disabled: bool)

  /** `contentful.EditorInterface`, the companion object of a content type that
      holds its controls and sidebar and has its own system block (nil-able, with
      its own version). The provider overwrites its controls and sidebar in place
      before writing it back. */
  class EditorInterface {
    var sys: Option<Sys>
    var controls: seq<Control>
    var sidebar: seq<SidebarWidget>

    constructor (sys: Option<Sys>, controls: seq<Control>, sidebar: seq<SidebarWidget>)
      ensures this.sys == sys && this.controls == controls && this.sidebar == sidebar
    {
      this.sys := sys;
      this.controls := controls;
      this.sidebar := sidebar;
    }
  }
}
