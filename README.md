# Contentful content-type reconciliation, modelled in Dafny

This project models the reconciliation core of the Terraform provider for
Contentful. It covers four things:

- the mapping between the Terraform desired state of a content type and the shapes of the Contentful API (content type, field, validation rule, editor interface);
- drift detection, which decides whether the remote content type and editor interface already match the desired state;
- drafting the editor interface;
- the error translator that turns Contentful errors into Terraform diagnostics.

The project has these modules:

- `Common` (common.dfy) holds what the rest needs. A Terraform value is null, unknown or known. A Go pointer is an `Option`. A Go `(value, error)` pair is a `Result`. The first-index search and the filter come from the `pie` library.
- `Remote` (remote.dfy) holds the Contentful shapes. The editor interface is a class, because the provider overwrites its controls and sidebar in place.
- `Validations` (validations.dfy) covers drafting a desired validation rule into one remote variant, in a fixed priority order. It also covers importing a remote variant back, and comparing rule lists position by position.
- `Fields` (fields.dfy) holds the field with its items, control settings and locale-keyed default values. It covers `ToNative`, `Import`, `Equal` and the default-value type inference.
- `Editor` (editor.dfy) covers the sidebar widgets and drafting controls and widgets. It also covers comparing controls by field id, and comparing widgets by id and position.
- `ContentTypes` (content_types.dfy) holds the resource itself. It is a class whose `Import` fills its attributes in place. It also has `Draft`, `Equal`, `EqualEditorInterface` and `DraftEditorInterface`.
- `Diagnostics` (diagnostics.dfy) holds `parseError`. Its source is not part of this model. It is specified by its five unit tests: one warning per error detail, then one error with the message.

The Go code crashes in a few places: a nil dereference, a failed type
assertion, or asking for the type name of a nil interface. In
`Result`-returning operations these crashes are modelled as
`Err(Panic(..))`.

Two helpers from `internal/utils` are not part of this model, so the
model assumes their behaviour:

- `utils.FromOptionalString` makes the empty string null.
- `utils.CompareStringPointer(v, p)` holds when `v.ValueStringPointer()` equals `p` (both nil, or both pointing to equal strings).

## Model

| member | source | states |
|---|---|---|
| Validations.Draft | internal/resources/contenttype/model.go:99-189 | Never an unknown variant. Nil only when nothing is populated. Otherwise the variant of a populated kind, with no kind earlier in the fixed order populated. A known `unique` flag, false included, always gives the unique variant. |
| Validations.DraftPicksFirstPopulated | internal/resources/contenttype/model.go:99-189 | When kind k is populated and no earlier kind is, the draft has kind k, whatever later kinds hold. |
| Validations.GetValidation | internal/resources/contenttype/model.go:769-866 | Fails exactly for nil, for unknown variants, and for a size, range, file-size or regex variant whose bounds or regex pointer is nil. Nil and the nil pointers crash (`Panic`); an unknown variant fails with an error naming its type. A success populates only the variant's own kind. Drafting a lossless import gives back the remote variant. |
| Validations.SizeMessageIsLost | internal/resources/contenttype/model.go:797-805 | Importing a size rule drops its error message, so the round trip fails for a size rule that carries one. |
| Validations.GetValidations | internal/resources/contenttype/model.go:752-767 | Succeeds exactly when every variant converts, and then gives one rule per variant in order. When it fails, the error is that of the first failing variant and no list is returned. |
| Validations.ValidationsMatchPositional | internal/resources/contenttype/model.go:242-255 | The rule comparison holds exactly when the lengths agree and each drafted rule equals the remote rule at the same index. |
| Validations.KnownTexts | internal/resources/contenttype/model.go:774-776 | Every imported text is known, and reading the values back gives the remote texts. |
| Validations.DraftAll | internal/resources/contenttype/model.go:246-248 | The drafted rules of a list always pass the positional rule comparison against the rules they came from. |
| Validations.ValidationsMatch | internal/resources/contenttype/model.go:242-255 | The rule comparison of a field or its items: the lengths agree, and each desired rule, drafted, is deeply equal to the remote rule at the same index. |
| Validations.ReorderedRulesDrift | internal/resources/contenttype/model.go:246-255 | Swapping two different remote rules in a matching list makes the rule comparison fail. |
| Fields.DraftDefaultValue | internal/resources/contenttype/model.go:59-77 | Inserts the entries one at a time. The result holds every known string entry and every known bool entry. On a locale that has both, the bool entry wins. |
| Fields.GetTypeOfMap | internal/resources/contenttype/model.go:300-315 | No type and no error exactly for a nil or empty map. Otherwise the outcome is decided by some single entry: string, bool, or an error naming the other type. A map of one type gets that type. |
| Fields.StringDefaults | internal/resources/contenttype/model.go:341-348 | Succeeds exactly when every entry is a string, and then gives all of them. |
| Fields.BoolDefaults | internal/resources/contenttype/model.go:349-356 | Succeeds exactly when every entry is a bool, and then gives all of them. |
| Fields.ImportedDefault | internal/resources/contenttype/model.go:327-359 | No default for a nil or empty map. Otherwise drafting the imported default gives back the remote map. |
| Fields.ImportSettings | internal/resources/contenttype/model.go:419-428 | Every imported setting is known or null. Drafting the imported settings gives back the remote settings. |
| Fields.DraftSettings | internal/resources/contenttype/model.go:430-442 | Every control setting becomes a pointer: nil for a null setting, a pointer to the zero value for an unknown one, a pointer to the value for a known one. |
| Fields.SettingsRoundTrip | internal/resources/contenttype/model.go:430-442 | Importing drafted settings gives back the desired settings exactly when no setting is unknown. |
| Fields.ItemsToNative | internal/resources/contenttype/model.go:450-459 | The drafted items have the desired type, a link type that compares equal, and rules that match position by position. |
| Fields.ToNative | internal/resources/contenttype/model.go:264-298 | Fails exactly for an array field without items. The link type is copied only when known. Items are set exactly for array fields and are the drafted items. The default is set exactly when one is declared, as the drafted map. Scalars and rules are copied. |
| Fields.ItemsEqual | internal/resources/contenttype/model.go:461-491 | Holds when remote items exist, have the desired item type and a link type that compares equal as a pointer, and their rules match the desired rules position by position. |
| Fields.Equal | internal/resources/contenttype/model.go:200-262 | Holds when the remote field has the desired type, id, name, link type and required, omitted, disabled and localized flags; has items only when items are desired, and then equal ones; has rules matching position by position; and, when a default is declared, has exactly the drafted default map. |
| Fields.EqualDriftCases | internal/resources/contenttype/model.go:234-255 | Unequal when the desired field has no items but the remote field has some. Unequal when the rule lists differ in length. Unequal when some drafted rule differs from the remote rule at its index. |
| Fields.ToNativeThenEqual | internal/resources/contenttype/model.go:200-262 | A drafted field equals its desired field exactly when the desired field declares items only if it is an array field. |
| Fields.ImportedControl | internal/resources/contenttype/model.go:384-403 | A control is attached exactly when the first remote control bound to the field names a widget. It then carries that widget, namespace and settings. |
| Fields.Import | internal/resources/contenttype/model.go:317-406 | Succeeds exactly when the default map has one type, every rule converts, and an array field has items whose rules convert. The result is then the imported field. |
| Fields.ImportAll | internal/resources/contenttype/model.go:752-767 | Drafting the rules that a successful import gives returns the remote rules when every remote rule is lossless. |
| Fields.ImportThenEqual | internal/resources/contenttype/model.go:200-262 | An imported field equals the remote field it came from when the default map has one type, the rules are lossless, and items are present exactly for array fields. |
| Editor.Decode | internal/resources/contenttype/model.go:741-745 | `Unmarshal` as intended: a known settings object gives its entries; a null, unknown or unreadable settings text leaves the empty map. |
| Editor.Encode | internal/resources/contenttype/model.go:566-568 | Decoding the encoded settings gives the map back. |
| Editor.ImportSidebar | internal/resources/contenttype/model.go:562-576 | Ids, namespace and flag become known. Nil settings become `"{}"`. The settings decode to the remote map, or to the empty map when it is nil. Drafting the imported widget gives it back exactly when it has settings if and only if it is enabled. |
| Editor.ImportedSidebars | internal/resources/contenttype/model.go:562-576 | One imported widget per remote widget, in order, with known widget id, namespace and flag, and settings that decode to the remote map, or to the empty map when the remote widget has none. |
| Editor.ImportedSidebarsRoundTrip | internal/resources/contenttype/model.go:562-576 | Drafting the imported sidebar gives the remote sidebar back exactly when every remote widget has settings if and only if it is enabled. |
| Editor.DraftControl | internal/resources/contenttype/model.go:714-731 | The control is bound to the field's id. Without a desired control it carries nothing. With one, it names a widget unless the widget id is null, and carries settings exactly when desired. |
| Editor.DraftedControls | internal/resources/contenttype/model.go:714-731 | One control per field, in field order, bound to that field's id. A control carries a widget id, namespace or settings only for a field that declares a control, and always does when that control's widget id is not null. |
| Editor.DraftSidebar | internal/resources/contenttype/model.go:733-749 | Ids, namespace and flag are copied. Settings are nil exactly when disabled. An enabled widget carries its decoded settings. |
| Editor.DraftedSidebars | internal/resources/contenttype/model.go:733-749 | One widget per declared widget, in order, with the declared id, namespace and flag. Its settings are the ones the sidebar comparison expects: none when disabled, else the decoded settings. |
| Editor.DraftedSidebarsAsWritten | internal/resources/contenttype/model.go:733-749 | As written, one widget per declared widget: settings are nil exactly when disabled, and every enabled widget is sent with an empty settings map. |
| Editor.DraftSidebarAsWritten | internal/resources/contenttype/model.go:733-749 | The widget mapping as written: ids, namespace and flag copied; a disabled widget gets nil settings, and an enabled one the empty map that `Unmarshal` leaves in a map passed by value. |
| Editor.SettingsDroppedAsWritten | internal/resources/contenttype/model.go:741-745 | As written, an enabled widget with settings `{"mode": "strict"}` is drafted with empty settings. The corrected draft keeps them. |
| Editor.DraftedControlFound | internal/resources/contenttype/model.go:642-650 | For a field with a control, the first kept drafted control bound to its id agrees with that control, and is that field's own drafted control. |
| Editor.ControlsMatch | internal/resources/contenttype/model.go:626-667 | The control part of the editor comparison: as many controls as fields, as many controls with a widget id, namespace or settings as fields with a control, and every field with a control finds a first such control bound to its id. That control has the desired widget id and namespace, and has settings exactly when desired, equal to the drafted settings. |
| Editor.DraftedControlsMatch | internal/resources/contenttype/model.go:626-667 | Controls drafted from fields whose controls name a widget and a namespace, with distinct ids among fields that have controls, pass the control comparison. |
| Editor.DraftedControlImports | internal/resources/contenttype/model.go:384-403 | Importing from drafted controls gives back a field's control when the field is the first with its id, its widget id is known, and nothing in it is unknown. |
| Editor.SidebarMatchesAsWritten | internal/resources/contenttype/model.go:669-708 | The sidebar part of the editor comparison as written: as many widgets as declared, and each declared widget is the first remote widget with its id, sits at its own index, has the declared flag, id and namespace, and has settings equal to the empty map `Unmarshal` leaves. |
| Editor.SidebarMatches | internal/resources/contenttype/model.go:669-708 | The same checks, with the settings compared as the corrected draft writes them: none for a disabled widget, else the decoded settings. |
| Editor.DisabledWidgetAlwaysDrifts | internal/resources/contenttype/model.go:669-708 | As written, a sidebar that declares a disabled widget never matches its own draft. |
| Editor.DraftedSidebarMatches | internal/resources/contenttype/model.go:669-708 | With settings compared as the draft produces them, the drafted sidebar matches exactly when the declared widget ids are distinct. |
| Editor.MovedWidgetDrifts | internal/resources/contenttype/model.go:673-685 | Swapping two widgets of a matching sidebar breaks the match. |
| ContentTypes.FieldsMatchPositional | internal/resources/contenttype/model.go:598-619 | Matching by id and then checking the position amounts to this: the lengths agree, and at every index the remote field is the first with the desired id and equals the desired field. |
| ContentTypes.MovedFieldDrifts | internal/resources/contenttype/model.go:598-619 | Swapping two fields of a matching list breaks the match, although each desired field still equals the remote field that carries its id. |
| ContentTypes.DraftedFieldsMatch | internal/resources/contenttype/model.go:598-619 | Drafted fields match the desired ones exactly when the desired ids are distinct and only array fields declare items. |
| ContentTypes.ImportFields | internal/resources/contenttype/model.go:552-559 | Succeeds exactly when every remote field imports, and then gives the imported fields in order, all against the same controls. |
| ContentTypes.ImportedFields | internal/resources/contenttype/model.go:552-559 | One imported field per remote field, in order, with that field's id and type, items exactly for an array field, and the control found for its id in the one control list. |
| ContentTypes.ImportedFieldsMatch | internal/resources/contenttype/model.go:598-619 | Lossless remote fields with distinct ids all import, and the imported fields match them. |
| ContentTypes.ContentType.constructor | internal/resources/contenttype/model.go:18-30 | The zero value: every attribute null, no fields, no sidebar. |
| ContentTypes.ContentType.Draft | internal/resources/contenttype/model.go:493-531 | Succeeds exactly when every field drafts. On success: the fields are drafted in declared order, the system block always carries the id, and the description is set only when known. On failure: the first failing field's error, and no content type. |
| ContentTypes.ContentType.Import | internal/resources/contenttype/model.go:533-582 | A missing system block fails with nothing changed. Otherwise id, version, description, name and display field come from the remote content type. The controls version is 0 without an editor interface, else its version. An editor interface without a system block crashes after the scalars are set, with the controls version at 0. Success exactly when the system blocks are present and every field imports. Fields are imported against the editor's controls, or against none without an editor. The sidebar is imported. A failure leaves fields and sidebar untouched. |
| ContentTypes.ContentType.Equal | internal/resources/contenttype/model.go:584-622 | Holds when the description compares equal as a pointer, the name and display field are equal, and the fields match: as many remote fields as desired, each desired field found by id, equal, and at its own index. |
| ContentTypes.ContentType.EqualEditorInterface | internal/resources/contenttype/model.go:624-711 | Holds when the controls match the fields and the sidebar matches the declared widgets, with sidebar settings compared by the corrected rule. |
| ContentTypes.ContentType.DraftEditorInterface | internal/resources/contenttype/model.go:713-750 | Overwrites the controls with one per field and the sidebar with one widget per declared widget, in order. An enabled widget gets its decoded settings and a disabled one none. The system block is unchanged. |
| ContentTypes.DraftThenEqual | internal/resources/contenttype/model.go:584-622 | A drafted content type equals the desired one exactly when the description is not unknown, the field ids are distinct, and only array fields declare items. |
| ContentTypes.ImportThenEqualContentType | internal/resources/contenttype/model.go:584-622 | After an import of lossless fields with distinct ids, the object equals the remote content type. |
| ContentTypes.DraftThenEqualEditorInterface | internal/resources/contenttype/model.go:624-711 | A drafted editor interface passes the editor comparison when every control names a widget and a namespace, fields with controls have distinct ids, and widget ids are distinct. |
| Diagnostics.JoinAppend | contentful/errors_test.go:58-66 | Joining one more part appends the separator and that part. |
| Diagnostics.Warnings | contentful/errors_test.go:33-70 | One warning per detail, in order, each reading `<detail> (<dot-joined path>)`. |
| Diagnostics.ParseError | contentful/errors_test.go:12-70 | Empty exactly for no error, and has an error otherwise. An opaque error gives exactly one error carrying its message. A response gives one warning per detail in order, then an error with the message. Every diagnostic but the last is a warning. |
| Diagnostics.ParseNilError | contentful/errors_test.go:12-15 | No error gives no diagnostics. |
| Diagnostics.ParseRegularError | contentful/errors_test.go:17-21 | An opaque error gives an error whose summary is its message. |
| Diagnostics.ParseErrorWithoutWarning | contentful/errors_test.go:23-31 | A response without details gives exactly one error with the message. |
| Diagnostics.ParseErrorWithWarningWithoutPath | contentful/errors_test.go:33-50 | One detail without a path gives the warning `error detail ()`, then the error. |
| Diagnostics.ParseErrorWithWarningWithPath | contentful/errors_test.go:52-70 | One detail with path `path`, `to`, `error` gives the warning `error detail (path.to.error)`, then the error. |
| Diagnostics.ParseErrorWithTwoDetails | contentful/errors_test.go:33-70 | Two details give two warnings, in detail order, then the error. |

## Left out

- `internal/provider/provider.go` is not part of this model. It reads configuration and environment variables and builds the HTTP client.
- `internal/resources/app_definition/resource_test.go` is not part of this model. It is an acceptance test against the live API.
- The Contentful calls, the Terraform plan and state, and all I/O are outside the model. So is the source of `parseError`, which is specified by its tests alone.
- Floating-point bounds of size, range and file-size rules are integers here. Only their presence and equality matter.
- 64-bit integer widths of versions and of the `stars` setting are not modelled. The values are unbounded integers.
- JSON encoding of sidebar settings is abstracted. A settings text is either an object of string values or unreadable text. `Encode` and `Decode` form the pair. An object with non-string values cannot be represented, so the `encoding/json` behaviour for it (string entries kept, an `UnmarshalTypeError` reported) is not modelled. Unreadable text decodes to the empty map, because the decoding error is ignored.
- `reflect.DeepEqual` is structural equality of Dafny values. A nil map and an empty map are told apart (`None` versus `Some(map[])`), as Go does.
- Editor.ControlAgrees: the Go code dereferences the remote widget id and namespace pointers. When a kept control lacks one of them the provider crashes. The model treats this case as "not equal", which keeps the comparison total.
- Fields.Import, Fields.ImportSettings: these return the new value instead of filling a receiver. The source always calls them on a fresh zero value and then copies the value, so a partly filled field is never observed.
- ContentTypes.ContentType.Import: the error of a failing field is not pinned down. The contract states only that the import fails and what stays unchanged.
- ContentTypes.ContentType.Draft: the `Sys` block is set whenever `!ID.IsUnknown() || !ID.IsNull()` holds. That condition is always true, so the model always sets it, with version 0.
- Nil elements of a remote field list (`[]*model.Field`) are not modelled: a remote field is a value, so the crash the field loops of `ContentType.Import` and `ContentType.Equal` would hit on a nil element is not captured. The pointers inside validation variants are modelled, and a nil one crashes `Validations.GetValidation`.
- Elements of a default-value map that are themselves null are not modelled. Known maps hold plain strings or bools.
- `In` values are modelled as strings, so the failed type assertion on a non-string `In` value is not modelled. The same holds for non-string error-path segments, such as array indices in a Contentful error path.
- ContentTypes.ContentType.EqualEditorInterface, Editor.SidebarMatches: the editor-interface comparison uses the corrected sidebar settings rule from "Findings". The as-written rule is kept beside it as `Editor.SidebarMatchesAsWritten`.
- Editor.DraftSidebar, Editor.DraftedSidebars, ContentTypes.ContentType.DraftEditorInterface: these draft the intended decode, so an enabled widget carries its decoded settings. As written, every enabled widget is sent with an empty map, because `Unmarshal` is handed the map by value; that draft is `Editor.DraftSidebarAsWritten`.

## Findings

| source | as written | input that shows it | evidently intended | confidence | as-written member | corrected member |
|---|---|---|---|---|---|---|
| internal/resources/contenttype/model.go:703, 744 | `s.Settings.Unmarshal(a)` passes the map by value. The JSON decoder refuses a non-pointer target, so the map stays empty and the error is ignored. | An enabled widget with settings `{"mode": "strict"}` is drafted with empty settings and compared against empty settings. | Decode the settings text into the map. | high for `json.Unmarshal` semantics; not executed | Editor.SettingsDroppedAsWritten | Editor.DraftSidebar |
| internal/resources/contenttype/model.go:701-706 | A disabled widget is drafted with nil settings. The comparison requires the remote settings to equal a freshly made, non-nil map. | Any sidebar that declares a disabled widget compared against its own draft. | A disabled widget's nil settings match. | medium; not executed | Editor.DisabledWidgetAlwaysDrifts | Editor.DraftedSidebarMatches |
