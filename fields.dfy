/** Fields of a content type (internal/resources/contenttype/model.go): the
    desired field with its array items, default value and editor control, its
    draft to the remote field, its import from one, and the comparison with one. */
module Fields {
  import opened Common
  import opened Validations
  import Remote

  /** `DefaultValue`: per-locale default values, held either as strings or as bools. */
  datatype DefaultValue = DefaultValue(boolMap: Value<map<string, bool>>, stringMap: Value<map<string, string>>)

  /** `Settings` of a field control. */
  datatype Settings = Settings(
    helpText: Value<string>,
    trueLabel: Value<string>,
    falseLabel: Value<string>,
    stars: Value<int>,
    format: Value<string>,
    timeFormat: Value<string>,
    bulkEditing: Value<bool>,
    trackingFieldId: Value<string>)

  /** `Control`: the editor widget of a field. */
  datatype Control = Control(widgetId: Value<string>, widgetNamespace: Value<string>, settings: Option<Settings>)

  /** `Items`: the element type of an array field. */
  datatype Items = Items(itemType: Value<string>, linkType: Value<string>, validations: seq<Validation>)

  /** `Field`: a desired field. */
  datatype Field = Field(
    id: Value<string>,
    name: Value<string>,
    fieldType: Value<string>,
    linkType: Value<string>,
    required: Value<bool>,
    localized: Value<bool>,
    disabled: Value<bool>,
    omitted: Value<bool>,
    validations: seq<Validation>,
    items: Option<Items>,
    control: Option<Control>,
    defaultValue: Option<DefaultValue>)

  // ---------------------------------------------------------------------------
  // Default values

  function KnownOrEmpty<V>(m: Value<map<string, V>>): map<string, V> {
    if m.Known? then m.v else map[]
  }

  /** The map `DefaultValue.Draft` builds: every known string entry, then every
      known bool entry, so a bool entry replaces a string entry for the same locale. */
  function DraftedDefaults(d: DefaultValue): map<string, Remote.Scalar> {
    var strings := KnownOrEmpty(d.stringMap);
    var bools := KnownOrEmpty(d.boolMap);
    map k | k in strings.Keys + bools.Keys ::
      if k in bools then Remote.BoolScalar(bools[k]) else Remote.StringScalar(strings[k])
  }

  /** `DefaultValue.Draft`: inserts the entries of the two maps one at a time. */
  method DraftDefaultValue(d: DefaultValue) returns (r: map<string, Remote.Scalar>)
    ensures r == DraftedDefaults(d)
  {
    r := map[];
    var strings := KnownOrEmpty(d.stringMap);
    if !d.stringMap.Null? && !d.stringMap.Unknown? {
      var todo := strings.Keys;
      while todo != {}
        invariant todo <= strings.Keys
        invariant r == map k | k in strings.Keys - todo :: Remote.StringScalar(strings[k])
        decreases todo
      {
        var k :| k in todo;
        r := r[k := Remote.StringScalar(strings[k])];
        todo := todo - {k};
      }
    }
    assert r == map k | k in strings.Keys :: Remote.StringScalar(strings[k]);
    if !d.boolMap.Null? && !d.boolMap.Unknown? {
      var bools := d.boolMap.v;
      var todo := bools.Keys;
      while todo != {}
        invariant todo <= bools.Keys
        invariant r == map k | k in strings.Keys + (bools.Keys - todo) ::
                         if k in bools.Keys - todo then Remote.BoolScalar(bools[k]) else Remote.StringScalar(strings[k])
        decreases todo
      {
        var k :| k in todo;
        r := r[k := Remote.BoolScalar(bools[k])];
        todo := todo - {k};
      }
    }
  }

  /** Every entry of a remote default-value map is a string. */
  predicate AllStrings(m: map<string, Remote.Scalar>) {
    forall k :: k in m ==> m[k].StringScalar?
  }

  /** Every entry of a remote default-value map is a bool. */
  predicate AllBools(m: map<string, Remote.Scalar>) {
    forall k :: k in m ==> m[k].BoolScalar?
  }

  /** A remote default-value map of one type (nil and empty included). */
  predicate HomogeneousDefaults(m: Option<map<string, Remote.Scalar>>) {
    m.None? || AllStrings(m.value) || AllBools(m.value)
  }

  function StringsOf(m: map<string, Remote.Scalar>): map<string, string>
    requires AllStrings(m)
  {
    map k | k in m :: m[k].s
  }

  function BoolsOf(m: map<string, Remote.Scalar>): map<string, bool>
    requires AllBools(m)
  {
    map k | k in m :: m[k].b
  }

  /** The value types `getTypeOfMap` tells apart. */
  datatype DefaultKind = StringKind | BoolKind

  /** What `getTypeOfMap` concludes from the one entry it looks at. */
  function TypeOfEntry(s: Remote.Scalar): Result<Option<DefaultKind>> {
    match s
    case StringScalar(_) => Ok(Some(StringKind))
    case BoolScalar(_) => Ok(Some(BoolKind))
    case OtherScalar(t) => Err(UnsupportedDefaultType(t))
  }

  /** `getTypeOfMap`: no type for a nil or empty map; otherwise the type of the
      first entry the map iteration visits, which Go leaves unspecified (so any
      entry may decide), and an error naming that entry's type when it is neither
      a string nor a bool. A map of one type gets that type. */
  method GetTypeOfMap(m: Option<map<string, Remote.Scalar>>) returns (r: Result<Option<DefaultKind>>)
    ensures r == Ok(None) <==> m.None? || m.value == map[]
    ensures r != Ok(None) ==> m.Some? && exists k :: k in m.value && r == TypeOfEntry(m.value[k])
    ensures m.Some? && m.value != map[] && AllStrings(m.value) ==> r == Ok(Some(StringKind))
    ensures m.Some? && m.value != map[] && AllBools(m.value) ==> r == Ok(Some(BoolKind))
  {
    if m.Some? && m.value != map[] {
      var k :| k in m.value;
      match m.value[k]
      case StringScalar(_) =>
        return Ok(Some(StringKind));
      case BoolScalar(_) =>
        return Ok(Some(BoolKind));
      case OtherScalar(t) =>
        return Err(UnsupportedDefaultType(t));
    }
    return Ok(None);
  }

  /** The string-map loop of `Field.Import`: converts every entry, and fails (the
      Go type assertion panics) on the first entry that is not a string. */
  method StringDefaults(m: map<string, Remote.Scalar>) returns (r: Result<map<string, string>>)
    ensures r.Ok? <==> AllStrings(m)
    ensures r.Ok? ==> AllStrings(m) && r.value == StringsOf(m)
  {
    var out := map[];
    var todo := m.Keys;
    while todo != {}
      invariant todo <= m.Keys
      invariant forall k :: k in m.Keys - todo ==> m[k].StringScalar?
      invariant out == map k | k in m.Keys - todo :: m[k].s
      decreases todo
    {
      var k :| k in todo;
      if !m[k].StringScalar? {
        return Err(Panic("interface conversion: default value is not a string"));
      }
      out := out[k := m[k].s];
      todo := todo - {k};
    }
    return Ok(out);
  }

  /** The bool-map loop of `Field.Import`, as `StringDefaults` for bools. */
  method BoolDefaults(m: map<string, Remote.Scalar>) returns (r: Result<map<string, bool>>)
    ensures r.Ok? <==> AllBools(m)
    ensures r.Ok? ==> AllBools(m) && r.value == BoolsOf(m)
  {
    var out := map[];
    var todo := m.Keys;
    while todo != {}
      invariant todo <= m.Keys
      invariant forall k :: k in m.Keys - todo ==> m[k].BoolScalar?
      invariant out == map k | k in m.Keys - todo :: m[k].b
      decreases todo
    {
      var k :| k in todo;
      if !m[k].BoolScalar? {
        return Err(Panic("interface conversion: default value is not a bool"));
      }
      out := out[k := m[k].b];
      todo := todo - {k};
    }
    return Ok(out);
  }

  /** The default value a successful import produces: none for a nil or empty map,
      otherwise the map held as strings or as bools. Drafting it gives back the
      remote map. */
  function ImportedDefault(m: Option<map<string, Remote.Scalar>>): (d: Option<DefaultValue>)
    requires HomogeneousDefaults(m)
    ensures d.None? <==> m.None? || m.value == map[]
    ensures d.Some? ==> m.Some? && DraftedDefaults(d.value) == m.value
  {
    if m.None? || m.value == map[] then None
    else if AllStrings(m.value) then
      var d := DefaultValue(Null, Known(StringsOf(m.value)));
      assert DraftedDefaults(d) == m.value;
      Some(d)
    else
      var d := DefaultValue(Known(BoolsOf(m.value)), Null);
      assert DraftedDefaults(d) == m.value;
      Some(d)
  }

  // ---------------------------------------------------------------------------
  // Control settings

  /** `Settings.Draft`: every setting as a pointer. */
  function DraftSettings(s: Settings): Remote.Settings {
    Remote.Settings(
      s.helpText.Pointer(""), s.trueLabel.Pointer(""), s.falseLabel.Pointer(""),
      s.stars.Pointer(0), s.format.Pointer(""), s.timeFormat.Pointer(""),
      s.bulkEditing.Pointer(false), s.trackingFieldId.Pointer(""))
  }

  /** No setting is unknown. */
  predicate NoUnknowns(s: Settings) {
    !s.helpText.Unknown? && !s.trueLabel.Unknown? && !s.falseLabel.Unknown? &&
    !s.stars.Unknown? && !s.format.Unknown? && !s.timeFormat.Unknown? &&
    !s.bulkEditing.Unknown? && !s.trackingFieldId.Unknown?
  }

  /** `Settings.Import`: every pointer as a value, nil as null. Drafting the
      imported settings gives back the remote settings. */
  function ImportSettings(rs: Remote.Settings): (s: Settings)
    ensures DraftSettings(s) == rs
    ensures NoUnknowns(s)
  {
    Settings(
      FromPointer(rs.helpText), FromPointer(rs.trueLabel), FromPointer(rs.falseLabel),
      FromPointer(rs.stars), FromPointer(rs.format), FromPointer(rs.ampm),
      FromPointer(rs.bulkEditing), FromPointer(rs.trackingFieldId))
  }

  /** Importing drafted settings gives back the desired settings exactly when none is unknown. */
  lemma SettingsRoundTrip(s: Settings)
    ensures ImportSettings(DraftSettings(s)) == s <==> NoUnknowns(s)
  {
  }

  // ---------------------------------------------------------------------------
  // Draft

  /** `Items.ToNative`: the type, the drafted rules in order, the link type as a pointer. */
  function ItemsToNative(i: Items): (r: Remote.ArrayItem)
    ensures r.itemType == Str(i.itemType)
    ensures CompareStringPointer(i.linkType, r.linkType)
    ensures ValidationsMatch(i.validations, r.validations)
  {
    var validations := DraftAll(i.validations);
    ValidationsMatchPositional(i.validations, validations);
    Remote.ArrayItem(Str(i.itemType), validations, StrPointer(i.linkType))
  }

  /** `Field.ToNative`: the remote field. The link type is set only when known;
      items only for an array field (an array field without items crashes the Go
      code); the default value only when one is declared. */
  function ToNative(f: Field): (r: Result<Remote.Field>)
    ensures r.Err? <==> Str(f.fieldType) == Remote.FieldTypeArray && f.items.None?
    ensures r.Ok? ==>
              r.value.id == Str(f.id) && r.value.name == Str(f.name) && r.value.fieldType == Str(f.fieldType) &&
              r.value.required == Bool(f.required) && r.value.localized == Bool(f.localized) &&
              r.value.disabled == Bool(f.disabled) && r.value.omitted == Bool(f.omitted)
    ensures r.Ok? ==> r.value.linkType == if f.linkType.Known? then f.linkType.v else ""
    ensures r.Ok? ==> ValidationsMatch(f.validations, r.value.validations)
    ensures r.Ok? ==> (r.value.items.Some? <==> Str(f.fieldType) == Remote.FieldTypeArray)
    ensures r.Ok? && r.value.items.Some? ==> f.items.Some? && r.value.items.value == ItemsToNative(f.items.value)
    ensures r.Ok? ==> (r.value.defaultValue.Some? <==> f.defaultValue.Some?)
    ensures r.Ok? && f.defaultValue.Some? ==> r.value.defaultValue == Some(DraftedDefaults(f.defaultValue.value))
  {
    var validations := DraftAll(f.validations);
    ValidationsMatchPositional(f.validations, validations);
    var isArray := Str(f.fieldType) == Remote.FieldTypeArray;
    if isArray && f.items.None? then
      Err(Panic("nil dereference of Items"))
    else
      Ok(Remote.Field(
        Str(f.id), Str(f.name), Str(f.fieldType),
        if !f.linkType.Null? && !f.linkType.Unknown? then Str(f.linkType) else "",
        Bool(f.localized), Bool(f.required), Bool(f.disabled), Bool(f.omitted),
        validations,
        if isArray then Some(ItemsToNative(f.items.value)) else None,
        if f.defaultValue.Some? then Some(DraftedDefaults(f.defaultValue.value)) else None))
  }

  // ---------------------------------------------------------------------------
  // Drift detection

  /** `Items.Equal`: there are remote items, with the same type and link type and
      positionally matching rules. */
  predicate ItemsEqual(i: Items, n: Option<Remote.ArrayItem>) {
    && n.Some?
    && Str(i.itemType) == n.value.itemType
    && CompareStringPointer(i.linkType, n.value.linkType)
    && ValidationsMatch(i.validations, n.value.validations)
  }

  /** `Field.Equal`: the remote field has the desired scalars, items exactly when
      desired (and then equal ones), positionally matching rules, and, when a
      default is declared, the drafted default map. */
  predicate Equal(f: Field, n: Remote.Field) {
    && n.fieldType == Str(f.fieldType)
    && n.id == Str(f.id)
    && n.name == Str(f.name)
    && n.linkType == Str(f.linkType)
    && n.required == Bool(f.required)
    && n.omitted == Bool(f.omitted)
    && n.disabled == Bool(f.disabled)
    && n.localized == Bool(f.localized)
    && !(f.items.None? && n.items.Some?)
    && (f.items.Some? ==> ItemsEqual(f.items.value, n.items))
    && ValidationsMatch(f.validations, n.validations)
    && (f.defaultValue.Some? ==> n.defaultValue == Some(DraftedDefaults(f.defaultValue.value)))
  }

  /** The cases in which `Field.Equal` reports drift on its own account: remote
      items where none are desired, rule lists of different lengths, and a rule
      that differs from the remote rule at its index. */
  lemma EqualDriftCases(f: Field, n: Remote.Field)
    ensures f.items.None? && n.items.Some? ==> !Equal(f, n)
    ensures |f.validations| != |n.validations| ==> !Equal(f, n)
    ensures Equal(f, n) ==> forall i :: 0 <= i < |f.validations| ==> Draft(f.validations[i]) == n.validations[i]
    ensures (exists i :: 0 <= i < |f.validations| == |n.validations| && Draft(f.validations[i]) != n.validations[i]) ==> !Equal(f, n)
  {
    ValidationsMatchPositional(f.validations, n.validations);
  }

  /** A drafted field compares equal to its desired field exactly when the desired
      field declares items only if it is an array field. */
  lemma ToNativeThenEqual(f: Field)
    requires ToNative(f).Ok?
    ensures Equal(f, ToNative(f).value) <==> (f.items.Some? ==> Str(f.fieldType) == Remote.FieldTypeArray)
  {
  }

  // ---------------------------------------------------------------------------
  // Import

  /** Index `i` holds the first control bound to field `id`. */
  predicate FirstControlFor(controls: seq<Remote.Control>, id: string, i: int) {
    0 <= i < |controls| && controls[i].fieldId == id &&
    forall j :: 0 <= j < i ==> controls[j].fieldId != id
  }

  /** The control `Field.Import` attaches: taken from the first control bound to
      the field, and only when that control names a widget. */
  function ImportedControl(id: string, controls: seq<Remote.Control>): (r: Option<Control>)
    ensures r.Some? <==> exists i :: FirstControlFor(controls, id, i) && controls[i].widgetId.Some?
    ensures forall i :: FirstControlFor(controls, id, i) && r.Some? ==>
              && r.value.widgetId == Known(controls[i].widgetId.value)
              && r.value.widgetNamespace == FromPointer(controls[i].widgetNamespace)
              && (r.value.settings.Some? <==> controls[i].settings.Some?)
              && (r.value.settings.Some? ==> DraftSettings(r.value.settings.value) == controls[i].settings.value)
  {
    var idx := IndexOf(controls, (c: Remote.Control) => c.fieldId == id);
    if idx != -1 && controls[idx].widgetId.Some? then
      var c := controls[idx];
      var settings := if c.settings.Some? then Some(ImportSettings(c.settings.value)) else None;
      Some(Control(FromPointer(c.widgetId), FromPointer(c.widgetNamespace), settings))
    else
      None
  }

  /** Every remote rule of the list converts. */
  predicate AllImport(vs: seq<Remote.FieldValidation>) {
    forall i :: 0 <= i < |vs| ==> GetValidation(vs[i]).Ok?
  }

  /** The rules a successful `getValidations` gives; drafting them gives back a
      list of lossless remote rules. */
  function ImportAll(vs: seq<Remote.FieldValidation>): (r: seq<Validation>)
    requires AllImport(vs)
    ensures (forall i :: 0 <= i < |vs| ==> Lossless(vs[i])) ==> DraftAll(r) == vs
  {
    var r := seq(|vs|, i requires 0 <= i < |vs| => GetValidation(vs[i]).value);
    assert |DraftAll(r)| == |vs|;
    r
  }

  /** The remote fields `Field.Import` accepts: a default map of one type, rules
      that all convert, and, for an array field, items whose rules all convert. */
  predicate Importable(n: Remote.Field) {
    && HomogeneousDefaults(n.defaultValue)
    && AllImport(n.validations)
    && (n.fieldType == Remote.FieldTypeArray ==> n.items.Some? && AllImport(n.items.value.validations))
  }

  /** The field a successful `Field.Import` produces. */
  function Imported(n: Remote.Field, controls: seq<Remote.Control>): Field
    requires Importable(n)
  {
    Field(
      Known(n.id), Known(n.name), Known(n.fieldType), FromOptionalString(n.linkType),
      Known(n.required), Known(n.localized), Known(n.disabled), Known(n.omitted),
      ImportAll(n.validations),
      if n.fieldType == Remote.FieldTypeArray then
        Some(Items(Known(n.items.value.itemType), FromPointer(n.items.value.linkType), ImportAll(n.items.value.validations)))
      else None,
      ImportedControl(n.id, controls),
      ImportedDefault(n.defaultValue))
  }

  /** `Field.Import`: fills a fresh field from the remote field and the editor
      controls, step by step, failing on the first part that does not convert. */
  method Import(n: Remote.Field, controls: seq<Remote.Control>) returns (r: Result<Field>)
    ensures r.Ok? <==> Importable(n)
    ensures r.Ok? ==> Importable(n) && r.value == Imported(n, controls)
  {
    var f := Field(
      Known(n.id), Known(n.name), Known(n.fieldType), FromOptionalString(n.linkType),
      Known(n.required), Known(n.localized), Known(n.disabled), Known(n.omitted),
      [], None, None, None);

    var defaultValueType := GetTypeOfMap(n.defaultValue);
    if defaultValueType.Err? {
      return Err(defaultValueType.error);
    }
    if defaultValueType.value.Some? {
      var dv := DefaultValue(Null, Null);
      match defaultValueType.value.value {
        case StringKind =>
          var strings := StringDefaults(n.defaultValue.value);
          if strings.Err? {
            return Err(strings.error);
          }
          dv := dv.(stringMap := Known(strings.value));
        case BoolKind =>
          var bools := BoolDefaults(n.defaultValue.value);
          if bools.Err? {
            return Err(bools.error);
          }
          dv := dv.(boolMap := Known(bools.value));
      }
      f := f.(defaultValue := Some(dv));
    }
    assert HomogeneousDefaults(n.defaultValue) && f.defaultValue == ImportedDefault(n.defaultValue);

    var validations := GetValidations(n.validations);
    if validations.Err? {
      return Err(validations.error);
    }
    assert AllImport(n.validations);
    assert validations.value == ImportAll(n.validations);
    f := f.(validations := validations.value);

    if n.fieldType == Remote.FieldTypeArray {
      if n.items.None? {
        return Err(Panic("nil dereference of Items"));
      }
      var itemValidations := GetValidations(n.items.value.validations);
      if itemValidations.Err? {
        return Err(itemValidations.error);
      }
      assert AllImport(n.items.value.validations);
      assert itemValidations.value == ImportAll(n.items.value.validations);
      f := f.(items := Some(Items(Known(n.items.value.itemType), FromPointer(n.items.value.linkType), itemValidations.value)));
    }

    f := f.(control := ImportedControl(n.id, controls));
    return Ok(f);
  }

  /** The remote fields whose import loses nothing the comparison looks at. */
  predicate LosslessField(n: Remote.Field) {
    && HomogeneousDefaults(n.defaultValue)
    && (forall i :: 0 <= i < |n.validations| ==> Lossless(n.validations[i]))
    && (n.items.Some? <==> n.fieldType == Remote.FieldTypeArray)
    && (n.items.Some? ==> forall i :: 0 <= i < |n.items.value.validations| ==> Lossless(n.items.value.validations[i]))
  }

  /** Import then compare: an imported field compares equal to the remote field it
      came from, whatever the controls. */
  lemma ImportThenEqual(n: Remote.Field, controls: seq<Remote.Control>)
    requires LosslessField(n)
    ensures Importable(n) && Equal(Imported(n, controls), n)
  {
    assert AllImport(n.validations);
    var f := Imported(n, controls);
    ValidationsMatchPositional(f.validations, n.validations);
    if n.items.Some? {
      var vs := n.items.value.validations;
      assert AllImport(vs);
      ValidationsMatchPositional(f.items.value.validations, vs);
    }
  }
}
