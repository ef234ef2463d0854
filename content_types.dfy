/** The content type resource (internal/resources/contenttype/model.go): the
    desired state as an object the provider fills in place, its draft to the
    remote content type, its import from one, and drift detection against the
    remote content type and its editor interface. */
module ContentTypes {
  import opened Common
  import opened Fields
  import opened Editor
  import Remote

  // ---------------------------------------------------------------------------
  // Comparing the field lists

  /** The first remote field with the given id, or -1. */
  function FieldIndex(ns: seq<Remote.Field>, id: string): (r: int)
    ensures -1 <= r < |ns|
    ensures r == -1 <==> forall i :: 0 <= i < |ns| ==> ns[i].id != id
    ensures 0 <= r ==> ns[r].id == id && forall i :: 0 <= i < r ==> ns[i].id != id
  {
    IndexOf(ns, (n: Remote.Field) => n.id == id)
  }

  /** The desired field at `i` is found by id, equals the remote field found, and
      that remote field sits at index `i`. */
  predicate FieldFound(fs: seq<Field>, ns: seq<Remote.Field>, i: int)
    requires 0 <= i < |fs|
  {
    var idx := FieldIndex(ns, Str(fs[i].id));
    idx != -1 && Fields.Equal(fs[i], ns[idx]) && idx == i
  }

  /** The field part of `ContentType.Equal`: as many remote fields as desired
      ones, and every desired field found by id, equal, and in place. */
  predicate FieldsMatch(fs: seq<Field>, ns: seq<Remote.Field>) {
    |fs| == |ns| && forall i :: 0 <= i < |fs| ==> FieldFound(fs, ns, i)
  }

  /** No two desired fields share an id. */
  predicate DistinctIds(fs: seq<Field>) {
    forall i, j :: 0 <= i < j < |fs| ==> Str(fs[i].id) != Str(fs[j].id)
  }

  /** No two remote fields share an id. */
  predicate DistinctRemoteIds(ns: seq<Remote.Field>) {
    forall i, j :: 0 <= i < j < |ns| ==> ns[i].id != ns[j].id
  }

  /** Only array fields declare items. */
  predicate ItemsOnlyForArrays(fs: seq<Field>) {
    forall i :: 0 <= i < |fs| ==> (fs[i].items.Some? ==> Str(fs[i].fieldType) == Remote.FieldTypeArray)
  }

  /** Searching by id then checking the index amounts to: the same length, and at
      every index the remote field is the first with the desired id and equals
      the desired field. */
  lemma FieldsMatchPositional(fs: seq<Field>, ns: seq<Remote.Field>)
    ensures FieldsMatch(fs, ns) <==>
              |fs| == |ns| &&
              forall i :: 0 <= i < |fs| ==>
                ns[i].id == Str(fs[i].id) && Fields.Equal(fs[i], ns[i]) &&
                forall j :: 0 <= j < i ==> ns[j].id != Str(fs[i].id)
  {
    if |fs| == |ns| {
      forall i | 0 <= i < |fs|
        ensures FieldFound(fs, ns, i) <==>
                  ns[i].id == Str(fs[i].id) && Fields.Equal(fs[i], ns[i]) &&
                  forall j :: 0 <= j < i ==> ns[j].id != Str(fs[i].id)
      {
        var idx := FieldIndex(ns, Str(fs[i].id));
        if ns[i].id == Str(fs[i].id) && forall j :: 0 <= j < i ==> ns[j].id != Str(fs[i].id) {
          assert idx == i;
        }
      }
    }
  }

  /** A field that is unchanged but has moved is drift: swapping two matching
      remote fields breaks the match although every desired field still equals
      the remote field that now carries its id. */
  lemma MovedFieldDrifts(fs: seq<Field>, ns: seq<Remote.Field>, i: int, j: int)
    requires FieldsMatch(fs, ns)
    requires 0 <= i < j < |ns|
    ensures var moved := ns[i := ns[j]][j := ns[i]];
            Fields.Equal(fs[i], moved[j]) && Fields.Equal(fs[j], moved[i]) && !FieldsMatch(fs, moved)
  {
    FieldsMatchPositional(fs, ns);
    var moved := ns[i := ns[j]][j := ns[i]];
    assert moved[i].id == Str(fs[j].id);
    assert !FieldFound(fs, moved, j);
  }

  /** Draft then compare, for the field lists: drafted fields match the desired
      ones exactly when the desired ids are distinct and only array fields declare
      items. */
  lemma DraftedFieldsMatch(fs: seq<Field>, ns: seq<Remote.Field>)
    requires |fs| == |ns|
    requires forall i :: 0 <= i < |fs| ==> ToNative(fs[i]) == Ok(ns[i])
    ensures FieldsMatch(fs, ns) <==> DistinctIds(fs) && ItemsOnlyForArrays(fs)
  {
    FieldsMatchPositional(fs, ns);
    forall i | 0 <= i < |fs|
      ensures Fields.Equal(fs[i], ns[i]) <==> (fs[i].items.Some? ==> Str(fs[i].fieldType) == Remote.FieldTypeArray)
    {
      ToNativeThenEqual(fs[i]);
    }
    if FieldsMatch(fs, ns) {
      forall i, j | 0 <= i < j < |fs|
        ensures Str(fs[i].id) != Str(fs[j].id)
      {
        assert ns[i].id == Str(fs[i].id);
      }
    }
  }

  /** Every remote field converts. */
  predicate AllImportable(ns: seq<Remote.Field>) {
    forall i :: 0 <= i < |ns| ==> Importable(ns[i])
  }

  /** The fields a successful `ContentType.Import` holds: one imported field per
      remote field, in order, with that field's id and type, items exactly for an
      array field, and the control found for its id in the one control list. */
  function ImportedFields(ns: seq<Remote.Field>, controls: seq<Remote.Control>): (r: seq<Field>)
    requires AllImportable(ns)
    ensures |r| == |ns|
    ensures forall i :: 0 <= i < |ns| ==>
              r[i].id == Known(ns[i].id) && r[i].fieldType == Known(ns[i].fieldType) &&
              (r[i].items.Some? <==> ns[i].fieldType == Remote.FieldTypeArray)
    ensures forall i :: 0 <= i < |ns| ==> r[i].control == ImportedControl(ns[i].id, controls)
  {
    seq(|ns|, i requires 0 <= i < |ns| => Imported(ns[i], controls))
  }

  /** Import then compare, for the field lists: the imported fields match the
      remote ones when the remote ids are distinct and no import loses anything. */
  lemma ImportedFieldsMatch(ns: seq<Remote.Field>, controls: seq<Remote.Control>)
    requires forall i :: 0 <= i < |ns| ==> LosslessField(ns[i])
    requires DistinctRemoteIds(ns)
    ensures AllImportable(ns) && FieldsMatch(ImportedFields(ns, controls), ns)
  {
    forall i | 0 <= i < |ns|
      ensures Importable(ns[i]) && Fields.Equal(Imported(ns[i], controls), ns[i])
    {
      ImportThenEqual(ns[i], controls);
    }
    FieldsMatchPositional(ImportedFields(ns, controls), ns);
  }

  /** The field loop of `ContentType.Import`: imports the remote fields one by
      one against the same controls and stops at the first that fails. */
  method ImportFields(ns: seq<Remote.Field>, controls: seq<Remote.Control>) returns (r: Result<seq<Field>>)
    ensures r.Ok? <==> AllImportable(ns)
    ensures r.Ok? ==> AllImportable(ns) && r.value == ImportedFields(ns, controls)
  {
    var fields: seq<Field> := [];
    var i := 0;
    while i < |ns|
      invariant 0 <= i <= |ns|
      invariant |fields| == i
      invariant forall j :: 0 <= j < i ==> Importable(ns[j]) && fields[j] == Imported(ns[j], controls)
    {
      var field := Fields.Import(ns[i], controls);
      if field.Err? {
        return Err(field.error);
      }
      fields := fields + [field.value];
      i := i + 1;
    }
    return Ok(fields);
  }

  /** The controls of an editor interface, none when there is none. */
  function ControlsOf(e: Remote.EditorInterface?): seq<Remote.Control>
    reads e
  {
    if e == null then [] else e.controls
  }

  /** The sidebar of an editor interface, none when there is none. */
  function SidebarOf(e: Remote.EditorInterface?): seq<Remote.SidebarWidget>
    reads e
  {
    if e == null then [] else e.sidebar
  }

  // ---------------------------------------------------------------------------
  // The resource

  /** `ContentType`: the desired state of one content type and its editor interface. */
  class ContentType {
    var id: Value<string>
    var spaceId: Value<string>
    var environment: Value<string>
    var name: Value<string>
    var displayField: Value<string>
    var description: Value<string>
    var version: Value<int>
    var versionControls: Value<int>
    var fields: seq<Field>
    var manageFieldControls: Value<bool>
    var sidebar: seq<Sidebar>

    /** The zero value `&ContentType{}`: every attribute null, no fields, no sidebar. */
    constructor ()
      ensures id.Null? && spaceId.Null? && environment.Null? && name.Null? && displayField.Null?
      ensures description.Null? && version.Null? && versionControls.Null? && manageFieldControls.Null?
      ensures fields == [] && sidebar == []
    {
      id := Null;
      spaceId := Null;
      environment := Null;
      name := Null;
      displayField := Null;
      description := Null;
      version := Null;
      versionControls := Null;
      fields := [];
      manageFieldControls := Null;
      sidebar := [];
    }

    /** `d` is the remote content type drafted from this one: the system block
        always carries the id (and no version), name and display field are copied,
        the description is set only when known, and the fields are the drafted
        fields in declared order. */
    predicate IsDraft(d: Remote.ContentType)
      reads this
    {
      && d.sys == Some(Remote.Sys(Str(id), 0))
      && d.name == Str(name)
      && d.displayField == Str(displayField)
      && d.description == (if description.Known? then Some(description.v) else None)
      && |d.fields| == |fields|
      && forall i :: 0 <= i < |fields| ==> ToNative(fields[i]) == Ok(d.fields[i])
    }

    /** `ContentType.Draft`: drafts the fields one by one and stops at the first
        that fails, returning its error and no content type. */
    method Draft() returns (r: Result<Remote.ContentType>)
      ensures r.Ok? <==> forall i :: 0 <= i < |fields| ==> ToNative(fields[i]).Ok?
      ensures r.Ok? ==> IsDraft(r.value)
      ensures r.Err? ==> exists i :: 0 <= i < |fields| && ToNative(fields[i]) == Err(r.error) &&
                                     forall j :: 0 <= j < i ==> ToNative(fields[j]).Ok?
    {
      var natives: seq<Remote.Field> := [];
      var i := 0;
      while i < |fields|
        invariant 0 <= i <= |fields|
        invariant |natives| == i
        invariant forall j :: 0 <= j < i ==> ToNative(fields[j]) == Ok(natives[j])
      {
        var nativeField := ToNative(fields[i]);
        if nativeField.Err? {
          return Err(nativeField.error);
        }
        natives := natives + [nativeField.value];
        i := i + 1;
      }
      var contentfulType := Remote.ContentType(None, Str(name), Str(displayField), None, natives);
      if !id.Unknown? || !id.Null? {
        contentfulType := contentfulType.(sys := Some(Remote.Sys(Str(id), 0)));
      }
      if !description.Null? && !description.Unknown? {
        contentfulType := contentfulType.(description := description.Pointer(""));
      }
      return Ok(contentfulType);
    }

    /** `ContentType.Equal`: the remote content type has the desired description,
        name and display field, and matching fields. */
    predicate Equal(n: Remote.ContentType)
      reads this
    {
      && CompareStringPointer(description, n.description)
      && Str(name) == n.name
      && Str(displayField) == n.displayField
      && FieldsMatch(fields, n.fields)
    }

    /** `ContentType.Import`: fills this object from the remote content type and
        its editor interface (nil when there is none). The scalar attributes are
        set first; the fields and the sidebar only once every field has imported,
        so a failing field leaves the old fields and sidebar in place. A missing
        system block of the content type crashes the Go code before anything is
        set; a missing one of the editor interface crashes it after the scalars
        are set and the controls version is reset to 0. */
    method Import(n: Remote.ContentType, e: Remote.EditorInterface?) returns (r: Outcome)
      modifies this
      ensures n.sys.None? ==> r.Fail? && unchanged(this)
      ensures n.sys.Some? ==>
                && id == Known(n.sys.value.id) && version == Known(n.sys.value.version)
                && description == FromPointer(n.description)
                && name == Known(n.name) && displayField == Known(n.displayField)
                && versionControls == Known(if e == null || e.sys.None? then 0 else e.sys.value.version)
      ensures n.sys.Some? && e != null && e.sys.None? ==> r.Fail? && r.error.Panic?
      ensures r.Pass? <==> n.sys.Some? && (e != null ==> e.sys.Some?) && AllImportable(n.fields)
      ensures r.Pass? ==> AllImportable(n.fields) &&
                          fields == ImportedFields(n.fields, ControlsOf(e)) &&
                          sidebar == ImportedSidebars(SidebarOf(e))
      ensures r.Fail? ==> fields == old(fields) && sidebar == old(sidebar)
      ensures spaceId == old(spaceId) && environment == old(environment) && manageFieldControls == old(manageFieldControls)
    {
      if n.sys.None? {
        return Fail(Panic("nil dereference of Sys"));
      }
      id := Known(n.sys.value.id);
      version := Known(n.sys.value.version);
      description := FromPointer(n.description);
      name := Known(n.name);
      displayField := Known(n.displayField);

      var controls: seq<Remote.Control> := [];
      var widgets: seq<Remote.SidebarWidget> := [];
      versionControls := Known(0);
      if e != null {
        controls := e.controls;
        widgets := e.sidebar;
        if e.sys.None? {
          return Fail(Panic("nil dereference of the editor interface's Sys"));
        }
        versionControls := Known(e.sys.value.version);
      }

      var imported := ImportFields(n.fields, controls);
      if imported.Err? {
        return Fail(imported.error);
      }
      sidebar := ImportedSidebars(widgets);
      fields := imported.value;
      return Pass;
    }

    /** `ContentType.EqualEditorInterface`: the editor interface has the desired
        controls and the desired sidebar. */
    predicate EqualEditorInterface(e: Remote.EditorInterface)
      reads this, e
    {
      ControlsMatch(fields, e.controls) && SidebarMatches(sidebar, e.sidebar)
    }

    /** `ContentType.DraftEditorInterface`: overwrites the controls and the sidebar
        of the editor interface with one control per field and one widget per
        declared widget, in declared order, and leaves its system block alone.
        An enabled widget is given its decoded settings (the corrected draft; the
        draft as written is `DraftSidebarAsWritten`), a disabled one none. */
    method DraftEditorInterface(e: Remote.EditorInterface)
      modifies e
      ensures e.sys == old(e.sys)
      ensures e.controls == DraftedControls(fields)
      ensures e.sidebar == DraftedSidebars(sidebar)
      ensures forall i :: 0 <= i < |sidebar| ==>
                e.sidebar[i].settings == if Bool(sidebar[i].disabled) then None else Some(Decode(sidebar[i].settings))
    {
      e.controls := DraftedControls(fields);
      e.sidebar := DraftedSidebars(sidebar);
    }
  }

  // ---------------------------------------------------------------------------
  // Round trips of the resource

  /** Draft then compare: a drafted content type compares equal to the desired one
      exactly when its description is not unknown, its field ids are distinct and
      only its array fields declare items. */
  lemma DraftThenEqual(c: ContentType, d: Remote.ContentType)
    requires c.IsDraft(d)
    ensures c.Equal(d) <==> !c.description.Unknown? && DistinctIds(c.fields) && ItemsOnlyForArrays(c.fields)
  {
    DraftedFieldsMatch(c.fields, d.fields);
  }

  /** Import then compare: after an import that loses nothing, the object compares
      equal to the remote content type it came from. */
  lemma ImportThenEqualContentType(c: ContentType, n: Remote.ContentType, controls: seq<Remote.Control>)
    requires forall i :: 0 <= i < |n.fields| ==> LosslessField(n.fields[i])
    requires DistinctRemoteIds(n.fields)
    requires c.description == FromPointer(n.description) && c.name == Known(n.name) && c.displayField == Known(n.displayField)
    requires AllImportable(n.fields) && c.fields == ImportedFields(n.fields, controls)
    ensures c.Equal(n)
  {
    ImportedFieldsMatch(n.fields, controls);
  }

  /** Draft the editor interface then compare: it matches when every control names
      a widget and a namespace, fields with controls have distinct ids, and the
      declared widgets have distinct ids. */
  lemma DraftThenEqualEditorInterface(c: ContentType, e: Remote.EditorInterface)
    requires e.controls == DraftedControls(c.fields) && e.sidebar == DraftedSidebars(c.sidebar)
    requires ControlsDraftable(c.fields) && DistinctWidgetIds(c.sidebar)
    ensures c.EqualEditorInterface(e)
  {
    DraftedControlsMatch(c.fields);
    DraftedSidebarMatches(c.sidebar);
  }
}
