/** The editor interface of a content type (internal/resources/contenttype/model.go):
    the sidebar widgets, drafting the desired controls and sidebar into the remote
    editor interface, and comparing the two. */
module Editor {
  import opened Common
  import opened Fields
  import Remote

  /** A `jsontypes.Normalized` settings text, abstracted: a JSON object whose values
      are strings, or text that does not decode into one. */
  datatype Json = JsonObject(entries: map<string, string>) | JsonUnreadable(text: string)

  /** The settings text `"{}"`. */
  const EmptyObject: Json := JsonObject(map[])

  /** Decoding a settings text into a string map, as `Unmarshal` is meant to: a
      null, unknown or unreadable text leaves the target map empty. */
  function Decode(j: Value<Json>): map<string, string> {
    if j.Known? && j.v.JsonObject? then j.v.entries else map[]
  }

  /** `json.Marshal` of a settings map; decoding gives the map back. */
  function Encode(m: map<string, string>): (j: Json)
    ensures Decode(Known(j)) == m
  {
    JsonObject(m)
  }

  /** `Sidebar`: a desired sidebar widget. */
  datatype Sidebar = Sidebar(
    widgetId: Value<string>,
    widgetNamespace: Value<string>,
    settings: Value<Json>,
    disabled: Value<bool>)

  /** The sidebar mapping inside `ContentType.Import`: nil settings become `"{}"`.
      Drafting the imported widget gives the remote widget back exactly when the
      remote widget has settings if and only if it is enabled. */
  function ImportSidebar(t: Remote.SidebarWidget): (s: Sidebar)
    ensures s.widgetId == Known(t.widgetId) && s.widgetNamespace == Known(t.widgetNamespace) && s.disabled == Known(t.disabled)
    ensures t.settings.None? ==> s.settings == Known(EmptyObject)
    ensures Decode(s.settings) == if t.settings.Some? then t.settings.value else map[]
    ensures DraftSidebar(s) == t <==> (t.disabled <==> t.settings.None?)
  {
    var settings := if t.settings.Some? then Encode(t.settings.value) else EmptyObject;
    Sidebar(Known(t.widgetId), Known(t.widgetNamespace), Known(settings), Known(t.disabled))
  }

  /** The sidebar `ContentType.Import` stores: one widget per remote widget, in
      order, with known ids, namespace and flag, and settings that decode to the
      remote map (to the empty map when the remote widget has none). */
  function ImportedSidebars(ws: seq<Remote.SidebarWidget>): (r: seq<Sidebar>)
    ensures |r| == |ws|
    ensures forall i :: 0 <= i < |ws| ==>
              r[i].widgetId == Known(ws[i].widgetId) && r[i].widgetNamespace == Known(ws[i].widgetNamespace) &&
              r[i].disabled == Known(ws[i].disabled)
    ensures forall i :: 0 <= i < |ws| ==>
              Decode(r[i].settings) == if ws[i].settings.Some? then ws[i].settings.value else map[]
  {
    seq(|ws|, i requires 0 <= i < |ws| => ImportSidebar(ws[i]))
  }

  /** Import then draft, for the sidebar: drafting the imported widgets gives the
      remote sidebar back exactly when every remote widget has settings if and
      only if it is enabled. */
  lemma ImportedSidebarsRoundTrip(ws: seq<Remote.SidebarWidget>)
    ensures DraftedSidebars(ImportedSidebars(ws)) == ws <==>
            forall i :: 0 <= i < |ws| ==> (ws[i].disabled <==> ws[i].settings.None?)
  {
    var ss := ImportedSidebars(ws);
    var back := DraftedSidebars(ss);
    forall i | 0 <= i < |ws|
      ensures back[i] == ws[i] <==> (ws[i].disabled <==> ws[i].settings.None?)
    {
      assert ss[i] == ImportSidebar(ws[i]);
      assert back[i] == DraftSidebar(ss[i]);
    }
  }

  // ---------------------------------------------------------------------------
  // Drafting the editor interface

  /** The control mapping inside `DraftEditorInterface`: bound to the field's id,
      and carrying a widget only when the field declares a control. */
  function DraftControl(f: Field): (c: Remote.Control)
    ensures c.fieldId == Str(f.id)
    ensures f.control.None? ==> c.widgetId.None? && c.widgetNamespace.None? && c.settings.None?
    ensures f.control.Some? ==> (c.widgetId.None? <==> f.control.value.widgetId.Null?)
    ensures f.control.Some? ==> (c.settings.Some? <==> f.control.value.settings.Some?)
  {
    var control := Remote.Control(Str(f.id), None, None, None);
    if f.control.Some? then
      var settings := if f.control.value.settings.Some? then Some(DraftSettings(f.control.value.settings.value)) else None;
      control.(widgetId := StrPointer(f.control.value.widgetId),
               widgetNamespace := StrPointer(f.control.value.widgetNamespace),
               settings := settings)
    else
      control
  }

  /** The controls `DraftEditorInterface` writes: one per field, in field order,
      bound to that field's id; a control carries widget data only for a field
      that declares a control, and always does when that control names a widget. */
  function DraftedControls(fs: seq<Field>): (r: seq<Remote.Control>)
    ensures |r| == |fs|
    ensures forall i :: 0 <= i < |fs| ==> r[i].fieldId == Str(fs[i].id)
    ensures forall i :: 0 <= i < |fs| ==> (HasWidgetData(r[i]) ==> HasControl(fs[i]))
    ensures forall i :: 0 <= i < |fs| && HasControl(fs[i]) && !fs[i].control.value.widgetId.Null? ==> HasWidgetData(r[i])
  {
    seq(|fs|, i requires 0 <= i < |fs| => DraftControl(fs[i]))
  }

  /** The sidebar mapping inside `DraftEditorInterface`: an enabled widget carries
      its decoded settings, a disabled one none. */
  function DraftSidebar(s: Sidebar): (w: Remote.SidebarWidget)
    ensures w.widgetId == Str(s.widgetId) && w.widgetNamespace == Str(s.widgetNamespace) && w.disabled == Bool(s.disabled)
    ensures w.settings.None? <==> Bool(s.disabled)
    ensures !Bool(s.disabled) ==> w.settings == Some(Decode(s.settings))
  {
    var sidebar := Remote.SidebarWidget(Str(s.widgetId), Str(s.widgetNamespace), None, Bool(s.disabled));
    if !sidebar.disabled then sidebar.(settings := Some(Decode(s.settings))) else sidebar
  }

  /** The sidebar `DraftEditorInterface` writes: one remote widget per declared
      widget, in order, with the declared id, namespace and flag, and the settings
      the sidebar comparison expects (none when disabled, else the decoded map). */
  function DraftedSidebars(ss: seq<Sidebar>): (r: seq<Remote.SidebarWidget>)
    ensures |r| == |ss|
    ensures forall i :: 0 <= i < |ss| ==>
              r[i].widgetId == Str(ss[i].widgetId) && r[i].widgetNamespace == Str(ss[i].widgetNamespace) &&
              r[i].disabled == Bool(ss[i].disabled)
    ensures forall i :: 0 <= i < |ss| ==> SettingsAgree(ss[i], r[i])
  {
    seq(|ss|, i requires 0 <= i < |ss| => DraftSidebar(ss[i]))
  }

  /** What `Unmarshal` leaves in the map it is given: the map is passed by value,
      not through a pointer, so the JSON decoder refuses it and the map stays empty. */
  function UnmarshalAsWritten(j: Value<Json>): map<string, string> {
    map[]
  }

  /** The sidebar mapping inside `DraftEditorInterface` as written, with
      `UnmarshalAsWritten` in place of decoding. */
  function DraftSidebarAsWritten(s: Sidebar): Remote.SidebarWidget {
    var sidebar := Remote.SidebarWidget(Str(s.widgetId), Str(s.widgetNamespace), None, Bool(s.disabled));
    if !sidebar.disabled then sidebar.(settings := Some(UnmarshalAsWritten(s.settings))) else sidebar
  }

  /** The sidebar drafted as written: every enabled widget is sent with an empty
      settings map, whatever its settings text holds. */
  function DraftedSidebarsAsWritten(ss: seq<Sidebar>): (r: seq<Remote.SidebarWidget>)
    ensures |r| == |ss|
    ensures forall i :: 0 <= i < |ss| ==> (r[i].settings.None? <==> Bool(ss[i].disabled))
    ensures forall i :: 0 <= i < |ss| && !Bool(ss[i].disabled) ==> r[i].settings == Some(map[])
  {
    seq(|ss|, i requires 0 <= i < |ss| => DraftSidebarAsWritten(ss[i]))
  }

  /** As written, an enabled widget is drafted with empty settings whatever its
      settings text holds. */
  lemma SettingsDroppedAsWritten()
    ensures var s := Sidebar(Known("publication-widget"), Known("builtin"), Known(JsonObject(map["mode" := "strict"])), Known(false));
            && DraftSidebarAsWritten(s).settings == Some(map[])
            && Decode(s.settings) == map["mode" := "strict"]
            && DraftSidebar(s).settings == Some(map["mode" := "strict"])
  {
  }

  // ---------------------------------------------------------------------------
  // Comparing controls

  /** The controls `EqualEditorInterface` keeps: those carrying a widget id, a
      namespace or settings. */
  predicate HasWidgetData(c: Remote.Control) {
    c.widgetId.Some? || c.widgetNamespace.Some? || c.settings.Some?
  }

  /** The fields `EqualEditorInterface` keeps: those declaring a control. */
  predicate HasControl(f: Field) {
    f.control.Some?
  }

  /** The first control bound to field `id`, or -1. */
  function ControlIndex(cs: seq<Remote.Control>, id: string): (r: int)
    ensures -1 <= r < |cs|
    ensures r == -1 <==> forall i :: 0 <= i < |cs| ==> cs[i].fieldId != id
    ensures 0 <= r ==> cs[r].fieldId == id && forall i :: 0 <= i < r ==> cs[i].fieldId != id
  {
    IndexOf(cs, (c: Remote.Control) => c.fieldId == id)
  }

  /** The desired control agrees with the remote one: the same widget id and
      namespace (a nil remote pointer, which the Go code dereferences, counts as a
      disagreement), and settings exactly when desired, equal to the drafted ones. */
  predicate ControlAgrees(c: Fields.Control, rc: Remote.Control) {
    && rc.widgetId == Some(Str(c.widgetId))
    && rc.widgetNamespace == Some(Str(c.widgetNamespace))
    && !(c.settings.None? && rc.settings.Some?)
    && (c.settings.Some? ==> rc.settings == Some(DraftSettings(c.settings.value)))
  }

  /** A field with a control finds the first kept control bound to its id, and
      that control agrees with it. */
  predicate ControlFound(f: Field, kept: seq<Remote.Control>) {
    var idx := ControlIndex(kept, Str(f.id));
    f.control.Some? && idx != -1 && ControlAgrees(f.control.value, kept[idx])
  }

  /** The control part of `EqualEditorInterface`: as many fields as controls, as
      many fields with a control as controls carrying widget data, and every field
      with a control finds an agreeing control by id. */
  predicate ControlsMatch(fs: seq<Field>, cs: seq<Remote.Control>) {
    var kept := Filter(cs, HasWidgetData);
    var withControl := Filter(fs, HasControl);
    && |fs| == |cs|
    && |kept| == |withControl|
    && forall k :: 0 <= k < |withControl| ==> ControlFound(withControl[k], kept)
  }

  /** Fields whose controls survive a draft: every control names a widget and a
      namespace, and no two fields with a control share an id. */
  predicate ControlsDraftable(fs: seq<Field>) {
    && (forall i :: 0 <= i < |fs| && fs[i].control.Some? ==>
          (!fs[i].control.value.widgetId.Null? && !fs[i].control.value.widgetNamespace.Null?))
    && (forall i, j :: 0 <= i < |fs| && 0 <= j < |fs| && fs[i].control.Some? && fs[j].control.Some? &&
          Str(fs[i].id) == Str(fs[j].id)
          ==> i == j)
  }

  /** A field with a control finds its own drafted control among the kept ones. */
  lemma DraftedControlFound(fs: seq<Field>, m: int)
    requires ControlsDraftable(fs)
    requires 0 <= m < |fs| && fs[m].control.Some?
    ensures var kept := Filter(DraftedControls(fs), HasWidgetData);
            ControlFound(fs[m], kept) && kept[ControlIndex(kept, Str(fs[m].id))] == DraftControl(fs[m])
  {
    var cs := DraftedControls(fs);
    var kept := Filter(cs, HasWidgetData);
    var id := Str(fs[m].id);
    assert HasWidgetData(cs[m]);
    assert cs[m] in kept;
    var q :| 0 <= q < |kept| && kept[q] == cs[m];
    assert kept[q].fieldId == id;
    var idx := ControlIndex(kept, id);
    assert idx != -1;
    assert kept[idx] in cs && HasWidgetData(kept[idx]);
    var j :| 0 <= j < |cs| && cs[j] == kept[idx];
    assert fs[j].control.Some? && Str(fs[j].id) == id;
    assert kept[idx] == DraftControl(fs[m]);
  }

  /** Draft then compare: the controls drafted from draftable fields match them. */
  lemma DraftedControlsMatch(fs: seq<Field>)
    requires ControlsDraftable(fs)
    ensures ControlsMatch(fs, DraftedControls(fs))
  {
    var cs := DraftedControls(fs);
    FilterCountsAgree(cs, HasWidgetData, fs, HasControl);
    var withControl := Filter(fs, HasControl);
    forall k | 0 <= k < |withControl|
      ensures ControlFound(withControl[k], Filter(cs, HasWidgetData))
    {
      assert withControl[k] in fs && HasControl(withControl[k]);
      var m :| 0 <= m < |fs| && fs[m] == withControl[k];
      DraftedControlFound(fs, m);
    }
  }

  /** A remote control for a field imports back as that field's control when the
      field is the first with its id and its control names a widget, has no
      unknown namespace and no unknown setting. */
  lemma DraftedControlImports(fs: seq<Field>, m: int)
    requires 0 <= m < |fs| && fs[m].control.Some?
    requires fs[m].control.value.widgetId.Known? && !fs[m].control.value.widgetNamespace.Unknown?
    requires fs[m].control.value.settings.Some? ==> NoUnknowns(fs[m].control.value.settings.value)
    requires forall j :: 0 <= j < m ==> Str(fs[j].id) != Str(fs[m].id)
    ensures ImportedControl(Str(fs[m].id), DraftedControls(fs)) == fs[m].control
  {
    var cs := DraftedControls(fs);
    var c := fs[m].control.value;
    assert cs[m] == DraftControl(fs[m]);
    assert FirstControlFor(cs, Str(fs[m].id), m);
    var r := ImportedControl(Str(fs[m].id), cs);
    assert r.Some? && r.value.widgetId == c.widgetId && r.value.widgetNamespace == c.widgetNamespace;
    if c.settings.Some? {
      SettingsRoundTrip(c.settings.value);
      assert r.value.settings == c.settings;
    }
  }

  // ---------------------------------------------------------------------------
  // Comparing the sidebar

  /** The first remote widget with the given widget id, or -1. */
  function WidgetIndex(ws: seq<Remote.SidebarWidget>, id: string): (r: int)
    ensures -1 <= r < |ws|
    ensures r == -1 <==> forall i :: 0 <= i < |ws| ==> ws[i].widgetId != id
    ensures 0 <= r ==> ws[r].widgetId == id && forall i :: 0 <= i < r ==> ws[i].widgetId != id
  {
    IndexOf(ws, (t: Remote.SidebarWidget) => t.widgetId == id)
  }

  /** The desired widget is the first remote widget with its id, sits at its own
      index, and agrees on disabled, id, namespace and (by `settingsAgree`) settings. */
  predicate WidgetAt(ss: seq<Sidebar>, ws: seq<Remote.SidebarWidget>, i: int, settingsAgree: bool)
    requires 0 <= i < |ss| && |ss| == |ws|
  {
    var idx := WidgetIndex(ws, Str(ss[i].widgetId));
    && idx != -1
    && idx == i
    && ws[idx].disabled == Bool(ss[i].disabled)
    && ws[idx].widgetId == Str(ss[i].widgetId)
    && ws[idx].widgetNamespace == Str(ss[i].widgetNamespace)
    && settingsAgree
  }

  /** The sidebar part of `EqualEditorInterface` as written: the remote settings
      must equal the map `Unmarshal` leaves, never nil. */
  predicate SidebarMatchesAsWritten(ss: seq<Sidebar>, ws: seq<Remote.SidebarWidget>) {
    |ss| == |ws| &&
    forall i :: 0 <= i < |ss| ==> WidgetAt(ss, ws, i, ws[i].settings == Some(UnmarshalAsWritten(ss[i].settings)))
  }

  /** As written, a declared disabled widget is always drift against its own draft:
      the draft leaves its settings nil and the comparison demands a map. */
  lemma DisabledWidgetAlwaysDrifts(ss: seq<Sidebar>, i: int)
    requires 0 <= i < |ss| && Bool(ss[i].disabled)
    ensures !SidebarMatchesAsWritten(ss, DraftedSidebarsAsWritten(ss))
    ensures !SidebarMatchesAsWritten(ss, DraftedSidebars(ss))
  {
  }

  /** The settings the draft gives a widget: none when disabled, else the decoded map. */
  predicate SettingsAgree(s: Sidebar, w: Remote.SidebarWidget) {
    w.settings == if Bool(s.disabled) then None else Some(Decode(s.settings))
  }

  /** The sidebar part of `EqualEditorInterface`, with the settings compared as
      the draft produces them: as many widgets as declared, each found by id at its
      own index and agreeing with the declared one. */
  predicate SidebarMatches(ss: seq<Sidebar>, ws: seq<Remote.SidebarWidget>) {
    |ss| == |ws| &&
    forall i :: 0 <= i < |ss| ==> WidgetAt(ss, ws, i, SettingsAgree(ss[i], ws[i]))
  }

  /** No two declared widgets share a widget id. */
  predicate DistinctWidgetIds(ss: seq<Sidebar>) {
    forall i, j :: 0 <= i < j < |ss| ==> Str(ss[i].widgetId) != Str(ss[j].widgetId)
  }

  /** Draft then compare: the drafted sidebar matches the declared one exactly
      when no two declared widgets share an id. */
  lemma DraftedSidebarMatches(ss: seq<Sidebar>)
    ensures SidebarMatches(ss, DraftedSidebars(ss)) <==> DistinctWidgetIds(ss)
  {
    var ws := DraftedSidebars(ss);
    if DistinctWidgetIds(ss) {
      forall i | 0 <= i < |ss|
        ensures WidgetAt(ss, ws, i, SettingsAgree(ss[i], ws[i]))
      {
        assert forall j :: 0 <= j < i ==> ws[j].widgetId != Str(ss[i].widgetId);
      }
    }
    if SidebarMatches(ss, ws) {
      forall i, j | 0 <= i < j < |ss|
        ensures Str(ss[i].widgetId) != Str(ss[j].widgetId)
      {
        assert WidgetAt(ss, ws, j, SettingsAgree(ss[j], ws[j]));
        assert ws[i].widgetId == Str(ss[i].widgetId);
      }
    }
  }

  /** A widget found at its index but moved in the remote list is drift. */
  lemma MovedWidgetDrifts(ss: seq<Sidebar>, ws: seq<Remote.SidebarWidget>, i: int, j: int)
    requires SidebarMatches(ss, ws)
    requires 0 <= i < j < |ws|
    ensures !SidebarMatches(ss, ws[i := ws[j]][j := ws[i]])
  {
    var moved := ws[i := ws[j]][j := ws[i]];
    assert WidgetAt(ss, ws, j, SettingsAgree(ss[j], ws[j]));
    assert moved[i].widgetId == Str(ss[j].widgetId);
    assert !WidgetAt(ss, moved, j, SettingsAgree(ss[j], moved[j]));
  }
}
