/** Validation rules of a field (internal/resources/contenttype/model.go): the
    desired rule, with one optional part per kind, and its translation to and from
    the remote variants. */
module Validations {
  import opened Common
  import Remote

  /** `Size`: the bounds of a size, range or file-size rule. */
  datatype Size = Size(min: Value<int>, max: Value<int>)

  /** `Regexp`. */
  datatype Regexp = Regexp(pattern: Value<string>)

  /** `Validation`: a desired rule. Every part may be left out; `message` is
      shared by the kinds that carry one. */
  datatype Validation = Validation(
    unique: Value<bool>,
    size: Option<Size>,
    range: Option<Size>,
    assetFileSize: Option<Size>,
    regexp: Option<Regexp>,
    linkContentType: seq<Value<string>>,
    linkMimetypeGroup: seq<Value<string>>,
    inValues: seq<Value<string>>,
    enabledMarks: seq<Value<string>>,
    enabledNodeTypes: seq<Value<string>>,
    message: Value<string>)

  /** The zero value of `Validation`: nothing populated. */
  const Empty := Validation(Null, None, None, None, None, [], [], [], [], [], Null)

  /** The ten kinds of rule. */
  datatype Kind =
    | KUnique | KSize | KRange | KAssetFileSize | KRegexp
    | KLinkContentType | KLinkMimetypeGroup | KIn | KEnabledMarks | KEnabledNodeTypes

  /** The position of each kind in the order in which drafting tests them. */
  function Rank(k: Kind): nat {
    match k
    case KUnique => 0
    case KSize => 1
    case KRange => 2
    case KAssetFileSize => 3
    case KRegexp => 4
    case KLinkContentType => 5
    case KLinkMimetypeGroup => 6
    case KIn => 7
    case KEnabledMarks => 8
    case KEnabledNodeTypes => 9
  }

  /** Whether the part of `v` for kind `k` counts as populated: a known `unique`
      flag (false included), a present bound or pattern, a non-empty list. */
  predicate Populated(v: Validation, k: Kind) {
    match k
    case KUnique => v.unique.Known?
    case KSize => v.size.Some?
    case KRange => v.range.Some?
    case KAssetFileSize => v.assetFileSize.Some?
    case KRegexp => v.regexp.Some?
    case KLinkContentType => |v.linkContentType| > 0
    case KLinkMimetypeGroup => |v.linkMimetypeGroup| > 0
    case KIn => |v.inValues| > 0
    case KEnabledMarks => |v.enabledMarks| > 0
    case KEnabledNodeTypes => |v.enabledNodeTypes| > 0
  }

  /** The kind of a remote variant; none for nil and for variants the provider does not know. */
  function KindOf(fv: Remote.FieldValidation): Option<Kind> {
    match fv
    case ValidationUnique(_) => Some(KUnique)
    case ValidationSize(_, _) => Some(KSize)
    case ValidationRange(_, _) => Some(KRange)
    case ValidationFileSize(_) => Some(KAssetFileSize)
    case ValidationRegex(_, _) => Some(KRegexp)
    case ValidationLink(_) => Some(KLinkContentType)
    case ValidationMimeType(_, _) => Some(KLinkMimetypeGroup)
    case ValidationPredefinedValues(_) => Some(KIn)
    case ValidationEnabledMarks(_, _) => Some(KEnabledMarks)
    case ValidationEnabledNodeTypes(_, _) => Some(KEnabledNodeTypes)
    case NoValidation => None
    case UnknownValidation(_) => None
  }

  /** `pie.Map` with `ValueString`. */
  function Texts(s: seq<Value<string>>): (r: seq<string>)
  {
    seq(|s|, i requires 0 <= i < |s| => Str(s[i]))
  }

  /** `pie.Map` with `types.StringValue`: every text becomes known, so reading
      the values back gives the texts. */
  function KnownTexts(s: seq<string>): (r: seq<Value<string>>)
    ensures forall i :: 0 <= i < |r| ==> r[i].Known?
    ensures Texts(r) == s
  {
    var r := seq(|s|, i requires 0 <= i < |s| => Known(s[i]));
    assert Texts(r) == s;
    r
  }

  function DraftBounds(s: Size): Remote.MinMax {
    Remote.MinMax(s.min.Pointer(0), s.max.Pointer(0))
  }

  function ImportBounds(m: Remote.MinMax): (s: Size)
    ensures DraftBounds(s) == m
  {
    Size(FromPointer(m.min), FromPointer(m.max))
  }

  /** `Validation.Draft`: the remote variant of a desired rule. The kinds are
      tested in a fixed order and the first populated one decides; a rule with
      nothing populated drafts to nil. */
  function Draft(v: Validation): (r: Remote.FieldValidation)
    ensures !r.UnknownValidation?
    ensures r.NoValidation? ==> forall k :: !Populated(v, k)
    ensures !r.NoValidation? ==>
              KindOf(r).Some? && Populated(v, KindOf(r).value) &&
              forall k :: Rank(k) < Rank(KindOf(r).value) ==> !Populated(v, k)
    ensures v.unique.Known? ==> r == Remote.ValidationUnique(v.unique.v)
  {
    if !v.unique.Unknown? && !v.unique.Null? then
      Remote.ValidationUnique(v.unique.v)
    else if v.size.Some? then
      Remote.ValidationSize(Some(DraftBounds(v.size.value)), v.message.Pointer(""))
    else if v.range.Some? then
      Remote.ValidationRange(Some(DraftBounds(v.range.value)), Str(v.message))
    else if v.assetFileSize.Some? then
      Remote.ValidationFileSize(Some(DraftBounds(v.assetFileSize.value)))
    else if v.regexp.Some? then
      Remote.ValidationRegex(Some(Str(v.regexp.value.pattern)), v.message.Pointer(""))
    else if |v.linkContentType| > 0 then
      Remote.ValidationLink(Texts(v.linkContentType))
    else if |v.linkMimetypeGroup| > 0 then
      Remote.ValidationMimeType(Texts(v.linkMimetypeGroup), v.message.Pointer(""))
    else if |v.inValues| > 0 then
      Remote.ValidationPredefinedValues(Texts(v.inValues))
    else if |v.enabledMarks| > 0 then
      Remote.ValidationEnabledMarks(Texts(v.enabledMarks), v.message.Pointer(""))
    else if |v.enabledNodeTypes| > 0 then
      Remote.ValidationEnabledNodeTypes(Texts(v.enabledNodeTypes), v.message.Pointer(""))
    else
      Remote.NoValidation
  }

  /** The first populated kind decides the variant whatever else is populated. */
  lemma DraftPicksFirstPopulated(v: Validation, k: Kind)
    requires Populated(v, k)
    requires forall k' :: Rank(k') < Rank(k) ==> !Populated(v, k')
    ensures KindOf(Draft(v)) == Some(k)
  {
  }

  /** A remote variant whose import keeps everything drafting needs: no message on
      a size rule, an empty message on a range rule, non-empty lists. */
  predicate Lossless(fv: Remote.FieldValidation) {
    match fv
    case ValidationSize(size, msg) => size.Some? && msg.None?
    case ValidationRange(range, msg) => range.Some? && msg == ""
    case ValidationFileSize(size) => size.Some?
    case ValidationRegex(regex, _) => regex.Some?
    case ValidationLink(l) => |l| > 0
    case ValidationMimeType(l, _) => |l| > 0
    case ValidationPredefinedValues(l) => |l| > 0
    case ValidationEnabledMarks(l, _) => |l| > 0
    case ValidationEnabledNodeTypes(l, _) => |l| > 0
    case NoValidation => false
    case UnknownValidation(_) => false
    case _ => true
  }

  /** A size, range, file-size or regex variant whose pointer is nil. */
  predicate NilPart(fv: Remote.FieldValidation) {
    || (fv.ValidationSize? && fv.size.None?)
    || (fv.ValidationRange? && fv.range.None?)
    || (fv.ValidationFileSize? && fv.size.None?)
    || (fv.ValidationRegex? && fv.regex.None?)
  }

  /** `getValidation`: the desired rule for a remote variant. A variant the
      provider does not know is an error naming its type; nil, and a variant whose
      bounds or regex pointer is nil, crash the Go code. The imported rule
      populates at most the part of the variant's own kind, and drafting it again
      gives back the variant whenever the import is lossless. */
  function GetValidation(fv: Remote.FieldValidation): (r: Result<Validation>)
    ensures r.Err? <==> KindOf(fv).None? || NilPart(fv)
    ensures NilPart(fv) || fv.NoValidation? ==> r.Err? && r.error.Panic?
    ensures fv.UnknownValidation? ==> r == Err(UnsupportedValidation(fv.typeName))
    ensures r.Ok? ==> forall k :: Populated(r.value, k) ==> Some(k) == KindOf(fv)
    ensures r.Ok? && Lossless(fv) ==> Draft(r.value) == fv
  {
    match fv
    case ValidationPredefinedValues(values) =>
      Ok(Empty.(inValues := KnownTexts(values)))
    case ValidationUnique(u) =>
      Ok(Empty.(unique := Known(u)))
    case ValidationRegex(regex, msg) =>
      if regex.None? then Err(Panic("nil dereference of Regex"))
      else Ok(Empty.(regexp := Some(Regexp(Known(regex.value))), message := FromPointer(msg)))
    case ValidationSize(size, _) =>
      if size.None? then Err(Panic("nil dereference of Size"))
      else Ok(Empty.(size := Some(ImportBounds(size.value))))
    case ValidationLink(types) =>
      Ok(Empty.(linkContentType := KnownTexts(types)))
    case ValidationMimeType(types, msg) =>
      Ok(Empty.(linkMimetypeGroup := KnownTexts(types), message := FromPointer(msg)))
    case ValidationRange(range, _) =>
      if range.None? then Err(Panic("nil dereference of Range"))
      else Ok(Empty.(range := Some(ImportBounds(range.value))))
    case ValidationEnabledNodeTypes(types, msg) =>
      Ok(Empty.(enabledNodeTypes := KnownTexts(types), message := FromPointer(msg)))
    case ValidationEnabledMarks(marks, msg) =>
      Ok(Empty.(enabledMarks := KnownTexts(marks), message := FromPointer(msg)))
    case ValidationFileSize(size) =>
      if size.None? then Err(Panic("nil dereference of Size"))
      else Ok(Empty.(assetFileSize := Some(ImportBounds(size.value))))
    case NoValidation =>
      Err(Panic("reflect.TypeOf(nil).String()"))
    case UnknownValidation(name) =>
      Err(UnsupportedValidation(name))
  }

  /** The message of a remote size rule is lost on import. */
  lemma SizeMessageIsLost()
    ensures var fv := Remote.ValidationSize(Some(Remote.MinMax(None, Some(10))), Some("too long"));
            GetValidation(fv).Ok? && Draft(GetValidation(fv).value) != fv
  {
  }

  /** `getValidations`: one desired rule per remote variant, in order; the first
      variant that fails stops the conversion and no list is returned. */
  method GetValidations(vs: seq<Remote.FieldValidation>) returns (r: Result<seq<Validation>>)
    ensures r.Ok? <==> forall i :: 0 <= i < |vs| ==> GetValidation(vs[i]).Ok?
    ensures r.Ok? ==> |r.value| == |vs| &&
                      forall i :: 0 <= i < |vs| ==> r.value[i] == GetValidation(vs[i]).value
    ensures r.Err? ==> exists i :: 0 <= i < |vs| && GetValidation(vs[i]) == Err(r.error) &&
                                   forall j :: 0 <= j < i ==> GetValidation(vs[j]).Ok?
  {
    var validations: seq<Validation> := [];
    var i := 0;
    while i < |vs|
      invariant 0 <= i <= |vs|
      invariant |validations| == i
      invariant forall j :: 0 <= j < i ==> GetValidation(vs[j]).Ok? && validations[j] == GetValidation(vs[j]).value
    {
      var val := GetValidation(vs[i]);
      if val.Err? {
        return Err(val.error);
      }
      validations := validations + [val.value];
      i := i + 1;
    }
    return Ok(validations);
  }

  /** The drafted rules of a list, in order (`pie.Map` with `Draft`); they always
      pass the positional rule comparison against the rules they came from. */
  function DraftAll(vs: seq<Validation>): (r: seq<Remote.FieldValidation>)
    ensures ValidationsMatch(vs, r)
  {
    var r := seq(|vs|, i requires 0 <= i < |vs| => Draft(vs[i]));
    ValidationsMatchPositional(vs, r);
    r
  }

  /** The positional comparison of `Field.Equal` and `Items.Equal`: equal lengths,
      then the drafted rule at each index against the remote rule at that index. */
  predicate ValidationsMatch(desired: seq<Validation>, remote: seq<Remote.FieldValidation>) {
    |desired| == |remote| && MatchFrom(desired, remote, 0)
  }

  predicate MatchFrom(desired: seq<Validation>, remote: seq<Remote.FieldValidation>, i: nat)
    requires |desired| == |remote| && i <= |desired|
    decreases |desired| - i
  {
    i == |desired| || (Draft(desired[i]) == remote[i] && MatchFrom(desired, remote, i + 1))
  }

  lemma {:induction false} MatchFromAt(desired: seq<Validation>, remote: seq<Remote.FieldValidation>, i: nat)
    requires |desired| == |remote| && i <= |desired|
    ensures MatchFrom(desired, remote, i) <==> forall j :: i <= j < |desired| ==> Draft(desired[j]) == remote[j]
    decreases |desired| - i
  {
    if i < |desired| {
      MatchFromAt(desired, remote, i + 1);
    }
  }

  /** The comparison is index by index: the lists match exactly when they have the
      same length and every drafted rule equals the remote rule at its index. */
  lemma ValidationsMatchPositional(desired: seq<Validation>, remote: seq<Remote.FieldValidation>)
    ensures ValidationsMatch(desired, remote) <==>
              |desired| == |remote| && forall i :: 0 <= i < |desired| ==> Draft(desired[i]) == remote[i]
  {
    if |desired| == |remote| {
      MatchFromAt(desired, remote, 0);
    }
  }

  /** Reordering rules counts as drift: swapping two rules that draft differently
      turns a match into a mismatch, although both lists hold the same rules. */
  lemma ReorderedRulesDrift(desired: seq<Validation>, remote: seq<Remote.FieldValidation>, i: nat, j: nat)
    requires ValidationsMatch(desired, remote)
    requires i < j < |remote|
    requires remote[i] != remote[j]
    ensures !ValidationsMatch(desired, remote[i := remote[j]][j := remote[i]])
  {
    ValidationsMatchPositional(desired, remote);
    var swapped := remote[i := remote[j]][j := remote[i]];
    ValidationsMatchPositional(desired, swapped);
    assert Draft(desired[i]) == remote[i] != swapped[i];
  }
}
