/** Building blocks shared by the whole model: Go pointers as options, the
    three-state values of the Terraform plugin framework, error results, and the
    first-index search and filter the provider takes from the `pie` library. */
module Common {

  /** A Go pointer or nil-able reference; `None` is nil. */
  datatype Option<T> = None | Some(value: T)

  /** A Terraform framework value (`types.String`, `types.Bool`, ...): null,
      unknown (not computed yet) or known. The zero value of the Go struct is null. */
  datatype Value<T> = Null | Unknown | Known(v: T) {

    /** `ValueString`, `ValueBool`, ...: the known value, else the zero value of the type. */
    function ValueOr(zero: T): T {
      if Known? then v else zero
    }

    /** `ValueStringPointer`, ...: nil only for null; an unknown value gives a
        pointer to the zero value. A value that is not unknown comes back from its
        pointer unchanged. */
    function Pointer(zero: T): (r: Option<T>)
      ensures !Unknown? ==> FromPointer(r) == this
    {
      match this
      case Null => None
      case Unknown => Some(zero)
      case Known(x) => Some(x)
    }
  }

  function Str(s: Value<string>): string { s.ValueOr("") }
  function Bool(b: Value<bool>): bool { b.ValueOr(false) }
  function StrPointer(s: Value<string>): Option<string> { s.Pointer("") }

  /** `types.StringPointerValue` and its siblings: nil becomes null, anything else known. */
  function FromPointer<T>(p: Option<T>): (r: Value<T>)
  {
    match p
    case None => Null
    case Some(x) => Known(x)
  }

  /** Reading the pointer back gives the original pointer. */
  lemma PointerRoundTrip<T>(p: Option<T>, zero: T)
    ensures FromPointer(p).Pointer(zero) == p
  {
  }

  /** `utils.FromOptionalString`: the empty string becomes null. Reading the value
      back as a string gives the original string. */
  function FromOptionalString(s: string): (r: Value<string>)
    ensures Str(r) == s
    ensures r.Null? <==> s == ""
  {
    if s == "" then Null else Known(s)
  }

  /** `utils.CompareStringPointer`: the desired value, read as a pointer, equals
      the remote pointer. */
  predicate CompareStringPointer(desired: Value<string>, remote: Option<string>) {
    StrPointer(desired) == remote
  }

  /** The failures the core can produce. `Panic` stands for the places where the
      Go code would crash (a nil dereference or a failed type assertion) instead
      of returning an error. */
  datatype Error =
    | UnsupportedValidation(typeName: string)
    | UnsupportedDefaultType(typeName: string)
    | Panic(reason: string)

  /** A Go `(value, error)` pair. */
  datatype Result<T> = Ok(value: T) | Err(error: Error)

  /** A Go `error` return with no value. */
  datatype Outcome = Pass | Fail(error: Error)

  /** `pie.FindFirstUsing`: the index of the first element satisfying `p`, or -1. */
  function IndexOf<T>(s: seq<T>, p: T -> bool): (r: int)
    ensures -1 <= r < |s|
    ensures r == -1 <==> forall i :: 0 <= i < |s| ==> !p(s[i])
    ensures 0 <= r ==> p(s[r]) && forall i :: 0 <= i < r ==> !p(s[i])
    decreases |s|
  {
    if s == [] then -1
    else if p(s[0]) then 0
    else
      var k := IndexOf(s[1..], p);
      if k == -1 then -1 else k + 1
  }

  /** `pie.Filter`: the elements satisfying `p`, in their original order. */
  function Filter<T>(s: seq<T>, p: T -> bool): (r: seq<T>)
    ensures |r| <= |s|
    ensures forall i :: 0 <= i < |r| ==> r[i] in s && p(r[i])
    ensures forall i :: 0 <= i < |s| && p(s[i]) ==> s[i] in r
    decreases |s|
  {
    if s == [] then []
    else if p(s[0]) then [s[0]] + Filter(s[1..], p)
    else Filter(s[1..], p)
  }

  /** Filtering keeps the original order: filtering one more element appends it
      exactly when it satisfies `p`. */
  lemma {:induction false} FilterAppend<T>(s: seq<T>, x: T, p: T -> bool)
    ensures Filter(s + [x], p) == Filter(s, p) + (if p(x) then [x] else [])
    decreases |s|
  {
    if s == [] {
      assert [] + [x] == [x];
    } else {
      assert (s + [x])[1..] == s[1..] + [x];
      FilterAppend(s[1..], x, p);
    }
  }

  /** Filtering two sequences of equal length keeps equally many elements when the
      two predicates agree position by position. */
  lemma {:induction false} FilterCountsAgree<A, B>(a: seq<A>, p: A -> bool, b: seq<B>, q: B -> bool)
    requires |a| == |b|
    requires forall i :: 0 <= i < |a| ==> (p(a[i]) <==> q(b[i]))
    ensures |Filter(a, p)| == |Filter(b, q)|
    decreases |a|
  {
    if a != [] {
      assert forall i :: 0 <= i < |a| - 1 ==> a[1..][i] == a[i + 1] && b[1..][i] == b[i + 1];
      FilterCountsAgree(a[1..], p, b[1..], q);
    }
  }
}
