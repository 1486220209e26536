/**
 * Projection of one named field out of a slice of structs or of pointers to
 * structs (selectx/field.go), over a model of reflected values.
 *
 * A reflected value is classified by its kind: a slice of values, a struct
 * (the fields reachable by name), a pointer (to the zero value Invalid when
 * nil), a signed integer of any width, an unsigned integer of the widths
 * uint, uint8, uint16, uint32 and uint64, a string, any other kind (bool,
 * floats, uintptr, arrays, maps, interfaces, ...), or the zero value.
 */
module Selectx {
  import opened Wrappers

  datatype Value =
    | Slice(elems: seq<Value>)
    | Struct(fields: map<string, Value>)
    | Ptr(elem: Value)
    | IntVal(i: int)
    | UintVal(u: nat)
    | StringVal(s: string)
    | Other
    | Invalid

  /** The dynamic value held by an interface{}: nil, an int64, a uint64 or a string. */
  datatype Any = Nil | Int64(i: int) | Uint64(u: nat) | Str(s: string)

  /** A Go slice, which is either nil or made (possibly empty). */
  datatype GoSlice<T> = NilSlice | Elems(items: seq<T>) {
    function Items(): seq<T>
    {
      if NilSlice? then [] else items
    }

    /** append: always yields a made slice one element longer. */
    function Append(x: T): (r: GoSlice<T>)
      ensures r.Elems? && r.Items() == Items() + [x]
    {
      Elems(Items() + [x])
    }
  }

  /*
   * The error type.
   */

  datatype KindError = KindError(message: string) {
    /** The text of the error: the message stored in this value. */
    function Error(): (text: string)
      ensures text == message
    {
      message
    }

    /**
     * Set has a value receiver: it assigns the message in a copy of the
     * receiver, returned here, which its caller never sees.
     */
    function Set(str: string): (copy: KindError)
      ensures copy.Error() == str
    {
      this.(message := str)
    }
  }

  /** "the value passed in must be a slice" */
  const NotSliceMsg: string := "\U{4F20}\U{5165}\U{7684}\U{7C7B}\U{578B}\U{5FC5}\U{9700}\U{662F}\U{5207}\U{7247}\U{7C7B}\U{578B}"
  /** "only struct and *struct are supported for now" */
  const UnsupportedMsg: string := "\U{76EE}\U{524D}\U{53EA}\U{652F}\U{6301} struct \U{548C} *struct"

  /** Builds a zero KindError and calls Set on a copy of it, so the message is lost. */
  function NewKindErr(str: string): (k: KindError)
    ensures k.Error() == ""
    ensures str != "" ==> k.Error() != str
  {
    var ret := KindError("");
    var discarded := ret.Set(str);
    ret
  }

  /*
   * Reading one field.
   */

  /** The kinds getStructFieldValue converts: strings and every integer kind it lists. */
  predicate Scalar(v: Value)
  {
    v.StringVal? || v.IntVal? || v.UintVal?
  }

  /** The reflected value an interface{} result stands for. */
  function Reflect(a: Any): Value
  {
    match a
    case Nil => Invalid
    case Int64(i) => IntVal(i)
    case Uint64(u) => UintVal(u)
    case Str(s) => StringVal(s)
  }

  /**
   * The field named fieldName of a struct, as an interface{}: strings as
   * string, signed integers as int64, unsigned integers as uint64, and nil
   * for every other kind and for a missing field.
   */
  function FieldValue(st: Value, fieldName: string): (r: Any)
    requires st.Struct?
    ensures r == Nil <==> fieldName !in st.fields || !Scalar(st.fields[fieldName])
    ensures r != Nil ==> Reflect(r) == st.fields[fieldName]
  {
    if fieldName !in st.fields then Nil
    else
      match st.fields[fieldName]
      case StringVal(s) => Str(s)
      case IntVal(i) => Int64(i)
      case UintVal(u) => Uint64(u)
      case _ => Nil
  }

  /** An element SelectField accepts: a struct, or a pointer to a struct. */
  predicate StructLike(e: Value)
  {
    e.Struct? || (e.Ptr? && e.elem.Struct?)
  }

  /** The struct an accepted element is or points to. */
  function Deref(e: Value): (st: Value)
    requires StructLike(e)
    ensures st.Struct?
    ensures e.Struct? ==> st == e
    ensures e.Ptr? ==> st == e.elem
  {
    if e.Struct? then e else e.elem
  }

  /** An input SelectField succeeds on: a slice whose elements are all accepted. */
  predicate Selectable(v: Value)
  {
    v.Slice? && forall i :: 0 <= i < |v.elems| ==> StructLike(v.elems[i])
  }

  /** The type assertion v.(int64) with its zero value on mismatch. */
  function AsInt64(a: Any): int
  {
    if a.Int64? then a.i else 0
  }

  /** The type assertion v.(string) with its zero value on mismatch. */
  function AsString(a: Any): string
  {
    if a.Str? then a.s else ""
  }

  /** Through GetInt a field reads as its value only when it is a signed integer. */
  lemma IntOfField(st: Value, fieldName: string)
    requires st.Struct?
    ensures AsInt64(FieldValue(st, fieldName)) ==
      if fieldName in st.fields && st.fields[fieldName].IntVal? then st.fields[fieldName].i else 0
  {
  }

  /** Through GetString a field reads as its value only when it is a string. */
  lemma StringOfField(st: Value, fieldName: string)
    requires st.Struct?
    ensures AsString(FieldValue(st, fieldName)) ==
      if fieldName in st.fields && st.fields[fieldName].StringVal? then st.fields[fieldName].s else ""
  {
  }

  /*
   * The projections.
   */

  /**
   * The field named fieldName of every element of a slice of structs or of
   * pointers to structs; an error and a nil slice for any other input.
   */
  method SelectField(value: Value, fieldName: string) returns (res: GoSlice<Any>, err: Option<KindError>)
    ensures err.None? <==> Selectable(value)
    ensures err.Some? ==> res == NilSlice && err.value.Error() == ""
    ensures err.None? ==> res.Elems? && |res.items| == |value.elems|
    ensures err.None? ==> forall i :: 0 <= i < |value.elems| ==>
      res.items[i] == FieldValue(Deref(value.elems[i]), fieldName)
  {
    if !value.Slice? {
      return NilSlice, Some(NewKindErr(NotSliceMsg));
    }
    var elemLen := |value.elems|;
    if elemLen < 1 {
      return Elems([]), None;
    }
    var ret: GoSlice<Any> := NilSlice;
    var i := 0;
    while i < elemLen
      invariant 0 <= i <= elemLen
      invariant forall j :: 0 <= j < i ==> StructLike(value.elems[j])
      invariant i > 0 ==> ret.Elems?
      invariant |ret.Items()| == i
      invariant forall j :: 0 <= j < i ==> ret.Items()[j] == FieldValue(Deref(value.elems[j]), fieldName)
    {
      var store: Any;
      var val := value.elems[i];
      match val {
        case Struct(_) =>
          store := FieldValue(val, fieldName);
        case Ptr(target) =>
          if target.Struct? {
            store := FieldValue(target, fieldName);
          } else {
            return NilSlice, Some(NewKindErr(UnsupportedMsg));
          }
        case _ =>
          return NilSlice, Some(NewKindErr(UnsupportedMsg));
      }
      ret := ret.Append(store);
      i := i + 1;
    }
    return ret, None;
  }

  /**
   * The named field of every element as an int64, 0 where it is not one;
   * SelectField's error is passed on with a nil slice. A successful call on
   * an empty slice returns a nil slice.
   */
  method GetInt(value: Value, fieldName: string) returns (res: GoSlice<int>, err: Option<KindError>)
    ensures err.None? <==> Selectable(value)
    ensures err.Some? ==> res == NilSlice && err.value.Error() == ""
    ensures err.None? ==> (res == NilSlice <==> |value.elems| == 0)
    ensures err.None? ==> |res.Items()| == |value.elems| && forall i :: 0 <= i < |value.elems| ==>
      res.Items()[i] == AsInt64(FieldValue(Deref(value.elems[i]), fieldName))
  {
    var selected, e := SelectField(value, fieldName);
    if e.Some? {
      return NilSlice, e;
    }
    var ret: GoSlice<int> := NilSlice;
    var k := 0;
    while k < |selected.items|
      invariant 0 <= k <= |selected.items|
      invariant ret == NilSlice <==> k == 0
      invariant |ret.Items()| == k
      invariant forall j :: 0 <= j < k ==> ret.Items()[j] == AsInt64(selected.items[j])
    {
      ret := ret.Append(AsInt64(selected.items[k]));
      k := k + 1;
    }
    return ret, e;
  }

  /**
   * The named field of every element as a string, "" where it is not one;
   * SelectField's error is passed on with a nil slice. A successful call on
   * an empty slice returns a nil slice.
   */
  method GetString(value: Value, fieldName: string) returns (res: GoSlice<string>, err: Option<KindError>)
    ensures err.None? <==> Selectable(value)
    ensures err.Some? ==> res == NilSlice && err.value.Error() == ""
    ensures err.None? ==> (res == NilSlice <==> |value.elems| == 0)
    ensures err.None? ==> |res.Items()| == |value.elems| && forall i :: 0 <= i < |value.elems| ==>
      res.Items()[i] == AsString(FieldValue(Deref(value.elems[i]), fieldName))
  {
    var selected, e := SelectField(value, fieldName);
    if e.Some? {
      return NilSlice, e;
    }
    var ret: GoSlice<string> := NilSlice;
    var k := 0;
    while k < |selected.items|
      invariant 0 <= k <= |selected.items|
      invariant ret == NilSlice <==> k == 0
      invariant |ret.Items()| == k
      invariant forall j :: 0 <= j < k ==> ret.Items()[j] == AsString(selected.items[j])
    {
      ret := ret.Append(AsString(selected.items[k]));
      k := k + 1;
    }
    return ret, e;
  }
}
