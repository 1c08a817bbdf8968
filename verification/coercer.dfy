/**
 * The value coercer: how the reader classifies a cell's JSON token into a column type and how it
 * materialises the cell's value. `token` is what the dynamic member get returned for the column:
 * None when the row has no such member (the JObject indexer's null).
 */
module Coercer {
  import opened Results
  import opened Json

  const Int32Min: int := -0x8000_0000
  const Int32Max: int := 0x7FFF_FFFF
  const Int64Min: int := -0x8000_0000_0000_0000
  const Int64Max: int := 0x7FFF_FFFF_FFFF_FFFF

  /**
   * The .NET types GetFieldType can report, plus the runtime types of the two tokens GetValue hands
   * out as they are (`JValue` for a JSON null, `JObject` for a nested object), which it never reports.
   */
  datatype FieldType =
    | ListOfInt | ListOfString | ListOfBool | ListOfJObject
    | Object | Boolean | Int64 | BigInteger | Double | String
    | JValueType | JObjectType

  /** A materialised cell value. `CToken` is a JToken handed out as it is (a JSON null or a nested object). */
  datatype Cell =
    | CBool(b: bool)
    | CInteger(n: int)
    | CDouble(tag: nat)
    | CString(s: string)
    | CToken(token: Json)
    | CIntList(ints: seq<int>)
    | CStringList(strings: seq<string>)
    | CBoolList(bools: seq<bool>)
    | CObjectList(objects: seq<Json>)

  /** Newtonsoft keeps an integer in a long when it fits and in a BigInteger otherwise. */
  function IntegerType(n: int): FieldType
  {
    if Int64Min <= n <= Int64Max then Int64 else BigInteger
  }

  /** The runtime type of a materialised value, `value.GetType()`. A handed-out token is a JObject or a JValue. */
  function CellType(c: Cell): FieldType
  {
    match c
    case CBool(_) => Boolean
    case CInteger(n) => IntegerType(n)
    case CDouble(_) => Double
    case CString(_) => String
    case CToken(j) => if j.JObject? then JObjectType else JValueType
    case CIntList(_) => ListOfInt
    case CStringList(_) => ListOfString
    case CBoolList(_) => ListOfBool
    case CObjectList(_) => ListOfJObject
  }

  /** The list type an array is given when its first element has kind `t`; None for the other kinds. */
  function ListTypeFor(t: TokenType): Option<FieldType>
  {
    match t
    case IntegerToken => Some(ListOfInt)
    case StringToken => Some(ListOfString)
    case BooleanToken => Some(ListOfBool)
    case ObjectToken => Some(ListOfJObject)
    case _ => None
  }

  predicate IsListType(t: FieldType)
  {
    t.ListOfInt? || t.ListOfString? || t.ListOfBool? || t.ListOfJObject?
  }

  predicate IsTokenType(t: FieldType)
  {
    t.JValueType? || t.JObjectType?
  }

  /** A value of runtime type `t` can be stored in a column of type `column`: the same type, or `object`. */
  predicate AssignableTo(t: FieldType, column: FieldType)
  {
    t == column || column == Object
  }

  /** The token is a non-empty array whose first element is an integer, string, boolean or object. */
  predicate IsTypedArray(token: Option<Json>)
  {
    token.Some? && token.value.JArray? && |token.value.items| > 0 && ListTypeFor(TypeOf(token.value.items[0])).Some?
  }

  /** The token is a non-empty array whose first element is of any other kind. */
  predicate IsUntypedArray(token: Option<Json>)
  {
    token.Some? && token.value.JArray? && |token.value.items| > 0 && ListTypeFor(TypeOf(token.value.items[0])).None?
  }

  predicate IsEmptyArray(token: Option<Json>)
  {
    token.Some? && token.value.JArray? && |token.value.items| == 0
  }

  /** The token is a JSON boolean, number or string: a scalar whose `.Value` is the underlying value. */
  predicate IsScalar(token: Option<Json>)
  {
    token.Some? && (token.value.JBool? || token.value.JInt? || token.value.JFloat? || token.value.JString?)
  }

  /** The JSON a materialised value stands for. */
  function Denotation(c: Cell): Json
  {
    match c
    case CBool(b) => JBool(b)
    case CInteger(n) => JInt(n)
    case CDouble(t) => JFloat(t)
    case CString(s) => JString(s)
    case CToken(j) => j
    case CIntList(xs) => JArray(seq(|xs|, i requires 0 <= i < |xs| => JInt(xs[i])))
    case CStringList(xs) => JArray(seq(|xs|, i requires 0 <= i < |xs| => JString(xs[i])))
    case CBoolList(xs) => JArray(seq(|xs|, i requires 0 <= i < |xs| => JBool(xs[i])))
    case CObjectList(xs) => JArray(xs)
  }

  /** Element conversions of `ToObject<List<T>>`: an element of another kind does not convert. */
  function AsInt32(j: Json): Option<int>
  {
    if j.JInt? && Int32Min <= j.n <= Int32Max then Some(j.n) else None
  }

  function AsString(j: Json): Option<string>
  {
    if j.JString? then Some(j.s) else None
  }

  function AsBool(j: Json): Option<bool>
  {
    if j.JBool? then Some(j.b) else None
  }

  function AsJObject(j: Json): Option<Json>
  {
    if j.JObject? then Some(j) else None
  }

  /** `ToObject<List<T>>`: the whole array converted element by element, or None if some element fails. */
  function ConvertElements<T>(items: seq<Json>, convert: Json -> Option<T>): (r: Option<seq<T>>)
    ensures r.Some? <==> forall i :: 0 <= i < |items| ==> convert(items[i]).Some?
    ensures r.Some? ==> |r.value| == |items|
    ensures r.Some? ==> forall i :: 0 <= i < |items| ==> convert(items[i]) == Some(r.value[i])
    decreases |items|
  {
    if |items| == 0 then Some([])
    else
      var x := convert(items[0]);
      var rest := ConvertElements(items[1..], convert);
      if x.Some? && rest.Some? then Some([x.value] + rest.value)
      else None
  }

  /**
   * GetFieldType's classification. Arrays are typed by their first element only; an empty array fails
   * on indexing element 0; an array of another first kind has no bindable `.Value` member; anything
   * whose `.Value` is null (a missing member, a JSON null, a nested object) is `object`.
   */
  function FieldTypeOf(token: Option<Json>): (r: Result<FieldType>)
    ensures token.None? ==> r == Ok(Object)
    ensures r.Err? <==> IsEmptyArray(token) || IsUntypedArray(token)
    ensures IsEmptyArray(token) ==> r == Err(ArgumentOutOfRange)
    ensures IsUntypedArray(token) ==> r == Err(RuntimeBinder)
    ensures r.Ok? && IsListType(r.value) <==> IsTypedArray(token)
    ensures IsTypedArray(token) ==> r == Ok(ListTypeFor(TypeOf(token.value.items[0])).value)
    ensures r == Ok(Object) <==> token.None? || token == Some(JNull) || token.value.JObject?
    ensures token.Some? && token.value.JBool? ==> r == Ok(Boolean)
    ensures token.Some? && token.value.JInt? ==> r == Ok(IntegerType(token.value.n))
    ensures token.Some? && token.value.JFloat? ==> r == Ok(Double)
    ensures token.Some? && token.value.JString? ==> r == Ok(String)
    ensures r.Ok? ==> !IsTokenType(r.value)
  {
    match token
    case None => Ok(Object)
    case Some(JArray(items)) =>
      if |items| == 0 then Err(ArgumentOutOfRange)
      else
        (match ListTypeFor(TypeOf(items[0]))
         case Some(t) => Ok(t)
         case None => Err(RuntimeBinder))
    case Some(JNull) => Ok(Object)
    case Some(JObject(_)) => Ok(Object)
    case Some(JBool(_)) => Ok(Boolean)
    case Some(JInt(n)) => Ok(IntegerType(n))
    case Some(JFloat(_)) => Ok(Double)
    case Some(JString(_)) => Ok(String)
  }

  /**
   * GetValue's materialisation. Typed arrays are converted whole; an array of another first kind
   * yields ""; a token whose `.Value` is null is handed out as the token itself; a missing member
   * fails, because `.Value` is read from a null reference.
   */
  function ValueOf(token: Option<Json>): (r: Result<Cell>)
    ensures token.None? ==> r == Err(RuntimeBinder)
    ensures token == Some(JNull) ==> r == Ok(CToken(JNull))
    ensures token.Some? && token.value.JObject? ==> r == Ok(CToken(token.value))
    ensures IsEmptyArray(token) ==> r == Err(ArgumentOutOfRange)
    ensures IsUntypedArray(token) ==> r == Ok(CString(""))
    ensures IsTypedArray(token) ==> (r.Err? <==> r == Err(Conversion))
    ensures IsScalar(token) ==> r.Ok? && !r.value.CToken? && Denotation(r.value) == token.value
  {
    match token
    case None => Err(RuntimeBinder)
    case Some(JArray(items)) =>
      if |items| == 0 then Err(ArgumentOutOfRange)
      else
        (match TypeOf(items[0])
         case IntegerToken =>
          (match ConvertElements(items, AsInt32)
           case Some(xs) => Ok(CIntList(xs))
           case None => Err(Conversion))
        case StringToken =>
          (match ConvertElements(items, AsString)
           case Some(xs) => Ok(CStringList(xs))
           case None => Err(Conversion))
        case BooleanToken =>
          (match ConvertElements(items, AsBool)
           case Some(xs) => Ok(CBoolList(xs))
           case None => Err(Conversion))
        case ObjectToken =>
          (match ConvertElements(items, AsJObject)
           case Some(xs) => Ok(CObjectList(xs))
           case None => Err(Conversion))
         case _ => Ok(CString("")))
    case Some(JNull) => Ok(CToken(JNull))
    case Some(JObject(members)) => Ok(CToken(JObject(members)))
    case Some(JBool(b)) => Ok(CBool(b))
    case Some(JInt(n)) => Ok(CInteger(n))
    case Some(JFloat(t)) => Ok(CDouble(t))
    case Some(JString(s)) => Ok(CString(s))
  }

  /** A typed array converts exactly when every element has its first element's kind (integers within int32). */
  lemma {:induction false} TypedArrayConverts(token: Option<Json>)
    requires IsTypedArray(token)
    ensures ValueOf(token).Ok? <==>
              forall i :: 0 <= i < |token.value.items| ==>
                TypeOf(token.value.items[i]) == TypeOf(token.value.items[0]) &&
                (token.value.items[i].JInt? ==> Int32Min <= token.value.items[i].n <= Int32Max)
  {
    var items := token.value.items;
    match TypeOf(items[0])
    case IntegerToken =>
      assert forall i :: 0 <= i < |items| ==> (AsInt32(items[i]).Some? <==>
        TypeOf(items[i]) == IntegerToken && Int32Min <= items[i].n <= Int32Max);
    case StringToken =>
      assert forall i :: 0 <= i < |items| ==> (AsString(items[i]).Some? <==> TypeOf(items[i]) == StringToken);
    case BooleanToken =>
      assert forall i :: 0 <= i < |items| ==> (AsBool(items[i]).Some? <==> TypeOf(items[i]) == BooleanToken);
    case ObjectToken =>
      assert forall i :: 0 <= i < |items| ==> (AsJObject(items[i]).Some? <==> TypeOf(items[i]) == ObjectToken);
  }

  lemma IntsDenoteArray(items: seq<Json>, xs: seq<int>)
    requires ConvertElements(items, AsInt32) == Some(xs)
    ensures Denotation(CIntList(xs)) == JArray(items)
  {
    assert forall i :: 0 <= i < |items| ==> AsInt32(items[i]) == Some(xs[i]);
  }

  lemma StringsDenoteArray(items: seq<Json>, xs: seq<string>)
    requires ConvertElements(items, AsString) == Some(xs)
    ensures Denotation(CStringList(xs)) == JArray(items)
  {
    assert forall i :: 0 <= i < |items| ==> AsString(items[i]) == Some(xs[i]);
  }

  lemma BoolsDenoteArray(items: seq<Json>, xs: seq<bool>)
    requires ConvertElements(items, AsBool) == Some(xs)
    ensures Denotation(CBoolList(xs)) == JArray(items)
  {
    assert forall i :: 0 <= i < |items| ==> AsBool(items[i]) == Some(xs[i]);
  }

  lemma ObjectsDenoteArray(items: seq<Json>, xs: seq<Json>)
    requires ConvertElements(items, AsJObject) == Some(xs)
    ensures Denotation(CObjectList(xs)) == JArray(items)
  {
    assert forall i :: 0 <= i < |items| ==> AsJObject(items[i]) == Some(xs[i]);
  }

  /**
   * Whatever GetValue materialises stands for the column's token itself: scalars unwrapped, tokens
   * kept, typed arrays converted element by element without loss. Only the "" for an array of
   * another first kind loses the token.
   */
  lemma ValueRoundTrip(token: Option<Json>)
    requires ValueOf(token).Ok? && !IsUntypedArray(token)
    ensures Denotation(ValueOf(token).value) == token.value
  {
    if token.value.JArray? {
      var items := token.value.items;
      match ValueOf(token).value
      case CIntList(xs) => IntsDenoteArray(items, xs);
      case CStringList(xs) => StringsDenoteArray(items, xs);
      case CBoolList(xs) => BoolsDenoteArray(items, xs);
      case CObjectList(xs) => ObjectsDenoteArray(items, xs);
      case _ =>
    }
  }

  /**
   * GetFieldType and GetValue agree: when the value materialises, its runtime type is assignable to
   * the reported column type. It is that very type for everything but a handed-out token (a JSON null
   * or a nested object), whose column type is `object`, the base type of its JValue or JObject; a
   * scalar always has both. The two part ways in exactly three places: an array of another first kind
   * has a value ("") but no type, a missing member has a type (object) but no value, and a typed
   * array with an element that does not convert has a list type but no value.
   */
  lemma TypeAndValueAgree(token: Option<Json>)
    ensures ValueOf(token).Ok? && !IsUntypedArray(token) ==>
              FieldTypeOf(token).Ok? && AssignableTo(CellType(ValueOf(token).value), FieldTypeOf(token).value)
    ensures ValueOf(token).Ok? && !IsUntypedArray(token) && !ValueOf(token).value.CToken? ==>
              FieldTypeOf(token) == Ok(CellType(ValueOf(token).value))
    ensures ValueOf(token).Ok? && ValueOf(token).value.CToken? ==>
              FieldTypeOf(token) == Ok(Object) && IsTokenType(CellType(ValueOf(token).value))
    ensures IsScalar(token) ==> ValueOf(token).Ok? && FieldTypeOf(token) == Ok(CellType(ValueOf(token).value))
    ensures IsUntypedArray(token) ==> ValueOf(token) == Ok(CString("")) && FieldTypeOf(token).Err?
    ensures token.None? ==> FieldTypeOf(token) == Ok(Object) && ValueOf(token).Err?
    ensures IsTypedArray(token) && ValueOf(token).Err? ==> FieldTypeOf(token).Ok? && ValueOf(token) == Err(Conversion)
    ensures FieldTypeOf(token).Ok? != ValueOf(token).Ok? <==>
              token.None? || IsUntypedArray(token) || (IsTypedArray(token) && ValueOf(token) == Err(Conversion))
  {
  }

  /** A nested object is handed out as its JObject, while its column is typed `object`. */
  lemma NestedObjectIsAssignableOnly()
    ensures ValueOf(Some(JObject([("x", JInt(1))]))) == Ok(CToken(JObject([("x", JInt(1))])))
    ensures CellType(CToken(JObject([("x", JInt(1))]))) == JObjectType
    ensures FieldTypeOf(Some(JObject([("x", JInt(1))]))) == Ok(Object)
  {
  }

  /** A typed array with an element of another kind has a column type but no value. */
  lemma MixedArrayHasTypeButNoValue()
    ensures FieldTypeOf(Some(JArray([JInt(1), JString("x")]))) == Ok(ListOfInt)
    ensures ValueOf(Some(JArray([JInt(1), JString("x")]))) == Err(Conversion)
  {
    TypedArrayConverts(Some(JArray([JInt(1), JString("x")])));
  }

  /** Arrays are typed by their first element alone: the rest of the array never affects the column type. */
  lemma ArrayTypedByFirstElement(a: seq<Json>, b: seq<Json>)
    requires |a| > 0 && |b| > 0 && TypeOf(a[0]) == TypeOf(b[0])
    ensures FieldTypeOf(Some(JArray(a))) == FieldTypeOf(Some(JArray(b)))
  {
  }
}
