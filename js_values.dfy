/**
  The JavaScript values the evaluator sees (a cart, a criteria object and
  everything inside them), with the parts of the language's semantics the
  evaluator relies on: truthiness, `instanceof Object`, property access,
  `Object.entries`, `==`, `<` and `Array.prototype.includes`.

  Values are JSON-shaped and numbers are integers.  An object is the ordered
  list of its own enumerable properties, in the order `Object.entries` lists
  them; a well-formed object has no key twice.
 */
module JsValues {
  import opened JsStrings

  datatype Value =
    | Undef
    | Null
    | Bool(b: bool)
    | Num(n: int)
    | Str(s: string)
    | Arr(elems: seq<Value>)
    | Obj(props: seq<(string, Value)>)

  type Props = seq<(string, Value)>

  /** `v instanceof Object`: arrays and objects, never a primitive. */
  predicate IsObject(v: Value) { v.Arr? || v.Obj? }

  /** `null` or `undefined`: the two values on which property access throws. */
  predicate Nullish(v: Value) { v.Undef? || v.Null? }

  /** `!!v`: false exactly on undefined, null, false, 0 and "" (NaN is not among the modelled numbers). */
  predicate Truthy(v: Value)
    ensures Truthy(v) <==> !(Nullish(v) || v == Bool(false) || v == Num(0) || v == Str(""))
  {
    match v
    case Undef | Null => false
    case Bool(b) => b
    case Num(n) => n != 0
    case Str(s) => s != ""
    case Arr(_) | Obj(_) => true
  }

  /** Which of the language's types a value has (typeof, with null and arrays apart). */
  function Kind(v: Value): nat {
    match v
    case Undef => 0
    case Null => 1
    case Bool(_) => 2
    case Num(_) => 3
    case Str(_) => 4
    case Arr(_) => 5
    case Obj(_) => 6
  }

  predicate HasKey(props: Props, key: string) {
    exists i :: 0 <= i < |props| && props[i].0 == key
  }

  /** `obj[key]` for an own property: the value of the first entry named key, else undefined. */
  function Get(props: Props, key: string): (v: Value)
    ensures !HasKey(props, key) ==> v == Undef
    ensures forall i :: (0 <= i < |props| && props[i].0 == key
                         && forall j :: 0 <= j < i ==> props[j].0 != key) ==> v == props[i].1
  {
    if props == [] then Undef
    else if props[0].0 == key then props[0].1
    else Get(props[1..], key)
  }

  /** The property name under which an array or a string holds its element i. */
  function IndexKey(i: nat): (k: string)
    ensures ParseIndex(k) == Some(i)
    ensures |k| >= 1 && IsDigit(k[0])
  {
    ParseIndexOfDecimal(i);
    DecimalString(i)
  }

  /**
    `v[name]`: None when the access throws a TypeError (v is null or
    undefined).  Objects yield their own property, arrays and strings their
    element or length; every other property of a primitive is undefined.
   */
  function Property(v: Value, name: string): (r: Option<Value>)
    ensures r.None? <==> Nullish(v)
    ensures v.Obj? ==> r == Some(Get(v.props, name))
    ensures v.Arr? ==> forall i :: 0 <= i < |v.elems| && name == IndexKey(i) ==> r == Some(v.elems[i])
  {
    match v
    case Undef | Null => None
    case Obj(ps) => Some(Get(ps, name))
    case Arr(xs) =>
      if name == "length" then Some(Num(|xs|))
      else (match ParseIndex(name)
            case Some(i) => if i < |xs| then Some(xs[i]) else Some(Undef)
            case None => Some(Undef))
    case Str(s) =>
      if name == "length" then Some(Num(|s|))
      else (match ParseIndex(name)
            case Some(i) => if i < |s| then Some(Str([s[i]])) else Some(Undef)
            case None => Some(Undef))
    case _ => Some(Undef)
  }

  /**
    `Object.entries(v)` for a v that is not null or undefined (on those it
    throws).  Arrays and strings list their elements under their indices;
    numbers and booleans have no entries.
   */
  function Entries(v: Value): (es: Props)
    requires !Nullish(v)
    ensures v.Obj? ==> es == v.props
    ensures v.Arr? ==> |es| == |v.elems|
    ensures v.Str? ==> |es| == |v.s|
    ensures !IsObject(v) && !v.Str? ==> es == []
  {
    if v.Obj? then v.props
    else if v.Arr? then seq(|v.elems|, i requires 0 <= i < |v.elems| => (IndexKey(i), v.elems[i]))
    else if v.Str? then seq(|v.s|, i requires 0 <= i < |v.s| => (IndexKey(i), Str([v.s[i]])))
    else []
  }

  /** The entries of anything but a plain object are named by their index. */
  lemma EntriesOfNonObject(v: Value)
    requires !Nullish(v) && !v.Obj?
    ensures forall i :: 0 <= i < |Entries(v)| ==> ParseIndex(Entries(v)[i].0) == Some(i)
    ensures v.Arr? ==> |Entries(v)| == |v.elems| && forall i :: 0 <= i < |v.elems| ==> Entries(v)[i].1 == v.elems[i]
    ensures v.Str? ==> |Entries(v)| == |v.s| && forall i :: 0 <= i < |v.s| ==> Entries(v)[i].1 == Str([v.s[i]])
    ensures !v.Arr? && !v.Str? ==> Entries(v) == []
  {
  }

  /** `ss.join(",")`. */
  function Join(ss: seq<string>): string {
    if ss == [] then ""
    else if |ss| == 1 then ss[0]
    else ss[0] + "," + Join(ss[1..])
  }

  /**
    `String(v)`: an array joins its elements with commas (null and undefined
    elements as ""), a plain object is "[object Object]".
   */
  function ToString(v: Value): (r: string)
    ensures v.Arr? && v.elems == [] ==> r == ""
    ensures v.Arr? && |v.elems| == 1 && !Nullish(v.elems[0]) ==> r == ToString(v.elems[0])
  {
    match v
    case Undef => "undefined"
    case Null => "null"
    case Bool(b) => if b then "true" else "false"
    case Num(n) => IntString(n)
    case Str(s) => s
    case Arr(xs) =>
      Join(seq(|xs|, i requires 0 <= i < |xs| => if Nullish(xs[i]) then "" else ToString(xs[i])))
    case Obj(_) => "[object Object]"
  }

  /** ToPrimitive: an array or a plain object becomes its string form. */
  function ToPrimitive(v: Value): (p: Value)
    ensures !IsObject(p)
    ensures !IsObject(v) ==> p == v
  {
    if IsObject(v) then Str(ToString(v)) else v
  }

  /** ToNumber; None is NaN. */
  function ToNumber(v: Value): (r: Option<int>)
    ensures v.Num? ==> r == Some(v.n)
    ensures v.Undef? ==> r.None?
  {
    match v
    case Undef => None
    case Null => Some(0)
    case Bool(b) => Some(if b then 1 else 0)
    case Num(n) => Some(n)
    case Str(s) => StringToInt(s)
    case _ => StringToInt(ToString(v))
  }

  /** The operand a non-nullish value is reduced to by `==`: booleans become numbers, objects strings. */
  function NumberOrString(v: Value): (p: Value)
    requires !Nullish(v)
    ensures p.Num? || p.Str?
  {
    match v
    case Bool(b) => Num(if b then 1 else 0)
    case Num(_) => v
    case Str(_) => v
    case _ => Str(ToString(v))
  }

  /**
    `x == y` (IsLooselyEqual) when at most one operand is an object, the only
    way the evaluator uses it.  Same type: equal values.  null and undefined
    equal each other and nothing else.  Otherwise booleans turn into 0 or 1,
    objects into strings, and a number meets a string through ToNumber.
   */
  function LooseEq(x: Value, y: Value): (r: bool)
    requires !(IsObject(x) && IsObject(y))
    ensures Kind(x) == Kind(y) ==> (r <==> x == y)
    ensures Nullish(x) || Nullish(y) ==> (r <==> Nullish(x) && Nullish(y))
    ensures x.Num? && y.Str? ==> (r <==> StringToInt(y.s) == Some(x.n))
    ensures x.Str? && y.Num? ==> (r <==> StringToInt(x.s) == Some(y.n))
  {
    if Kind(x) == Kind(y) then x == y
    else if Nullish(x) || Nullish(y) then Nullish(x) && Nullish(y)
    else
      var p, q := NumberOrString(x), NumberOrString(y);
      if p.Str? && q.Str? then p.s == q.s else ToNumber(p) == ToNumber(q)
  }

  /**
    SameValueZero, the equality of `Array.prototype.includes`: same type and
    same value.  Two objects are equal only when they are the same object;
    the cart and the criteria are built apart, so no object is shared.
   */
  predicate SameValueZero(x: Value, y: Value)
    ensures SameValueZero(x, y) ==> x == y && !IsObject(x) && LooseEq(x, y)
    ensures (x.Bool? || x.Num? || x.Str?) && x == y ==> SameValueZero(x, y)
  {
    !IsObject(x) && !IsObject(y) && x == y
  }

  /**
    IsLessThan(x, y): Some(x < y) when the operands are comparable, None
    (undefined) when one of them converts to NaN.  Two strings compare by
    code units, anything else as numbers.
   */
  function LessThan(x: Value, y: Value): (r: Option<bool>)
    ensures x.Num? && y.Num? ==> r == Some(x.n < y.n)
    ensures x.Str? && y.Str? ==> r == Some(StrLess(x.s, y.s))
    ensures x.Undef? || y.Undef? ==> r.None?
  {
    var p, q := ToPrimitive(x), ToPrimitive(y);
    if p.Str? && q.Str? then Some(StrLess(p.s, q.s))
    else
      match (ToNumber(p), ToNumber(q))
      case (Some(a), Some(b)) => Some(a < b)
      case _ => None
  }
}
