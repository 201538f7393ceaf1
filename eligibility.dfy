/**
  The eligibility evaluator: decides whether a cart satisfies a criteria
  object.  Each criteria entry is a plain field compared by loose equality,
  a plain field tested by an operator map (`gt`, `lt`, `gte`, `lte`, `in`,
  and the combinators `and` and `or`), or a dotted key `field.subfield` that
  is tested existentially over the elements of `cart[field]`.

  The evaluator can throw a TypeError (an `in` argument with no `includes`,
  a combinator over null or undefined, a null element under a dotted key);
  an evaluation therefore ends in an `Outcome`.  The callbacks passed to
  `every` and `some` are pure, so computing all of them and taking the first
  decisive one gives the value that short-circuit evaluation gives.
 */
module Eligibility {
  import opened JsStrings
  import opened JsValues

  datatype Outcome = Done(holds: bool) | TypeError

  /** `every` over callback outcomes in order: the first one that is not true decides. */
  function Every(os: seq<Outcome>): (r: Outcome)
    ensures r == Done(true) <==> forall i :: 0 <= i < |os| ==> os[i] == Done(true)
  {
    if os == [] then Done(true)
    else if os[0] == Done(true) then Every(os[1..])
    else os[0]
  }

  /** When `every` is not true, its result is the outcome of the first callback that is not true. */
  lemma {:induction false} EveryDecidedBy(os: seq<Outcome>)
    ensures Every(os) != Done(true) ==>
      exists i :: 0 <= i < |os| && os[i] == Every(os) && forall j :: 0 <= j < i ==> os[j] == Done(true)
  {
    if os != [] && os[0] == Done(true) {
      EveryDecidedBy(os[1..]);
      if Every(os) != Done(true) {
        var k :| 0 <= k < |os[1..]| && os[1..][k] == Every(os) && forall j :: 0 <= j < k ==> os[1..][j] == Done(true);
        assert os[k + 1] == Every(os);
      }
    }
  }

  /** `some` over callback outcomes in order: the first one that is not false decides. */
  function Any(os: seq<Outcome>): (r: Outcome)
    ensures r == Done(false) <==> forall i :: 0 <= i < |os| ==> os[i] == Done(false)
  {
    if os == [] then Done(false)
    else if os[0] == Done(false) then Any(os[1..])
    else os[0]
  }

  /** When `some` is not false, its result is the outcome of the first callback that is not false. */
  lemma {:induction false} AnyDecidedBy(os: seq<Outcome>)
    ensures Any(os) != Done(false) ==>
      exists i :: 0 <= i < |os| && os[i] == Any(os) && forall j :: 0 <= j < i ==> os[j] == Done(false)
  {
    if os != [] && os[0] == Done(false) {
      AnyDecidedBy(os[1..]);
      if Any(os) != Done(false) {
        var k :| 0 <= k < |os[1..]| && os[1..][k] == Any(os) && forall j :: 0 <= j < k ==> os[1..][j] == Done(false);
        assert os[k + 1] == Any(os);
      }
    }
  }

  predicate IsCombinator(op: string) { op == "and" || op == "or" }

  predicate IsRelational(op: string) { op == "gt" || op == "lt" || op == "gte" || op == "lte" }

  /** The operator names the evaluator knows; every other name fails. */
  predicate IsOperator(op: string) { IsRelational(op) || op == "in" || IsCombinator(op) }

  /** `list.includes(x)`: arrays search with SameValueZero, strings for a substring; nothing else has the method. */
  function Includes(list: Value, x: Value): (r: Outcome)
    ensures r == TypeError <==> !(list.Arr? || list.Str?)
    ensures list.Arr? ==> (r == Done(true) <==> exists i :: 0 <= i < |list.elems| && SameValueZero(list.elems[i], x))
  {
    match list
    case Arr(xs) => Done(exists i :: 0 <= i < |xs| && SameValueZero(xs[i], x))
    case Str(s) => Done(IsSubstring(ToString(x), s))
    case _ => TypeError
  }

  /** One non-combinator operator applied to the cart value x with argument arg. */
  function CheckLeaf(op: string, arg: Value, x: Value): (r: Outcome)
    requires !IsCombinator(op)
    ensures !IsOperator(op) ==> r == Done(false)
    ensures r == TypeError ==> op == "in"
  {
    if op == "gt" then Done(LessThan(arg, x) == Some(true))
    else if op == "lt" then Done(LessThan(x, arg) == Some(true))
    else if op == "gte" then Done(LessThan(x, arg) == Some(false))
    else if op == "lte" then Done(LessThan(arg, x) == Some(false))
    else if op == "in" then Includes(arg, x)
    else Done(false)
  }

  /**
    checkConditionExceptBasicSubobject: operator op with argument arg,
    applied to the cart value x.  `and` and `or` range over the entries of
    their argument.
   */
  function CheckOp(op: string, arg: Value, x: Value): (r: Outcome)
    decreases arg, 1
    ensures !IsOperator(op) ==> r == Done(false)
    ensures IsCombinator(op) && Nullish(arg) ==> r == TypeError
    ensures IsRelational(op) ==> r.Done?
  {
    if op == "and" then (if Nullish(arg) then TypeError else Every(SubOutcomes(arg, x)))
    else if op == "or" then (if Nullish(arg) then TypeError else Any(SubOutcomes(arg, x)))
    else CheckLeaf(op, arg, x)
  }

  /**
    The outcome of each entry of a combinator's argument, in entry order.  A
    string's entries are named "0", "1", ..., never a combinator, so they
    are evaluated by CheckLeaf directly.
   */
  function SubOutcomes(arg: Value, x: Value): (os: seq<Outcome>)
    requires !Nullish(arg)
    decreases arg, 0
    ensures |os| == |Entries(arg)|
  {
    if arg.Obj? then seq(|arg.props|, i requires 0 <= i < |arg.props| => CheckOp(arg.props[i].0, arg.props[i].1, x))
    else if arg.Arr? then seq(|arg.elems|, i requires 0 <= i < |arg.elems| => CheckOp(IndexKey(i), arg.elems[i], x))
    else if arg.Str? then seq(|arg.s|, i requires 0 <= i < |arg.s| => CheckLeaf(IndexKey(i), Str([arg.s[i]]), x))
    else []
  }

  /** checkConditionBasic: the cart value loosely equals the literal criterion. */
  function CheckBasic(criterion: Value, x: Value): (r: bool)
    requires !IsObject(criterion)
    ensures Nullish(criterion) ==> (r <==> Nullish(x))
    ensures x == criterion ==> r
  {
    LooseEq(x, criterion)
  }

  /** The outcome of each operator of an operator map applied to x, in entry order. */
  function OperatorOutcomes(criterion: Value, x: Value): seq<Outcome>
    requires IsObject(criterion)
  {
    var es := Entries(criterion);
    seq(|es|, j requires 0 <= j < |es| => CheckOp(es[j].0, es[j].1, x))
  }

  /** The first segment of a key split at '.'. */
  function BeforeDot(s: string): (r: string)
    ensures '.' !in r && r <= s
    ensures '.' in s ==> |r| < |s| && s[|r|] == '.'
    ensures '.' !in s ==> r == s
  {
    if s == [] || s[0] == '.' then [] else [s[0]] + BeforeDot(s[1..])
  }

  /** What follows the first '.' of a key. */
  function AfterDot(s: string): string
    requires '.' in s
  {
    s[|BeforeDot(s)| + 1..]
  }

  /** `criteriaKey.split('.')[0]`. */
  function KeyField(key: string): (f: string)
    ensures '.' !in f && f <= key
    ensures '.' in key ==> key[|f|] == '.'
    ensures '.' !in key ==> f == key
  {
    BeforeDot(key)
  }

  /** `criteriaKey.split('.')[1]`, defined when the key holds a '.'. */
  function KeySubfield(key: string): (sub: string)
    requires '.' in key
    ensures '.' !in sub
    ensures KeyField(key) + "." + sub <= key
    ensures |KeyField(key) + "." + sub| < |key| ==> key[|KeyField(key) + "." + sub|] == '.'
  {
    var f, rest := BeforeDot(key), AfterDot(key);
    assert key == f + "." + rest;
    BeforeDot(rest)
  }

  /** `Array.isArray(v) ? v : [v]`: a single value is handled as the one-element array holding it. */
  function AsArray(v: Value): seq<Value> {
    if v.Arr? then v.elems else [v]
  }

  /** The literal test of a dotted key on one element: `element[sub] == criterion`. */
  function BasicAt(criterion: Value, element: Value, sub: string): (r: Outcome)
    requires !IsObject(criterion)
    ensures r == TypeError <==> Nullish(element)
  {
    match Property(element, sub)
    case None => TypeError
    case Some(v) => Done(CheckBasic(criterion, v))
  }

  /** One operator of a dotted key's operator map on one element: `op` applied to `element[sub]`. */
  function OperatorAt(op: string, arg: Value, element: Value, sub: string): (r: Outcome)
    ensures Nullish(element) ==> r == TypeError
    ensures !Nullish(element) && !IsOperator(op) ==> r == Done(false)
  {
    match Property(element, sub)
    case None => TypeError
    case Some(v) => CheckOp(op, arg, v)
  }

  /** For one operator of the map, its outcome on each element of the field, in order. */
  function OperatorOverElements(op: string, arg: Value, elems: seq<Value>, sub: string): seq<Outcome> {
    seq(|elems|, i requires 0 <= i < |elems| => OperatorAt(op, arg, elems[i], sub))
  }

  /** The literal test on each element of the field, in order. */
  function BasicOverElements(criterion: Value, elems: seq<Value>, sub: string): seq<Outcome>
    requires !IsObject(criterion)
  {
    seq(|elems|, i requires 0 <= i < |elems| => BasicAt(criterion, elems[i], sub))
  }

  /** For each operator of the map, whether some element satisfies it, in entry order. */
  function OperatorsOverElements(criterion: Value, elems: seq<Value>, sub: string): seq<Outcome>
    requires IsObject(criterion)
  {
    var es := Entries(criterion);
    seq(|es|, j requires 0 <= j < |es| => Any(OperatorOverElements(es[j].0, es[j].1, elems, sub)))
  }

  /**
    checkConditionSubobject: the dotted key `field.subfield`.  A falsy field
    fails; otherwise a literal must loosely equal the subfield of some
    element, and each operator of a map must hold on the subfield of some
    element, not necessarily the same element for every operator.
   */
  function CheckSubobject(key: string, criterion: Value, cart: Props): (r: Outcome)
    requires '.' in key
    ensures !Truthy(Get(cart, KeyField(key))) ==> r == Done(false)
  {
    var field := Get(cart, KeyField(key));
    if !Truthy(field) then Done(false)
    else
      var elems, sub := AsArray(field), KeySubfield(key);
      if !IsObject(criterion) then Any(BasicOverElements(criterion, elems, sub))
      else Every(OperatorsOverElements(criterion, elems, sub))
  }

  /** The callback of isEligible for one criteria entry. */
  function CheckCriterion(cart: Props, key: string, criterion: Value): (r: Outcome)
    ensures '.' !in key && !IsObject(criterion) ==> r.Done?
  {
    if '.' in key then CheckSubobject(key, criterion, cart)
    else if !IsObject(criterion) then Done(CheckBasic(criterion, Get(cart, key)))
    else Every(OperatorOutcomes(criterion, Get(cart, key)))
  }

  /** isEligible: every entry of the criteria holds on the cart, checked in entry order. */
  function IsEligible(cart: Props, criteria: Props): (r: Outcome)
    ensures criteria == [] ==> r == Done(true)
    ensures r == Done(true) <==>
      forall i :: 0 <= i < |criteria| ==> CheckCriterion(cart, criteria[i].0, criteria[i].1) == Done(true)
  {
    var os := CriteriaOutcomes(cart, criteria);
    assert forall i :: 0 <= i < |criteria| ==> os[i] == CheckCriterion(cart, criteria[i].0, criteria[i].1);
    Every(os)
  }

  /** The outcome of each criteria entry, in entry order. */
  function CriteriaOutcomes(cart: Props, criteria: Props): (os: seq<Outcome>)
    ensures |os| == |criteria|
    ensures forall i :: 0 <= i < |criteria| ==> os[i] == CheckCriterion(cart, criteria[i].0, criteria[i].1)
  {
    if criteria == [] then []
    else [CheckCriterion(cart, criteria[0].0, criteria[0].1)] + CriteriaOutcomes(cart, criteria[1..])
  }
}
