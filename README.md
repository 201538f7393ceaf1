# Cart eligibility evaluator, modelled in Dafny

The model covers `EligibilityService` from `src/eligibility.service.js`. It
decides whether a shopping cart meets a criteria object, using three kinds of
criteria entry:

- **Plain key, literal criterion.** `{price: 5}` compares `cart.price` with
  the literal by JavaScript loose equality (`==`).
- **Plain key, operator map.** `{price: {gt: 50, lte: 100}}` applies each
  operator to `cart.price`.
  - The operators are `gt`, `lt`, `gte`, `lte` and `in`.
  - The combinators `and` and `or` range over the entries of their own
    argument, recursively.
  - Any other operator name fails.
- **Dotted key.** In `{'items.qty': …}`, the field `cart.items` is read as an
  array; a single value is wrapped as a one-element array. The criterion is
  then tested on the `qty` property of its elements.

Every entry of the criteria must hold.

The evaluator is a pure computation, so it is modelled with datatypes,
functions and lemmas. There are five files:

- `js_strings.dfy` holds string facts:
  - how integers and array indices are spelled;
  - the conversion of a string to a number;
  - the code-unit order that `<` uses on two strings;
  - substring search.
- `js_values.dfy` holds the JavaScript values the evaluator sees. Each part
  of the language's semantics that the source relies on is written out:
  - truthiness and `instanceof Object`;
  - property access, which throws on `null` and `undefined`;
  - `Object.entries`, under which arrays and strings list their elements
    as `"0"`, `"1"`, …;
  - `==` with its coercions;
  - `<`, via ToPrimitive and ToNumber, where NaN makes every comparison
    false;
  - the SameValueZero test of `Array.prototype.includes`.
- `eligibility.dfy` holds the four methods of the service:
  - `CheckOp` is `checkConditionExceptBasicSubobject`;
  - `CheckBasic` is `checkConditionBasic`;
  - `CheckSubobject` is `checkConditionSubobject`;
  - `IsEligible` is `isEligible`.
- `eligibility_properties.dfy` holds what the evaluator promises, stated and
  proved over all inputs.
- `eligibility_examples.dfy` holds concrete carts and criteria.

### Errors

The source can throw a `TypeError`. The model keeps these throws, as the
`TypeError` alternative of `Outcome`. There are three causes:

- an `in` argument that has no `includes` method;
- `and` or `or` over `null` or `undefined`;
- a `null` or `undefined` element under a dotted key.

`every` and `some` stop at the first decisive callback. Their callbacks here
have no side effects, so `Every` and `Any` compute all the outcomes and
return the first decisive one. That is the same value.

### Behaviour a rule author may not expect

The model follows the code in each case.

- **Dotted operator maps.** A rule author may expect one element of the
  field to satisfy the whole map.
  - The code (lines 72-76) asks instead that *every operator is satisfied
    by some element*, and the element may differ from operator to operator.
  - `EligibilityProperties.DottedOperators` states the code's meaning.
  - `EligibilityProperties.SomeElementAllOperatorsSuffices` proves that the
    one-element reading is the stronger of the two.
  - `EligibilityExamples.PerOperatorNotPerElement` shows a cart on which the
    two readings differ.
- **Thrown errors.** A rule author may expect a malformed criterion to give
  `false`.
  - The code throws in the three cases listed under *Errors*.
  - `SafeCriteriaDecided` proves that criteria without those shapes never
    throw.
- **Order independence.** A rule author may expect the order of the
  criteria entries not to matter.
  - That holds when no entry throws (`IsEligibleSwap`).
  - Otherwise an earlier false entry hides a later throw
    (`ThrowingEntryOrder`).
- **Missing fields.** A rule author may expect every criterion on a field
  that the cart lacks to fail. The code reads the missing field as
  `undefined`, and only some criteria fail on it.
  - These fail (`AbsentFieldFails`): a dotted key, a literal other than
    `null` and `undefined`, and a non-empty operator map whose operators
    are all relational or unknown. A comparison with `undefined` meets NaN
    (`UndefinedFailsPlainTest`).
  - An empty operator map `{price: {}}` holds, because `every` over no
    entries is true (`EmptyMapOnAbsentField`).
  - `{country: {in: 'undefined'}}` holds, because `includes` on a string
    converts `undefined` to the text "undefined" (`InStringOnAbsentField`).

## Model

Five helpers carry no contract of their own: the wrapping of a field as
an array, and the callback lists, which are defined by comprehension. The
lemma named after each states what it means:

- `Eligibility.AsArray` (line 65): `SingleValueIsOneElementArray`.
- `Eligibility.BasicOverElements` (line 67): `LiteralRow` and
  `LiteralFirstMatch`.
- `Eligibility.OperatorsOverElements` (line 72): `OperatorRows`.
- `Eligibility.OperatorOverElements` (line 73): `OperatorRow`.
- `Eligibility.OperatorOutcomes` (line 107): `OperatorMapIsAnd`.

| member | source | states |
|---|---|---|
| JsStrings.ParseIndex | src/eligibility.service.js:74 | a property name reads as an array index iff it is a canonical decimal, and the index spells back to that name |
| JsStrings.StringToInt | src/eligibility.service.js:49 | a string converts to an integer exactly when it is empty (0), all digits (their decimal value), or a sign followed by digits (a minus sign negates the value); anything else is NaN |
| JsStrings.StringToIntOfIntString | src/eligibility.service.js:49 | converting the spelling of an integer back to a number gives that integer |
| JsStrings.StrLessIrreflexive | src/eligibility.service.js:13-19 | no string is below itself in code-unit order |
| JsStrings.StrLessTransitive | src/eligibility.service.js:13-19 | code-unit order on strings is transitive |
| JsStrings.StrLessTotal | src/eligibility.service.js:13-19 | of two different strings one is below the other |
| JsStrings.StrLess | src/eligibility.service.js:13-19 | a proper prefix of a string is below it, and no string is below one of its own prefixes |
| JsStrings.IsSubstring | src/eligibility.service.js:21 | a string contained in another is no longer than it, and every prefix of a string is contained in it |
| JsValues.Get | src/eligibility.service.js:102 | a missing key reads as undefined; a present key reads as the value of its first entry |
| JsValues.Truthy | src/eligibility.service.js:62 | a value is falsy exactly when it is undefined, null, false, 0 or the empty string |
| JsValues.IndexKey | src/eligibility.service.js:24 | the key under which an element sits parses back to its index and starts with a digit |
| JsValues.Property | src/eligibility.service.js:74 | access throws exactly on null and undefined; an object gives its own property; an array gives its element at an index key |
| JsValues.Entries | src/eligibility.service.js:24 | `Object.entries` of an object is its own properties in order; an array or string has one entry per element; a number or boolean has none |
| JsValues.EntriesOfNonObject | src/eligibility.service.js:24 | the entries of an array are its elements, those of a string its one-character strings, each under the name of its index; a number or boolean has none |
| JsValues.ToPrimitive | src/eligibility.service.js:13-19 | the result is never an object, and a primitive is unchanged |
| JsValues.ToNumber | src/eligibility.service.js:13-19 | a number converts to itself and undefined to NaN |
| JsValues.ToString | src/eligibility.service.js:13-19 | an empty array converts to the empty string, and a one-element array whose element is not null or undefined converts to the string of its element |
| JsValues.NumberOrString | src/eligibility.service.js:49 | a non-nullish operand of `==` is reduced to a number or a string |
| JsValues.LooseEq | src/eligibility.service.js:49 | same type means identical value; null and undefined equal only each other; a number equals a string exactly when the string converts to it, in either order |
| JsValues.SameValueZero | src/eligibility.service.js:21 | only identical primitives match, and those are also loosely equal; every boolean, number and string matches itself |
| JsValues.LessThan | src/eligibility.service.js:13-19 | integers compare as integers, strings by code units, and a comparison with undefined on either side is never decided |
| Eligibility.Every | src/eligibility.service.js:25-27 | `every` is true iff every callback is true |
| Eligibility.EveryDecidedBy | src/eligibility.service.js:25-27 | when `every` is not true, its result is the outcome of the first callback that is not true, and all earlier callbacks were true |
| Eligibility.Any | src/eligibility.service.js:32-34 | `some` is false iff every callback is false |
| Eligibility.AnyDecidedBy | src/eligibility.service.js:32-34 | when `some` is not false, its result is the outcome of the first callback that is not false, and all earlier callbacks were false |
| Eligibility.Includes | src/eligibility.service.js:21 | `includes` throws iff the list is neither an array nor a string; on an array it is true iff some element is SameValueZero to the value |
| Eligibility.CheckLeaf | src/eligibility.service.js:12-21 | an unknown operator gives false, and only `in` can throw |
| Eligibility.CheckOp | src/eligibility.service.js:10-39 | an unknown operator gives false; a combinator over null or undefined throws; a relational operator never throws |
| Eligibility.SubOutcomes | src/eligibility.service.js:24-26 | a combinator yields one callback outcome per entry of its argument |
| Eligibility.CheckBasic | src/eligibility.service.js:48-50 | a null or undefined literal matches exactly null and undefined, and an identical value always matches |
| Eligibility.BeforeDot | src/eligibility.service.js:61 | the field part of a key holds no dot, is a prefix of the key, and ends at the first dot |
| Eligibility.KeyField | src/eligibility.service.js:61 | the field of a key is the text before its first dot, or the whole key when it has no dot |
| Eligibility.KeySubfield | src/eligibility.service.js:61 | the subfield holds no dot and follows the field and a dot at the start of the key; where the key goes on, a dot follows it |
| Eligibility.BasicAt | src/eligibility.service.js:68 | the literal test on an element throws iff the element is null or undefined |
| Eligibility.OperatorAt | src/eligibility.service.js:74 | an operator on a null or undefined element throws, and an unknown operator on any other element gives false |
| Eligibility.CheckSubobject | src/eligibility.service.js:59-77 | a dotted key whose field is falsy fails |
| Eligibility.CheckCriterion | src/eligibility.service.js:94-110 | a plain key with a literal criterion never throws |
| Eligibility.IsEligible | src/eligibility.service.js:87-111 | empty criteria hold; the criteria hold iff every entry holds |
| Eligibility.CriteriaOutcomes | src/eligibility.service.js:94-110 | the criteria yield one outcome per entry, in entry order: the callback's outcome for that entry |
| EligibilityProperties.AndThen | src/eligibility.service.js:94 | sequential conjunction is true iff both parts are, and is plain `&&` when neither throws |
| EligibilityProperties.EveryAppend | src/eligibility.service.js:94 | `every` over a concatenation is the sequential conjunction of `every` over the two parts |
| EligibilityProperties.EveryOfDone | src/eligibility.service.js:107 | without a throw, `every` is the conjunction of the outcomes |
| EligibilityProperties.AnyOfDone | src/eligibility.service.js:67 | without a throw, `some` is the disjunction of the outcomes |
| EligibilityProperties.AnyTrue | src/eligibility.service.js:32-34 | `some` is true iff some outcome is true and every earlier one is false |
| EligibilityProperties.IsEligibleAppend | src/eligibility.service.js:87-111 | criteria listed one after another conjoin in order; without throws the result is the `&&` of the two |
| EligibilityProperties.CriteriaOutcomesAppend | src/eligibility.service.js:94 | the entry outcomes of concatenated criteria are the outcomes of the first part followed by those of the second |
| EligibilityProperties.SingleCriterion | src/eligibility.service.js:94-110 | criteria with one entry give exactly that entry's outcome |
| EligibilityProperties.PlainLiteral | src/eligibility.service.js:100-103 | a plain key with a literal criterion holds iff the cart's field loosely equals the literal |
| EligibilityProperties.DottedEntry | src/eligibility.service.js:96-98 | a dotted key gives exactly the outcome of checkConditionSubobject |
| EligibilityProperties.IsEligibleSwap | src/eligibility.service.js:87-111 | when neither part throws, swapping two groups of criteria entries does not change the result |
| EligibilityProperties.ThrowingEntryOrder | src/eligibility.service.js:94-110 | a false entry hides a later throwing entry, but not an earlier one |
| EligibilityProperties.SubOutcomesAreEntries | src/eligibility.service.js:24-26 | a combinator evaluates CheckOp on each entry of its argument, in order |
| EligibilityProperties.IndexKeyIsNoOperator | src/eligibility.service.js:36-37 | the index keys "0", "1", … of an array's or string's entries name no operator |
| EligibilityProperties.AndIsEvery | src/eligibility.service.js:22-28 | `and` holds iff its argument is not null or undefined and every entry holds |
| EligibilityProperties.OrIsSome | src/eligibility.service.js:29-35 | `or` holds iff some entry holds and every entry before it is false |
| EligibilityProperties.EmptyCombinators | src/eligibility.service.js:22-35 | an empty `and` holds and an empty `or` fails, for every cart value |
| EligibilityProperties.CombinatorOverNonObject | src/eligibility.service.js:22-35 | over an array, string, number or boolean, `and` holds iff there are no entries and `or` fails |
| EligibilityProperties.IndexEntriesFail | src/eligibility.service.js:24-26 | every entry of an array, string, number or boolean, read as an operator, fails |
| EligibilityProperties.AbsentFieldFails | src/eligibility.service.js:96-109 | on a cart without the field, a dotted key fails, and so do a literal other than null and undefined and a non-empty operator map of relational or unknown operators |
| EligibilityProperties.UndefinedFailsPlainTest | src/eligibility.service.js:12-19 | a relational or unknown operator fails on undefined |
| EligibilityProperties.EmptyMapOnAbsentField | src/eligibility.service.js:106-109 | an empty operator map holds on a cart that lacks the field |
| EligibilityProperties.InStringOnAbsentField | src/eligibility.service.js:20-21 | `in` with a string that contains "undefined" holds on a cart that lacks the field |
| EligibilityProperties.OperatorMapIsAnd | src/eligibility.service.js:106-109 | a plain-key operator map gives the same outcome as `and` over the same map |
| EligibilityProperties.RelationalComplements | src/eligibility.service.js:12-19 | on comparable operands `gt` is the negation of `lte` and `lt` the negation of `gte` |
| EligibilityProperties.RelationalNaN | src/eligibility.service.js:12-19 | when a comparison meets NaN, all four relational operators fail |
| EligibilityProperties.IntegerRelational | src/eligibility.service.js:12-19 | on integers the four operators are the integer comparisons, and `gte` is `gt` or equality |
| EligibilityProperties.StringRelational | src/eligibility.service.js:12-19 | on strings the operators follow code-unit order, `gte` is `gt` or equality, and `gt` and `lt` never hold together |
| EligibilityProperties.InIsMembership | src/eligibility.service.js:20-21 | `in` over an array is exact membership of a primitive value, and an object is never a member |
| EligibilityProperties.InIsStrict | src/eligibility.service.js:20-21 | `in` does not coerce: "5" is not in [5], although "5" == 5 |
| EligibilityProperties.LooseEqSymmetric | src/eligibility.service.js:49 | loose equality does not depend on operand order |
| EligibilityProperties.BooleanCoercion | src/eligibility.service.js:49 | a boolean compares as 0 or 1 |
| EligibilityProperties.NumberEqualsItsSpelling | src/eligibility.service.js:49 | a number and the string that spells it match as a literal criterion, in either role |
| EligibilityProperties.BeforeDotOfSegment | src/eligibility.service.js:61 | the field part of a key is the text before its first dot |
| EligibilityProperties.SplitKey | src/eligibility.service.js:61 | `f.g` followed by anything starting with a dot splits into field `f` and subfield `g` |
| EligibilityProperties.SingleValueIsOneElementArray | src/eligibility.service.js:65 | a truthy non-array field behaves exactly like a one-element array that holds it |
| EligibilityProperties.DottedLiteral | src/eligibility.service.js:66-70 | when no element is null or undefined, a dotted literal holds iff the subfield of some element loosely equals it |
| EligibilityProperties.LiteralRow | src/eligibility.service.js:67-69 | when no element is null or undefined, `some` over the literal tests holds iff some element matches |
| EligibilityProperties.DottedLiteralFirstMatch | src/eligibility.service.js:62-70 | on a truthy field, with null elements allowed, a dotted literal holds iff some element matches and every element before it is neither null, undefined nor a match |
| EligibilityProperties.LiteralFirstMatch | src/eligibility.service.js:67-69 | `some` over the literal tests is true iff some element is the first match and no earlier element is null or undefined |
| EligibilityProperties.DottedOperators | src/eligibility.service.js:71-76 | when nothing throws, a dotted operator map holds iff each operator is satisfied by some element |
| EligibilityProperties.OperatorRows | src/eligibility.service.js:72-76 | when nothing throws, `every` over the operators holds iff each operator holds on some element |
| EligibilityProperties.OperatorRow | src/eligibility.service.js:73-75 | when nothing throws, one operator holds on the field iff it holds on the subfield of some element |
| EligibilityProperties.SomeElementAllOperatorsSuffices | src/eligibility.service.js:71-76 | one element that satisfies the whole map is enough for a dotted operator map to hold |
| EligibilityProperties.SafeArgDecided | src/eligibility.service.js:10-39 | an operator whose `in` arguments are arrays or strings, and whose combinators have entries, never throws |
| EligibilityProperties.EntryDecided | src/eligibility.service.js:106-107 | each entry of a safe operator map is decided |
| EligibilityProperties.CriterionDecided | src/eligibility.service.js:94-110 | an entry with safe operators, and with no null element under a dotted key, never throws |
| EligibilityProperties.SafeCriteriaDecided | src/eligibility.service.js:87-111 | on safe criteria the evaluation never throws and is the conjunction of the entries |
| EligibilityExamples.PlainOperatorMap | src/eligibility.service.js:106-109 | a one-field cart tested by an operator map gives `every` over the operators applied to that field |
| EligibilityExamples.PriceAbove | src/eligibility.service.js:12-13 | `{price: {gt: bound}}` holds iff the price is above the bound (100 against 50 holds, 10 fails) |
| EligibilityExamples.CountryIn | src/eligibility.service.js:20-21 | `{country: {in: ['FR','DE']}}` holds exactly on 'FR' and 'DE' |
| EligibilityExamples.TotalBetween | src/eligibility.service.js:22-28 | `{total: {and: {gte: lo, lte: hi}}}` holds iff the total lies between the bounds |
| EligibilityExamples.UnknownOperatorFails | src/eligibility.service.js:36-37 | `{price: {foo: 1}}` fails on every cart |
| EligibilityExamples.NumericStringEqualsNumber | src/eligibility.service.js:48-50 | `{price: n}` holds on a cart whose price is the string that spells n, such as "5" for 5 |
| EligibilityExamples.TwoItems | src/eligibility.service.js:73-75 | over two items, a relational operator reads each item's quantity |
| EligibilityExamples.ItemsKey | src/eligibility.service.js:61 | the key `items.qty` splits into field `items` and subfield `qty` |
| EligibilityExamples.ItemsCriterion | src/eligibility.service.js:96-97 | the key `items.qty` tests the operator map over the elements of `items` |
| EligibilityExamples.SomeItemAtLeast | src/eligibility.service.js:71-76 | `{'items.qty': {gte: n}}` on two items holds iff some item has at least n (2 and 5 against 5 hold, 1 and 2 fail) |
| EligibilityExamples.ItemsBetween | src/eligibility.service.js:71-76 | `{gte: lo, lte: hi}` under `items.qty` holds iff some item reaches lo and some item, possibly another, stays within hi |
| EligibilityExamples.BoundRows | src/eligibility.service.js:72-76 | each bound of `{gte: lo, lte: hi}` is met iff one of the two items meets it |
| EligibilityExamples.AnyOfTwo | src/eligibility.service.js:73 | `some` over two decided outcomes is their disjunction |
| EligibilityExamples.EveryOfTwo | src/eligibility.service.js:72 | `every` over two decided outcomes is their conjunction |
| EligibilityExamples.NoItemBetween | src/eligibility.service.js:71-76 | an item below lo and an item above hi: neither satisfies both `gte lo` and `lte hi` |
| EligibilityExamples.PerOperatorNotPerElement | src/eligibility.service.js:71-76 | such a pair of items (quantities 2 and 8 against 5 and 7) still meets `{gte: lo, lte: hi}` |
| EligibilityExamples.ThirdSegmentIgnored | src/eligibility.service.js:61 | `a.b.c` has field `a` and subfield `b`; the rest is ignored |

## Left out

- Numbers are integers. Floating point, fractions, NaN literals, `-0` and
  the infinities are not modelled.
- Converting a string to a number reads only an optional sign and decimal
  digits.
  - Other numeric syntax reads as NaN: surrounding whitespace, fractions,
    exponents, hexadecimal and `Infinity`.
  - A string such as `" 5"` or `"5.0"` would equal 5 under the real
    coercion but does not in the model.
- Integers are always spelled in plain decimal. The exponent form that
  JavaScript uses from 10^21 on is not modelled.
- Values are JSON-shaped.
  - There are no functions, symbols, BigInts, dates or user classes.
  - There are no prototype properties: inherited names such as
    `constructor` or `toString` read as undefined.
  - Objects are assumed to have the default `toString` and `valueOf`.
- Strings are sequences of characters. The model does not distinguish
  UTF-16 code units from characters outside the Basic Multilingual Plane.
- On a string or array, only `length` and index properties are modelled.
  Other properties of a primitive read as undefined.
- Two objects are never the same object. The cart and the criteria are
  built apart, so `includes` never finds an object.
- `JsValues.LooseEq`: defined only when at most one operand is an object.
  That is the only way the evaluator uses `==`, because a literal criterion
  is never an object.
- `Eligibility.CheckSubobject`: its contract states only the falsy-field
  case. What it computes in the other cases is stated by
  `EligibilityProperties.DottedLiteral` and
  `EligibilityProperties.DottedOperators`, both under the assumption that
  nothing throws.
- The `that = this` capture and `module.exports` are not modelled. The
  service has no state, so they carry no behaviour.
- A stack overflow on very deeply nested `and`/`or` criteria is not
  modelled.
