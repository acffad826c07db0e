/** The duck-typed argument checks of the midpoint circle module: a coordinate
    argument must be an indexable pair whose two items `int()` accepts. The two
    Python exceptions the checks raise become the two kinds of `ErrorKind`. */
module Validation {

  /** An item as the checks see it: an int (Python's `True`/`False` are the
      ints 1/0), a string, or any other object that `int()` refuses with a
      TypeError (None, a tuple, a list, ...), which carries only its truthiness. */
  datatype Value = IntV(i: int) | StrV(s: string) | OtherV(truthy: bool)

  /** A coordinate argument: an object that cannot be subscripted, or a
      sequence-like object (tuple, list, string) given by its items. */
  datatype Arg = NotIndexable | Indexable(items: seq<Value>)

  datatype ErrorKind = TypeError | ValueError

  /** A result that is either returned or raised. */
  datatype Outcome<+T> = Ok(value: T) | Raise(error: ErrorKind)

  /** Python truthiness of an item. */
  predicate Truthy(v: Value) {
    match v
    case IntV(i) => i != 0
    case StrV(s) => s != ""
    case OtherV(t) => t
  }

  predicate IsDigit(ch: char) {
    '0' <= ch <= '9'
  }

  /** One or more ASCII digits. */
  predicate IsDigits(s: string) {
    |s| > 0 && IsDigit(s[0]) && (|s| == 1 || IsDigits(s[1..]))
  }

  /** A string `int()` parses: an optional sign followed by one or more ASCII digits. */
  predicate IsDecimalLiteral(s: string) {
    if |s| > 0 && (s[0] == '+' || s[0] == '-') then IsDigits(s[1..]) else IsDigits(s)
  }

  /** `_is_int`: does `int(arg)` succeed? */
  predicate IsInt(v: Value) {
    match v
    case IntV(_) => true
    case StrV(s) => IsDecimalLiteral(s)
    case OtherV(_) => false
  }

  /** `_is_indexable`: `arg[0] and len(arg) == 2`, where a failed subscript
      (not subscriptable, or empty) answers false. The first item is tested for
      truthiness, so a pair whose first item is 0 or "" is not "indexable". */
  predicate IsIndexable(a: Arg) {
    a.Indexable? && |a.items| > 0 && Truthy(a.items[0]) && |a.items| == 2
  }

  /** `_validate_input`: returns True, or raises TypeError for a bad shape and
      ValueError for items that are not integer-convertible. */
  function ValidateInput(a: Arg): (r: Outcome<bool>)
    ensures r.Ok? ==> r.value
  {
    if IsIndexable(a) then
      if IsInt(a.items[0]) && IsInt(a.items[1]) then Ok(true) else Raise(ValueError)
    else
      Raise(TypeError)
  }

  /** `_is_int` succeeds for every int, for a string of ASCII digits with at
      most one leading sign, and for nothing else: `int()` refuses other
      objects with a TypeError and other strings with a ValueError. */
  lemma IsIntAccepts(v: Value)
    ensures v.IntV? ==> IsInt(v)
    ensures v.OtherV? ==> !IsInt(v)
    ensures v.StrV? ==>
              (IsInt(v) <==>
                 var d := if |v.s| > 0 && (v.s[0] == '+' || v.s[0] == '-') then v.s[1..] else v.s;
                 |d| > 0 && forall i :: 0 <= i < |d| ==> '0' <= d[i] <= '9')
  {
    if v.StrV? {
      var d := if |v.s| > 0 && (v.s[0] == '+' || v.s[0] == '-') then v.s[1..] else v.s;
      DigitsAll(d);
    }
  }

  /** The recursive digit test agrees with "non-empty and every character a digit". */
  lemma {:induction false} DigitsAll(s: string)
    ensures IsDigits(s) <==> |s| > 0 && forall i :: 0 <= i < |s| ==> '0' <= s[i] <= '9'
    decreases |s|
  {
    if |s| > 1 {
      DigitsAll(s[1..]);
      assert forall i :: 1 <= i < |s| ==> s[i] == s[1..][i - 1];
    }
  }

  /** `_is_indexable` answers True exactly for an argument that has two items
      with a truthy first one; an argument that cannot be subscripted, or has
      no item 0, answers False instead of raising. */
  lemma IsIndexableProbe(a: Arg)
    ensures IsIndexable(a) <==> a.Indexable? && |a.items| == 2 && Truthy(a.items[0])
    ensures a.NotIndexable? || a.items == [] ==> !IsIndexable(a)
    ensures forall y :: !IsIndexable(Indexable([IntV(0), y])) && !IsIndexable(Indexable([StrV(""), y]))
  {
  }

  /** The three ways to a TypeError: not subscriptable, not exactly two items,
      or a falsy first item. The shape is checked before any item, so no item
      value can turn a TypeError into a ValueError. */
  lemma ValidateInputTypeError(a: Arg)
    ensures ValidateInput(a) == Raise(TypeError) <==>
              a.NotIndexable? || |a.items| != 2 || !Truthy(a.items[0])
  {
  }

  /** A ValueError is raised exactly for a well-shaped pair with an item that
      `int()` refuses. */
  lemma ValidateInputValueError(a: Arg)
    ensures ValidateInput(a) == Raise(ValueError) <==>
              a.Indexable? && |a.items| == 2 && Truthy(a.items[0]) &&
              (!IsInt(a.items[0]) || !IsInt(a.items[1]))
  {
  }

  /** Validation passes exactly for a pair of integer-convertible items whose
      first item is truthy. */
  lemma ValidateInputAccepts(a: Arg)
    ensures ValidateInput(a) == Ok(true) <==>
              a.Indexable? && |a.items| == 2 && Truthy(a.items[0]) &&
              IsInt(a.items[0]) && IsInt(a.items[1])
  {
  }

  /** An int pair is accepted exactly when its first coordinate is non-zero:
      a zero first coordinate is reported as a shape error. */
  lemma IntPairValidation(x: int, y: int)
    ensures ValidateInput(Indexable([IntV(x), IntV(y)])) ==
              (if x == 0 then Raise(TypeError) else Ok(true))
  {
  }

  /** The documented examples of the checks. */
  lemma ValidationExamples()
    ensures ValidateInput(Indexable([IntV(42), IntV(25)])) == Ok(true)
    ensures ValidateInput(Indexable([IntV(42), IntV(25), IntV(53)])) == Raise(TypeError)
    ensures ValidateInput(Indexable([StrV("a"), IntV(10)])) == Raise(ValueError)
    ensures ValidateInput(Indexable([IntV(0), IntV(5)])) == Raise(TypeError)
    ensures ValidateInput(Indexable([StrV(""), IntV(5)])) == Raise(TypeError)
    ensures ValidateInput(Indexable([StrV("-7"), StrV("12")])) == Ok(true)
    ensures IsIndexable(Indexable([IntV(10), IntV(10)]))
    ensures !IsIndexable(NotIndexable)
    ensures !IsIndexable(Indexable([]))
    ensures !IsInt(OtherV(true))
    ensures IsInt(StrV("10"))
    ensures !IsInt(StrV("c"))
  {
  }
}
