/**
 * The hide-if / disable-if condition language of HTML form fields.
 *
 * A condition is written as a nested PHP array whose first element names an
 * operator: `['AND', c1, c2, ...]`, `['OR', ...]`, `['NAND', ...]`,
 * `['NOR', ...]`, `['NOT', c]`, `['===', field, value]`, `['!==', field, value]`.
 * Validation turns such an array into a `Cond`; evaluation reads other
 * fields' submitted values through the parent form; the client-side pass
 * rewrites every field key into that field's submission name.
 */
module CondState {
  import opened Wrappers
  import opened PhpValues

  datatype BoolOp = AND | OR | NAND | NOR

  /** `===` and `!==`. */
  datatype CmpOp = Same | NotSame

  datatype Operator = Combinator(b: BoolOp) | Negation | Comparison(c: CmpOp)

  /** A validated condition. */
  datatype Cond =
    | Combine(op: BoolOp, children: seq<Cond>)
    | Not(child: Cond)
    | Compare(cmp: CmpOp, field: string, value: string)

  /** Why a raw condition array was rejected (the exception's inner message). */
  datatype CondError =
    | UnknownOperation
    | NotArity                          // "NOT takes exactly one parameter"
    | CompareArity(cmp: CmpOp)          // "$op takes exactly two parameters"
    | CompareNotStrings(cmp: CmpOp)     // "Parameters for $op must be strings"
    | ExpectedArray(index: nat)         // "Expected array, found $type at index $i"
    | NotAnArray                        // the condition itself is not an array

  function OperatorName(op: Operator): string {
    match op
    case Combinator(AND) => "AND"
    case Combinator(OR) => "OR"
    case Combinator(NAND) => "NAND"
    case Combinator(NOR) => "NOR"
    case Negation => "NOT"
    case Comparison(Same) => "==="
    case Comparison(NotSame) => "!=="
  }

  /** The `switch ($op)` dispatch, matching only the seven operator strings. */
  function ParseOperator(v: Value): (r: Option<Operator>)
    ensures r.Some? ==> v == Str(OperatorName(r.value))
    ensures v.Str? && v.s in {"AND", "OR", "NAND", "NOR", "NOT", "===", "!=="} ==> r.Some?
  {
    if !v.Str? then None
    else if v.s == "AND" then Some(Combinator(AND))
    else if v.s == "OR" then Some(Combinator(OR))
    else if v.s == "NAND" then Some(Combinator(NAND))
    else if v.s == "NOR" then Some(Combinator(NOR))
    else if v.s == "NOT" then Some(Negation)
    else if v.s == "===" then Some(Comparison(Same))
    else if v.s == "!==" then Some(Comparison(NotSame))
    else None
  }

  // ---------------------------------------------------------------------
  // Validation (validateCondState)
  // ---------------------------------------------------------------------

  /**
   * Checks a raw condition array. The array's entries are read in order:
   * the first is the operator, the rest are its parameters.
   */
  function Validate(v: Value): Result<Cond, CondError>
    decreases v, 1
  {
    if !v.Arr? then Failure(NotAnArray)
    else if |v.items| == 0 then Failure(UnknownOperation)
    else
      match ParseOperator(v.items[0].val)
      case None => Failure(UnknownOperation)
      case Some(Negation) =>
        if |v.items| != 2 then Failure(NotArity)
        else
          var cs :- ValidateChildren(v, 1);
          Success(Not(cs[0]))
      case Some(Combinator(b)) =>
        var cs :- ValidateChildren(v, 1);
        Success(Combine(b, cs))
      case Some(Comparison(c)) =>
        if |v.items| != 3 then Failure(CompareArity(c))
        else if v.items[1].val.Str? && v.items[2].val.Str? then
          Success(Compare(c, v.items[1].val.s, v.items[2].val.s))
        else Failure(CompareNotStrings(c))
  }

  /** The `foreach` over the parameters from entry `i` on: each must be an array that validates. */
  function ValidateChildren(v: Value, i: nat): (r: Result<seq<Cond>, CondError>)
    requires v.Arr? && 1 <= i <= |v.items|
    ensures r.Success? ==> |r.value| == |v.items| - i
    decreases v, 0, |v.items| - i
  {
    if i == |v.items| then Success([])
    else if !v.items[i].val.Arr? then Failure(ExpectedArray(i - 1))
    else
      var c :- Validate(v.items[i].val);
      var cs :- ValidateChildren(v, i + 1);
      Success([c] + cs)
  }

  /** The raw array a condition is written as. */
  function ToRaw(c: Cond): (r: Value)
    ensures r.Arr?
    decreases c, 1
  {
    match c
    case Combine(op, cs) => List([Str(OperatorName(Combinator(op)))] + RawChildren(c, 0))
    case Not(x) => List([Str("NOT"), ToRaw(x)])
    case Compare(cmp, f, val) => List([Str(OperatorName(Comparison(cmp))), Str(f), Str(val)])
  }

  function RawChildren(c: Cond, i: nat): (r: seq<Value>)
    requires c.Combine? && i <= |c.children|
    ensures |r| == |c.children| - i
    ensures forall k :: 0 <= k < |r| ==> r[k] == ToRaw(c.children[i + k])
    decreases c, 0, |c.children| - i
  {
    if i == |c.children| then []
    else
      assert c.children[i] in c.children;
      var rest := RawChildren(c, i + 1);
      assert forall k :: 0 < k <= |rest| ==> ([ToRaw(c.children[i])] + rest)[k] == rest[k - 1];
      [ToRaw(c.children[i])] + rest
  }

  // ---------------------------------------------------------------------
  // Field lookup (getNearestField / getNearestFieldValue)
  // ---------------------------------------------------------------------

  /** What the condition code needs to know about another field of the form. */
  datatype FieldRef = FieldRef(
    key: string,          // its 'fieldname' parameter: the key of its value in the submitted data
    name: string,         // getName(): the name it is submitted under
    invertedCheck: bool)  // a check field whose 'invert' parameter is set

  /** The parent form's fields, keyed by descriptor key (hasField / getField). */
  type FormTable = map<string, FieldRef>

  /** The submitted data, keyed by descriptor key. */
  type FormData = map<string, Value>

  datatype LookupError = NoParent | NoSuchField(name: string)

  function GetField(form: FormTable, name: string): Result<FieldRef, LookupError> {
    if name in form then Success(form[name]) else Failure(NoSuchField(name))
  }

  predicate HasWpPrefix(name: string) {
    |name| >= 2 && name[..2] == "wp"
  }

  /**
   * The field a condition names. With `backCompat`, a name starting with
   * "wp" that the form does not have is retried without those two letters.
   */
  function NearestField(parent: Option<FormTable>, name: string, backCompat: bool): Result<FieldRef, LookupError> {
    if parent.None? then Failure(NoParent)
    else if backCompat && HasWpPrefix(name) && name !in parent.value then GetField(parent.value, name[2..])
    else GetField(parent.value, name)
  }

  /**
   * The submitted value of that field; with `asDisplay`, an inverted check
   * field's value is negated.
   */
  function NearestFieldValue(parent: Option<FormTable>, data: FormData, name: string, asDisplay: bool, backCompat: bool)
    : Result<Value, LookupError>
  {
    var field :- NearestField(parent, name, backCompat);
    var value := if field.key in data then data[field.key] else Null;
    if asDisplay && field.invertedCheck then Success(Bool(!Truthy(value))) else Success(value)
  }

  /**
   * The value a condition compares against: the submitted data under the
   * found field's 'fieldname' key, null when the data has no such key;
   * with `asDisplay`, an inverted check field reads as the negation of
   * that value's truthiness. The lookup fails iff the field is not found.
   */
  lemma NearestFieldValueSpec(parent: Option<FormTable>, data: FormData, name: string, asDisplay: bool, backCompat: bool)
    ensures NearestFieldValue(parent, data, name, asDisplay, backCompat).Failure? <==>
      NearestField(parent, name, backCompat).Failure?
    ensures NearestField(parent, name, backCompat).Success? ==>
      var f := NearestField(parent, name, backCompat).value;
      var submitted := if f.key in data then data[f.key] else Null;
      NearestFieldValue(parent, data, name, asDisplay, backCompat) ==
        Success(if asDisplay && f.invertedCheck then Bool(!Truthy(submitted)) else submitted)
  {
  }

  /**
   * `===` against "1" on an inverted check field holds iff the submitted
   * value is not truthy; on any other field it compares the submitted
   * value's string form.
   */
  lemma CompareReadsSubmittedValue(form: FormTable, data: FormData, name: string, val: string)
    requires name in form
    ensures var f := form[name];
      var submitted := if f.key in data then data[f.key] else Null;
      (f.invertedCheck ==> Eval(Some(form), data, Compare(Same, name, "1")) == Success(!Truthy(submitted))) &&
      (!f.invertedCheck ==> Eval(Some(form), data, Compare(Same, name, val)) == Success(val == ToStr(submitted)))
  {
  }

  // ---------------------------------------------------------------------
  // Evaluation (checkStateRecurse)
  // ---------------------------------------------------------------------

  /** `$valueChk`: the child result that decides a combinator early. */
  function Chk(op: BoolOp): bool {
    match op
    case AND => false
    case OR => true
    case NAND => false
    case NOR => true
  }

  /** `$valueRet`: the result when no child decided early. */
  function Ret(op: BoolOp): bool {
    match op
    case AND => true
    case OR => false
    case NAND => false
    case NOR => true
  }

  /** Short-circuit evaluation of a condition against the submitted data. */
  function Eval(parent: Option<FormTable>, data: FormData, c: Cond): Result<bool, LookupError>
    decreases c, 1
  {
    match c
    case Combine(op, cs) => EvalFrom(parent, data, c, 0)
    case Not(x) =>
      var b :- Eval(parent, data, x);
      Success(!b)
    case Compare(cmp, f, val) =>
      var v :- NearestFieldValue(parent, data, f, true, true);
      var testValue := ToStr(v);
      if cmp == Same then Success(val == testValue) else Success(val != testValue)
  }

  /** The loop over a combinator's children from index `i`, returning at the first deciding child. */
  function EvalFrom(parent: Option<FormTable>, data: FormData, c: Cond, i: nat): Result<bool, LookupError>
    requires c.Combine? && i <= |c.children|
    decreases c, 0, |c.children| - i
  {
    if i == |c.children| then Success(Ret(c.op))
    else
      var b :- Eval(parent, data, c.children[i]);
      if b == Chk(c.op) then Success(!Ret(c.op)) else EvalFrom(parent, data, c, i + 1)
  }

  /** Every field the condition mentions can be found. */
  ghost predicate Resolves(parent: Option<FormTable>, c: Cond)
    decreases c
  {
    match c
    case Combine(op, cs) => forall k :: 0 <= k < |cs| ==> Resolves(parent, cs[k])
    case Not(x) => Resolves(parent, x)
    case Compare(_, f, _) => NearestField(parent, f, true).Success?
  }

  /** The meaning of a condition whose fields all resolve: the reference for Eval. */
  ghost function Denote(parent: Option<FormTable>, data: FormData, c: Cond): bool
    requires Resolves(parent, c)
    decreases c
  {
    match c
    case Combine(AND, cs) => forall k :: 0 <= k < |cs| ==> Denote(parent, data, cs[k])
    case Combine(OR, cs) => exists k :: 0 <= k < |cs| && Denote(parent, data, cs[k])
    case Combine(NAND, cs) => exists k :: 0 <= k < |cs| && !Denote(parent, data, cs[k])
    case Combine(NOR, cs) => !exists k :: 0 <= k < |cs| && Denote(parent, data, cs[k])
    case Not(x) => !Denote(parent, data, x)
    case Compare(Same, f, val) => val == ToStr(NearestFieldValue(parent, data, f, true, true).value)
    case Compare(NotSame, f, val) => val != ToStr(NearestFieldValue(parent, data, f, true, true).value)
  }

  // ---------------------------------------------------------------------
  // Client-side rewriting (parseCondState)
  // ---------------------------------------------------------------------

  /**
   * The raw array sent to the browser: same operators and shape, each
   * field key replaced by the submission name of the field it resolves to.
   */
  function ParseCondState(parent: Option<FormTable>, c: Cond): Result<Value, LookupError>
    decreases c, 1
  {
    match c
    case Combine(op, cs) =>
      var rs :- ParseChildren(parent, c, 0);
      Success(List([Str(OperatorName(Combinator(op)))] + rs))
    case Not(x) =>
      var r :- ParseCondState(parent, x);
      Success(List([Str("NOT"), r]))
    case Compare(cmp, f, val) =>
      var field :- NearestField(parent, f, true);
      Success(List([Str(OperatorName(Comparison(cmp))), Str(field.name), Str(val)]))
  }

  function ParseChildren(parent: Option<FormTable>, c: Cond, i: nat): (r: Result<seq<Value>, LookupError>)
    requires c.Combine? && i <= |c.children|
    ensures r.Success? ==> |r.value| == |c.children| - i
    decreases c, 0, |c.children| - i
  {
    if i == |c.children| then Success([])
    else
      var r :- ParseCondState(parent, c.children[i]);
      var rs :- ParseChildren(parent, c, i + 1);
      Success([r] + rs)
  }

  /** The condition with every field key replaced by its resolved submission name. */
  ghost function Renamed(parent: Option<FormTable>, c: Cond): Cond
    requires Resolves(parent, c)
    decreases c
  {
    match c
    case Combine(op, cs) => Combine(op, seq(|cs|, k requires 0 <= k < |cs| => Renamed(parent, cs[k])))
    case Not(x) => Not(Renamed(parent, x))
    case Compare(cmp, f, val) => Compare(cmp, NearestField(parent, f, true).value.name, val)
  }

  /** The condition with every field key blanked: its operators, shape and compared values. */
  function Erase(c: Cond): Cond
    decreases c
  {
    match c
    case Combine(op, cs) => Combine(op, seq(|cs|, k requires 0 <= k < |cs| => Erase(cs[k])))
    case Not(x) => Not(Erase(x))
    case Compare(cmp, _, val) => Compare(cmp, "", val)
  }

  /** The field keys a condition mentions, left to right. */
  function Fields(c: Cond): seq<string>
    decreases c, 1
  {
    match c
    case Combine(_, _) => FieldsFrom(c, 0)
    case Not(x) => Fields(x)
    case Compare(_, f, _) => [f]
  }

  function FieldsFrom(c: Cond, i: nat): seq<string>
    requires c.Combine? && i <= |c.children|
    decreases c, 0, |c.children| - i
  {
    if i == |c.children| then [] else Fields(c.children[i]) + FieldsFrom(c, i + 1)
  }

  // ---------------------------------------------------------------------
  // Lemmas: validation
  // ---------------------------------------------------------------------

  lemma ParseOperatorName(op: Operator)
    ensures ParseOperator(Str(OperatorName(op))) == Some(op)
  {
  }

  /** Every condition's raw array validates back to the same condition. */
  lemma {:induction false} ValidateToRaw(c: Cond)
    ensures Validate(ToRaw(c)) == Success(c)
    decreases c, 1
  {
    var v := ToRaw(c);
    match c
    case Combine(op, cs) =>
      ParseOperatorName(Combinator(op));
      CombineRawItems(c);
      forall k | 1 <= k <= |cs| ensures v.items[k].val.Arr? && Validate(v.items[k].val) == Success(cs[k - 1]) {
        ValidateToRaw(cs[k - 1]);
      }
      ValidateChildrenOf(v, cs, 0);
      assert cs[0..] == cs;
    case Not(x) =>
      ParseOperatorName(Negation);
      assert Values(v.items) == [Str("NOT"), ToRaw(x)];
      assert |v.items| == 2;
      assert v.items[0].val == Str("NOT");
      assert v.items[1].val == ToRaw(x);
      ValidateToRaw(x);
      assert v.items[1].val.Arr?;
      assert Validate(v.items[1].val) == Success(x);
      assert ValidateChildren(v, 2) == Success([]);
      assert ValidateChildren(v, 1) == Success([x] + []);
      assert [x] + [] == [x];
    case Compare(cmp, f, val) =>
      ParseOperatorName(Comparison(cmp));
      assert Values(v.items) == [Str(OperatorName(Comparison(cmp))), Str(f), Str(val)];
      assert v.items[0].val == Str(OperatorName(Comparison(cmp)));
      assert v.items[1].val == Str(f) && v.items[2].val == Str(val);
  }

  /** Parameters that are arrays validating to the given conditions validate to exactly those, in order. */
  lemma {:induction false} ValidateChildrenOf(v: Value, cs: seq<Cond>, i: nat)
    requires v.Arr? && |v.items| == |cs| + 1 && i <= |cs|
    requires forall k :: 1 <= k <= |cs| ==> v.items[k].val.Arr? && Validate(v.items[k].val) == Success(cs[k - 1])
    ensures ValidateChildren(v, i + 1) == Success(cs[i..])
    decreases |cs| - i
  {
    if i < |cs| {
      ValidateChildrenOf(v, cs, i + 1);
      assert v.items[i + 1].val.Arr? && Validate(v.items[i + 1].val) == Success(cs[i]);
      ValidateChildrenStep(v, i + 1, cs[i], cs[i + 1..]);
      assert cs[i..] == [cs[i]] + cs[i + 1..];
    } else {
      assert i + 1 == |v.items| && cs[i..] == [];
    }
  }

  /** One step of the parameter loop: a parameter validating to `c`, then the rest validating to `rest`. */
  lemma ValidateChildrenStep(v: Value, i: nat, c: Cond, rest: seq<Cond>)
    requires v.Arr? && 1 <= i < |v.items|
    requires v.items[i].val.Arr? && Validate(v.items[i].val) == Success(c)
    requires ValidateChildren(v, i + 1) == Success(rest)
    ensures ValidateChildren(v, i) == Success([c] + rest)
  {
  }

  /** The array form of a combinator: its name, then each child's array form. */
  lemma CombineRawItems(c: Cond)
    requires c.Combine?
    ensures ToRaw(c).Arr? && |ToRaw(c).items| == |c.children| + 1
    ensures ToRaw(c).items[0].val == Str(OperatorName(Combinator(c.op)))
    ensures forall k :: 1 <= k <= |c.children| ==> ToRaw(c).items[k].val == ToRaw(c.children[k - 1])
  {
    var v := ToRaw(c);
    var vals := [Str(OperatorName(Combinator(c.op)))] + RawChildren(c, 0);
    assert Values(v.items) == vals;
    forall k | 1 <= k <= |c.children| ensures v.items[k].val == ToRaw(c.children[k - 1]) {
      assert v.items[k].val == Values(v.items)[k] == vals[k];
    }
  }

  /** Parameter `j` of a raw condition is an array that validates. */
  predicate ChildValid(v: Value, j: nat)
    requires v.Arr? && j < |v.items|
  {
    v.items[j].val.Arr? && Validate(v.items[j].val).Success?
  }

  /** The parameters from entry `i` on validate exactly when each is an array that validates. */
  lemma {:induction false} ValidateChildrenSpec(v: Value, i: nat)
    requires v.Arr? && 1 <= i <= |v.items|
    ensures ValidateChildren(v, i).Success? <==> forall j :: i <= j < |v.items| ==> ChildValid(v, j)
    decreases |v.items| - i
  {
    if i < |v.items| {
      ValidateChildrenSpec(v, i + 1);
      assert ValidateChildren(v, i).Success? <==> ChildValid(v, i) && ValidateChildren(v, i + 1).Success?;
    }
  }

  /** When the parameters from entry `i` on validate, the results are their validations, in order. */
  lemma {:induction false} ValidateChildrenValues(v: Value, i: nat)
    requires v.Arr? && 1 <= i <= |v.items|
    requires ValidateChildren(v, i).Success?
    ensures forall j :: i <= j < |v.items| ==>
      ChildValid(v, j) && ValidateChildren(v, i).value[j - i] == Validate(v.items[j].val).value
    decreases |v.items| - i
  {
    if i < |v.items| {
      var x := v.items[i].val;
      assert x.Arr? && Validate(x).Success? && ValidateChildren(v, i + 1).Success?;
      var rest := ValidateChildren(v, i + 1).value;
      var r := ValidateChildren(v, i).value;
      assert r == [Validate(x).value] + rest;
      ValidateChildrenValues(v, i + 1);
      forall j | i <= j < |v.items|
        ensures ChildValid(v, j) && r[j - i] == Validate(v.items[j].val).value
      {
        if j > i {
          assert r[j - i] == rest[j - (i + 1)];
        }
      }
    }
  }

  /**
   * The rules a raw condition must follow: a known operator; NOT with
   * exactly one parameter; `===`/`!==` with exactly two string parameters;
   * every parameter of a combinator or of NOT an array that validates.
   */
  lemma ValidateRules(v: Value)
    requires v.Arr?
    ensures |v.items| == 0 ==> Validate(v) == Failure(UnknownOperation)
    ensures |v.items| >= 1 && ParseOperator(v.items[0].val).None? ==> Validate(v) == Failure(UnknownOperation)
    ensures |v.items| >= 1 && ParseOperator(v.items[0].val) == Some(Negation) ==>
      (Validate(v).Success? <==>
        |v.items| == 2 && v.items[1].val.Arr? && Validate(v.items[1].val).Success?)
    ensures |v.items| >= 1 && ParseOperator(v.items[0].val) == Some(Negation) && Validate(v).Success? ==>
      |v.items| == 2 && Validate(v).value == Not(Validate(v.items[1].val).value)
    ensures forall b :: |v.items| >= 1 && ParseOperator(v.items[0].val) == Some(Combinator(b)) ==>
      (Validate(v).Success? <==>
        forall j :: 1 <= j < |v.items| ==> v.items[j].val.Arr? && Validate(v.items[j].val).Success?)
    ensures forall b :: |v.items| >= 1 && ParseOperator(v.items[0].val) == Some(Combinator(b)) && Validate(v).Success? ==>
      Validate(v).value.Combine? && Validate(v).value.op == b &&
      |Validate(v).value.children| == |v.items| - 1 &&
      forall j :: 1 <= j < |v.items| ==> Validate(v).value.children[j - 1] == Validate(v.items[j].val).value
    ensures forall cmp :: |v.items| >= 1 && ParseOperator(v.items[0].val) == Some(Comparison(cmp)) ==>
      (Validate(v).Success? <==> |v.items| == 3 && v.items[1].val.Str? && v.items[2].val.Str?)
  {
    if |v.items| == 0 {
      return;
    }
    match ParseOperator(v.items[0].val)
    case None =>
    case Some(Comparison(_)) =>
    case Some(Negation) =>
      if |v.items| == 2 {
        ValidateChildrenSpec(v, 1);
        if ValidateChildren(v, 1).Success? {
          ValidateChildrenValues(v, 1);
        }
      }
    case Some(Combinator(_)) =>
      ValidateChildrenSpec(v, 1);
      if ValidateChildren(v, 1).Success? {
        ValidateChildrenValues(v, 1);
      }
  }

  /** The error for a parameter that is not an array that validates. */
  function ChildError(v: Value, j: nat): CondError
    requires v.Arr? && 1 <= j < |v.items|
  {
    if !v.items[j].val.Arr? then ExpectedArray(j - 1)
    else if Validate(v.items[j].val).Failure? then Validate(v.items[j].val).error
    else UnknownOperation
  }

  /** The parameter loop stops at the first bad parameter, with that parameter's error. */
  lemma {:induction false} ValidateChildrenFirstBad(v: Value, i: nat, j: nat)
    requires v.Arr? && 1 <= i <= j < |v.items|
    requires forall k :: i <= k < j ==> ChildValid(v, k)
    requires !ChildValid(v, j)
    ensures ValidateChildren(v, i) == Failure(ChildError(v, j))
    decreases j - i
  {
    if i < j {
      assert ChildValid(v, i);
      ValidateChildrenFirstBad(v, i + 1, j);
    }
  }

  /**
   * The error each malformed array gets, and the comparison a well-formed
   * `===`/`!==` array yields: NOT with other than one parameter fails with
   * the NOT arity error; a comparison with other than two parameters with
   * its arity error, with a non-string parameter with its string error; a
   * combinator or NOT fails with the error of its first bad parameter.
   */
  lemma ValidateErrors(v: Value)
    requires v.Arr? && |v.items| >= 1
    ensures ParseOperator(v.items[0].val) == Some(Negation) && |v.items| != 2 ==> Validate(v) == Failure(NotArity)
    ensures forall cmp :: ParseOperator(v.items[0].val) == Some(Comparison(cmp)) ==>
      Validate(v) ==
        if |v.items| != 3 then Failure(CompareArity(cmp))
        else if v.items[1].val.Str? && v.items[2].val.Str? then Success(Compare(cmp, v.items[1].val.s, v.items[2].val.s))
        else Failure(CompareNotStrings(cmp))
  {
  }

  /** A combinator, or NOT with one parameter, fails with the error of its first bad parameter. */
  lemma ValidateFirstBadChild(v: Value, j: nat)
    requires v.Arr? && 1 <= j < |v.items|
    requires (ParseOperator(v.items[0].val).Some? && ParseOperator(v.items[0].val).value.Combinator?) ||
             (ParseOperator(v.items[0].val) == Some(Negation) && |v.items| == 2)
    requires forall k :: 1 <= k < j ==> ChildValid(v, k)
    requires !ChildValid(v, j)
    ensures Validate(v) == Failure(ChildError(v, j))
  {
    ValidateChildrenFirstBad(v, 1, j);
  }

  // ---------------------------------------------------------------------
  // Lemmas: evaluation
  // ---------------------------------------------------------------------

  /** The children before index `j` (from `i`) all failed to decide the combinator early. */
  predicate NoneDecides(parent: Option<FormTable>, data: FormData, c: Cond, i: nat, j: nat)
    requires c.Combine? && j <= |c.children|
  {
    forall k :: i <= k < j ==> Eval(parent, data, c.children[k]) == Success(!Chk(c.op))
  }

  /**
   * The combinator loop returns `Ret` iff no child decides; it returns `!Ret`
   * iff some child yields `Chk` after a run of children that do not decide;
   * it fails iff some child fails after such a run (later children unread).
   */
  lemma EvalFromSpec(parent: Option<FormTable>, data: FormData, c: Cond, i: nat)
    requires c.Combine? && i <= |c.children|
    ensures EvalFrom(parent, data, c, i) == Success(Ret(c.op)) <==>
      NoneDecides(parent, data, c, i, |c.children|)
    ensures EvalFrom(parent, data, c, i) == Success(!Ret(c.op)) <==>
      exists j :: i <= j < |c.children| && NoneDecides(parent, data, c, i, j) &&
        Eval(parent, data, c.children[j]) == Success(Chk(c.op))
    ensures EvalFrom(parent, data, c, i).Failure? <==>
      exists j :: i <= j < |c.children| && NoneDecides(parent, data, c, i, j) &&
        Eval(parent, data, c.children[j]).Failure?
  {
    EvalFromRet(parent, data, c, i);
    EvalFromDecided(parent, data, c, i);
    EvalFromFails(parent, data, c, i);
  }

  /** A run of non-deciding children from `i` is child `i` not deciding, then a run from `i + 1`. */
  lemma NoneDecidesStep(parent: Option<FormTable>, data: FormData, c: Cond, i: nat, j: nat)
    requires c.Combine? && i < j <= |c.children|
    ensures NoneDecides(parent, data, c, i, j) <==>
      Eval(parent, data, c.children[i]) == Success(!Chk(c.op)) && NoneDecides(parent, data, c, i + 1, j)
  {
  }

  lemma {:induction false} EvalFromRet(parent: Option<FormTable>, data: FormData, c: Cond, i: nat)
    requires c.Combine? && i <= |c.children|
    ensures EvalFrom(parent, data, c, i) == Success(Ret(c.op)) <==>
      NoneDecides(parent, data, c, i, |c.children|)
    decreases |c.children| - i
  {
    if i < |c.children| {
      EvalFromRet(parent, data, c, i + 1);
      NoneDecidesStep(parent, data, c, i, |c.children|);
    }
  }

  lemma {:induction false} EvalFromDecided(parent: Option<FormTable>, data: FormData, c: Cond, i: nat)
    requires c.Combine? && i <= |c.children|
    ensures EvalFrom(parent, data, c, i) == Success(!Ret(c.op)) <==>
      exists j :: i <= j < |c.children| && NoneDecides(parent, data, c, i, j) &&
        Eval(parent, data, c.children[j]) == Success(Chk(c.op))
    decreases |c.children| - i
  {
    if i < |c.children| {
      EvalFromDecided(parent, data, c, i + 1);
      forall j | i < j <= |c.children|
        ensures NoneDecides(parent, data, c, i, j) <==>
          Eval(parent, data, c.children[i]) == Success(!Chk(c.op)) && NoneDecides(parent, data, c, i + 1, j)
      {
        NoneDecidesStep(parent, data, c, i, j);
      }
      assert NoneDecides(parent, data, c, i, i);
    }
  }

  lemma {:induction false} EvalFromFails(parent: Option<FormTable>, data: FormData, c: Cond, i: nat)
    requires c.Combine? && i <= |c.children|
    ensures EvalFrom(parent, data, c, i).Failure? <==>
      exists j :: i <= j < |c.children| && NoneDecides(parent, data, c, i, j) &&
        Eval(parent, data, c.children[j]).Failure?
    decreases |c.children| - i
  {
    if i < |c.children| {
      EvalFromFails(parent, data, c, i + 1);
      forall j | i < j <= |c.children|
        ensures NoneDecides(parent, data, c, i, j) <==>
          Eval(parent, data, c.children[i]) == Success(!Chk(c.op)) && NoneDecides(parent, data, c, i + 1, j)
      {
        NoneDecidesStep(parent, data, c, i, j);
      }
      assert NoneDecides(parent, data, c, i, i);
    }
  }

  /**
   * The pointwise truth tables: AND is true iff every child is true; OR is
   * false iff every child is false; NAND is false iff every child is true;
   * NOR is true iff every child is false; and when a child errs before the
   * outcome is decided, the combinator errs.
   */
  lemma CombinatorTruth(parent: Option<FormTable>, data: FormData, op: BoolOp, cs: seq<Cond>)
    ensures op == AND ==> (Eval(parent, data, Combine(op, cs)) == Success(true) <==>
      forall k :: 0 <= k < |cs| ==> Eval(parent, data, cs[k]) == Success(true))
    ensures op == OR ==> (Eval(parent, data, Combine(op, cs)) == Success(false) <==>
      forall k :: 0 <= k < |cs| ==> Eval(parent, data, cs[k]) == Success(false))
    ensures op == NAND ==> (Eval(parent, data, Combine(op, cs)) == Success(false) <==>
      forall k :: 0 <= k < |cs| ==> Eval(parent, data, cs[k]) == Success(true))
    ensures op == NOR ==> (Eval(parent, data, Combine(op, cs)) == Success(true) <==>
      forall k :: 0 <= k < |cs| ==> Eval(parent, data, cs[k]) == Success(false))
  {
    EvalFromSpec(parent, data, Combine(op, cs), 0);
  }

  /** For a condition whose fields all resolve, evaluation succeeds with the reference meaning. */
  lemma {:induction false} EvalMatchesDenote(parent: Option<FormTable>, data: FormData, c: Cond)
    requires Resolves(parent, c)
    ensures Eval(parent, data, c) == Success(Denote(parent, data, c))
    decreases c
  {
    match c
    case Combine(op, cs) =>
      forall k | 0 <= k < |cs| ensures Eval(parent, data, cs[k]) == Success(Denote(parent, data, cs[k])) {
        EvalMatchesDenote(parent, data, cs[k]);
      }
      CombineMatchesDenote(parent, data, c);
    case Not(x) =>
      EvalMatchesDenote(parent, data, x);
    case Compare(_, _, _) =>
  }

  /** A combinator whose children evaluate to their meanings evaluates to its own meaning. */
  lemma CombineMatchesDenote(parent: Option<FormTable>, data: FormData, c: Cond)
    requires c.Combine? && Resolves(parent, c)
    requires forall k :: 0 <= k < |c.children| ==> Eval(parent, data, c.children[k]) == Success(Denote(parent, data, c.children[k]))
    ensures Eval(parent, data, c) == Success(Denote(parent, data, c))
  {
    EvalFromRet(parent, data, c, 0);
    EvalFromDecided(parent, data, c, 0);
    DenoteByChk(parent, data, c);
    if exists j :: 0 <= j < |c.children| && Denote(parent, data, c.children[j]) == Chk(c.op) {
      var j :| 0 <= j < |c.children| && Denote(parent, data, c.children[j]) == Chk(c.op);
      var j0 := FirstDeciding(parent, data, c, j);
      assert NoneDecides(parent, data, c, 0, j0);
    } else {
      assert NoneDecides(parent, data, c, 0, |c.children|);
    }
  }

  /** A combinator means `!Ret` iff some child means `Chk`, and `Ret` otherwise. */
  lemma DenoteByChk(parent: Option<FormTable>, data: FormData, c: Cond)
    requires c.Combine? && Resolves(parent, c)
    ensures Denote(parent, data, c) ==
      if exists j :: 0 <= j < |c.children| && Denote(parent, data, c.children[j]) == Chk(c.op)
      then !Ret(c.op) else Ret(c.op)
  {
  }

  /** The first child at or before `j` whose meaning decides the combinator. */
  lemma {:induction false} FirstDeciding(parent: Option<FormTable>, data: FormData, c: Cond, j: nat) returns (j0: nat)
    requires c.Combine? && j < |c.children| && Resolves(parent, c)
    requires forall k :: 0 <= k < |c.children| ==> Eval(parent, data, c.children[k]) == Success(Denote(parent, data, c.children[k]))
    requires Denote(parent, data, c.children[j]) == Chk(c.op)
    ensures j0 <= j && Denote(parent, data, c.children[j0]) == Chk(c.op)
    ensures forall k :: 0 <= k < j0 ==> Eval(parent, data, c.children[k]) == Success(!Chk(c.op))
    decreases j
  {
    if exists k :: 0 <= k < j && Denote(parent, data, c.children[k]) == Chk(c.op) {
      var k :| 0 <= k < j && Denote(parent, data, c.children[k]) == Chk(c.op);
      j0 := FirstDeciding(parent, data, c, k);
    } else {
      j0 := j;
    }
  }

  /** `!==` is exactly the negation of `===` on the same field and value. */
  lemma NotSameNegatesSame(parent: Option<FormTable>, data: FormData, f: string, val: string)
    ensures Eval(parent, data, Compare(NotSame, f, val)) == Eval(parent, data, Not(Compare(Same, f, val)))
  {
  }

  /**
   * A name the form has is looked up as it is; with backCompat a missing
   * "wp"-prefixed name falls back to the name without its first two letters.
   */
  lemma NearestFieldLookup(form: FormTable, name: string, backCompat: bool)
    ensures name in form ==> NearestField(Some(form), name, backCompat) == Success(form[name])
    ensures NearestField(Some(form), name, backCompat).Success? <==>
      name in form || (backCompat && HasWpPrefix(name) && name[2..] in form)
    ensures name !in form && backCompat && HasWpPrefix(name) && name[2..] in form ==>
      NearestField(Some(form), name, backCompat) == Success(form[name[2..]])
    ensures NearestField(None, name, backCompat) == Failure(NoParent)
  {
  }

  // ---------------------------------------------------------------------
  // Lemmas: client-side rewriting
  // ---------------------------------------------------------------------

  /** The submission names of a list of field keys that all resolve. */
  ghost function ResolvedNames(parent: Option<FormTable>, fs: seq<string>): (r: seq<string>)
    requires AllResolve(parent, fs)
    ensures |r| == |fs|
  {
    seq(|fs|, k requires 0 <= k < |fs| => NearestField(parent, fs[k], true).value.name)
  }

  /** Every field key in the list can be found. */
  predicate AllResolve(parent: Option<FormTable>, fs: seq<string>) {
    forall k :: 0 <= k < |fs| ==> NearestField(parent, fs[k], true).Success?
  }

  lemma AllResolveAppend(parent: Option<FormTable>, a: seq<string>, b: seq<string>)
    ensures AllResolve(parent, a + b) <==> AllResolve(parent, a) && AllResolve(parent, b)
  {
    assert forall k :: 0 <= k < |a| ==> (a + b)[k] == a[k];
    assert forall k :: 0 <= k < |b| ==> (a + b)[|a| + k] == b[k];
  }

  /** A condition resolves exactly when every field key it mentions does. */
  lemma {:induction false} ResolvesFields(parent: Option<FormTable>, c: Cond)
    ensures Resolves(parent, c) <==> AllResolve(parent, Fields(c))
    decreases c, 1
  {
    match c
    case Combine(_, _) => ResolvesFieldsFrom(parent, c, 0);
    case Not(x) => ResolvesFields(parent, x);
    case Compare(_, f, _) => assert Fields(c)[0] == f;
  }

  lemma {:induction false} ResolvesFieldsFrom(parent: Option<FormTable>, c: Cond, i: nat)
    requires c.Combine? && i <= |c.children|
    ensures (forall j :: i <= j < |c.children| ==> Resolves(parent, c.children[j])) <==>
      AllResolve(parent, FieldsFrom(c, i))
    decreases c, 0, |c.children| - i
  {
    if i < |c.children| {
      ResolvesFields(parent, c.children[i]);
      ResolvesFieldsFrom(parent, c, i + 1);
      AllResolveAppend(parent, Fields(c.children[i]), FieldsFrom(c, i + 1));
      assert (forall j :: i <= j < |c.children| ==> Resolves(parent, c.children[j])) <==>
        Resolves(parent, c.children[i]) && (forall j :: i + 1 <= j < |c.children| ==> Resolves(parent, c.children[j]));
    }
  }

  /** The rewrite touches nothing but field keys: operators, shape and values are kept. */
  lemma {:induction false} RenamedErase(parent: Option<FormTable>, c: Cond)
    requires Resolves(parent, c)
    ensures Erase(Renamed(parent, c)) == Erase(c)
    decreases c
  {
    match c
    case Combine(op, cs) =>
      forall k | 0 <= k < |cs| ensures Erase(Renamed(parent, cs[k])) == Erase(cs[k]) {
        RenamedErase(parent, cs[k]);
      }
    case Not(x) => RenamedErase(parent, x);
    case Compare(_, _, _) =>
  }

  /** Each field key, in order, becomes the submission name of the field it resolves to. */
  lemma {:induction false} RenamedFields(parent: Option<FormTable>, c: Cond)
    requires Resolves(parent, c)
    ensures AllResolve(parent, Fields(c))
    ensures Fields(Renamed(parent, c)) == ResolvedNames(parent, Fields(c))
    decreases c, 1
  {
    ResolvesFields(parent, c);
    match c
    case Combine(op, cs) => RenamedFieldsFrom(parent, c, 0);
    case Not(x) => RenamedFields(parent, x);
    case Compare(_, _, _) =>
  }

  lemma {:induction false} RenamedFieldsFrom(parent: Option<FormTable>, c: Cond, i: nat)
    requires c.Combine? && i <= |c.children| && Resolves(parent, c)
    ensures AllResolve(parent, FieldsFrom(c, i))
    ensures FieldsFrom(Renamed(parent, c), i) == ResolvedNames(parent, FieldsFrom(c, i))
    decreases c, 0, |c.children| - i
  {
    ResolvesFieldsFrom(parent, c, i);
    var d := Renamed(parent, c);
    if i < |c.children| {
      assert d.children[i] == Renamed(parent, c.children[i]);
      RenamedFields(parent, c.children[i]);
      RenamedFieldsFrom(parent, c, i + 1);
      ResolvesFieldsFrom(parent, c, i + 1);
      ResolvesFields(parent, c.children[i]);
      var head, tail := Fields(c.children[i]), FieldsFrom(c, i + 1);
      assert FieldsFrom(c, i) == head + tail;
      assert ResolvedNames(parent, head + tail) == ResolvedNames(parent, head) + ResolvedNames(parent, tail);
    }
  }

  /** For a condition that resolves, the client array is the raw form of the renamed condition. */
  lemma {:induction false} ParseCondStateIsRenamed(parent: Option<FormTable>, c: Cond)
    requires Resolves(parent, c)
    ensures ParseCondState(parent, c) == Success(ToRaw(Renamed(parent, c)))
    decreases c, 1
  {
    match c
    case Combine(op, cs) =>
      ParseChildrenIsRenamed(parent, c, 0);
      var d := Renamed(parent, c);
      assert RawChildren(d, 0) == RawChildren(d, 0)[0..];
    case Not(x) => ParseCondStateIsRenamed(parent, x);
    case Compare(_, _, _) =>
  }

  lemma {:induction false} ParseChildrenIsRenamed(parent: Option<FormTable>, c: Cond, i: nat)
    requires c.Combine? && i <= |c.children| && Resolves(parent, c)
    ensures ParseChildren(parent, c, i) == Success(RawChildren(Renamed(parent, c), i))
    decreases c, 0, |c.children| - i
  {
    if i < |c.children| {
      ParseCondStateIsRenamed(parent, c.children[i]);
      ParseChildrenIsRenamed(parent, c, i + 1);
      var d := Renamed(parent, c);
      assert d.children[i] == Renamed(parent, c.children[i]);
    }
  }

  /** The client array fails exactly when some mentioned field cannot be found. */
  lemma {:induction false} ParseCondStateFails(parent: Option<FormTable>, c: Cond)
    ensures ParseCondState(parent, c).Success? <==> Resolves(parent, c)
    decreases c, 1
  {
    match c
    case Combine(op, cs) => ParseChildrenFails(parent, c, 0);
    case Not(x) => ParseCondStateFails(parent, x);
    case Compare(_, _, _) =>
  }

  lemma {:induction false} ParseChildrenFails(parent: Option<FormTable>, c: Cond, i: nat)
    requires c.Combine? && i <= |c.children|
    ensures ParseChildren(parent, c, i).Success? <==>
      forall j :: i <= j < |c.children| ==> Resolves(parent, c.children[j])
    decreases c, 0, |c.children| - i
  {
    if i < |c.children| {
      ParseCondStateFails(parent, c.children[i]);
      ParseChildrenFails(parent, c, i + 1);
    }
  }

  /**
   * The client array is itself a valid condition with the same operators,
   * shape and compared values, whose field keys, in order, are the
   * submission names of the fields the original keys resolve to.
   */
  lemma ParseCondStateKeepsShape(parent: Option<FormTable>, c: Cond, r: Value)
    requires ParseCondState(parent, c) == Success(r)
    ensures Validate(r).Success?
    ensures Erase(Validate(r).value) == Erase(c)
    ensures |Fields(Validate(r).value)| == |Fields(c)|
    ensures forall k :: 0 <= k < |Fields(c)| ==>
      NearestField(parent, Fields(c)[k], true).Success? &&
      Fields(Validate(r).value)[k] == NearestField(parent, Fields(c)[k], true).value.name
  {
    ParseCondStateFails(parent, c);
    ParseCondStateIsRenamed(parent, c);
    ValidateToRaw(Renamed(parent, c));
    RenamedErase(parent, c);
    RenamedFields(parent, c);
  }

  // ---------------------------------------------------------------------
  // The operator dispatch as written: PHP's `switch` compares loosely
  // ---------------------------------------------------------------------

  /**
   * PHP 8's `$v == $s` for a string `$s` that is not numeric: a string
   * matches only itself, a boolean matches the truthiness of `$s`, an
   * integer is compared as its decimal string, null as the empty string.
   */
  predicate LooselyEquals(v: Value, s: string) {
    match v
    case Null => s == ""
    case Bool(b) => b == Truthy(Str(s))
    case Int(i) => IntToString(i) == s
    case Str(t) => t == s
    case Arr(_) => false
  }

  /** validateCondState's `switch ($op)`: cases tried in the order NOT, AND, OR, NAND, NOR, ===, !==. */
  function ParseOperatorAsWritten(v: Value): Option<Operator> {
    if LooselyEquals(v, "NOT") then Some(Negation)
    else if LooselyEquals(v, "AND") then Some(Combinator(AND))
    else if LooselyEquals(v, "OR") then Some(Combinator(OR))
    else if LooselyEquals(v, "NAND") then Some(Combinator(NAND))
    else if LooselyEquals(v, "NOR") then Some(Combinator(NOR))
    else if LooselyEquals(v, "===") then Some(Comparison(Same))
    else if LooselyEquals(v, "!==") then Some(Comparison(NotSame))
    else None
  }

  /** validateCondState as written, with the loose operator dispatch. */
  function ValidateAsWritten(v: Value): Result<Cond, CondError>
    decreases v, 1
  {
    if !v.Arr? then Failure(NotAnArray)
    else if |v.items| == 0 then Failure(UnknownOperation)
    else
      match ParseOperatorAsWritten(v.items[0].val)
      case None => Failure(UnknownOperation)
      case Some(Negation) =>
        if |v.items| != 2 then Failure(NotArity)
        else
          var cs :- ValidateChildrenAsWritten(v, 1);
          Success(Not(cs[0]))
      case Some(Combinator(b)) =>
        var cs :- ValidateChildrenAsWritten(v, 1);
        Success(Combine(b, cs))
      case Some(Comparison(c)) =>
        if |v.items| != 3 then Failure(CompareArity(c))
        else if v.items[1].val.Str? && v.items[2].val.Str? then
          Success(Compare(c, v.items[1].val.s, v.items[2].val.s))
        else Failure(CompareNotStrings(c))
  }

  function ValidateChildrenAsWritten(v: Value, i: nat): (r: Result<seq<Cond>, CondError>)
    requires v.Arr? && 1 <= i <= |v.items|
    ensures r.Success? ==> |r.value| == |v.items| - i
    decreases v, 0, |v.items| - i
  {
    if i == |v.items| then Success([])
    else if !v.items[i].val.Arr? then Failure(ExpectedArray(i - 1))
    else
      var c :- ValidateAsWritten(v.items[i].val);
      var cs :- ValidateChildrenAsWritten(v, i + 1);
      Success([c] + cs)
  }

  /**
   * The boolean `true` in operator position passes validation as written
   * (it loosely equals "NOT", the first case) although it names no
   * operator; the strict dispatch rejects it as an unknown operation.
   */
  lemma TrueOperatorPassesValidation()
    ensures var v := List([Bool(true), List([Str("==="), Str("wpCount"), Str("1")])]);
      ValidateAsWritten(v) == Success(Not(Compare(Same, "wpCount", "1"))) &&
      Validate(v) == Failure(UnknownOperation)
  {
    var inner := List([Str("==="), Str("wpCount"), Str("1")]);
    var v := List([Bool(true), inner]);
    assert Values(v.items) == [Bool(true), inner];
    assert Values(inner.items) == [Str("==="), Str("wpCount"), Str("1")];
    assert ValidateAsWritten(inner) == Success(Compare(Same, "wpCount", "1"));
    assert ValidateChildrenAsWritten(v, 2) == Success([]);
    assert ValidateChildrenAsWritten(v, 1) == Success([Compare(Same, "wpCount", "1")] + []);
  }

  /** The two dispatches agree on every string: only non-string operators tell them apart. */
  lemma {:induction false} DispatchAgreesOnStrings(s: string)
    ensures ParseOperatorAsWritten(Str(s)) == ParseOperator(Str(s))
  {
  }
}
