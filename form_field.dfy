/**
 * An HTML form field: how its parameters become its submission name, id,
 * default and hide-if / disable-if conditions; whether it is hidden,
 * disabled or valid for some submitted data; its attribute list; and the
 * memoised option list with its two array helpers.
 */
module FormFields {
  import opened Wrappers
  import opened PhpValues
  import opened CondState

  // ---------------------------------------------------------------------
  // Construction rules
  // ---------------------------------------------------------------------

  /** `$params[$k]`, reading null for a missing key. */
  function Param(params: map<string, Value>, k: string): Value {
    if k in params then params[k] else Null
  }

  /** `$params['disabled'] ?? false`, taken as a boolean. */
  predicate DisabledParam(params: map<string, Value>) {
    IsSet(params, "disabled") && Truthy(params["disabled"])
  }

  /** The hide-if array, when it is given and truthy. */
  function HideIfSource(params: map<string, Value>): Option<Value> {
    if IsSet(params, "hide-if") && Truthy(params["hide-if"]) then Some(params["hide-if"]) else None
  }

  /** The disable-if array, when it is given and truthy and the field is not disabled outright. */
  function DisableIfSource(params: map<string, Value>): Option<Value> {
    if !DisabledParam(params) && IsSet(params, "disable-if") && Truthy(params["disable-if"])
    then Some(params["disable-if"]) else None
  }

  function ValidateIfGiven(src: Option<Value>): (r: Result<Option<Cond>, CondError>)
    ensures r.Success? ==> (r.value.Some? <==> src.Some?)
    ensures r.Success? && src.Some? ==> Validate(src.value) == Success(r.value.value)
    ensures r.Failure? <==> src.Some? && Validate(src.value).Failure?
    ensures r.Failure? ==> r.error == Validate(src.value).error
  {
    match src
    case None => Success(None)
    case Some(v) =>
      var c :- Validate(v);
      Success(Some(c))
  }

  /** The validated hide and disable conditions of a field. */
  datatype CondPair = CondPair(hideIf: Option<Cond>, disableIf: Option<Cond>)

  /**
   * The conditions the constructor stores: hide-if is checked first, then
   * disable-if; a field that is disabled outright never has a disable
   * condition; each stored condition is what validation made of its array.
   */
  function CondStateOf(params: map<string, Value>): (r: Result<CondPair, CondError>)
    ensures r.Success? ==> (r.value.hideIf.Some? <==> HideIfSource(params).Some?)
    ensures r.Success? ==> (r.value.disableIf.Some? <==> DisableIfSource(params).Some?)
    ensures r.Success? && r.value.hideIf.Some? ==> Validate(HideIfSource(params).value) == Success(r.value.hideIf.value)
    ensures r.Success? && r.value.disableIf.Some? ==>
      !DisabledParam(params) && Validate(DisableIfSource(params).value) == Success(r.value.disableIf.value)
    ensures r.Failure? <==>
      (HideIfSource(params).Some? && Validate(HideIfSource(params).value).Failure?) ||
      (DisableIfSource(params).Some? && Validate(DisableIfSource(params).value).Failure?)
    ensures HideIfSource(params).Some? && Validate(HideIfSource(params).value).Failure? ==>
      r == Failure(Validate(HideIfSource(params).value).error)
  {
    var hideEntry :- ValidateIfGiven(HideIfSource(params));
    var disableEntry :- ValidateIfGiven(DisableIfSource(params));
    Success(CondPair(hideEntry, disableEntry))
  }

  /** The CSS classes the constructor records for the conditions it stored. */
  function CondStateClassOf(conds: CondPair): seq<string> {
    (if conds.hideIf.Some? then ["mw-htmlform-hide-if"] else []) +
    (if conds.disableIf.Some? then ["mw-htmlform-disable-if"] else [])
  }

  /** The outcome of validating a submitted value. */
  datatype Verdict =
    | Accepted
    | RequiredMissing           // the 'htmlform-required' message
    | FromCallback(result: Value)

  // ---------------------------------------------------------------------
  // The field
  // ---------------------------------------------------------------------

  class FormField {
    /** The descriptor the field was built from. */
    const params: map<string, Value>
    /** The form the field belongs to, seen through its field table. */
    const parent: Option<FormTable>
    const hasValidationCallback: bool

    var name: string
    var id: string
    var default: Value
    var hideIf: Option<Cond>
    var disableIf: Option<Cond>
    var condStateClass: seq<string>
    /** false until the options are first fetched, then their value (null when there are none). */
    var options: Value
    var optionsLabelsNotFromMessage: bool

    /**
     * The name is "wp" followed by the descriptor's field name unless a
     * name is given; the id is "mw-input-" followed by that name unless an
     * id is given. No condition is stored yet.
     */
    constructor Init(params: map<string, Value>, parent: Option<FormTable>)
      ensures this.params == params && this.parent == parent
      ensures hasValidationCallback == IsSet(params, "validation-callback")
      ensures name == if IsSet(params, "name") then ToStr(params["name"]) else "wp" + ToStr(Param(params, "fieldname"))
      ensures id == if IsSet(params, "id") then ToStr(params["id"]) else "mw-input-" + name
      ensures default == Param(params, "default")
      ensures hideIf.None? && disableIf.None? && condStateClass == []
      ensures options == Bool(false) && !optionsLabelsNotFromMessage
    {
      this.params := params;
      this.parent := parent;
      name := "wp" + ToStr(Param(params, "fieldname"));
      if IsSet(params, "name") {
        name := ToStr(params["name"]);
      }
      id := "mw-input-" + name;
      default := Null;
      if IsSet(params, "default") {
        default := params["default"];
      }
      if IsSet(params, "id") {
        id := ToStr(params["id"]);
      }
      hasValidationCallback := IsSet(params, "validation-callback");
      hideIf := None;
      disableIf := None;
      condStateClass := [];
      options := Bool(false);
      optionsLabelsNotFromMessage := false;
    }

    /** Validates and stores the hide-if, then the disable-if condition; stops at the first invalid one. */
    method SetUpCondState() returns (r: Result<(), CondError>)
      requires hideIf.None? && disableIf.None? && condStateClass == []
      modifies this
      ensures r.Failure? <==> CondStateOf(params).Failure?
      ensures r.Failure? ==> r.error == CondStateOf(params).error
      ensures r.Failure? ==>
        disableIf.None? && condStateClass == (if hideIf.Some? then ["mw-htmlform-hide-if"] else []) &&
        (hideIf.Some? ==> HideIfSource(params).Some? && CondState.Validate(HideIfSource(params).value) == Success(hideIf.value))
      ensures r.Failure? && HideIfSource(params).Some? && CondState.Validate(HideIfSource(params).value).Failure? ==> hideIf.None?
      ensures r.Success? ==>
        CondPair(hideIf, disableIf) == CondStateOf(params).value &&
        condStateClass == CondStateClassOf(CondStateOf(params).value)
      ensures name == old(name) && id == old(id) && default == old(default)
      ensures options == old(options) && optionsLabelsNotFromMessage == old(optionsLabelsNotFromMessage)
    {
      var hideSrc := HideIfSource(params);
      if hideSrc.Some? {
        var c := CondState.Validate(hideSrc.value);
        if c.Failure? {
          return Failure(c.error);
        }
        hideIf := Some(c.value);
        condStateClass := condStateClass + ["mw-htmlform-hide-if"];
      }
      var disableSrc := DisableIfSource(params);
      if disableSrc.Some? {
        var c := CondState.Validate(disableSrc.value);
        if c.Failure? {
          return Failure(c.error);
        }
        disableIf := Some(c.value);
        condStateClass := condStateClass + ["mw-htmlform-disable-if"];
      }
      return Success(());
    }

    /** Builds a field, or reports the first invalid condition (the constructor's exception). */
    static method Create(params: map<string, Value>, parent: Option<FormTable>) returns (r: Result<FormField, CondError>)
      ensures r.Failure? <==> CondStateOf(params).Failure?
      ensures r.Failure? ==> r.error == CondStateOf(params).error
      ensures r.Success? ==>
        fresh(r.value) && r.value.params == params && r.value.parent == parent &&
        CondPair(r.value.hideIf, r.value.disableIf) == CondStateOf(params).value &&
        r.value.condStateClass == CondStateClassOf(CondStateOf(params).value) &&
        r.value.name == (if IsSet(params, "name") then ToStr(params["name"]) else "wp" + ToStr(Param(params, "fieldname"))) &&
        r.value.id == (if IsSet(params, "id") then ToStr(params["id"]) else "mw-input-" + r.value.name) &&
        r.value.default == Param(params, "default") &&
        r.value.hasValidationCallback == IsSet(params, "validation-callback") &&
        r.value.options == Bool(false) && !r.value.optionsLabelsNotFromMessage
    {
      var f := new FormField.Init(params, parent);
      var ok := f.SetUpCondState();
      if ok.Failure? {
        return Failure(ok.error);
      }
      return Success(f);
    }

    /** Whether the field is hidden for the submitted data: never without a hide condition. */
    function IsHidden(data: FormData): (r: Result<bool, LookupError>)
      reads this
      ensures hideIf.None? ==> r == Success(false)
      ensures hideIf.Some? ==> r == Eval(parent, data, hideIf.value)
    {
      match hideIf
      case None => Success(false)
      case Some(c) => Eval(parent, data, c)
    }

    /**
     * Whether the field is disabled: always when the 'disabled' parameter
     * is truthy; otherwise when it is hidden or its disable condition holds.
     */
    function IsDisabled(data: FormData): (r: Result<bool, LookupError>)
      reads this
      ensures DisabledParam(params) ==> r == Success(true)
      ensures IsHidden(data) == Success(true) ==> r == Success(true)
      ensures !DisabledParam(params) && disableIf.None? ==> r == IsHidden(data)
      ensures r == Success(false) ==> !DisabledParam(params) && IsHidden(data) == Success(false)
    {
      if DisabledParam(params) then Success(true)
      else
        var hidden :- IsHidden(data);
        match disableIf
        case None => Success(hidden)
        case Some(c) => if hidden then Success(true) else Eval(parent, data, c)
    }

    /**
     * Validation of a submitted value: a hidden field accepts anything; a
     * required field rejects '' and false before any callback runs; then
     * the callback's answer, if there is a callback.
     */
    function Validate(value: Value, data: FormData, callback: (Value, FormData) -> Value): (r: Result<Verdict, LookupError>)
      reads this
      ensures IsHidden(data) == Success(true) ==> r == Success(Accepted)
      ensures (IsHidden(data) == Success(false) && IsSet(params, "required") && params["required"] != Bool(false) &&
               (value == Str("") || value == Bool(false))) ==> r == Success(RequiredMissing)
      ensures r.Success? && r.value.FromCallback? ==>
        hasValidationCallback && IsHidden(data) == Success(false) && r.value.result == callback(value, data)
      ensures (IsHidden(data) == Success(false) &&
               !(IsSet(params, "required") && params["required"] != Bool(false) && (value == Str("") || value == Bool(false)))) ==>
        r == Success(if hasValidationCallback then FromCallback(callback(value, data)) else Accepted)
      ensures r == Success(RequiredMissing) ==>
        IsHidden(data) == Success(false) && IsSet(params, "required") && params["required"] != Bool(false) &&
        (value == Str("") || value == Bool(false))
      ensures r.Failure? <==> IsHidden(data).Failure?
    {
      var hidden :- IsHidden(data);
      if hidden then Success(Accepted)
      else if IsSet(params, "required") && params["required"] != Bool(false) && (value == Str("") || value == Bool(false))
      then Success(RequiredMissing)
      else if hasValidationCallback then Success(FromCallback(callback(value, data)))
      else Success(Accepted)
    }

    /** The stored conditions rewritten for the browser, keyed 'hide' then 'disable'. */
    function ParseCondStateForClient(): (r: Result<seq<Item>, LookupError>)
      reads this
      ensures r.Success? ==>
        Keys(r.value) == (if hideIf.Some? then [Name("hide")] else []) + (if disableIf.Some? then [Name("disable")] else [])
      ensures r.Success? ==> forall k :: 0 <= k < |r.value| ==> r.value[k].val.Arr?
      ensures r.Failure? <==>
        (hideIf.Some? && ParseCondState(parent, hideIf.value).Failure?) ||
        (disableIf.Some? && ParseCondState(parent, disableIf.value).Failure?)
      ensures r.Success? && hideIf.Some? ==>
        Resolves(parent, hideIf.value) && r.value[0].val == ToRaw(Renamed(parent, hideIf.value))
      ensures r.Success? && disableIf.Some? ==>
        var k := if hideIf.Some? then 1 else 0;
        Resolves(parent, disableIf.value) && r.value[k].val == ToRaw(Renamed(parent, disableIf.value))
    {
      var hideEntry :- ClientEntry(parent, "hide", hideIf);
      var disableEntry :- ClientEntry(parent, "disable", disableIf);
      assert Keys(hideEntry + disableEntry) == Keys(hideEntry) + Keys(disableEntry);
      Success(hideEntry + disableEntry)
    }

    /** The attributes `list` asks for, in the order the loop adds them. */
    method GetAttributes(list: seq<string>) returns (ret: seq<Item>)
      ensures ret == AttributesOf(params, list)
    {
      ret := [];
      var i := 0;
      while i < |list|
        invariant 0 <= i <= |list|
        invariant ret == AttributesOf(params, list[..i])
      {
        assert list[..i + 1][..i] == list[..i];
        var key := list[i];
        if key in BoolAttribs {
          if !Empty(params, key) {
            ret := Put(ret, Name(key), Str(""));
          }
        } else if IsSet(params, key) {
          ret := Put(ret, Name(key), params[key]);
        }
        i := i + 1;
      }
      assert list[..|list|] == list;
    }

    /**
     * The options, computed once: from 'options-messages' (through the
     * message lookup), else 'options' (forced to strings), else
     * 'options-message' (parsed as a drop-down list), else null.
     */
    method GetOptions(lookupOptionsKeys: (Value, bool) -> Value, listDropDownOptions: Value -> Value)
      returns (r: Value)
      modifies this
      ensures old(options) != Bool(false) ==>
        r == old(options) && options == old(options) &&
        optionsLabelsNotFromMessage == old(optionsLabelsNotFromMessage)
      ensures old(options) == Bool(false) ==>
        r == OptionsOf(params, lookupOptionsKeys, listDropDownOptions).0 && options == r &&
        optionsLabelsNotFromMessage ==
          (old(optionsLabelsNotFromMessage) || OptionsOf(params, lookupOptionsKeys, listDropDownOptions).1)
      ensures name == old(name) && id == old(id) && hideIf == old(hideIf) && disableIf == old(disableIf)
      ensures default == old(default) && condStateClass == old(condStateClass)
    {
      if options == Bool(false) {
        if "options-messages" in params {
          var needsParse := Truthy(Coalesce(params, "options-messages-parse", Bool(false)));
          if needsParse {
            optionsLabelsNotFromMessage := true;
          }
          options := lookupOptionsKeys(params["options-messages"], needsParse);
        } else if "options" in params {
          optionsLabelsNotFromMessage := true;
          options := ForceToStringRecursive(params["options"]);
        } else if "options-message" in params {
          options := listDropDownOptions(params["options-message"]);
        } else {
          options := Null;
        }
      }
      r := options;
    }

    /**
     * The options, flattened to the list of their leaves in left-to-right
     * order (nested arrays are option groups).
     */
    static method FlattenOptions(options: Value) returns (flat: seq<Value>)
      ensures flat == Leaves(options)
      decreases options
    {
      flat := [];
      if !options.Arr? {
        return;
      }
      var i := 0;
      while i < |options.items|
        invariant 0 <= i <= |options.items|
        invariant flat + LeavesFrom(options, i) == Leaves(options)
      {
        var value := options.items[i].val;
        assert options.items[i] in options.items;
        if value.Arr? {
          var sub := FlattenOptions(value);
          flat := flat + sub;
        } else {
          flat := flat + [value];
        }
        i := i + 1;
      }
    }
  }

  // ---------------------------------------------------------------------
  // Attributes
  // ---------------------------------------------------------------------

  /** Attributes that are present with an empty value, or absent. */
  const BoolAttribs: seq<string> := ["disabled", "required", "autofocus", "multiple", "readonly"]

  /** The `type => array` entry of the client condition state for one stored condition. */
  function ClientEntry(parent: Option<FormTable>, kind: string, cond: Option<Cond>): (r: Result<seq<Item>, LookupError>)
    ensures r.Success? ==> Keys(r.value) == (if cond.Some? then [Name(kind)] else [])
    ensures r.Success? && cond.Some? ==>
      CondState.Validate(r.value[0].val).Success? && Erase(CondState.Validate(r.value[0].val).value) == Erase(cond.value)
    ensures r.Success? && cond.Some? ==>
      Resolves(parent, cond.value) && r.value[0].val == ToRaw(Renamed(parent, cond.value))
    ensures r.Failure? <==> cond.Some? && ParseCondState(parent, cond.value).Failure?
  {
    match cond
    case None => Success([])
    case Some(c) =>
      var v :- ParseCondState(parent, c);
      ParseCondStateKeepsShape(parent, c, v);
      ParseCondStateFails(parent, c);
      ParseCondStateIsRenamed(parent, c);
      Success([Item(Name(kind), v)])
  }

  /** The attribute one requested key contributes, if any. */
  function AttributeOf(params: map<string, Value>, key: string): Option<Value> {
    if key in BoolAttribs then (if !Empty(params, key) then Some(Str("")) else None)
    else if IsSet(params, key) then Some(params[key])
    else None
  }

  /** The attribute array for the requested keys, added one key at a time. */
  function AttributesOf(params: map<string, Value>, list: seq<string>): seq<Item> {
    if list == [] then []
    else
      var prev := AttributesOf(params, list[..|list| - 1]);
      var key := list[|list| - 1];
      match AttributeOf(params, key)
      case None => prev
      case Some(v) => Put(prev, Name(key), v)
  }

  // ---------------------------------------------------------------------
  // Option arrays
  // ---------------------------------------------------------------------

  /** The leaves of a nested option array in left-to-right order; none for a scalar. */
  function Leaves(v: Value): (r: seq<Value>)
    ensures forall k :: 0 <= k < |r| ==> !r[k].Arr?
    decreases v, 1
  {
    if v.Arr? then LeavesFrom(v, 0) else []
  }

  function LeavesFrom(v: Value, i: nat): (r: seq<Value>)
    requires v.Arr? && i <= |v.items|
    ensures forall k :: 0 <= k < |r| ==> !r[k].Arr?
    decreases v, 0, |v.items| - i
  {
    if i == |v.items| then []
    else
      var x := v.items[i].val;
      assert v.items[i] in v.items;
      (if x.Arr? then Leaves(x) else [x]) + LeavesFrom(v, i + 1)
  }

  /** The same array shape and keys, every leaf replaced by its string form. */
  function ForceToStringRecursive(v: Value): (r: Value)
    ensures r.Arr? <==> v.Arr?
    ensures !v.Arr? ==> r == Str(ToStr(v))
    ensures v.Arr? ==> Keys(r.items) == Keys(v.items)
    decreases v, 1
  {
    if v.Arr? then Arr(ForceItems(v, 0)) else Str(ToStr(v))
  }

  function ForceItems(v: Value, i: nat): (r: seq<Item>)
    requires v.Arr? && i <= |v.items|
    ensures |r| == |v.items| - i
    ensures forall k :: 0 <= k < |r| ==> r[k].key == v.items[i + k].key
    ensures forall k :: 0 <= k < |r| ==> r[k].val == ForceToStringRecursive(v.items[i + k].val)
    decreases v, 0, |v.items| - i
  {
    if i == |v.items| then []
    else
      assert v.items[i] in v.items;
      [Item(v.items[i].key, ForceToStringRecursive(v.items[i].val))] + ForceItems(v, i + 1)
  }

  /** The options getOptions computes on its first call, and whether their labels are not message keys. */
  function OptionsOf(params: map<string, Value>, lookupOptionsKeys: (Value, bool) -> Value, listDropDownOptions: Value -> Value)
    : (Value, bool)
  {
    if "options-messages" in params then
      var needsParse := Truthy(Coalesce(params, "options-messages-parse", Bool(false)));
      (lookupOptionsKeys(params["options-messages"], needsParse), needsParse)
    else if "options" in params then (ForceToStringRecursive(params["options"]), true)
    else if "options-message" in params then (listDropDownOptions(params["options-message"]), false)
    else (Null, false)
  }

  // ---------------------------------------------------------------------
  // Lemmas
  // ---------------------------------------------------------------------

  /** For a hide condition whose fields all resolve, isHidden is its meaning. */
  lemma IsHiddenMeaning(f: FormField, data: FormData)
    requires f.hideIf.Some? ==> Resolves(f.parent, f.hideIf.value)
    ensures f.IsHidden(data) == Success(f.hideIf.Some? && Denote(f.parent, data, f.hideIf.value))
  {
    if f.hideIf.Some? {
      EvalMatchesDenote(f.parent, data, f.hideIf.value);
    }
  }

  /**
   * For conditions whose fields all resolve, a field is disabled iff the
   * 'disabled' parameter is truthy, or it is hidden, or its disable
   * condition holds.
   */
  lemma IsDisabledMeaning(f: FormField, data: FormData)
    requires f.hideIf.Some? ==> Resolves(f.parent, f.hideIf.value)
    requires f.disableIf.Some? ==> Resolves(f.parent, f.disableIf.value)
    ensures f.IsDisabled(data) == Success(
      DisabledParam(f.params) ||
      (f.hideIf.Some? && Denote(f.parent, data, f.hideIf.value)) ||
      (f.disableIf.Some? && Denote(f.parent, data, f.disableIf.value)))
  {
    IsHiddenMeaning(f, data);
    if f.disableIf.Some? {
      EvalMatchesDenote(f.parent, data, f.disableIf.value);
    }
  }

  /**
   * The attribute array holds, for each requested key, the empty string
   * for a set boolean attribute and the parameter for any other set key,
   * and nothing else.
   */
  lemma {:induction false} AttributesOfSpec(params: map<string, Value>, list: seq<string>)
    ensures forall key ::
      Lookup(AttributesOf(params, list), Name(key)) == (if key in list then AttributeOf(params, key) else None)
    ensures forall k :: k in Keys(AttributesOf(params, list)) ==> k.Name? && k.s in list
  {
    if list != [] {
      var n := |list|;
      var init := list[..n - 1];
      var last := list[n - 1];
      assert list == init + [last];
      AttributesOfSpec(params, init);
      var prev := AttributesOf(params, init);
      match AttributeOf(params, last)
      case None =>
      case Some(v) =>
        PutSpec(prev, Name(last), v);
    }
  }

  /** Every leaf of a forced array is a string. */
  lemma ForcedLeavesAreStrings(v: Value)
    ensures forall k :: 0 <= k < |Leaves(ForceToStringRecursive(v))| ==> Leaves(ForceToStringRecursive(v))[k].Str?
  {
    ForceLeaves(v);
  }

  /** The string forms of a list of values. */
  function StrForms(s: seq<Value>): (r: seq<Value>)
    ensures |r| == |s|
  {
    seq(|s|, k requires 0 <= k < |s| => Str(ToStr(s[k])))
  }

  /** Forcing to strings turns the leaves, in order, into their string forms. */
  lemma {:induction false} ForceLeaves(v: Value)
    ensures Leaves(ForceToStringRecursive(v)) == StrForms(Leaves(v))
    decreases v, 1
  {
    if v.Arr? {
      ForceLeavesFrom(v, 0);
    }
  }

  lemma {:induction false} ForceLeavesFrom(v: Value, i: nat)
    requires v.Arr? && i <= |v.items|
    ensures LeavesFrom(ForceToStringRecursive(v), i) == StrForms(LeavesFrom(v, i))
    decreases v, 0, |v.items| - i
  {
    var fv := ForceToStringRecursive(v);
    if i < |v.items| {
      var x := v.items[i].val;
      assert v.items[i] in v.items;
      assert fv.items[i].val == ForceToStringRecursive(x);
      ForceLeavesFrom(v, i + 1);
      var rest := LeavesFrom(v, i + 1);
      if x.Arr? {
        ForceLeaves(x);
        assert LeavesFrom(fv, i) == StrForms(Leaves(x)) + StrForms(rest);
        StrFormsAppend(Leaves(x), rest);
      } else {
        assert LeavesFrom(fv, i) == StrForms([x]) + StrForms(rest);
        StrFormsAppend([x], rest);
      }
    }
  }

  lemma StrFormsAppend(a: seq<Value>, b: seq<Value>)
    ensures StrForms(a + b) == StrForms(a) + StrForms(b)
  {
  }

  /** Forcing to strings twice is the same as once. */
  lemma {:induction false} ForceIdempotent(v: Value)
    ensures ForceToStringRecursive(ForceToStringRecursive(v)) == ForceToStringRecursive(v)
    decreases v
  {
    if v.Arr? {
      var fv := ForceToStringRecursive(v);
      var ffv := ForceToStringRecursive(fv);
      forall k | 0 <= k < |v.items|
        ensures ffv.items[k] == fv.items[k]
      {
        assert v.items[k] in v.items;
        ForceIdempotent(v.items[k].val);
      }
      assert ffv.items == fv.items;
    }
  }

  /** A list whose values are all scalars is its own flattening. */
  lemma {:induction false} LeavesOfScalars(vs: seq<Value>)
    requires forall k :: 0 <= k < |vs| ==> !vs[k].Arr?
    ensures Leaves(List(vs)) == vs
  {
    var v := List(vs);
    assert |v.items| == |vs| && forall k :: 0 <= k < |vs| ==> v.items[k].val == vs[k] by {
      assert Values(v.items) == vs;
    }
    var i := |vs|;
    while i > 0
      invariant 0 <= i <= |vs|
      invariant LeavesFrom(v, i) == vs[i..]
    {
      i := i - 1;
      assert vs[i..] == [vs[i]] + vs[i + 1..];
    }
  }

  /** Flattening an already flattened option list changes nothing. */
  lemma FlattenIdempotent(v: Value)
    ensures Leaves(List(Leaves(v))) == Leaves(v)
  {
    LeavesOfScalars(Leaves(v));
  }
}
