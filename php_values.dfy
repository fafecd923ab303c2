/**
 * The slice of PHP's value model that the form-field code relies on:
 * scalars, ordered associative arrays, truthiness (`if`, `!`, `?:`),
 * string conversion (`strval`, `(string)`, interpolation), `isset`/`empty`
 * on a parameter map, and array element assignment `$a[$k] = $v`.
 * Floats, objects and closures are not represented.
 */
module PhpValues {
  import opened Wrappers

  /** An array key; PHP normalises decimal-integer string keys to integers. */
  datatype Key = Index(n: int) | Name(s: string)

  datatype Value =
    | Null
    | Bool(b: bool)
    | Int(i: int)
    | Str(s: string)
    | Arr(items: seq<Item>)

  /** One entry of an ordered PHP array. */
  datatype Item = Item(key: Key, val: Value)

  /** Conversion to bool: null, false, 0, "", "0" and the empty array are false. */
  predicate Truthy(v: Value) {
    match v
    case Null => false
    case Bool(b) => b
    case Int(i) => i != 0
    case Str(s) => s != "" && s != "0"
    case Arr(items) => |items| > 0
  }

  function DigitChar(d: nat): (c: char)
    requires d < 10
    ensures '0' <= c <= '9'
  {
    "0123456789"[d]
  }

  /** Decimal digits of a natural number, most significant first. */
  function Digits(n: nat): (r: string)
    ensures |r| >= 1
    ensures forall k :: 0 <= k < |r| ==> '0' <= r[k] <= '9'
  {
    if n < 10 then [DigitChar(n)] else Digits(n / 10) + [DigitChar(n % 10)]
  }

  /** Decimal rendering of an integer, as `strval` gives it. */
  function IntToString(i: int): (r: string)
    ensures r != ""
  {
    if i < 0 then "-" + Digits(-i) else Digits(i)
  }

  lemma SingleDigit(n: nat)
    ensures |Digits(n)| == 1 <==> n < 10
  {
  }

  /** Different naturals have different decimal digits. */
  lemma {:induction false} DigitsInjective(a: nat, b: nat)
    requires Digits(a) == Digits(b)
    ensures a == b
  {
    SingleDigit(a);
    SingleDigit(b);
    if a >= 10 && b >= 10 {
      var da, db := Digits(a / 10), Digits(b / 10);
      assert da == Digits(a)[..|Digits(a)| - 1];
      assert db == Digits(b)[..|Digits(b)| - 1];
      DigitsInjective(a / 10, b / 10);
      assert "0123456789"[a % 10] == Digits(a)[|Digits(a)| - 1] == "0123456789"[b % 10];
    } else if a < 10 && b < 10 {
      assert "0123456789"[a] == Digits(a)[0] == "0123456789"[b];
    }
  }

  /** Different integers have different decimal renderings. */
  lemma IntToStringInjective(a: int, b: int)
    requires IntToString(a) == IntToString(b)
    ensures a == b
  {
    assert IntToString(a)[0] == '-' <==> a < 0;
    assert IntToString(b)[0] == '-' <==> b < 0;
    if a < 0 && b < 0 {
      assert Digits(-a) == IntToString(a)[1..];
      assert Digits(-b) == IntToString(b)[1..];
      DigitsInjective(-a, -b);
    } else if a >= 0 && b >= 0 {
      DigitsInjective(a, b);
    }
  }

  /** `strval($v)`: what a value becomes when used as a string. */
  function ToStr(v: Value): string {
    match v
    case Null => ""
    case Bool(b) => if b then "1" else ""
    case Int(i) => IntToString(i)
    case Str(s) => s
    case Arr(_) => "Array"
  }

  /** The values of an array in iteration order (what `foreach` visits). */
  function Values(items: seq<Item>): (r: seq<Value>)
    ensures |r| == |items|
    ensures forall k :: 0 <= k < |items| ==> r[k] == items[k].val
  {
    if items == [] then [] else [items[0].val] + Values(items[1..])
  }

  /** A list literal `[ v0, v1, ... ]`: keys 0, 1, ... in order. */
  function List(vals: seq<Value>): (r: Value)
    ensures r.Arr? && Values(r.items) == vals
  {
    Arr(seq(|vals|, k requires 0 <= k < |vals| => Item(Index(k), vals[k])))
  }

  /** The keys of an array in iteration order. */
  function Keys(items: seq<Item>): (r: seq<Key>)
    ensures |r| == |items|
    ensures forall k :: 0 <= k < |items| ==> r[k] == items[k].key
  {
    if items == [] then [] else [items[0].key] + Keys(items[1..])
  }

  /** Every key occurs at most once, as in any PHP array. */
  predicate UniqueKeys(items: seq<Item>) {
    forall i, j :: 0 <= i < j < |items| ==> items[i].key != items[j].key
  }

  /** `$a[$k]`, or None when the key is absent. */
  function Lookup(items: seq<Item>, k: Key): Option<Value> {
    if items == [] then None
    else if items[0].key == k then Some(items[0].val)
    else Lookup(items[1..], k)
  }

  /**
   * `$a[$k] = $v`: an existing key keeps its position and takes the new
   * value; a new key is appended at the end (see PutSpec).
   */
  function Put(items: seq<Item>, k: Key, v: Value): (r: seq<Item>)
    ensures |r| == |items| || |r| == |items| + 1
  {
    if items == [] then [Item(k, v)]
    else if items[0].key == k then [Item(k, v)] + items[1..]
    else [items[0]] + Put(items[1..], k, v)
  }

  lemma {:induction false} PutSpec(items: seq<Item>, k: Key, v: Value)
    ensures Lookup(Put(items, k, v), k) == Some(v)
    ensures forall k' :: k' != k ==> Lookup(Put(items, k, v), k') == Lookup(items, k')
    ensures Lookup(items, k).Some? ==> Keys(Put(items, k, v)) == Keys(items)
    ensures Lookup(items, k).None? ==> Keys(Put(items, k, v)) == Keys(items) + [k]
  {
    if items != [] && items[0].key != k {
      PutSpec(items[1..], k, v);
      var r := Put(items, k, v);
      assert r[1..] == Put(items[1..], k, v);
      assert Keys(r) == [items[0].key] + Keys(r[1..]);
      assert Keys(items) == [items[0].key] + Keys(items[1..]);
    }
  }

  lemma LookupAbsent(items: seq<Item>, k: Key)
    ensures Lookup(items, k).None? <==> k !in Keys(items)
  {
    if items != [] {
      LookupAbsent(items[1..], k);
      assert Keys(items) == [items[0].key] + Keys(items[1..]);
    }
  }

  /** `isset($m[$k])`: the key is present and its value is not null. */
  predicate IsSet(m: map<string, Value>, k: string) {
    k in m && m[k] != Null
  }

  /** `empty($m[$k])`: the key is absent or its value is falsy. */
  predicate Empty(m: map<string, Value>, k: string) {
    k !in m || !Truthy(m[k])
  }

  /** `$m[$k] ?? $default`. */
  function Coalesce(m: map<string, Value>, k: string, default: Value): Value {
    if IsSet(m, k) then m[k] else default
  }
}
