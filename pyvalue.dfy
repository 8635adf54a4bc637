/** The values `yaml.safe_load` produces, and the Python operations the workflow validator
    applies to them: truthiness, `key in v`, `v[key]`, `v.items()` and iteration. Each
    operation either returns or raises (a `TypeError`, `KeyError` or `AttributeError`). */
module PyValue {
  import Text

  /** A loaded YAML value. A mapping keeps its entries in document order; its keys are
      distinct, as in a Python dict. Floats and timestamps are not represented. */
  datatype Value =
    | Str(s: string)
    | Bool(b: bool)
    | Num(n: int)
    | Null
    | List(items: seq<Value>)
    | Dict(entries: seq<(Value, Value)>)

  /** A Python computation that returned a value or raised an exception. */
  datatype Outcome<+T> = Returned(value: T) | Raised {

    predicate IsFailure() {
      Raised?
    }

    function PropagateFailure<U>(): Outcome<U>
      requires Raised?
    {
      Raised
    }

    function Extract(): T
      requires Returned?
    {
      value
    }
  }

  /** `bool(v)`. */
  predicate Truthy(v: Value) {
    match v
    case Str(s) => s != ""
    case Bool(b) => b
    case Num(n) => n != 0
    case Null => false
    case List(items) => |items| > 0
    case Dict(entries) => |entries| > 0
  }

  predicate HasKey(entries: seq<(Value, Value)>, key: string) {
    exists k :: 0 <= k < |entries| && entries[k].0 == Str(key)
  }

  /** `key in v` for a string `key`: a mapping tests its keys, a list its elements, a string
      its substrings; on anything else it raises `TypeError`. */
  function In(key: string, v: Value): Outcome<bool> {
    match v
    case Dict(entries) => Returned(HasKey(entries, key))
    case List(items) => Returned(Str(key) in items)
    case Str(s) => Returned(Text.Contains(s, key))
    case _ => Raised
  }

  function Lookup(entries: seq<(Value, Value)>, key: string): (r: Outcome<Value>)
    ensures r.Returned? <==> HasKey(entries, key)
    ensures r.Returned? ==> exists k :: 0 <= k < |entries| && entries[k] == (Str(key), r.value)
    decreases |entries|
  {
    if |entries| == 0 then Raised
    else if entries[0].0 == Str(key) then Returned(entries[0].1)
    else
      var r := Lookup(entries[1..], key);
      assert HasKey(entries, key) ==> HasKey(entries[1..], key) by {
        if HasKey(entries, key) {
          var k :| 0 <= k < |entries| && entries[k].0 == Str(key);
          assert k > 0 && entries[1..][k - 1] == entries[k];
        }
      }
      assert r.Returned? ==> exists k :: 0 <= k < |entries| && entries[k] == (Str(key), r.value) by {
        if r.Returned? {
          var k :| 0 <= k < |entries[1..]| && entries[1..][k] == (Str(key), r.value);
          assert entries[k + 1] == entries[1..][k];
        }
      }
      r
  }

  /** `v[key]` for a string `key`: only a mapping that has the key returns; a missing key
      raises `KeyError`, any other value `TypeError`. */
  function GetItem(v: Value, key: string): (r: Outcome<Value>)
    ensures In(key, v) == Returned(true) && v.Dict? ==> r.Returned?
  {
    match v
    case Dict(entries) => Lookup(entries, key)
    case _ => Raised
  }

  /** `v.items()`: only a mapping has it. */
  function Items(v: Value): Outcome<seq<(Value, Value)>> {
    match v
    case Dict(entries) => Returned(entries)
    case _ => Raised
  }

  function Keys(entries: seq<(Value, Value)>): (r: seq<Value>)
    ensures |r| == |entries|
    ensures forall k :: 0 <= k < |entries| ==> r[k] == entries[k].0
    decreases |entries|
  {
    if |entries| == 0 then [] else [entries[0].0] + Keys(entries[1..])
  }

  function Chars(s: string): (r: seq<Value>)
    ensures |r| == |s|
    ensures forall k :: 0 <= k < |s| ==> r[k] == Str([s[k]])
    decreases |s|
  {
    if |s| == 0 then [] else [Str([s[0]])] + Chars(s[1..])
  }

  /** What `for x in v` visits: a list's elements, a mapping's keys, a string's characters;
      anything else raises `TypeError`. */
  function Iterate(v: Value): Outcome<seq<Value>> {
    match v
    case List(items) => Returned(items)
    case Dict(entries) => Returned(Keys(entries))
    case Str(s) => Returned(Chars(s))
    case _ => Raised
  }

  /** A list `prefix` built before running `o`, extended with what `o` returns. */
  function Then<T>(prefix: seq<T>, o: Outcome<seq<T>>): Outcome<seq<T>> {
    match o
    case Raised => Raised
    case Returned(xs) => Returned(prefix + xs)
  }

  lemma ThenAssociative<T>(a: seq<T>, b: seq<T>, o: Outcome<seq<T>>)
    ensures Then(a, Then(b, o)) == Then(a + b, o)
  {
    if o.Returned? {
      assert a + (b + o.value) == (a + b) + o.value;
    }
  }
}
