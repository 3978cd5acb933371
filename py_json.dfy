/** The JSON values that json.load gives the two fix-up scripts, a.py and fix_img.py, and the
    three Python operations they apply to them: `key in value`, `value[key]` and
    `value[key] = new`. A dict keeps its keys in insertion order, as json.load builds it. */
module PyJson {
  import opened Text

  datatype Json =
    | JNull
    | JBool(b: bool)
    | JNum(n: int)
    | JStr(s: string)
    | JList(items: seq<Json>)
    | JDict(fields: seq<Field>)

  datatype Field = Field(key: string, value: Json)

  /** The exceptions the scripts can raise on unexpected data. */
  datatype PyError = TypeError | AttributeError | ValueError | KeyError

  datatype Result<T> = Ok(value: T) | Err(error: PyError)

  /** Python's truth value: None, False, 0 and empty strings, lists and dicts are false. */
  predicate Truthy(j: Json) {
    match j
    case JNull => false
    case JBool(b) => b
    case JNum(n) => n != 0
    case JStr(s) => s != ""
    case JList(xs) => xs != []
    case JDict(fs) => fs != []
  }

  predicate HasKey(fs: seq<Field>, k: string) {
    exists i :: 0 <= i < |fs| && fs[i].key == k
  }

  /** Where the key sits. */
  function FirstKey(fs: seq<Field>, k: string): (i: nat)
    requires HasKey(fs, k)
    ensures i < |fs| && fs[i].key == k
    ensures forall j :: 0 <= j < i ==> fs[j].key != k
  {
    if fs[0].key == k then 0
    else
      var w :| 0 <= w < |fs| && fs[w].key == k;
      assert fs[1..][w - 1].key == k;
      1 + FirstKey(fs[1..], k)
  }

  function Lookup(fs: seq<Field>, k: string): Json
    requires HasKey(fs, k)
  {
    fs[FirstKey(fs, k)].value
  }

  /** `d[k] = v` for a key already present: the key keeps its place. */
  function Store(fs: seq<Field>, k: string, v: Json): (r: seq<Field>)
    requires HasKey(fs, k)
    ensures |r| == |fs| && HasKey(r, k)
    ensures forall i :: 0 <= i < |fs| ==> r[i].key == fs[i].key
    ensures forall i :: 0 <= i < |fs| && i != FirstKey(fs, k) ==> r[i] == fs[i]
    ensures FirstKey(r, k) == FirstKey(fs, k) && Lookup(r, k) == v
  {
    var i := FirstKey(fs, k);
    var r := fs[i := Field(k, v)];
    assert r[i].key == k;
    var j := FirstKey(r, k);
    assert j <= i;
    r
  }

  /** Storing a key's own value changes nothing. */
  lemma {:induction false} StoreSame(fs: seq<Field>, k: string)
    requires HasKey(fs, k)
    ensures Store(fs, k, Lookup(fs, k)) == fs
  {
    var r := Store(fs, k, Lookup(fs, k));
    assert forall i :: 0 <= i < |fs| ==> r[i] == fs[i];
  }

  /** Storing one key leaves every other key's value as it was. */
  lemma {:induction false} StoreOther(fs: seq<Field>, k: string, v: Json, k': string)
    requires HasKey(fs, k) && HasKey(fs, k') && k != k'
    ensures HasKey(Store(fs, k, v), k') && Lookup(Store(fs, k, v), k') == Lookup(fs, k')
  {
    var r := Store(fs, k, v);
    var j := FirstKey(fs, k');
    assert r[j] == fs[j];
    assert forall i :: 0 <= i < j ==> r[i].key != k';
  }

  /** Python's `key in value` for a string key: dict membership, list membership, substring
      of a string, and a TypeError for None, booleans and numbers. */
  function In(key: string, value: Json): (r: Result<bool>)
    ensures value.JDict? ==> r == Ok(HasKey(value.fields, key))
    ensures value.JList? ==> r == Ok(exists i :: 0 <= i < |value.items| && value.items[i] == JStr(key))
    ensures value.JStr? ==> r == Ok(Contains(value.s, key))
    ensures r.Err? <==> (value.JNull? || value.JBool? || value.JNum?)
    ensures r.Err? ==> r.error == TypeError
  {
    match value
    case JDict(fs) => Ok(HasKey(fs, key))
    case JList(xs) => Ok(JStr(key) in xs)
    case JStr(s) => Ok(Contains(s, key))
    case _ => Err(TypeError)
  }

  /** Python's `value[key]` for a string key: only a dict holding the key gives a value; a
      dict without it raises KeyError, anything else TypeError. */
  function GetItem(value: Json, key: string): (r: Result<Json>)
    ensures r.Ok? <==> value.JDict? && HasKey(value.fields, key)
    ensures r.Ok? ==> r.value == Lookup(value.fields, key)
  {
    match value
    case JDict(fs) => if HasKey(fs, key) then Ok(Lookup(fs, key)) else Err(KeyError)
    case _ => Err(TypeError)
  }

  /** `value[key] = v` on a dict that holds the key. */
  function SetItem(value: Json, key: string, v: Json): (r: Json)
    requires value.JDict? && HasKey(value.fields, key)
    ensures r.JDict? && r.fields == Store(value.fields, key, v)
  {
    JDict(Store(value.fields, key, v))
  }
}
