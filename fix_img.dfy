/** fix_img.py: for every item of pets_data.json, the string `name` is title-cased and the
    string `image_path` has its hyphens turned into underscores. */
module FixImg {
  import opened Text
  import opened PyJson

  // ---------------------------------------------------------------------------
  // str.title()

  /** str.title() with `prevCased` telling whether the character before `s` was cased: a
      cased letter is upper-cased at the start of a run of cased letters and lower-cased
      inside one; every other character is kept. */
  function TitleFrom(s: string, prevCased: bool): (r: string)
    ensures |r| == |s|
    decreases |s|
  {
    if s == [] then []
    else
      var c := s[0];
      [if !IsCased(c) then c else if prevCased then LowerChar(c) else UpperChar(c)]
        + TitleFrom(s[1..], IsCased(c))
  }

  function Title(s: string): (r: string)
    ensures |r| == |s|
  {
    TitleFrom(s, false)
  }

  /** A cased letter starts a word when it is first or follows an uncased character. */
  predicate StartsWord(s: string, i: nat)
    requires i < |s|
  {
    i == 0 || !IsCased(s[i - 1])
  }

  /** What str.title() puts at position `i`, read off the text itself. */
  function TitleChar(s: string, i: nat): char
    requires i < |s|
  {
    if !IsCased(s[i]) then s[i]
    else if StartsWord(s, i) then UpperChar(s[i])
    else LowerChar(s[i])
  }

  lemma {:induction false} TitleFromAt(s: string, prevCased: bool, i: nat)
    requires i < |s|
    ensures TitleFrom(s, prevCased)[i] == (
      if !IsCased(s[i]) then s[i]
      else if (if i == 0 then prevCased else IsCased(s[i - 1])) then LowerChar(s[i])
      else UpperChar(s[i]))
    decreases i
  {
    if i > 0 {
      TitleFromAt(s[1..], IsCased(s[0]), i - 1);
      assert s[1..][i - 1] == s[i];
      if i > 1 {
        assert s[1..][i - 2] == s[i - 1];
      }
    }
  }

  /** Position by position, Title is the character TitleChar names. */
  lemma {:induction false} TitleAt(s: string)
    ensures forall i :: 0 <= i < |s| ==> Title(s)[i] == TitleChar(s, i)
  {
    forall i | 0 <= i < |s|
      ensures Title(s)[i] == TitleChar(s, i)
    {
      TitleFromAt(s, false, i);
    }
  }

  /** Title-casing keeps which characters are cased. */
  lemma {:induction false} TitleKeepsCased(s: string)
    ensures forall i :: 0 <= i < |s| ==> IsCased(Title(s)[i]) == IsCased(s[i])
  {
    TitleAt(s);
  }

  /** Title-casing a title-cased string changes nothing. */
  lemma {:induction false} TitleIdempotent(s: string)
    ensures Title(Title(s)) == Title(s)
  {
    var t := Title(s);
    TitleAt(s);
    TitleAt(t);
    TitleKeepsCased(s);
    forall i | 0 <= i < |s|
      ensures Title(t)[i] == t[i]
    {
      if IsCased(s[i]) && i > 0 {
        assert IsCased(t[i - 1]) == IsCased(s[i - 1]);
      }
    }
  }

  /** Two words: the first letter of each is upper-cased and the rest lower-cased. */
  lemma {:induction false} TitleTwoWords()
    ensures Title("sHiBa-iNU") == "Shiba-Inu"
  {
    TitleAt("sHiBa-iNU");
  }

  // ---------------------------------------------------------------------------
  // One item

  /** `if key in item and isinstance(item[key], str): item[key] = fix(item[key])`: the
      membership test raises on None, booleans and numbers; when it holds, the lookup
      raises on anything that is not a dict; a non-string value is left alone. */
  function FixField(item: Json, key: string, fix: string -> string): (r: Result<Json>)
    ensures item.JDict? ==> r.Ok?
    ensures r.Ok? && r.value != item ==> (
      && item.JDict? && HasKey(item.fields, key) && Lookup(item.fields, key).JStr?
      && r.value == SetItem(item, key, JStr(fix(Lookup(item.fields, key).s))))
    ensures item.JDict? && HasKey(item.fields, key) && Lookup(item.fields, key).JStr? ==>
      r == Ok(SetItem(item, key, JStr(fix(Lookup(item.fields, key).s))))
    ensures r.Err? ==> r.error == TypeError
  {
    match In(key, item)
    case Err(e) => Err(e)
    case Ok(found) =>
      if !found then Ok(item)
      else
        match GetItem(item, key)
        case Err(e) => Err(e)
        case Ok(v) => if v.JStr? then Ok(SetItem(item, key, JStr(fix(v.s)))) else Ok(item)
  }

  function Underscored(s: string): (r: string)
    ensures |r| == |s| && forall i :: 0 <= i < |r| ==> r[i] != '-'
    ensures forall i :: 0 <= i < |s| ==> r[i] == (if s[i] == '-' then '_' else s[i])
  {
    ReplaceCharRemovesAll(s, '-', '_');
    ReplaceChar(s, '-', '_')
  }

  /** The loop body: the name first, then the image path. */
  function FixItem(item: Json): (r: Result<Json>)
    ensures item.JDict? ==> r.Ok? && r.value.JDict?
    ensures r.Err? ==> r.error == TypeError
  {
    match FixField(item, "name", Title)
    case Err(e) => Err(e)
    case Ok(named) => FixField(named, "image_path", Underscored)
  }

  /** A dict keeps its keys in their order, and every field other than `name` and
      `image_path` keeps its value. */
  lemma {:induction false} FixItemKeeps(item: Json)
    requires item.JDict?
    ensures |FixItem(item).value.fields| == |item.fields|
    ensures forall i :: 0 <= i < |item.fields| ==> FixItem(item).value.fields[i].key == item.fields[i].key
    ensures forall i :: 0 <= i < |item.fields| && item.fields[i].key != "name" && item.fields[i].key != "image_path" ==>
      FixItem(item).value.fields[i] == item.fields[i]
  {
    var named := FixField(item, "name", Title).value;
    var done := FixItem(item).value;
    assert |named.fields| == |item.fields|;
    assert forall i :: 0 <= i < |item.fields| ==> named.fields[i].key == item.fields[i].key;
    forall i | 0 <= i < |item.fields| && item.fields[i].key != "name"
      ensures named.fields[i] == item.fields[i]
    {
      if named != item {
        var fs := item.fields;
        assert named.fields == Store(fs, "name", JStr(Title(Lookup(fs, "name").s)));
        assert fs[FirstKey(fs, "name")].key == "name";
      }
    }
    forall i | 0 <= i < |item.fields| && item.fields[i].key != "image_path"
      ensures done.fields[i] == named.fields[i]
    {
      if done != named {
        var fs := named.fields;
        assert fs[FirstKey(fs, "image_path")].key == "image_path";
      }
    }
  }

  /** A string name is title-cased and a string image path loses its hyphens. */
  lemma {:induction false} FixItemStrings(item: Json)
    requires item.JDict? && HasKey(item.fields, "name") && Lookup(item.fields, "name").JStr?
    requires HasKey(item.fields, "image_path") && Lookup(item.fields, "image_path").JStr?
    ensures var r := FixItem(item).value;
      && HasKey(r.fields, "name") && HasKey(r.fields, "image_path")
      && Lookup(r.fields, "name") == JStr(Title(Lookup(item.fields, "name").s))
      && Lookup(r.fields, "image_path") == JStr(Underscored(Lookup(item.fields, "image_path").s))
  {
    var fs := item.fields;
    var named := SetItem(item, "name", JStr(Title(Lookup(fs, "name").s)));
    StoreOther(fs, "name", JStr(Title(Lookup(fs, "name").s)), "image_path");
    var r := SetItem(named, "image_path", JStr(Underscored(Lookup(named.fields, "image_path").s)));
    StoreOther(named.fields, "image_path", JStr(Underscored(Lookup(named.fields, "image_path").s)), "name");
  }

  /** Running the fix twice gives what running it once gives. */
  lemma {:induction false} FixFieldTwice(item: Json, key: string, fix: string -> string)
    requires forall s :: fix(fix(s)) == fix(s)
    requires FixField(item, key, fix).Ok?
    ensures FixField(FixField(item, key, fix).value, key, fix) == FixField(item, key, fix)
  {
    var r := FixField(item, key, fix).value;
    if r != item {
      var fs := item.fields;
      var v := JStr(fix(Lookup(fs, key).s));
      assert r.fields == Store(fs, key, v);
      assert Lookup(r.fields, key) == v;
      StoreTwice(fs, key, v);
    }
  }

  lemma {:induction false} StoreTwice(fs: seq<Field>, k: string, v: Json)
    requires HasKey(fs, k)
    ensures Store(Store(fs, k, v), k, v) == Store(fs, k, v)
  {
    var once := Store(fs, k, v);
    StoreSame(once, k);
  }

  lemma {:induction false} UnderscoredIdempotent()
    ensures forall s :: Underscored(Underscored(s)) == Underscored(s)
  {
    forall s {
      ReplaceCharIdempotent(s, '-', '_');
    }
  }

  lemma {:induction false} TitleIdempotentAll()
    ensures forall s :: Title(Title(s)) == Title(s)
  {
    forall s {
      TitleIdempotent(s);
    }
  }

  /** Fixing the name does not disturb what the image-path step sees, and the image-path
      step leaves a fixed name fixed. */
  lemma {:induction false} FixItemTwice(item: Json)
    requires FixItem(item).Ok?
    ensures FixItem(FixItem(item).value) == FixItem(item)
  {
    TitleIdempotentAll();
    UnderscoredIdempotent();
    var named := FixField(item, "name", Title).value;
    var done := FixItem(item).value;
    FixFieldTwice(item, "name", Title);
    FixFieldTwice(named, "image_path", Underscored);
    assert FixField(done, "name", Title) == Ok(done) by {
      NameSurvives(item, named, done);
    }
  }

  /** After both steps the name is still one the name step leaves alone. */
  lemma {:induction false} NameSurvives(item: Json, named: Json, done: Json)
    requires forall s :: Title(Title(s)) == Title(s)
    requires FixField(item, "name", Title) == Ok(named)
    requires FixField(named, "image_path", Underscored) == Ok(done)
    ensures FixField(done, "name", Title) == Ok(done)
  {
    FixFieldTwice(item, "name", Title);
    if done != named {
      var fs := named.fields;
      var v := JStr(Underscored(Lookup(fs, "image_path").s));
      assert done.fields == Store(fs, "image_path", v);
      if HasKey(fs, "name") {
        StoreOther(fs, "image_path", v, "name");
        assert Lookup(done.fields, "name") == Lookup(fs, "name");
        if Lookup(fs, "name").JStr? {
          var w := JStr(Title(Lookup(fs, "name").s));
          assert FixField(named, "name", Title) == Ok(named);
          assert SetItem(named, "name", w) == named;
          StoreAgain(fs, "image_path", v, "name", w);
        }
      } else {
        assert !HasKey(done.fields, "name");
      }
    }
  }

  /** Storing two different keys in either order gives the same fields. */
  lemma {:induction false} StoreAgain(fs: seq<Field>, k: string, v: Json, k': string, w: Json)
    requires HasKey(fs, k) && HasKey(fs, k') && k != k' && Store(fs, k', w) == fs
    ensures Store(Store(fs, k, v), k', w) == Store(fs, k, v)
  {
    var once := Store(fs, k, v);
    StoreOther(fs, k, v, k');
    assert Lookup(once, k') == Lookup(fs, k');
    assert Lookup(Store(fs, k', w), k') == w;
    StoreSame(once, k');
  }

  // ---------------------------------------------------------------------------
  // The whole file

  /** `for item in data`: a list gives its items, a dict its keys, a string its characters;
      None, booleans and numbers are not iterable. */
  function Iterate(data: Json): (r: Result<seq<Json>>)
    ensures r.Err? <==> data.JNull? || data.JBool? || data.JNum?
    ensures data.JList? ==> r == Ok(data.items)
  {
    match data
    case JList(xs) => Ok(xs)
    case JDict(fs) => Ok(seq(|fs|, i requires 0 <= i < |fs| => JStr(fs[i].key)))
    case JStr(s) => Ok(seq(|s|, i requires 0 <= i < |s| => JStr([s[i]])))
    case _ => Err(TypeError)
  }

  /** The loop with `f` as its body: the first error stops it, otherwise each item is
      replaced by what `f` gives. */
  function MapAll(f: Json -> Result<Json>, xs: seq<Json>): (r: Result<seq<Json>>)
    ensures r.Ok? ==> |r.value| == |xs|
    decreases |xs|
  {
    if xs == [] then Ok([])
    else
      match f(xs[0])
      case Err(e) => Err(e)
      case Ok(y) =>
        match MapAll(f, xs[1..])
        case Err(e) => Err(e)
        case Ok(ys) => Ok([y] + ys)
  }

  /** The loop fails exactly when some item fails; otherwise every item is replaced by its
      result, in order. */
  lemma {:induction false} MapAllSpec(f: Json -> Result<Json>, xs: seq<Json>)
    ensures MapAll(f, xs).Err? <==> exists i :: 0 <= i < |xs| && f(xs[i]).Err?
    ensures MapAll(f, xs).Ok? ==> (
      && |MapAll(f, xs).value| == |xs|
      && forall i :: 0 <= i < |xs| ==> f(xs[i]) == Ok(MapAll(f, xs).value[i]))
    ensures MapAll(f, xs).Err? ==>
      exists i :: 0 <= i < |xs| && f(xs[i]).Err? && f(xs[i]).error == MapAll(f, xs).error
    decreases |xs|
  {
    if xs != [] {
      MapAllSpec(f, xs[1..]);
      assert forall i :: 1 <= i < |xs| ==> xs[i] == xs[1..][i - 1];
      var y := f(xs[0]);
      var rest := MapAll(f, xs[1..]);
      if y.Ok? && rest.Ok? {
        var ys := [y.value] + rest.value;
        assert forall i :: 1 <= i < |xs| ==> ys[i] == rest.value[i - 1];
      }
    }
  }

  /** The script between json.load and json.dump: a list has its items fixed in place; the
      keys of a dict and the characters of a string are fixed as copies, so the data stays
      as it was unless one of them raises. */
  function Fixed(data: Json): (r: Result<Json>)
    ensures Iterate(data).Err? ==> r == Err(TypeError)
    ensures r.Ok? && data.JList? ==> r.value.JList? && |r.value.items| == |data.items|
    ensures r.Ok? && data.JList? ==>
      forall i :: 0 <= i < |data.items| ==> FixItem(data.items[i]) == Ok(r.value.items[i])
    ensures data.JList? ==> (r.Err? <==> exists i :: 0 <= i < |data.items| && FixItem(data.items[i]).Err?)
    ensures Iterate(data).Ok? ==> (r.Err? <==>
      exists i :: 0 <= i < |Iterate(data).value| && FixItem(Iterate(data).value[i]).Err?)
    ensures r.Err? ==> r.error == TypeError
    ensures r.Ok? && !data.JList? ==> r.value == data
  {
    match Iterate(data)
    case Err(e) => Err(e)
    case Ok(items) =>
      MapAllSpec(FixItem, items);
      match MapAll(FixItem, items)
      case Err(e) => Err(e)
      case Ok(ys) => if data.JList? then Ok(JList(ys)) else Ok(data)
  }

  /** A string met as a loop item (a dict key, a character, a list element) raises
      TypeError exactly when it contains "name" or "image_path": the membership test is
      substring search, and the lookup that follows cannot index a string by a string. */
  lemma {:induction false} StringItem(s: string)
    ensures FixItem(JStr(s)).Err? <==> Contains(s, "name") || Contains(s, "image_path")
    ensures FixItem(JStr(s)).Ok? ==> FixItem(JStr(s)).value == JStr(s)
  {
  }

  /** `{"name": "x"}` iterates over its key "name", and `"name" in "name"` holds, so the
      script raises TypeError on it. */
  lemma {:induction false} DictWithNameKeyRaises()
    ensures Fixed(JDict([Field("name", JStr("x"))])) == Err(TypeError)
  {
    var data := JDict([Field("name", JStr("x"))]);
    assert Iterate(data).value == [JStr("name")];
    assert "name" <= "name"[0..];
    StringItem("name");
  }

  /** In a list of dicts nothing raises, and each dict gets its name and image path fixed. */
  lemma {:induction false} DictItemsFixed(xs: seq<Json>)
    requires forall i :: 0 <= i < |xs| ==> xs[i].JDict?
    ensures Fixed(JList(xs)).Ok?
    ensures forall i :: 0 <= i < |xs| ==> FixItem(xs[i]) == Ok(Fixed(JList(xs)).value.items[i])
  {
    MapAllSpec(FixItem, xs);
  }

  lemma {:induction false} MapAllTwice(f: Json -> Result<Json>, xs: seq<Json>)
    requires forall x :: f(x).Ok? ==> f(f(x).value) == f(x)
    requires MapAll(f, xs).Ok?
    ensures MapAll(f, MapAll(f, xs).value) == MapAll(f, xs)
    decreases |xs|
  {
    if xs != [] {
      var ys := MapAll(f, xs).value;
      assert MapAll(f, xs[1..]).Ok?;
      MapAllTwice(f, xs[1..]);
      assert ys[1..] == MapAll(f, xs[1..]).value;
    }
  }

  /** Running fix_img.py a second time on its own output changes nothing. */
  lemma {:induction false} FixedTwice(data: Json)
    requires Fixed(data).Ok?
    ensures Fixed(Fixed(data).value) == Fixed(data)
  {
    if data.JList? {
      forall x | FixItem(x).Ok?
        ensures FixItem(FixItem(x).value) == FixItem(x)
      {
        FixItemTwice(x);
      }
      MapAllTwice(FixItem, data.items);
    }
  }

  // ---------------------------------------------------------------------------
  // The loop

  lemma {:induction false} MapAllErr(f: Json -> Result<Json>, rest: seq<Json>)
    requires rest != [] && f(rest[0]).Err?
    ensures MapAll(f, rest) == Err(f(rest[0]).error)
  {
  }

  lemma {:induction false} MapAllOk(f: Json -> Result<Json>, rest: seq<Json>)
    requires rest != [] && f(rest[0]).Ok?
    ensures MapAll(f, rest) == After([f(rest[0]).value], MapAll(f, rest[1..]))
  {
  }

  /** The loop's result when `done` are the items already fixed and `r` is the result over
      the remaining ones. */
  function After(done: seq<Json>, r: Result<seq<Json>>): Result<seq<Json>> {
    match r
    case Err(e) => Err(e)
    case Ok(ys) => Ok(done + ys)
  }

  lemma {:induction false} AfterTwice(a: seq<Json>, b: seq<Json>, r: Result<seq<Json>>)
    ensures After(a, After(b, r)) == After(a + b, r)
  {
    if r.Ok? {
      assert a + (b + r.value) == (a + b) + r.value;
    }
  }

  /** One more item done: the loop's result is unchanged by moving the next item from the
      remaining ones to the fixed ones. */
  lemma {:induction false} AfterStep(f: Json -> Result<Json>, done: seq<Json>, rest: seq<Json>)
    requires rest != []
    ensures f(rest[0]).Err? ==> After(done, MapAll(f, rest)) == Err(f(rest[0]).error)
    ensures f(rest[0]).Ok? ==> After(done, MapAll(f, rest)) == After(done + [f(rest[0]).value], MapAll(f, rest[1..]))
  {
    if f(rest[0]).Ok? {
      MapAllOk(f, rest);
      AfterTwice(done, [f(rest[0]).value], MapAll(f, rest[1..]));
    } else {
      MapAllErr(f, rest);
    }
  }

  /** `for item in data:` over a list, each item replaced in place by the fixed one. */
  method FixEach(items: seq<Json>) returns (out: Result<seq<Json>>)
    ensures out == MapAll(FixItem, items)
  {
    var xs := items;
    var k := 0;
    assert xs[..0] == [];
    assert After([], MapAll(FixItem, items)) == MapAll(FixItem, items) by {
      if MapAll(FixItem, items).Ok? {
        assert [] + MapAll(FixItem, items).value == MapAll(FixItem, items).value;
      }
    }
    while k < |xs|
      invariant 0 <= k <= |xs| == |items|
      invariant xs[k..] == items[k..]
      invariant MapAll(FixItem, items) == After(xs[..k], MapAll(FixItem, items[k..]))
      decreases |xs| - k
    {
      var r := FixItem(xs[k]);
      assert items[k..][0] == xs[k] && items[k..][1..] == items[k + 1..];
      AfterStep(FixItem, xs[..k], items[k..]);
      if r.Err? {
        return Err(r.error);
      }
      assert xs[k + 1..] == xs[k..][1..];
      assert xs[k := r.value][..k + 1] == xs[..k] + [r.value];
      xs := xs[k := r.value];
      k := k + 1;
    }
    assert items[k..] == [];
    assert xs[..k] == xs;
    assert xs + [] == xs;
    out := Ok(xs);
  }

  /** The whole script between json.load and json.dump. */
  method FixImages(data: Json) returns (out: Result<Json>)
    ensures out == Fixed(data)
  {
    var it := Iterate(data);
    if it.Err? {
      return Err(it.error);
    }
    var done := FixEach(it.value);
    if done.Err? {
      return Err(done.error);
    }
    if data.JList? {
      out := Ok(JList(done.value));
    } else {
      out := Ok(data);
    }
  }
}
