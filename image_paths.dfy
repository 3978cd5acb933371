/** a.py: normalize_image_path, which rewrites any image path to the
    `/assets/dog_images/...` form, and the script's loop that applies it to the
    `image_path` of every pet in pets_data.json and counts the entries it changed. */
module ImagePaths {
  import opened Text
  import opened PyJson

  const NEW_PREFIX: string := "/assets/dog_images/"
  const MARKER: string := "dog_images/"

  // ---------------------------------------------------------------------------
  // String operations

  /** `k` occurs in `s` starting at position `i`. */
  predicate OccursAt(s: string, k: string, i: int) {
    0 <= i && i + |k| <= |s| && s[i..i + |k|] == k
  }

  /** The first position from `i` on at which `k` occurs, -1 when there is none. */
  function FindFrom(s: string, k: string, i: nat): (r: int)
    ensures r == -1 || (i <= r && OccursAt(s, k, r))
    ensures forall j :: i <= j && (r == -1 || j < r) ==> !OccursAt(s, k, j)
    decreases |s| - i
  {
    if i + |k| > |s| then -1
    else if s[i..i + |k|] == k then i
    else FindFrom(s, k, i + 1)
  }

  /** str.find: the first position at which `k` occurs, -1 when it occurs nowhere. */
  function Find(s: string, k: string): (r: int)
    ensures r >= -1
    ensures r >= 0 ==> OccursAt(s, k, r)
    ensures forall j :: 0 <= j && (r == -1 || j < r) ==> !OccursAt(s, k, j)
  {
    FindFrom(s, k, 0)
  }

  lemma {:induction false} OccursAtPrefix(s: string, k: string, i: nat)
    requires i <= |s|
    ensures OccursAt(s, k, i) <==> k <= s[i..]
  {
    if k <= s[i..] {
      assert s[i..i + |k|] == s[i..][..|k|];
    }
  }

  /** `k` does not start where its first character is missing. */
  lemma {:induction false} NotOccursAt(s: string, k: string, j: nat)
    requires j < |s| && k != [] && s[j] != k[0]
    ensures !OccursAt(s, k, j)
  {
    if j + |k| <= |s| {
      assert s[j..j + |k|][0] == s[j];
    }
  }

  /** str.find gives -1 exactly when `k` is not a substring. */
  lemma {:induction false} FindNone(s: string, k: string)
    ensures Find(s, k) == -1 <==> !Contains(s, k)
  {
    var f := Find(s, k);
    if f >= 0 {
      OccursAtPrefix(s, k, f);
      ContainsAt(s, k, f);
    }
    if Contains(s, k) {
      var i :| 0 <= i <= |s| && k <= s[i..];
      OccursAtPrefix(s, k, i);
    }
  }

  /** Where `s.split(sep)[-1]` starts when the split scans from position `i`: each
      occurrence found from there on, left to right and without overlap, moves the start to
      just after it. */
  function LastStart(s: string, sep: string, i: nat): (p: nat)
    requires sep != [] && i <= |s|
    ensures i <= p <= |s|
    ensures forall j :: p <= j ==> !OccursAt(s, sep, j)
    ensures FindFrom(s, sep, i) == -1 ==> p == i
    ensures FindFrom(s, sep, i) != -1 ==> i + |sep| <= p && OccursAt(s, sep, p - |sep|)
    decreases |s| - i
  {
    var f := FindFrom(s, sep, i);
    if f == -1 then i else LastStart(s, sep, f + |sep|)
  }

  /** `s.split(sep)[-1]`: the text after the last separator the split finds; all of `s`
      when there is none. */
  function LastPiece(s: string, sep: string): (r: string)
    requires sep != []
    ensures |r| <= |s| && r == s[|s| - |r|..]
    ensures !Contains(r, sep)
    ensures !Contains(s, sep) ==> r == s
    ensures Contains(s, sep) ==> |r| + |sep| <= |s| && OccursAt(s, sep, |s| - |r| - |sep|)
  {
    FindNone(s, sep);
    var p := LastStart(s, sep, 0);
    NoneAfter(s, sep, p);
    s[p..]
  }

  /** No occurrence from `p` on means none in the suffix from `p`. */
  lemma {:induction false} NoneAfter(s: string, k: string, p: nat)
    requires p <= |s| && forall j :: p <= j ==> !OccursAt(s, k, j)
    ensures !Contains(s[p..], k)
  {
    forall i | 0 <= i <= |s| - p
      ensures !(k <= s[p..][i..])
    {
      assert s[p..][i..] == s[p + i..];
      OccursAtPrefix(s, k, p + i);
    }
  }

  /** Without `sep` in it, the text is its own last piece. */
  lemma {:induction false} LastPieceWhole(s: string, sep: string)
    requires sep != [] && !Contains(s, sep)
    ensures LastPiece(s, sep) == s
  {
    FindNone(s, sep);
    assert LastStart(s, sep, 0) == 0;
  }

  /** Past a prefix, occurrences are those of the rest shifted by the prefix's length. */
  lemma {:induction false} OccursShift(a: string, t: string, k: string, j: nat)
    ensures OccursAt(a + t, k, |a| + j) <==> OccursAt(t, k, j)
  {
    var r := a + t;
    if j + |k| <= |t| {
      assert r[|a| + j..|a| + j + |k|] == t[j..j + |k|];
    }
  }

  /** After a prefix, a rest without `k` has no occurrence of it. */
  lemma {:induction false} NoneInRest(a: string, t: string, k: string)
    requires !Contains(t, k)
    ensures forall j :: |a| <= j ==> !OccursAt(a + t, k, j)
  {
    forall j | |a| <= j
      ensures !OccursAt(a + t, k, j)
    {
      OccursShift(a, t, k, j - |a|);
      OccursContains(t, k, j - |a|);
    }
  }

  lemma {:induction false} OccursContains(s: string, k: string, j: nat)
    ensures OccursAt(s, k, j) ==> Contains(s, k)
  {
    if OccursAt(s, k, j) {
      OccursAtPrefix(s, k, j);
      ContainsAt(s, k, j);
    }
  }

  /** `s.lstrip(c)`: every leading `c` removed. */
  function LStrip(s: string, c: char): (r: string)
    ensures |r| <= |s| && r == s[|s| - |r|..]
    ensures r == [] || r[0] != c
    ensures forall i :: 0 <= i < |s| - |r| ==> s[i] == c
    decreases |s|
  {
    if s != [] && s[0] == c then LStrip(s[1..], c) else s
  }

  /** A piece of text that does not contain `k` has no suffix containing it. */
  lemma {:induction false} SuffixLacks(s: string, n: nat, k: string)
    requires n <= |s| && !Contains(s, k)
    ensures !Contains(s[n..], k)
  {
    forall i | 0 <= i <= |s[n..]|
      ensures !(k <= s[n..][i..])
    {
      assert s[n..][i..] == s[n + i..];
    }
  }

  // ---------------------------------------------------------------------------
  // normalize_image_path

  /** What follows the prefix, taken from the slash-normalised path: the text after the
      last `dog_images/`, or the path without its leading slashes when there is no marker.
      Either way a suffix of the path with no marker in it. */
  function Tail(path: string): (t: string)
    ensures !Contains(t, MARKER)
    ensures |t| <= |path| && t == path[|path| - |t|..]
    ensures Contains(path, MARKER) ==> AfterSeparator(path, MARKER, t)
    ensures !Contains(path, MARKER) ==> t == LStrip(path, '/')
  {
    TailAfter(path, MARKER)
  }

  /** Tail for any non-empty marker. */
  function TailAfter(path: string, sep: string): (t: string)
    requires sep != []
    ensures !Contains(t, sep)
    ensures |t| <= |path| && t == path[|path| - |t|..]
    ensures Contains(path, sep) ==> AfterSeparator(path, sep, t)
    ensures !Contains(path, sep) ==> t == LStrip(path, '/')
  {
    if Contains(path, sep) then
      LastPiece(path, sep)
    else
      var t := LStrip(path, '/');
      SuffixLacks(path, |path| - |t|, sep);
      t
  }

  /** `t` is what follows an occurrence of `sep` at the end of `path`. */
  predicate AfterSeparator(path: string, sep: string, t: string) {
    && |t| + |sep| <= |path| && t == path[|path| - |t|..]
    && OccursAt(path, sep, |path| - |t| - |sep|)
  }

  /** No occurrence of the character. */
  predicate Lacks(s: string, c: char) {
    forall i :: 0 <= i < |s| ==> s[i] != c
  }

  lemma {:induction false} LacksSuffix(s: string, n: nat, c: char)
    requires n <= |s| && Lacks(s, c)
    ensures Lacks(s[n..], c)
  {
    assert forall i :: 0 <= i < |s| - n ==> s[n..][i] == s[n + i];
  }

  lemma {:induction false} PrefixLacksBackslash()
    ensures Lacks(NEW_PREFIX, '\\')
  {
  }

  lemma {:induction false} LacksAppend(a: string, b: string, c: char)
    requires Lacks(a, c) && Lacks(b, c)
    ensures Lacks(a + b, c)
  {
  }

  /** normalize_image_path on a string: the empty path is kept; any other gets the new
      prefix, followed by its Tail once backslashes are slashes, and has no backslash left. */
  function NormalizePath(p: string): (r: string)
    ensures p == "" ==> r == ""
    ensures p != "" ==> NEW_PREFIX <= r && Lacks(r, '\\')
  {
    if p == "" then p
    else
      var path := ReplaceChar(p, '\\', '/');
      var t := Tail(path);
      ReplaceCharRemovesAll(p, '\\', '/');
      LacksSuffix(path, |path| - |t|, '\\');
      PrefixLacksBackslash();
      LacksAppend(NEW_PREFIX, t, '\\');
      NEW_PREFIX + t
  }

  /** The marker branch: the result is the prefix followed by what comes after the last
      `dog_images/` of the slash-normalised path. */
  lemma {:induction false} AfterMarker(p: string)
    requires p != "" && Contains(ReplaceChar(p, '\\', '/'), MARKER)
    ensures NormalizePath(p) == NEW_PREFIX + LastPiece(ReplaceChar(p, '\\', '/'), MARKER)
    ensures AfterSeparator(ReplaceChar(p, '\\', '/'), MARKER, NormalizePath(p)[|NEW_PREFIX|..])
  {
    var path := ReplaceChar(p, '\\', '/');
    var t := Tail(path);
    assert NormalizePath(p) == NEW_PREFIX + t;
    assert (NEW_PREFIX + t)[|NEW_PREFIX|..] == t;
    assert AfterSeparator(path, MARKER, t);
  }

  /** The other branch: the prefix followed by the slash-normalised path without its
      leading slashes. */
  lemma {:induction false} WithoutMarker(p: string)
    requires p != "" && !Contains(ReplaceChar(p, '\\', '/'), MARKER)
    ensures NormalizePath(p) == NEW_PREFIX + LStrip(ReplaceChar(p, '\\', '/'), '/')
  {
  }

  /** In a normalised path, the first `dog_images/` is the one in the prefix. */
  lemma {:induction false} FindInPrefixed(t: string)
    ensures Find(NEW_PREFIX + t, MARKER) == 8
  {
    var r := NEW_PREFIX + t;
    assert r[8..8 + |MARKER|] == MARKER;
    assert OccursAt(r, MARKER, 8);
    var f := Find(r, MARKER);
    forall j | 0 <= j < 8
      ensures !OccursAt(r, MARKER, j)
    {
      assert r[j] == NEW_PREFIX[j] && NEW_PREFIX[j] != 'd';
      NotOccursAt(r, MARKER, j);
    }
  }

  /** Normalising a normalised path changes nothing: running a.py twice gives the same file. */
  lemma {:induction false} NormalizeIdempotent(p: string)
    ensures NormalizePath(NormalizePath(p)) == NormalizePath(p)
  {
    if p != "" {
      var r := NormalizePath(p);
      var t := Tail(ReplaceChar(p, '\\', '/'));
      assert r == NEW_PREFIX + t;
      assert ReplaceChar(r, '\\', '/') == r;
      LastOfPrefixed(t);
    }
  }

  /** A normalised path's last `dog_images/` is the one in the prefix. */
  lemma {:induction false} LastOfPrefixed(t: string)
    requires !Contains(t, MARKER)
    ensures Contains(NEW_PREFIX + t, MARKER) && LastPiece(NEW_PREFIX + t, MARKER) == t
  {
    var r := NEW_PREFIX + t;
    FindInPrefixed(t);
    OccursAtPrefix(r, MARKER, 8);
    ContainsAt(r, MARKER, 8);
    NoneInRest(NEW_PREFIX, t, MARKER);
    assert FindFrom(r, MARKER, 19) == -1;
    assert LastStart(r, MARKER, 0) == 19;
    assert r[19..] == t;
  }

  /** normalize_image_path(old_path) on whatever value the key holds: a falsy value is
      returned as it is, a non-empty string is normalised, and any other value has no
      `replace` method. */
  function NormalizeImagePath(prev: Json): (r: Result<Json>)
    ensures !Truthy(prev) ==> r == Ok(prev)
    ensures prev.JStr? ==> r == Ok(JStr(NormalizePath(prev.s)))
    ensures Truthy(prev) && !prev.JStr? ==> r == Err(AttributeError)
  {
    if !Truthy(prev) then Ok(prev)
    else if prev.JStr? then Ok(JStr(NormalizePath(prev.s)))
    else Err(AttributeError)
  }

  // ---------------------------------------------------------------------------
  // The update loop

  /** One pass of the loop body: the pet with its image path normalised when it has the
      key, and whether the value differed. */
  function UpdatePet(pet: Json): (r: Result<(Json, bool)>)
    ensures In("image_path", pet) == Ok(false) ==> r == Ok((pet, false))
    ensures r.Ok? ==> r.value.1 == (r.value.0 != pet)
    ensures r.Ok? && r.value.1 ==> (
      && pet.JDict? && HasKey(pet.fields, "image_path")
      && NormalizeImagePath(Lookup(pet.fields, "image_path")).Ok?
      && r.value.0 == SetItem(pet, "image_path", NormalizeImagePath(Lookup(pet.fields, "image_path")).value))
    ensures pet.JDict? && HasKey(pet.fields, "image_path") && Lookup(pet.fields, "image_path").JStr? ==> r.Ok?
  {
    match In("image_path", pet)
    case Err(e) => Err(e)
    case Ok(found) =>
      if !found then Ok((pet, false))
      else
        match GetItem(pet, "image_path")
        case Err(e) => Err(e)
        case Ok(prev) =>
          match NormalizeImagePath(prev)
          case Err(e) => Err(e)
          case Ok(next) =>
            var fs := pet.fields;
            if prev == next then
              StoreSame(fs, "image_path");
              Ok((SetItem(pet, "image_path", next), false))
            else
              assert Lookup(Store(fs, "image_path", next), "image_path") == next;
              Ok((SetItem(pet, "image_path", next), true))
  }

  /** The number of positions at which two equally long lists differ. */
  function CountDiffs(xs: seq<Json>, ys: seq<Json>): nat
    requires |xs| == |ys|
    decreases |xs|
  {
    if xs == [] then 0 else (if xs[0] != ys[0] then 1 else 0) + CountDiffs(xs[1..], ys[1..])
  }

  /** The loop over all pets with `step` as its body: the first error stops it; otherwise
      each pet is replaced in place by what the step gives, and the count goes up by one for
      each step that reports a change. */
  function Steps(step: Json -> Result<(Json, bool)>, pets: seq<Json>): (r: Result<(seq<Json>, nat)>)
    ensures r.Ok? ==> |r.value.0| == |pets| && r.value.1 <= |pets|
    decreases |pets|
  {
    if pets == [] then Ok(([], 0))
    else
      match step(pets[0])
      case Err(e) => Err(e)
      case Ok(one) =>
        match Steps(step, pets[1..])
        case Err(e) => Err(e)
        case Ok(done) => Ok(([one.0] + done.0, done.1 + if one.1 then 1 else 0))
  }

  /** The loop fails exactly when some step fails; otherwise every pet is replaced by its
      step's result, and the count is the number of steps that reported a change. */
  lemma {:induction false} StepsSpec(step: Json -> Result<(Json, bool)>, pets: seq<Json>)
    ensures Steps(step, pets).Err? <==> exists i :: 0 <= i < |pets| && step(pets[i]).Err?
    ensures Steps(step, pets).Ok? ==> (
      var ps := Steps(step, pets).value.0;
      && |ps| == |pets|
      && (forall i :: 0 <= i < |pets| ==> step(pets[i]).Ok? && step(pets[i]).value.0 == ps[i])
      && Steps(step, pets).value.1 == Reported(step, pets))
    decreases |pets|
  {
    if pets != [] {
      StepsSpec(step, pets[1..]);
      assert forall i :: 1 <= i < |pets| ==> pets[i] == pets[1..][i - 1];
      var one := step(pets[0]);
      var rest := Steps(step, pets[1..]);
      if one.Ok? && rest.Ok? {
        var ps := [one.value.0] + rest.value.0;
        assert forall i :: 1 <= i < |pets| ==> ps[i] == rest.value.0[i - 1];
      }
    }
  }

  /** How many of the pets the step reports as changed. */
  function Reported(step: Json -> Result<(Json, bool)>, pets: seq<Json>): nat
    decreases |pets|
  {
    if pets == [] then 0
    else (if step(pets[0]).Ok? && step(pets[0]).value.1 then 1 else 0) + Reported(step, pets[1..])
  }

  /** With UpdatePet as the step, a pet is reported exactly when it differs afterwards, so
      the count of a.py's loop is the number of pets it changed. */
  lemma {:induction false} ReportedChanged(pets: seq<Json>)
    requires Steps(UpdatePet, pets).Ok?
    ensures |Steps(UpdatePet, pets).value.0| == |pets|
    ensures Steps(UpdatePet, pets).value.1 == CountDiffs(pets, Steps(UpdatePet, pets).value.0)
    decreases |pets|
  {
    StepsSpec(UpdatePet, pets);
    if pets != [] {
      var ps := Steps(UpdatePet, pets).value.0;
      assert Steps(UpdatePet, pets[1..]).Ok?;
      ReportedChanged(pets[1..]);
      assert ps[1..] == Steps(UpdatePet, pets[1..]).value.0;
    }
  }

  /** A second run over updated pets changes nothing and counts nothing. */
  lemma {:induction false} UpdatePetTwice(pet: Json)
    requires UpdatePet(pet).Ok?
    ensures UpdatePet(UpdatePet(pet).value.0) == Ok((UpdatePet(pet).value.0, false))
  {
    var q := UpdatePet(pet).value.0;
    if q != pet {
      var fs := pet.fields;
      var prev := Lookup(fs, "image_path");
      var next := NormalizeImagePath(prev).value;
      assert q.fields == Store(fs, "image_path", next);
      assert Lookup(q.fields, "image_path") == next;
      if prev.JStr? {
        NormalizeIdempotent(prev.s);
      }
      assert NormalizeImagePath(next) == Ok(next);
    } else if In("image_path", pet) == Ok(true) {
      var prev := Lookup(pet.fields, "image_path");
      assert NormalizeImagePath(prev) == Ok(prev);
    }
  }

  /** A second run of a step that is idempotent in this sense changes nothing and
      counts nothing. */
  lemma {:induction false} StepsTwice(step: Json -> Result<(Json, bool)>, pets: seq<Json>)
    requires forall p :: step(p).Ok? ==> step(step(p).value.0) == Ok((step(p).value.0, false))
    requires Steps(step, pets).Ok?
    ensures Steps(step, Steps(step, pets).value.0) == Ok((Steps(step, pets).value.0, 0))
    decreases |pets|
  {
    if pets != [] {
      var ps := Steps(step, pets).value.0;
      assert Steps(step, pets[1..]).Ok?;
      StepsTwice(step, pets[1..]);
      assert ps[1..] == Steps(step, pets[1..]).value.0;
    }
  }

  /** Running a.py's loop again over its own output changes nothing and counts nothing. */
  lemma {:induction false} UpdateItemsTwice(pets: seq<Json>)
    requires Steps(UpdatePet, pets).Ok?
    ensures Steps(UpdatePet, Steps(UpdatePet, pets).value.0) == Ok((Steps(UpdatePet, pets).value.0, 0))
  {
    forall p | UpdatePet(p).Ok?
      ensures UpdatePet(UpdatePet(p).value.0) == Ok((UpdatePet(p).value.0, false))
    {
      UpdatePetTwice(p);
    }
    StepsTwice(UpdatePet, pets);
  }

  // ---------------------------------------------------------------------------
  // The script

  function Values(fs: seq<Field>): (vs: seq<Json>)
    ensures |vs| == |fs| && forall i :: 0 <= i < |fs| ==> vs[i] == fs[i].value
  {
    seq(|fs|, i requires 0 <= i < |fs| => fs[i].value)
  }

  /** The dict with its values replaced in order, its keys kept. */
  function WithValues(fs: seq<Field>, vs: seq<Json>): (r: seq<Field>)
    requires |vs| == |fs|
    ensures |r| == |fs| && forall i :: 0 <= i < |fs| ==> r[i] == Field(fs[i].key, vs[i])
  {
    seq(|fs|, i requires 0 <= i < |fs| => Field(fs[i].key, vs[i]))
  }

  /** The whole file: a list's items or a dict's values are the pets; anything else raises
      ValueError. The result is the rewritten document and the `changed` count. */
  function Normalized(data: Json): (r: Result<(Json, nat)>)
    ensures !data.JList? && !data.JDict? ==> r == Err(ValueError)
    ensures r.Ok? && data.JList? ==> r.value.0.JList? && |r.value.0.items| == |data.items|
    ensures r.Ok? && data.JDict? ==> (
      && r.value.0.JDict? && |r.value.0.fields| == |data.fields|
      && forall i :: 0 <= i < |data.fields| ==> r.value.0.fields[i].key == data.fields[i].key)
  {
    match data
    case JList(xs) =>
      StepsSpec(UpdatePet, xs);
      (match Steps(UpdatePet, xs)
       case Err(e) => Err(e)
       case Ok(done) => Ok((JList(done.0), done.1)))
    case JDict(fs) =>
      StepsSpec(UpdatePet, Values(fs));
      (match Steps(UpdatePet, Values(fs))
       case Err(e) => Err(e)
       case Ok(done) => Ok((JDict(WithValues(fs, done.0)), done.1)))
    case _ => Err(ValueError)
  }

  /** `Prepend(done, c, r)`: the result of the loop when `done` are the pets already
      updated, `c` their count and `r` the result over the remaining ones. */
  function Prepend(done: seq<Json>, c: nat, r: Result<(seq<Json>, nat)>): Result<(seq<Json>, nat)> {
    match r
    case Err(e) => Err(e)
    case Ok(rest) => Ok((done + rest.0, c + rest.1))
  }

  /** The loop stops at a pet whose step fails. */
  lemma {:induction false} StepErr(step: Json -> Result<(Json, bool)>, rest: seq<Json>)
    requires rest != [] && step(rest[0]).Err?
    ensures Steps(step, rest) == Err(step(rest[0]).error)
  {
  }

  /** A pet whose step succeeds goes in front of the rest's result. */
  lemma {:induction false} StepOk(step: Json -> Result<(Json, bool)>, rest: seq<Json>)
    requires rest != [] && step(rest[0]).Ok?
    ensures Steps(step, rest) == Prepend([step(rest[0]).value.0], if step(rest[0]).value.1 then 1 else 0, Steps(step, rest[1..]))
  {
  }

  lemma {:induction false} AppendAssoc(a: seq<Json>, b: seq<Json>, c: seq<Json>)
    ensures a + (b + c) == (a + b) + c
  {
  }

  lemma {:induction false} PrependTwice(a: seq<Json>, c: nat, b: seq<Json>, d: nat, r: Result<(seq<Json>, nat)>)
    ensures Prepend(a, c, Prepend(b, d, r)) == Prepend(a + b, c + d, r)
  {
    if r.Ok? {
      AppendAssoc(a, b, r.value.0);
    }
  }

  /** One more pet done: the loop's result is unchanged by moving the next pet from the
      remaining ones to the updated ones. */
  lemma {:induction false} PrependStep(step: Json -> Result<(Json, bool)>, done: seq<Json>, c: nat, rest: seq<Json>)
    requires rest != []
    ensures step(rest[0]).Err? ==> Prepend(done, c, Steps(step, rest)) == Err(step(rest[0]).error)
    ensures step(rest[0]).Ok? ==> (
      Prepend(done, c, Steps(step, rest))
      == Prepend(done + [step(rest[0]).value.0], c + (if step(rest[0]).value.1 then 1 else 0), Steps(step, rest[1..])))
  {
    if step(rest[0]).Ok? {
      StepOk(step, rest);
      PrependTwice(done, c, [step(rest[0]).value.0], if step(rest[0]).value.1 then 1 else 0, Steps(step, rest[1..]));
    } else {
      StepErr(step, rest);
    }
  }

  lemma {:induction false} PrependNothing(r: Result<(seq<Json>, nat)>)
    ensures Prepend([], 0, r) == r
  {
    if r.Ok? {
      assert [] + r.value.0 == r.value.0;
    }
  }

  /** Replacing the pet at `k` extends the updated part by one and leaves the rest as it
      was. */
  lemma {:induction false} ReplaceAt(pets: seq<Json>, items: seq<Json>, k: nat, v: Json)
    requires k < |pets| == |items| && pets[k..] == items[k..]
    ensures pets[k := v][k + 1..] == items[k + 1..]
    ensures pets[k := v][..k + 1] == pets[..k] + [v]
  {
    assert pets[k + 1..] == pets[k..][1..];
  }

  lemma {:induction false} PrependEnd(step: Json -> Result<(Json, bool)>, done: seq<Json>, c: nat)
    ensures Prepend(done, c, Steps(step, [])) == Ok((done, c))
  {
    assert done + [] == done;
  }

  /** The loop of a.py over the pets, `step` being its body: each pet is replaced in place
      by its update, and `changed` goes up for each pet the step reports as changed. */
  method RunSteps(step: Json -> Result<(Json, bool)>, items: seq<Json>) returns (out: Result<(seq<Json>, nat)>)
    ensures out == Steps(step, items)
  {
    var pets := items;
    var changed := 0;
    var k := 0;
    assert pets[..0] == [];
    PrependNothing(Steps(step, items));
    while k < |pets|
      invariant 0 <= k <= |pets| == |items|
      invariant pets[k..] == items[k..]
      invariant Steps(step, items) == Prepend(pets[..k], changed, Steps(step, items[k..]))
      decreases |pets| - k
    {
      var one := step(pets[k]);
      assert items[k..][0] == pets[k] && items[k..][1..] == items[k + 1..];
      PrependStep(step, pets[..k], changed, items[k..]);
      if one.Err? {
        return Err(one.error);
      }
      ReplaceAt(pets, items, k, one.value.0);
      pets := pets[k := one.value.0];
      if one.value.1 {
        changed := changed + 1;
      }
      k := k + 1;
    }
    assert items[k..] == [];
    assert pets[..k] == pets;
    PrependEnd(step, pets, changed);
    out := Ok((pets, changed));
  }

  /** The top-level script between json.load and json.dump: the list/dict dispatch, then
      the loop that overwrites each pet's `image_path` and counts the changed ones. */
  method NormalizeAll(data: Json) returns (out: Result<(Json, nat)>)
    ensures out == Normalized(data)
  {
    var items: seq<Json>;
    if data.JList? {
      items := data.items;
    } else if data.JDict? {
      items := Values(data.fields);
    } else {
      return Err(ValueError);
    }
    var done := RunSteps(UpdatePet, items);
    if done.Err? {
      return Err(done.error);
    }
    StepsSpec(UpdatePet, items);
    if data.JList? {
      out := Ok((JList(done.value.0), done.value.1));
    } else {
      out := Ok((JDict(WithValues(data.fields, done.value.0)), done.value.1));
    }
  }
}
