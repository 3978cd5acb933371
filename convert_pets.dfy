/** convert_pets.js at the repository root: the quote-aware parseCSV loop over dog.csv and
    the record built from each data row below the two header rows. */
module ConvertPets {
  import opened Text
  import opened CsvScan
  import opened PetFields

  /** parseCSV(text): one pass over the characters, the index advancing by one more on an
      escaped quote and on the LF of a CR LF pair; a line that is one empty cell is skipped
      and at the end only the pending row is pushed. */
  method ParseCsv(text: string) returns (result: seq<Row>)
    ensures result == Parse(ROOT, text)
  {
    result := [];
    var row: Row := [];
    var inQuote := false;
    var cell := "";
    var i := 0;
    while i < |text|
      invariant 0 <= i <= |text|
      invariant Scan(ROOT, text[i..], inQuote, cell, row, result) == Parse(ROOT, text)
      decreases |text| - i
    {
      var c := text[i];
      ghost var s := text[i..];
      assert s[0] == c && s[1..] == text[i + 1..];
      if c == '"' {
        if inQuote && i + 1 < |text| && text[i + 1] == '"' {
          assert s[2..] == text[i + 2..];
          cell := cell + ['"'];
          i := i + 1;
        } else {
          inQuote := !inQuote;
        }
      } else if c == ',' && !inQuote {
        row := row + [cell];
        cell := "";
      } else if (c == '\r' || c == '\n') && !inQuote {
        if c == '\r' && i + 1 < |text| && text[i + 1] == '\n' {
          assert s[2..] == text[i + 2..];
          i := i + 1;
        }
        row := row + [cell];
        if |row| > 1 || row[0] != "" {
          result := result + [row];
        }
        row := [];
        cell := "";
      } else {
        cell := cell + [c];
      }
      i := i + 1;
    }
    if |row| > 0 {
      result := result + [row];
    }
  }

  /** The size label from the space score: 1 is small, 3 is large, anything else medium. */
  function SizeOfSpace(space: int): (r: string)
    ensures r == SMALL <==> space == 1
    ensures r == LARGE <==> space == 3
    ensures r == MEDIUM <==> space != 1 && space != 3
  {
    if space == 3 then LARGE else if space == 1 then SMALL else MEDIUM
  }

  /** `name.toLowerCase().trim().replace(/\s+/g, '_')` */
  function Slug(name: string): (r: string)
    ensures NoSpace(r)
  {
    CollapseSpaces(Strip(Lower(name)))
  }

  /** `parseInt(get(11)) === 1 ? 'Cat' : 'Dog'` */
  function Kind(cell: string): (r: string)
    ensures r == "Cat" <==> ParseInt(cell) == Some(1)
    ensures r == "Cat" || r == "Dog"
  {
    if ParseInt(cell) == Some(1) then "Cat" else "Dog"
  }

  /** `dataRows.map(row => ...)`: no record for a row whose name cell (index 1) is blank;
      otherwise the record with its slug, scores, size, price range and image path. */
  function BuildPet(row: Row): (r: Option<Pet>)
    ensures r.Some? <==> Get(row, 1) != ""
    ensures r.Some? ==> NoSpace(r.value.id) && r.value.id == Slug(Get(row, 1))
    ensures r.Some? ==> r.value.name == ReplaceChar(Get(row, 1), '_', ' ')
    ensures r.Some? ==> r.value.lifespan == Get(row, 2) && r.value.careInstruction == Get(row, 3)
    ensures r.Some? ==> r.value.price == Prices(Get(row, 4), Get(row, 5), Get(row, 6))
    ensures r.Some? ==> (r.value.priceMin, r.value.priceMax) == PriceBounds(Get(row, 4), Get(row, 5), Get(row, 6), 0, 100)
    ensures r.Some? ==> r.value.imagePath == "/assets/dog_images/" + r.value.id + "/avatar.jpg"
    ensures r.Some? ==> r.value.priceMin <= r.value.priceMax
    ensures r.Some? ==> (r.value.kind == "Cat" <==> ParseInt(Get(row, 11)) == Some(1))
    ensures r.Some? ==> (r.value.size == SMALL <==> r.value.scores.space == 1)
    ensures r.Some? ==> (r.value.size == LARGE <==> r.value.scores.space == 3)
    ensures r.Some? ==> var s := r.value.scores;
      && s.energy == OrDefault(ParseInt(Get(row, 7)), 2)
      && s.space == OrDefault(ParseInt(Get(row, 8)), 2)
      && s.grooming == OrDefault(ParseInt(Get(row, 9)), 2)
      && s.kidFriendly == OrDefault(ParseInt(Get(row, 10)), 1)
      && s.energy != 0 && s.space != 0 && s.grooming != 0 && s.kidFriendly != 0
  {
    var name := Get(row, 1);
    if name == "" then None
    else
      var slug := Slug(name);
      var paper := Get(row, 4);
      var noPaper := Get(row, 5);
      var international := Get(row, 6);
      var space := OrDefault(ParseInt(Get(row, 8)), 2);
      var range := PriceBounds(paper, noPaper, international, 0, 100);
      Some(Pet(
        slug,
        ReplaceChar(name, '_', ' '),
        Kind(Get(row, 11)),
        Get(row, 2),
        Get(row, 3),
        Prices(paper, noPaper, international),
        range.0,
        range.1,
        SizeOfSpace(space),
        Scores(OrDefault(ParseInt(Get(row, 7)), 2), space,
               OrDefault(ParseInt(Get(row, 9)), 2), OrDefault(ParseInt(Get(row, 10)), 1)),
        "/assets/dog_images/" + slug + "/avatar.jpg"))
  }

  /** The records of pets_data.json: the first two parsed rows are headers. */
  function Pets(rows: seq<Row>): (r: seq<Pet>)
    ensures |r| <= |rows|
    ensures forall i :: 2 <= i < |rows| && BuildPet(rows[i]).Some? ==> BuildPet(rows[i]).value in r
    ensures forall p :: p in r ==> exists i :: 2 <= i < |rows| && BuildPet(rows[i]) == Some(p)
  {
    var data := Drop(rows, 2);
    assert forall i :: 2 <= i < |rows| ==> rows[i] == data[i - 2];
    Collect(BuildPet, data)
  }

  /** A space cell holding a written non-zero number gives that score and the size that
      goes with it. */
  lemma {:induction false} SizeOfWrittenSpace(k: int)
    requires k != 0
    ensures SizeOfSpace(OrDefault(ParseInt(IntString(k)), 2)) == (if k == 1 then SMALL else if k == 3 then LARGE else MEDIUM)
  {
    WrittenScore(k, 2);
  }

  /** The type is "Cat" for a written 1 and "Dog" for a blank cell or a 0. */
  lemma {:induction false} KindCells()
    ensures Kind("1") == "Cat"
    ensures Kind("") == "Dog"
    ensures Kind("0") == "Dog"
  {
    ParseIntDecimal(1, "");
    assert IntString(1) + "" == "1";
    ParseIntDecimal(0, "");
    assert IntString(0) + "" == "0";
    ParseIntNaN("");
  }

  /** The name cell is already trimmed, so the slug is its lower-cased form with every
      whitespace run turned into `_`. */
  lemma {:induction false} SlugOfName(row: Row)
    ensures Slug(Get(row, 1)) == CollapseSpaces(Lower(Get(row, 1)))
  {
    var name := Get(row, 1);
    LowerKeepsSpaces(name);
    StripNoEdgeSpace(Lower(name));
  }

  /** Two words with a run of whitespace between them: the lower-cased words joined by
      one `_`. */
  lemma {:induction false} SlugOfTwoWords(a: string, w: string, b: string)
    requires a != [] && b != [] && NoSpace(a) && NoSpace(b) && w != [] && AllSpace(w)
    ensures Slug(a + w + b) == Lower(a) + "_" + Lower(b)
  {
    var la, lb := Lower(a), Lower(b);
    LowerNoSpace(a);
    LowerNoSpace(b);
    LowerAround(a, w, b);
    StripTwoWords(la, w, lb);
    CollapseRun(la, w, lb);
    CollapseNoSpace(lb);
  }

  lemma {:induction false} LowerNoSpace(s: string)
    requires NoSpace(s)
    ensures NoSpace(Lower(s)) && |Lower(s)| == |s|
  {
    LowerKeepsSpaces(s);
  }

  lemma {:induction false} LowerAround(a: string, w: string, b: string)
    requires AllSpace(w)
    ensures Lower(a + w + b) == Lower(a) + w + Lower(b)
  {
    LowerOfSpaces(w);
    LowerAppend(a + w, b);
    LowerAppend(a, w);
  }

  lemma {:induction false} StripTwoWords(a: string, w: string, b: string)
    requires a != [] && b != [] && NoSpace(a) && NoSpace(b)
    ensures Strip(a + w + b) == a + w + b
  {
    var s := a + w + b;
    assert s[0] == a[0] && s[|s| - 1] == b[|b| - 1];
    StripNoEdgeSpace(s);
  }

  /** Read from a CSV writer's output, the records come from the rows the tokeniser keeps,
      after the two header rows. */
  lemma {:induction false} PetsOfWrittenRows(rows: seq<Row>, crlf: bool)
    requires AllNonEmpty(rows)
    ensures Pets(Parse(ROOT, EncodeRows(rows, crlf))) == Collect(BuildPet, Drop(Emitted(ROOT, rows), 2))
  {
    RoundTrip(ROOT, rows, crlf);
  }
}
