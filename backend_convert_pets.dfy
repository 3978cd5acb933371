/** backend/src/convert/convert_pets.js: the parseCSV loop over ai/data/metadata.csv, which
    emits every line and has no final flush, and the record built from each row below the
    header. */
module BackendConvertPets {
  import opened Text
  import opened CsvScan
  import opened PetFields

  /** parseCSV(text): the same character loop as the root converter, except that every line
      break outside quotes pushes its row and nothing is pushed when the text ends. */
  method ParseCsv(text: string) returns (rows: seq<Row>)
    ensures rows == Parse(BACKEND, text)
  {
    rows := [];
    var row: Row := [];
    var cell := "";
    var inQuote := false;
    var i := 0;
    while i < |text|
      invariant 0 <= i <= |text|
      invariant Scan(BACKEND, text[i..], inQuote, cell, row, rows) == Parse(BACKEND, text)
      decreases |text| - i
    {
      var c := text[i];
      ghost var s := text[i..];
      assert s[0] == c && s[1..] == text[i + 1..];
      if c == '"' {
        if inQuote && i + 1 < |text| && text[i + 1] == '"' {
          assert s[2..] == text[i + 2..];
          cell := cell + ['"'];
          i := i + 1;
        } else {
          inQuote := !inQuote;
        }
      } else if c == ',' && !inQuote {
        row := row + [cell];
        cell := "";
      } else if (c == '\n' || c == '\r') && !inQuote {
        if c == '\r' && i + 1 < |text| && text[i + 1] == '\n' {
          assert s[2..] == text[i + 2..];
          i := i + 1;
        }
        row := row + [cell];
        rows := rows + [row];
        row := [];
        cell := "";
      } else {
        cell := cell + [c];
      }
      i := i + 1;
    }
  }

  /** The size label read from the `score_size` cell: "small" and "large" have their own
      labels, any other text (including "medium" and a blank cell) is medium. */
  function SizeOfLabel(raw: string): (r: string)
    ensures r == SMALL <==> raw == "small"
    ensures r == LARGE <==> raw == "large"
    ensures r == MEDIUM <==> raw != "small" && raw != "large"
  {
    if raw == "large" then LARGE else if raw == "small" then SMALL else MEDIUM
  }

  /** `rawName.replace(/_/g, ' ').trim()` of cell 2. */
  function Name(row: Row): (r: string)
    ensures forall i :: 0 <= i < |r| ==> r[i] != '_'
    ensures r == [] || (!IsSpace(r[0]) && !IsSpace(r[|r| - 1]))
    ensures exists a, b :: AllSpace(a) && AllSpace(b) && ReplaceChar(Get(row, 2), '_', ' ') == a + r + b
  {
    var spaced := ReplaceChar(Get(row, 2), '_', ' ');
    ReplaceCharRemovesAll(Get(row, 2), '_', ' ');
    StripAt(spaced);
    Strip(spaced)
  }

  /** `name.toLowerCase().replace(/\s+/g, '_')` */
  function Slug(name: string): (r: string)
    ensures NoSpace(r) && |r| <= |name|
    ensures NoSpace(name) ==> r == Lower(name)
  {
    LowerKeepsSpaces(name);
    var r := CollapseSpaces(Lower(name));
    assert NoSpace(name) ==> r == Lower(name) by {
      if NoSpace(name) {
        CollapseNoSpace(Lower(name));
      }
    }
    r
  }

  /** Two words with a run of whitespace between them: the lower-cased words joined by
      one `_`. */
  lemma {:induction false} SlugOfTwoWords(a: string, w: string, b: string)
    requires NoSpace(a) && NoSpace(b) && w != [] && AllSpace(w) && (b == [] || !IsSpace(b[0]))
    ensures Slug(a + w + b) == Lower(a) + "_" + Lower(b)
  {
    LowerKeepsSpaces(a);
    LowerKeepsSpaces(b);
    LowerOfSpaces(w);
    LowerAppend(a + w, b);
    LowerAppend(a, w);
    assert b == [] || !IsSpace(Lower(b)[0]);
    CollapseRun(Lower(a), w, Lower(b));
    CollapseNoSpace(Lower(b));
  }

  /** `dataRows.map(row => ...)`: no record when the name is blank once underscores are
      spaces; otherwise the record with its slug, scores, size, price range and image path. */
  function BuildPet(row: Row): (r: Option<Pet>)
    ensures r.Some? <==> Name(row) != ""
    ensures r.Some? ==> NoSpace(r.value.id) && r.value.id == Slug(Name(row)) && r.value.name == Name(row)
    ensures r.Some? ==> r.value.kind == Get(row, 1) && r.value.lifespan == Get(row, 3) && r.value.careInstruction == Get(row, 7)
    ensures r.Some? ==> r.value.price == Prices(Get(row, 8), Get(row, 9), Get(row, 10))
    ensures r.Some? ==> (r.value.priceMin, r.value.priceMax) == PriceBounds(Get(row, 8), Get(row, 9), Get(row, 10), 0, 0)
    ensures r.Some? ==> r.value.imagePath == "/assets/avatar/" + r.value.id + ".jpg"
    ensures r.Some? ==> r.value.priceMin <= r.value.priceMax
    ensures r.Some? ==> r.value.size == SizeOfLabel(Get(row, 15))
    ensures r.Some? ==> var s := r.value.scores;
      && s.energy == OrDefault(ParseInt(Get(row, 11)), 3)
      && s.space == OrDefault(ParseInt(Get(row, 12)), 3)
      && s.grooming == OrDefault(ParseInt(Get(row, 13)), 3)
      && s.kidFriendly == OrDefault(ParseInt(Get(row, 14)), 3)
      && s.energy != 0 && s.space != 0 && s.grooming != 0 && s.kidFriendly != 0
  {
    var name := Name(row);
    if name == "" then None
    else
      var slug := Slug(name);
      var paper := Get(row, 8);
      var noPaper := Get(row, 9);
      var international := Get(row, 10);
      var range := PriceBounds(paper, noPaper, international, 0, 0);
      Some(Pet(
        slug,
        name,
        Get(row, 1),
        Get(row, 3),
        Get(row, 7),
        Prices(paper, noPaper, international),
        range.0,
        range.1,
        SizeOfLabel(Get(row, 15)),
        Scores(OrDefault(ParseInt(Get(row, 11)), 3), OrDefault(ParseInt(Get(row, 12)), 3),
               OrDefault(ParseInt(Get(row, 13)), 3), OrDefault(ParseInt(Get(row, 14)), 3)),
        "/assets/avatar/" + slug + ".jpg"))
  }

  /** The records of pets_data.json: the first parsed row is the header. */
  function Pets(rows: seq<Row>): (r: seq<Pet>)
    ensures |r| <= |rows|
    ensures forall i :: 1 <= i < |rows| && BuildPet(rows[i]).Some? ==> BuildPet(rows[i]).value in r
    ensures forall p :: p in r ==> exists i :: 1 <= i < |rows| && BuildPet(rows[i]) == Some(p)
  {
    var data := Drop(rows, 1);
    assert forall i :: 1 <= i < |rows| ==> rows[i] == data[i - 1];
    Collect(BuildPet, data)
  }

  /** A name cell that is only underscores and whitespace gives the blank name, so no
      record. */
  lemma {:induction false} UnderscoreOnlyName(row: Row)
    requires 2 < |row| && forall i :: 0 <= i < |row[2]| ==> row[2][i] == '_' || IsSpace(row[2][i])
    ensures Name(row) == ""
  {
    var g := Get(row, 2);
    var n := LeadingSpaces(row[2]);
    UnderscoresSlice(row[2], n, n + |g|);
    UnderscoresToSpaces(g);
  }

  predicate Underscores(s: string) {
    forall i :: 0 <= i < |s| ==> s[i] == '_' || IsSpace(s[i])
  }

  lemma {:induction false} UnderscoresSlice(s: string, lo: nat, hi: nat)
    requires lo <= hi <= |s| && Underscores(s)
    ensures Underscores(s[lo..hi])
  {
    assert forall i :: 0 <= i < hi - lo ==> s[lo..hi][i] == s[lo + i];
  }

  lemma {:induction false} UnderscoresToSpaces(g: string)
    requires Underscores(g)
    ensures Strip(ReplaceChar(g, '_', ' ')) == ""
  {
    StripAllSpace(ReplaceChar(g, '_', ' '));
  }

  lemma {:induction false} UnderscoreOnlyNameDropped(row: Row)
    requires 2 < |row| && forall i :: 0 <= i < |row[2]| ==> row[2][i] == '_' || IsSpace(row[2][i])
    ensures BuildPet(row) == None
  {
    UnderscoreOnlyName(row);
  }

  /** The price range is 0..0 when no price cell holds a digit, and otherwise spans every
      number written in the three cells. */
  lemma {:induction false} NoPriceDigits(row: Row)
    requires BuildPet(row).Some?
    requires forall i :: 0 <= i < |Get(row, 8)| ==> !IsDigit(Get(row, 8)[i])
    requires forall i :: 0 <= i < |Get(row, 9)| ==> !IsDigit(Get(row, 9)[i])
    requires forall i :: 0 <= i < |Get(row, 10)| ==> !IsDigit(Get(row, 10)[i])
    ensures BuildPet(row).value.priceMin == 0 && BuildPet(row).value.priceMax == 0
  {
    PriceBoundsNone(Get(row, 8), Get(row, 9), Get(row, 10), 0, 0);
  }

  /** Read from a CSV writer's output followed by an unterminated last line, the records come
      from every written row after the header, and the unterminated line is lost. */
  lemma {:induction false} PetsOfWrittenRows(rows: seq<Row>, crlf: bool, tail: string)
    requires AllNonEmpty(rows) && forall k :: 0 <= k < |tail| ==> !IsBreak(tail[k])
    ensures Pets(Parse(BACKEND, EncodeRows(rows, crlf) + tail)) == Collect(BuildPet, Drop(rows, 1))
  {
    BackendDropsLastLine(rows, crlf, tail);
  }
}
