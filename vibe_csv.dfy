/** The later preprocessing script, ai/preprocessing/vibe_csv.py: five-level keyword tables
    scanned in the order 5, 4, 1, 2, a cat test in which an explicit `type` cell wins over
    the text, and the in-memory part of process_csv (row filter, score columns, type
    rewrite, price relabelling, missing-column fill and final projection). */
module VibeCsv {
  import opened Text
  import opened Keywords
  import opened Tabular

  const STT: string := "STT"
  const TYPE: string := "type"
  const BREED: string := "tên giống loài"
  const LIFESPAN: string := "tuổi thọ trung bình"
  const CARE: string := "cách chăm"
  const PRICE_HEADER: string := "giá cả trung bình"
  const PRICE_PAPER: string := "giá có giấy tờ"
  const PRICE_NO_PAPER: string := "giá không giấy tờ"
  const PRICE_INTL: string := "giá quốc tế"
  const ENERGY_COL: string := "score_energy"
  const SPACE_COL: string := "score_space"
  const GROOMING_COL: string := "score_grooming"
  const KID_COL: string := "score_kid_friendly"
  const IS_CAT_COL: string := "is_cat"
  const CAT_MARK: string := "mèo"

  /** The columns of the exported file, in order. */
  const FINAL_COLS: seq<string> := [STT, TYPE, BREED, LIFESPAN, CARE,
    PRICE_PAPER, PRICE_NO_PAPER, PRICE_INTL,
    ENERGY_COL, SPACE_COL, GROOMING_COL, KID_COL, IS_CAT_COL]

  /** A keyword table: score level to the keywords that select it. */
  type KeywordTable = map<int, seq<string>>

  const ENERGY_KEYWORDS: KeywordTable := map[
    1 := ["ít vận động", "đi dạo ngắn", "nằm", "lười", "thụ động", "ngủ nhiều"],
    2 := ["vận động nhẹ", "đi bộ", "trong nhà", "bình tĩnh"],
    3 := ["hoạt bát", "trung bình", "nhanh nhẹn", "vui vẻ"],
    4 := ["năng lượng cao", "chạy nhảy", "thể thao", "săn bắt", "kéo xe"],
    5 := ["rất hiếu động", "không mệt mỏi", "cường độ cao", "bền bỉ", "vận động liên tục"]]

  const SPACE_KEYWORDS: KeywordTable := map[
    1 := ["căn hộ", "chung cư", "phòng nhỏ", "nhà nhỏ", "trong nhà"],
    2 := ["nhà phố", "sân nhỏ", "trong nhà có sân"],
    3 := ["sân vườn", "nhà rộng", "không gian thoáng"],
    4 := ["sân rộng", "vườn lớn", "chạy nhảy"],
    5 := ["trang trại", "đồng cỏ", "rất rộng", "bầy đàn"]]

  const GROOMING_KEYWORDS: KeywordTable := map[
    1 := ["lông ngắn", "dễ chăm sóc", "ít rụng", "thỉnh thoảng chải"],
    2 := ["chải hàng tuần", "rụng vừa", "lông sát"],
    3 := ["lông trung bình", "chải thường xuyên", "cắt tỉa định kỳ"],
    4 := ["lông dài", "rụng nhiều", "chải hàng ngày", "dễ rối"],
    5 := ["lông rất dài", "2 lớp lông", "nhu cầu cao", "spa thường xuyên", "rất khó chăm"]]

  /** Level 1 is the most suitable for children, level 5 the least. */
  const KID_KEYWORDS: KeywordTable := map[
    1 := ["rất thân thiện", "yêu trẻ", "nhẹ nhàng", "bảo mẫu", "cực kỳ hiền"],
    2 := ["thân thiện", "hòa đồng", "dễ gần", "chơi cùng trẻ"],
    3 := ["trung lập", "cần giám sát", "người lớn", "bình thường"],
    4 := ["cảnh giác", "khó tính", "không thích bị trêu", "dễ cáu"],
    5 := ["nguy hiểm", "không phù hợp trẻ nhỏ", "dữ dằn", "tấn công", "không nên nuôi cùng trẻ"]]

  lemma {:induction false} StripKeepsNoUpper(l: string)
    requires forall i :: 0 <= i < |l| ==> !IsUpper(l[i])
    ensures forall i :: 0 <= i < |Strip(l)| ==> !IsUpper(Strip(l)[i])
  {
    StripAt(l);
  }

  /** normalize_text: NaN becomes "", any other cell its str(), lower-cased and stripped. */
  function NormalizeText(c: Cell): (r: string)
    ensures c == Missing ==> r == ""
    ensures r == [] || (!IsSpace(r[0]) && !IsSpace(r[|r| - 1]))
    ensures forall i :: 0 <= i < |r| ==> !IsUpper(r[i])
    ensures c != Missing ==>
      exists a, b :: AllSpace(a) && AllSpace(b) && Lower(CellText(c)) == a + r + b
  {
    if c == Missing then "" else
      var l := Lower(CellText(c));
      StripKeepsNoUpper(l);
      Strip(l)
  }

  // ---------------------------------------------------------------------------
  // calculate_score

  /** The levels calculate_score looks at, in the order it looks at them. */
  const SCAN_ORDER: seq<int> := [5, 4, 1, 2]

  /** `keyword_dict[score]` exists for every scanned level. */
  predicate Scannable(table: KeywordTable) {
    5 in table && 4 in table && 1 in table && 2 in table
  }

  /** The table as priority tiers in scan order. */
  function Tiers(table: KeywordTable): (tiers: seq<Tier>)
    requires Scannable(table)
    ensures |tiers| == |SCAN_ORDER|
    ensures forall k :: 0 <= k < |tiers| ==> tiers[k] == (SCAN_ORDER[k], table[SCAN_ORDER[k]])
  {
    [(5, table[5]), (4, table[4]), (1, table[1]), (2, table[2])]
  }

  /** calculate_score: the first level of 5, 4, 1, 2 with a keyword occurring in the
      normalised text, and `default` when none has one. */
  function CalculateScore(text: Cell, table: KeywordTable, default: int): (r: int)
    requires Scannable(table)
    ensures r == 5 || r == 4 || r == 1 || r == 2 || r == default
    ensures var n := NormalizeText(text);
      && (AnyKeyword(n, table[5]) ==> r == 5)
      && (!AnyKeyword(n, table[5]) && AnyKeyword(n, table[4]) ==> r == 4)
      && (!AnyKeyword(n, table[5]) && !AnyKeyword(n, table[4]) && AnyKeyword(n, table[1]) ==> r == 1)
      && ((!AnyKeyword(n, table[5]) && !AnyKeyword(n, table[4]) && !AnyKeyword(n, table[1])
           && AnyKeyword(n, table[2])) ==> r == 2)
      && ((!AnyKeyword(n, table[5]) && !AnyKeyword(n, table[4]) && !AnyKeyword(n, table[1])
           && !AnyKeyword(n, table[2])) ==> r == default)
  {
    var n := NormalizeText(text);
    var tiers := Tiers(table);
    FirstMatchFour(n, tiers, default);
    FirstMatch(n, tiers, default)
  }

  /** Level 3 is never scanned: whatever its keywords, the score is the same. */
  lemma {:induction false} LevelThreeIgnored(text: Cell, table: KeywordTable, default: int, other: seq<string>)
    requires Scannable(table)
    ensures CalculateScore(text, table[3 := other], default) == CalculateScore(text, table, default)
  {
    assert Tiers(table[3 := other]) == Tiers(table);
  }

  /** No keyword occurs in the empty string, so a NaN description gets the default. */
  lemma {:induction false} MissingTextScoresDefault(table: KeywordTable, default: int)
    requires Scannable(table)
    requires forall l, k :: l in table && 0 <= k < |table[l]| ==> table[l][k] != ""
    ensures CalculateScore(Missing, table, default) == default
  {
    forall l, k | l in table && 0 <= k < |table[l]| ensures !Contains("", table[l][k]) {
      NothingInEmpty(table[l][k]);
    }
  }

  lemma {:induction false} NothingInEmpty(k: string)
    requires k != ""
    ensures !Contains("", k)
  {
  }

  /** Text that is already lower-case and has no edge whitespace is its own normal form. */
  lemma {:induction false} NormalizeUnchanged(s: string)
    requires Lower(s) == s && s != [] && !IsSpace(s[0]) && !IsSpace(s[|s| - 1])
    ensures NormalizeText(Str(s)) == s
  {
    assert Lower(CellText(Str(s))) == s;
    StripNoEdgeSpace(s);
  }

  /** A level-5 keyword decides, whatever else the text holds. */
  lemma {:induction false} LevelFiveWins(text: Cell, table: KeywordTable, default: int)
    requires Scannable(table) && AnyKeyword(NormalizeText(text), table[5])
    ensures CalculateScore(text, table, default) == 5
  {
  }

  /** An extreme keyword beats a mild one: "nguy hiểm" (level 5) wins over "rất thân thiện"
      (level 1) in the same description. */
  lemma {:induction false} ExtremeBeatsMild()
    ensures CalculateScore(Str("rất thân thiện nhưng nguy hiểm"), KID_KEYWORDS, 1) == 5
  {
    MixedKidTextNormal();
    MixedKidTextIsExtreme();
    LevelFiveWins(Str("rất thân thiện nhưng nguy hiểm"), KID_KEYWORDS, 1);
  }

  lemma {:induction false} MixedKidTextNormal()
    ensures NormalizeText(Str("rất thân thiện nhưng nguy hiểm")) == "rất thân thiện nhưng nguy hiểm"
  {
    var s := "rất thân thiện nhưng nguy hiểm";
    assert Lower(s) == s;
    NormalizeUnchanged(s);
  }

  lemma {:induction false} MixedKidTextIsExtreme()
    ensures AnyKeyword("rất thân thiện nhưng nguy hiểm", KID_KEYWORDS[5])
  {
    KeywordInPhrase("rất thân thiện nhưng nguy hiểm", KID_KEYWORDS[5], 0, 21);
  }

  // ---------------------------------------------------------------------------
  // get_is_cat

  /** `row.get('type')`, NaN when the column is absent. */
  function TypeCell(columns: seq<string>, row: seq<Cell>): Cell
    requires |row| == |columns|
  {
    if TYPE in columns then row[IndexOf(columns, TYPE)] else Missing
  }

  /** The `type` cell can decide: the column exists and the cell is not NaN. */
  predicate HasType(columns: seq<string>, row: seq<Cell>)
    requires |row| == |columns|
  {
    TypeCell(columns, row) != Missing
  }

  /** get_is_cat on the three cells it reads: the `type` cell when present, otherwise the
      breed name and the care text. */
  function CatTest(typ: Cell, breed: Cell, care: Cell): (r: int)
    ensures r == 0 || r == 1
    ensures typ != Missing ==>
      var t := Lower(CellText(typ));
      (r == 1 <==> Contains(t, "cat") || Contains(t, CAT_MARK))
    ensures typ == Missing ==>
      (r == 1 <==> Contains(NormalizeText(breed), CAT_MARK) || Contains(NormalizeText(care), CAT_MARK))
  {
    if typ != Missing then
      var t := Lower(CellText(typ));
      if Contains(t, "cat") || Contains(t, CAT_MARK) then 1 else 0
    else
      var name := NormalizeText(breed);
      var desc := NormalizeText(care);
      if Contains(name, CAT_MARK) || Contains(desc, CAT_MARK) then 1 else 0
  }

  /** get_is_cat */
  function GetIsCat(columns: seq<string>, row: seq<Cell>): (r: int)
    requires |row| == |columns|
    ensures r == 0 || r == 1
    ensures HasType(columns, row) ==>
      var t := Lower(CellText(row[IndexOf(columns, TYPE)]));
      (r == 1 <==> Contains(t, "cat") || Contains(t, CAT_MARK))
    ensures !HasType(columns, row) ==>
      (r == 1 <==> Contains(NormalizeText(GetOrEmpty(columns, row, BREED)), CAT_MARK)
                   || Contains(NormalizeText(GetOrEmpty(columns, row, CARE)), CAT_MARK))
  {
    CatTest(TypeCell(columns, row), GetOrEmpty(columns, row, BREED), GetOrEmpty(columns, row, CARE))
  }

  /** A usable `type` cell decides alone: the breed name and care text play no part. */
  lemma {:induction false} TypeTakesPrecedence(columns: seq<string>, row: seq<Cell>, other: seq<Cell>)
    requires |row| == |columns| == |other| && HasType(columns, row)
    requires other[IndexOf(columns, TYPE)] == row[IndexOf(columns, TYPE)]
    ensures GetIsCat(columns, other) == GetIsCat(columns, row)
  {
  }

  /** "Dog" holds neither "cat" nor "mèo". */
  lemma {:induction false} DogIsNoCat()
    ensures !Contains(Lower("Dog"), "cat") && !Contains(Lower("Dog"), CAT_MARK)
  {
    var d := Lower("Dog");
    assert d == "dog";
    forall i | 0 <= i <= |d| ensures !("cat" <= d[i..]) && !(CAT_MARK <= d[i..]) {
      if i == 0 { assert d[i..][0] == 'd'; }
    }
  }

  /** A row typed "Dog" is no cat, even when its care text mentions "mèo". */
  lemma {:induction false} DogTypeBeatsText(columns: seq<string>, row: seq<Cell>)
    requires |row| == |columns| && TYPE in columns && row[IndexOf(columns, TYPE)] == Str("Dog")
    ensures GetIsCat(columns, row) == 0
  {
    DogIsNoCat();
  }

  // ---------------------------------------------------------------------------
  // process_csv, stage by stage

  /** `df[CARE].apply(lambda x: calculate_score(x, table, default))` */
  function ScoreColumn(care: seq<Cell>, table: KeywordTable, default: int): (v: seq<Cell>)
    requires Scannable(table)
    ensures |v| == |care|
    ensures forall i :: 0 <= i < |care| ==> v[i] == Int(CalculateScore(care[i], table, default))
  {
    seq(|care|, i requires 0 <= i < |care| => Int(CalculateScore(care[i], table, default)))
  }

  /** A column holding one value in every row (`df[c] = value`). */
  function Constant(n: nat, v: Cell): (col: seq<Cell>)
    ensures |col| == n && forall i :: 0 <= i < n ==> col[i] == v
  {
    seq(n, _ => v)
  }

  /** `df.apply(get_is_cat, axis=1)` */
  function IsCatColumn(t: Table): (v: seq<Cell>)
    requires t.Valid()
    ensures |v| == |t.rows|
    ensures forall i :: 0 <= i < |t.rows| ==> v[i] == Int(GetIsCat(t.columns, t.rows[i]))
  {
    seq(|t.rows|, i requires 0 <= i < |t.rows| => Int(GetIsCat(t.columns, t.rows[i])))
  }

  /** `df['is_cat'].apply(lambda x: 'Cat' if x == 1 else 'Dog')` */
  function TypeColumn(isCat: seq<Cell>): (v: seq<Cell>)
    ensures |v| == |isCat|
    ensures forall i :: 0 <= i < |isCat| ==> v[i] == Str(if isCat[i] == Int(1) then "Cat" else "Dog")
  {
    seq(|isCat|, i requires 0 <= i < |isCat| => Str(if isCat[i] == Int(1) then "Cat" else "Dog"))
  }

  /** The two row filters: STT present, then breed name present. */
  function Filtered(t: Table): (r: Table)
    requires t.Valid() && STT in t.columns && BREED in t.columns
    ensures r.Valid() && r.columns == t.columns && |r.rows| <= |t.rows|
    ensures forall x :: x in r.rows <==>
      x in t.rows && x[IndexOf(t.columns, STT)] != Missing && x[IndexOf(t.columns, BREED)] != Missing
  {
    t.KeepPresentIn(STT).KeepPresentIn(BREED)
  }

  /** `df[c] = df['cách chăm'].apply(lambda x: calculate_score(x, table, default))` */
  function ScoreStep(t: Table, c: string, table: KeywordTable, default: int): (r: Table)
    requires t.Valid() && CARE in t.columns && c != CARE && Scannable(table)
    ensures r.Valid() && |r.rows| == |t.rows| && CARE in r.columns && r.Column(CARE) == t.Column(CARE)
    ensures forall d :: d in r.columns <==> d in t.columns || d == c
  {
    t.Assign(c, ScoreColumn(t.Column(CARE), table, default))
  }

  /** The four score columns, all computed from the care text. */
  function Scored(t: Table): (r: Table)
    requires t.Valid() && CARE in t.columns
    ensures r.Valid() && |r.rows| == |t.rows|
    ensures forall d :: d in r.columns <==> (d in t.columns || d == ENERGY_COL || d == SPACE_COL
      || d == GROOMING_COL || d == KID_COL)
  {
    TablesReady();
    ScoredWith(t, TABLES)
  }

  /** The keyword tables of the four score columns. */
  datatype ScoreTables = ScoreTables(energy: KeywordTable, space: KeywordTable, grooming: KeywordTable, kid: KeywordTable)
  {
    predicate Ready() {
      Scannable(energy) && Scannable(space) && Scannable(grooming) && Scannable(kid)
    }
  }

  const TABLES: ScoreTables := ScoreTables(ENERGY_KEYWORDS, SPACE_KEYWORDS, GROOMING_KEYWORDS, KID_KEYWORDS)

  lemma {:induction false} TablesReady()
    ensures TABLES.Ready()
  {
  }

  /** The four score steps, with the tables as parameters. */
  function ScoredWith(t: Table, k: ScoreTables): (r: Table)
    requires t.Valid() && CARE in t.columns && k.Ready()
    ensures r.Valid() && |r.rows| == |t.rows|
    ensures forall d :: d in r.columns <==> (d in t.columns || d == ENERGY_COL || d == SPACE_COL
      || d == GROOMING_COL || d == KID_COL)
  {
    var t1 := ScoreStep(t, ENERGY_COL, k.energy, 3);
    var t2 := ScoreStep(t1, SPACE_COL, k.space, 3);
    var t3 := ScoreStep(t2, GROOMING_COL, k.grooming, 3);
    ScoreStep(t3, KID_COL, k.kid, 1)
  }

  /** A `type` column of "Dog" unless one exists already. */
  function WithType(t: Table): (r: Table)
    requires t.Valid()
    ensures r.Valid() && TYPE in r.columns && |r.rows| == |t.rows|
  {
    if TYPE in t.columns then t else t.Assign(TYPE, Constant(|t.rows|, Str("Dog")))
  }

  /** is_cat from get_is_cat, then `type` rewritten from is_cat. */
  function Typed(t: Table): (r: Table)
    requires t.Valid()
    ensures r.Valid() && |r.rows| == |t.rows|
    ensures forall d :: d in r.columns <==> (d in t.columns || d == TYPE || d == IS_CAT_COL)
  {
    var w := WithType(t);
    var c := w.Assign(IS_CAT_COL, IsCatColumn(w));
    c.Assign(TYPE, TypeColumn(c.Column(IS_CAT_COL)))
  }

  /** The frame just before the price relabelling. */
  function BeforeRename(t: Table): (r: Table)
    requires t.Valid() && STT in t.columns && BREED in t.columns && CARE in t.columns
    ensures r.Valid()
    ensures forall d :: d in r.columns <==> (d in t.columns || d == ENERGY_COL || d == SPACE_COL
      || d == GROOMING_COL || d == KID_COL || d == TYPE || d == IS_CAT_COL)
  {
    Typed(Scored(Filtered(t)))
  }

  /** The labels after renaming the price header and the two columns after it. */
  function PriceLabels(columns: seq<string>, idx: nat): (labels: seq<string>)
    requires idx + 2 < |columns|
    ensures |labels| == |columns|
    ensures labels[idx] == PRICE_PAPER && labels[idx + 1] == PRICE_NO_PAPER && labels[idx + 2] == PRICE_INTL
    ensures forall j :: 0 <= j < |columns| && (j < idx || idx + 2 < j) ==> labels[j] == columns[j]
  {
    columns[idx := PRICE_PAPER][idx + 1 := PRICE_NO_PAPER][idx + 2 := PRICE_INTL]
  }

  /** `for c in final_cols: if c not in df.columns: df[c] = ""`, after the first |cols|
      labels. */
  function FillMissing(t: Table, cols: seq<string>): (r: Table)
    requires t.Valid()
    ensures r.Valid() && |r.rows| == |t.rows|
    ensures forall c :: c in r.columns <==> c in t.columns || c in cols
    ensures forall c :: c in t.columns ==> r.Column(c) == t.Column(c)
    ensures forall c :: c in cols && c !in t.columns ==> r.Column(c) == Constant(|t.rows|, Str(""))
    decreases |cols|
  {
    if cols == [] then t
    else
      var p := FillMissing(t, cols[..|cols| - 1]);
      var c := cols[|cols| - 1];
      assert forall d :: d in cols <==> d in cols[..|cols| - 1] || d == c;
      if c in p.columns then p else p.Assign(c, Constant(|p.rows|, Str("")))
  }

  lemma {:induction false} FinalColsDistinct()
    ensures Distinct(FINAL_COLS)
  {
    DistinctPairs(FINAL_COLS);
  }

  /** The missing final columns filled with "", then `df[final_cols]`. */
  function Export(t: Table): (r: Table)
    requires t.Valid()
    ensures r.Valid() && r.columns == FINAL_COLS && |r.rows| == |t.rows|
  {
    Selected(FillMissing(t, FINAL_COLS))
  }

  /** `df[final_cols]` of a frame holding every final column. */
  function Selected(f: Table): (r: Table)
    requires f.Valid() && forall c :: c in FINAL_COLS ==> c in f.columns
    ensures r.Valid() && r.columns == FINAL_COLS && |r.rows| == |f.rows|
  {
    FinalColsDistinct();
    assert forall m :: 0 <= m < |FINAL_COLS| ==> FINAL_COLS[m] in f.columns;
    Table(FINAL_COLS, f.Select(FINAL_COLS))
  }

  /** The price header sits too close to the end for `cols[idx+2]`. */
  predicate PriceOutOfRange(columns: seq<string>) {
    PRICE_HEADER in columns && IndexOf(columns, PRICE_HEADER) + 2 >= |columns|
  }

  /** The labels after `df.rename(...)` of the price header and its two neighbours. */
  function Renamed(columns: seq<string>): (labels: seq<string>)
    requires !PriceOutOfRange(columns)
    ensures |labels| == |columns|
  {
    if PRICE_HEADER in columns then PriceLabels(columns, IndexOf(columns, PRICE_HEADER)) else columns
  }

  /** What process_csv ends with. */
  datatype Failure = KeyError | IndexError
  datatype Outcome =
    | Exported(table: Table)   // the frame written to the output file
    | ReadError                // a filter column is absent: the error is caught, nothing is written
    | Raised(error: Failure)   // an uncaught exception
    | DuplicateLabels          // the price relabelling produced two columns with one label

  /** The frame reaches the export: the filter and care columns exist and the relabelling
      neither runs off the end nor duplicates a label. */
  predicate Exportable(t: Table)
    requires t.Valid()
  {
    && STT in t.columns && BREED in t.columns && CARE in t.columns
    && !PriceOutOfRange(BeforeRename(t).columns)
    && Distinct(Renamed(BeforeRename(t).columns))
  }

  /** The exported frame. */
  function ExportOf(t: Table): (r: Table)
    requires t.Valid() && Exportable(t)
    ensures r.Valid() && r.columns == FINAL_COLS && |r.rows| == |Filtered(t).rows|
  {
    var b := BeforeRename(t);
    Export(Table(Renamed(b.columns), b.rows))
  }

  /** process_csv from the frame pd.read_csv returns to the frame it writes. */
  function ProcessCsvSpec(t: Table): (r: Outcome)
    requires t.Valid()
    ensures r == ReadError <==> STT !in t.columns || BREED !in t.columns
    ensures r == Raised(KeyError) <==> STT in t.columns && BREED in t.columns && CARE !in t.columns
    ensures r.Exported? <==> Exportable(t)
    ensures r.Exported? ==> r.table.Valid() && r.table.columns == FINAL_COLS && |r.table.rows| == |Filtered(t).rows|
  {
    if STT !in t.columns || BREED !in t.columns then ReadError
    else if CARE !in t.columns then Raised(KeyError)
    else if PriceOutOfRange(BeforeRename(t).columns) then Raised(IndexError)
    else if !Distinct(Renamed(BeforeRename(t).columns)) then DuplicateLabels
    else Exported(ExportOf(t))
  }

  /** process_csv, with its frame updated in place as the script does. */
  method ProcessCsv(input: Table) returns (out: Outcome)
    requires input.Valid()
    ensures out == ProcessCsvSpec(input)
  {
    var df := new Frame(input);
    var found := df.DropMissing(STT);
    if !found || BREED !in df.columns {
      return ReadError;
    }
    found := df.DropMissing(BREED);
    assert df.Value() == Filtered(input);
    if CARE !in df.columns {
      return Raised(KeyError);
    }
    AddScores(df);
    AddType(df);
    ghost var b := df.Value();
    assert b == BeforeRename(input);
    if PRICE_HEADER in df.columns {
      var idx := IndexOf(df.columns, PRICE_HEADER);
      if idx + 2 >= |df.columns| {
        assert PriceOutOfRange(b.columns);
        return Raised(IndexError);
      }
      var labels := PriceLabels(df.columns, idx);
      assert labels == Renamed(b.columns);
      if !Distinct(labels) {
        return DuplicateLabels;
      }
      df.Relabel(labels);
    }
    assert !PriceOutOfRange(b.columns) && Distinct(Renamed(b.columns));
    assert df.Value() == Table(Renamed(b.columns), b.rows);
    var table := FillAndSelect(df);
    out := Exported(table);
  }

  /** The four `df[...] = df[desc_col].apply(...)` lines. */
  method AddScores(df: Frame)
    requires df.Valid() && CARE in df.columns
    modifies df
    ensures df.Valid() && df.Value() == Scored(old(df.Value()))
  {
    TablesReady();
    ghost var t := df.Value();
    df.Assign(ENERGY_COL, ScoreColumn(df.Value().Column(CARE), TABLES.energy, 3));
    ghost var t1 := df.Value();
    assert t1 == ScoreStep(t, ENERGY_COL, TABLES.energy, 3);
    df.Assign(SPACE_COL, ScoreColumn(df.Value().Column(CARE), TABLES.space, 3));
    ghost var t2 := df.Value();
    assert t2 == ScoreStep(t1, SPACE_COL, TABLES.space, 3);
    df.Assign(GROOMING_COL, ScoreColumn(df.Value().Column(CARE), TABLES.grooming, 3));
    assert df.Value() == ScoreStep(t2, GROOMING_COL, TABLES.grooming, 3);
    df.Assign(KID_COL, ScoreColumn(df.Value().Column(CARE), TABLES.kid, 1));
  }

  /** The default `type`, is_cat, and `type` rewritten from is_cat. */
  method AddType(df: Frame)
    requires df.Valid()
    modifies df
    ensures df.Valid() && df.Value() == Typed(old(df.Value()))
  {
    if TYPE !in df.columns {
      df.Assign(TYPE, Constant(|df.rows|, Str("Dog")));
    }
    assert df.Value() == WithType(old(df.Value()));
    df.Assign(IS_CAT_COL, IsCatColumn(df.Value()));
    df.Assign(TYPE, TypeColumn(df.Value().Column(IS_CAT_COL)));
  }

  /** The fill loop over final_cols and the projection `df[final_cols]`. */
  method FillAndSelect(df: Frame) returns (table: Table)
    requires df.Valid()
    modifies df
    ensures table == Export(old(df.Value()))
  {
    ghost var start := df.Value();
    for k := 0 to |FINAL_COLS|
      invariant df.Valid() && df.Value() == FillMissing(start, FINAL_COLS[..k])
    {
      var c := FINAL_COLS[k];
      FillMissingSnoc(start, FINAL_COLS, k);
      if c !in df.columns {
        df.Assign(c, Constant(|df.rows|, Str("")));
      }
    }
    assert FINAL_COLS[..|FINAL_COLS|] == FINAL_COLS;
    table := Selected(df.Value());
  }

  /** One more label filled: the frame so far, with the label added as a blank column when
      it is missing. */
  lemma {:induction false} FillMissingSnoc(t: Table, cols: seq<string>, k: nat)
    requires t.Valid() && k < |cols|
    ensures var p := FillMissing(t, cols[..k]); var c := cols[k];
      FillMissing(t, cols[..k + 1]) == if c in p.columns then p else p.Assign(c, Constant(|p.rows|, Str("")))
  {
    assert cols[..k + 1][..k] == cols[..k];
  }

  // ---------------------------------------------------------------------------
  // What process_csv computes, row by row

  /** Assigning a column other than `type`, the breed name and the care text leaves the cat
      test of every row as it was. */
  lemma {:induction false} AssignKeepsGetIsCat(t: Table, c: string, values: seq<Cell>, i: nat)
    requires t.Valid() && |values| == |t.rows| && i < |t.rows|
    requires c != TYPE && c != BREED && c != CARE
    ensures GetIsCat(t.Assign(c, values).columns, t.Assign(c, values).rows[i]) == GetIsCat(t.columns, t.rows[i])
    ensures TYPE in t.Assign(c, values).columns <==> TYPE in t.columns
  {
    var r := t.Assign(c, values);
    AssignKeepsCell(t, c, values, i, TYPE);
    AssignKeepsCell(t, c, values, i, BREED);
    AssignKeepsCell(t, c, values, i, CARE);
    assert TypeCell(r.columns, r.rows[i]) == TypeCell(t.columns, t.rows[i]);
  }

  /** Assigning column c leaves another column's presence and cell as they were. */
  lemma {:induction false} AssignKeepsCell(t: Table, c: string, values: seq<Cell>, i: nat, d: string)
    requires t.Valid() && |values| == |t.rows| && i < |t.rows| && c != d
    ensures var r := t.Assign(c, values);
      && (d in r.columns <==> d in t.columns)
      && GetOrEmpty(r.columns, r.rows[i], d) == GetOrEmpty(t.columns, t.rows[i], d)
  {
    var r := t.Assign(c, values);
    if d in t.columns {
      assert r.Column(d)[i] == t.Column(d)[i];
    }
  }

  /** The score columns: energy, space and grooming with default 3 and kid-friendliness with
      default 1, each from the row's own care text; every other column is kept, and so is
      the cat test. */
  lemma {:induction false} ScoredRow(t: Table, i: nat)
    requires t.Valid() && CARE in t.columns && i < |t.rows|
    ensures var s := Scored(t); var care := t.Column(CARE)[i];
      && |s.rows| == |t.rows|
      && ENERGY_COL in s.columns && SPACE_COL in s.columns && GROOMING_COL in s.columns && KID_COL in s.columns
      && s.Column(ENERGY_COL)[i] == Int(CalculateScore(care, ENERGY_KEYWORDS, 3))
      && s.Column(SPACE_COL)[i] == Int(CalculateScore(care, SPACE_KEYWORDS, 3))
      && s.Column(GROOMING_COL)[i] == Int(CalculateScore(care, GROOMING_KEYWORDS, 3))
      && s.Column(KID_COL)[i] == Int(CalculateScore(care, KID_KEYWORDS, 1))
      && GetIsCat(s.columns, s.rows[i]) == GetIsCat(t.columns, t.rows[i])
      && (TYPE in s.columns <==> TYPE in t.columns)
  {
    TablesReady();
    ScoredWithRow(t, i, TABLES);
  }

  lemma {:induction false} ScoredWithRow(t: Table, i: nat, k: ScoreTables)
    requires t.Valid() && CARE in t.columns && i < |t.rows| && k.Ready()
    ensures var s := ScoredWith(t, k); var care := t.Column(CARE)[i];
      && ENERGY_COL in s.columns && SPACE_COL in s.columns && GROOMING_COL in s.columns && KID_COL in s.columns
      && s.Column(ENERGY_COL)[i] == Int(CalculateScore(care, k.energy, 3))
      && s.Column(SPACE_COL)[i] == Int(CalculateScore(care, k.space, 3))
      && s.Column(GROOMING_COL)[i] == Int(CalculateScore(care, k.grooming, 3))
      && s.Column(KID_COL)[i] == Int(CalculateScore(care, k.kid, 1))
      && GetIsCat(s.columns, s.rows[i]) == GetIsCat(t.columns, t.rows[i])
      && (TYPE in s.columns <==> TYPE in t.columns)
  {
    var t1 := ScoreStep(t, ENERGY_COL, k.energy, 3);
    var t2 := ScoreStep(t1, SPACE_COL, k.space, 3);
    var t3 := ScoreStep(t2, GROOMING_COL, k.grooming, 3);
    ScoreStepRow(t, ENERGY_COL, k.energy, 3, i);
    ScoreStepRow(t1, SPACE_COL, k.space, 3, i);
    ScoreStepRow(t2, GROOMING_COL, k.grooming, 3, i);
    ScoreStepRow(t3, KID_COL, k.kid, 1, i);
    ScoreStepKeeps(t1, SPACE_COL, k.space, 3, ENERGY_COL, i);
    ScoreStepKeeps(t2, GROOMING_COL, k.grooming, 3, ENERGY_COL, i);
    ScoreStepKeeps(t3, KID_COL, k.kid, 1, ENERGY_COL, i);
    ScoreStepKeeps(t2, GROOMING_COL, k.grooming, 3, SPACE_COL, i);
    ScoreStepKeeps(t3, KID_COL, k.kid, 1, SPACE_COL, i);
    ScoreStepKeeps(t3, KID_COL, k.kid, 1, GROOMING_COL, i);
  }

  /** One score step: the new column holds the row's score, and the cat test is kept. */
  lemma {:induction false} ScoreStepRow(t: Table, c: string, table: KeywordTable, default: int, i: nat)
    requires t.Valid() && CARE in t.columns && Scannable(table) && i < |t.rows|
    requires c != CARE && c != TYPE && c != BREED
    ensures var r := ScoreStep(t, c, table, default);
      && c in r.columns && r.Column(c)[i] == Int(CalculateScore(t.Column(CARE)[i], table, default))
      && GetIsCat(r.columns, r.rows[i]) == GetIsCat(t.columns, t.rows[i])
      && (TYPE in r.columns <==> TYPE in t.columns)
  {
    AssignKeepsGetIsCat(t, c, ScoreColumn(t.Column(CARE), table, default), i);
  }

  /** One score step leaves every other column's cell as it was. */
  lemma {:induction false} ScoreStepKeeps(t: Table, c: string, table: KeywordTable, default: int, d: string, i: nat)
    requires t.Valid() && CARE in t.columns && Scannable(table) && c != CARE
    requires d in t.columns && d != c && i < |t.rows|
    ensures d in ScoreStep(t, c, table, default).columns
    ensures ScoreStep(t, c, table, default).Column(d)[i] == t.Column(d)[i]
  {
  }

  /** Columns other than the four scores keep their values through the scoring. */
  lemma {:induction false} ScoredKeeps(t: Table, d: string)
    requires t.Valid() && CARE in t.columns && d in t.columns
    requires d != ENERGY_COL && d != SPACE_COL && d != GROOMING_COL && d != KID_COL
    ensures d in Scored(t).columns && Scored(t).Column(d) == t.Column(d)
  {
    TablesReady();
    ScoredWithKeeps(t, d, TABLES);
  }

  lemma {:induction false} ScoredWithKeeps(t: Table, d: string, k: ScoreTables)
    requires t.Valid() && CARE in t.columns && d in t.columns && k.Ready()
    requires d != ENERGY_COL && d != SPACE_COL && d != GROOMING_COL && d != KID_COL
    ensures d in ScoredWith(t, k).columns && ScoredWith(t, k).Column(d) == t.Column(d)
  {
    var t1 := ScoreStep(t, ENERGY_COL, k.energy, 3);
    var t2 := ScoreStep(t1, SPACE_COL, k.space, 3);
    var t3 := ScoreStep(t2, GROOMING_COL, k.grooming, 3);
    assert t3.Column(d) == t2.Column(d) == t1.Column(d) == t.Column(d);
  }

  /** After the type step `type` is "Cat" exactly when is_cat is 1 and "Dog" otherwise;
      is_cat is the cat test of the row as it stood, and a frame that had no `type` column
      gets is_cat 0 in every row, whatever its text says. */
  lemma {:induction false} TypedRow(t: Table, i: nat)
    requires t.Valid() && i < |t.rows|
    ensures var p := Typed(t); var isCat := p.Column(IS_CAT_COL)[i];
      && |p.rows| == |t.rows| && TYPE in p.columns && IS_CAT_COL in p.columns
      && (p.Column(TYPE)[i] == Str("Cat") <==> isCat == Int(1))
      && (p.Column(TYPE)[i] == Str("Cat") || p.Column(TYPE)[i] == Str("Dog"))
      && (TYPE in t.columns ==> isCat == Int(GetIsCat(t.columns, t.rows[i])))
      && (TYPE !in t.columns ==> isCat == Int(0))
  {
    var w := WithType(t);
    var c := w.Assign(IS_CAT_COL, IsCatColumn(w));
    var p := c.Assign(TYPE, TypeColumn(c.Column(IS_CAT_COL)));
    assert p == Typed(t);
    assert p.Column(IS_CAT_COL) == c.Column(IS_CAT_COL);
    assert c.Column(IS_CAT_COL)[i] == Int(GetIsCat(w.columns, w.rows[i]));
    if TYPE !in t.columns {
      assert w.Column(TYPE)[i] == Str("Dog");
      DogTypeBeatsText(w.columns, w.rows[i]);
    }
  }

  /** Columns other than `type` and is_cat keep their values through the type step. */
  lemma {:induction false} TypedKeeps(t: Table, d: string)
    requires t.Valid() && d in t.columns && d != TYPE && d != IS_CAT_COL
    ensures d in Typed(t).columns && Typed(t).Column(d) == t.Column(d)
  {
    var w := WithType(t);
    assert w.Column(d) == t.Column(d);
    var c := w.Assign(IS_CAT_COL, IsCatColumn(w));
    assert Typed(t) == c.Assign(TYPE, TypeColumn(c.Column(IS_CAT_COL)));
  }

  /** The label keeps its column through the price relabelling: there is no price header,
      or the label stands outside the header and the two columns after it. */
  predicate Spared(columns: seq<string>, c: string) {
    PRICE_HEADER !in columns || c !in columns
    || IndexOf(columns, c) < IndexOf(columns, PRICE_HEADER)
    || IndexOf(columns, PRICE_HEADER) + 2 < IndexOf(columns, c)
  }

  lemma {:induction false} RenameKeeps(b: Table, c: string)
    requires b.Valid() && !PriceOutOfRange(b.columns) && Distinct(Renamed(b.columns))
    requires c in b.columns && Spared(b.columns, c)
    ensures c in Renamed(b.columns)
    ensures Table(Renamed(b.columns), b.rows).Column(c) == b.Column(c)
  {
    var labels := Renamed(b.columns);
    var k := IndexOf(b.columns, c);
    assert labels[k] == c;
    IndexOfDistinct(labels, k);
  }

  /** Row i of the export: each final column's cell, or "" when the frame lacked it. */
  lemma {:induction false} ExportCell(t: Table, i: nat, m: nat)
    requires t.Valid() && i < |t.rows| && m < |FINAL_COLS|
    ensures Export(t).rows[i][m] == if FINAL_COLS[m] in t.columns then t.Column(FINAL_COLS[m])[i] else Str("")
  {
    FinalColsDistinct();
    var f := FillMissing(t, FINAL_COLS);
    assert Export(t).rows[i][m] == f.Column(FINAL_COLS[m])[i];
  }

  /** process_csv end to end, for row i of the export: the four scores of the kept row's care
      text, `type` "Cat" exactly when is_cat is 1, and is_cat the cat test of the kept row
      (0 for every row when the file had no `type` column), provided the price relabelling
      leaves these six columns where they are. */
  lemma {:induction false} ExportedRow(t: Table, i: nat)
    requires t.Valid() && STT in t.columns && BREED in t.columns && CARE in t.columns
    requires Exportable(t) && i < |Filtered(t).rows|
    requires var cols := BeforeRename(t).columns;
      Spared(cols, TYPE) && Spared(cols, IS_CAT_COL) && Spared(cols, ENERGY_COL)
      && Spared(cols, SPACE_COL) && Spared(cols, GROOMING_COL) && Spared(cols, KID_COL)
    ensures var o := ExportOf(t); var f := Filtered(t); var care := f.Column(CARE)[i];
      && o.rows[i][8] == Int(CalculateScore(care, ENERGY_KEYWORDS, 3))
      && o.rows[i][9] == Int(CalculateScore(care, SPACE_KEYWORDS, 3))
      && o.rows[i][10] == Int(CalculateScore(care, GROOMING_KEYWORDS, 3))
      && o.rows[i][11] == Int(CalculateScore(care, KID_KEYWORDS, 1))
      && (o.rows[i][1] == Str("Cat") <==> o.rows[i][12] == Int(1))
      && o.rows[i][12] == Int(if TYPE in t.columns then GetIsCat(f.columns, f.rows[i]) else 0)
  {
    ExportedCells(t, i);
    BeforeRenameRow(Filtered(t), i);
  }

  /** The six spared columns of the export, read from the frame before the relabelling. */
  lemma {:induction false} ExportedCells(t: Table, i: nat)
    requires t.Valid() && Exportable(t) && i < |Filtered(t).rows|
    requires var cols := BeforeRename(t).columns;
      Spared(cols, TYPE) && Spared(cols, IS_CAT_COL) && Spared(cols, ENERGY_COL)
      && Spared(cols, SPACE_COL) && Spared(cols, GROOMING_COL) && Spared(cols, KID_COL)
    ensures var o := ExportOf(t); var b := BeforeRename(t);
      && |o.rows[i]| == 13 && |b.rows| == |o.rows|
      && o.rows[i][1] == b.Column(TYPE)[i] && o.rows[i][12] == b.Column(IS_CAT_COL)[i]
      && o.rows[i][8] == b.Column(ENERGY_COL)[i] && o.rows[i][9] == b.Column(SPACE_COL)[i]
      && o.rows[i][10] == b.Column(GROOMING_COL)[i] && o.rows[i][11] == b.Column(KID_COL)[i]
  {
    FinalColsAt();
    SparedExportOf(t, i, 1);
    SparedExportOf(t, i, 8);
    SparedExportOf(t, i, 9);
    SparedExportOf(t, i, 10);
    SparedExportOf(t, i, 11);
    SparedExportOf(t, i, 12);
  }

  lemma {:induction false} FinalColsAt()
    ensures |FINAL_COLS| == 13 && FINAL_COLS[1] == TYPE && FINAL_COLS[12] == IS_CAT_COL
    ensures FINAL_COLS[8] == ENERGY_COL && FINAL_COLS[9] == SPACE_COL
    ensures FINAL_COLS[10] == GROOMING_COL && FINAL_COLS[11] == KID_COL
  {
  }

  lemma {:induction false} SparedExportOf(t: Table, i: nat, m: nat)
    requires t.Valid() && Exportable(t) && i < |Filtered(t).rows| && m < |FINAL_COLS|
    requires FINAL_COLS[m] in BeforeRename(t).columns && Spared(BeforeRename(t).columns, FINAL_COLS[m])
    ensures ExportOf(t).rows[i][m] == BeforeRename(t).Column(FINAL_COLS[m])[i]
  {
    SparedExport(BeforeRename(t), i, m);
  }

  /** The scoring and type steps on a filtered frame, row by row. */
  lemma {:induction false} BeforeRenameRow(f: Table, i: nat)
    requires f.Valid() && CARE in f.columns && i < |f.rows|
    ensures var b := Typed(Scored(f)); var care := f.Column(CARE)[i];
      && |b.rows| == |f.rows|
      && ENERGY_COL in b.columns && SPACE_COL in b.columns && GROOMING_COL in b.columns
      && KID_COL in b.columns && TYPE in b.columns && IS_CAT_COL in b.columns
      && b.Column(ENERGY_COL)[i] == Int(CalculateScore(care, ENERGY_KEYWORDS, 3))
      && b.Column(SPACE_COL)[i] == Int(CalculateScore(care, SPACE_KEYWORDS, 3))
      && b.Column(GROOMING_COL)[i] == Int(CalculateScore(care, GROOMING_KEYWORDS, 3))
      && b.Column(KID_COL)[i] == Int(CalculateScore(care, KID_KEYWORDS, 1))
      && (b.Column(TYPE)[i] == Str("Cat") <==> b.Column(IS_CAT_COL)[i] == Int(1))
      && b.Column(IS_CAT_COL)[i] == Int(if TYPE in f.columns then GetIsCat(f.columns, f.rows[i]) else 0)
  {
    var s := Scored(f);
    ScoredRow(f, i);
    TypedRow(s, i);
    TypedKeeps(s, ENERGY_COL);
    TypedKeeps(s, SPACE_COL);
    TypedKeeps(s, GROOMING_COL);
    TypedKeeps(s, KID_COL);
  }

  /** A spared final column reaches the export unchanged. */
  lemma {:induction false} SparedExport(b: Table, i: nat, m: nat)
    requires b.Valid() && !PriceOutOfRange(b.columns) && Distinct(Renamed(b.columns))
    requires i < |b.rows| && m < |FINAL_COLS| && FINAL_COLS[m] in b.columns && Spared(b.columns, FINAL_COLS[m])
    ensures Export(Table(Renamed(b.columns), b.rows)).rows[i][m] == b.Column(FINAL_COLS[m])[i]
  {
    RenameKeeps(b, FINAL_COLS[m]);
    ExportCell(Table(Renamed(b.columns), b.rows), i, m);
  }

  /** The two row filters keep the rows in order: a file that gains a last row gains it in
      the filtered frame exactly when its STT and breed cells are present. */
  lemma {:induction false} FilteredSnoc(columns: seq<string>, rows: seq<seq<Cell>>, x: seq<Cell>)
    requires Table(columns, rows + [x]).Valid() && STT in columns && BREED in columns
    ensures Table(columns, rows).Valid() && |x| == |columns|
    ensures Filtered(Table(columns, rows + [x])).rows == Filtered(Table(columns, rows)).rows
      + (if x[IndexOf(columns, STT)] != Missing && x[IndexOf(columns, BREED)] != Missing then [x] else [])
  {
    KeepPresentInSnoc(columns, rows, x, STT);
    var s := Table(columns, rows).KeepPresentIn(STT);
    var s' := Table(columns, rows + [x]).KeepPresentIn(STT);
    if x[IndexOf(columns, STT)] != Missing {
      assert s' == Table(columns, s.rows + [x]);
      KeepPresentInSnoc(columns, s.rows, x, BREED);
    } else {
      assert s' == s;
    }
  }

  /** The score steps append their labels after the existing ones. */
  lemma {:induction false} ScoredWithExtends(t: Table, k: ScoreTables)
    requires t.Valid() && CARE in t.columns && k.Ready()
    ensures Extends(ScoredWith(t, k).columns, t.columns)
  {
    var t1 := ScoreStep(t, ENERGY_COL, k.energy, 3);
    var t2 := ScoreStep(t1, SPACE_COL, k.space, 3);
    var t3 := ScoreStep(t2, GROOMING_COL, k.grooming, 3);
    var s := ScoreStep(t3, KID_COL, k.kid, 1);
    AssignExtends(t, ENERGY_COL, ScoreColumn(t.Column(CARE), k.energy, 3));
    AssignExtends(t1, SPACE_COL, ScoreColumn(t1.Column(CARE), k.space, 3));
    AssignExtends(t2, GROOMING_COL, ScoreColumn(t2.Column(CARE), k.grooming, 3));
    AssignExtends(t3, KID_COL, ScoreColumn(t3.Column(CARE), k.kid, 1));
    ExtendsTrans(t2.columns, t1.columns, t.columns);
    ExtendsTrans(t3.columns, t2.columns, t.columns);
    ExtendsTrans(s.columns, t3.columns, t.columns);
  }

  /** The type step adds `type` and is_cat after the existing labels. */
  lemma {:induction false} TypedExtends(s: Table)
    requires s.Valid()
    ensures Extends(Typed(s).columns, s.columns)
  {
    var w := WithType(s);
    if TYPE !in s.columns {
      AssignExtends(s, TYPE, Constant(|s.rows|, Str("Dog")));
    } else {
      assert w.columns[..|s.columns|] == s.columns;
    }
    var c := w.Assign(IS_CAT_COL, IsCatColumn(w));
    AssignExtends(w, IS_CAT_COL, IsCatColumn(w));
    AssignExtends(c, TYPE, TypeColumn(c.Column(IS_CAT_COL)));
    ExtendsTrans(c.columns, w.columns, s.columns);
    ExtendsTrans(Typed(s).columns, c.columns, s.columns);
  }

  /** The derived columns go after the file's own: every input label keeps its position in
      the frame before the relabelling. */
  lemma {:induction false} BeforeRenameExtends(t: Table)
    requires t.Valid() && STT in t.columns && BREED in t.columns && CARE in t.columns
    ensures Extends(BeforeRename(t).columns, t.columns)
  {
    var f := Filtered(t);
    TablesReady();
    ScoredWithExtends(f, TABLES);
    var s := Scored(f);
    TypedExtends(s);
    ExtendsTrans(Typed(s).columns, s.columns, f.columns);
  }

  /** The price header has two columns of the file after it, and `c` is none of the three. */
  predicate OutsidePriceWindow(columns: seq<string>, c: string) {
    && PRICE_HEADER in columns && IndexOf(columns, PRICE_HEADER) + 2 < |columns|
    && c != PRICE_HEADER && c != columns[IndexOf(columns, PRICE_HEADER) + 1]
    && c != columns[IndexOf(columns, PRICE_HEADER) + 2]
  }

  /** Labels added after a file whose window holds no `c` leave `c` spared. */
  lemma {:induction false} WindowSpares(base: seq<string>, cols: seq<string>, c: string)
    requires Extends(cols, base) && OutsidePriceWindow(base, c)
    ensures !PriceOutOfRange(cols) && Spared(cols, c)
  {
    IndexOfExtends(cols, base, PRICE_HEADER);
    if c in cols {
      IndexOfExtends(cols, base, c);
      if c in base {
        var k := IndexOf(base, c);
        assert base[k] == c;
      }
    }
  }

  /** The layout the script is written for: the price header has two columns after it in
      the file, and a label that is not the header or one of those two columns keeps its
      column through the relabelling, whether the file had it or it was derived. */
  lemma {:induction false} PriceLayoutSpares(t: Table, c: string)
    requires t.Valid() && STT in t.columns && BREED in t.columns && CARE in t.columns
    requires OutsidePriceWindow(t.columns, c)
    ensures !PriceOutOfRange(BeforeRename(t).columns)
    ensures Spared(BeforeRename(t).columns, c)
  {
    BeforeRenameExtends(t);
    WindowSpares(t.columns, BeforeRename(t).columns, c);
  }

  /** process_csv end to end in the layout the script is written for (the price header
      followed by two columns of the file, none of the three a derived label): row i of the
      export holds the scores of the kept row's care text, `type` "Cat" exactly when is_cat
      is 1, and is_cat the cat test of the kept row (0 for every row when the file had no
      `type` column). */
  lemma {:induction false} ExportedRowInLayout(t: Table, i: nat)
    requires t.Valid() && STT in t.columns && BREED in t.columns && CARE in t.columns
    requires OutsidePriceWindow(t.columns, TYPE) && OutsidePriceWindow(t.columns, IS_CAT_COL)
    requires OutsidePriceWindow(t.columns, ENERGY_COL) && OutsidePriceWindow(t.columns, SPACE_COL)
    requires OutsidePriceWindow(t.columns, GROOMING_COL) && OutsidePriceWindow(t.columns, KID_COL)
    requires Distinct(Renamed(BeforeRename(t).columns)) && i < |Filtered(t).rows|
    ensures Exportable(t)
    ensures var o := ExportOf(t); var f := Filtered(t); var care := f.Column(CARE)[i];
      && o.rows[i][8] == Int(CalculateScore(care, ENERGY_KEYWORDS, 3))
      && o.rows[i][9] == Int(CalculateScore(care, SPACE_KEYWORDS, 3))
      && o.rows[i][10] == Int(CalculateScore(care, GROOMING_KEYWORDS, 3))
      && o.rows[i][11] == Int(CalculateScore(care, KID_KEYWORDS, 1))
      && (o.rows[i][1] == Str("Cat") <==> o.rows[i][12] == Int(1))
      && o.rows[i][12] == Int(if TYPE in t.columns then GetIsCat(f.columns, f.rows[i]) else 0)
  {
    PriceLayoutSpares(t, TYPE);
    PriceLayoutSpares(t, IS_CAT_COL);
    PriceLayoutSpares(t, ENERGY_COL);
    PriceLayoutSpares(t, SPACE_COL);
    PriceLayoutSpares(t, GROOMING_COL);
    PriceLayoutSpares(t, KID_COL);
    ExportedRow(t, i);
  }

  /** Without a price header in the file nothing is relabelled, so every column is spared. */
  lemma {:induction false} NoPriceHeaderSparesAll(t: Table, c: string)
    requires t.Valid() && STT in t.columns && BREED in t.columns && CARE in t.columns
    requires PRICE_HEADER !in t.columns
    ensures Spared(BeforeRename(t).columns, c)
  {
  }
}
