/** The earlier preprocessing script, vibe_csv.py at the repository root: three-valued
    energy, space and grooming scores, a kid rule that reacts only to caution keywords, a
    text-only cat test, and process_pet_metadata's pass that adds the five derived columns. */
module PetMetadata {
  import opened Text
  import opened Keywords
  import opened Tabular

  const CARE: string := "cách chăm"
  const BREED: string := "tên giống loài"
  const CAT_MARK: string := "mèo"

  const ENERGY_COL: string := "score_energy"
  const SPACE_COL: string := "score_space"
  const GROOMING_COL: string := "score_grooming"
  const KID_COL: string := "score_kid_friendly"
  const IS_CAT_COL: string := "is_cat"

  const ENERGY_LOW: seq<string> := ["ít vận động", "đi dạo ngắn", "trong nhà"]
  const ENERGY_HIGH: seq<string> := ["năng lượng cao", "chạy bộ", "hoạt bát", "làm việc"]
  const SPACE_APARTMENT: seq<string> := ["căn hộ", "nhà nhỏ", "chung cư"]
  const SPACE_GARDEN: seq<string> := ["sân vườn", "không gian rộng", "trang trại"]
  const GROOMING_EASY: seq<string> := ["lông ngắn", "dễ chăm sóc"]
  const GROOMING_HARD: seq<string> := ["lông dài", "rụng nhiều", "chải lông thường xuyên"]
  const KID_CAUTION: seq<string> := ["không phù hợp trẻ nhỏ", "cảnh giác", "dữ"]
  /** Declared by the script and never consulted by any scorer. */
  const KID_FRIENDLY: seq<string> := ["thân thiện", "quấn chủ", "hiền lành"]

  /** normalize_text: NaN becomes "", any other cell its lower-cased str(), not trimmed. */
  function NormalizeText(c: Cell): (r: string)
    ensures c == Missing ==> r == ""
    ensures c != Missing ==> |r| == |CellText(c)|
    ensures c != Missing ==> forall i :: 0 <= i < |r| ==> r[i] == LowerChar(CellText(c)[i])
    ensures forall i :: 0 <= i < |r| ==> !IsUpper(r[i])
  {
    if c == Missing then "" else Lower(CellText(c))
  }

  /** get_score_energy */
  function ScoreEnergy(care: Cell): (r: int)
    ensures 1 <= r <= 3
  {
    FirstMatch(NormalizeText(care), [(3, ENERGY_HIGH), (1, ENERGY_LOW)], 2)
  }

  /** get_score_space */
  function ScoreSpace(care: Cell): (r: int)
    ensures 1 <= r <= 3
  {
    FirstMatch(NormalizeText(care), [(3, SPACE_GARDEN), (1, SPACE_APARTMENT)], 2)
  }

  /** get_score_grooming */
  function ScoreGrooming(care: Cell): (r: int)
    ensures 1 <= r <= 3
  {
    FirstMatch(NormalizeText(care), [(3, GROOMING_HARD), (1, GROOMING_EASY)], 2)
  }

  /** get_score_kid_friendly */
  function ScoreKidFriendly(care: Cell): (r: int)
    ensures r == 0 || r == 1
  {
    FirstMatch(NormalizeText(care), [(0, KID_CAUTION)], 1)
  }

  /** get_is_cat: looks only at the breed name and the care text. */
  function IsCat(columns: seq<string>, row: seq<Cell>): (r: int)
    requires |row| == |columns|
    ensures r == 0 || r == 1
  {
    var breed := NormalizeText(GetOrEmpty(columns, row, BREED));
    var desc := NormalizeText(GetOrEmpty(columns, row, CARE));
    if Contains(breed, CAT_MARK) || Contains(desc, CAT_MARK) then 1 else 0
  }

  // ---------------------------------------------------------------------------
  // What the scorers decide

  /** Energy is 3 exactly when a high keyword occurs, 1 exactly when only a low keyword
      occurs, and 2 when neither does: high wins when both occur. */
  lemma {:induction false} EnergyCases(care: Cell)
    ensures ScoreEnergy(care) == 3 <==> AnyKeyword(NormalizeText(care), ENERGY_HIGH)
    ensures ScoreEnergy(care) == 1 <==>
      !AnyKeyword(NormalizeText(care), ENERGY_HIGH) && AnyKeyword(NormalizeText(care), ENERGY_LOW)
    ensures ScoreEnergy(care) == 2 <==>
      !AnyKeyword(NormalizeText(care), ENERGY_HIGH) && !AnyKeyword(NormalizeText(care), ENERGY_LOW)
  {
    TwoTierCases(NormalizeText(care), (3, ENERGY_HIGH), (1, ENERGY_LOW), 2);
  }

  /** Space is 3 for a garden keyword, else 1 for an apartment keyword, else 2. */
  lemma {:induction false} SpaceCases(care: Cell)
    ensures ScoreSpace(care) == 3 <==> AnyKeyword(NormalizeText(care), SPACE_GARDEN)
    ensures ScoreSpace(care) == 1 <==>
      !AnyKeyword(NormalizeText(care), SPACE_GARDEN) && AnyKeyword(NormalizeText(care), SPACE_APARTMENT)
    ensures ScoreSpace(care) == 2 <==>
      !AnyKeyword(NormalizeText(care), SPACE_GARDEN) && !AnyKeyword(NormalizeText(care), SPACE_APARTMENT)
  {
    TwoTierCases(NormalizeText(care), (3, SPACE_GARDEN), (1, SPACE_APARTMENT), 2);
  }

  /** Grooming is 3 for a hard keyword, else 1 for an easy keyword, else 2. */
  lemma {:induction false} GroomingCases(care: Cell)
    ensures ScoreGrooming(care) == 3 <==> AnyKeyword(NormalizeText(care), GROOMING_HARD)
    ensures ScoreGrooming(care) == 1 <==>
      !AnyKeyword(NormalizeText(care), GROOMING_HARD) && AnyKeyword(NormalizeText(care), GROOMING_EASY)
    ensures ScoreGrooming(care) == 2 <==>
      !AnyKeyword(NormalizeText(care), GROOMING_HARD) && !AnyKeyword(NormalizeText(care), GROOMING_EASY)
  {
    TwoTierCases(NormalizeText(care), (3, GROOMING_HARD), (1, GROOMING_EASY), 2);
  }

  /** The kid score is 0 exactly when a caution keyword occurs; the friendly list plays no
      part, so a text with friendly words and no caution word scores the same as any other
      text without a caution word. */
  lemma {:induction false} KidCases(care: Cell, other: Cell)
    ensures ScoreKidFriendly(care) == 0 <==> AnyKeyword(NormalizeText(care), KID_CAUTION)
    ensures !AnyKeyword(NormalizeText(care), KID_CAUTION) && !AnyKeyword(NormalizeText(other), KID_CAUTION)
      ==> ScoreKidFriendly(care) == ScoreKidFriendly(other)
  {
    OneTierCases(NormalizeText(care), (0, KID_CAUTION), 1);
    OneTierCases(NormalizeText(other), (0, KID_CAUTION), 1);
  }

  /** "trong nhà" (low) together with "hoạt bát" (high) scores as high energy. */
  lemma {:induction false} HighEnergyBeatsLow()
    ensures ScoreEnergy(Str("trong nhà, hoạt bát")) == 3
  {
    var n := NormalizeText(Str("trong nhà, hoạt bát"));
    assert n == "trong nhà, hoạt bát";
    KeywordInPhrase(n, ENERGY_HIGH, 2, 11);
    EnergyCases(Str("trong nhà, hoạt bát"));
  }

  /** The cat test is case-insensitive: any casing of the marker in the breed name counts. */
  lemma {:induction false} IsCatAnyCasing(columns: seq<string>, row: seq<Cell>, mark: string)
    requires |row| == |columns| && BREED in columns
    requires Lower(mark) == CAT_MARK
    requires row[IndexOf(columns, BREED)].Str? && Contains(row[IndexOf(columns, BREED)].s, mark)
    ensures IsCat(columns, row) == 1
  {
    LowerKeepsContains(row[IndexOf(columns, BREED)].s, mark);
  }

  // ---------------------------------------------------------------------------
  // process_pet_metadata

  /** `df[CARE].apply(score)` */
  function ScoreColumn(care: seq<Cell>, score: Cell -> int): (v: seq<Cell>)
    ensures |v| == |care|
    ensures forall i :: 0 <= i < |care| ==> v[i] == Int(score(care[i]))
  {
    seq(|care|, i requires 0 <= i < |care| => Int(score(care[i])))
  }

  /** `df.apply(get_is_cat, axis=1)` */
  function IsCatColumn(t: Table): (v: seq<Cell>)
    requires t.Valid()
    ensures |v| == |t.rows|
    ensures forall i :: 0 <= i < |t.rows| ==> v[i] == Int(IsCat(t.columns, t.rows[i]))
  {
    seq(|t.rows|, i requires 0 <= i < |t.rows| => Int(IsCat(t.columns, t.rows[i])))
  }

  /** The frame after the five column assignments, in the script's order. */
  function Processed(t: Table): (r: Table)
    requires t.Valid() && CARE in t.columns
    ensures r.Valid() && |r.rows| == |t.rows|
    ensures forall d :: d in r.columns <==> (d in t.columns || d == ENERGY_COL || d == SPACE_COL
      || d == GROOMING_COL || d == KID_COL || d == IS_CAT_COL)
  {
    var t1 := t.Assign(ENERGY_COL, ScoreColumn(t.Column(CARE), ScoreEnergy));
    var t2 := t1.Assign(SPACE_COL, ScoreColumn(t1.Column(CARE), ScoreSpace));
    var t3 := t2.Assign(GROOMING_COL, ScoreColumn(t2.Column(CARE), ScoreGrooming));
    var t4 := t3.Assign(KID_COL, ScoreColumn(t3.Column(CARE), ScoreKidFriendly));
    t4.Assign(IS_CAT_COL, IsCatColumn(t4))
  }

  /** process_pet_metadata after the frame is loaded: without a care column nothing is
      added; otherwise the five derived columns are assigned. */
  method ProcessPetMetadata(df: Frame) returns (processed: bool)
    requires df.Valid()
    modifies df
    ensures df.Valid()
    ensures processed == (CARE in old(df.columns))
    ensures df.Value() == if processed then Processed(old(df.Value())) else old(df.Value())
  {
    if CARE !in df.columns {
      return false;
    }
    df.Assign(ENERGY_COL, ScoreColumn(df.Value().Column(CARE), ScoreEnergy));
    df.Assign(SPACE_COL, ScoreColumn(df.Value().Column(CARE), ScoreSpace));
    df.Assign(GROOMING_COL, ScoreColumn(df.Value().Column(CARE), ScoreGrooming));
    df.Assign(KID_COL, ScoreColumn(df.Value().Column(CARE), ScoreKidFriendly));
    df.Assign(IS_CAT_COL, IsCatColumn(df.Value()));
    return true;
  }

  /** Row by row, the processed frame holds the scores of the row's own care text and the cat
      flag of its own breed name and care text. */
  lemma {:induction false} ProcessedRows(t: Table, i: nat)
    requires t.Valid() && CARE in t.columns && i < |t.rows|
    ensures var p := Processed(t); var care := t.rows[i][IndexOf(t.columns, CARE)];
      && |p.rows| == |t.rows|
      && p.Column(ENERGY_COL)[i] == Int(ScoreEnergy(care))
      && p.Column(SPACE_COL)[i] == Int(ScoreSpace(care))
      && p.Column(GROOMING_COL)[i] == Int(ScoreGrooming(care))
      && p.Column(KID_COL)[i] == Int(ScoreKidFriendly(care))
      && p.Column(IS_CAT_COL)[i] == Int(IsCat(t.columns, t.rows[i]))
  {
    var care := t.Column(CARE);
    var t1 := t.Assign(ENERGY_COL, ScoreColumn(care, ScoreEnergy));
    assert t1.Column(CARE) == care;
    var t2 := t1.Assign(SPACE_COL, ScoreColumn(care, ScoreSpace));
    assert t2.Column(CARE) == care;
    var t3 := t2.Assign(GROOMING_COL, ScoreColumn(care, ScoreGrooming));
    assert t3.Column(CARE) == care;
    var t4 := t3.Assign(KID_COL, ScoreColumn(care, ScoreKidFriendly));
    assert t4.Column(CARE) == care;
    var p := t4.Assign(IS_CAT_COL, IsCatColumn(t4));
    assert p == Processed(t);
    assert p.Column(ENERGY_COL) == t4.Column(ENERGY_COL) == t3.Column(ENERGY_COL)
      == t2.Column(ENERGY_COL) == t1.Column(ENERGY_COL);
    assert p.Column(SPACE_COL) == t4.Column(SPACE_COL) == t3.Column(SPACE_COL) == t2.Column(SPACE_COL);
    assert p.Column(GROOMING_COL) == t4.Column(GROOMING_COL) == t3.Column(GROOMING_COL);
    assert p.Column(KID_COL) == t4.Column(KID_COL);
    IsCatUnchanged4(t, t1, t2, t3, t4, i);
  }

  /** The four score assignments do not change what the cat test sees. */
  lemma {:induction false} IsCatUnchanged4(t: Table, t1: Table, t2: Table, t3: Table, t4: Table, i: nat)
    requires t.Valid() && CARE in t.columns && i < |t.rows|
    requires t1 == t.Assign(ENERGY_COL, ScoreColumn(t.Column(CARE), ScoreEnergy))
    requires t2 == t1.Assign(SPACE_COL, ScoreColumn(t.Column(CARE), ScoreSpace))
    requires t3 == t2.Assign(GROOMING_COL, ScoreColumn(t.Column(CARE), ScoreGrooming))
    requires t4 == t3.Assign(KID_COL, ScoreColumn(t.Column(CARE), ScoreKidFriendly))
    ensures IsCat(t4.columns, t4.rows[i]) == IsCat(t.columns, t.rows[i])
  {
    AssignKeepsIsCat(t, ENERGY_COL, ScoreColumn(t.Column(CARE), ScoreEnergy), i);
    AssignKeepsIsCat(t1, SPACE_COL, ScoreColumn(t.Column(CARE), ScoreSpace), i);
    AssignKeepsIsCat(t2, GROOMING_COL, ScoreColumn(t.Column(CARE), ScoreGrooming), i);
    AssignKeepsIsCat(t3, KID_COL, ScoreColumn(t.Column(CARE), ScoreKidFriendly), i);
  }

  /** Assigning a column other than the breed name and the care text leaves the cat test of
      every row as it was. */
  lemma {:induction false} AssignKeepsIsCat(t: Table, c: string, values: seq<Cell>, i: nat)
    requires t.Valid() && |values| == |t.rows| && i < |t.rows|
    requires c != CARE && c != BREED
    ensures IsCat(t.Assign(c, values).columns, t.Assign(c, values).rows[i]) == IsCat(t.columns, t.rows[i])
  {
    var r := t.Assign(c, values);
    assert CARE in r.columns <==> CARE in t.columns;
    assert BREED in r.columns <==> BREED in t.columns;
    if CARE in t.columns {
      assert r.Column(CARE) == t.Column(CARE);
      assert r.Column(CARE)[i] == t.Column(CARE)[i];
    }
    if BREED in t.columns {
      assert r.Column(BREED) == t.Column(BREED);
      assert r.Column(BREED)[i] == t.Column(BREED)[i];
    }
    assert GetOrEmpty(r.columns, r.rows[i], CARE) == GetOrEmpty(t.columns, t.rows[i], CARE);
    assert GetOrEmpty(r.columns, r.rows[i], BREED) == GetOrEmpty(t.columns, t.rows[i], BREED);
  }

  /** Every column other than the five derived ones keeps its values. */
  lemma {:induction false} ProcessedKeepsOtherColumns(t: Table, d: string)
    requires t.Valid() && CARE in t.columns && d in t.columns
    requires d != ENERGY_COL && d != SPACE_COL && d != GROOMING_COL && d != KID_COL && d != IS_CAT_COL
    ensures Processed(t).Column(d) == t.Column(d)
  {
    var care := t.Column(CARE);
    var t1 := t.Assign(ENERGY_COL, ScoreColumn(care, ScoreEnergy));
    assert t1.Column(CARE) == care;
    var t2 := t1.Assign(SPACE_COL, ScoreColumn(care, ScoreSpace));
    assert t2.Column(CARE) == care;
    var t3 := t2.Assign(GROOMING_COL, ScoreColumn(care, ScoreGrooming));
    assert t3.Column(CARE) == care;
    var t4 := t3.Assign(KID_COL, ScoreColumn(care, ScoreKidFriendly));
    assert Processed(t) == t4.Assign(IS_CAT_COL, IsCatColumn(t4));
    assert t4.Column(d) == t3.Column(d) == t2.Column(d) == t1.Column(d) == t.Column(d);
  }
}
