/** Keyword-priority classification: a description is scored by the first priority tier that
    has one of its keywords occurring in the (already normalised) text.

    Both preprocessing revisions are instances: ai/preprocessing/vibe_csv.py scans score
    levels 5, 4, 1, 2 of a keyword table, and the earlier vibe_csv.py tries a "high" list
    and then a "low" list (or only a "caution" list). */
module Keywords {
  import opened Text

  /** One priority tier: the score it yields and the keywords that select it. */
  type Tier = (int, seq<string>)

  /** Some keyword of the list occurs in the text. */
  predicate AnyKeyword(text: string, keywords: seq<string>) {
    exists j :: 0 <= j < |keywords| && Contains(text, keywords[j])
  }

  /** No tier before position `i` has a keyword in the text. */
  predicate NoEarlierHit(text: string, tiers: seq<Tier>, i: int)
    requires 0 <= i <= |tiers|
  {
    forall j :: 0 <= j < i ==> !AnyKeyword(text, tiers[j].1)
  }

  /** The nested `for score in order: for kw in table[score]: if kw in text: return score`
      search, falling back to `default`. */
  function FirstMatch(text: string, tiers: seq<Tier>, default: int): (r: int)
    ensures NoEarlierHit(text, tiers, |tiers|) ==> r == default
    ensures forall i :: (0 <= i < |tiers| && AnyKeyword(text, tiers[i].1) && NoEarlierHit(text, tiers, i))
                          ==> r == tiers[i].0
    ensures r == default || exists i :: 0 <= i < |tiers| && r == tiers[i].0
    decreases |tiers|
  {
    if tiers == [] then default
    else if AnyKeyword(text, tiers[0].1) then tiers[0].0
    else
      var r := FirstMatch(text, tiers[1..], default);
      assert forall i :: 1 <= i <= |tiers| ==>
        (NoEarlierHit(text, tiers, i) <==> NoEarlierHit(text, tiers[1..], i - 1));
      r
  }

  /** A tier that matches decides the result whatever comes after the tiers before it. */
  lemma {:induction false} FirstMatchIgnoresLaterTiers(text: string, tiers: seq<Tier>, rest: seq<Tier>, default: int)
    requires exists i :: 0 <= i < |tiers| && AnyKeyword(text, tiers[i].1)
    ensures FirstMatch(text, tiers + rest, default) == FirstMatch(text, tiers, default)
    decreases |tiers|
  {
    if !AnyKeyword(text, tiers[0].1) {
      assert (tiers + rest)[1..] == tiers[1..] + rest;
      var i :| 0 <= i < |tiers| && AnyKeyword(text, tiers[i].1);
      assert AnyKeyword(text, tiers[1..][i - 1].1);
      FirstMatchIgnoresLaterTiers(text, tiers[1..], rest, default);
    }
  }

  /** A keyword occurring as a substring of the text's keyword is enough: a text containing a
      longer phrase also contains every piece of it. */
  lemma {:induction false} KeywordInPhrase(text: string, keywords: seq<string>, j: nat, i: nat)
    requires j < |keywords| && i <= |text| && keywords[j] <= text[i..]
    ensures AnyKeyword(text, keywords)
  {
    ContainsAt(text, keywords[j], i);
  }

  /** A two-tier search with distinct scores and default: each outcome happens exactly when
      its tier is the first to match. */
  lemma {:induction false} TwoTierCases(text: string, first: Tier, second: Tier, default: int)
    requires first.0 != second.0 && first.0 != default && second.0 != default
    ensures var r := FirstMatch(text, [first, second], default);
      && (r == first.0 <==> AnyKeyword(text, first.1))
      && (r == second.0 <==> !AnyKeyword(text, first.1) && AnyKeyword(text, second.1))
      && (r == default <==> !AnyKeyword(text, first.1) && !AnyKeyword(text, second.1))
  {
    var tiers := [first, second];
    assert tiers[1..] == [second];
    assert [second][1..] == [];
  }

  /** A one-tier search: the tier's score exactly when one of its keywords occurs. */
  lemma {:induction false} OneTierCases(text: string, tier: Tier, default: int)
    requires tier.0 != default
    ensures FirstMatch(text, [tier], default) == tier.0 <==> AnyKeyword(text, tier.1)
    ensures !AnyKeyword(text, tier.1) ==> FirstMatch(text, [tier], default) == default
  {
    assert [tier][1..] == [];
  }

  /** The search over four tiers, case by case. */
  lemma {:induction false} FirstMatchFour(n: string, tiers: seq<Tier>, default: int)
    requires |tiers| == 4
    ensures var r := FirstMatch(n, tiers, default);
      && (r == default || r == tiers[0].0 || r == tiers[1].0 || r == tiers[2].0 || r == tiers[3].0)
      && (AnyKeyword(n, tiers[0].1) ==> r == tiers[0].0)
      && (!AnyKeyword(n, tiers[0].1) && AnyKeyword(n, tiers[1].1) ==> r == tiers[1].0)
      && (!AnyKeyword(n, tiers[0].1) && !AnyKeyword(n, tiers[1].1) && AnyKeyword(n, tiers[2].1) ==> r == tiers[2].0)
      && ((!AnyKeyword(n, tiers[0].1) && !AnyKeyword(n, tiers[1].1) && !AnyKeyword(n, tiers[2].1)
           && AnyKeyword(n, tiers[3].1)) ==> r == tiers[3].0)
      && ((!AnyKeyword(n, tiers[0].1) && !AnyKeyword(n, tiers[1].1) && !AnyKeyword(n, tiers[2].1)
           && !AnyKeyword(n, tiers[3].1)) ==> r == default)
  {
    assert NoEarlierHit(n, tiers, 0);
    assert !AnyKeyword(n, tiers[0].1) ==> NoEarlierHit(n, tiers, 1);
    assert !AnyKeyword(n, tiers[0].1) && !AnyKeyword(n, tiers[1].1) ==> NoEarlierHit(n, tiers, 2);
    assert !AnyKeyword(n, tiers[0].1) && !AnyKeyword(n, tiers[1].1) && !AnyKeyword(n, tiers[2].1)
      ==> NoEarlierHit(n, tiers, 3);
    assert (!AnyKeyword(n, tiers[0].1) && !AnyKeyword(n, tiers[1].1) && !AnyKeyword(n, tiers[2].1)
      && !AnyKeyword(n, tiers[3].1)) ==> NoEarlierHit(n, tiers, 4);
  }
}
