/**
 * Two myth queries worked through for app.py and appV0.py, in any capitalisation:
 * matching is by substring of the lower-cased query, and the first key in declaration
 * order wins.
 */
module MythQueries {

  import opened Text
  import opened Tables
  import AppCatalog
  import V0Catalog

  /** The sugar query does not mention "cold": it has no letter l. */
  lemma SugarQueryLacksCold(s: string)
    requires s == "does sugar cause hyperactivity"
    ensures !Contains("cold", s)
  {
    assert 'l' !in s;
    MissingCharNotContained("cold", s, 'l');
  }

  /** The sugar query mentions "sugar", at offset 5. */
  lemma SugarQueryHasSugar(s: string)
    requires s == "does sugar cause hyperactivity"
    ensures Contains("sugar", s)
  {
    assert s[..10] == "does sugar";
    assert s[5..10] == "sugar";
    assert IsPrefix("sugar", s[5..]);
    ContainsIffOccurs("sugar", s);
  }

  /** The vitamin query mentions "vitamin", at its start. */
  lemma VitaminQueryHasVitamin(s: string)
    requires s == "vitamin c prevents colds"
    ensures Contains("vitamin", s)
  {
    assert s[..7] == "vitamin";
  }

  /** The vitamin query mentions "cold", at offset 19. */
  lemma VitaminQueryHasCold(s: string)
    requires s == "vitamin c prevents colds"
    ensures Contains("cold", s)
  {
    assert s[19..23] == "cold";
    assert IsPrefix("cold", s[19..]);
    ContainsIffOccurs("cold", s);
  }

  /** In app.py a query about sugar and hyperactivity busts the sugar myth. */
  lemma AppSugarQuery(q: string)
    requires Lower(q) == "does sugar cause hyperactivity"
    ensures AppCatalog.MythLookup(q) == Busted("Sugar makes kids hyperactive")
  {
    SugarQueryLacksCold(Lower(q));
    SugarQueryHasSugar(Lower(q));
    AppCatalog.MythFirstMatchWins(q, 1);
  }

  /** In appV0.py the same query busts its sugar myth. */
  lemma V0SugarQuery(q: string)
    requires Lower(q) == "does sugar cause hyperactivity"
    ensures V0Catalog.MythLookup(q) == Busted("Sugar makes children hyperactive")
  {
    SugarQueryLacksCold(Lower(q));
    SugarQueryHasSugar(Lower(q));
    V0Catalog.MythFirstMatchWins(q, 1);
  }

  /** In app.py a query about vitamin C and colds gets the cold record: "cold" is declared first. */
  lemma AppVitaminQuery(q: string)
    requires Lower(q) == "vitamin c prevents colds"
    ensures Contains("vitamin", Lower(q))
    ensures AppCatalog.MythLookup(q) == Busted("Cold weather causes colds")
  {
    VitaminQueryHasVitamin(Lower(q));
    VitaminQueryHasCold(Lower(q));
    AppCatalog.MythFirstMatchWins(q, 0);
  }

  /** The same query in appV0.py also gets the cold record rather than the vitamin one. */
  lemma V0VitaminQuery(q: string)
    requires Lower(q) == "vitamin c prevents colds"
    ensures Contains("vitamin", Lower(q))
    ensures V0Catalog.MythLookup(q) == Busted("Exposure to cold weather causes colds")
  {
    VitaminQueryHasVitamin(Lower(q));
    VitaminQueryHasCold(Lower(q));
    V0Catalog.MythFirstMatchWins(q, 0);
  }
}
