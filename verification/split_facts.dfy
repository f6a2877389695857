/**
  Properties of `split_alcohol_column` and of the `Alcohol` key built from
  its first two columns.
 */
module SplitFacts {
  import opened Wrappers
  import opened Table
  import opened Features
  import opened Baskets
  import Text

  /** A product name in the expected form: name, class and id separated by single spaces. */
  function ProductName(name: string, cls: string, id: string): string {
    Text.Join([name, cls, id])
  }

  /** The three parts of a well-formed product name are its tokens. */
  lemma TokensOfProductName(t: Transaction, name: string, cls: string, id: string)
    requires Text.IsWord(name) && Text.IsWord(cls) && Text.IsWord(id)
    requires t.productName == ProductName(name, cls, id)
    ensures Tokens(t) == [name, cls, id]
  {
    Text.SplitJoin([name, cls, id]);
  }

  /**
    Round trip: when every product name was composed from three tokens, the
    split succeeds and gives back exactly those tokens, in order, leaving the
    rest of each row as it was.
   */
  lemma SplitRecoversParts(df: seq<Transaction>, parts: seq<(string, string, string)>)
    requires |df| == |parts| > 0
    requires forall i :: 0 <= i < |df| ==>
      && Text.IsWord(parts[i].0) && Text.IsWord(parts[i].1) && Text.IsWord(parts[i].2)
      && df[i].productName == ProductName(parts[i].0, parts[i].1, parts[i].2)
    ensures SplitAlcoholColumn(df).Ok?
    ensures forall i :: 0 <= i < |df| ==>
      SplitAlcoholColumn(df).value[i]
        == SplitTransaction(df[i], Some(parts[i].0), Some(parts[i].1), Some(parts[i].2))
  {
    forall i | 0 <= i < |df| ensures Tokens(df[i]) == [parts[i].0, parts[i].1, parts[i].2] {
      TokensOfProductName(df[i], parts[i].0, parts[i].1, parts[i].2);
    }
    assert |Tokens(df[0])| == 3;
  }

  /** A table without rows cannot be split: the expansion has no columns to assign. */
  lemma EmptyTableRejected()
    ensures SplitAlcoholColumn([]) == Err(ColumnsMismatch(0))
  {
  }

  /**
    A name with fewer than three tokens is not rejected as long as some
    other name has exactly three: its missing parts are missing values.
   */
  lemma ShortNamePadded(df: seq<Transaction>, i: int, j: int)
    requires 0 <= i < |df| && 0 <= j < |df|
    requires forall k :: 0 <= k < |df| ==> |Tokens(df[k])| <= 3
    requires |Tokens(df[j])| == 3 && |Tokens(df[i])| == 1
    ensures SplitAlcoholColumn(df).Ok?
    ensures var r := SplitAlcoholColumn(df).value[i];
      r.alcoholName == Some(Tokens(df[i])[0]) && r.alcoholClass == None && r.alcoholId == None
  {
    SplitFields(df, i);
  }

  /** A name with more than three tokens makes the whole split fail. */
  lemma LongNameRejected(df: seq<Transaction>, i: int)
    requires 0 <= i < |df| && |Tokens(df[i])| > 3
    ensures SplitAlcoholColumn(df).Err?
    ensures SplitAlcoholColumn(df).error.width >= |Tokens(df[i])|
  {
  }

  /**
    The `Alcohol` key glues name and class with no separator, so two
    different (name, class) pairs whose concatenations agree share a key.
   */
  lemma AlcoholKeyCollision(t1: Transaction, t2: Transaction, name1: string, class1: string, name2: string, class2: string, id: string)
    requires Text.IsWord(name1) && Text.IsWord(class1) && Text.IsWord(name2) && Text.IsWord(class2) && Text.IsWord(id)
    requires t1.productName == ProductName(name1, class1, id)
    requires t2.productName == ProductName(name2, class2, id)
    requires name1 + class1 == name2 + class2
    ensures AlcoholKey(t1) == AlcoholKey(t2) == Some(name1 + class1)
  {
    TokensOfProductName(t1, name1, class1, id);
    TokensOfProductName(t2, name2, class2, id);
  }

  /** The parts of the two colliding names below are words, and the pairs differ yet glue to the same text. */
  lemma CollidingParts()
    ensures Text.IsWord("Vod") && Text.IsWord("caPremium") && Text.IsWord("Vodca") && Text.IsWord("Premium")
    ensures Text.IsWord("1")
    ensures "Vod" != "Vodca" && "Vod" + "caPremium" == "Vodca" + "Premium" == "VodcaPremium"
  {
    assert |"Vod"| != |"Vodca"|;
  }

  /** Such pairs exist: "Vod caPremium 1" and "Vodca Premium 1" both give the key "VodcaPremium". */
  lemma CollidingNames(t1: Transaction, t2: Transaction)
    requires t1.productName == ProductName("Vod", "caPremium", "1")
    requires t2.productName == ProductName("Vodca", "Premium", "1")
    ensures AlcoholKey(t1) == AlcoholKey(t2) == Some("VodcaPremium")
  {
    CollidingParts();
    AlcoholKeyCollision(t1, t2, "Vod", "caPremium", "Vodca", "Premium", "1");
  }

  /** Two rows share a key exactly when their first two tokens glue to the same text. */
  lemma SameAlcoholKey(t1: Transaction, t2: Transaction)
    requires |Tokens(t1)| >= 2 && |Tokens(t2)| >= 2
    ensures AlcoholKey(t1) == AlcoholKey(t2) <==> Tokens(t1)[0] + Tokens(t1)[1] == Tokens(t2)[0] + Tokens(t2)[1]
  {
  }
}
