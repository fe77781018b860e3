/** Slugs, portrait paths and sticker names worked out for particular names. */
module CastExamples {
  import opened Wrappers
  import opened Slug
  import opened Assets

  /** A name carrying a parenthesised alias: "Tabitha (Dorcas)" gives "tabitha". */
  lemma SlugOfTabitha()
    ensures Slugify("Tabitha (Dorcas)") == "tabitha"
  {
    LowerTabitha();
    assert "Tabitha" + " (" + "Dorcas" + ")" == "Tabitha (Dorcas)";
    SlugDropsGroup("Tabitha", "Dorcas");
  }

  lemma LowerTabitha()
    ensures ToLower("Tabitha") == "tabitha"
  {
    assert "Tabitha" == ['T'] + "abitha";
    assert ['t'] + "abitha" == "tabitha";
    ToLowerCapitalised('T', "abitha");
  }

  /** A name outside the cast: "Noah" gives "noah". */
  lemma SlugOfNoah()
    ensures Slugify("Noah") == "noah"
  {
    assert "Noah" == ['N'] + "oah";
    assert ['n'] + "oah" == "noah";
    SlugOfCapitalised('N', "oah");
  }

  /** "Paul" gives "paul". */
  lemma SlugOfPaul()
    ensures Slugify("Paul") == "paul"
  {
    assert "Paul" == ['P'] + "aul";
    assert ['p'] + "aul" == "paul";
    SlugOfCapitalised('P', "aul");
  }

  /** "David" gives "david". */
  lemma SlugOfDavid()
    ensures Slugify("David") == "david"
  {
    assert "David" == ['D'] + "avid";
    assert ['d'] + "avid" == "david";
    SlugOfCapitalised('D', "avid");
  }

  /** "Barnabas" gives "barnabas". */
  lemma SlugOfBarnabas()
    ensures Slugify("Barnabas") == "barnabas"
  {
    assert "Barnabas" == ['B'] + "arnabas";
    assert ['b'] + "arnabas" == "barnabas";
    SlugOfCapitalised('B', "arnabas");
  }

  /** The portrait path and sticker file name spelled out for a given slug. */
  lemma FileNamesOf(slug: string)
    requires slug in {"paul", "david", "barnabas"}
    ensures slug == "paul" ==> "images/" + slug + ".png" == "images/paul.png" && "sticker_" + slug + ".png" == "sticker_paul.png"
    ensures slug == "david" ==> "images/" + slug + ".png" == "images/david.png" && "sticker_" + slug + ".png" == "sticker_david.png"
    ensures slug == "barnabas" ==> "images/" + slug + ".png" == "images/barnabas.png" && "sticker_" + slug + ".png" == "sticker_barnabas.png"
  {
  }

  /** Paul's slug-derived portrait path and sticker file name. */
  lemma FilesOfPaul()
    ensures ImagePathFor("Paul") == "images/paul.png"
    ensures StickerFileName("Paul") == "sticker_paul.png"
  {
    SlugOfPaul();
    FileNamesOf("paul");
  }

  /** David's slug-derived portrait path and sticker file name. */
  lemma FilesOfDavid()
    ensures ImagePathFor("David") == "images/david.png"
    ensures StickerFileName("David") == "sticker_david.png"
  {
    SlugOfDavid();
    FileNamesOf("david");
  }

  /** Barnabas's slug-derived portrait path and sticker file name. */
  lemma FilesOfBarnabas()
    ensures ImagePathFor("Barnabas") == "images/barnabas.png"
    ensures StickerFileName("Barnabas") == "sticker_barnabas.png"
  {
    SlugOfBarnabas();
    FileNamesOf("barnabas");
  }

  /** Paul's portrait comes from the override table, not from his slug. */
  lemma PaulPortraitIsOverridden()
    ensures PortraitUrl(None, "Paul") == "images/saul-paul.png"
    ensures ImagePathFor("Paul") == "images/paul.png"
  {
    FilesOfPaul();
  }

  /** The entries of the override table, spelled out. */
  lemma OverrideEntries()
    ensures CustomImageMap["David"] == "images/david.png"
    ensures CustomImageMap["Barnabas"] == "images/barnabas.png"
  {
  }

  /** For David and Barnabas the override names the same file the slug would. */
  lemma OverridesAgreeWithSlugPaths()
    ensures CustomImageMap["David"] == ImagePathFor("David")
    ensures CustomImageMap["Barnabas"] == ImagePathFor("Barnabas")
  {
    FilesOfDavid();
    FilesOfBarnabas();
    OverrideEntries();
  }

  /** The three characters' stickers never overwrite one another. */
  lemma CastStickerNamesDistinct()
    ensures StickerFileName("David") != StickerFileName("Paul")
    ensures StickerFileName("David") != StickerFileName("Barnabas")
    ensures StickerFileName("Barnabas") != StickerFileName("Paul")
  {
    FilesOfPaul();
    FilesOfDavid();
    FilesOfBarnabas();
    assert |"sticker_paul.png"| == 16 && |"sticker_david.png"| == 17 && |"sticker_barnabas.png"| == 20;
  }
}
