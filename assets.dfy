/**
 * Where a character's pictures come from and what a saved sticker is called:
 * the derived portrait path, the override table, the URL priority used when
 * a portrait is shown or loaded, and the sticker's file name.
 */
module Assets {
  import opened Wrappers
  import opened Slug

  /** `customImageMap` (script.js:103-107): portraits whose file name is not the slug. */
  const CustomImageMap: map<string, string> := map[
    "David" := "images/david.png",
    "Barnabas" := "images/barnabas.png",
    "Paul" := "images/saul-paul.png"
  ]

  /** `imagePathFor` (script.js:102). */
  function ImagePathFor(name: string): (path: string)
    ensures |path| == |Slugify(name)| + 11
    ensures path[..7] == "images/" && path[|path| - 4..] == ".png"
  {
    Framed("images/", Slugify(name), ".png");
    "images/" + Slugify(name) + ".png"
  }

  /** JavaScript truthiness of an optional string: missing and "" are both false. */
  predicate Truthy(s: Option<string>) {
    s.Some? && s.value != ""
  }

  /**
   * `charImageUrl || customImageMap[name] || imagePathFor(name)` (script.js:259);
   * the result page and the sticker buttons use it with no explicit URL
   * (script.js:156, 296, 305).
   */
  function PortraitUrl(charImageUrl: Option<string>, name: string): (url: string)
    ensures url != ""
    ensures Truthy(charImageUrl) ==> url == charImageUrl.value
    ensures !Truthy(charImageUrl) && name in CustomImageMap ==> url == CustomImageMap[name]
    ensures !Truthy(charImageUrl) && name !in CustomImageMap ==> url == ImagePathFor(name)
  {
    if Truthy(charImageUrl) then charImageUrl.value
    else if name in CustomImageMap && CustomImageMap[name] != "" then CustomImageMap[name]
    else ImagePathFor(name)
  }

  /**
   * The sticker buttons resolve the URL first and pass it in as the explicit
   * one (script.js:296-298); that yields the same URL as resolving it inside.
   */
  lemma ResolvedUrlIsStable(name: string)
    ensures PortraitUrl(Some(PortraitUrl(None, name)), name) == PortraitUrl(None, name)
  {
  }

  /** `sticker_${slugify(name)}.png` (script.js:300). */
  function StickerFileName(name: string): (file: string)
    ensures |file| == |Slugify(name)| + 12
    ensures file[..8] == "sticker_" && file[|file| - 4..] == ".png"
  {
    Framed("sticker_", Slugify(name), ".png");
    "sticker_" + Slugify(name) + ".png"
  }

  /** A character with the same slug as another gets the same portrait path, and only then. */
  lemma ImagePathSameExactlyForSameSlug(a: string, b: string)
    ensures ImagePathFor(a) == ImagePathFor(b) <==> Slugify(a) == Slugify(b)
  {
    var pa, pb := ImagePathFor(a), ImagePathFor(b);
    if pa == pb {
      assert |Slugify(a)| == |Slugify(b)|;
      assert pa[7..|pa| - 4] == Slugify(a);
      assert pb[7..|pb| - 4] == Slugify(b);
    }
  }

  lemma Framed(pre: string, mid: string, post: string)
    ensures (pre + mid + post)[..|pre|] == pre
    ensures (pre + mid + post)[|pre| + |mid|..] == post
    ensures forall i | |pre| <= i < |pre| + |mid| :: (pre + mid + post)[i] == mid[i - |pre|]
  {
  }

  /** The derived path names one file directly under images/. */
  lemma ImagePathShape(name: string)
    ensures ImagePathFor(name)[..7] == "images/"
    ensures ImagePathFor(name)[|ImagePathFor(name)| - 4..] == ".png"
    ensures forall i | 7 <= i < |ImagePathFor(name)| - 4 ::
      ImagePathFor(name)[i] != '/' && ImagePathFor(name)[i] != '.'
  {
    var s := Slugify(name);
    Framed("images/", s, ".png");
  }

  predicate IsFileNameChar(c: char) {
    IsSlugChar(c) || c == '_' || c == '.'
  }

  /** A sticker's file name holds only [a-z0-9_.-] and ends in ".png". */
  lemma StickerFileNameShape(name: string)
    ensures forall i | 0 <= i < |StickerFileName(name)| :: IsFileNameChar(StickerFileName(name)[i])
    ensures StickerFileName(name)[..8] == "sticker_"
    ensures StickerFileName(name)[|StickerFileName(name)| - 4..] == ".png"
    ensures forall i | 8 <= i < |StickerFileName(name)| - 4 :: IsSlugChar(StickerFileName(name)[i])
  {
    var s := Slugify(name);
    var f := "sticker_" + s + ".png";
    Framed("sticker_", s, ".png");
    FileNameCharsOf("sticker_");
    FileNameCharsOf(".png");
    forall i | 0 <= i < |f| ensures IsFileNameChar(f[i]) {
      if i < 8 {
        assert f[i] == f[..8][i];
      } else if i >= |f| - 4 {
        assert f[i] == f[|f| - 4..][i - (|f| - 4)];
      }
    }
  }

  lemma FileNameCharsOf(lit: string)
    requires lit == "sticker_" || lit == ".png"
    ensures forall i | 0 <= i < |lit| :: IsFileNameChar(lit[i])
  {
  }

  /** Two characters' stickers would overwrite each other exactly when their slugs agree. */
  lemma StickerFileNameSameExactlyForSameSlug(a: string, b: string)
    ensures StickerFileName(a) == StickerFileName(b) <==> Slugify(a) == Slugify(b)
  {
    var fa, fb := StickerFileName(a), StickerFileName(b);
    if fa == fb {
      assert |Slugify(a)| == |Slugify(b)|;
      assert fa[8..|fa| - 4] == Slugify(a);
      assert fb[8..|fb| - 4] == Slugify(b);
    }
  }

  /** Naming a sticker after a slug instead of the name changes nothing. */
  lemma StickerFileNameOfSlug(name: string)
    ensures StickerFileName(Slugify(name)) == StickerFileName(name)
  {
    SlugifyIdempotent(name);
  }
}
