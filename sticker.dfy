/**
 * The sticker canvas: a 1024×1024 square holding a circular badge with the
 * character's portrait fitted inside, an optional round photo inset, an
 * outer ring, the character's name and a caption of up to four traits.
 * Only the numbers and strings handed to the canvas are modelled, not the
 * pixels it paints.
 */
module Sticker {
  import opened Wrappers
  import opened RealArith
  import opened Assets

  /** `SIZE`: the canvas is SIZE × SIZE. */
  const Size: int := 1024
  /** The badge centre `cx, cy` = SIZE / 2. */
  const Cx: real := 512.0
  const Cy: real := 512.0
  /** The badge radius `R` = SIZE · 0.46. */
  const R: real := 1024.0 * 0.46
  /** The square the portrait is fitted into has side 1.6 · R. */
  const Box: real := R * 1.6

  /** A rectangle handed to drawImage. */
  datatype Rect = Rect(x: real, y: real, w: real, h: real)

  /** A circle handed to arc. */
  datatype Circle = Circle(cx: real, cy: real, r: real)

  /** A decoded image, by its `width` and `height`. */
  datatype Image = Image(width: nat, height: nat)

  /** The result page's `<img>`: whether it finished loading, its natural width, and its width and height. */
  datatype ImageElement = ImageElement(complete: bool, naturalWidth: nat, width: nat, height: nat)

  /** A supplied element is used as it is only when it has finished loading a picture with some width. */
  predicate IsReady(el: Option<ImageElement>)
  {
    el.Some? && el.value.complete && el.value.naturalWidth > 0
  }

  /**
   * The portrait: the ready element if there is one; otherwise whatever
   * loading the resolved URL gives, where a failed load (None) means no
   * portrait. `load` stands for loadImage.
   */
  function ChoosePortrait(el: Option<ImageElement>, charImageUrl: Option<string>, name: string,
                          load: string -> Option<Image>): (img: Option<Image>)
    ensures IsReady(el) ==> img == Some(Image(el.value.width, el.value.height))
    ensures !IsReady(el) ==> img == load(PortraitUrl(charImageUrl, name))
  {
    if IsReady(el) then Some(Image(el.value.width, el.value.height))
    else load(PortraitUrl(charImageUrl, name))
  }

  /** A ready element is drawn as it is: no load is attempted, so the loader makes no difference. */
  lemma ReadyElementSkipsLoading(el: Option<ImageElement>, charImageUrl: Option<string>, name: string,
                                 load1: string -> Option<Image>, load2: string -> Option<Image>)
    requires IsReady(el)
    ensures ChoosePortrait(el, charImageUrl, name, load1) == ChoosePortrait(el, charImageUrl, name, load2)
  {
  }

  /** `Math.min` on two finite numbers. */
  function Min(a: real, b: real): (m: real)
    ensures m <= a && m <= b && (m == a || m == b)
  {
    if a <= b then a else b
  }

  /**
   * `scale = Math.min(1.6R / width, 1.6R / height)` with the image drawn
   * `width·scale` by `height·scale`, its centre at cx and 65% of its height
   * above cy. A zero dimension divides to +Infinity, which min passes over;
   * when both are zero the size is NaN, modelled as no rectangle.
   */
  function FitPortrait(img: Image): (r: Option<Rect>)
    ensures r.None? <==> img.width == 0 && img.height == 0
    ensures r.Some? ==> r.value.x == Cx - r.value.w / 2.0 && r.value.y == Cy - r.value.h * 0.65
  {
    if img.width == 0 && img.height == 0 then None
    else
      var iw, ih := img.width as real, img.height as real;
      var scale := if img.width == 0 then Box / ih
                   else if img.height == 0 then Box / iw
                   else Min(Box / iw, Box / ih);
      var w, h := iw * scale, ih * scale;
      Some(Rect(Cx - w / 2.0, Cy - h * 0.65, w, h))
  }

  /**
   * The fitted portrait keeps the image's aspect ratio, fits inside the
   * 1.6R square and touches it on at least one side.
   */
  lemma FitPortraitFills(img: Image)
    requires img.width > 0 || img.height > 0
    ensures var r := FitPortrait(img).value;
      r.w * img.height as real == r.h * img.width as real &&
      0.0 <= r.w <= Box && 0.0 <= r.h <= Box &&
      (r.w == Box || r.h == Box)
  {
    var iw, ih := img.width as real, img.height as real;
    var r := FitPortrait(img).value;
    if img.width == 0 {
      MulDivCancel(ih, Box);
      assert r.w == 0.0 && r.h == Box;
    } else if img.height == 0 {
      MulDivCancel(iw, Box);
      assert r.h == 0.0 && r.w == Box;
    } else {
      var s := Min(Box / iw, Box / ih);
      assert r.w == iw * s && r.h == ih * s;
      DivNonNeg(Box, iw);
      DivNonNeg(Box, ih);
      MulNonNeg(iw, s);
      MulNonNeg(ih, s);
      MulDivCancel(iw, Box);
      MulDivCancel(ih, Box);
      MulLe(iw, s, Box / iw);
      MulLe(ih, s, Box / ih);
      assert iw * s * ih == ih * s * iw;
    }
  }

  /** The photo inset: radius 0.28R, centred 0.42R right of and below the badge centre. */
  const Inset: Circle := Circle(Cx + R * 0.42, Cy + R * 0.42, R * 0.28)

  /** The badge outline, which is also the clip. */
  const Badge: Circle := Circle(Cx, Cy, R)

  /** `Math.max(6, R·0.03)`: the width of both rings. */
  const RingWidth: real := if 6.0 < R * 0.03 then R * 0.03 else 6.0

  /** One circle lies inside another: the centre distance plus the radius is at most the outer radius. */
  ghost predicate Inside(inner: Circle, outer: Circle)
  {
    inner.r >= 0.0 && inner.r <= outer.r &&
    (inner.cx - outer.cx) * (inner.cx - outer.cx) + (inner.cy - outer.cy) * (inner.cy - outer.cy)
      <= (outer.r - inner.r) * (outer.r - inner.r)
  }

  /**
   * The inset photo lies wholly inside the badge, so the clip never cuts it,
   * and its square lies on the canvas; the ring is 3% of R.
   */
  lemma InsetFitsInBadge()
    ensures Inside(Inset, Badge)
    ensures 0.0 <= Inset.cx - Inset.r && Inset.cx + Inset.r <= Size as real
    ensures 0.0 <= Inset.cy - Inset.r && Inset.cy + Inset.r <= Size as real
    ensures RingWidth == R * 0.03
  {
  }

  /** The separator between traits in the caption. */
  const Bullet: string := " \U{2022} "

  /** `Array.prototype.join`. */
  function Join(parts: seq<string>, sep: string): (s: string)
  {
    if parts == [] then ""
    else if |parts| == 1 then parts[0]
    else parts[0] + sep + Join(parts[1..], sep)
  }

  /** Where part k of a join starts. */
  function Offset(parts: seq<string>, sep: string, k: nat): nat
    requires k <= |parts|
  {
    if k == 0 then 0 else Offset(parts, sep, k - 1) + |parts[k - 1]| + |sep|
  }

  /** Offsets do not depend on the parts after the one asked about. */
  lemma {:induction false} OffsetShift(parts: seq<string>, sep: string, k: nat)
    requires 0 < |parts| && k < |parts|
    ensures Offset(parts, sep, k + 1) == |parts[0]| + |sep| + Offset(parts[1..], sep, k)
  {
    if k > 0 {
      OffsetShift(parts, sep, k - 1);
    }
  }

  /** A slice of a + b lying past a is a slice of b. */
  lemma SliceAfter(a: string, b: string, i: nat, l: nat)
    requires i <= l <= |b|
    ensures (a + b)[|a| + i..|a| + l] == b[i..l]
  {
  }

  /** A join is as long as its parts plus one separator between each pair of neighbours. */
  lemma {:induction false} JoinLength(parts: seq<string>, sep: string)
    requires parts != []
    ensures |Join(parts, sep)| == Offset(parts, sep, |parts|) - |sep|
  {
    if |parts| > 1 {
      JoinLength(parts[1..], sep);
      OffsetShift(parts, sep, |parts| - 1);
    }
  }

  /** Part k of a join sits at Offset(k). */
  lemma {:induction false} JoinPartAt(parts: seq<string>, sep: string, k: nat)
    requires k < |parts|
    ensures Offset(parts, sep, k) + |parts[k]| <= |Join(parts, sep)|
    ensures Join(parts, sep)[Offset(parts, sep, k)..Offset(parts, sep, k) + |parts[k]|] == parts[k]
  {
    if |parts| > 1 {
      var tail := parts[1..];
      var head := parts[0] + sep;
      assert Join(parts, sep) == head + Join(tail, sep);
      if k > 0 {
        JoinPartAt(tail, sep, k - 1);
        OffsetShift(parts, sep, k - 1);
        SliceAfter(head, Join(tail, sep), Offset(tail, sep, k - 1), Offset(tail, sep, k - 1) + |tail[k - 1]|);
      }
    }
  }

  /** Between part k and part k + 1 of a join sits exactly one separator. */
  lemma {:induction false} JoinSeparatorAt(parts: seq<string>, sep: string, k: nat)
    requires k + 1 < |parts|
    ensures Offset(parts, sep, k + 1) <= |Join(parts, sep)|
    ensures Join(parts, sep)[Offset(parts, sep, k) + |parts[k]|..Offset(parts, sep, k + 1)] == sep
  {
    var tail := parts[1..];
    var head := parts[0] + sep;
    assert Join(parts, sep) == head + Join(tail, sep);
    JoinLength(tail, sep);
    if k > 0 {
      JoinSeparatorAt(tail, sep, k - 1);
      OffsetShift(parts, sep, k - 1);
      OffsetShift(parts, sep, k);
      SliceAfter(head, Join(tail, sep), Offset(tail, sep, k - 1) + |tail[k - 1]|, Offset(tail, sep, k));
    } else {
      OffsetShift(parts, sep, 0);
    }
  }

  /** `(traits || []).slice(0, 4)`: the traits the caption shows. */
  function Shown(traits: Option<seq<string>>): (ts: seq<string>)
    ensures |ts| <= 4
    ensures traits.None? ==> ts == []
    ensures traits.Some? ==> ts <= traits.value
    ensures traits.Some? ==> |ts| == if |traits.value| < 4 then |traits.value| else 4
  {
    var all := traits.GetOr([]);
    all[..if |all| < 4 then |all| else 4]
  }

  /** `(traits || []).slice(0, 4).join(' • ')`. */
  function TraitLine(traits: Option<seq<string>>): (line: string)
    ensures Shown(traits) == [] ==> line == ""
  {
    Join(Shown(traits), Bullet)
  }

  /**
   * Each of the first four traits appears in the caption, whole, at its
   * offset; the caption is as long as those traits and the bullets between
   * them.
   */
  lemma TraitLineShowsTrait(traits: Option<seq<string>>, k: nat)
    requires traits.Some? && k < |traits.value| && k < 4
    ensures var ts := Shown(traits); var o := Offset(ts, Bullet, k);
      |TraitLine(traits)| == Offset(ts, Bullet, |ts|) - |Bullet| &&
      o + |traits.value[k]| <= |TraitLine(traits)| &&
      TraitLine(traits)[o..o + |traits.value[k]|] == traits.value[k]
    ensures var ts := Shown(traits);
      k + 1 < |ts| ==>
        Offset(ts, Bullet, k + 1) <= |TraitLine(traits)| &&
        TraitLine(traits)[Offset(ts, Bullet, k) + |ts[k]|..Offset(ts, Bullet, k + 1)] == Bullet
  {
    var ts := Shown(traits);
    assert ts[k] == traits.value[k];
    JoinLength(ts, Bullet);
    JoinPartAt(ts, Bullet, k);
    if k + 1 < |ts| {
      JoinSeparatorAt(ts, Bullet, k);
    }
  }

  /** A line of text handed to fillText, with its anchor point. */
  datatype Text = Text(content: string, x: real, y: real)

  /** What buildStickerCanvas is asked for. */
  datatype StickerRequest = StickerRequest(name: string, traits: Option<seq<string>>, charImageUrl: Option<string>,
                                           kidImage: Option<Image>, charImageEl: Option<ImageElement>)

  /** Everything drawn, in order: clip and background, portrait, inset photo, outer ring, name, caption. */
  datatype StickerPlan = StickerPlan(size: int, clip: Circle, portrait: Option<Rect>, inset: Option<Circle>,
                                     ring: Circle, ringWidth: real, nameText: Text, traitText: Text)

  /** The parts of the sticker that do not depend on the portrait. */
  ghost predicate HasFrameAndText(plan: StickerPlan, req: StickerRequest)
  {
    plan.size == Size && plan.clip == Badge && plan.ring == Badge && plan.ringWidth == RingWidth &&
    plan.nameText == Text(req.name, Cx, Cy + R * 0.18) &&
    plan.traitText == Text(TraitLine(req.traits), Cx, Cy + R * 0.31) &&
    (plan.inset.Some? <==> req.kidImage.Some?) &&
    (plan.inset.Some? ==> plan.inset.value == Inset)
  }

  /** `buildStickerCanvas`, as the list of what it draws. */
  function BuildSticker(req: StickerRequest, load: string -> Option<Image>): (plan: StickerPlan)
    ensures HasFrameAndText(plan, req)
    ensures var img := ChoosePortrait(req.charImageEl, req.charImageUrl, req.name, load);
      plan.portrait == if img.Some? then FitPortrait(img.value) else None
  {
    var img := ChoosePortrait(req.charImageEl, req.charImageUrl, req.name, load);
    StickerPlan(Size, Badge,
                if img.Some? then FitPortrait(img.value) else None,
                if req.kidImage.Some? then Some(Inset) else None,
                Badge, RingWidth,
                Text(req.name, Cx, Cy + R * 0.18),
                Text(TraitLine(req.traits), Cx, Cy + R * 0.31))
  }

  /** A failed load costs only the portrait: the badge, ring, inset and text are all still drawn. */
  lemma FailedLoadStillBuilds(req: StickerRequest, load: string -> Option<Image>)
    requires !IsReady(req.charImageEl)
    requires load(PortraitUrl(req.charImageUrl, req.name)) == None
    ensures BuildSticker(req, load).portrait == None
    ensures HasFrameAndText(BuildSticker(req, load), req)
  {
  }

  /** With a ready element the sticker is the same whatever the loader would have done. */
  lemma ReadyElementStickerIgnoresLoader(req: StickerRequest, load1: string -> Option<Image>, load2: string -> Option<Image>)
    requires IsReady(req.charImageEl)
    ensures BuildSticker(req, load1) == BuildSticker(req, load2)
  {
  }

  /**
   * `makeAndDownloadSticker` and `makeAndPrintSticker`: the sticker for a
   * match, built with its resolved portrait URL and its traits. Passing the
   * resolved URL draws the same sticker as leaving the URL to be resolved
   * inside. The second component is the file name the download path saves
   * under; the print path opens the image in a print window and uses no name.
   */
  function MatchSticker(name: string, traits: seq<string>, kidImage: Option<Image>,
                        el: Option<ImageElement>, load: string -> Option<Image>): (r: (StickerPlan, string))
    ensures r.0 == BuildSticker(StickerRequest(name, Some(traits), None, kidImage, el), load)
    ensures r.0.traitText.content == TraitLine(Some(traits))
    ensures r.1 == StickerFileName(name)
  {
    ResolvedUrlIsStable(name);
    (BuildSticker(StickerRequest(name, Some(traits), Some(PortraitUrl(None, name)), kidImage, el), load),
     StickerFileName(name))
  }

  /** Paul's five traits are cut to the first four in his caption. */
  lemma PaulCaption()
    ensures TraitLine(Some(["adventurous", "teacher", "faithful", "brave", "resilient"])) ==
      "adventurous \U{2022} teacher \U{2022} faithful \U{2022} brave"
  {
    var ts := ["adventurous", "teacher", "faithful", "brave", "resilient"];
    assert Shown(Some(ts)) == ["adventurous", "teacher", "faithful", "brave"];
    assert Join(["brave"], Bullet) == "brave";
    assert Join(["faithful", "brave"], Bullet) == "faithful" + Bullet + "brave";
    var tail := "teacher" + Bullet + "faithful" + Bullet + "brave";
    assert Join(["teacher", "faithful", "brave"], Bullet) == tail;
    assert Join(Shown(Some(ts)), Bullet) == "adventurous" + Bullet + tail;
    PaulCaptionText();
  }

  lemma PaulCaptionText()
    ensures "adventurous" + Bullet + ("teacher" + Bullet + "faithful" + Bullet + "brave") ==
      "adventurous \U{2022} teacher \U{2022} faithful \U{2022} brave"
  {
  }
}
