# Bible Buddy Match, modelled in Dafny

Bible Buddy Match is a small browser quiz. A child answers three questions.
The page scores each Bible character by how many of the answers are among its
traits, and the first character with the highest score is shown with its
portrait. A new match is celebrated with a confetti burst and a sound, at
most once every three seconds. The child can then save or print a round
sticker: the character's portrait fitted into a badge, an optional camera
photo inset, the name, and a caption of up to four traits.

This project models the rules behind that page and proves what they promise:

- `slug.dfy` (`Slug`): `slugify`. Lower-casing, removal of parenthesised
  groups with JavaScript's lazy `\(.*?\)`, the `[^a-z0-9\s-]` filter, `trim`
  with JavaScript's whitespace set, and the collapse of whitespace runs.
- `assets.dfy` (`Assets`): the derived portrait path, the override table, the
  portrait URL priority and the sticker file name.
- `cast_examples.dfy` (`CastExamples`): these rules worked out for the cast's
  names, plus two further slug examples: a name with a parenthesised alias
  and a name outside the cast.
- `quiz.dfy` (`Quiz`): the three-answer guard, the score and the best-match
  scan, written as a loop.
- `celebration.dfy` (`Celebration`): the three-second throttle and the
  motion and mute gates. The page's closure state is a class.
- `capture.dfy` (`Capture`): the centred square crop of a camera frame.
- `sticker.dfy` (`Sticker`): the sticker layout. It covers the portrait
  choice, the aspect-preserving fit, the inset and ring geometry, and the
  caption.
- `confetti.dfy` (`Confetti`): the confetti burst. It covers option
  defaults, the clamped device pixel ratio, canvas sizing and the spawn loop.
  It also covers the in-place per-frame update and the frame/cleanup
  lifecycle, with the burst as a class.
- `arith.dfy` (`RealArith`) and `wrappers.dfy` (`Wrappers`): real-number
  facts and `Option`.

The model treats its inputs and numbers as follows:

- **Browser inputs are parameters:**
  - `Math.random`: the k-th call is `random(k)`;
  - `Math.cos` and `Math.sin`;
  - the clock: `performance.now`, `Date.now` and the frame times;
  - `devicePixelRatio`, the canvas client size and the video frame size;
  - the reduced-motion preference, the mute box and the result page's image
    element;
  - the outcome of an image load, as `Option<Image>`.
- **Numbers:** JavaScript numbers in geometry and physics are Dafny `real`.
  Division by zero is modelled explicitly where the code can reach it.

Three behaviours of the code are easy to misread, and the model follows them
as written:

- The portrait URL is the explicit `charImageUrl` if one is given. Only
  otherwise is it the override table entry, and only then the slug-derived
  path (script.js:259). An explicit URL therefore wins over the table.
- `slugify` removes characters outside `[a-z0-9\s-]`. That is not all
  non-alphanumerics: whitespace and `-` stay, and whitespace runs become `-`.
- The cast is the three characters Barnabas, David and Paul (script.js:82-98).

## Model

| member | source | states |
|---|---|---|
| Slug.Slugify | script.js:101 | every character of a slug is a lower-case ASCII letter, a digit or '-', so a slug has no capital, whitespace or parenthesis |
| Slug.SlugEnds | script.js:101 | the slug is empty exactly when the trimmed text is; its first and last characters are those of the trimmed text, so a hyphen made from whitespace never stands at either end |
| Slug.RunBecomesOneHyphen | script.js:101 | a run of whitespace between two non-space neighbours becomes exactly one '-' |
| Slug.CollapseSpace | script.js:101 | `replace(/\s+/g, "-")` read character by character: a whitespace character followed by another is dropped, and the last of a run is written as '-'; its properties are the lemmas below |
| Slug.CollapseNoLonger | script.js:101 | collapsing whitespace runs never lengthens the text |
| Slug.CollapseChars | script.js:101 | collapsing leaves no whitespace and writes only '-' or characters of its input |
| Slug.CollapseRun | script.js:101 | a run of nothing but whitespace becomes a single '-' |
| Slug.CollapseAppend | script.js:101 | collapsing two texts that do not join two whitespace runs is collapsing each |
| Slug.CloseParen | script.js:101 | the lazy group ends at the first ')' with no line terminator before it; there is no match exactly when every ')' has a line terminator before it |
| Slug.StripParens | script.js:101 | removing groups never lengthens the text (what it removes and keeps is stated by the lemmas below) |
| Slug.StripParensNoClose | script.js:101 | text with no ')' comes through unchanged, every '(' in it included |
| Slug.UnclosedParenStays | script.js:101 | a line with no ')' before its line terminator, an unclosed '(' included, stays as it is, and removal goes on after the terminator: a ')' beyond a line break closes nothing before it |
| Slug.StripParensFromInput | script.js:101 | every character left after removing groups was in the text |
| Slug.StripGroup | script.js:101 | a group "(…)" whose middle has no ')' and no line terminator is removed whole |
| Slug.StripParensPrefix | script.js:101 | text before the first '(' passes through the removal unchanged |
| Slug.KeepOnly | script.js:101 | only characters in [a-z0-9], whitespace and '-' survive the filter, and it never lengthens the text |
| Slug.KeepOnlyChar | script.js:101 | one character survives exactly when it is in [a-z0-9], whitespace or '-' |
| Slug.KeepOnlyAppend | script.js:101 | the filter distributes over concatenation, so every kept character survives and the survivors keep their order |
| Slug.TrimStart | script.js:101 | the result is a suffix of the text, everything cut off is whitespace, and it does not start with whitespace |
| Slug.TrimEnd | script.js:101 | the result is a prefix of the text, everything cut off is whitespace, and it does not end with whitespace |
| Slug.Trim | script.js:101 | the trimmed text neither starts nor ends with whitespace, and it is empty only when the text is all whitespace |
| Slug.Prepared | script.js:101 | before the collapse, the text consists of kept characters with no whitespace at either end |
| Slug.ToLower | script.js:101 | lower-casing never shortens the text, and keeps its length unless it holds U+0130 |
| Slug.ToLowerHasNoCapital | script.js:101 | lower-casing leaves no ASCII capital |
| Slug.SlugOfAlnum | script.js:101 | a name of ASCII letters and digits slugs to its lower case |
| Slug.SlugOfCapitalised | script.js:101 | a capitalised word of slug characters slugs to the same word with a small first letter |
| Slug.SlugOfSlug | script.js:101 | a string of slug characters is its own slug |
| Slug.SlugifyIdempotent | script.js:101 | slugifying a slug changes nothing |
| Slug.SlugDropsGroup | script.js:101 | a word followed by " (…)" slugs to the lower-cased word; the group and the space before it both go |
| Assets.ImagePathFor | script.js:102 | the derived path is "images/", then the slug, then ".png" |
| Assets.StickerFileName | script.js:300 | the sticker file name is "sticker_", then the slug, then ".png" |
| Assets.PortraitUrl | script.js:259 | the URL is never empty; it is the explicit URL if that is non-empty, else the override table's entry for the name, else images/<slug>.png |
| Assets.ResolvedUrlIsStable | script.js:296-298 | passing the already-resolved URL as the explicit one gives that same URL back |
| Assets.ImagePathSameExactlyForSameSlug | script.js:102 | two names share a derived portrait path exactly when they share a slug |
| Assets.ImagePathShape | script.js:102 | a derived path starts with "images/", ends with ".png" and has no '/' or '.' in between |
| Assets.StickerFileNameShape | script.js:300 | a sticker file name is "sticker_" then slug characters then ".png" |
| Assets.StickerFileNameSameExactlyForSameSlug | script.js:300 | two characters' stickers share a file name exactly when their slugs agree |
| Assets.StickerFileNameOfSlug | script.js:300 | naming a sticker after the slug instead of the name gives the same file name |
| CastExamples.SlugOfTabitha | script.js:101 | "Tabitha (Dorcas)" slugs to "tabitha" |
| CastExamples.SlugOfNoah | script.js:101 | "Noah" slugs to "noah" |
| CastExamples.SlugOfPaul | script.js:101 | "Paul" slugs to "paul" |
| CastExamples.SlugOfDavid | script.js:101 | "David" slugs to "david" |
| CastExamples.SlugOfBarnabas | script.js:101 | "Barnabas" slugs to "barnabas" |
| CastExamples.FilesOfPaul | script.js:102 | Paul's derived path is images/paul.png and his sticker is sticker_paul.png |
| CastExamples.FilesOfDavid | script.js:102 | David's derived path is images/david.png and his sticker is sticker_david.png |
| CastExamples.FilesOfBarnabas | script.js:102 | Barnabas's derived path is images/barnabas.png and his sticker is sticker_barnabas.png |
| CastExamples.PaulPortraitIsOverridden | script.js:156 | Paul is shown with images/saul-paul.png, not his derived images/paul.png |
| CastExamples.OverridesAgreeWithSlugPaths | script.js:103-107 | the David and Barnabas overrides equal their derived paths |
| CastExamples.CastStickerNamesDistinct | script.js:300 | the three cast members' stickers never overwrite each other |
| Quiz.FilledAnswers | script.js:138 | `filter(Boolean)` keeps at most as many answers as fields, none of them empty |
| Quiz.FilledAnswersComplete | script.js:138-139 | no answer is dropped exactly when every field is filled, and then the answers are the fields' values in order |
| Quiz.Score | script.js:143 | a score never exceeds the number of answers |
| Quiz.ScoreExtremes | script.js:143 | full marks exactly when every answer is a trait, and zero exactly when none is |
| Quiz.BestMatchUnique | script.js:141-145 | at most one index is the best match: top score, and every earlier character scores strictly less |
| Quiz.BestMatch | script.js:141-145 | the scan returns a match exactly when the cast is non-empty; the match has the top score and beats every earlier character strictly, so ties go to the earliest |
| Quiz.Submit | script.js:136-156 | fewer than three filled answers stops with the request to answer all; otherwise the best match over the cast is shown with its resolved portrait |
| Quiz.DavidForBraveCreativeJoyful | script.js:82-98 | brave, creative and joyful match David |
| Quiz.TieGoesToBarnabas | script.js:144 | when all three characters score one, the strict comparison leaves Barnabas, the first |
| Quiz.CastUsesOverridePortraits | script.js:156 | every cast member has an override entry, and the result card shows it |
| Celebration.Reaction | script.js:73-78 | confetti fires exactly when motion is allowed and the burst code is loaded, with 1200 ms and 150 particles; the sound plays exactly when it exists, motion is allowed and the mute box is not ticked |
| Celebration.Allowed | script.js:71 | a call is let through exactly when at least 3000 ms have passed since the stored time |
| Celebration.Celebrate | script.js:69-79 | a call less than 3000 ms after the last celebration changes nothing and sets off nothing; otherwise the last time becomes now and the effects follow the gates; the stored time moves exactly when the call is let through |
| Celebration.LastAfter | script.js:69-72 | the stored time after a run of calls is Celebrate's stored time folded over them |
| Celebration.Fired | script.js:69-72 | the celebrations of a run of calls are the calls after which Celebrate moved the stored time |
| Celebration.ReducedMotionMeansNoEffects | script.js:73-76 | under reduced motion neither confetti nor sound is set off |
| Celebration.FiredAreSpaced | script.js:71-72 | over any sequence of calls to Celebrate, the celebrations that happen are at least 3000 ms apart and the first is at least 3000 ms after the starting time, and the stored time ends as the last of them |
| Celebration.Celebrator.constructor | script.js:25 | the last celebration time starts at 0 |
| Celebration.Celebrator.CelebrateOnce | script.js:69-79 | the new stored time and the effects are those of Celebrate on the old stored time |
| Capture.Frame | script.js:192 | a reported width or height of 0 falls back to 640 or 480; otherwise the reported size is used |
| Capture.CaptureCrop | script.js:190-194 | no video gives no crop; otherwise the crop is a square whose side is the frame's shorter side, lies inside the frame with equal margins on opposite sides, and touches both edges of the shorter dimension |
| Capture.UnknownSizeCropsDefaultFrame | script.js:192-194 | a video reporting 0 × 0 is cropped to the 480 × 480 square at x = 80 of a 640 × 480 frame |
| Capture.SquareFrameIsTakenWhole | script.js:193-194 | a square frame is taken whole |
| Sticker.IsReady | script.js:257 | an element is used as it is exactly when it is present, complete and has a non-zero natural width |
| Sticker.ChoosePortrait | script.js:256-261 | a complete element with a non-zero natural width is drawn as it is; otherwise the portrait is the load of the resolved URL, and a failed load leaves none |
| Sticker.ReadyElementSkipsLoading | script.js:257 | with a ready element the loader makes no difference |
| Sticker.FitPortrait | script.js:262-265 | an image with a dimension gets a rectangle centred horizontally on cx, with 65% of its height above cy; a 0 × 0 image gets none (`Math.min` is Sticker.Min, whose ensures make it the smaller of the two) |
| Sticker.FitPortraitFills | script.js:263-264 | the fitted portrait keeps the image's aspect ratio, fits within 1.6R on both sides, and reaches 1.6R on at least one |
| Sticker.InsetFitsInBadge | script.js:270-274 | the inset circle lies inside the badge, its square lies on the canvas in both x and y, and the ring width is 3% of R |
| Sticker.Join | script.js:289 | `Array.prototype.join`; its length and where each part and separator stands are the three lemmas below |
| Sticker.JoinLength | script.js:289 | a join is as long as its parts plus one separator between each pair of neighbours |
| Sticker.JoinPartAt | script.js:289 | part k of a join appears whole at its offset |
| Sticker.JoinSeparatorAt | script.js:289 | exactly one separator stands between part k and part k + 1 |
| Sticker.Shown | script.js:289 | the caption shows a prefix of the traits of length min(4, number of traits), and none when the traits are missing |
| Sticker.TraitLine | script.js:289 | with no traits to show the caption is the empty string |
| Sticker.TraitLineShowsTrait | script.js:289 | each of the first four traits appears whole in the caption at its offset, separated by " • " |
| Sticker.PaulCaption | script.js:289 | Paul's caption is his first four traits joined by " • "; "resilient" is cut |
| Sticker.BuildSticker | script.js:237-291 | the plan has the 1024 canvas, the badge clip and ring, the name and caption at their heights, and the inset exactly when a photo is given; the portrait is the fitted chosen image |
| Sticker.FailedLoadStillBuilds | script.js:259-266 | a failed portrait load leaves out only the portrait |
| Sticker.ReadyElementStickerIgnoresLoader | script.js:257 | with a ready element the whole sticker is the same whatever the loader would do |
| Sticker.MatchSticker | script.js:295-307 | the match sticker equals the one built with no explicit URL and shows the match's trait caption; the download path saves it as sticker_<slug>.png |
| Confetti.OrDefault | confetti-lite.js:15-18 | a supplied value, 0 included, is kept; only a missing one takes the default |
| Confetti.Resolve | confetti-lite.js:14-18 | no options give 1100, 120, 0.25 and 1; otherwise each field is defaulted on its own |
| Confetti.ZerosAreHonoured | confetti-lite.js:15-18 | zeros are kept, and an empty options object is the same as none |
| Confetti.ResolveIdempotent | confetti-lite.js:14-18 | resolving already-resolved settings changes nothing |
| Confetti.DevicePixelRatio | confetti-lite.js:30 | the ratio lies in [1, 2]; a missing or 0 ratio gives 1, one inside the range is kept, and one outside is clamped |
| Confetti.BackingSize | confetti-lite.js:32-35 | the backing size is the floor of client size times ratio, hence between the client size and twice it |
| Confetti.SpawnCount | confetti-lite.js:43 | the loop runs the least number of times not below particleCount |
| Confetti.Rand | confetti-lite.js:40 | `rand(min, max)` for a draw u; its range is RandRange |
| Confetti.RandRange | confetti-lite.js:40 | a draw in [0, 1) gives a value in [min, max) |
| Confetti.Size | confetti-lite.js:51-52 | a particle dimension, a draw scaled by scalar and ratio; its range is SizeRange |
| Confetti.SizeRange | confetti-lite.js:51-52 | a scaled draw lies in [min, max) times scalar times ratio |
| Confetti.MakeParticle | confetti-lite.js:44-56 | every particle starts at (width / 2, height · 0.2) |
| Confetti.ParticleSizes | confetti-lite.js:51-52 | with a positive scalar, w lies in [4, 7) and h in [6, 10), times scalar times ratio; with a zero or negative scalar, which the defaulting keeps, both are at most 0 |
| Confetti.ParticleTurns | confetti-lite.js:53-55 | r lies in [0, 2π), spin in [-0.25, 0.25) and hue in [0, 360) |
| Confetti.ParticleLaunch | confetti-lite.js:44-50 | the angle lies in [-π, 0) and the speed in [3, 7); the velocity is cos and sin of the angle times speed times ratio |
| Confetti.Spawn | confetti-lite.js:42-57 | the loop produces exactly SpawnCount particles, particle i built from draws 7i to 7i + 6, all at the launch point |
| Confetti.Step | confetti-lite.js:64-68 | vy gains gravity · ratio, x moves by vx, y moves by the updated vy, and r turns by spin; everything else is kept |
| Confetti.StepAll | confetti-lite.js:63-68 | a frame steps every particle and keeps their number |
| Confetti.StepN | confetti-lite.js:63-68 | n frames for one particle; closed forms in StepNDrift and StepNHeight |
| Confetti.StepNDrift | confetti-lite.js:65-68 | after n frames vy has gained n · g, x has moved n · vx and r has turned n · spin, with vx, size, spin and hue unchanged |
| Confetti.StepNHeight | confetti-lite.js:65-67 | after n frames y has moved n · vy + g · n(n + 1)/2, so even the first frame feels gravity |
| Confetti.StepAllN | confetti-lite.js:63-68 | n frames of the whole burst keep the number of particles |
| Confetti.StepAllNEach | confetti-lite.js:63-68 | n frames of the burst are n steps of each particle on its own |
| Confetti.Divide | confetti-lite.js:61 | division by a non-zero duration is exact; by zero it gives +∞, −∞ or NaN by the sign of the elapsed time |
| Confetti.MinOne | confetti-lite.js:61 | `Math.min(1, x)` is never +∞, a finite result is at most 1, a finite x up to 1 is kept, and only NaN gives NaN |
| Confetti.Progress | confetti-lite.js:61 | progress is never +∞, and a finite progress is at most 1 |
| Confetti.KeepAnimating | confetti-lite.js:76 | another frame is requested when `progress < 1` on JavaScript numbers (Confetti.LessThanOne: true for −∞, false for +∞ and NaN); characterised by KeepAnimatingExactly |
| Confetti.KeepAnimatingExactly | confetti-lite.js:61-77 | another frame is requested exactly when less than the duration has elapsed, with the zero and negative durations spelled out |
| Confetti.Burst.Start | confetti-lite.js:20-38 | a new burst is running, its canvas sized from the client size, listening for resizes, holding exactly the given particles |
| Confetti.Burst.OnWindowResize | confetti-lite.js:32-38 | while the listener is registered a resize re-derives the backing size; after cleanup nothing changes |
| Confetti.Burst.Tick | confetti-lite.js:60-78 | the particle array is stepped in place; the next frame is requested exactly when KeepAnimating holds, and cleanup has run exactly once otherwise |
| Confetti.Burst.Cleanup | confetti-lite.js:80-83 | the listener and canvas are removed and the frame chain ends, once |
| Confetti.FireConfetti | confetti-lite.js:11-86 | under reduced motion there is no burst; otherwise a fresh running burst with resolved settings, clamped ratio, backing size and exactly the spawned particles |

## Left out

- Canvas drawing is not modelled: gradients, `drawImage` pixels, strokes, shadows, fonts and text rendering. The model keeps only the numbers and strings handed to the canvas.
- Storage, browser and I/O plumbing are not modelled. This covers:
  - `localStorage` for the mute and simple-mode settings;
  - audio unlocking;
  - camera streams and the simple-mode gate on the camera;
  - the directory picker and file writing;
  - PNG encoding and the print window.

  The sticker's file name is modelled; the write is not.
- DOM wiring is not modelled: showing and hiding sections, `innerHTML` templates, `alert`, and the reference and why-match texts of each character.
- Quiz.Submit: does not store the match in `window.__lastMatch` or call `celebrateOnce`. The throttle is modelled on its own in `Celebration`.
- The two `prefersReducedMotion()` calls in `celebrateOnce` are one input, because the preference does not change within a call.
- JavaScript numbers are reals, with no IEEE-754 rounding. NaN and non-numeric option values (a string `particleCount`, say) are not modelled. Neither is a NaN or infinite device pixel ratio.
- Confetti.SpawnCount: counts only the loop's iterations for a real `particleCount`; `i < particleCount` against a string is not modelled.
- Confetti particles are values in an array rather than objects shared by reference. Nothing outside the burst holds a particle, so in-place updates are modelled as array updates.
- `customImageMap[name]` lookups of inherited object keys (such as "constructor") are not modelled; the table is a map with exactly its three entries.
- Strings are sequences of code points, not UTF-16 units.
- Slug.ToLower: maps ASCII capitals, plus the two non-ASCII capitals whose lower case holds ASCII letters (U+0130 and U+212A). Every other non-ASCII character is left as it is. Group removal treats it and its real lower case alike, since neither is a parenthesis or a line terminator, and the later `[^a-z0-9\s-]` filter drops both. The non-ASCII whitespace the filter keeps (U+00A0, U+1680, U+2000 to U+200A, U+2028, U+2029, U+202F, U+205F, U+3000, U+FEFF) has no lower case, so leaving it as it is matches `toLowerCase`.
- Slug.StripParens: its own contract states only the length bound. What it removes and what it keeps are stated by StripGroup, StripParensPrefix, StripParensNoClose, UnclosedParenStays and StripParensFromInput.
- Slug.KeepOnly: its own contract states that only kept characters survive. That every kept character survives, in order, is stated by KeepOnlyChar and KeepOnlyAppend.
- The frame chain driven by `requestAnimationFrame` is modelled one frame at a time (Confetti.Burst.Tick), not as a scheduler.
