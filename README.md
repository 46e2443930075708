# Smart site scripts: a Dafny model

This project models the browser-side logic of the SMART Holding Business
Fusion web site in Dafny. It covers six scripts.

- **Smooth-scroll engine** (`custom_scroll.dfy`, module `CustomScroll`).
  - The browser scrolls natively over a body as tall as the content.
  - The engine clamps the native offset into `targetScroll`.
  - One self-rescheduling animation-frame loop, guarded by `isScrolling`, eases `currentScroll` 16% of the way per frame. It snaps when the gap is below 0.3 and stops once the gap is at most 0.3.
  - `scrollTo` starts extra loops with a caller-supplied ease.
  - Also modelled: the thumb geometry, the thumb drag and the resize resync.
- **Link logic** (`main_script.dfy`, module `MainScript`):
  - the `file:` index fallback `resolveHrefForFile`;
  - the click decision of the page-transition handler;
  - the local-file link rewrite;
  - the anchor-scroll fragment extraction and the anchor scroll itself;
  - the product view toggle.
- **Kinetic typography** (`kinetic_typography.dfy`, module `KineticTypography`):
  - phrase escaping and highlighting;
  - the accent class;
  - the section scroll progress and its 0.005 change threshold;
  - the re-entrancy guard and the frame queue;
  - the per-line style maps.
- **Cursor trail** (`cursor.dfy`, module `CursorTrail`):
  - a queue of at most 14 particles, with removal by identity;
  - the 55 ms rate limit;
  - 15% cursor easing;
  - the desktop gate.
- **Loading gate** (`loading.dfy`, module `Loading`):
  - the asset counter with the `assetsLoaded`/`layoutReady` flags and the progress value;
  - the skip test for an already-loaded page;
  - image counting and the callbacks that drive the counter.
  - the script start, which always finds the DOM ready, and the progress reset at the end of `animateLoader`.
- **Event blockers** (`security.dfy`, module `Security`): the keydown, contextmenu, selectstart and dragstart decisions.

`common.dfy` (module `Common`) holds shared helpers: `Option`, real min/max/abs, the sign of a factor, ASCII lower-casing, prefix and suffix tests, and JavaScript's `\s` class.

Modelling conventions:

- Positions, heights and progress values are exact `real`s.
- Animation-frame callbacks and timers are explicit method calls. For example, `ScrollEngine.Step` is one `smoothScrollStep` frame, and `Loader.GsapTick` is one tick of the GSAP poll.
- The DOM values a handler reads are parameters: content, viewport and track heights, `window.innerWidth`, `Date.now()`, and `typeof gsap`.
- What a handler writes is a field or a returned value. For example, `CustomScroll.Frame` is the transform, the thumb and the broadcast scroll value of one frame.

## Model

| member | source | states |
|---|---|---|
| CustomScroll.ClampTarget | js/custom-scroll.js:69 | the target lies in [0, max(0, maxScroll)]; an in-range offset is kept; a negative one becomes 0; one past the end becomes the end; content no taller than the viewport always gives 0 |
| CustomScroll.EaseStepProperties | js/custom-scroll.js:77-81 | for an ease in (0,1], one frame lands between the old offset and the target (no overshoot) and never widens the gap; a gap below 0.3 snaps exactly; a larger gap shrinks to exactly (1-ease) times itself, so it stays at least (1-ease)*0.3 |
| CustomScroll.MeasureDrops | js/custom-scroll.js:77-91 | a non-snapping frame that reschedules lowers a natural-number variant, so the frame loop terminates |
| CustomScroll.Settle | js/custom-scroll.js:76-92 | where an uninterrupted frame loop comes to rest: within 0.3 of the target, between the start and the target, and either exactly at the target or at least (1-ease)*0.3 short of it |
| CustomScroll.RestIsNotExact | js/custom-scroll.js:79-91 | from 0 toward 0.35 the loop stops at 0.056, not at the target: the rest position is not exact |
| CustomScroll.SmallGapSnaps | js/custom-scroll.js:79-80 | a loop started with a gap below 0.3 ends exactly on the target |
| CustomScroll.ScrollProgress | js/custom-scroll.js:60-61 | scroll progress is in [0,1]; within the range it is the offset over the scroll range; 0 before the range and 1 after it; a zero range is divided as 1 |
| CustomScroll.Scrollbar | js/custom-scroll.js:59-65 | thumb height is at least 50; when the track is at least the thumb's height, the thumb's top lies in [0, track - thumb]; its top over its travel is the scroll progress |
| CustomScroll.DragTarget | js/custom-scroll.js:104-110 | the drag request lies in [0, max(0, maxScroll)] and is the `onScroll` clamp of start + delta/(draggable or 1)*maxScroll |
| CustomScroll.DragWholeTrack | js/custom-scroll.js:106-110 | dragging over the whole draggable length from the top reaches the end of the scroll range, and dragging back from the end reaches 0 |
| CustomScroll.ScrollEngine.constructor | js/custom-scroll.js:43-45 | both offsets start at the native `scrollY`; no loop is running and no drag is active |
| CustomScroll.Install | js/custom-scroll.js:12-138 | the engine is installed exactly above the mobile width of 768; then, after the initial setup, no `scrollTo` loop runs and the main loop is started once (one frame queued), aiming at the clamped native offset from the unchanged native offset, with the body height and the scrollbar drawn for that offset |
| CustomScroll.ScrollEngine.Sync | js/custom-scroll.js:136-144 | the initial setup and the `load` handler: the body height is the content height, the thumb is drawn for the eased offset, and `onScroll` leaves exactly one main-loop frame queued aiming at the clamped native offset, scheduling one only when none ran |
| CustomScroll.ScrollEngine.GetScroll | js/custom-scroll.js:148 | `getScroll` returns the eased offset `currentScroll`, not the native one |
| CustomScroll.ScrollEngine.OnScroll | js/custom-scroll.js:68-74 | the target becomes the clamped native offset (0 for short content); a frame is scheduled exactly when no loop was running; afterwards exactly one loop is queued, so repeated calls schedule no second loop |
| CustomScroll.ScrollEngine.Step | js/custom-scroll.js:76-92 | the offset after one frame is the easing step toward the target, between the old offset and the target, with the gap not widened; the frame reschedules exactly when the gap exceeds 0.3, and otherwise clears `isScrolling`; what it renders is the transform, thumb and scroll value of the new offset |
| CustomScroll.ScrollEngine.RunUntilRest | js/custom-scroll.js:76-92 | frames run without events in between stop after at least one frame, with `isScrolling` false, at `Settle` of the starting offset: within 0.3 of the target and without overshoot |
| CustomScroll.ScrollEngine.ScrollTo | js/custom-scroll.js:149-171 | the target is clamped exactly as by `onScroll`; the native position requested is the clamped target; one more loop starts, using the given ease or 0.16 by default; `duration` has no effect and `isScrolling` is untouched |
| CustomScroll.ScrollEngine.ScrollToStep | js/custom-scroll.js:156-168 | one `scrollTo` frame eases with the loop's own ease and never overshoots for an ease in (0,1]; the loop ends exactly when the gap is at most 0.3; `isScrolling` is neither read nor written |
| CustomScroll.ScrollEngine.ScrollToUntilRest | js/custom-scroll.js:156-170 | a `scrollTo` loop whose frames run without events in between ends after at least one frame at `Settle` of the starting offset with its own ease, and only that loop leaves the running set |
| CustomScroll.ScrollEngine.MouseDown | js/custom-scroll.js:98-103 | a drag starts at the pointer's y, from the eased offset, with text selection suppressed |
| CustomScroll.ScrollEngine.MouseMove | js/custom-scroll.js:104-111 | no request outside a drag; during a drag a request in [0, max(0, maxScroll)] equal to the clamped drag mapping |
| CustomScroll.ScrollEngine.MouseUp | js/custom-scroll.js:112-115 | `isDragging` is cleared and text selection restored |
| CustomScroll.ScrollEngine.Resync | js/custom-scroll.js:117-130 | resize sets the body height to the content height and redraws the thumb (height at least 50); target and current offsets are unchanged |
| CustomScroll.Redirect | js/custom-scroll.js:68-92 | two scroll events before the first frame: only the first schedules a loop, and the loop comes to rest within 0.3 of the second event's clamped offset without overshooting it |
| CustomScroll.ScrollToRedirect | js/custom-scroll.js:149-170 | two `scrollTo` calls before the first frame, with the main loop started by the native scroll they raise: the three loops, stepping the same offset in turn every frame, all stop, at a rest within 0.3 of the second call's clamped target and between the start and that target |
| MainScript.ResolveHrefForFile | js/main.js:125-137 | the href is unchanged, or a trailing `/` gets `index.html`, or an extension-less href gets `/index.html`; unchanged off `file:`, for a case-insensitive http/https/mailto/tel/`#` prefix, for a `.html` ending with an optional fragment, and for an href with an extension; a rewritten href is itself an html target |
| MainScript.EndsInHtml | js/main.js:128 | any string ending in `.html` matches the `.html(#...)?$` test, with or without the `i` flag |
| MainScript.EndsInIndexIsHtml | js/main.js:128-135 | a string ending in `index.html` matches the `.html` test |
| MainScript.ResolveIdempotent | js/main.js:125-137 | resolving a resolved href changes nothing |
| MainScript.LocalLinkRewrite | js/main.js:145-175 | the corrected local-file rewrite lets a click through exactly for a special prefix (case-insensitive) or a `.html` target, and otherwise navigates to what `resolveHrefForFile` computes |
| MainScript.LocalLinkAsWritten | js/main.js:145-175 | the rewrite as written lets a click through exactly for a case-sensitive special prefix or a target matching the `.html` pattern with `[^\\s]` after `#`; otherwise it appends `index.html` after a trailing slash, `/index.html` to an extensionless link, and keeps a link with an extension, agreeing with the corrected rewrite wherever both navigate |
| MainScript.NoDotNoMatch | js/main.js:128-133 | without a dot, neither the `.html` test nor the extension test matches |
| MainScript.UpperCaseSchemeRewritten | js/main.js:157 | `TEL:5551234` passes the case-sensitive prefix test and is rewritten to `TEL:5551234/index.html`, while the corrected rewrite and `resolveHrefForFile` leave it alone |
| MainScript.UpperCaseHtmlRewritten | js/main.js:160 | `X.HTML#a/b` fails the `.html` test without the `i` flag and is rewritten to `X.HTML#a/b/index.html`, while the corrected rewrite and `resolveHrefForFile` leave it alone |
| MainScript.FragmentWithLetterSRewritten | js/main.js:160 | `about.html#s/1` fails `[^\\s]` and is rewritten to `about.html#s/1/index.html`, while the corrected rewrite and `resolveHrefForFile` leave it alone |
| MainScript.LocalFileClick | js/main.js:145-175 | the local-file handler navigates exactly when the page is on `file:`, the click is unprevented, there is a link with a non-empty href, and the corrected rewrite does not let the href through; it then navigates to `resolveHrefForFile` of the href |
| MainScript.PathPart | js/main.js:100 | `href.split('#')[0]` holds no `#`, is a prefix of the href, and is the whole href when there is no `#`; otherwise the href's next character is that first `#` |
| MainScript.HashPart | js/main.js:100 | `href.split('#')[1]` is absent exactly when the href has no `#`; otherwise it starts right after the first `#`, holds no `#`, and runs up to the end or the next `#` |
| MainScript.PathPartNonEmpty | js/main.js:94-101 | an href that is non-empty and not `#`-prefixed has a non-empty path part, so the hash-only test at line 101 never fires |
| MainScript.ReplaceTrailingSlash | js/main.js:107-110 | `.replace(/\/$/, '/')` leaves every path unchanged |
| MainScript.NormalizePath | js/main.js:107-110 | normalisation yields a prefix of the path; it removes exactly a trailing case-insensitive `index.html`, which is removed when and only when present |
| MainScript.TransitionClick | js/main.js:83-113 | the click becomes a transition exactly when all hold: there is a link; the click is not prevented; the href is non-empty; the target is not `_blank`; the href is not mailto/tel and not `#`-prefixed; an absolute link is same-origin; the normalised paths differ or the hash part is non-empty. The destination is `resolveHrefForFile` of the href |
| MainScript.AnchorTargetId | js/main.js:260-265 | an element id is produced exactly for a non-empty href that does not start with `http`, `mailto:` or `tel:` and contains `#`; the id is what follows the first `#` |
| MainScript.ScrollToElement | js/main.js:269-275 | with the engine present, `scrollTo` is called with the eased offset plus the element's top and ease 0.12, so the engine's target is that sum clamped and one loop of ease 0.12 is added; its offsets, main loop and drag state are unchanged; without it, a native smooth scroll to the sum is requested |
| MainScript.SmoothAnchorClick | js/main.js:259-277 | the click is prevented exactly when the href names an element of the page; otherwise nothing scrolls and the engine's target and loops are unchanged; when prevented, the engine's target is the clamped element position and one loop of ease 0.12 is added, or without the engine a native smooth scroll to the element is requested; the eased offset, main loop and drag state never change |
| MainScript.CountActiveOne | js/main.js:354-358 | a button list whose only active entry is entry i counts one active button |
| MainScript.CountNone | js/main.js:355-357 | a list with no active entry counts none |
| MainScript.ViewToggle.constructor | js/main.js:345-350 | handlers exist only with at least one button; the buttons keep the active flags of the markup, and the container its class |
| MainScript.ViewToggle.Click | js/main.js:351-362 | after a click, exactly the clicked button is active (exactly one in all); the container class is `products-` followed by `data-view`, or by `null` when the attribute is missing |
| KineticTypography.EscapeConcat | js/kinetic-typography.js:36 | escaping distributes over concatenation: it works one character at a time |
| KineticTypography.EscapeChar | js/kinetic-typography.js:36 | each metacharacter `- / \ ^ $ * + ? . ( ) \| [ ] { }` gets a backslash before it; every other character is kept as it is |
| KineticTypography.EscapeIsLiteral | js/kinetic-typography.js:36 | read as a regular-expression source, the escaped phrase is the literal phrase itself |
| KineticTypography.EscapeInjective | js/kinetic-typography.js:36 | different phrases give different patterns |
| KineticTypography.ClassFor | js/kinetic-typography.js:29-37 | the class is `kt-em kt-em-accent` exactly when the lower-cased phrase is an accent term, and `kt-em` otherwise |
| KineticTypography.Segment | js/kinetic-typography.js:36-38 | the pieces of a `gi` literal pattern's matches put back together give the text, without losing or adding characters; every match equals the phrase up to case |
| KineticTypography.SegmentScans | js/kinetic-typography.js:36-38 | for a non-empty phrase the segmentation is a left-to-right scan: each match is taken whole from where it starts, and a character is left plain only where no match starts |
| KineticTypography.ScannedUnique | js/kinetic-typography.js:36-38 | any such scan is the segmentation, so a split that takes only the first match, or leaves a match plain, is not one |
| KineticTypography.SegmentEmptyPhrase | js/kinetic-typography.js:36-38 | an empty phrase matches at every position: the characters stay plain, with an empty match before each of them and one at the end |
| KineticTypography.SegmentFindsOccurrence | js/kinetic-typography.js:38 | a non-empty phrase is wrapped somewhere exactly when it occurs in the text, up to case |
| KineticTypography.RenderPlain | js/kinetic-typography.js:38 | with no match, the replacement is the text itself |
| KineticTypography.NoOccurrenceUnchanged | js/kinetic-typography.js:38 | a line in which a non-empty phrase does not occur comes back unchanged |
| KineticTypography.HighlightUntouched | js/kinetic-typography.js:33-41 | phrases that do not occur in the line, and an empty phrase list in particular, leave the line unchanged |
| KineticTypography.ThirdLineUnchanged | js/kinetic-typography.js:16-27 | the third intro line, with its empty emphasis list, is rendered unchanged |
| KineticTypography.HighlightPhrases | js/kinetic-typography.js:33-41 | the accumulating loop applies each phrase, with its class, to the result of the ones before it |
| KineticTypography.HeightOrDefault | js/kinetic-typography.js:63 | the section height is positive: `offsetHeight`, or 2000 when that is 0 |
| KineticTypography.Progress | js/kinetic-typography.js:92-104 | progress is in [0,1]; it is 0 before the section start and 1 past the section end; in between, progress times (end - start) is the distance from the start |
| KineticTypography.ProgressMonotone | js/kinetic-typography.js:92-104 | scrolling further never lowers the progress |
| KineticTypography.LineT | js/kinetic-typography.js:120-123 | the proximity t is in [0,1]: 1 - dist when the line is within one line of the centre, and 0 otherwise |
| KineticTypography.SingleDominantLine | js/kinetic-typography.js:119-123 | at most one line has proximity above one half |
| KineticTypography.LitLinesAdjacent | js/kinetic-typography.js:119-123 | any two lines with positive proximity are the same line or neighbours |
| KineticTypography.Round | js/kinetic-typography.js:128 | `Math.round` lands within one half of its argument, with halves rounded up |
| KineticTypography.StyleFor | js/kinetic-typography.js:125-128 | for a weight in [0,1]: opacity is in [0.25,1], y in [0,26], scale in [0.985,1.035] and font weight in [400,700]; the endpoints map to (0.25, 26, 0.985, 400) and (1, 0, 1.035, 700) |
| KineticTypography.StyleMonotone | js/kinetic-typography.js:125-128 | a heavier weight never gives less opacity, more offset, less scale or a lighter font |
| KineticTypography.FrameStyles | js/kinetic-typography.js:120-137 | one style per line: the style of the bell weight of that line's proximity |
| KineticTypography.ScrollAnimator.constructor | js/kinetic-typography.js:62-80 | the section geometry is cached with the height default; `lastProgress` is -1 and nothing is animating or queued |
| KineticTypography.ScrollAnimator.AnimateOnScroll | js/kinetic-typography.js:82-118 | a call while animating changes nothing. Otherwise a frame is queued exactly when the progress moved by 0.005 or more; then `lastProgress` becomes the progress. Without that move, `lastProgress` is kept and `isAnimating` is reset. The first call always schedules |
| KineticTypography.ScrollAnimator.RunFrame | js/kinetic-typography.js:118-150 | the queued frame writes the styles of every line at the captured progress and clears the frame and the guard |
| KineticTypography.ScrollAnimator.HandleScroll | js/kinetic-typography.js:155-157 | the 16 ms timeout is armed exactly when none is pending |
| KineticTypography.ScrollAnimator.TimeoutFires | js/kinetic-typography.js:157-160 | the timeout disarms itself and has exactly `animateOnScroll`'s effect: during an animation nothing changes; otherwise a frame is queued, at the new progress which becomes the last one, exactly when the progress moved by the threshold, and else the animation flag is dropped and the last progress kept |
| KineticTypography.SmallMoveIgnored | js/kinetic-typography.js:107-111 | after a significant move, a second position less than 0.005 further in progress is dropped and `lastProgress` stays at the first |
| CursorTrail.DisplayFor | js/cursor.js:152-158 | on resize, display is `none` exactly at widths up to 768, and `block` otherwise |
| CursorTrail.ParticleClass | js/cursor.js:93 | `cursor-spark` exactly on kids pages, `cursor-triangle` otherwise |
| CursorTrail.Without | js/cursor.js:113 | the filter keeps exactly the particles with another identity |
| CursorTrail.WithoutPosition | js/cursor.js:113 | each kept particle appears after the kept particles before it, so the filter keeps the relative order |
| CursorTrail.KeptBeforeShift | js/cursor.js:113 | counting kept entries up to a position splits into the head and the tail |
| CursorTrail.KeptBeforeMonotone | js/cursor.js:113 | a kept entry increases the count of kept entries |
| CursorTrail.WithoutAbsent | js/cursor.js:109-113 | filtering a particle that already left the trail changes nothing |
| CursorTrail.WithoutSpaced | js/cursor.js:113 | the filter keeps the trail in creation order and 55 ms apart |
| CursorTrail.SpacedTail | js/cursor.js:101-102 | dropping the oldest particle keeps the trail ordered and spaced |
| CursorTrail.SpacedCons | js/cursor.js:113 | a particle older and 55 ms earlier than a spaced trail may stand at its front |
| CursorTrail.SpacedSnoc | js/cursor.js:97-98 | a particle newer and 55 ms later than every other may join at the back |
| CursorTrail.PushSpaced | js/cursor.js:97-105 | pushing a particle newer and 55 ms later than every other, then shifting past 14, keeps the trail spaced and within 14, with the new particle the newest |
| CursorTrail.PushIds | js/cursor.js:97-105 | the push attaches the new particle's element and, when the trail was full, detaches exactly the oldest one |
| CursorTrail.IdsAppend | js/cursor.js:97-98 | pushing a particle attaches its element |
| CursorTrail.IdsWithout | js/cursor.js:110-113 | filtering a particle out detaches exactly its element |
| CursorTrail.IdsAbsent | js/cursor.js:102-104 | a particle not in the trail has no element of the trail |
| CursorTrail.Ease | js/cursor.js:121-122 | an easing step lands between the cursor and the mouse, with the gap now 0.85 of what it was; it reaches the mouse only when already there |
| CursorTrail.Cursor.constructor | js/cursor.js:8-17 | positions start at 0, the trail is empty, `lastTime` is 0 |
| CursorTrail.Cursor.CreateTrailParticle | js/cursor.js:91-115 | the new particle, with the page's class and the next identity, goes to the back; when the length passes 14 the oldest is dropped from the front; so the length grows by one up to 14 and stays at 14. Order, 55 ms spacing and the attached elements are kept |
| CursorTrail.Cursor.HandleMouseMove | js/cursor.js:68-77 | the mouse position is always recorded; a particle at the mouse position is created exactly when at least 55 ms have passed since the last one; it joins the back of the trail, dropping the oldest past 14, with the next identity, and `lastTime` moves to now; otherwise trail, identities and `lastTime` are unchanged |
| CursorTrail.Cursor.RemoveParticle | js/cursor.js:109-114 | the timed removal leaves the filtered trail and detaches the particle's element |
| CursorTrail.Cursor.AnimateCursor | js/cursor.js:117-122 | each axis moves by the easing step toward the mouse |
| CursorTrail.Cursor.Resize | js/cursor.js:149-160 | display is updated from the width |
| CursorTrail.InitCursor | js/cursor.js:20-31 | the cursor goes live exactly above the mobile width of 768 with both elements present, with an empty trail, the page's kind and no inline display, which only a resize sets |
| Loading.AllImagesReady | js/loading.js:28 | true exactly when every image is complete with a non-zero natural height |
| Loading.AlreadyLoaded | js/loading.js:18-32 | the conjunction of gsap, THREE, DOM ready, fonts (true without the API) and all images ready; with no images the image condition drops out |
| Loading.ImageProgress | js/loading.js:158-162 | image progress is in (30, 80] once an image is counted; it is 80 at the total and 30 at none |
| Loading.ImageProgressIncreases | js/loading.js:157-162 | every further image strictly raises the image progress |
| Loading.CountReady | js/loading.js:155-158 | the synchronously counted images among the first n number at most n |
| Loading.CountReadyAll | js/loading.js:155-158 | the first n images are all counted exactly when every one of them is ready |
| Loading.Unready | js/loading.js:159-170 | the images given handlers are among the first n |
| Loading.UnreadyMembers | js/loading.js:159-170 | among the first n images, an image is given handlers exactly when it is not ready |
| Loading.UnreadyCount | js/loading.js:155-172 | every image is either counted or waited for |
| Loading.Loader.constructor | js/loading.js:8-12 | flags false, progress 0, counters 0 |
| Loading.Loader.UpdateProgress | js/loading.js:34-39 | the progress is overwritten, not maxed |
| Loading.Loader.CheckReady | js/loading.js:41-51 | only when `assetsLoaded` and `layoutReady` both hold: the progress becomes 100 and one hide is scheduled; otherwise nothing changes |
| Loading.Loader.CheckAssetLoaded | js/loading.js:71-84 | the counter grows by exactly one; `assetsLoaded` becomes true when count >= total or (gsap and layoutReady), and is never reset; the progress is the argument, or 100 with one hide queued when the page is also laid out |
| Loading.Loader.InitLoading | js/loading.js:86-178 | the loader is skipped exactly when the page is already loaded: then the loader is removed if present, the body is marked loaded, and nothing else changes, so nothing is counted, hidden, armed or looked at. Otherwise the loading starts: the counter holds the immediate reports, `assetsLoaded` is set and two hides (three with ready images) are queued exactly when DOM and GSAP are both ready, the progress is that of the last immediate report, and the loader is neither hidden nor removed |
| Loading.Loader.StartLoading | js/loading.js:101-177 | 3 assets are expected, and the DOM and GSAP are reported at once when ready, or else their callbacks are armed. Images are reported at once when all are ready, so the counter equals the reports made; the counted and waiting images are those of the page; `assetsLoaded` and the queued hides follow from DOM and GSAP both being ready, and the progress is the last immediate report's; the loader's `hidden` class, its removal and the body's `loaded` class are untouched |
| Loading.Loader.ArmCallbacks | js/loading.js:101-145 | 3 assets are expected; the DOM and GSAP count at once when ready and arm their callbacks otherwise; with both ready `assetsLoaded` is set and two hides are queued; the progress is the GSAP report's, or the DOM report's, or unchanged; the fonts callback is armed; images are not yet looked at |
| Loading.Loader.StartDom | js/loading.js:104-112 | a ready DOM is reported at once with progress 30 and the layout marked ready, which dismisses the loader when GSAP is defined; otherwise the `DOMContentLoaded` callback is armed and nothing is reported or hidden (a branch `Loading.Boot` shows the script never takes) |
| Loading.Loader.StartGsap | js/loading.js:115-132 | a defined GSAP is reported at once with progress 60 (dismissing the loader once the layout is ready); otherwise the 50 ms poll and the 5-second fallback are armed and nothing is reported |
| Loading.Loader.InitImages | js/loading.js:148-177 | no images report `images` at once; otherwise ready images are counted, the rest wait, and `images` is reported now exactly when all were ready; without that report the progress is the image progress of the counted images, or unchanged when none is counted |
| Loading.Loader.CountImages | js/loading.js:155-172 | the loop counts the ready images, leaves exactly the others pending, so count and pending add up to the images, all are counted exactly when all are ready, and the progress is the image progress of the count |
| Loading.Loader.ImageSettled | js/loading.js:160-168 | a settling image is counted once and moves the progress; `images` is reported exactly when it brings the count to the total, so it is reported once |
| Loading.Loader.DomContentLoaded | js/loading.js:104-108 | DOM readiness sets `layoutReady` and reports the DOM; with gsap defined that dismisses the loader. This listener is never registered by the script as it stands (see `Loading.Boot`); the member states what the code would do |
| Loading.Loader.GsapTick | js/loading.js:116-121 | the poll stops and reports GSAP exactly when GSAP is defined; while GSAP is undefined the tick leaves the counter, the progress and the hides unchanged |
| Loading.Loader.GsapTimeout | js/loading.js:124-129 | the fallback stops the poll and reports GSAP if defined, whether or not the poll did; with GSAP undefined it leaves the counter, the progress and the hides unchanged |
| Loading.Loader.FontsSettled | js/loading.js:135-145 | fonts are reported once, whether the fonts promise resolves or rejects, or the 100 ms fallback runs |
| Loading.Loader.HideLoader | js/loading.js:53-56 | the loader, when there is one, gets the `hidden` class |
| Loading.Loader.AfterHide | js/loading.js:59-68 | after the 800 ms delay the loader is removed and the body marked loaded |
| Loading.Loader.FallbackTimeout | js/loading.js:229-234 | the 5 s fallback forces a hide exactly when a loader exists and is not hidden |
| Loading.GsapCountedTwice | js/loading.js:116-129 | a late GSAP found by both the poll and the fallback is counted twice |
| Loading.Boot | js/loading.js:218-226 | the script start: `initLoading` runs at once or from `DOMContentLoaded`, so it always finds the DOM ready. Then the loader is skipped exactly when the rest of the page is already loaded; otherwise the layout is ready, no `DOMContentLoaded` listener is left pending, the DOM is counted, and `assetsLoaded` and the two or three hides come exactly with GSAP |
| Loading.Loader.AnimateLoader | js/loading.js:213-214 | `animateLoader` ends by setting the progress back to 0, whatever the reports set |
| Loading.SkippedPageStillForced | js/loading.js:88-97 | on an already-loaded page the loader is skipped and removed, yet the 5 s fallback still finds it without the `hidden` class and forces a hide |
| Loading.LateGsapDismisses | js/loading.js:76-83 | with GSAP late and images still loading, the poll tick that finds GSAP is the second report and dismisses the loader, with fonts and images outstanding |
| Loading.CountDismissesWithoutGsap | js/loading.js:76-83 | with no GSAP and all images ready, the fonts report is the third and dismisses the loader by the count alone |
| Loading.ProgressResetBeforeHide | js/loading.js:218-226 | on a ready page with GSAP but no `THREE`, the progress reaches 100 with hides queued, and `animateLoader` then resets it to 0 before the first hide |
| Loading.ReadyPageDismissedAtStart | js/loading.js:86-112 | a page with a ready DOM and GSAP but without `THREE` is not skipped, yet the immediate reports set `assetsLoaded` and queue at least two hides |
| Security.Keydown | js/security.js:15-45 | the key is prevented exactly for F12 (any modifiers), Ctrl+Shift+I/J, and Ctrl+U/S (with or without Shift); no key without Ctrl other than F12 is prevented, and I/J without Shift are not |
| Security.ContextMenu | js/security.js:9-12 | every context menu is prevented |
| Security.SelectStart | js/security.js:48-55 | selection is allowed exactly in INPUT and TEXTAREA targets |
| Security.DragStart | js/security.js:58-65 | dragging is allowed exactly from an INPUT of type `file`, which also allows selection |
| Common.LowerStr | js/kinetic-typography.js:37 | ASCII lower-casing keeps the length and works character by character |
| Common.LowerOfLower | js/main.js:127 | lower-casing is idempotent |
| Common.IndexOf | js/main.js:262 | `indexOf` is absent exactly when the character is absent, and otherwise the first position holding it |

Proof steps without a row of their own:
- the lemmas behind `MainScript.FragmentWithLetterSRewritten` and `MainScript.UpperCaseHtmlRewritten`, which split each link at its dot, settle the three tests on the part from the dot on, and carry the outcome over the dot-free part before it: `OnlyCorrectedHtml`, `TakenForFolder`, `FragmentPrefix`, `FragmentSplit`, `FragmentAtDot`, `FragmentTails`, `UpperCasePrefix`, `UpperCaseSplit`, `UpperCaseHtmlAtDot`, `UpperCaseTail`, `NoDotSplit`, `PrefixNotDot`;
- `MainScript.UpperCaseScheme`, the facts about `TEL:5551234` behind `MainScript.UpperCaseSchemeRewritten`;
- `KineticTypography.SegmentPlainStep` and `KineticTypography.SegmentMatchStep`, one step of `Segment` each, used by `KineticTypography.ScannedUnique`;
- `Loading.Loader.Armed`, the state the DOM, GSAP and font parts of `initLoading` leave, shared by `ArmCallbacks`, `StartLoading` and `InitLoading`;
- arithmetic steps: `CustomScroll.ScaleAtMostOne`, `CustomScroll.ScaledFraction`, `CustomScroll.QuotientFacts`, `Loading.FractionBounds`, `KineticTypography.FloorMonotone`, `KineticTypography.ProgressFraction`, `Common.ProductSign`;
- the frame bookkeeping of `CustomScroll.ScrollToRedirect`: `RedirectInv`, `FrameFacts`, `ThreeFrameFacts`, `ScrollToCallback`, `MainCallback`.

## Left out

- DOM writes are not modelled: styles, `classList`, `innerHTML`, `sessionStorage`, `location.assign`, and the `customscroll` event dispatch. Each handler's outputs are fields or returned values instead.
- Animation frames, `setTimeout` and `setInterval` are not modelled. Each callback is a method the environment calls, so the timing and interleaving of the engine's loops are not modelled beyond the state each step observes.
- Arithmetic is exact real arithmetic, not IEEE-754 floating point.
- Case-insensitive regular-expression matching is ASCII lower-case comparison. Replacement is left-to-right, non-overlapping substitution.
- The page-transition overlay choreography (js/main.js:26-81) and the session-storage flag are not modelled.
- Also not modelled in js/main.js: the mobile navigation toggle (js/main.js:211-241), the footer year (js/main.js:246-251), scroll restoration (js/main.js:185-190) and the Home-button flag (js/main.js:195-206). They are DOM glue with no decision of their own.
- The loader's GSAP and timer entrance animations (js/loading.js:181-212) are not modelled; the `updateProgress(0)` that ends `animateLoader` (js/loading.js:214) is `Loading.Loader.AnimateLoader`.
- The cursor's hover/active classes, its opacity on mouse enter and leave, and its rotation angle (js/cursor.js:33-63, 79-89, 127-135) are left out: class toggles and trigonometry into styles.
- The periodic `Math.random() < 0.1` refresh of the cached section geometry (js/kinetic-typography.js:87-90) is left out. The cached values are the constructor's.
- The emphasis colour, weight and scale set on every `.kt-em` per frame (js/kinetic-typography.js:140-147) are constants handed to GSAP and are not modelled.
- js/3d-background.js, js/scroll-animations.js and js/premium-animations.js are not part of this model. They are scene rendering and animation-library configuration.
- KineticTypography.FrameStyles: the bell curve `0.5 * (1 - cos(pi * t))` is a parameter `bell`. `StyleFor` states its ranges for any weight in [0,1].
- KineticTypography.Progress: requires a positive section height and a non-negative viewport height. `HeightOrDefault` guarantees the first, and `window.innerHeight` is never negative.
- CustomScroll.Scrollbar: requires a positive content height. The container has `min-height: 100vh`.
- CustomScroll.ScrollEngine.ScrollToStep: the no-overshoot clause holds only for an ease in (0,1]. The site passes 0.12, and the default is 0.16.
- CustomScroll.ScrollToRedirect: the two native position requests raise one `scroll` event, delivered before the first frame, and the three callbacks run in the order they were requested in every frame. Other orders and event timings are not covered.
- CustomScroll.ScrollEngine.ScrollTo: the native `scroll` event that `window.scrollTo` triggers is a separate `OnScroll` call. It computes the same clamped target.
- MainScript.TransitionClick: the browser's resolution of a link to a pathname is a parameter `pathnameOf`.
- MainScript.TransitionClick: the origin check compares the link's `origin` field with the page's.
- MainScript.LocalFileClick: it is built on the corrected rewrite (see Findings). `LocalLinkAsWritten` keeps the code as written.
- CursorTrail.Cursor.CreateTrailParticle: requires that 55 ms have passed since the last particle, which is the only way `handleMouseMove` calls it.
- CursorTrail.Cursor.CreateTrailParticle: the particle's timestamp is the `now` of the mouse move, not a second `Date.now()` read.
- Loading.Loader.InitLoading: the fonts callback is always armed. The model does not separate the fonts promise from the 100 ms timer.
- Three behaviours of the code are modelled as written, although a reader might expect otherwise:
  - the frame loop does not always rest exactly on the target (`CustomScroll.RestIsNotExact`);
  - `scrollTo`'s `duration` is ignored;
  - the `scrollTo` loops run independently of the `isScrolling` guard.

## Findings

| source | as written | input that shows it | evidently intended | confidence | as-written member | corrected member |
|---|---|---|---|---|---|---|
| js/main.js:157 | `/^(https?:\|mailto:\|tel:\|#)/` has no `i` flag, unlike the same test in `resolveHrefForFile` at line 127 | `TEL:5551234` is rewritten to `TEL:5551234/index.html` on every `file:` page: the transition handler, which runs first, lets a `tel:` link through in any case | upper-case schemes are let through, as `resolveHrefForFile` does | medium, not executed | MainScript.UpperCaseSchemeRewritten | MainScript.LocalLinkRewrite |
| js/main.js:160 | `/\.html(#[^\\s]*)?$/` excludes a backslash and the letter `s` after `#`, not white space | `about.html#s/1` is rewritten to `about.html#s/1/index.html` on a `file:` page without `#triangle-transition`, or for a `target="_blank"` link; elsewhere the transition handler, which runs first, prevents the click (the link has a `#`) | any fragment without white space after `.html` is let through, as at line 128 | medium, not executed | MainScript.FragmentWithLetterSRewritten | MainScript.LocalLinkRewrite |
| js/main.js:160 | `/\.html(#[^\\s]*)?$/` has no `i` flag, unlike the same test at line 128 | `X.HTML#a/b` is rewritten to `X.HTML#a/b/index.html` on a `file:` page without `#triangle-transition`, or for a `target="_blank"` link; elsewhere the transition handler, which runs first, prevents the click | an upper-case `.HTML` link is let through, as `resolveHrefForFile` does | medium, not executed | MainScript.UpperCaseHtmlRewritten | MainScript.LocalLinkRewrite |
