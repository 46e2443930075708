/** Link and navigation logic of js/main.js: the `file:` index fallback, the
    decision to run the page-transition overlay on a click, anchor scrolling
    through the smooth-scroll engine, and the product view toggle. */
module MainScript {
  import opened Common
  import CustomScroll

  const INDEX_HTML: string := "index.html"

  /** `/^(https?:|mailto:|tel:|#)/i` */
  predicate SpecialPrefixCI(href: string) {
    StartsWithCI(href, "http:") || StartsWithCI(href, "https:") || StartsWithCI(href, "mailto:")
    || StartsWithCI(href, "tel:") || StartsWith(href, "#")
  }

  /** `/^(https?:|mailto:|tel:|#)/`, the same pattern without the `i` flag. */
  predicate SpecialPrefix(href: string) {
    StartsWith(href, "http:") || StartsWith(href, "https:") || StartsWith(href, "mailto:")
    || StartsWith(href, "tel:") || StartsWith(href, "#")
  }

  /** The character class after `#` in `/\.html(#[^…]*)?$/`: `[^\s]` excludes
      white space; the `[^\\s]` of a regular-expression literal excludes a
      backslash and the letter `s`. */
  predicate ExcludedAfterHash(c: char, backslashS: bool) {
    if backslashS then c == '\\' || c == 's' else IsJsSpace(c)
  }

  /** `.html` at the front of `s`, in any case with `ignoreCase`. */
  predicate HtmlAt(s: string, ignoreCase: bool)
    requires 5 <= |s|
  {
    if ignoreCase then LowerStr(s[..5]) == ".html" else s[..5] == ".html"
  }

  /** `(#[^…]*)?$`: nothing, or a `#` and then no excluded character. */
  predicate FragmentTail(t: string, backslashS: bool) {
    t == [] || (t[0] == '#' && NoneExcluded(t[1..], backslashS))
  }

  predicate NoneExcluded(t: string, backslashS: bool) {
    t == [] || (!ExcludedAfterHash(t[0], backslashS) && NoneExcluded(t[1..], backslashS))
  }

  /** `/\.html(#[^\s]*)?$/` searched anywhere in `s` (with `ignoreCase` the `i`
      flag, with `backslashS` the class `[^\\s]`). */
  predicate HtmlTarget(s: string, ignoreCase: bool, backslashS: bool) {
    5 <= |s| && ((HtmlAt(s, ignoreCase) && FragmentTail(s[5..], backslashS)) || HtmlTarget(s[1..], ignoreCase, backslashS))
  }

  /** `/\.[^\/]+$/`: a dot followed, up to the end, by at least one character
      and no slash. */
  predicate HasExtension(s: string) {
    2 <= |s| && ((s[0] == '.' && '/' !in s[1..]) || HasExtension(s[1..]))
  }

  /** Whatever precedes it, a string ending in `.html` is an html target. */
  lemma {:induction false} EndsInHtml(prefix: string, s: string)
    requires s == prefix + ".html"
    ensures HtmlTarget(s, true, false) && HtmlTarget(s, false, false)
  {
    if prefix == [] {
      assert s[..5] == ".html" && s[5..] == [];
      assert LowerStr(".html") == ".html";
    } else {
      EndsInHtml(prefix[1..], s[1..]);
    }
  }

  lemma EndsInIndexIsHtml(s: string)
    requires EndsWith(s, INDEX_HTML)
    ensures HtmlTarget(s, true, false)
  {
    assert s == s[..|s| - 5] + ".html";
    EndsInHtml(s[..|s| - 5], s);
  }

  /** `resolveHrefForFile`: on a `file:` page, folder-style links get an
      `index.html`; everything else is returned as it is. */
  function ResolveHrefForFile(protocol: string, href: string): (r: string)
    ensures r == href || (EndsWith(href, "/") && r == href + INDEX_HTML)
                      || (!EndsWith(href, "/") && !HasExtension(href) && r == href + "/" + INDEX_HTML)
    ensures protocol != "file:" ==> r == href
    ensures SpecialPrefixCI(href) ==> r == href
    ensures HtmlTarget(href, true, false) ==> r == href
    ensures HasExtension(href) && !EndsWith(href, "/") ==> r == href
    ensures protocol == "file:" && !SpecialPrefixCI(href) && (EndsWith(href, "/") || !HasExtension(href))
            ==> HtmlTarget(r, true, false)
  {
    if protocol != "file:" then href
    else if SpecialPrefixCI(href) then href
    else if HtmlTarget(href, true, false) then href
    else if EndsWith(href, "/") then
      EndsInIndexIsHtml(href + INDEX_HTML);
      href + INDEX_HTML
    else if !HasExtension(href) then
      EndsInIndexIsHtml(href + "/" + INDEX_HTML);
      href + "/" + INDEX_HTML
    else href
  }

  /** Resolving a resolved link changes nothing. */
  lemma ResolveIdempotent(protocol: string, href: string)
    ensures ResolveHrefForFile(protocol, ResolveHrefForFile(protocol, href)) == ResolveHrefForFile(protocol, href)
  {
    var r := ResolveHrefForFile(protocol, href);
    if r != href {
      assert EndsWith(r, INDEX_HTML) by {
        if EndsWith(href, "/") {
          assert r == href + INDEX_HTML;
        } else {
          assert r == href + "/" + INDEX_HTML;
        }
      }
      EndsInIndexIsHtml(r);
    }
  }

  /** The rewrite inside the click handler of `initLocalFileLinks` exactly as
      written: no `i` flag on the prefix test or the `.html` test, and `[^\\s]` after the `#`.
      `None` lets the click through; `Some(t)` prevents it and assigns `t`. */
  function LocalLinkAsWritten(href: string): (r: Option<string>)
    ensures r.None? <==> SpecialPrefix(href) || HtmlTarget(href, false, true)
    ensures r.Some? && EndsWith(href, "/") ==> r.value == href + INDEX_HTML
    ensures r.Some? && !EndsWith(href, "/") && !HasExtension(href) ==> r.value == href + "/" + INDEX_HTML
    ensures r.Some? && !EndsWith(href, "/") && HasExtension(href) ==> r.value == href
    ensures r.Some? && LocalLinkRewrite(href).Some? ==> r == LocalLinkRewrite(href)
  {
    if SpecialPrefix(href) then None
    else if HtmlTarget(href, false, true) then None
    else if EndsWith(href, "/") then Some(href + INDEX_HTML)
    else if !HasExtension(href) then Some(href + "/" + INDEX_HTML)
    else Some(href)
  }

  /** The same rewrite with the tests of `resolveHrefForFile`, which it
      evidently duplicates: it lets through exactly the links that function
      leaves alone for their prefix or their `.html` ending, and navigates to
      what that function computes. */
  function LocalLinkRewrite(href: string): (r: Option<string>)
    ensures r.None? <==> SpecialPrefixCI(href) || HtmlTarget(href, true, false)
    ensures r.Some? ==> r.value == ResolveHrefForFile("file:", href)
  {
    if SpecialPrefixCI(href) then None
    else if HtmlTarget(href, true, false) then None
    else if EndsWith(href, "/") then Some(href + INDEX_HTML)
    else if !HasExtension(href) then Some(href + "/" + INDEX_HTML)
    else Some(href)
  }

  /** Both `.html` and an extension need a dot. */
  lemma {:induction false} NoDotNoMatch(s: string, ignoreCase: bool, backslashS: bool)
    requires '.' !in s
    ensures !HtmlTarget(s, ignoreCase, backslashS) && !HasExtension(s)
  {
    if |s| >= 2 {
      NoDotNoMatch(s[1..], ignoreCase, backslashS);
      if |s| >= 5 {
        assert s[..5][0] == s[0] && Lower(s[0]) != '.';
        assert LowerStr(s[..5])[0] == Lower(s[0]);
      }
    }
  }

  /** An upper-case scheme slips past the case-sensitive prefix test, and a
      `tel:` link gets a folder index appended. */
  lemma UpperCaseSchemeRewritten(h: string)
    requires h == "TEL:5551234"
    ensures LocalLinkAsWritten(h) == Some(h + "/" + INDEX_HTML)
    ensures LocalLinkRewrite(h) == None
    ensures ResolveHrefForFile("file:", h) == h
  {
    UpperCaseScheme(h);
    NoDotNoMatch(h, false, true);
  }

  /** `TEL:5551234` has the `tel:` scheme up to case but not in lower case,
      and neither a dot nor a trailing slash. */
  lemma UpperCaseScheme(h: string)
    requires h == "TEL:5551234"
    ensures StartsWithCI(h, "tel:") && !SpecialPrefix(h)
    ensures '.' !in h && !EndsWith(h, "/")
  {
    assert StartsWithCI(h, "tel:") by {
      LowerOfLower("tel:");
      assert LowerStr(h[..4]) == "tel:" by {
        assert forall i :: 0 <= i < 4 ==> LowerStr(h[..4])[i] == "tel:"[i];
      }
    }
    assert !SpecialPrefix(h) by {
      assert h[..4] != "tel:" && h[..5] != "http:" && h[..6] != "https:" && h[..7] != "mailto:" && h[..1] != "#" by {
        assert h[0] == 'T';
      }
    }
    assert '.' !in h;
    assert !EndsWith(h, "/") by { assert h[10..] == "4"; }
  }

  /** The outcome of the three tests that separates the rewrite as written
      from the corrected one: `s` passes the corrected `.html` test, fails
      the one as written, and has no extension. */
  predicate OnlyCorrectedHtml(s: string) {
    HtmlTarget(s, true, false) && !HtmlTarget(s, false, true) && !HasExtension(s)
  }

  /** `[^\\s]` rejects an `s` in the fragment, so a `.html` link whose
      fragment holds an `s` and a slash is taken for a folder. */
  lemma FragmentWithLetterSRewritten(h: string)
    requires h == "about.html#s/1"
    ensures LocalLinkAsWritten(h) == Some(h + "/" + INDEX_HTML)
    ensures LocalLinkRewrite(h) == None
    ensures ResolveHrefForFile("file:", h) == h
  {
    FragmentPrefix(h);
    FragmentSplit(h);
    FragmentAtDot(h[5..]);
    NoDotSplit(h, 5);
    TakenForFolder(h);
  }

  /** `about.html#s/1` split at its dot. */
  lemma FragmentSplit(h: string)
    requires h == "about.html#s/1"
    ensures h[5..] == ".html#s/1" && '.' !in h[..5] && h[|h| - 1] == '1'
  {
    assert h[..5] == "about";
  }

  /** A link without a special prefix that only the corrected `.html` test
      accepts, with no extension and no trailing slash, is let through by the
      corrected rewrite and by `resolveHrefForFile`, but the rewrite as
      written sends it to `/index.html` under it. */
  lemma TakenForFolder(h: string)
    requires !SpecialPrefix(h) && !SpecialPrefixCI(h) && h != [] && h[|h| - 1] != '/'
    requires OnlyCorrectedHtml(h)
    ensures LocalLinkAsWritten(h) == Some(h + "/" + INDEX_HTML)
    ensures LocalLinkRewrite(h) == None
    ensures ResolveHrefForFile("file:", h) == h
  {
    assert h[|h| - 1..] == [h[|h| - 1]];
  }

  /** Without the `i` flag the `.html` test misses an upper-case `.HTML`, so
      such a link with a slash in its fragment is taken for a folder too. */
  lemma UpperCaseHtmlRewritten(h: string)
    requires h == "X.HTML#a/b"
    ensures LocalLinkAsWritten(h) == Some(h + "/" + INDEX_HTML)
    ensures LocalLinkRewrite(h) == None
    ensures ResolveHrefForFile("file:", h) == h
  {
    UpperCasePrefix(h);
    UpperCaseSplit(h);
    UpperCaseHtmlAtDot(h[1..]);
    NoDotSplit(h, 1);
    TakenForFolder(h);
  }

  /** `X.HTML#a/b` split at its dot. */
  lemma UpperCaseSplit(h: string)
    requires h == "X.HTML#a/b"
    ensures h[1..] == ".HTML#a/b" && '.' !in h[..1] && h[|h| - 1] == 'b'
  {
    assert h[..1] == "X";
  }

  /** From its dot on, `X.HTML#a/b` matches only the pattern with the `i`
      flag, and the slash in the fragment hides the extension. */
  lemma UpperCaseHtmlAtDot(tail: string)
    requires tail == ".HTML#a/b"
    ensures OnlyCorrectedHtml(tail)
  {
    assert tail[..5] == ".HTML" && tail[5..] == "#a/b";
    UpperCaseTail();
    var rest := tail[1..];
    assert '.' !in rest;
    NoDotNoMatch(rest, false, true);
    assert rest[6] == '/';
  }

  /** The fragment `#a/b` holds no white space, and `.HTML` lower-cases to `.html`. */
  lemma UpperCaseTail()
    ensures FragmentTail("#a/b", false) && LowerStr(".HTML") == ".html"
  {
    assert "#a/b"[1..] == "a/b" && "a/b"[1..] == "/b" && "/b"[1..] == "b" && "b"[1..] == [];
  }

  /** `X.HTML#a/b` starts with none of the special schemes. */
  lemma UpperCasePrefix(h: string)
    requires h == "X.HTML#a/b"
    ensures !SpecialPrefix(h) && !SpecialPrefixCI(h)
  {
    assert Lower(h[0]) == 'x';
    assert h[..1][0] == 'X' && h[..4][0] == 'X' && h[..5][0] == 'X' && h[..6][0] == 'X' && h[..7][0] == 'X';
    assert LowerStr(h[..4])[0] == 'x' && LowerStr(h[..5])[0] == 'x';
    assert LowerStr(h[..6])[0] == 'x' && LowerStr(h[..7])[0] == 'x';
  }

  /** `about.html#s/1` starts with none of the special schemes. */
  lemma FragmentPrefix(h: string)
    requires h == "about.html#s/1"
    ensures !SpecialPrefix(h) && !SpecialPrefixCI(h)
  {
    assert Lower(h[0]) == 'a';
    assert h[..1][0] == 'a' && h[..4][0] == 'a' && h[..5][0] == 'a' && h[..6][0] == 'a' && h[..7][0] == 'a';
    assert LowerStr(h[..4])[0] == 'a' && LowerStr(h[..5])[0] == 'a';
    assert LowerStr(h[..6])[0] == 'a' && LowerStr(h[..7])[0] == 'a';
  }

  /** From its dot on, `about.html#s/1` matches the corrected pattern only. */
  lemma FragmentAtDot(tail: string)
    requires tail == ".html#s/1"
    ensures OnlyCorrectedHtml(tail)
  {
    assert tail[..5] == ".html" && tail[5..] == "#s/1";
    LowerOfLower(".html");
    FragmentTails();
    var rest := tail[1..];
    assert '.' !in rest;
    NoDotNoMatch(rest, false, true);
    NoDotNoMatch(rest, true, false);
    assert rest[6] == '/';
  }

  /** `s` is excluded by `[^\\s]` and admitted by `[^\s]`. */
  lemma FragmentTails()
    ensures FragmentTail("#s/1", false) && !FragmentTail("#s/1", true)
  {
    assert "#s/1"[1..] == "s/1" && "s/1"[1..] == "/1" && "/1"[1..] == "1" && "1"[1..] == [];
  }

  /** A string whose first `k` characters hold no dot, followed by at least
      five more, has the outcome of the three tests of its part from `k` on. */
  lemma {:induction false} NoDotSplit(h: string, k: nat)
    requires k + 5 <= |h| && '.' !in h[..k] && OnlyCorrectedHtml(h[k..])
    ensures OnlyCorrectedHtml(h)
    decreases k
  {
    if k > 0 {
      var t := h[1..];
      assert t[..k - 1] == h[..k][1..] && t[k - 1..] == h[k..];
      assert h[0] == h[..k][0];
      NoDotSplit(t, k - 1);
      PrefixNotDot(h);
    }
  }

  /** A character other than a dot put in front of a string keeps the
      outcome of the three tests. */
  lemma PrefixNotDot(s: string)
    requires 6 <= |s| && s[0] != '.' && OnlyCorrectedHtml(s[1..])
    ensures OnlyCorrectedHtml(s)
  {
    assert s[..5][0] == s[0];
    assert LowerStr(s[..5])[0] == Lower(s[0]);
  }

  /** The click handler of `initLocalFileLinks`, installed on `file:` pages
      only; it builds on the corrected rewrite. */
  function LocalFileClick(protocol: string, defaultPrevented: bool, link: Option<Anchor>): (r: Option<string>)
    ensures r.Some? <==> protocol == "file:" && !defaultPrevented && link.Some? && HrefOf(link.value) != ""
                         && !SpecialPrefixCI(HrefOf(link.value)) && !HtmlTarget(HrefOf(link.value), true, false)
    ensures r.Some? ==> r.value == ResolveHrefForFile(protocol, HrefOf(link.value))
  {
    if protocol != "file:" || defaultPrevented || link.None? then None
    else if HrefOf(link.value) == "" then None
    else LocalLinkRewrite(HrefOf(link.value))
  }

  /** The `<a>` a click landed in: its `href` attribute (absent or not), its
      `target` property and the origin the browser derived from it. */
  datatype Anchor = Anchor(href: Option<string>, target: string, origin: string)

  /** The current page's `location`. */
  datatype Page = Page(protocol: string, origin: string, pathname: string)

  datatype Navigation = FollowDefault | Transition(destination: string)

  /** `getAttribute('href')`, with a missing attribute read as the empty string
      (both are falsy at the handler's first test). */
  function HrefOf(a: Anchor): string {
    match a.href
    case None => ""
    case Some(h) => h
  }

  /** `/^(https?:)?\/\//i` */
  predicate AbsoluteHttp(href: string) {
    StartsWith(href, "//") || StartsWithCI(href, "http://") || StartsWithCI(href, "https://")
  }

  /** `href.split('#')[0]` */
  function PathPart(href: string): (p: string)
    ensures '#' !in p && StartsWith(href, p)
    ensures '#' !in href ==> p == href
    ensures '#' in href ==> |p| < |href| && href[|p|] == '#'
  {
    match IndexOf(href, '#')
    case None => href
    case Some(i) => href[..i]
  }

  /** `href.split('#')[1]`: the text between the first `#` and the next one
      (or the end); `None` when there is no `#`. */
  function HashPart(href: string): (h: Option<string>)
    ensures h.None? <==> '#' !in href
    ensures h.Some? ==> '#' !in h.value
    ensures h.Some? ==>
      var i := |PathPart(href)| + 1;
      && StartsWith(href[i..], h.value)
      && (i + |h.value| == |href| || href[i + |h.value|] == '#')
  {
    match IndexOf(href, '#')
    case None => None
    case Some(i) =>
      var rest := href[i + 1..];
      match IndexOf(rest, '#')
      case None => Some(rest)
      case Some(j) => Some(rest[..j])
  }

  /** A hash part that is truthy in the source: present and non-empty. */
  predicate HasHash(href: string) {
    HashPart(href).Some? && HashPart(href).value != ""
  }

  /** A link that is not `#`-prefixed has a non-empty path part, so the
      "same-page hash-only" test of the click handler never fires. */
  lemma PathPartNonEmpty(href: string)
    requires href != "" && !StartsWith(href, "#")
    ensures PathPart(href) != ""
  {
    match IndexOf(href, '#')
    case None =>
    case Some(i) =>
      assert i != 0 by { assert href[..1] == [href[0]]; }
  }

  /** `.replace(/\/$/, '/')`: a trailing slash replaced by a slash. */
  function ReplaceTrailingSlash(p: string): (r: string)
    ensures r == p
  {
    if EndsWith(p, "/") then
      assert p == p[..|p| - 1] + p[|p| - 1..];
      p[..|p| - 1] + "/"
    else p
  }

  /** The path comparison key: one trailing `index.html`, in any case,
      removed. */
  function NormalizePath(p: string): (r: string)
    ensures StartsWith(p, r)
    ensures r == p || LowerStr(p[|r|..]) == INDEX_HTML
    ensures EndsWithCI(p, INDEX_HTML) <==> r != p
  {
    LowerOfLower(INDEX_HTML);
    if EndsWithCI(p, INDEX_HTML) then
      var stripped := p[..|p| - 10];
      assert p[|stripped|..] == p[|p| - 10..];
      ReplaceTrailingSlash(stripped)
    else
      ReplaceTrailingSlash(p)
  }

  /** The conjunction that decides whether the transition handler takes a
      click over. */
  predicate Intercepts(link: Anchor, defaultPrevented: bool, page: Page, pathnameOf: string -> string) {
    var href := HrefOf(link);
    && !defaultPrevented
    && href != ""
    && link.target != "_blank"
    && !StartsWithCI(href, "mailto:") && !StartsWithCI(href, "tel:")
    && !StartsWith(href, "#")
    && (AbsoluteHttp(href) ==> link.origin == page.origin)
    && (NormalizePath(page.pathname) != NormalizePath(pathnameOf(ResolveHrefForFile(page.protocol, href)))
        || HasHash(href))
  }

  /** The document click handler of `initTriangleTransitions`, up to the
      `preventDefault`.  `pathnameOf` is the browser's resolution of a link
      to the pathname of the URL it names. */
  function TransitionClick(link: Option<Anchor>, defaultPrevented: bool, page: Page,
                           pathnameOf: string -> string): (r: Navigation)
    ensures r.Transition? <==> link.Some? && Intercepts(link.value, defaultPrevented, page, pathnameOf)
    ensures r.Transition? ==> r.destination == ResolveHrefForFile(page.protocol, HrefOf(link.value))
  {
    if link.None? then FollowDefault
    else if defaultPrevented then FollowDefault
    else
      var a := link.value;
      var href := HrefOf(a);
      if href == "" then FollowDefault
      else if a.target == "_blank" then FollowDefault
      else if StartsWithCI(href, "mailto:") || StartsWithCI(href, "tel:") then FollowDefault
      else if StartsWith(href, "#") then FollowDefault
      else if AbsoluteHttp(href) && a.origin != page.origin then FollowDefault
      else if HasHash(href) && PathPart(href) == "" then FollowDefault
      else
        var destination := ResolveHrefForFile(page.protocol, href);
        var currentPath := NormalizePath(page.pathname);
        var targetPath := NormalizePath(pathnameOf(destination));
        if currentPath == targetPath && !HasHash(href) then FollowDefault
        else
          PathPartNonEmpty(href);
          Transition(destination)
  }

  /** The element id an in-page anchor click scrolls to: what follows the
      first `#`.  Links starting with `http`, `mailto:` or `tel:` (in this
      case) and links without `#` are ignored. */
  function AnchorTargetId(href: Option<string>): (r: Option<string>)
    ensures r.Some? <==> href.Some? && href.value != "" && !StartsWith(href.value, "http")
                         && !StartsWith(href.value, "mailto:") && !StartsWith(href.value, "tel:")
                         && '#' in href.value
    ensures r.Some? ==> var h := href.value; var i := |h| - |r.value| - 1;
                        0 <= i < |h| && h[i] == '#' && '#' !in h[..i] && r.value == h[i + 1..]
  {
    match href
    case None => None
    case Some(h) =>
      if h == "" || StartsWith(h, "http") || StartsWith(h, "mailto:") || StartsWith(h, "tel:") then None
      else match IndexOf(h, '#')
        case None => None
        case Some(i) => Some(h[i + 1..])
  }

  /** A `scrollTo` call leaves the eased offset, the main loop and the drag
      state of the engine as they were. */
  twostate predicate EngineUntouched(engine: CustomScroll.ScrollEngine)
    reads engine
  {
    && engine.currentScroll == old(engine.currentScroll)
    && engine.isScrolling == old(engine.isScrolling) && engine.mainFrames == old(engine.mainFrames)
    && engine.isDragging == old(engine.isDragging) && engine.dragStartY == old(engine.dragStartY)
    && engine.dragStartScroll == old(engine.dragStartScroll)
    && engine.selectionSuppressed == old(engine.selectionSuppressed)
  }

  /** Ease passed by main.js to `customScroll.scrollTo`. */
  const ANCHOR_EASE: real := 0.12

  /** The scroll shared by anchor clicks, the initial hash and the stored
      target: from the eased offset plus the element's viewport top, through
      the engine when there is one, else as a native smooth scroll (whose
      target is returned). */
  method ScrollToElement(engine: CustomScroll.ScrollEngine?, nativeScrollY: real, rectTop: real,
                         g: CustomScroll.Geometry) returns (nativeSmooth: Option<real>)
    modifies engine
    ensures engine != null ==> nativeSmooth == None
    ensures engine != null ==> engine.targetScroll == CustomScroll.ClampTarget(old(engine.currentScroll) + rectTop, g)
    ensures engine != null ==> engine.scrollToLoops == old(engine.scrollToLoops) + multiset{ANCHOR_EASE}
    ensures engine != null ==> EngineUntouched(engine)
    ensures engine != null ==> (engine.Valid() <==> old(engine.Valid()))
    ensures engine == null ==> nativeSmooth == Some(nativeScrollY + rectTop)
  {
    if engine != null {
      var absoluteY := engine.GetScroll() + rectTop;
      var nativeY := engine.ScrollTo(absoluteY, Some(ANCHOR_EASE), None, g);
      nativeSmooth := None;
    } else {
      nativeSmooth := Some(nativeScrollY + rectTop);
    }
  }

  /** An anchor click of `initSmoothAnchors`.  `lookup` gives, for an element
      id of the page, the element's viewport top; the click is prevented
      exactly when the link names an element that exists. */
  method SmoothAnchorClick(engine: CustomScroll.ScrollEngine?, href: Option<string>,
                           lookup: string -> Option<real>, nativeScrollY: real,
                           g: CustomScroll.Geometry) returns (prevented: bool, nativeSmooth: Option<real>)
    modifies engine
    ensures prevented <==> AnchorTargetId(href).Some? && lookup(AnchorTargetId(href).value).Some?
    ensures !prevented ==> nativeSmooth == None
    ensures !prevented && engine != null ==>
      engine.targetScroll == old(engine.targetScroll) && engine.scrollToLoops == old(engine.scrollToLoops)
    ensures prevented && engine != null ==>
      engine.targetScroll == CustomScroll.ClampTarget(old(engine.currentScroll) + lookup(AnchorTargetId(href).value).value, g)
    ensures prevented && engine != null ==>
      engine.scrollToLoops == old(engine.scrollToLoops) + multiset{ANCHOR_EASE} && nativeSmooth == None
    ensures prevented && engine == null ==> nativeSmooth == Some(nativeScrollY + lookup(AnchorTargetId(href).value).value)
    ensures engine != null ==> EngineUntouched(engine)
    ensures engine != null ==> (engine.Valid() <==> old(engine.Valid()))
  {
    var id := AnchorTargetId(href);
    if id.None? {
      return false, None;
    }
    var top := lookup(id.value);
    if top.None? {
      return false, None;
    }
    prevented := true;
    nativeSmooth := ScrollToElement(engine, nativeScrollY, top.value, g);
  }

  function CountActive(s: seq<bool>): nat {
    if s == [] then 0 else (if s[0] then 1 else 0) + CountActive(s[1..])
  }

  lemma {:induction false} CountActiveOne(s: seq<bool>, i: nat)
    requires i < |s|
    requires forall j :: 0 <= j < |s| ==> s[j] == (j == i)
    ensures CountActive(s) == 1
  {
    if i == 0 {
      CountNone(s[1..]);
    } else {
      CountActiveOne(s[1..], i - 1);
    }
  }

  lemma {:induction false} CountNone(s: seq<bool>)
    requires forall j :: 0 <= j < |s| ==> !s[j]
    ensures CountActive(s) == 0
  {
    if s != [] {
      CountNone(s[1..]);
    }
  }

  /** The product view toggle: the `active` class of each `.view-btn`, in
      document order, and the class of `#productsContainer`. */
  class ViewToggle {
    const active: array<bool>
    var containerClass: string

    /** Buttons get click handlers only when there is at least one; the
        classes they start with come from the markup. */
    constructor (initialActive: seq<bool>, initialClass: string)
      requires |initialActive| > 0
      ensures fresh(active) && active[..] == initialActive
      ensures containerClass == initialClass
    {
      active := new bool[|initialActive|](j requires 0 <= j < |initialActive| => initialActive[j]);
      containerClass := initialClass;
    }

    /** A click on button `i` with the given `data-view` attribute (a missing
        one is concatenated as `null`). */
    method Click(i: nat, dataView: Option<string>)
      requires i < active.Length
      modifies active, this`containerClass
      ensures forall j :: 0 <= j < active.Length ==> active[j] == (j == i)
      ensures CountActive(active[..]) == 1
      ensures containerClass == "products-" + (match dataView case None => "null" case Some(v) => v)
    {
      var viewType := match dataView case None => "null" case Some(v) => v;
      var k := 0;
      while k < active.Length
        invariant 0 <= k <= active.Length
        invariant forall j :: 0 <= j < k ==> !active[j]
      {
        active[k] := false;
        k := k + 1;
      }
      active[i] := true;
      CountActiveOne(active[..], i);
      containerClass := "products-" + viewType;
    }
  }
}
