/** The scroll-driven intro typography of js/kinetic-typography.js: phrase
    highlighting in the intro lines, the section's scroll progress, the
    change threshold that gates a re-render, and the per-line style maps. */
module KineticTypography {
  import opened Common

  // ---------------------------------------------------------------------
  // Phrase highlighting

  /** The characters of `/[-/\\^$*+?.()|[\]{}]/`, each of which the escape
      step prefixes with a backslash. */
  const META: set<char> := {'-', '/', '\\', '^', '$', '*', '+', '?', '.', '(', ')', '|', '[', ']', '{', '}'}

  const ACCENT_CLASS: string := "kt-em kt-em-accent"
  const PLAIN_CLASS: string := "kt-em"

  /** The terms, in lower case, that get the accent class. */
  const ACCENT_TERMS: set<string> := {"engineering", "experience", "long-term vision", "precision", "scale", "impact"}

  /** The three intro lines and the phrases emphasised in each. */
  const INTRO_LINES: seq<string> := [
    "SMART Holding Business Fusion operates at the intersection of engineering, experience, and long-term vision.",
    "Each division is built with purpose, designed to evolve, and structured to scale across industries that demand precision, reliability, and impact.",
    "Scroll to explore the systems behind the experience."
  ]
  const EMPHASIS: seq<seq<string>> := [
    ["engineering", "experience", "long-term vision"],
    ["purpose", "evolve", "scale", "precision", "reliability", "impact"],
    []
  ]

  /** `phrase.replace(/[-/\\^$*+?.()|[\]{}]/g, '\\$&')` */
  function Escape(s: string): string {
    if s == [] then []
    else (if s[0] in META then ['\\', s[0]] else [s[0]]) + Escape(s[1..])
  }

  /** The literal text a regular-expression source matches when it is made
      only of ordinary characters and backslash-escaped metacharacters;
      `None` for any other source. */
  function LiteralOf(r: string): Option<string> {
    if r == [] then Some([])
    else if r[0] == '\\' then
      if |r| >= 2 && r[1] in META then
        match LiteralOf(r[2..])
        case None => None
        case Some(t) => Some([r[1]] + t)
      else None
    else if r[0] in META then None
    else
      match LiteralOf(r[1..])
      case None => None
      case Some(t) => Some([r[0]] + t)
  }

  /** Escaping works character by character: it distributes over
      concatenation, doubles exactly the metacharacters and keeps every
      other character as it is. */
  lemma {:induction false} EscapeConcat(a: string, b: string)
    ensures Escape(a + b) == Escape(a) + Escape(b)
  {
    if a == [] {
      assert a + b == b;
    } else {
      assert (a + b)[0] == a[0] && (a + b)[1..] == a[1..] + b;
      EscapeConcat(a[1..], b);
    }
  }

  lemma EscapeChar(c: char)
    ensures c in META ==> Escape([c]) == ['\\', c]
    ensures c !in META ==> Escape([c]) == [c]
  {
    assert [c][1..] == [];
  }

  /** The escaped phrase, used as a pattern, matches the phrase itself and
      nothing else: the pattern reads back as the literal phrase. */
  lemma {:induction false} EscapeIsLiteral(s: string)
    ensures LiteralOf(Escape(s)) == Some(s)
  {
    if s != [] {
      EscapeIsLiteral(s[1..]);
      var head := if s[0] in META then ['\\', s[0]] else [s[0]];
      var e := Escape(s);
      assert e == head + Escape(s[1..]);
      if s[0] in META {
        assert e[2..] == Escape(s[1..]);
      } else {
        assert e[1..] == Escape(s[1..]);
      }
      assert [s[0]] + s[1..] == s;
    }
  }

  /** Different phrases give different patterns. */
  lemma EscapeInjective(s: string, t: string)
    requires Escape(s) == Escape(t)
    ensures s == t
  {
    EscapeIsLiteral(s);
    EscapeIsLiteral(t);
  }

  /** `accentTerms.has(phrase.toLowerCase()) ? 'kt-em kt-em-accent' : 'kt-em'` */
  function ClassFor(phrase: string): (r: string)
    ensures r == ACCENT_CLASS <==> LowerStr(phrase) in ACCENT_TERMS
    ensures r != ACCENT_CLASS ==> r == PLAIN_CLASS
  {
    if LowerStr(phrase) in ACCENT_TERMS then ACCENT_CLASS else PLAIN_CLASS
  }

  /** `<span class="cls">m</span>`, the replacement with `$1` the match. */
  function Wrap(cls: string, m: string): string {
    "<span class=\"" + cls + "\">" + m + "</span>"
  }

  /** A piece of a line after matching: a character left as it is, or a
      matched phrase occurrence (in the line's own case). */
  datatype Piece = Plain(c: char) | Em(m: string)

  function TextOf(p: Piece): string {
    match p
    case Plain(c) => [c]
    case Em(m) => m
  }

  /** The characters the pieces stand for. */
  function Flatten(ps: seq<Piece>): string {
    if ps == [] then [] else TextOf(ps[0]) + Flatten(ps[1..])
  }

  /** The markup the pieces produce, each match wrapped in a span. */
  function Render(ps: seq<Piece>, cls: string): string {
    if ps == [] then []
    else (match ps[0] case Plain(c) => [c] case Em(m) => Wrap(cls, m)) + Render(ps[1..], cls)
  }

  predicate HasEm(ps: seq<Piece>) {
    exists k :: 0 <= k < |ps| && ps[k].Em?
  }

  /** The phrase occurs at the front of `text`, ignoring ASCII case. */
  predicate MatchesAt(text: string, p: string) {
    |p| <= |text| && LowerStr(text[..|p|]) == LowerStr(p)
  }

  /** The phrase occurs somewhere in `text`, ignoring ASCII case. */
  predicate Occurs(text: string, p: string) {
    MatchesAt(text, p) || (text != [] && Occurs(text[1..], p))
  }

  /** The matches of a `gi` regular expression for the literal `p`, found
      left to right without overlap; an empty phrase matches at every
      position, the end included. */
  function Segment(text: string, p: string): (r: seq<Piece>)
    ensures Flatten(r) == text
    ensures forall k :: 0 <= k < |r| && r[k].Em? ==> LowerStr(r[k].m) == LowerStr(p)
    decreases |text|
  {
    if MatchesAt(text, p) then
      if p == [] then
        if text == [] then [Em([])]
        else
          var rest := [Plain(text[0])] + Segment(text[1..], p);
          FlattenCons(Plain(text[0]), Segment(text[1..], p));
          FlattenCons(Em([]), rest);
          [Em([])] + rest
      else
        var rest := Segment(text[|p|..], p);
        FlattenCons(Em(text[..|p|]), rest);
        assert text[..|p|] + text[|p|..] == text;
        [Em(text[..|p|])] + rest
    else if text == [] then []
    else
      var rest := Segment(text[1..], p);
      FlattenCons(Plain(text[0]), rest);
      [Plain(text[0])] + rest
  }

  lemma FlattenCons(x: Piece, rest: seq<Piece>)
    ensures Flatten([x] + rest) == TextOf(x) + Flatten(rest)
  {
    assert ([x] + rest)[1..] == rest;
  }

  /** `r` is a left-to-right scan of `text` for a non-empty phrase: at each
      position a match is taken whole, and a character is left plain only
      where no match starts. */
  predicate Scanned(text: string, p: string, r: seq<Piece>)
    decreases |r|
  {
    if r == [] then text == []
    else match r[0]
      case Plain(c) => text != [] && text[0] == c && !MatchesAt(text, p) && Scanned(text[1..], p, r[1..])
      case Em(m) => |m| <= |text| && m == text[..|m|] && LowerStr(m) == LowerStr(p) && Scanned(text[|m|..], p, r[1..])
  }

  /** For a non-empty phrase the segmentation is such a scan. */
  lemma {:induction false} SegmentScans(text: string, p: string)
    requires p != []
    ensures Scanned(text, p, Segment(text, p))
    decreases |text|
  {
    var r := Segment(text, p);
    if MatchesAt(text, p) {
      SegmentScans(text[|p|..], p);
      assert r[1..] == Segment(text[|p|..], p);
    } else if text != [] {
      SegmentScans(text[1..], p);
      assert r[1..] == Segment(text[1..], p);
    }
  }

  /** And it is the only one: no other split, such as one that takes only the
      first match or leaves a match plain, is a scan. */
  lemma {:induction false} ScannedUnique(text: string, p: string, r: seq<Piece>)
    requires p != [] && Scanned(text, p, r)
    ensures r == Segment(text, p)
    decreases |r|
  {
    if r != [] {
      match r[0]
      case Plain(c) =>
        ScannedUnique(text[1..], p, r[1..]);
        SegmentPlainStep(text, p);
        assert r == [Plain(text[0])] + r[1..];
      case Em(m) =>
        assert |m| == |p| by {
          assert |LowerStr(m)| == |LowerStr(p)|;
        }
        SegmentMatchStep(text, p);
        ScannedUnique(text[|p|..], p, r[1..]);
        assert r == [Em(text[..|p|])] + r[1..];
    }
  }

  /** Where no match starts, the segmentation begins with the plain first
      character. */
  lemma SegmentPlainStep(text: string, p: string)
    requires text != [] && !MatchesAt(text, p)
    ensures Segment(text, p) == [Plain(text[0])] + Segment(text[1..], p)
  {
  }

  /** Where a non-empty match starts, the segmentation begins with it. */
  lemma SegmentMatchStep(text: string, p: string)
    requires p != [] && MatchesAt(text, p)
    ensures Segment(text, p) == [Em(text[..|p|])] + Segment(text[|p|..], p)
  {
  }

  /** An empty phrase matches at every position: the line's characters come
      out plain, with an empty match before each and one at the end. */
  lemma {:induction false} SegmentEmptyPhrase(text: string)
    ensures |Segment(text, [])| == 2 * |text| + 1
    ensures forall k :: 0 <= k < |Segment(text, [])| ==>
              Segment(text, [])[k] == if k % 2 == 0 then Em([]) else Plain(text[k / 2])
    decreases |text|
  {
    assert MatchesAt(text, []);
    if text != [] {
      SegmentEmptyPhrase(text[1..]);
      var rest := Segment(text[1..], []);
      var r := Segment(text, []);
      assert r == [Em([])] + ([Plain(text[0])] + rest);
      forall k | 2 <= k < |r|
        ensures r[k] == if k % 2 == 0 then Em([]) else Plain(text[k / 2])
      {
        assert r[k] == rest[k - 2];
        if k % 2 == 1 {
          assert (k - 2) / 2 == k / 2 - 1;
          assert text[1..][(k - 2) / 2] == text[k / 2];
        }
      }
    }
  }

  /** `result.replace(regex, '<span class="cls">$1</span>')` */
  function ReplaceAll(text: string, p: string, cls: string): string {
    Render(Segment(text, p), cls)
  }

  /** A non-empty phrase is wrapped somewhere exactly when it occurs. */
  lemma {:induction false} SegmentFindsOccurrence(text: string, p: string)
    requires p != []
    ensures HasEm(Segment(text, p)) <==> Occurs(text, p)
    decreases |text|
  {
    var r := Segment(text, p);
    if MatchesAt(text, p) {
      assert r[0].Em?;
    } else if text != [] {
      SegmentFindsOccurrence(text[1..], p);
      var rest := Segment(text[1..], p);
      assert r == [Plain(text[0])] + rest;
      if HasEm(rest) {
        var k :| 0 <= k < |rest| && rest[k].Em?;
        assert r[k + 1].Em?;
      }
      if HasEm(r) {
        var k :| 0 <= k < |r| && r[k].Em?;
        assert rest[k - 1].Em?;
      }
    }
  }

  /** Without a match nothing is wrapped, so the markup is the text. */
  lemma {:induction false} RenderPlain(ps: seq<Piece>, cls: string)
    requires !HasEm(ps)
    ensures Render(ps, cls) == Flatten(ps)
  {
    if ps != [] {
      assert ps[0].Plain?;
      assert forall k :: 0 <= k < |ps| - 1 ==> ps[1..][k] == ps[k + 1];
      RenderPlain(ps[1..], cls);
    }
  }

  /** A line in which a non-empty phrase does not occur comes back unchanged. */
  lemma NoOccurrenceUnchanged(text: string, p: string, cls: string)
    requires p != [] && !Occurs(text, p)
    ensures ReplaceAll(text, p, cls) == text
  {
    SegmentFindsOccurrence(text, p);
    RenderPlain(Segment(text, p), cls);
  }

  /** `highlightPhrases(line, phrases)`: the phrases applied in order, each
      to the result of the ones before it. */
  function HighlightAll(line: string, phrases: seq<string>): string
    decreases |phrases|
  {
    if phrases == [] then line
    else
      var last := phrases[|phrases| - 1];
      ReplaceAll(HighlightAll(line, phrases[..|phrases| - 1]), last, ClassFor(last))
  }

  /** Phrases that do not occur leave the line as it is; in particular, an
      empty phrase list (the third intro line's) leaves every line unchanged. */
  lemma {:induction false} HighlightUntouched(line: string, phrases: seq<string>)
    requires forall i :: 0 <= i < |phrases| ==> phrases[i] != [] && !Occurs(line, phrases[i])
    ensures HighlightAll(line, phrases) == line
    decreases |phrases|
  {
    if phrases != [] {
      var init := phrases[..|phrases| - 1];
      HighlightUntouched(line, init);
      var last := phrases[|phrases| - 1];
      NoOccurrenceUnchanged(line, last, ClassFor(last));
    }
  }

  lemma ThirdLineUnchanged()
    ensures HighlightAll(INTRO_LINES[2], EMPHASIS[2]) == INTRO_LINES[2]
  {
    HighlightUntouched(INTRO_LINES[2], EMPHASIS[2]);
  }

  /** The forEach loop of `highlightPhrases`, accumulating into `result`. */
  method HighlightPhrases(line: string, phrases: seq<string>) returns (result: string)
    ensures result == HighlightAll(line, phrases)
  {
    result := line;
    var i := 0;
    while i < |phrases|
      invariant 0 <= i <= |phrases|
      invariant result == HighlightAll(line, phrases[..i])
    {
      var phrase := phrases[i];
      var cls := ClassFor(phrase);
      assert phrases[..i + 1][..i] == phrases[..i];
      result := ReplaceAll(result, phrase, cls);
      i := i + 1;
    }
    assert phrases[..|phrases|] == phrases;
  }

  // ---------------------------------------------------------------------
  // Scroll progress

  const DEFAULT_HEIGHT: nat := 2000
  const CHANGE_THRESHOLD: real := 0.005

  /** `content.offsetHeight || 2000` */
  function HeightOrDefault(offsetHeight: nat): (h: nat)
    ensures h > 0
    ensures offsetHeight > 0 ==> h == offsetHeight
    ensures offsetHeight == 0 ==> h == DEFAULT_HEIGHT
  {
    if offsetHeight == 0 then DEFAULT_HEIGHT else offsetHeight
  }

  function SectionStart(top: real, viewportHeight: real): real {
    top - viewportHeight * 0.5
  }

  function SectionEnd(top: real, height: nat): real {
    top + height as real
  }

  /** The progress of `animateOnScroll` through the section that starts half
      a viewport above the section's top and ends at its bottom. */
  function Progress(scrollPos: real, top: real, height: nat, viewportHeight: real): (p: real)
    requires height > 0 && viewportHeight >= 0.0
    ensures 0.0 <= p <= 1.0
    ensures scrollPos < SectionStart(top, viewportHeight) ==> p == 0.0
    ensures scrollPos > SectionEnd(top, height) ==> p == 1.0
    ensures SectionStart(top, viewportHeight) <= scrollPos <= SectionEnd(top, height) ==>
              p * (SectionEnd(top, height) - SectionStart(top, viewportHeight)) == scrollPos - SectionStart(top, viewportHeight)
  {
    var start := SectionStart(top, viewportHeight);
    var end := SectionEnd(top, height);
    if scrollPos >= start && scrollPos <= end then
      var q := (scrollPos - start) / (end - start);
      ProgressFraction(scrollPos - start, end - start);
      Max(0.0, Min(1.0, q))
    else if scrollPos < start then 0.0
    else 1.0
  }

  /** The divisor `sectionEnd - sectionStart` is positive, so the clamp after
      the division never changes the quotient. */
  lemma ProgressFraction(x: real, d: real)
    requires 0.0 <= x <= d && d > 0.0
    ensures 0.0 <= x / d <= 1.0 && (x / d) * d == x
  {
    var q := x / d;
    assert q * d == x;
    ProductSign(1.0 - q, d);
  }

  /** Scrolling further never moves the progress back. */
  lemma ProgressMonotone(s1: real, s2: real, top: real, height: nat, viewportHeight: real)
    requires height > 0 && viewportHeight >= 0.0 && s1 <= s2
    ensures Progress(s1, top, height, viewportHeight) <= Progress(s2, top, height, viewportHeight)
  {
    var start := SectionStart(top, viewportHeight);
    var end := SectionEnd(top, height);
    var p1 := Progress(s1, top, height, viewportHeight);
    var p2 := Progress(s2, top, height, viewportHeight);
    if start <= s1 && s2 <= end {
      var d := end - start;
      assert p1 * d == s1 - start && p2 * d == s2 - start;
      ProductSign(p2 - p1, d);
    }
  }

  /** Whether the progress moved enough for a re-render. */
  predicate Significant(progress: real, lastProgress: real) {
    Abs(progress - lastProgress) >= CHANGE_THRESHOLD
  }

  // ---------------------------------------------------------------------
  // Per-line styles

  /** Distance-based proximity of line `i` of `n` to the progress centre:
      1 at the centre, falling to 0 one line away. */
  function LineT(i: nat, progress: real, n: nat): (t: real)
    ensures 0.0 <= t <= 1.0
    ensures Abs(i as real + 0.5 - progress * n as real) <= 1.0 ==> t == 1.0 - Abs(i as real + 0.5 - progress * n as real)
    ensures Abs(i as real + 0.5 - progress * n as real) >= 1.0 ==> t == 0.0
  {
    var dist := Abs(i as real + 0.5 - progress * n as real);
    Max(0.0, 1.0 - Min(1.0, dist))
  }

  /** A single dominant line: at most one line is closer than half a line
      to the centre. */
  lemma SingleDominantLine(i: nat, j: nat, progress: real, n: nat)
    requires LineT(i, progress, n) > 0.5 && LineT(j, progress, n) > 0.5
    ensures i == j
  {
    var c := progress * n as real;
    assert Abs(i as real + 0.5 - c) < 0.5;
    assert Abs(j as real + 0.5 - c) < 0.5;
  }

  /** At most two lines are lit at all, and they are neighbours. */
  lemma LitLinesAdjacent(i: nat, j: nat, progress: real, n: nat)
    requires LineT(i, progress, n) > 0.0 && LineT(j, progress, n) > 0.0
    ensures i - j <= 1 && j - i <= 1
  {
    var c := progress * n as real;
    assert Abs(i as real + 0.5 - c) < 1.0;
    assert Abs(j as real + 0.5 - c) < 1.0;
  }

  datatype LineStyle = LineStyle(opacity: real, y: real, scale: real, fontWeight: int)

  /** `Math.round` of a non-negative value: half-way cases round up. */
  function Round(x: real): (r: int)
    ensures x - 0.5 < r as real <= x + 0.5
  {
    (x + 0.5).Floor
  }

  /** The style `gsap.set` gives a line of bell weight `w`. */
  function StyleFor(w: real): (s: LineStyle)
    ensures 0.0 <= w <= 1.0 ==> 0.25 <= s.opacity <= 1.0
    ensures 0.0 <= w <= 1.0 ==> 0.0 <= s.y <= 26.0
    ensures 0.0 <= w <= 1.0 ==> 0.985 <= s.scale <= 1.035
    ensures 0.0 <= w <= 1.0 ==> 400 <= s.fontWeight <= 700
    ensures w == 0.0 ==> s == LineStyle(0.25, 26.0, 0.985, 400)
    ensures w == 1.0 ==> s == LineStyle(1.0, 0.0, 1.035, 700)
  {
    var fw := Round(400.0 + 300.0 * w);
    assert w == 0.0 ==> fw == 400;
    assert w == 1.0 ==> fw == 700;
    LineStyle(0.25 + 0.75 * w, 26.0 - 26.0 * w, 0.985 + 0.05 * w, fw)
  }

  /** A heavier weight is more opaque, higher, larger and bolder. */
  lemma StyleMonotone(w1: real, w2: real)
    requires w1 <= w2
    ensures StyleFor(w1).opacity <= StyleFor(w2).opacity
    ensures StyleFor(w1).y >= StyleFor(w2).y
    ensures StyleFor(w1).scale <= StyleFor(w2).scale
    ensures StyleFor(w1).fontWeight <= StyleFor(w2).fontWeight
  {
    var a := 400.0 + 300.0 * w1 + 0.5;
    var b := 400.0 + 300.0 * w2 + 0.5;
    FloorMonotone(a, b);
  }

  lemma FloorMonotone(a: real, b: real)
    requires a <= b
    ensures a.Floor <= b.Floor
  {
    assert a.Floor as real <= a <= b < (b.Floor + 1) as real;
  }

  /** The styles for `n` lines at a progress, given the bell weight as a
      function of the proximity `t` (`0.5 * (1 - cos(pi * t))`). */
  function FrameStyles(progress: real, n: nat, bell: real -> real): (r: seq<LineStyle>)
    ensures |r| == n
    ensures forall i :: 0 <= i < n ==> r[i] == StyleFor(bell(LineT(i, progress, n)))
  {
    seq(n, i requires 0 <= i < n => StyleFor(bell(LineT(i, progress, n))))
  }

  /** The pending-frame state of `setupScrollAnimations`: the last progress
      acted on, the re-entrancy guard, the queued frame and the progress it
      captured, and the 16 ms scroll throttle. */
  class ScrollAnimator {
    const sectionTop: real
    const sectionHeight: nat
    const viewportHeight: real
    const lineCount: nat
    var lastProgress: real
    var isAnimating: bool
    var framePending: bool
    var frameProgress: real
    var timeoutPending: bool

    /** A frame is queued exactly while a call is animating, and the last
        progress is the initial -1 or a real progress. */
    ghost predicate Valid()
      reads this
    {
      && framePending == isAnimating
      && (lastProgress == -1.0 || 0.0 <= lastProgress <= 1.0)
      && (framePending ==> frameProgress == lastProgress)
      && viewportHeight >= 0.0 && sectionHeight > 0
    }

    constructor (offsetTop: real, offsetHeight: nat, innerHeight: real, lines: nat)
      requires innerHeight >= 0.0
      ensures Valid()
      ensures sectionTop == offsetTop && sectionHeight == HeightOrDefault(offsetHeight)
      ensures viewportHeight == innerHeight && lineCount == lines
      ensures lastProgress == -1.0 && !isAnimating && !framePending && !timeoutPending
    {
      sectionTop := offsetTop;
      sectionHeight := HeightOrDefault(offsetHeight);
      viewportHeight := innerHeight;
      lineCount := lines;
      lastProgress := -1.0;
      isAnimating := false;
      framePending := false;
      frameProgress := 0.0;
      timeoutPending := false;
    }

    /** `animateOnScroll` at scroll position `scrollPos`; `scheduled` says
        whether a frame was queued. */
    method AnimateOnScroll(scrollPos: real) returns (scheduled: bool)
      requires Valid()
      modifies this`lastProgress, this`isAnimating, this`framePending, this`frameProgress
      ensures Valid()
      ensures old(isAnimating) ==> !scheduled && lastProgress == old(lastProgress)
                                   && isAnimating && frameProgress == old(frameProgress)
      ensures !old(isAnimating) ==>
        var p := Progress(scrollPos, sectionTop, sectionHeight, viewportHeight);
        && scheduled == Significant(p, old(lastProgress))
        && (scheduled ==> lastProgress == p && isAnimating && frameProgress == p)
        && (!scheduled ==> lastProgress == old(lastProgress) && !isAnimating)
      ensures !old(isAnimating) && old(lastProgress) == -1.0 ==> scheduled
    {
      if isAnimating {
        return false;
      }
      isAnimating := true;
      var progress := Progress(scrollPos, sectionTop, sectionHeight, viewportHeight);
      if Abs(progress - lastProgress) < CHANGE_THRESHOLD {
        isAnimating := false;
        return false;
      }
      lastProgress := progress;
      // `animationFrame` is null here: it is only set while `isAnimating`.
      assert !framePending;
      framePending := true;
      frameProgress := progress;
      scheduled := true;
    }

    /** The queued frame runs: the line styles at the captured progress. */
    method RunFrame(bell: real -> real) returns (styles: seq<LineStyle>)
      requires Valid() && framePending
      modifies this`isAnimating, this`framePending
      ensures Valid() && !framePending && !isAnimating
      ensures styles == FrameStyles(frameProgress, lineCount, bell)
    {
      styles := [];
      var i := 0;
      while i < lineCount
        invariant 0 <= i <= lineCount
        invariant styles == FrameStyles(frameProgress, lineCount, bell)[..i]
      {
        var t := LineT(i, frameProgress, lineCount);
        styles := styles + [StyleFor(bell(t))];
        i := i + 1;
      }
      framePending := false;
      isAnimating := false;
    }

    /** `handleScroll`: arms the 16 ms timeout unless one is armed. */
    method HandleScroll() returns (armed: bool)
      modifies this`timeoutPending
      ensures armed == !old(timeoutPending) && timeoutPending
    {
      armed := !timeoutPending;
      timeoutPending := true;
    }

    /** The throttle timeout fires. */
    method TimeoutFires(scrollPos: real) returns (scheduled: bool)
      requires Valid() && timeoutPending
      modifies this`lastProgress, this`isAnimating, this`framePending, this`frameProgress, this`timeoutPending
      ensures Valid() && !timeoutPending
      ensures old(isAnimating) ==> !scheduled && lastProgress == old(lastProgress)
                                   && isAnimating && frameProgress == old(frameProgress)
      ensures !old(isAnimating) ==>
        var p := Progress(scrollPos, sectionTop, sectionHeight, viewportHeight);
        && scheduled == Significant(p, old(lastProgress))
        && (scheduled ==> lastProgress == p && isAnimating && frameProgress == p)
        && (!scheduled ==> lastProgress == old(lastProgress) && !isAnimating)
    {
      scheduled := AnimateOnScroll(scrollPos);
      timeoutPending := false;
    }
  }

  /** Two positions whose progress differs by less than the threshold: the
      second call is dropped and leaves the last progress where it was. */
  method SmallMoveIgnored(a: ScrollAnimator, s1: real, s2: real) returns (first: bool, second: bool)
    requires a.Valid() && !a.isAnimating
    requires Abs(Progress(s1, a.sectionTop, a.sectionHeight, a.viewportHeight) - a.lastProgress) >= CHANGE_THRESHOLD
    requires Abs(Progress(s2, a.sectionTop, a.sectionHeight, a.viewportHeight)
                 - Progress(s1, a.sectionTop, a.sectionHeight, a.viewportHeight)) < CHANGE_THRESHOLD
    modifies a
    ensures first && !second
    ensures a.lastProgress == Progress(s1, a.sectionTop, a.sectionHeight, a.viewportHeight)
  {
    first := a.AnimateOnScroll(s1);
    var styles := a.RunFrame(t => t);
    second := a.AnimateOnScroll(s2);
  }
}
