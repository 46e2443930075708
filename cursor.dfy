/** The bubble cursor of js/cursor.js: a trail of at most 14 particles fed
    by a 55 ms rate limit, the cursor easing toward the mouse, and the
    desktop-width gate. */
module CursorTrail {
  import opened Common

  const MAX_TRAIL_PARTICLES: nat := 14
  const TRAIL_INTERVAL: int := 55
  const CURSOR_EASE: real := 0.15
  const MOBILE_MAX_WIDTH: int := 768

  /** `initCursor` goes on only above the mobile width and with both the
      `#cursor` and `#cursor-trail` elements present. */
  predicate Initializes(innerWidth: int, hasCursor: bool, hasTrail: bool) {
    innerWidth > MOBILE_MAX_WIDTH && hasCursor && hasTrail
  }

  /** The `display` set on resize. */
  function DisplayFor(innerWidth: int): (d: string)
    ensures d == "none" <==> innerWidth <= MOBILE_MAX_WIDTH
    ensures d != "none" ==> d == "block"
  {
    if innerWidth <= MOBILE_MAX_WIDTH then "none" else "block"
  }

  /** `isKidsPage ? 'cursor-spark' : 'cursor-triangle'` */
  function ParticleClass(isKidsPage: bool): (c: string)
    ensures c == "cursor-spark" <==> isKidsPage
    ensures c != "cursor-spark" ==> c == "cursor-triangle"
  {
    if isKidsPage then "cursor-spark" else "cursor-triangle"
  }

  /** A trail entry: `id` stands for the identity of its element. */
  datatype Particle = Particle(id: nat, time: int, x: real, y: real, className: string)

  /** `trailParticles.filter(p => p.element !== particle)` */
  function Without(s: seq<Particle>, id: nat): (r: seq<Particle>)
    ensures |r| <= |s|
    ensures forall p :: p in r <==> p in s && p.id != id
  {
    if s == [] then []
    else if s[0].id == id then Without(s[1..], id)
    else [s[0]] + Without(s[1..], id)
  }

  /** The number of entries before position `i` that the filter keeps. */
  function KeptBefore(s: seq<Particle>, id: nat, i: nat): nat
    requires i <= |s|
  {
    if i == 0 then 0 else KeptBefore(s, id, i - 1) + (if s[i - 1].id != id then 1 else 0)
  }

  /** A kept entry lands after all the kept entries before it and before all
      the kept entries after it: the filter keeps the relative order. */
  lemma {:induction false} WithoutPosition(s: seq<Particle>, id: nat, i: nat)
    requires i < |s| && s[i].id != id
    ensures KeptBefore(s, id, i) < |Without(s, id)| && Without(s, id)[KeptBefore(s, id, i)] == s[i]
  {
    var w := Without(s[1..], id);
    if i == 0 {
      assert Without(s, id) == [s[0]] + w;
    } else {
      KeptBeforeShift(s, id, i);
      WithoutPosition(s[1..], id, i - 1);
      var k := KeptBefore(s[1..], id, i - 1);
      assert w[k] == s[i] by {
        assert s[1..][i - 1] == s[i];
      }
      if s[0].id == id {
        assert Without(s, id) == w;
      } else {
        assert Without(s, id) == [s[0]] + w;
        assert ([s[0]] + w)[k + 1] == w[k];
      }
    }
  }

  /** Counting the kept entries of `s` up to `i` is counting the head and then
      the kept entries of the tail up to `i - 1`. */
  lemma {:induction false} KeptBeforeShift(s: seq<Particle>, id: nat, i: nat)
    requires 0 < |s| && i <= |s|
    ensures i > 0 ==> KeptBefore(s, id, i) == (if s[0].id != id then 1 else 0) + KeptBefore(s[1..], id, i - 1)
  {
    if i > 1 {
      KeptBeforeShift(s, id, i - 1);
    }
  }

  lemma {:induction false} KeptBeforeMonotone(s: seq<Particle>, id: nat, i: nat, j: nat)
    requires i < j <= |s| && s[i].id != id
    ensures KeptBefore(s, id, i) < KeptBefore(s, id, j)
    decreases j
  {
    if j > i + 1 {
      KeptBeforeMonotone(s, id, i, j - 1);
    }
  }

  /** Removing a particle that is no longer in the trail changes nothing. */
  lemma {:induction false} WithoutAbsent(s: seq<Particle>, id: nat)
    requires forall k :: 0 <= k < |s| ==> s[k].id != id
    ensures Without(s, id) == s
  {
    if s != [] {
      WithoutAbsent(s[1..], id);
    }
  }

  /** Entries in order of creation: ids and times increase along the trail,
      times at least 55 ms apart. */
  predicate Spaced(s: seq<Particle>) {
    forall i, j :: 0 <= i < j < |s| ==> s[i].id < s[j].id && s[i].time + TRAIL_INTERVAL <= s[j].time
  }

  /** The filter keeps the ordering of what it keeps. */
  lemma {:induction false} WithoutSpaced(s: seq<Particle>, id: nat)
    requires Spaced(s)
    ensures Spaced(Without(s, id))
  {
    if s != [] {
      SpacedTail(s);
      WithoutSpaced(s[1..], id);
      if s[0].id != id {
        var rest := Without(s[1..], id);
        forall q | q in rest
          ensures s[0].id < q.id && s[0].time + TRAIL_INTERVAL <= q.time
        {
          var k :| 0 <= k < |s[1..]| && s[1..][k] == q;
          assert s[k + 1] == q;
        }
        SpacedCons(s[0], rest);
      }
    }
  }

  lemma SpacedTail(s: seq<Particle>)
    requires Spaced(s) && s != []
    ensures Spaced(s[1..])
  {
    forall i, j | 0 <= i < j < |s[1..]|
      ensures s[1..][i].id < s[1..][j].id && s[1..][i].time + TRAIL_INTERVAL <= s[1..][j].time
    {
      assert s[1..][i] == s[i + 1] && s[1..][j] == s[j + 1];
    }
  }

  lemma SpacedCons(x: Particle, r: seq<Particle>)
    requires Spaced(r)
    requires forall q :: q in r ==> x.id < q.id && x.time + TRAIL_INTERVAL <= q.time
    ensures Spaced([x] + r)
  {
    var s := [x] + r;
    forall i, j | 0 <= i < j < |s|
      ensures s[i].id < s[j].id && s[i].time + TRAIL_INTERVAL <= s[j].time
    {
      assert s[j] == r[j - 1];
      if i > 0 {
        assert s[i] == r[i - 1];
      }
    }
  }

  /** A particle newer and 55 ms later than all others may join at the back. */
  lemma SpacedSnoc(s: seq<Particle>, p: Particle)
    requires Spaced(s)
    requires forall k :: 0 <= k < |s| ==> s[k].id < p.id && s[k].time + TRAIL_INTERVAL <= p.time
    ensures Spaced(s + [p])
  {
    var t := s + [p];
    forall i, j | 0 <= i < j < |t|
      ensures t[i].id < t[j].id && t[i].time + TRAIL_INTERVAL <= t[j].time
    {
      assert t[i] == s[i];
    }
  }

  /** The ids of the particles in a trail, that is the elements attached to
      the trail container. */
  function Ids(s: seq<Particle>): set<nat> {
    if s == [] then {} else {s[0].id} + Ids(s[1..])
  }

  lemma {:induction false} IdsAppend(s: seq<Particle>, p: Particle)
    ensures Ids(s + [p]) == Ids(s) + {p.id}
  {
    if s == [] {
      assert [p][1..] == [];
    } else {
      assert (s + [p])[1..] == s[1..] + [p];
      IdsAppend(s[1..], p);
    }
  }

  /** With distinct ids, filtering a particle out detaches exactly it. */
  lemma {:induction false} IdsWithout(s: seq<Particle>, id: nat)
    ensures Ids(Without(s, id)) == Ids(s) - {id}
  {
    if s != [] {
      IdsWithout(s[1..], id);
      if s[0].id != id {
        assert ([s[0]] + Without(s[1..], id))[1..] == Without(s[1..], id);
      }
    }
  }

  lemma {:induction false} IdsAbsent(s: seq<Particle>, n: nat)
    requires forall k :: 0 <= k < |s| ==> s[k].id != n
    ensures n !in Ids(s)
  {
    if s != [] {
      IdsAbsent(s[1..], n);
    }
  }

  /** The trail after a push of `p` to the back and, past 14 entries, a shift
      of the oldest from the front. */
  function Push(s: seq<Particle>, p: Particle): seq<Particle> {
    var added := s + [p];
    if |added| > MAX_TRAIL_PARTICLES then added[1..] else added
  }

  /** A push of a particle newer and 55 ms later than every entry keeps the
      trail spaced and within 14 entries, with the new particle the newest. */
  lemma PushSpaced(s: seq<Particle>, p: Particle)
    requires |s| <= MAX_TRAIL_PARTICLES && Spaced(s)
    requires forall k :: 0 <= k < |s| ==> s[k].id < p.id && s[k].time + TRAIL_INTERVAL <= p.time
    ensures |Push(s, p)| <= MAX_TRAIL_PARTICLES && Spaced(Push(s, p))
    ensures forall k :: 0 <= k < |Push(s, p)| ==> Push(s, p)[k].id <= p.id && Push(s, p)[k].time <= p.time
  {
    var added := s + [p];
    SpacedSnoc(s, p);
    if |added| > MAX_TRAIL_PARTICLES {
      SpacedTail(added);
      assert Push(s, p) == added[1..];
    } else {
      assert Push(s, p) == added;
    }
  }

  /** The push attaches the new particle and, past 14 entries, detaches the
      oldest. */
  lemma PushIds(s: seq<Particle>, p: Particle)
    requires |s| <= MAX_TRAIL_PARTICLES && Spaced(s + [p])
    ensures Ids(Push(s, p)) == if |s| == MAX_TRAIL_PARTICLES then (Ids(s) + {p.id}) - {s[0].id} else Ids(s) + {p.id}
  {
    var added := s + [p];
    IdsAppend(s, p);
    if |added| > MAX_TRAIL_PARTICLES {
      var t := added[1..];
      assert added == [added[0]] + t;
      forall k | 0 <= k < |t|
        ensures t[k].id != added[0].id
      {
        assert t[k] == added[k + 1];
      }
      IdsAbsent(t, added[0].id);
      assert Push(s, p) == t;
    } else {
      assert Push(s, p) == added;
    }
  }

  /** Cursor easing: 15% of the remaining way on each step. */
  function Ease(cursor: real, mouse: real): (r: real)
    ensures Between(cursor, mouse, r)
    ensures Abs(mouse - r) == 0.85 * Abs(mouse - cursor)
    ensures r == mouse <==> cursor == mouse
  {
    cursor + (mouse - cursor) * CURSOR_EASE
  }

  /** The module state of cursor.js after a successful `initCursor`. */
  class Cursor {
    const isKidsPage: bool
    var mouseX: real
    var mouseY: real
    var cursorX: real
    var cursorY: real
    var trail: seq<Particle>
    /** The particles whose element is a child of `#cursor-trail`. */
    var attached: set<nat>
    var lastTime: int
    var nextId: nat
    /** The inline `display` of both elements; `""` (none set, so the
        stylesheet decides) until the first resize. */
    var display: string

    ghost predicate Valid()
      reads this
    {
      && |trail| <= MAX_TRAIL_PARTICLES
      && Spaced(trail)
      && (forall k :: 0 <= k < |trail| ==> trail[k].id < nextId && trail[k].time <= lastTime)
      && attached == Ids(trail)
    }

    constructor (kids: bool)
      ensures Valid() && isKidsPage == kids
      ensures mouseX == 0.0 && mouseY == 0.0 && cursorX == 0.0 && cursorY == 0.0
      ensures trail == [] && lastTime == 0 && display == ""
    {
      isKidsPage := kids;
      mouseX, mouseY, cursorX, cursorY := 0.0, 0.0, 0.0, 0.0;
      trail := [];
      attached := {};
      lastTime := 0;
      nextId := 0;
      display := "";
    }

    /** `createTrailParticle(x, y)` at time `now`: the new particle goes to
        the back and, past 14, the oldest one is dropped from the front. */
    method CreateTrailParticle(x: real, y: real, now: int) returns (id: nat)
      requires Valid() && now >= lastTime + TRAIL_INTERVAL
      modifies this`trail, this`attached, this`nextId, this`lastTime
      ensures Valid() && lastTime == now
      ensures id == old(nextId) && nextId == old(nextId) + 1
      ensures var added := old(trail) + [Particle(id, now, x, y, ParticleClass(isKidsPage))];
              trail == if |added| > MAX_TRAIL_PARTICLES then added[1..] else added
      ensures |trail| == if |old(trail)| == MAX_TRAIL_PARTICLES then MAX_TRAIL_PARTICLES else |old(trail)| + 1
    {
      id := nextId;
      var p := Particle(id, now, x, y, ParticleClass(isKidsPage));
      SpacedSnoc(trail, p);
      PushSpaced(trail, p);
      PushIds(trail, p);
      attached := if |trail| == MAX_TRAIL_PARTICLES then (attached + {id}) - {trail[0].id} else attached + {id};
      trail := Push(trail, p);
      nextId := nextId + 1;
      lastTime := now;
    }

    /** `handleMouseMove` at time `now`: the mouse position is always
        recorded; a particle is created only 55 ms or more after the last. */
    method HandleMouseMove(clientX: real, clientY: real, now: int) returns (created: bool)
      requires Valid()
      modifies this`mouseX, this`mouseY, this`trail, this`attached, this`nextId, this`lastTime
      ensures Valid()
      ensures mouseX == clientX && mouseY == clientY
      ensures created <==> now - old(lastTime) >= TRAIL_INTERVAL
      ensures created ==> lastTime == now && nextId == old(nextId) + 1
      ensures created ==> var added := old(trail) + [Particle(old(nextId), now, clientX, clientY, ParticleClass(isKidsPage))];
                          trail == if |added| > MAX_TRAIL_PARTICLES then added[1..] else added
      ensures created ==> |trail| > 0 && trail[|trail| - 1].time == now
                          && trail[|trail| - 1].x == clientX && trail[|trail| - 1].y == clientY
      ensures !created ==> trail == old(trail) && lastTime == old(lastTime) && nextId == old(nextId)
                           && attached == old(attached)
    {
      mouseX := clientX;
      mouseY := clientY;
      created := now - lastTime >= TRAIL_INTERVAL;
      if created {
        var id := CreateTrailParticle(mouseX, mouseY, now);
      }
    }

    /** The 800 ms timeout of a particle: its element is removed and the
        trail filtered. */
    method RemoveParticle(id: nat)
      requires Valid()
      modifies this`trail, this`attached
      ensures Valid()
      ensures trail == Without(old(trail), id)
      ensures id !in attached
    {
      WithoutSpaced(trail, id);
      IdsWithout(trail, id);
      trail := Without(trail, id);
      attached := attached - {id};
    }

    /** One `animateCursor` frame. */
    method AnimateCursor()
      modifies this`cursorX, this`cursorY
      ensures cursorX == Ease(old(cursorX), mouseX) && cursorY == Ease(old(cursorY), mouseY)
    {
      cursorX := cursorX + (mouseX - cursorX) * CURSOR_EASE;
      cursorY := cursorY + (mouseY - cursorY) * CURSOR_EASE;
    }

    /** The debounced resize handler. */
    method Resize(innerWidth: int)
      modifies this`display
      ensures display == DisplayFor(innerWidth)
    {
      display := if innerWidth <= MOBILE_MAX_WIDTH then "none" else "block";
    }
  }

  /** `initCursor`: below the mobile width, or without either element, it
      returns before any listener is added; otherwise the cursor state goes
      live with an empty trail. */
  method InitCursor(innerWidth: int, hasCursor: bool, hasTrail: bool, kids: bool) returns (c: Cursor?)
    ensures c != null <==> Initializes(innerWidth, hasCursor, hasTrail)
    ensures c != null ==> fresh(c) && c.Valid() && c.isKidsPage == kids && c.trail == [] && c.display == ""
  {
    if innerWidth <= MOBILE_MAX_WIDTH {
      return null;
    }
    if !hasCursor || !hasTrail {
      return null;
    }
    c := new Cursor(kids);
  }
}
