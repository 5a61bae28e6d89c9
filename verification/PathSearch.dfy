/**
 The memoised three-point search for the most profitable input amount.

 The window inA <= inB <= inC moves towards the best of its three points and
 shrinks. The step between points is a parameter, so that the plain integer
 instance (half the distance) and the MicroNear instance (always zero) are both covered.
 */
module PathSearch {
  import opened Numeric

  /** One evaluation: it can fail, or find no profitable route, or find one. */
  type Answer<A, E> = Result<Option<A>, E>

  datatype Task<!A, !E> = Task(
    evaluate: nat -> Answer<A, E>,
    gain: A -> nat,
    step: (nat, nat) -> nat)
  {
    /** A step is at most half of the distance it is taken from. */
    ghost predicate Valid() {
      forall lo: nat, hi: nat :: lo <= hi ==> step(lo, hi) <= (hi - lo) / 2
    }

    ghost predicate NoStep() {
      forall lo: nat, hi: nat :: step(lo, hi) == 0
    }

    function GainAt(x: nat): (g: nat) {
      match evaluate(x)
      case Ok(Some(a)) => gain(a)
      case _ => 0
    }
  }

  /** The evaluations done so far, each stored as direct evaluation would give it. */
  class Memo<A, E> {
    var cache: map<nat, Option<A>>

    ghost predicate Agrees(t: Task<A, E>)
      reads this
    {
      forall x :: x in cache ==> t.evaluate(x) == Ok(cache[x])
    }

    constructor ()
      ensures cache == map[]
    {
      cache := map[];
    }

    method Evaluate(t: Task<A, E>, x: nat) returns (g: Result<nat, E>)
      requires Agrees(t)
      modifies this
      ensures Agrees(t)
      ensures cache.Keys == old(cache).Keys + if g.Ok? then {x} else {}
      ensures if g.Ok? then t.evaluate(x).Ok? && g.value == t.GainAt(x)
              else t.evaluate(x) == Err(g.error)
    {
      if x in cache {
        return Ok(match cache[x] case Some(a) => t.gain(a) case None => 0);
      }
      match t.evaluate(x)
      case Err(e) => return Err(e);
      case Ok(answer) =>
        cache := cache[x := answer];
        return Ok(match answer case Some(a) => t.gain(a) case None => 0);
    }
  }

  datatype Window = Window(inA: nat, inB: nat, inC: nat)

  predicate Ordered(w: Window, min: nat, max: nat) {
    min <= w.inA <= w.inB <= w.inC <= max
  }

  predicate Strict(w: Window) {
    w.inA < w.inB < w.inC
  }

  predicate Collapsed(w: Window) {
    w.inA == w.inB == w.inC
  }

  predicate Contains(w: Window, x: nat) {
    x == w.inA || x == w.inB || x == w.inC
  }

  /** The first point is at least as good as the other two. Subtraction stops at zero. */
  function MoveLeft(w: Window, step: nat, min: nat): (w': Window) {
    if min < w.inA then
      var left := SaturatingSub(w.inA, step);
      Window(if min < left then left else min, w.inA, w.inA + step)
    else Window(w.inA, w.inA + step, w.inA + 2 * step)
  }

  /** The middle point is the best. */
  function Shrink(w: Window, left: nat, right: nat): (w': Window) {
    Window(SaturatingSub(w.inB, left), w.inB, w.inB + right)
  }

  /** The last point is the best. */
  function MoveRight(w: Window, step: nat, max: nat): (w': Window) {
    if w.inC < max then Window(SaturatingSub(w.inC, step), w.inC, Min(max, w.inC + step))
    else Window(SaturatingSub(w.inC, 2 * step), SaturatingSub(w.inC, step), w.inC)
  }

  /** Lexicographic descent: the width, then whether the middle point lies on an edge. */
  ghost predicate Smaller(w': Window, w: Window) {
    || w'.inC - w'.inA < w.inC - w.inA
    || (w'.inC - w'.inA == w.inC - w.inA && Strict(w') && !Strict(w))
  }

  lemma MoveLeftSound(w: Window, step: nat, min: nat, max: nat)
    requires Ordered(w, min, max) && w.inA < w.inC && step <= (w.inB - w.inA) / 2
    ensures var w' := MoveLeft(w, step, min);
            Ordered(w', min, max) && Smaller(w', w) && Contains(w', w.inA)
  {
  }

  lemma ShrinkSound(w: Window, left: nat, right: nat, min: nat, max: nat)
    requires Ordered(w, min, max) && w.inA < w.inC
    requires left <= (w.inB - w.inA) / 2 && right <= (w.inC - w.inB) / 2
    ensures var w' := Shrink(w, left, right);
            Ordered(w', min, max) && Smaller(w', w) && Contains(w', w.inB)
  {
  }

  lemma MoveRightSound(w: Window, step: nat, min: nat, max: nat)
    requires Ordered(w, min, max) && w.inA < w.inC && step <= (w.inC - w.inB) / 2
    ensures var w' := MoveRight(w, step, max);
            Ordered(w', min, max) && Smaller(w', w) && Contains(w', w.inC)
  {
  }

  datatype Gains = Gains(a: nat, b: nat, c: nat)

  /** One round: the window moves towards the best of its three gains. */
  function NextWindow<A, E>(t: Task<A, E>, w: Window, g: Gains, min: nat, max: nat): (w': Window) {
    var Gains(a, b, c) := g;
    if b <= a && c <= a then MoveLeft(w, t.step(w.inA, w.inB), min)
    else if a <= b && c <= b then Shrink(w, t.step(w.inA, w.inB), t.step(w.inB, w.inC))
    else MoveRight(w, t.step(w.inB, w.inC), max)
  }

  ghost function GainsOf<A, E>(t: Task<A, E>, w: Window): Gains {
    Gains(t.GainAt(w.inA), t.GainAt(w.inB), t.GainAt(w.inC))
  }

  /** x has the largest gain of the three points. */
  ghost predicate IsBest<A, E>(t: Task<A, E>, w: Window, x: nat) {
    && Contains(w, x)
    && t.GainAt(w.inA) <= t.GainAt(x) && t.GainAt(w.inB) <= t.GainAt(x) && t.GainAt(w.inC) <= t.GainAt(x)
  }

  /** Where the search can stand: in order, or — without steps — at its start or on one point. */
  ghost predicate Reachable<A, E>(t: Task<A, E>, w: Window, min: nat, average: nat, max: nat) {
    || Ordered(w, min, max)
    || (t.NoStep() && (w == Window(min, average, max) || Collapsed(w)))
  }

  lemma RoundSound<A, E>(t: Task<A, E>, w: Window, min: nat, average: nat, max: nat) returns (best: nat)
    requires t.Valid() && Reachable(t, w, min, average, max) && w.inA < w.inC
    ensures var w' := NextWindow(t, w, GainsOf(t, w), min, max);
            && Reachable(t, w', min, average, max) && Smaller(w', w)
            && IsBest(t, w, best) && Contains(w', best)
            && (t.NoStep() ==> w'.inA == w'.inB == w'.inC == best)
  {
    var a, b, c := t.GainAt(w.inA), t.GainAt(w.inB), t.GainAt(w.inC);
    if b <= a && c <= a {
      best := w.inA;
      if Ordered(w, min, max) {
        MoveLeftSound(w, t.step(w.inA, w.inB), min, max);
      }
    } else if a <= b && c <= b {
      best := w.inB;
      if Ordered(w, min, max) {
        ShrinkSound(w, t.step(w.inA, w.inB), t.step(w.inB, w.inC), min, max);
      }
    } else {
      best := w.inC;
      if Ordered(w, min, max) {
        MoveRightSound(w, t.step(w.inB, w.inC), min, max);
      }
    }
  }

  /** Three points around x, a left step below and a right step above it, none of them beyond min or max. */
  ghost predicate Around(w: Window, x: nat, left: nat, right: nat, min: nat, max: nat) {
    && w.inB == x
    && w.inA == (if x < min + left then min else x - left)
    && w.inC == (if x + right > max then max else x + right)
  }

  /** Three points with the same distance between them. */
  ghost predicate Spaced(w: Window, distance: nat) {
    w.inB == w.inA + distance && w.inC == w.inB + distance
  }

  /**
   The next window lies around the best point, with the step on its side of the old one on either side of it;
   a best point that is min or max already becomes the end of three points a step apart.
   */
  lemma RoundCentres<A, E>(t: Task<A, E>, w: Window, min: nat, max: nat)
    requires t.Valid() && Ordered(w, min, max) && w.inA < w.inC
    ensures var w', g := NextWindow(t, w, GainsOf(t, w), min, max), GainsOf(t, w);
            var left, right := t.step(w.inA, w.inB), t.step(w.inB, w.inC);
            if g.a >= g.b && g.a >= g.c then
              if w.inA > min then Around(w', w.inA, left, left, min, max) else w'.inA == min && Spaced(w', left)
            else if g.b >= g.c then Around(w', w.inB, left, right, min, max)
            else if w.inC < max then Around(w', w.inC, right, right, min, max)
            else w'.inC == max && Spaced(w', right)
  {
  }

  /** A left move would go below zero, where an unsigned subtraction cannot. */
  ghost predicate Clips<A, E>(t: Task<A, E>, w: Window, g: Gains, min: nat) {
    g.b <= g.a && g.c <= g.a && min < w.inA < t.step(w.inA, w.inB)
  }

  /** The starting point is not too far below max. */
  predicate StartsNear(min: nat, average: nat, max: nat) {
    min <= average <= max && 3 * ((max - average) / 2) <= max
  }

  /** Enough room below inA for every later left move. */
  ghost predicate Roomy(w: Window, min: nat, max: nat) {
    && (w.inA == min || w.inB <= 2 * w.inA)
    && (w.inC == max ==> 3 * ((w.inC - w.inB) / 2) <= w.inC)
  }

  lemma MoveLeftKeepsRoom(w: Window, step: nat, min: nat, max: nat)
    requires Ordered(w, min, max) && w.inA < w.inC && Roomy(w, min, max) && step <= (w.inB - w.inA) / 2
    ensures Roomy(MoveLeft(w, step, min), min, max) && !(min < w.inA < step)
  {
  }

  lemma ShrinkKeepsRoom(w: Window, left: nat, right: nat, min: nat, max: nat)
    requires Ordered(w, min, max) && w.inA < w.inC && Roomy(w, min, max)
    requires left <= (w.inB - w.inA) / 2 && right <= (w.inC - w.inB) / 2
    ensures Roomy(Shrink(w, left, right), min, max)
  {
  }

  lemma MoveRightKeepsRoom(w: Window, step: nat, min: nat, max: nat)
    requires Ordered(w, min, max) && w.inA < w.inC && Roomy(w, min, max) && step <= (w.inC - w.inB) / 2
    ensures Roomy(MoveRight(w, step, max), min, max)
  {
  }

  lemma RoundKeepsRoom<A, E>(t: Task<A, E>, w: Window, g: Gains, min: nat, max: nat)
    requires t.Valid() && Ordered(w, min, max) && w.inA < w.inC && Roomy(w, min, max)
    ensures Roomy(NextWindow(t, w, g, min, max), min, max) && !Clips(t, w, g, min)
  {
    MoveLeftKeepsRoom(w, t.step(w.inA, w.inB), min, max);
    ShrinkKeepsRoom(w, t.step(w.inA, w.inB), t.step(w.inB, w.inC), min, max);
    MoveRightKeepsRoom(w, t.step(w.inB, w.inC), min, max);
  }

  /** Starting further from max than that, the second round can already clip: 3 below 2. */
  lemma WideStartClips<A, E>(t: Task<A, E>)
    requires forall lo: nat, hi: nat :: lo <= hi ==> t.step(lo, hi) == (hi - lo) / 2
    ensures var w := NextWindow(t, Window(1, 1, 14), Gains(0, 0, 1), 1, 14);
            w == Window(2, 8, 14) && Clips(t, w, Gains(1, 1, 1), 1)
    ensures !StartsNear(1, 1, 14)
  {
  }

  lemma StaysOrdered<A, E>(t: Task<A, E>, w: Window, g: Gains, min: nat, max: nat)
    requires t.Valid() && Ordered(w, min, max) && w.inA < w.inC
    ensures Ordered(NextWindow(t, w, g, min, max), min, max)
  {
    MoveLeftSound(w, t.step(w.inA, w.inB), min, max);
    ShrinkSound(w, t.step(w.inA, w.inB), t.step(w.inB, w.inC), min, max);
    MoveRightSound(w, t.step(w.inB, w.inC), min, max);
  }

  /** The best probed input is one of the three points and its gain is positive. */
  ghost predicate Leads<A, E>(t: Task<A, E>, probed: set<nat>, w: Window, best: nat) {
    && best in probed && Contains(w, best) && t.GainAt(best) > 0
    && forall y :: y in probed ==> t.GainAt(y) <= t.GainAt(best)
  }

  /**
   What the search answers: an evaluation's own error, a probed input that no probed
   input beats, or nothing because no probed input gains anything.
   */
  ghost predicate Answers<A, E>(t: Task<A, E>, probed: set<nat>, r: Answer<A, E>) {
    match r
    case Err(e) => exists x :: t.evaluate(x) == Err(e)
    case Ok(Some(a)) =>
      && t.gain(a) > 0
      && exists x :: x in probed && t.evaluate(x) == r && forall y :: y in probed ==> t.GainAt(y) <= t.gain(a)
    case Ok(None) => forall y :: y in probed ==> t.GainAt(y) == 0
  }

  /** The loop invariant: nothing probed yet, or a leader inside the window. */
  ghost predicate Searching<A, E>(t: Task<A, E>, probed: set<nat>, w: Window, best: nat,
                                  min: nat, average: nat, max: nat)
  {
    && Reachable(t, w, min, average, max)
    && (if probed == {} then w == Window(min, average, max)
        else Leads(t, probed, w, best) && {min, average, max} <= probed && min < max)
    && (forall x :: x in probed ==> x == average || min <= x <= max)
    && (t.NoStep() ==> probed <= {min, average, max} && (probed != {} ==> Collapsed(w)))
  }

  lemma RoundKeepsSearching<A, E>(t: Task<A, E>, probed: set<nat>, w: Window, best: nat,
                                  min: nat, average: nat, max: nat) returns (best': nat)
    requires t.Valid() && Searching(t, probed, w, best, min, average, max) && w.inA < w.inC
    requires GainsOf(t, w) != Gains(0, 0, 0)
    ensures var w' := NextWindow(t, w, GainsOf(t, w), min, max);
            && Searching(t, probed + {w.inA, w.inB, w.inC}, w', best', min, average, max)
            && Smaller(w', w)
  {
    best' := RoundSound(t, w, min, average, max);
  }

  /** Three zero gains can only be seen in the first round. */
  lemma AllZero<A, E>(t: Task<A, E>, probed: set<nat>, w: Window, best: nat,
                      min: nat, average: nat, max: nat)
    requires Searching(t, probed, w, best, min, average, max)
    requires GainsOf(t, w) == Gains(0, 0, 0)
    ensures probed == {} && w == Window(min, average, max)
  {
  }

  /** The point the window closed on answers the search. */
  lemma ClosedWindowAnswers<A, E>(t: Task<A, E>, cache: map<nat, Option<A>>, w: Window, best: nat,
                                  min: nat, average: nat, max: nat)
    requires forall x :: x in cache ==> t.evaluate(x) == Ok(cache[x])
    requires min < max && w.inA >= w.inC && Searching(t, cache.Keys, w, best, min, average, max)
    ensures Answers(t, cache.Keys, Ok(if w.inA in cache then cache[w.inA] else None))
    ensures {min, average, max} <= cache.Keys
    ensures w.inA in cache
  {
  }

  /** The error that evaluating the three points in order meets first. */
  function FirstError<A, E>(t: Task<A, E>, w: Window): (e: Option<E>)
    ensures e.None? <==> t.evaluate(w.inA).Ok? && t.evaluate(w.inB).Ok? && t.evaluate(w.inC).Ok?
    ensures t.evaluate(w.inA).Err? ==> e == Some(t.evaluate(w.inA).error)
    ensures t.evaluate(w.inA).Ok? && t.evaluate(w.inB).Err? ==> e == Some(t.evaluate(w.inB).error)
  {
    if t.evaluate(w.inA).Err? then Some(t.evaluate(w.inA).error)
    else if t.evaluate(w.inB).Err? then Some(t.evaluate(w.inB).error)
    else if t.evaluate(w.inC).Err? then Some(t.evaluate(w.inC).error)
    else None
  }

  lemma RoundDescends<A, E>(t: Task<A, E>, w: Window, min: nat, average: nat, max: nat)
    requires t.Valid() && Reachable(t, w, min, average, max) && w.inA < w.inC
    ensures var w' := NextWindow(t, w, GainsOf(t, w), min, max);
            Reachable(t, w', min, average, max) && Smaller(w', w)
  {
    var _ := RoundSound(t, w, min, average, max);
  }

  /** What the search answers from a window on, by direct evaluation: no memo, no loop. */
  ghost function SearchFrom<A, E>(t: Task<A, E>, w: Window, started: bool,
                                  min: nat, average: nat, max: nat): Answer<A, E>
    requires t.Valid() && Reachable(t, w, min, average, max)
    decreases if w.inA < w.inC then w.inC - w.inA else 0, !Strict(w)
  {
    if w.inA >= w.inC then (if started then t.evaluate(w.inA) else Ok(None))
    else if FirstError(t, w).Some? then Err(FirstError(t, w).value)
    else if GainsOf(t, w) == Gains(0, 0, 0) then Ok(None)
    else
      RoundDescends(t, w, min, average, max);
      SearchFrom(t, NextWindow(t, w, GainsOf(t, w), min, max), true, min, average, max)
  }

  ghost predicate ClearFrom<A, E>(t: Task<A, E>, w: Window, min: nat, average: nat, max: nat)
    requires t.Valid() && Reachable(t, w, min, average, max)
    decreases if w.inA < w.inC then w.inC - w.inA else 0, !Strict(w)
  {
    w.inA < w.inC && FirstError(t, w).None? && GainsOf(t, w) != Gains(0, 0, 0) ==>
      && !Clips(t, w, GainsOf(t, w), min)
      && (RoundDescends(t, w, min, average, max);
          ClearFrom(t, NextWindow(t, w, GainsOf(t, w), min, max), min, average, max))
  }

  /** No left move from this window on goes below zero. */
  ghost predicate NeverClips<A, E>(t: Task<A, E>, w: Window, min: nat, average: nat, max: nat)
    requires t.Valid() && Reachable(t, w, min, average, max)
  {
    ClearFrom(t, w, min, average, max)
  }

  lemma ClosedNeverClips<A, E>(t: Task<A, E>, w: Window, min: nat, average: nat, max: nat)
    requires t.Valid() && Reachable(t, w, min, average, max) && w.inA >= w.inC
    ensures NeverClips(t, w, min, average, max)
  {
  }

  /** A window is clear when its move is and the next window is; it is not when either fails and the move is made. */
  lemma NeverClipsBefore<A, E>(t: Task<A, E>, w: Window, next: Window, min: nat, average: nat, max: nat)
    requires t.Valid() && Reachable(t, w, min, average, max) && w.inA < w.inC
    requires next == NextWindow(t, w, GainsOf(t, w), min, max) && Reachable(t, next, min, average, max)
    ensures !Clips(t, w, GainsOf(t, w), min) && NeverClips(t, next, min, average, max) ==>
              NeverClips(t, w, min, average, max)
    ensures FirstError(t, w).None? && GainsOf(t, w) != Gains(0, 0, 0)
            && (Clips(t, w, GainsOf(t, w), min) || !NeverClips(t, next, min, average, max)) ==>
              !NeverClips(t, w, min, average, max)
  {
    RoundDescends(t, w, min, average, max);
  }

  lemma {:induction false} RoomyNeverClips<A, E>(t: Task<A, E>, w: Window, min: nat, average: nat, max: nat)
    requires t.Valid() && Ordered(w, min, max) && Roomy(w, min, max)
    ensures NeverClips(t, w, min, average, max)
    decreases if w.inA < w.inC then w.inC - w.inA else 0, !Strict(w)
  {
    if w.inA < w.inC {
      var next := NextWindow(t, w, GainsOf(t, w), min, max);
      RoundDescends(t, w, min, average, max);
      RoundKeepsRoom(t, w, GainsOf(t, w), min, max);
      StaysOrdered(t, w, GainsOf(t, w), min, max);
      RoomyNeverClips(t, next, min, average, max);
      NeverClipsBefore(t, w, next, min, average, max);
    } else {
      ClosedNeverClips(t, w, min, average, max);
    }
  }

  /** From a near start, whatever the gains, the whole search stays above zero. */
  lemma NearStartNeverClips<A, E>(t: Task<A, E>, min: nat, average: nat, max: nat)
    requires t.Valid() && StartsNear(min, average, max)
    ensures NeverClips(t, Window(min, average, max), min, average, max)
  {
    RoomyNeverClips(t, Window(min, average, max), min, average, max);
  }

  // ---------------------------------------------------------------------------
  // Exactly when the plain integer search can go below zero.

  /** A step is half of the distance it is taken from, rounded down. */
  ghost predicate HalfSteps<A, E>(t: Task<A, E>) {
    forall lo: nat, hi: nat :: lo <= hi ==> 2 * t.step(lo, hi) <= hi - lo <= 2 * t.step(lo, hi) + 1
  }

  /** Moving left from a by step, half of step, and so on, meets a step larger than what is left, above min. */
  predicate LeftRunClips(a: nat, step: nat, min: nat) {
    min < a && 0 < step && (a < step || LeftRunClips(a - step, step / 2, min))
  }

  /** The one way to go below zero: a right move that rounds the window to just above average, then left moves only. */
  predicate CanClip(min: nat, average: nat, max: nat) {
    min <= average < max && (max - average) % 2 == 1 && LeftRunClips(average + 1, (max - average) / 2 / 2, min)
  }

  function Even(a: nat, d: nat): Window {
    Window(a, a + d, a + 2 * d)
  }

  ghost predicate Doomed(a: nat, step: nat, min: nat) {
    LeftRunClips(a, step, min)
  }

  lemma DoomedNext(a: nat, step: nat, min: nat)
    ensures Doomed(a, step, min) <==> min < a && 0 < step && (a < step || Doomed(a - step, step / 2, min))
    ensures Doomed(a, step, min) && step <= a ==> min < a - step && 1 < step
  {
  }

  lemma EvenKeepsRoom(a: nat, d: nat, h: nat, min: nat, max: nat)
    requires Ordered(Even(a, d), min, max) && 2 * h <= d <= 2 * h + 1
    ensures Roomy(Shrink(Even(a, d), h, h), min, max) && Roomy(MoveRight(Even(a, d), h, max), min, max)
  {
  }

  lemma EvenMoveLeft(a: nat, d: nat, h: nat, min: nat, max: nat)
    requires Ordered(Even(a, d), min, max) && 2 * h <= d <= 2 * h + 1 && !Doomed(a, h, min)
    ensures !(min < a < h) && EvenOrRoomy(MoveLeft(Even(a, d), h, min), a, h, min, max)
  {
    DoomedNext(a, h, min);
  }

  /** The next window has room, or is evenly spaced again and its left run is safe. */
  ghost predicate EvenOrRoomy(next: Window, a: nat, h: nat, min: nat, max: nat) {
    Roomy(next, min, max) || (h <= a && next == Even(a - h, h) && !Doomed(a - h, h / 2, min))
  }

  /** From an evenly spaced window only left moves lead on to more of them; every other move makes room. */
  lemma EvenNext<A, E>(t: Task<A, E>, a: nat, d: nat, h: nat, min: nat, max: nat)
    requires Ordered(Even(a, d), min, max) && 2 * h <= d <= 2 * h + 1
    requires t.step(a, a + d) == h == t.step(a + d, a + 2 * d)
    requires !Doomed(a, h, min) || t.GainAt(a) < t.GainAt(a + 2 * d)
    ensures var w := Even(a, d);
            && !Clips(t, w, GainsOf(t, w), min)
            && EvenOrRoomy(NextWindow(t, w, GainsOf(t, w), min, max), a, h, min, max)
  {
    EvenKeepsRoom(a, d, h, min, max);
    if !Doomed(a, h, min) {
      EvenMoveLeft(a, d, h, min, max);
    }
  }

  /** A wide even window is clear, or it is when the even window to its left is. */
  lemma WideBefore<A, E>(t: Task<A, E>, a: nat, d: nat, h: nat, min: nat, average: nat, max: nat)
    returns (clear: bool)
    requires t.Valid() && HalfSteps(t) && Ordered(Even(a, d), min, max) && 2 * h <= d <= 2 * h + 1 && d > 0
    requires !Doomed(a, h, min) || t.GainAt(a) < t.GainAt(a + 2 * d)
    ensures clear ==> NeverClips(t, Even(a, d), min, average, max)
    ensures !clear ==>
              && h <= a && Ordered(Even(a - h, h), min, max) && !Doomed(a - h, h / 2, min)
              && (NeverClips(t, Even(a - h, h), min, average, max) ==> NeverClips(t, Even(a, d), min, average, max))
  {
    var next := NextWindow(t, Even(a, d), GainsOf(t, Even(a, d)), min, max);
    StaysOrdered(t, Even(a, d), GainsOf(t, Even(a, d)), min, max);
    EvenNext(t, a, d, h, min, max);
    NeverClipsBefore(t, Even(a, d), next, min, average, max);
    clear := Roomy(next, min, max);
    if clear {
      RoomyNeverClips(t, next, min, average, max);
    }
  }

  /** Window w is clear if the window w' is. */
  ghost predicate ClearAfter<A, E>(t: Task<A, E>, w: Window, w': Window, min: nat, average: nat, max: nat)
    requires t.Valid() && Ordered(w, min, max) && Ordered(w', min, max)
  {
    NeverClips(t, w', min, average, max) ==> NeverClips(t, w, min, average, max)
  }

  /** An even window is clear, or it is when a narrower one is whose left run is safe. */
  lemma EvenBefore<A, E>(t: Task<A, E>, a: nat, d: nat, h: nat, min: nat, average: nat, max: nat)
    returns (clear: bool, a': nat, h': nat)
    requires t.Valid() && HalfSteps(t) && Ordered(Even(a, d), min, max) && 2 * h <= d <= 2 * h + 1
    requires !Doomed(a, h, min) || t.GainAt(a) < t.GainAt(a + 2 * d)
    ensures clear ==> NeverClips(t, Even(a, d), min, average, max)
    ensures !clear ==>
              && h < d && 2 * h' <= h <= 2 * h' + 1 && Ordered(Even(a', h), min, max) && !Doomed(a', h', min)
              && ClearAfter(t, Even(a, d), Even(a', h), min, average, max)
  {
    clear, a', h' := true, 0, h / 2;
    if d == 0 {
      ClosedNeverClips(t, Even(a, d), min, average, max);
    } else {
      clear := WideBefore(t, a, d, h, min, average, max);
      a' := if clear then 0 else a - h;
    }
  }

  lemma {:induction false} EvenNeverClips<A, E>(t: Task<A, E>, a: nat, d: nat, h: nat,
                                                min: nat, average: nat, max: nat)
    requires t.Valid() && HalfSteps(t) && Ordered(Even(a, d), min, max)
    requires 2 * h <= d <= 2 * h + 1 && !Doomed(a, h, min)
    ensures NeverClips(t, Even(a, d), min, average, max)
    decreases d
  {
    var clear, a', h' := EvenBefore(t, a, d, h, min, average, max);
    if !clear {
      EvenNeverClips(t, a', h, h', min, average, max);
    }
  }

  /** So is the first even window when it starts on average, because then its first move is no left move. */
  lemma SafeEven<A, E>(t: Task<A, E>, a: nat, d: nat, h: nat, min: nat, average: nat, max: nat)
    requires t.Valid() && HalfSteps(t) && Ordered(Even(a, d), min, max) && 2 * h <= d <= 2 * h + 1
    requires !Doomed(a, h, min) || t.GainAt(a) < t.GainAt(a + 2 * d)
    ensures NeverClips(t, Even(a, d), min, average, max)
  {
    var clear, a', h' := EvenBefore(t, a, d, h, min, average, max);
    if !clear {
      EvenNeverClips(t, a', h, h', min, average, max);
    }
  }

  lemma FirstMove<A, E>(t: Task<A, E>, min: nat, average: nat, max: nat, s: nat)
    requires HalfSteps(t) && min <= average <= max && min < max && s == (max - average) / 2
    ensures var w := Window(min, average, max);
            var next := NextWindow(t, w, GainsOf(t, w), min, max);
            && !Clips(t, w, GainsOf(t, w), min)
            && (Roomy(next, min, max) || (next == Even(max - 2 * s, s) && t.GainAt(average) < t.GainAt(max)))
  {
  }

  /** A right move from the start lands on average itself, which is worse than max, or just above it. */
  lemma StartIsSafe(min: nat, average: nat, max: nat, a: nat, s: nat)
    requires min <= average <= max && min < max && s == (max - average) / 2 && a + 2 * s == max
    requires !CanClip(min, average, max)
    ensures a == average || !Doomed(a, s / 2, min)
  {
    assert a == average || (a == average + 1 && (max - average) % 2 == 1);
  }

  lemma FirstBefore<A, E>(t: Task<A, E>, min: nat, average: nat, max: nat, a: nat, s: nat) returns (clear: bool)
    requires t.Valid() && HalfSteps(t) && min <= average <= max && min < max
    requires s == (max - average) / 2 && a + 2 * s == max
    ensures clear ==> NeverClips(t, Window(min, average, max), min, average, max)
    ensures !clear ==>
              && Ordered(Even(a, s), min, max) && t.GainAt(average) < t.GainAt(max)
              && (NeverClips(t, Even(a, s), min, average, max) ==>
                    NeverClips(t, Window(min, average, max), min, average, max))
  {
    var w := Window(min, average, max);
    var next := NextWindow(t, w, GainsOf(t, w), min, max);
    StaysOrdered(t, w, GainsOf(t, w), min, max);
    FirstMove(t, min, average, max, s);
    NeverClipsBefore(t, w, next, min, average, max);
    clear := Roomy(next, min, max);
    if clear {
      RoomyNeverClips(t, next, min, average, max);
    }
  }

  lemma SafeRun<A, E>(t: Task<A, E>, min: nat, average: nat, max: nat, a: nat, s: nat)
    requires t.Valid() && HalfSteps(t) && min <= average <= max && min < max
    requires s == (max - average) / 2 && a + 2 * s == max && (a == average || !Doomed(a, s / 2, min))
    ensures NeverClips(t, Window(min, average, max), min, average, max)
  {
    var clear := FirstBefore(t, min, average, max, a, s);
    if !clear {
      SafeEven(t, a, s, s / 2, min, average, max);
    }
  }

  /** When the start cannot clip, no gains make the search go below zero. */
  lemma SafeStartNeverClips<A, E>(t: Task<A, E>, min: nat, average: nat, max: nat)
    requires t.Valid() && HalfSteps(t) && min <= average <= max && !CanClip(min, average, max)
    ensures NeverClips(t, Window(min, average, max), min, average, max)
  {
    if min == max {
      ClosedNeverClips(t, Window(min, average, max), min, average, max);
    } else {
      var s := (max - average) / 2;
      StartIsSafe(min, average, max, max - 2 * s, s);
      SafeRun(t, min, average, max, max - 2 * s, s);
    }
  }

  /** Gains that grow to the left, except for nothing at min and average. */
  function Climb(min: nat, average: nat, max: nat): (t: Task<nat, ()>)
    ensures t.Valid() && HalfSteps(t)
  {
    Task(x => Ok(Some(if x == min || x == average || x > max then 0 else max + 1 - x)), g => g,
         (lo, hi) => if lo <= hi then (hi - lo) / 2 else 0)
  }

  lemma ClimbLeft(a: nat, d: nat, h: nat, min: nat, average: nat, max: nat)
    requires min <= average < max && Ordered(Even(a, d), min, max) && 2 * h <= d <= 2 * h + 1 && min < a && 0 < h
    requires a != average
    ensures var t, w := Climb(min, average, max), Even(a, d);
            && FirstError(t, w).None? && GainsOf(t, w) != Gains(0, 0, 0)
            && NextWindow(t, w, GainsOf(t, w), min, max) == MoveLeft(w, h, min)
            && (Clips(t, w, GainsOf(t, w), min) <==> a < h)
  {
    var t := Climb(min, average, max);
    assert t.GainAt(a) == max + 1 - a && t.GainAt(a + d) <= t.GainAt(a) && t.GainAt(a + 2 * d) <= t.GainAt(a);
  }

  /** An even window of the climb clips at once, or when the window to its left does. */
  lemma ClimbBefore(a: nat, d: nat, h: nat, min: nat, average: nat, max: nat)
    requires min <= average < max && Ordered(Even(a, d), min, max) && 2 * h <= d <= 2 * h + 1
    requires min < a && 0 < h && a != average
    ensures a < h ==> !NeverClips(Climb(min, average, max), Even(a, d), min, average, max)
    ensures h <= a && min < a - h ==>
              && Ordered(Even(a - h, h), min, max)
              && (!NeverClips(Climb(min, average, max), Even(a - h, h), min, average, max) ==>
                    !NeverClips(Climb(min, average, max), Even(a, d), min, average, max))
  {
    var t, w := Climb(min, average, max), Even(a, d);
    ClimbLeft(a, d, h, min, average, max);
    StaysOrdered(t, w, GainsOf(t, w), min, max);
    assert h <= a && min < a - h ==> MoveLeft(w, h, min) == Even(a - h, h);
    NeverClipsBefore(t, w, MoveLeft(w, h, min), min, average, max);
  }

  lemma {:induction false} ClimbClips(a: nat, d: nat, h: nat, min: nat, average: nat, max: nat)
    requires min <= average < max && Ordered(Even(a, d), min, max) && 2 * h <= d <= 2 * h + 1 && Doomed(a, h, min)
    requires a == average + 1 || a < average
    ensures !NeverClips(Climb(min, average, max), Even(a, d), min, average, max)
    decreases d
  {
    DoomedNext(a, h, min);
    ClimbBefore(a, d, h, min, average, max);
    if h <= a {
      ClimbClips(a - h, h, h / 2, min, average, max);
    }
  }

  lemma ClimbFirst(min: nat, average: nat, max: nat)
    requires min <= average < max && (max - average) % 2 == 1
    ensures var t, w := Climb(min, average, max), Window(min, average, max);
            && FirstError(t, w).None? && GainsOf(t, w) == Gains(0, 0, 1)
            && NextWindow(t, w, GainsOf(t, w), min, max) == Even(average + 1, (max - average) / 2)
  {
  }

  lemma ClimbFirstBefore(min: nat, average: nat, max: nat, s: nat)
    requires min <= average < max && (max - average) % 2 == 1 && s == (max - average) / 2
    ensures Ordered(Even(average + 1, s), min, max)
    ensures !NeverClips(Climb(min, average, max), Even(average + 1, s), min, average, max) ==>
              !NeverClips(Climb(min, average, max), Window(min, average, max), min, average, max)
  {
    var t, w := Climb(min, average, max), Window(min, average, max);
    ClimbFirst(min, average, max);
    StaysOrdered(t, w, GainsOf(t, w), min, max);
    NeverClipsBefore(t, w, Even(average + 1, s), min, average, max);
  }

  /** When the start can clip, the climbing gains make the search go below zero. */
  lemma ClippingStartClips(min: nat, average: nat, max: nat)
    requires CanClip(min, average, max)
    ensures !NeverClips(Climb(min, average, max), Window(min, average, max), min, average, max)
  {
    var s := (max - average) / 2;
    ClimbFirstBefore(min, average, max, s);
    ClimbClips(average + 1, s, s / 2, min, average, max);
  }

  method EvaluateThree<A, E>(t: Task<A, E>, w: Window, memo: Memo<A, E>) returns (g: Result<Gains, E>)
    requires memo.Agrees(t)
    modifies memo
    ensures memo.Agrees(t)
    ensures g.Ok? <==> FirstError(t, w).None?
    ensures g.Ok? ==> g.value == GainsOf(t, w) && memo.cache.Keys == old(memo.cache).Keys + {w.inA, w.inB, w.inC}
    ensures g.Err? ==> old(memo.cache).Keys <= memo.cache.Keys <= old(memo.cache).Keys + {w.inA, w.inB, w.inC}
    ensures g.Err? ==> FirstError(t, w) == Some(g.error)
  {
    var a := memo.Evaluate(t, w.inA);
    if a.Err? {
      return Err(a.error);
    }
    var b := memo.Evaluate(t, w.inB);
    if b.Err? {
      return Err(b.error);
    }
    var c := memo.Evaluate(t, w.inC);
    if c.Err? {
      return Err(c.error);
    }
    return Ok(Gains(a.value, b.value, c.value));
  }

  /** One round of the search: its answer, or the window to go on with. */
  method Round<A, E>(t: Task<A, E>, w: Window, ghost best: nat, min: nat, average: nat, max: nat, memo: Memo<A, E>)
    returns (r: Option<Answer<A, E>>, next: Window, ghost best': nat)
    requires t.Valid() && memo.Agrees(t) && w.inA < w.inC
    requires Searching(t, memo.cache.Keys, w, best, min, average, max)
    modifies memo
    ensures memo.Agrees(t)
    ensures var rest := SearchFrom(t, w, old(memo.cache.Keys) != {}, min, average, max);
            match r
            case Some(answer) => answer == rest && Answers(t, memo.cache.Keys, answer)
            case None =>
              && Searching(t, memo.cache.Keys, next, best', min, average, max) && Smaller(next, w)
              && memo.cache.Keys != {} && SearchFrom(t, next, true, min, average, max) == rest
    ensures r.Some? && r.value.Ok? ==> {min, average, max} <= memo.cache.Keys
    ensures forall x :: x in memo.cache.Keys ==> x == average || min <= x <= max
    ensures t.NoStep() ==> memo.cache.Keys <= {min, average, max}
  {
    ghost var before := memo.cache.Keys;
    next, best' := w, best;
    var g := EvaluateThree(t, w, memo);
    if g.Err? {
      return Some(Err(g.error)), next, best';
    }
    if g.value.a == g.value.b == g.value.c == 0 {
      AllZero(t, before, w, best, min, average, max);
      return Some(Ok(None)), next, best';
    }
    best' := RoundKeepsSearching(t, before, w, best, min, average, max);
    next := NextWindow(t, w, g.value, min, max);
    r := None;
  }

  /** The search with its memo, which is left holding every input that was evaluated. */
  method Search<A, E>(t: Task<A, E>, min: nat, average: nat, max: nat, memo: Memo<A, E>)
    returns (r: Answer<A, E>)
    requires t.Valid() && (min < max ==> min <= average <= max || t.NoStep())
    requires memo.cache == map[]
    modifies memo
    ensures memo.Agrees(t) && Answers(t, memo.cache.Keys, r)
    ensures if min >= max then r == Ok(None) && memo.cache == map[]
            else r == SearchFrom(t, Window(min, average, max), false, min, average, max)
    ensures r.Ok? && min < max ==> {min, average, max} <= memo.cache.Keys
    ensures forall x :: x in memo.cache.Keys ==> x == average || min <= x <= max
    ensures t.NoStep() ==> memo.cache.Keys <= {min, average, max}
  {
    var w := Window(min, average, max);
    ghost var best := min;
    if min >= max {
      return Ok(None);
    }
    ghost var answer := SearchFrom(t, w, false, min, average, max);
    while w.inA < w.inC
      invariant memo.Agrees(t)
      invariant Searching(t, memo.cache.Keys, w, best, min, average, max)
      invariant SearchFrom(t, w, memo.cache.Keys != {}, min, average, max) == answer
      decreases w.inC - w.inA, !Strict(w)
    {
      var answered, next;
      answered, next, best := Round(t, w, best, min, average, max, memo);
      if answered.Some? {
        return answered.value;
      }
      w := next;
    }
    ClosedWindowAnswers(t, memo.cache, w, best, min, average, max);
    return Ok(if w.inA in memo.cache then memo.cache[w.inA] else None);
  }

  const ONE_MICRONEAR: nat := 1_000_000_000_000_000_000
  const U64_SIZE: nat := 0x1_0000_0000_0000_0000

  function MicroFromYocto(yocto: nat): (m: nat) {
    (yocto / ONE_MICRONEAR) % U64_SIZE
  }

  /** MicroNear division gives zero for a zero divisor. */
  function MicroDiv(a: nat, b: nat): (q: nat) {
    if b == 0 then 0 else a / b
  }

  /** The divisor written as 2 is two yocto, which is no MicroNear at all. */
  function MicroStep(lo: nat, hi: nat): (s: nat)
    ensures s == 0
  {
    MicroDiv(SaturatingSub(hi, lo), MicroFromYocto(2))
  }

  /** The production search: gains are compared in whole MicroNear, as u64. */
  function MicroTask<A, E>(evaluate: nat -> Answer<A, E>, totalGain: A -> nat): (t: Task<A, E>)
    ensures t.Valid() && t.NoStep()
  {
    Task(evaluate, a => MicroFromYocto(totalGain(a)), MicroStep)
  }

  /** Which of the three inputs wins: the first among equals, in the order min, average, max. */
  function Chosen(g: Gains, min: nat, average: nat, max: nat): (x: nat) {
    if g.b <= g.a && g.c <= g.a then min else if g.a <= g.b && g.c <= g.b then average else max
  }

  /** The answer without any search: three evaluations and one comparison. */
  ghost function BestOfThree<A, E>(t: Task<A, E>, min: nat, average: nat, max: nat): Answer<A, E> {
    var w := Window(min, average, max);
    if min >= max then Ok(None)
    else if FirstError(t, w).Some? then Err(FirstError(t, w).value)
    else if GainsOf(t, w) == Gains(0, 0, 0) then Ok(None)
    else t.evaluate(Chosen(GainsOf(t, w), min, average, max))
  }

  /** Without steps the first round closes the window, wherever average lies. */
  lemma NoStepIsOneRound<A, E>(t: Task<A, E>, min: nat, average: nat, max: nat)
    requires t.Valid() && t.NoStep() && min < max
    ensures SearchFrom(t, Window(min, average, max), false, min, average, max) == BestOfThree(t, min, average, max)
  {
    var w := Window(min, average, max);
    if FirstError(t, w).None? && GainsOf(t, w) != Gains(0, 0, 0) {
      RoundDescends(t, w, min, average, max);
      var best := Chosen(GainsOf(t, w), min, average, max);
      assert NextWindow(t, w, GainsOf(t, w), min, max) == Window(best, best, best);
    }
  }

  method SearchMicroNear<A, E>(evaluate: nat -> Answer<A, E>, totalGain: A -> nat, min: nat, average: nat, max: nat)
    returns (r: Answer<A, E>)
    ensures r == BestOfThree(MicroTask(evaluate, totalGain), min, average, max)
  {
    var t := MicroTask(evaluate, totalGain);
    var memo := new Memo<A, E>();
    r := Search(t, min, average, max, memo);
    if min < max {
      NoStepIsOneRound(t, min, average, max);
    }
  }

  /** The gain of an input in yocto. */
  function YoctoGain<A, E>(evaluate: nat -> Answer<A, E>, totalGain: A -> nat, x: nat): (g: nat) {
    match evaluate(x)
    case Ok(Some(a)) => totalGain(a)
    case _ => 0
  }

  lemma MicroOrder(g: nat, h: nat)
    requires MicroFromYocto(g) <= MicroFromYocto(h) && g / ONE_MICRONEAR < U64_SIZE
    ensures g < h + ONE_MICRONEAR
  {
  }

  /**
   What the production answer means in yocto: no input that fits u64 gains a whole MicroNear
   more, and there is no answer exactly when every gain reads as zero MicroNear.
   */
  lemma BestOfThreeInYocto<A, E>(evaluate: nat -> Answer<A, E>, totalGain: A -> nat,
                                 min: nat, average: nat, max: nat, x: nat)
    requires min < max && FirstError(MicroTask(evaluate, totalGain), Window(min, average, max)).None?
    requires x == min || x == average || x == max
    ensures var r := BestOfThree(MicroTask(evaluate, totalGain), min, average, max);
            && r.Ok?
            && (r.value.Some? && YoctoGain(evaluate, totalGain, x) / ONE_MICRONEAR < U64_SIZE ==>
                  YoctoGain(evaluate, totalGain, x) < totalGain(r.value.value) + ONE_MICRONEAR)
            && (r.value.None? <==> forall y :: y in {min, average, max} ==>
                                     MicroFromYocto(YoctoGain(evaluate, totalGain, y)) == 0)
  {
    var t := MicroTask(evaluate, totalGain);
    forall y ensures t.GainAt(y) == MicroFromYocto(YoctoGain(evaluate, totalGain, y)) {
    }
    var r := BestOfThree(t, min, average, max);
    if r.value.Some? && YoctoGain(evaluate, totalGain, x) / ONE_MICRONEAR < U64_SIZE {
      MicroOrder(YoctoGain(evaluate, totalGain, x), totalGain(r.value.value));
    }
  }

  /** Within u64, fewer whole MicroNear are less yocto. */
  lemma MicroLess(g: nat, h: nat)
    requires g / ONE_MICRONEAR < U64_SIZE && h / ONE_MICRONEAR < U64_SIZE && MicroFromYocto(g) < MicroFromYocto(h)
    ensures g < h
  {
  }

  /** x gains no more yocto than c. */
  ghost predicate NoBetter<A, E>(evaluate: nat -> Answer<A, E>, totalGain: A -> nat, x: nat, c: nat) {
    YoctoGain(evaluate, totalGain, x) <= YoctoGain(evaluate, totalGain, c)
  }

  /** x and c gain the same number of whole MicroNear. */
  ghost predicate SameMicro<A, E>(evaluate: nat -> Answer<A, E>, totalGain: A -> nat, x: nat, c: nat) {
    MicroFromYocto(YoctoGain(evaluate, totalGain, x)) == MicroFromYocto(YoctoGain(evaluate, totalGain, c))
  }

  /**
   When gains fit u64 and one of them is a MicroNear at least, the answer is the evaluation of the chosen input, and
   it has the largest yocto gain of the three if and only if no input within its own MicroNear gains more.
   */
  lemma BestInYoctoIff<A, E>(evaluate: nat -> Answer<A, E>, totalGain: A -> nat,
                             min: nat, average: nat, max: nat, c: nat)
    requires var t, w := MicroTask(evaluate, totalGain), Window(min, average, max);
             && min < max && FirstError(t, w).None? && GainsOf(t, w) != Gains(0, 0, 0)
             && c == Chosen(GainsOf(t, w), min, average, max)
    requires forall x :: x in {min, average, max} ==> YoctoGain(evaluate, totalGain, x) / ONE_MICRONEAR < U64_SIZE
    ensures BestOfThree(MicroTask(evaluate, totalGain), min, average, max) == evaluate(c)
    ensures (forall x :: x in {min, average, max} ==> NoBetter(evaluate, totalGain, x, c)) <==>
              forall x :: x in {min, average, max} && SameMicro(evaluate, totalGain, x, c) ==>
                            NoBetter(evaluate, totalGain, x, c)
  {
    var t := MicroTask(evaluate, totalGain);
    forall x ensures t.GainAt(x) == MicroFromYocto(YoctoGain(evaluate, totalGain, x)) {
    }
    forall x | x in {min, average, max} && !SameMicro(evaluate, totalGain, x, c)
      ensures NoBetter(evaluate, totalGain, x, c)
    {
      assert t.GainAt(x) <= t.GainAt(c);
      MicroLess(YoctoGain(evaluate, totalGain, x), YoctoGain(evaluate, totalGain, c));
    }
  }

  /** Evaluations that just give the gain listed for the input. */
  function Listed(gains: map<nat, nat>): (evaluate: nat -> Answer<nat, ()>) {
    x => Ok(if x in gains then Some(gains[x]) else None)
  }

  function Itself(g: nat): nat {
    g
  }

  lemma ListedGain(gains: map<nat, nat>, x: nat)
    ensures MicroTask(Listed(gains), Itself).GainAt(x) == if x in gains then MicroFromYocto(gains[x]) else 0
  {
    var t := MicroTask(Listed(gains), Itself);
    assert t.evaluate(x) == Listed(gains)(x);
    if x in gains {
      assert t.gain(gains[x]) == MicroFromYocto(Itself(gains[x]));
    }
  }

  /** 1.0 and 1.9 MicroNear tie, and the worse input is answered. */
  lemma WorseInputWins()
    ensures var gains: map<nat, nat> := map[1 := ONE_MICRONEAR, 2 := 1_900_000_000_000_000_000];
            BestOfThree(MicroTask(Listed(gains), Itself), 1, 2, 3) == Ok(Some(ONE_MICRONEAR))
  {
    var gains: map<nat, nat> := map[1 := ONE_MICRONEAR, 2 := 1_900_000_000_000_000_000];
    ListedGain(gains, 1);
    ListedGain(gains, 2);
    ListedGain(gains, 3);
  }

  /** Gains below one MicroNear, and one of exactly 2^64 MicroNear, are not seen at all. */
  lemma GainsNotSeen()
    ensures var gains: map<nat, nat> := map[1 := ONE_MICRONEAR - 1, 2 := U64_SIZE * ONE_MICRONEAR, 3 := 1];
            BestOfThree(MicroTask(Listed(gains), Itself), 1, 2, 3) == Ok(None)
  {
    var gains: map<nat, nat> := map[1 := ONE_MICRONEAR - 1, 2 := U64_SIZE * ONE_MICRONEAR, 3 := 1];
    ListedGain(gains, 1);
    ListedGain(gains, 2);
    ListedGain(gains, 3);
  }
}
