/**
 * The contact observer: three booleans driven by the physics engine's
 * begin/end contact callbacks on unordered pairs of bodies. Bodies are
 * opaque ids; a contact is reduced to the two bodies of its fixtures.
 */
module Contacts {

  import opened Wrappers

  type BodyId = nat

  /** One engine callback: a contact between bodies `a` and `b` began or ended. */
  datatype ContactEvent = Begin(a: BodyId, b: BodyId) | End(a: BodyId, b: BodyId)

  /** The four bodies the observer watches. */
  datatype Tracked = Tracked(lastDomino: BodyId, ball: BodyId, platform: BodyId, beam: BodyId)

  /** The three tracked pairs: last domino and ball, ball and ledge (top), ball and beam (bottom). */
  datatype Pair = DominoBall | BallTop | BallBottom

  datatype Flags = Flags(dominoBall: bool, ballTop: bool, ballBottom: bool)

  const NoContact: Flags := Flags(false, false, false)

  /** The event's two bodies are `x` and `y`, in either order. */
  predicate Between(e: ContactEvent, x: BodyId, y: BodyId) {
    (e.a == x && e.b == y) || (e.b == x && e.a == y)
  }

  /** The event concerns the tracked pair `p`. */
  predicate OnPair(t: Tracked, p: Pair, e: ContactEvent) {
    match p
    case DominoBall => Between(e, t.lastDomino, t.ball)
    case BallTop => Between(e, t.ball, t.platform)
    case BallBottom => Between(e, t.ball, t.beam)
  }

  function Flag(f: Flags, p: Pair): bool {
    match p
    case DominoBall => f.dominoBall
    case BallTop => f.ballTop
    case BallBottom => f.ballBottom
  }

  /** The flags after one callback: a begin sets, an end clears, each flag whose pair the event concerns. */
  function Apply(t: Tracked, f: Flags, e: ContactEvent): Flags {
    var v := e.Begin?;
    Flags(if OnPair(t, DominoBall, e) then v else f.dominoBall,
          if OnPair(t, BallTop, e) then v else f.ballTop,
          if OnPair(t, BallBottom, e) then v else f.ballBottom)
  }

  /** The flags after a run of callbacks, oldest first. */
  function Replay(t: Tracked, f: Flags, events: seq<ContactEvent>): Flags {
    if |events| == 0 then f
    else Apply(t, Replay(t, f, events[..|events| - 1]), events[|events| - 1])
  }

  /** Replaying two runs of callbacks one after the other is replaying their concatenation. */
  lemma {:induction false} ReplayAppend(t: Tracked, f: Flags, a: seq<ContactEvent>, b: seq<ContactEvent>)
    ensures Replay(t, f, a + b) == Replay(t, Replay(t, f, a), b)
  {
    if |b| > 0 {
      var b' := b[..|b| - 1];
      assert (a + b)[..|a + b| - 1] == a + b';
      ReplayAppend(t, f, a, b');
    } else {
      assert a + b == a;
    }
  }

  /** Whether the most recent event on pair `p` was a begin (None: no event on `p` yet). */
  function LatestOn(t: Tracked, p: Pair, events: seq<ContactEvent>): Option<bool> {
    if |events| == 0 then None
    else if OnPair(t, p, events[|events| - 1]) then Some(events[|events| - 1].Begin?)
    else LatestOn(t, p, events[..|events| - 1])
  }

  /** Each flag is exactly "the latest event on its pair was a begin"; with no such event it keeps its start value. */
  lemma {:induction false} FlagIsLatestEvent(t: Tracked, f: Flags, events: seq<ContactEvent>, p: Pair)
    ensures Flag(Replay(t, f, events), p) ==
            match LatestOn(t, p, events)
            case None => Flag(f, p)
            case Some(began) => began
  {
    if |events| > 0 {
      FlagIsLatestEvent(t, f, events[..|events| - 1], p);
    }
  }

  /** A begin on a tracked pair sets its flag whichever body the engine reports first; an end clears it. */
  lemma TrackedPairEitherOrder(t: Tracked, f: Flags, p: Pair, x: BodyId, y: BodyId)
    requires OnPair(t, p, Begin(x, y))
    ensures Flag(Apply(t, f, Begin(x, y)), p) && Flag(Apply(t, f, Begin(y, x)), p)
    ensures !Flag(Apply(t, f, End(x, y)), p) && !Flag(Apply(t, f, End(y, x)), p)
  {
  }

  /** An event on none of the tracked pairs changes nothing. */
  lemma UntrackedEventIgnored(t: Tracked, f: Flags, e: ContactEvent)
    requires !OnPair(t, DominoBall, e) && !OnPair(t, BallTop, e) && !OnPair(t, BallBottom, e)
    ensures Apply(t, f, e) == f
  {
  }

  /** With four distinct bodies an event concerns at most one pair, so it changes at most one flag. */
  lemma DistinctBodiesOneFlag(t: Tracked, f: Flags, e: ContactEvent, p: Pair, q: Pair)
    requires |{t.lastDomino, t.ball, t.platform, t.beam}| == 4
    requires Flag(Apply(t, f, e), p) != Flag(f, p)
    requires Flag(Apply(t, f, e), q) != Flag(f, q)
    ensures p == q
  {
  }

  /** Flags are booleans, not counters: a repeated begin is idempotent, and one end after two begins clears the flag. */
  lemma {:induction false} BeginsDoNotCount(t: Tracked, f: Flags, p: Pair, x: BodyId, y: BodyId)
    requires OnPair(t, p, Begin(x, y))
    ensures Apply(t, Apply(t, f, Begin(x, y)), Begin(x, y)) == Apply(t, f, Begin(x, y))
    ensures !Flag(Replay(t, f, [Begin(x, y), Begin(x, y), End(x, y)]), p)
  {
    var events := [Begin(x, y), Begin(x, y), End(x, y)];
    assert OnPair(t, p, events[2]);
    FlagIsLatestEvent(t, f, events, p);
  }

  /**
   * The observer object of classes.py. `events` is the history of callbacks
   * it has received; the three flags always equal its replay from all-false.
   */
  class ContactListener {
    const tracked: Tracked
    var dominoBallContact: bool
    var ballContactTop: bool
    var ballContactBottom: bool
    ghost var events: seq<ContactEvent>

    function Current(): Flags
      reads this
    {
      Flags(dominoBallContact, ballContactTop, ballContactBottom)
    }

    ghost predicate Valid()
      reads this
    {
      Current() == Replay(tracked, NoContact, events)
    }

    constructor (lastDomino: BodyId, ball: BodyId, platform: BodyId, beam: BodyId)
      ensures Valid() && events == []
      ensures tracked == Tracked(lastDomino, ball, platform, beam)
      ensures Current() == NoContact
    {
      tracked := Tracked(lastDomino, ball, platform, beam);
      dominoBallContact := false;
      ballContactTop := false;
      ballContactBottom := false;
      events := [];
    }

    method BeginContact(a: BodyId, b: BodyId)
      requires Valid()
      modifies this
      ensures Valid() && events == old(events) + [Begin(a, b)]
      ensures Current() == Apply(tracked, old(Current()), Begin(a, b))
    {
      if (a == tracked.lastDomino && b == tracked.ball) || (b == tracked.lastDomino && a == tracked.ball) {
        dominoBallContact := true;
      }
      if (a == tracked.ball && b == tracked.platform) || (b == tracked.ball && a == tracked.platform) {
        ballContactTop := true;
      }
      if (a == tracked.ball && b == tracked.beam) || (b == tracked.ball && a == tracked.beam) {
        ballContactBottom := true;
      }
      events := events + [Begin(a, b)];
      assert events[..|events| - 1] == old(events);
    }

    method EndContact(a: BodyId, b: BodyId)
      requires Valid()
      modifies this
      ensures Valid() && events == old(events) + [End(a, b)]
      ensures Current() == Apply(tracked, old(Current()), End(a, b))
    {
      if (a == tracked.lastDomino && b == tracked.ball) || (b == tracked.lastDomino && a == tracked.ball) {
        dominoBallContact := false;
      }
      if (a == tracked.ball && b == tracked.platform) || (b == tracked.ball && a == tracked.platform) {
        ballContactTop := false;
      }
      if (a == tracked.ball && b == tracked.beam) || (b == tracked.ball && a == tracked.beam) {
        ballContactBottom := false;
      }
      events := events + [End(a, b)];
      assert events[..|events| - 1] == old(events);
    }

    /** The three flags in the order (domino-ball, ball-top, ball-bottom); reading them changes nothing. */
    method GetContacts() returns (dominoBall: bool, top: bool, bottom: bool)
      requires Valid()
      ensures Flags(dominoBall, top, bottom) == Replay(tracked, NoContact, events)
      ensures dominoBall == dominoBallContact && top == ballContactTop && bottom == ballContactBottom
    {
      return dominoBallContact, ballContactTop, ballContactBottom;
    }
  }
}
