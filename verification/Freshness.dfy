/** The freshness key of the actual state: written with a time to live at every bump, keeping the
    time at which it first appeared. Instants are in nanoseconds. */
module Freshness {
  import opened Models

  const SECOND: nat := 1_000_000_000

  // Whole seconds, rounded down.
  function Unix(t: nat): (s: nat)
    ensures s * SECOND <= t < (s + 1) * SECOND
  {
    t / SECOND
  }

  // The key's value, a time in whole seconds, and the instant at which the store drops it.
  datatype Node = Node(stamp: nat, expires: nat)

  // What reached the store: a bump called at `stampAt` that read the key at `getAt` and wrote it
  // at `setAt`, or a deletion of the key.
  datatype Event = Bump(stampAt: nat, getAt: nat, getFailed: bool, setAt: nat) | Revoke(at: nat)
  {
    function Start(): nat { if Bump? then stampAt else at }

    function End(): nat { if Bump? then setAt else at }

    predicate Ordered() { Bump? ==> stampAt <= getAt <= setAt }
  }

  predicate Holds(node: Option<Node>, t: nat) { node.Some? && t < node.value.expires }

  function Apply(node: Option<Node>, e: Event, ttl: nat): Option<Node> {
    match e
    case Revoke(_) => None
    case Bump(stampAt, getAt, getFailed, setAt) =>
      Some(Node(if !getFailed && Holds(node, getAt) then node.value.stamp else Unix(stampAt), setAt + ttl * SECOND))
  }

  function Replay(h: seq<Event>, ttl: nat): Option<Node> {
    if h == [] then None else Apply(Replay(h[..|h| - 1], ttl), h[|h| - 1], ttl)
  }

  // The operations of one process follow one another.
  ghost predicate Sequential(h: seq<Event>) {
    && (forall i :: 0 <= i < |h| ==> h[i].Ordered())
    && (forall i, j :: 0 <= i < j < |h| ==> h[i].End() <= h[j].Start())
  }

  // What the freshness check decides at `now` from a read of the key at `at`.
  predicate IsFresh(node: Option<Node>, now: nat, at: nat, ttl: nat) {
    Holds(node, at) && now - node.value.stamp * SECOND >= ttl * SECOND
  }

  // From its s-th event on, the history is bumps only: each one read the key the one before it had
  // written before that had expired, the last is still alive at `at`, and the first began at least
  // `ttl` whole seconds before `now`.
  ghost predicate UnbrokenFrom(h: seq<Event>, ttl: nat, now: nat, at: nat, s: int) {
    && 0 <= s < |h|
    && (forall i :: s <= i < |h| ==> h[i].Bump?)
    && (forall i :: s < i < |h| ==> !h[i].getFailed && h[i].getAt < h[i - 1].setAt + ttl * SECOND)
    && at < h[|h| - 1].setAt + ttl * SECOND
    && (Unix(h[s].stampAt) + ttl) * SECOND <= now
  }

  // The bump that gave the key the stamp it has now.
  function Origin(h: seq<Event>, ttl: nat): (s: nat)
    requires Replay(h, ttl).Some?
    ensures s < |h|
  {
    var init, last := h[..|h| - 1], h[|h| - 1];
    if !last.getFailed && Holds(Replay(init, ttl), last.getAt) then Origin(init, ttl) else |h| - 1
  }

  lemma {:induction false} OriginStamps(h: seq<Event>, ttl: nat)
    requires Replay(h, ttl).Some?
    ensures var s := Origin(h, ttl);
            && (forall i :: s <= i < |h| ==> h[i].Bump?)
            && (forall i :: s < i < |h| ==> !h[i].getFailed && h[i].getAt < h[i - 1].setAt + ttl * SECOND)
            && Replay(h, ttl) == Some(Node(Unix(h[s].stampAt), h[|h| - 1].setAt + ttl * SECOND))
  {
    var init, last := h[..|h| - 1], h[|h| - 1];
    if !last.getFailed && Holds(Replay(init, ttl), last.getAt) {
      OriginStamps(init, ttl);
      assert init[|init| - 1] == h[|h| - 2];
    }
  }

  lemma {:induction false} UnbrokenKeepsOldStamp(h: seq<Event>, ttl: nat, s: nat)
    requires Sequential(h) && s < |h|
    requires forall i :: s <= i < |h| ==> h[i].Bump?
    requires forall i :: s < i < |h| ==> !h[i].getFailed && h[i].getAt < h[i - 1].setAt + ttl * SECOND
    ensures Replay(h, ttl).Some?
    ensures Replay(h, ttl).value.stamp <= Unix(h[s].stampAt)
    ensures Replay(h, ttl).value.expires == h[|h| - 1].setAt + ttl * SECOND
    decreases |h|
  {
    var init, last := h[..|h| - 1], h[|h| - 1];
    if s < |h| - 1 {
      UnbrokenKeepsOldStamp(init, ttl, s);
      assert init[|init| - 1] == h[|h| - 2];
    } else if Replay(init, ttl).Some? {
      OriginStamps(init, ttl);
      var o := Origin(init, ttl);
      assert h[o].End() <= h[s].Start();
      UnixMonotone(h[o].stampAt, h[s].stampAt);
    }
  }

  lemma UnixMonotone(t: nat, u: nat)
    requires t <= u
    ensures Unix(t) <= Unix(u)
  {
  }

  /** The state is judged fresh exactly when bumps have followed one another without a gap of a
      whole time to live, a deletion or a failed read, for at least that long. */
  lemma FreshIffUnbroken(h: seq<Event>, ttl: nat, now: nat, at: nat)
    requires Sequential(h)
    ensures IsFresh(Replay(h, ttl), now, at, ttl) <==> exists s :: UnbrokenFrom(h, ttl, now, at, s)
  {
    if IsFresh(Replay(h, ttl), now, at, ttl) {
      OriginStamps(h, ttl);
      assert UnbrokenFrom(h, ttl, now, at, Origin(h, ttl));
    }
    if s :| UnbrokenFrom(h, ttl, now, at, s) {
      UnbrokenKeepsOldStamp(h, ttl, s);
    }
  }

  // The same operations, except that no read fails.
  function WithoutFailures(h: seq<Event>): (r: seq<Event>)
    ensures |r| == |h|
    ensures forall i :: 0 <= i < |h| ==> r[i] == if h[i].Bump? then h[i].(getFailed := false) else h[i]
  {
    seq(|h|, i requires 0 <= i < |h| => if h[i].Bump? then h[i].(getFailed := false) else h[i])
  }

  lemma SequentialWithoutFailures(h: seq<Event>)
    requires Sequential(h)
    ensures Sequential(WithoutFailures(h))
  {
    var r := WithoutFailures(h);
    forall i, j | 0 <= i < j < |r| ensures r[i].End() <= r[j].Start() {
      assert h[i].End() <= h[j].Start();
    }
  }

  /** A failed read can only delay freshness: what is fresh despite failures would have been fresh
      without them. */
  lemma FailuresOnlyDelay(h: seq<Event>, ttl: nat, now: nat, at: nat)
    requires Sequential(h) && IsFresh(Replay(h, ttl), now, at, ttl)
    ensures IsFresh(Replay(WithoutFailures(h), ttl), now, at, ttl)
  {
    hide Sequential, Replay, IsFresh, Unix;
    FreshIffUnbroken(h, ttl, now, at);
    var s :| UnbrokenFrom(h, ttl, now, at, s);
    var r := WithoutFailures(h);
    SequentialWithoutFailures(h);
    assert UnbrokenFrom(r, ttl, now, at, s);
    FreshIffUnbroken(r, ttl, now, at);
  }

  // A deletion ends every chain.
  lemma RevokedIsBroken(h: seq<Event>, ttl: nat, now: nat, at: nat)
    requires h != [] && h[|h| - 1].Revoke?
    ensures forall s :: !UnbrokenFrom(h, ttl, now, at, s)
  {
  }

  lemma AppendEvent(h: seq<Event>, e: Event, ttl: nat, clock: nat)
    requires Sequential(h) && (forall i :: 0 <= i < |h| ==> h[i].End() <= clock)
    requires e.Ordered() && clock <= e.Start()
    ensures Sequential(h + [e]) && (forall i :: 0 <= i < |h + [e]| ==> (h + [e])[i].End() <= e.End())
    ensures Replay(h + [e], ttl) == Apply(Replay(h, ttl), e, ttl)
  {
    assert (h + [e])[..|h|] == h;
    assert e.Start() <= e.End();
  }

  datatype Verdict = Fresh | NotFresh | ReadFailed

  // What becomes of the requests a caller makes is not up to it. A read of the key takes place at some
  // instant and may fail; a write or a deletion may also take effect and yet be reported as failed.
  datatype Reading = Reading(at: nat, fails: bool)

  datatype Delivery = Confirmed | Unconfirmed | Lost

  datatype BumpRequests = BumpRequests(getAt: nat, getFails: bool, setAt: nat, delivery: Delivery)

  datatype RevokeRequest = RevokeRequest(at: nat, delivery: Delivery)

  class FreshnessStore {
    const ttl: nat
    var node: Option<Node>
    var clock: nat
    ghost var history: seq<Event>

    ghost predicate Valid()
      reads this
    {
      && node == Replay(history, ttl)
      && Sequential(history)
      && (forall i :: 0 <= i < |history| ==> history[i].End() <= clock)
    }

    constructor (ttl: nat)
      ensures Valid() && this.ttl == ttl && history == [] && clock == 0
    {
      this.ttl := ttl;
      node := None;
      clock := 0;
      history := [];
    }

    // An unbroken chain of bumps lies behind the key, and it can be read.
    ghost predicate Passes(now: nat, read: Reading)
      reads this
    {
      !read.fails && exists s :: UnbrokenFrom(history, ttl, now, read.at, s)
    }

    method BumpActualFreshness(timestamp: nat, requests: BumpRequests) returns (ok: bool)
      requires Valid() && clock <= timestamp <= requests.getAt <= requests.setAt
      modifies this
      ensures Valid() && clock == requests.setAt && ok == requests.delivery.Confirmed?
      ensures history == old(history) +
              if requests.delivery.Lost? then []
              else [Bump(timestamp, requests.getAt, requests.getFails, requests.setAt)]
    {
      hide Sequential, Replay;
      var stamp := if !requests.getFails && Holds(node, requests.getAt) then node.value.stamp else Unix(timestamp);
      clock := requests.setAt;
      ok := requests.delivery.Confirmed?;
      if !requests.delivery.Lost? {
        ghost var e := Bump(timestamp, requests.getAt, requests.getFails, requests.setAt);
        AppendEvent(history, e, ttl, old(clock));
        node := Some(Node(stamp, requests.setAt + ttl * SECOND));
        history := history + [e];
      }
    }

    method RevokeActualFreshness(request: RevokeRequest) returns (ok: bool)
      requires Valid() && clock <= request.at
      modifies this
      ensures Valid() && clock == request.at && ok == request.delivery.Confirmed?
      ensures history == old(history) + if request.delivery.Lost? then [] else [Revoke(request.at)]
    {
      hide Sequential, Replay;
      clock := request.at;
      ok := request.delivery.Confirmed?;
      if !request.delivery.Lost? {
        AppendEvent(history, Revoke(request.at), ttl, old(clock));
        node := None;
        history := history + [Revoke(request.at)];
      }
    }

    method IsActualStateFresh(now: nat, read: Reading) returns (verdict: Verdict)
      requires Valid()
      ensures verdict == ReadFailed <==> read.fails
      ensures verdict == Fresh <==> Passes(now, read)
    {
      FreshIffUnbroken(history, ttl, now, read.at);
      if read.fails {
        verdict := ReadFailed;
      } else if !Holds(node, read.at) {
        verdict := NotFresh;
      } else {
        verdict := if now - node.value.stamp * SECOND >= ttl * SECOND then Fresh else NotFresh;
      }
    }

    method VerifyFreshness(now: nat, read: Reading) returns (ok: bool)
      requires Valid()
      ensures ok <==> Passes(now, read)
    {
      var verdict := IsActualStateFresh(now, read);
      ok := verdict == Fresh;
    }
  }
}
