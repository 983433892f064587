/**
 * The landing page's top-servers carousel (page.tsx): the list loaded once, an `activeIndex`
 * that an interval advances and the arrows and dots move, hover pausing, and the interval
 * handle kept in `intervalRef`.
 */
module Carousel {
  import opened Wrappers
  import opened Text
  import opened Api

  /**
   * What became of the top-servers request. `Threw` also covers the stats request issued
   * before it throwing, which skips it.
   */
  datatype TopServersResponse = Ok(servers: Option<seq<Guild>>) | NotOk | Threw

  // ---------------------------------------------------------------- index arithmetic

  /** `(index + n) % n`, for the indices the arrows and dots pass (never below -n). */
  function Wrap(index: int, n: nat): (r: nat)
    requires n > 0 && index >= -(n as int)
    ensures r < n
    ensures index < 0 ==> r == index + n
    ensures 0 <= index < n ==> r == index
    ensures index == n ==> r == 0
  {
    (index + n) % n
  }

  /** "Previous" from the first slide lands on the last one; "next" from the last lands on the first. */
  lemma WrapEnds(n: nat)
    requires n > 0
    ensures Wrap(0 - 1, n) == n - 1
    ensures Wrap(n - 1 + 1, n) == 0
  {
  }

  /** Ten servers, slide 9, "next": back to slide 0. */
  lemma ScenarioNextFromNine()
    ensures Wrap(9 + 1, 10) == 0
  {
  }

  // ---------------------------------------------------------------- interval handles

  /**
   * The browser's intervals as the page sees them: the handles still running, the one in
   * `intervalRef.current`, the next handle `setInterval` will return, and whether the last
   * run of the auto-advance effect returned a cleanup function.
   */
  datatype Timers = Timers(live: set<nat>, current: Option<nat>, nextId: nat, cleanup: bool)

  /** `if (intervalRef.current) clearInterval(intervalRef.current)` (the ref keeps the stale handle). */
  function ClearCurrent(t: Timers): (r: Timers)
    ensures r.current == t.current && r.nextId == t.nextId && r.cleanup == t.cleanup
    ensures r.live == if t.current.Some? then t.live - {t.current.value} else t.live
  {
    match t.current
    case Some(h) => t.(live := t.live - {h})
    case None => t
  }

  /** `intervalRef.current = setInterval(...)`: a fresh handle starts and is remembered. */
  function Arm(t: Timers): (r: Timers)
    ensures t.nextId !in t.live ==> |r.live| == |t.live| + 1
    ensures r.current == Some(t.nextId) && t.nextId in r.live && r.nextId > t.nextId
    ensures r.live == t.live + {t.nextId} && r.cleanup == t.cleanup
  {
    t.(live := t.live + {t.nextId}, current := Some(t.nextId), nextId := t.nextId + 1)
  }

  /** At most one interval runs, it is the one the ref holds, and every handle was issued. */
  predicate AtMostOneTimer(t: Timers) {
    && (forall h :: h in t.live ==> t.current == Some(h))
    && (forall h :: h in t.live ==> h < t.nextId)
    && (t.current.Some? ==> t.current.value < t.nextId)
  }

  /** `goTo`'s timer handling: clear the current interval and start exactly one new one, paused or not. */
  function GoToTimers(t: Timers): (r: Timers)
    requires AtMostOneTimer(t)
    ensures AtMostOneTimer(r)
    ensures r.current == Some(t.nextId) && r.live == {t.nextId}
    ensures r.cleanup == t.cleanup
  {
    Arm(ClearCurrent(t))
  }

  /**
   * The auto-advance effect as written: the previous run's cleanup (if it returned one) clears
   * the current interval, then an empty list or a paused carousel returns early WITHOUT a cleanup,
   * and otherwise a new interval starts and a cleanup is returned.
   */
  function EffectAsWritten(t: Timers, count: nat, paused: bool): (r: Timers)
    ensures r.cleanup <==> count > 0 && !paused
    ensures !t.cleanup ==> t.live <= r.live
    ensures r.live - {t.nextId} <= t.live
    ensures count == 0 || paused ==> r.live <= t.live
    ensures count > 0 && !paused ==> r.current == Some(t.nextId) && t.nextId in r.live
    ensures t.cleanup && t.current.Some? && t.current.value != t.nextId ==> t.current.value !in r.live
  {
    var t1 := if t.cleanup then ClearCurrent(t) else t;
    if count == 0 || paused then t1.(cleanup := false) else Arm(t1).(cleanup := true)
  }

  /** Unmounting as written: only a returned cleanup runs. */
  function UnmountAsWritten(t: Timers): (r: Timers)
    ensures !t.cleanup ==> r == t
    ensures r.live <= t.live
    ensures t.cleanup && t.current.Some? ==> t.current.value !in r.live
  {
    if t.cleanup then ClearCurrent(t) else t
  }

  /**
   * Hover, click an arrow while hovering, leave: the interval `goTo` started while paused is
   * never cleared, two intervals advance the carousel, and one survives unmounting.
   */
  lemma TimerLeakAsWritten()
    ensures var mounted := EffectAsWritten(Timers({}, None, 0, false), 5, false);
      var hovered := EffectAsWritten(mounted, 5, true);
      var clicked := GoToTimers(hovered);
      var left := EffectAsWritten(clicked, 5, false);
      && AtMostOneTimer(hovered)
      && left.live == {1, 2} && !AtMostOneTimer(left)
      && UnmountAsWritten(left).live == {1}
  {
    var mounted := EffectAsWritten(Timers({}, None, 0, false), 5, false);
    assert mounted == Timers({0}, Some(0), 1, true);
    var hovered := EffectAsWritten(mounted, 5, true);
    assert hovered == Timers({}, Some(0), 1, false);
    var clicked := GoToTimers(hovered);
    assert clicked == Timers({1}, Some(1), 2, false);
    var left := EffectAsWritten(clicked, 5, false);
    assert left == Timers({1, 2}, Some(2), 3, true);
    assert 1 in left.live && left.current != Some(1);
  }

  /**
   * The effect with its cleanup returned on every run (the early return included): the current
   * interval is always cleared first, and a new one starts only for a non-empty, unpaused carousel.
   */
  function EffectFixed(t: Timers, count: nat, paused: bool): (r: Timers)
    requires AtMostOneTimer(t)
    ensures AtMostOneTimer(r) && r.cleanup
    ensures count == 0 || paused ==> r.live == {}
    ensures !(count == 0 || paused) ==> r.live == {t.nextId} && r.current == Some(t.nextId)
  {
    var t1 := ClearCurrent(t).(cleanup := true);
    if count == 0 || paused then t1 else Arm(t1)
  }

  /** Unmounting with the cleanup always returned stops every interval. */
  function UnmountFixed(t: Timers): (r: Timers)
    requires AtMostOneTimer(t)
    ensures r.live == {} && AtMostOneTimer(r)
  {
    ClearCurrent(t)
  }

  /** The same hover, click, leave sequence leaves exactly one interval once the effect is corrected. */
  lemma NoLeakFixed()
    ensures var mounted := EffectFixed(Timers({}, None, 0, false), 5, false);
      var left := EffectFixed(GoToTimers(EffectFixed(mounted, 5, true)), 5, false);
      |left.live| == 1 && UnmountFixed(left).live == {}
  {
  }

  // ---------------------------------------------------------------- rank badges

  datatype RankIcon = Crown | SilverTrophy | BronzeTrophy | Number(rank: nat)

  /** `getRankIcon`: crown, silver and bronze trophies for the first three, then "#rank". */
  function GetRankIcon(i: nat): (r: RankIcon)
    ensures r == Crown <==> i == 0
    ensures r == SilverTrophy <==> i == 1
    ensures r == BronzeTrophy <==> i == 2
    ensures r.Number? <==> i >= 3
    ensures r.Number? ==> r.rank == i + 1
  {
    if i == 0 then Crown else if i == 1 then SilverTrophy else if i == 2 then BronzeTrophy else Number(i + 1)
  }

  /** The badge text beside the icon. */
  function RankLabel(i: nat): (text: string)
    ensures i == 0 ==> text == "Top Server"
    ensures i == 1 ==> text == "2nd Place"
    ensures i == 2 ==> text == "3rd Place"
    ensures i >= 3 ==> text == "Rank #" + NatToString(i + 1) && DecimalValue(text[6..]) == i + 1
  {
    if i == 0 then "Top Server" else if i == 1 then "2nd Place" else if i == 2 then "3rd Place"
    else
      var digits := NatToString(i + 1);
      assert ("Rank #" + digits)[6..] == digits;
      DecimalRoundTrip(i + 1);
      "Rank #" + digits
  }

  /** Every slide carries its own label: two positions share a label only if they are the same. */
  lemma RankLabelInjective(i: nat, j: nat)
    ensures RankLabel(i) == RankLabel(j) <==> i == j
  {
    if i >= 3 && j >= 3 && RankLabel(i) == RankLabel(j) {
      var p := "Rank #";
      assert (p + NatToString(i + 1))[|p|..] == NatToString(i + 1);
      assert (p + NatToString(j + 1))[|p|..] == NatToString(j + 1);
      NatToStringInjective(i + 1, j + 1);
    }
    if i >= 3 {
      assert RankLabel(i)[0] == 'R';
    }
    if j >= 3 {
      assert RankLabel(j)[0] == 'R';
    }
  }

  // ---------------------------------------------------------------- page state

  datatype Showcase = LoadingNetworks | NoNetworkData | Slides(count: nat)

  /** What the showcase area renders. */
  function ShowcaseView(loading: bool, guilds: seq<Guild>): (v: Showcase)
    ensures v.Slides? <==> !loading && |guilds| > 0
    ensures v.Slides? ==> v.count == |guilds|
    ensures v == LoadingNetworks <==> loading
  {
    if loading then LoadingNetworks else if |guilds| == 0 then NoNetworkData else Slides(|guilds|)
  }

  class Carousel {
    var guilds: seq<Guild>
    var loading: bool
    var activeIndex: int
    var isPaused: bool
    var live: set<nat>
    var intervalRef: Option<nat>
    var nextHandle: nat
    var cleanupReturned: bool

    function TimerState(): Timers
      reads this
    {
      Timers(live, intervalRef, nextHandle, cleanupReturned)
    }

    /** The slide index is a slide of the list, and at most one interval advances it. */
    ghost predicate Valid()
      reads this
    {
      && AtMostOneTimer(TimerState())
      && (|guilds| == 0 ==> activeIndex == 0 && live == {})
      && (|guilds| > 0 ==> 0 <= activeIndex < |guilds|)
    }

    /** The first render: nothing loaded, slide 0, not paused, no interval (the mount effect sees an empty list). */
    constructor ()
      ensures Valid()
      ensures guilds == [] && loading && activeIndex == 0 && !isPaused && live == {}
    {
      guilds := [];
      loading := true;
      activeIndex := 0;
      isPaused := false;
      live := {};
      intervalRef := None;
      nextHandle := 0;
      cleanupReturned := true;
    }

    method SetTimerState(t: Timers)
      modifies this`live, this`intervalRef, this`nextHandle, this`cleanupReturned
      ensures TimerState() == t
    {
      live, intervalRef, nextHandle, cleanupReturned := t.live, t.current, t.nextId, t.cleanup;
    }

    /** `loadStats` finishing: `servers || []` on an OK answer (which re-runs the effect); loading ends either way. */
    method Load(r: TopServersResponse)
      requires Valid() && loading && guilds == []
      modifies this
      ensures Valid() && !loading
      ensures guilds == if r.Ok? then r.servers.GetOr([]) else []
      ensures activeIndex == 0 && isPaused == old(isPaused)
      ensures TimerState() == if r.Ok? then EffectFixed(old(TimerState()), |guilds|, isPaused) else old(TimerState())
    {
      if r.Ok? {
        guilds := r.servers.GetOr([]);
        SetTimerState(EffectFixed(TimerState(), |guilds|, isPaused));
      }
      loading := false;
    }

    /** `onMouseEnter` / `onMouseLeave`: a change of `isPaused` re-runs the effect; no change, no re-run. */
    method SetPaused(p: bool)
      requires Valid()
      modifies this`isPaused, this`live, this`intervalRef, this`nextHandle, this`cleanupReturned
      ensures Valid() && isPaused == p
      ensures TimerState() == if p != old(isPaused) then EffectFixed(old(TimerState()), |guilds|, p) else old(TimerState())
      ensures p && p != old(isPaused) ==> live == {}
    {
      if p != isPaused {
        isPaused := p;
        SetTimerState(EffectFixed(TimerState(), |guilds|, p));
      }
    }

    /** `goTo(index)`: jump to `index` modulo the list length and restart the interval. */
    method GoTo(index: int)
      requires Valid() && |guilds| > 0 && index >= -|guilds|
      modifies this`activeIndex, this`live, this`intervalRef, this`nextHandle, this`cleanupReturned
      ensures Valid()
      ensures activeIndex == Wrap(index, |guilds|)
      ensures TimerState() == GoToTimers(old(TimerState()))
    {
      activeIndex := (index + |guilds|) % |guilds|;
      SetTimerState(GoToTimers(TimerState()));
    }

    /** The left arrow. */
    method Previous()
      requires Valid() && |guilds| > 0
      modifies this`activeIndex, this`live, this`intervalRef, this`nextHandle, this`cleanupReturned
      ensures Valid()
      ensures activeIndex == if old(activeIndex) == 0 then |guilds| - 1 else old(activeIndex) - 1
      ensures TimerState() == GoToTimers(old(TimerState()))
    {
      GoTo(activeIndex - 1);
    }

    /** The right arrow. */
    method Next()
      requires Valid() && |guilds| > 0
      modifies this`activeIndex, this`live, this`intervalRef, this`nextHandle, this`cleanupReturned
      ensures Valid()
      ensures activeIndex == if old(activeIndex) == |guilds| - 1 then 0 else old(activeIndex) + 1
      ensures TimerState() == GoToTimers(old(TimerState()))
    {
      GoTo(activeIndex + 1);
    }

    /** One firing of the running interval `h`: advance one slide, wrapping at the end. */
    method Tick(h: nat)
      requires Valid() && h in live
      modifies this`activeIndex
      ensures Valid()
      ensures |guilds| > 0 && activeIndex == (old(activeIndex) + 1) % |guilds|
      ensures activeIndex == if old(activeIndex) == |guilds| - 1 then 0 else old(activeIndex) + 1
    {
      activeIndex := (activeIndex + 1) % |guilds|;
    }

    /** Navigating away: the cleanup stops every interval. */
    method Teardown()
      requires Valid()
      modifies this`live, this`intervalRef, this`nextHandle, this`cleanupReturned
      ensures live == {} && TimerState() == UnmountFixed(old(TimerState()))
    {
      SetTimerState(UnmountFixed(TimerState()));
    }
  }
}
