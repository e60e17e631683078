/** The AFK tracker (`AfkTracker.java`): one activity record per player, kept
    up to date by the player's actions.  Full actions (joining, chatting,
    commands, clicks) mark the player active at once; light ones (looking
    around, walking, opening or closing an inventory) add points to a soft
    counter that marks the player active once it passes 15 within a window of
    five seconds.

    Instants are whole milliseconds.  The cached `now` is a field the scheduler
    refreshes; here `Tick` does that. */
module Afk {
  import opened JavaInt
  import opened Geometry

  const SOFT_WINDOW_SECONDS: int := 5
  const SOFT_LIMIT: int := 15
  const TRACK_AMOUNT: int := 1000
  const LOOK_AMOUNT: int := 3
  const COARSE_MOVE_AMOUNT: int := 1
  const INVENTORY_AMOUNT: int := 3

  datatype Player = Player(id: nat)

  datatype ActivityState = ActivityState(lastActive: int, softActive: int, softCount: int)

  /** A new `Activity`: active now, with an empty soft window. */
  function NewActivity(now: int): ActivityState {
    ActivityState(now, now, 0)
  }

  /** `from.until(to, ChronoUnit.SECONDS)`: whole seconds, truncated toward zero. */
  function SecondsBetween(from: int, to: int): int {
    var d := to - from;
    if d >= 0 then d / 1000 else -((-d) / 1000)
  }

  /** The soft window has run out exactly when five full seconds have passed. */
  lemma WindowElapsed(from: int, to: int)
    ensures SecondsBetween(from, to) >= SOFT_WINDOW_SECONDS <==> to - from >= 5000
  {
  }

  /** `softTrack` on one activity: reset a timed-out window, add the points (a
      Java `int` addition), and past the limit mark the player active and start
      a new window. */
  function SoftTrackSpec(s: ActivityState, now: int, amt: int): (r: ActivityState)
    ensures r.lastActive == s.lastActive || r.lastActive == now
    ensures r.softActive == s.softActive || r.softActive == now
    ensures r.lastActive != s.lastActive ==> r == NewActivity(now)
    ensures InInt(r.softCount) && r.softCount <= SOFT_LIMIT
  {
    var windowed := if SecondsBetween(s.softActive, now) >= SOFT_WINDOW_SECONDS
      then s.(softActive := now, softCount := 0) else s;
    var count := Wrap32(windowed.softCount + amt);
    if count > SOFT_LIMIT then ActivityState(now, now, 0)
    else windowed.(softCount := count)
  }

  /** With a count in 0..15 and a non-negative amount below the tracked one,
      the count stays in 0..15: no wrap-around happens. */
  lemma SoftCountBounded(s: ActivityState, now: int, amt: int)
    requires 0 <= s.softCount <= SOFT_LIMIT && 0 <= amt <= TRACK_AMOUNT
    ensures 0 <= SoftTrackSpec(s, now, amt).softCount <= SOFT_LIMIT
  {
  }

  /** `track` always marks the player active now. */
  lemma TrackMarksActive(s: ActivityState, now: int)
    requires 0 <= s.softCount <= SOFT_LIMIT
    ensures SoftTrackSpec(s, now, TRACK_AMOUNT) == NewActivity(now)
  {
  }

  /** Within the window, light actions accumulate without marking the player
      active until they pass the limit. */
  lemma SoftActionsAccumulate(s: ActivityState, now: int, amt: int)
    requires 0 <= s.softCount && 0 <= amt && s.softCount + amt <= SOFT_LIMIT
    requires now - s.softActive < 5000
    ensures SoftTrackSpec(s, now, amt) == s.(softCount := s.softCount + amt)
  {
    WindowElapsed(s.softActive, now);
  }

  /** Once the window has run out, the count starts again from the new amount. */
  lemma SoftWindowResets(s: ActivityState, now: int, amt: int)
    requires 0 <= amt <= SOFT_LIMIT && now - s.softActive >= 5000
    ensures SoftTrackSpec(s, now, amt) == s.(softActive := now, softCount := amt)
  {
    WindowElapsed(s.softActive, now);
  }

  /** `n` times `amt`, built by repeated addition as the repeated actions are. */
  function Times(n: nat, amt: int): int {
    if n == 0 then 0 else Times(n - 1, amt) + amt
  }

  /** A repeated non-negative amount is non-negative. */
  lemma {:induction false} TimesNonNegative(n: nat, amt: int)
    requires 0 <= amt
    ensures 0 <= Times(n, amt)
  {
    if n > 0 {
      TimesNonNegative(n - 1, amt);
    }
  }

  /** Repeated addition is multiplication. */
  lemma {:induction false} TimesIsProduct(n: nat, amt: int)
    ensures Times(n, amt) == n * amt
  {
    if n > 0 {
      TimesIsProduct(n - 1, amt);
      assert n * amt == (n - 1) * amt + amt;
    }
  }

  /** `n` light actions of the same amount within one window add up, as long
      as their total stays within the limit. */
  lemma {:induction false} RepeatAccumulates(s: ActivityState, now: int, amt: int, n: nat)
    requires 0 <= s.softCount && 0 <= amt && s.softCount + Times(n, amt) <= SOFT_LIMIT
    requires now - s.softActive < 5000
    ensures Repeat(s, now, amt, n) == s.(softCount := s.softCount + Times(n, amt))
  {
    if n > 0 {
      var prev := s.(softCount := s.softCount + Times(n - 1, amt));
      assert 0 <= Times(n - 1, amt) by { TimesNonNegative(n - 1, amt); }
      RepeatAccumulates(s, now, amt, n - 1);
      assert Repeat(s, now, amt, n) == SoftTrackSpec(prev, now, amt);
      SoftActionsAccumulate(prev, now, amt);
    }
  }

  /** Six look-moves within one window mark a fresh player active; five do not. */
  lemma LookMovesScenario(t: int)
    ensures var five := Repeat(NewActivity(t), t, LOOK_AMOUNT, 5);
            five.lastActive == t && five.softCount == 15 &&
            SoftTrackSpec(five, t + 4999, LOOK_AMOUNT) == NewActivity(t + 4999)
  {
    RepeatAccumulates(NewActivity(t), t, LOOK_AMOUNT, 5);
    WindowElapsed(t, t + 4999);
  }

  /** `n` soft-tracks of the same amount at the same instant. */
  function Repeat(s: ActivityState, now: int, amt: int, n: nat): ActivityState {
    if n == 0 then s else SoftTrackSpec(Repeat(s, now, amt, n - 1), now, amt)
  }

  /** The state of every tracked player after a soft-track of `p`; a player
      seen for the first time gets a new activity first. */
  function AfterSoftTrack(snap: map<Player, ActivityState>, p: Player, now: int, amt: int)
    : (r: map<Player, ActivityState>)
    ensures r.Keys == snap.Keys + {p}
    ensures forall q | q in snap && q != p :: r[q] == snap[q]
  {
    snap[p := SoftTrackSpec(if p in snap then snap[p] else NewActivity(now), now, amt)]
  }

  /** `onPlayerMove`: a look-move counts only when both yaw and pitch changed. */
  predicate LookMoveCounts(fromYaw: real, fromPitch: real, toYaw: real, toPitch: real) {
    !(fromYaw == toYaw || fromPitch == toPitch)
  }

  /** `onPlayerCoarseMove`: a move that keeps the block column (falling or
      jumping) does not count. */
  predicate CoarseMoveCounts(from: Block, to: Block) {
    !(to.x == from.x && to.z == from.z)
  }

  class Activity {
    var lastActive: int
    var softActive: int
    var softCount: int
    /** The player the activity was created for; only the proofs use it. */
    ghost const owner: Player

    constructor(now: int, ghost owner: Player)
      ensures State() == NewActivity(now) && this.owner == owner
    {
      this.owner := owner;
      lastActive := now;
      softActive := now;
      softCount := 0;
    }

    function State(): ActivityState
      reads this
    {
      ActivityState(lastActive, softActive, softCount)
    }

    /** The body of `softTrack` on this activity. */
    method SoftTrack(now: int, amt: int)
      modifies this
      ensures State() == SoftTrackSpec(old(State()), now, amt)
    {
      if SecondsBetween(softActive, now) >= SOFT_WINDOW_SECONDS {
        softActive := now;
        softCount := 0;
      }
      softCount := Wrap32(softCount + amt);
      if softCount > SOFT_LIMIT {
        softActive := now;
        lastActive := now;
        softCount := 0;
      }
    }

    /** `getAfkDuration`, against the tracker's `now`. */
    function AfkDuration(now: int): (d: int)
      reads this
      ensures lastActive + d == now
    {
      now - lastActive
    }

    function IsAfk(now: int, duration: int): (r: bool)
      reads this
      ensures r <==> now - lastActive >= duration
    {
      AfkDuration(now) >= duration
    }

    function IsActive(now: int, duration: int): (r: bool)
      reads this
      ensures r <==> !IsAfk(now, duration)
    {
      AfkDuration(now) < duration
    }
  }

  class AfkTracker {
    var now: int
    var activityMap: map<Player, Activity>

    /** Each player has an activity of its own (created for that player), and
        every soft count is in 0..15. */
    ghost predicate Valid()
      reads this, activityMap.Values
    {
      forall p | p in activityMap :: activityMap[p].owner == p && 0 <= activityMap[p].softCount <= SOFT_LIMIT
    }

    ghost function Snapshot(): map<Player, ActivityState>
      reads this, activityMap.Values
    {
      map p | p in activityMap :: activityMap[p].State()
    }

    constructor(now: int)
      ensures Valid() && this.now == now && activityMap == map[]
    {
      this.now := now;
      activityMap := map[];
    }

    /** The scheduler's refresh of the cached instant. */
    method Tick(instant: int)
      requires Valid()
      modifies this
      ensures Valid() && now == instant && activityMap == old(activityMap)
      ensures Snapshot() == old(Snapshot())
    {
      now := instant;
    }

    /** `getActivity`: the player's activity, created (once) on first use. */
    method GetActivity(p: Player) returns (a: Activity)
      requires Valid()
      modifies this
      ensures Valid() && now == old(now)
      ensures p in activityMap && a == activityMap[p]
      ensures p in old(activityMap) ==> activityMap == old(activityMap)
      ensures p !in old(activityMap) ==>
        fresh(a) && a.State() == NewActivity(now) && activityMap == old(activityMap)[p := a]
      ensures Snapshot() == old(Snapshot())[p := a.State()]
    {
      if p in activityMap {
        a := activityMap[p];
        assert Snapshot() == old(Snapshot())[p := a.State()];
      } else {
        a := new Activity(now, p);
        activityMap := activityMap[p := a];
      }
    }

    method SoftTrack(p: Player, amt: int)
      requires Valid() && 0 <= amt <= TRACK_AMOUNT
      modifies this, activityMap.Values
      ensures Valid() && now == old(now)
      ensures forall q | q in old(activityMap) :: q in activityMap && activityMap[q] == old(activityMap[q])
      ensures Snapshot() == AfterSoftTrack(old(Snapshot()), p, now, amt)
    {
      ghost var before := Snapshot();
      var a := GetActivity(p);
      ghost var start := a.State();
      assert start == if p in before then before[p] else NewActivity(now);
      ghost var fetched := Snapshot();
      Bump(p, a, amt);
      assert fetched == before[p := start];
      ghost var result := SoftTrackSpec(start, now, amt);
      assert Snapshot() == fetched[p := result];
      assert fetched[p := result] == before[p := result];
      assert AfterSoftTrack(before, p, now, amt) == before[p := result];
    }

    /** The soft-track of a player's existing activity: only that activity's
        state changes. */
    method Bump(p: Player, a: Activity, amt: int)
      requires Valid() && p in activityMap && a == activityMap[p] && 0 <= amt <= TRACK_AMOUNT
      modifies a
      ensures Valid()
      ensures Snapshot() == old(Snapshot())[p := SoftTrackSpec(old(a.State()), now, amt)]
    {
      ghost var before := Snapshot();
      ghost var start := a.State();
      assert forall q | q in activityMap && q != p :: activityMap[q].owner != a.owner;
      a.SoftTrack(now, amt);
      SoftCountBounded(start, now, amt);
      ghost var expected := before[p := SoftTrackSpec(start, now, amt)];
      forall q | q in activityMap
        ensures activityMap[q].State() == expected[q] && 0 <= activityMap[q].softCount <= SOFT_LIMIT
      {
        if q != p {
          assert activityMap[q].State() == before[q];
        }
      }
      assert Snapshot() == expected by {
        assert Snapshot().Keys == expected.Keys;
      }
    }

    method Track(p: Player)
      requires Valid()
      modifies this, activityMap.Values
      ensures Valid() && now == old(now)
      ensures Snapshot() == AfterSoftTrack(old(Snapshot()), p, now, TRACK_AMOUNT)
    {
      SoftTrack(p, TRACK_AMOUNT);
    }

    /** `onPlayerJoin`, `onPlayerChat`, `onCommand` and `onInventoryClick`. */
    method OnFullAction(p: Player)
      requires Valid()
      modifies this, activityMap.Values
      ensures Valid() && now == old(now)
      ensures Snapshot() == AfterSoftTrack(old(Snapshot()), p, now, TRACK_AMOUNT)
    {
      Track(p);
    }

    method OnPlayerMove(p: Player, fromYaw: real, fromPitch: real, toYaw: real, toPitch: real)
      requires Valid()
      modifies this, activityMap.Values
      ensures Valid() && now == old(now)
      ensures Snapshot() == if LookMoveCounts(fromYaw, fromPitch, toYaw, toPitch)
        then AfterSoftTrack(old(Snapshot()), p, now, LOOK_AMOUNT) else old(Snapshot())
    {
      if fromYaw == toYaw || fromPitch == toPitch {
        return;
      }
      SoftTrack(p, LOOK_AMOUNT);
    }

    /** `onPlayerCoarseMove`, registered with `ignoreCancelled`: a move that
        arrives cancelled is not seen. */
    method OnPlayerCoarseMove(p: Player, from: Block, to: Block, cancelled: bool)
      requires Valid()
      modifies this, activityMap.Values
      ensures Valid() && now == old(now)
      ensures Snapshot() == if !cancelled && CoarseMoveCounts(from, to)
        then AfterSoftTrack(old(Snapshot()), p, now, COARSE_MOVE_AMOUNT) else old(Snapshot())
    {
      if cancelled || (to.x == from.x && to.z == from.z) {
        return;
      }
      SoftTrack(p, COARSE_MOVE_AMOUNT);
    }

    /** `onPlayerInteract`: standing on a pressure plate (a physical action)
        does not count. */
    method OnPlayerInteract(p: Player, physical: bool)
      requires Valid()
      modifies this, activityMap.Values
      ensures Valid() && now == old(now)
      ensures Snapshot() == if physical then old(Snapshot())
        else AfterSoftTrack(old(Snapshot()), p, now, TRACK_AMOUNT)
    {
      if physical {
        return;
      }
      Track(p);
    }

    /** `onInventoryOpen` and `onInventoryClose`: only a soft action, and only
        when the viewer is a player. */
    method OnInventoryOpenOrClose(viewer: Player, isPlayer: bool)
      requires Valid()
      modifies this, activityMap.Values
      ensures Valid() && now == old(now)
      ensures Snapshot() == if isPlayer
        then AfterSoftTrack(old(Snapshot()), viewer, now, INVENTORY_AMOUNT) else old(Snapshot())
    {
      if isPlayer {
        SoftTrack(viewer, INVENTORY_AMOUNT);
      }
    }
  }
}
