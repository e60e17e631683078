/** The region-rule dispatcher (`RegionMatchModule.java`): every region filter
    application (a rule) names a region, a scope, an optional filter and a
    message; each event handler walks the rules that concern it, queries their
    filters, and lets the decisive ones cancel or un-cancel the event.

    Filters are evaluated by an uninterpreted oracle passed to each handler.
    Regions are the region model of `Regions`; a region "contains" a block
    state when it contains the state's block position.  `Region.enters` and
    `Region.exits` are taken to be "not in `from` and in `to`" and its
    inverse. */
module RegionMatch {
  import opened Wrappers
  import opened Geometry
  import Regions

  // ---------------------------------------------------------------------------
  // Rules, queries and events

  datatype Scope =
    | PlayerEnter | PlayerLeave | BlockPlace | BlockPlaceAgainst | BlockBreak
    | BlockPhysics | Use | Effect

  /** The tri-state answer of a filter. */
  datatype Response = Allow | Deny | Abstain

  datatype Filter = Filter(id: nat)

  /** A velocity, set on a player as it is. */
  datatype Vector = Vector(x: real, y: real, z: real)

  /** A region filter application. */
  datatype Rfa = Rfa(
    region: Regions.Region,
    scope: Scope,
    filter: Option<Filter>,
    message: Option<string>,
    useRegionPriority: bool,
    earlyWarning: bool,
    velocity: Option<Vector>,
    kit: Option<nat>,
    lendKit: bool)

  /** A match player: its identity and whether it may interact (a participant). */
  datatype Player = Player(id: nat, canInteract: bool)

  /** A block state: where the block is and what it is. */
  datatype BlockState = BlockState(pos: Block, material: nat)

  /** The query a filter is asked: about a player, about a block (with the
      acting player if any), or about a player acting on a block. */
  datatype Query =
    | PlayerQuery(player: nat)
    | BlockQuery(actor: Option<nat>, state: BlockState)
    | PlayerBlockQuery(player: nat, state: BlockState)

  /** How far the event object of a query can be changed: not at all, through
      `Cancellable`, through `GeneralizedEvent` (which also carries a message),
      or as a `PlayerInteractEvent` (cancellable, with its two use results). */
  datatype EventKind = NotCancellable | Cancellable | Generalized | PlayerInteract

  predicate IsCancellable(kind: EventKind) {
    kind != NotCancellable
  }

  /** `Event.Result` of a `PlayerInteractEvent`. */
  datatype UseResult = UseDeny | UseDefault | UseAllow

  /** The changeable part of an event.  The `cancelled` flag is the state of a
      plain cancellable event; a `PlayerInteractEvent` has no flag of its own,
      its cancellation being its block-use result (see `Cancelled`). */
  datatype EventState = EventState(
    cancelled: bool,
    message: Option<string>,
    useItem: UseResult,
    useBlock: UseResult)

  /** `isCancelled()`: for a `PlayerInteractEvent`, whether using the clicked
      block is denied; for the other cancellable events, the flag. */
  predicate Cancelled(kind: EventKind, st: EventState) {
    if kind == PlayerInteract then st.useBlock == UseDeny
    else IsCancellable(kind) && st.cancelled
  }

  /** A denied use result that an un-cancelling interaction resets. */
  function Undeny(u: UseResult): (v: UseResult)
    ensures v != UseDeny
    ensures u != UseDeny ==> v == u
  {
    if u == UseDeny then UseDefault else u
  }

  /** `setCancelled(c)`: a `PlayerInteractEvent` denies both uses, or resets a
      denied one to the default; another cancellable event sets its flag. */
  function WithCancelled(kind: EventKind, st: EventState, c: bool): (s: EventState)
    ensures IsCancellable(kind) ==> Cancelled(kind, s) == c
    ensures !IsCancellable(kind) ==> s == st
    ensures s.message == st.message
    ensures kind != PlayerInteract ==> s.useItem == st.useItem && s.useBlock == st.useBlock
    ensures kind == PlayerInteract ==> s.cancelled == st.cancelled
    ensures kind == PlayerInteract && c ==> s.useItem == UseDeny && s.useBlock == UseDeny
    ensures kind == PlayerInteract && !c ==> s.useItem != UseDeny && s.useBlock != UseDeny
    ensures kind == PlayerInteract && !c && st.useItem != UseDeny ==> s.useItem == st.useItem
    ensures kind == PlayerInteract && !c && st.useBlock != UseDeny ==> s.useBlock == st.useBlock
  {
    if kind == PlayerInteract then
      st.(useItem := if c then UseDeny else Undeny(st.useItem),
          useBlock := if c then UseDeny else Undeny(st.useBlock))
    else if IsCancellable(kind) then st.(cancelled := c)
    else st
  }

  /** The event a handler receives; its kind is fixed, its state is changed by
      the rules. */
  class Event {
    const kind: EventKind
    var cancelled: bool
    var message: Option<string>
    var useItem: UseResult
    var useBlock: UseResult

    function State(): EventState
      reads this
    {
      EventState(cancelled, message, useItem, useBlock)
    }

    /** `isCancelled()`. */
    predicate IsCancelled()
      reads this
    {
      Cancelled(kind, State())
    }

    constructor(kind: EventKind, st: EventState)
      ensures this.kind == kind && State() == st
    {
      this.kind := kind;
      cancelled := st.cancelled;
      message := st.message;
      useItem := st.useItem;
      useBlock := st.useBlock;
    }

    /** `setCancelled(c)` of a cancellable event. */
    method SetCancelled(c: bool)
      requires IsCancellable(kind)
      modifies this
      ensures State() == WithCancelled(kind, old(State()), c)
    {
      if kind == PlayerInteract {
        useItem := if c then UseDeny else Undeny(useItem);
        useBlock := if c then UseDeny else Undeny(useBlock);
      } else {
        cancelled := c;
      }
    }
  }

  // ---------------------------------------------------------------------------
  // processQuery

  /** The rule's filter has a definite answer for the query. */
  predicate Decides(r: Rfa, q: Query, oracle: (Filter, Query) -> Response) {
    r.filter.Some? && oracle(r.filter.value, q) != Abstain
  }

  datatype Step = Step(state: EventState, decisive: bool)

  /** What `processQuery` does to the event, and whether the rule decided. */
  function Decide(kind: EventKind, r: Rfa, q: Query, oracle: (Filter, Query) -> Response,
                  st: EventState): (s: Step)
    ensures s.decisive == Decides(r, q, oracle)
    ensures !s.decisive ==> s.state == st
    ensures !IsCancellable(kind) ==> s.state == st
    ensures s.decisive && oracle(r.filter.value, q) == Allow && IsCancellable(kind) ==>
      !Cancelled(kind, s.state) && s.state.message == st.message
    ensures s.decisive && oracle(r.filter.value, q) == Deny && IsCancellable(kind) ==>
      Cancelled(kind, s.state)
    ensures s.decisive && oracle(r.filter.value, q) == Deny ==>
      s.state.message == (if kind == Generalized then r.message else st.message)
    ensures kind != PlayerInteract ==> s.state.useItem == st.useItem && s.state.useBlock == st.useBlock
    ensures kind == PlayerInteract && s.decisive ==>
      (s.state.useItem == UseDeny <==> oracle(r.filter.value, q) == Deny)
  {
    if r.filter.None? then Step(st, false)
    else
      match oracle(r.filter.value, q)
      case Allow => Step(WithCancelled(kind, st, false), true)
      case Deny =>
        if kind == Generalized then Step(WithCancelled(kind, st, true).(message := r.message), true)
        else Step(WithCancelled(kind, st, true), true)
      case Abstain => Step(st, false)
  }

  /** `processQuery`. */
  method ProcessQuery(ev: Event, r: Rfa, q: Query, oracle: (Filter, Query) -> Response)
    returns (decided: bool)
    modifies ev
    ensures ev.State() == Decide(ev.kind, r, q, oracle, old(ev.State())).state
    ensures decided == Decide(ev.kind, r, q, oracle, old(ev.State())).decisive
  {
    if r.filter.None? {
      return false;
    }
    match oracle(r.filter.value, q)
    case Allow =>
      if IsCancellable(ev.kind) {
        ev.SetCancelled(false);
      }
      return true;
    case Deny =>
      if ev.kind == Generalized {
        ev.SetCancelled(true);
        ev.message := r.message;
      } else if IsCancellable(ev.kind) {
        ev.SetCancelled(true);
      }
      return true;
    case Abstain =>
      return false;
  }

  // ---------------------------------------------------------------------------
  // What a handler does after a decisive rule

  /** `sendCancelMessage`: the warning owed to the querying player when the
      rule has a message and the event ended up cancelled. */
  function CancelMessage(r: Rfa, q: Query, kind: EventKind, st: EventState): (m: Option<string>)
    ensures m.Some? <==> (r.message.Some? && Cancelled(kind, st) && !q.BlockQuery?)
    ensures m.Some? ==> m == r.message
  {
    if r.message.Some? && Cancelled(kind, st) && !q.BlockQuery? then r.message
    else None
  }

  datatype Hook =
    | NoHook
      /** `checkBlockDamage`: warn when the event is left cancelled. */
    | WarnIfCancelled
      /** `handleUse`: a cancelled interaction is turned into "use the item, not
          the block", with a warning. */
    | UseReversal
      /** `handleHangingPlace` / `handleHangingBreak`: `sendCancelMessage`. */
    | SendCancelMessage

  datatype Outcome = Outcome(state: EventState, warnings: seq<string>)

  function AsSeq(m: Option<string>): seq<string> {
    if m.Some? then [m.value] else []
  }

  /** The warning a follow-up owes, if any: the rule's message, under the
      hook's own condition on the event left by `processQuery`. */
  predicate OwesWarning(hook: Hook, kind: EventKind, r: Rfa, q: Query, st: EventState) {
    match hook
    case NoHook => false
    case WarnIfCancelled => r.message.Some? && Cancelled(kind, st)
    case UseReversal => r.message.Some? && kind == PlayerInteract && Cancelled(kind, st)
    case SendCancelMessage => CancelMessage(r, q, kind, st).Some?
  }

  /** The follow-up after a decisive rule.  Use reversal calls `setCancelled(false)`
      and then allows the item and denies the block, so a reversed interaction
      is still cancelled in Bukkit's sense: only the use of the item in hand
      goes ahead. */
  function AfterDecision(hook: Hook, kind: EventKind, r: Rfa, q: Query, st: EventState): (o: Outcome)
    ensures hook != UseReversal ==> o.state == st
    ensures hook == UseReversal && kind == PlayerInteract && Cancelled(kind, st) ==>
      o.state == st.(useItem := UseAllow, useBlock := UseDeny) && Cancelled(kind, o.state)
    ensures hook == UseReversal && !(kind == PlayerInteract && Cancelled(kind, st)) ==> o.state == st
    ensures Cancelled(kind, o.state) == Cancelled(kind, st)
    ensures o.warnings != [] <==> OwesWarning(hook, kind, r, q, st)
    ensures o.warnings != [] ==> r.message.Some? && o.warnings == [r.message.value]
  {
    match hook
    case NoHook => Outcome(st, [])
    case WarnIfCancelled => Outcome(st, if Cancelled(kind, st) then AsSeq(r.message) else [])
    case UseReversal =>
      if kind == PlayerInteract && Cancelled(kind, st) then
        var un := WithCancelled(kind, st, false);
        Outcome(un.(useItem := UseAllow, useBlock := UseDeny), AsSeq(r.message))
      else Outcome(st, [])
    case SendCancelMessage => Outcome(st, AsSeq(CancelMessage(r, q, kind, st)))
  }

  /** A decisive rule's effect: `processQuery`, then the handler's follow-up. */
  function Conclude(hook: Hook, kind: EventKind, r: Rfa, q: Query,
                    oracle: (Filter, Query) -> Response, acc: Outcome): Outcome
  {
    var h := AfterDecision(hook, kind, r, q, Decide(kind, r, q, oracle, acc.state).state);
    Outcome(h.state, acc.warnings + h.warnings)
  }

  // ---------------------------------------------------------------------------
  // Which rules a handler consults

  /** The per-handler test of whether a rule applies, and the query it is then
      asked. */
  datatype Selector =
      /** Priority enter/leave: both scopes in one pass. */
    | EnterOrLeave(from: Option<Block>, to: Block, q: Query)
    | Entering(from: Option<Block>, to: Block, q: Query)
    | Leaving(from: Option<Block>, to: Block, q: Query)
      /** Priority block transform: break, place and place-against in one pass. */
    | TransformAny(t: Transform, actor: Option<nat>)
      /** The rule's region contains the block. */
    | At(pos: Block, q: Query)
      /** `checkBlockDamage`: an early-warning rule whose region contains the block. */
    | EarlyWarningAt(pos: Block, q: Query)

  /** A block transform: whether it places and whether it breaks, the old and
      new states, and the block placed against (the clicked block of a bucket
      emptying), if any. */
  datatype Transform = Transform(
    isPlace: bool, isBreak: bool,
    oldState: BlockState, newState: BlockState,
    against: Option<BlockState>,
    causeIsExplosion: bool,
    playerState: Option<nat>)

  predicate EnterApplies(region: Regions.Region, from: Option<Block>, to: Block) {
    (from.None? || !Regions.Contains(region, from.value)) && Regions.Contains(region, to)
  }

  predicate LeaveApplies(region: Regions.Region, from: Option<Block>, to: Block) {
    (from.None? || Regions.Contains(region, from.value)) && !Regions.Contains(region, to)
  }

  function Select(sel: Selector, r: Rfa): Option<Query> {
    match sel
    case EnterOrLeave(from, to, q) =>
      if (r.scope == PlayerEnter && EnterApplies(r.region, from, to)) ||
         (r.scope == PlayerLeave && LeaveApplies(r.region, from, to))
      then Some(q) else None
    case Entering(from, to, q) => if EnterApplies(r.region, from, to) then Some(q) else None
    case Leaving(from, to, q) => if LeaveApplies(r.region, from, to) then Some(q) else None
    case TransformAny(t, actor) =>
      (match r.scope
      case BlockBreak =>
        if t.isBreak && Regions.Contains(r.region, t.oldState.pos)
        then Some(BlockQuery(actor, t.oldState)) else None
      case BlockPlace =>
        if t.isPlace && Regions.Contains(r.region, t.newState.pos)
        then Some(BlockQuery(actor, t.newState)) else None
      case BlockPlaceAgainst =>
        if t.against.Some? && Regions.Contains(r.region, t.against.value.pos)
        then Some(BlockQuery(actor, t.against.value)) else None
      case _ => None)
    case At(pos, q) => if Regions.Contains(r.region, pos) then Some(q) else None
    case EarlyWarningAt(pos, q) =>
      if r.earlyWarning && Regions.Contains(r.region, pos) then Some(q) else None
  }

  /** The rule is consulted and decides. */
  predicate Decisive(sel: Selector, oracle: (Filter, Query) -> Response, r: Rfa) {
    Select(sel, r).Some? && Decides(r, Select(sel, r).value, oracle)
  }

  /** One handler loop over `rs`, in order: each applicable rule is queried; a
      decisive one ends the loop when every decision halts (`haltAll`) or when
      the rule itself is priority-aware. */
  function Pass(rs: seq<Rfa>, sel: Selector, haltAll: bool, hook: Hook, kind: EventKind,
                oracle: (Filter, Query) -> Response, acc: Outcome): Outcome
    decreases |rs|
  {
    if |rs| == 0 then acc
    else
      match Select(sel, rs[0])
      case None => Pass(rs[1..], sel, haltAll, hook, kind, oracle, acc)
      case Some(q) =>
        if !Decide(kind, rs[0], q, oracle, acc.state).decisive then
          Pass(rs[1..], sel, haltAll, hook, kind, oracle, acc)
        else
          var next := Conclude(hook, kind, rs[0], q, oracle, acc);
          if haltAll || rs[0].useRegionPriority then next
          else Pass(rs[1..], sel, haltAll, hook, kind, oracle, next)
  }

  /** The loop every handler runs, proved against `Pass`. */
  method RunRules(ev: Event, rs: seq<Rfa>, sel: Selector, haltAll: bool, hook: Hook,
                  oracle: (Filter, Query) -> Response)
    returns (warnings: seq<string>)
    modifies ev
    ensures Outcome(ev.State(), warnings) ==
      Pass(rs, sel, haltAll, hook, ev.kind, oracle, Outcome(old(ev.State()), []))
  {
    warnings := [];
    var i := 0;
    while i < |rs|
      invariant 0 <= i <= |rs|
      invariant Pass(rs[i..], sel, haltAll, hook, ev.kind, oracle, Outcome(ev.State(), warnings)) ==
        Pass(rs, sel, haltAll, hook, ev.kind, oracle, Outcome(old(ev.State()), []))
    {
      var r := rs[i];
      assert rs[i..][0] == r && rs[i..][1..] == rs[i + 1..];
      var q := Select(sel, r);
      if q.Some? {
        ghost var before := Outcome(ev.State(), warnings);
        var decided := ProcessQuery(ev, r, q.value, oracle);
        if decided {
          var w := FollowUp(ev, hook, r, q.value);
          warnings := warnings + w;
          assert Outcome(ev.State(), warnings) == Conclude(hook, ev.kind, r, q.value, oracle, before);
          if haltAll || r.useRegionPriority {
            return;
          }
        }
      }
      i := i + 1;
    }
  }

  /** The handler's follow-up after a decisive rule (`AfterDecision`). */
  method FollowUp(ev: Event, hook: Hook, r: Rfa, q: Query) returns (warnings: seq<string>)
    modifies ev
    ensures Outcome(ev.State(), warnings) == AfterDecision(hook, ev.kind, r, q, old(ev.State()))
  {
    warnings := [];
    match hook
    case NoHook =>
    case WarnIfCancelled =>
      if ev.IsCancelled() && r.message.Some? {
        warnings := [r.message.value];
      }
    case UseReversal =>
      if ev.kind == PlayerInteract && ev.IsCancelled() {
        ev.SetCancelled(false);
        ev.useItem := UseAllow;
        ev.useBlock := UseDeny;
        if r.message.Some? {
          warnings := [r.message.value];
        }
      }
    case SendCancelMessage =>
      if r.message.Some? && ev.IsCancelled() && !q.BlockQuery? {
        warnings := [r.message.value];
      }
  }

  /** Without a follow-up, a pass adds no warnings. */
  lemma {:induction false} NoHookKeepsWarnings(rs: seq<Rfa>, sel: Selector, haltAll: bool, kind: EventKind,
                                               oracle: (Filter, Query) -> Response, acc: Outcome)
    ensures Pass(rs, sel, haltAll, NoHook, kind, oracle, acc).warnings == acc.warnings
    decreases |rs|
  {
    if |rs| > 0 {
      NoHookKeepsWarnings(rs[1..], sel, haltAll, kind, oracle, acc);
      match Select(sel, rs[0])
      case None =>
      case Some(q) =>
        var next := Conclude(NoHook, kind, rs[0], q, oracle, acc);
        assert next.warnings == acc.warnings;
        NoHookKeepsWarnings(rs[1..], sel, haltAll, kind, oracle, next);
    }
  }

  /** `rfaContext.get(scope)`: the rules of one scope, in their overall order. */
  function ByScope(rs: seq<Rfa>, s: Scope): (out: seq<Rfa>)
    ensures forall r :: r in out <==> r in rs && r.scope == s
    ensures |out| <= |rs|
    ensures (forall i | 0 <= i < |rs| :: rs[i].scope == s) ==> out == rs
    ensures (forall i | 0 <= i < |rs| :: rs[i].scope != s) ==> out == []
  {
    if |rs| == 0 then []
    else (if rs[0].scope == s then [rs[0]] else []) + ByScope(rs[1..], s)
  }

  /** Selecting a scope commutes with concatenation: together with the
      all-or-none cases of `ByScope`, the selected rules keep their overall
      order, which `Pass` depends on. */
  lemma {:induction false} ByScopeAppend(a: seq<Rfa>, b: seq<Rfa>, s: Scope)
    ensures ByScope(a + b, s) == ByScope(a, s) + ByScope(b, s)
  {
    if |a| > 0 {
      assert (a + b)[0] == a[0];
      assert (a + b)[1..] == a[1..] + b;
      ByScopeAppend(a[1..], b, s);
    } else {
      assert a + b == b;
    }
  }

  // ---------------------------------------------------------------------------
  // Handler specifications

  function CanInteract(p: Option<Player>): bool {
    p.Some? && p.value.canInteract
  }

  /** `checkEnterLeave(event, player, from, to)`. */
  function EnterLeaveOutcome(rs: seq<Rfa>, priority: bool, player: Option<Player>,
                      from: Option<Block>, to: Block, kind: EventKind,
                      oracle: (Filter, Query) -> Response, st: EventState): EventState
  {
    if !CanInteract(player) then st
    else
      var q := PlayerQuery(player.value.id);
      if priority then
        Pass(rs, EnterOrLeave(from, to, q), true, NoHook, kind, oracle, Outcome(st, [])).state
      else
        var entered := Pass(ByScope(rs, PlayerEnter), Entering(from, to, q), false, NoHook, kind, oracle,
                            Outcome(st, []));
        Pass(ByScope(rs, PlayerLeave), Leaving(from, to, q), false, NoHook, kind, oracle, entered).state
  }

  /** `getActor`: legacy maps blame explosions on the world. */
  function GetActor(tntOwnedByWorld: bool, causeIsExplosion: bool, playerState: Option<nat>): (a: Option<nat>)
    ensures tntOwnedByWorld && causeIsExplosion ==> a.None?
    ensures !(tntOwnedByWorld && causeIsExplosion) ==> a == playerState
  {
    if tntOwnedByWorld && causeIsExplosion then None else playerState
  }

  /** `checkBlockTransform`. */
  function TransformOutcome(rs: seq<Rfa>, priority: bool, tntOwnedByWorld: bool, t: Transform,
                          kind: EventKind, oracle: (Filter, Query) -> Response,
                          st: EventState): EventState
  {
    var actor := GetActor(tntOwnedByWorld, t.causeIsExplosion, t.playerState);
    if priority then
      Pass(rs, TransformAny(t, actor), true, NoHook, kind, oracle, Outcome(st, [])).state
    else if t.isPlace then
      Pass(ByScope(rs, BlockPlace), At(t.newState.pos, BlockQuery(actor, t.newState)),
           false, NoHook, kind, oracle, Outcome(st, [])).state
    else
      Pass(ByScope(rs, BlockBreak), At(t.newState.pos, BlockQuery(actor, t.oldState)),
           false, NoHook, kind, oracle, Outcome(st, [])).state
  }

  /** `checkBlockPhysics`: the first decisive physics rule settles it. */
  function PhysicsOutcome(rs: seq<Rfa>, block: BlockState, kind: EventKind,
                        oracle: (Filter, Query) -> Response, st: EventState): EventState
  {
    Pass(ByScope(rs, BlockPhysics), At(block.pos, BlockQuery(None, block)), true, NoHook,
         kind, oracle, Outcome(st, [])).state
  }

  /** `checkBlockDamage`: early-warning break rules, for participants only. */
  function DamageOutcome(rs: seq<Rfa>, priority: bool, participant: Option<Player>, block: BlockState,
                       kind: EventKind, oracle: (Filter, Query) -> Response, st: EventState): Outcome
  {
    if participant.None? then Outcome(st, [])
    else
      Pass(ByScope(rs, BlockBreak), EarlyWarningAt(block.pos, PlayerBlockQuery(participant.value.id, block)),
           priority, WarnIfCancelled, kind, oracle, Outcome(st, []))
  }

  /** The block state a query is about, with `withMaterial` applied. */
  function WithMaterial(block: BlockState, material: Option<nat>): BlockState {
    if material.Some? then block.(material := material.value) else block
  }

  /** `handleUse`. */
  function UseOutcome(rs: seq<Rfa>, priority: bool, block: BlockState, material: Option<nat>,
                     player: Option<Player>, kind: EventKind,
                     oracle: (Filter, Query) -> Response, st: EventState): Outcome
  {
    if !CanInteract(player) then Outcome(st, [])
    else
      Pass(ByScope(rs, Use), At(block.pos, PlayerBlockQuery(player.value.id, WithMaterial(block, material))),
           priority, UseReversal, kind, oracle, Outcome(st, []))
  }

  /** `makeBlockQuery`: a player query for an interacting player, otherwise a
      block query with no actor. */
  function MakeBlockQuery(entity: Option<Player>, block: BlockState, material: Option<nat>): (q: Query)
    ensures CanInteract(entity) <==> q.PlayerBlockQuery?
    ensures q.PlayerBlockQuery? ==> q.player == entity.value.id
    ensures q.BlockQuery? ==> q.actor.None?
    ensures !q.PlayerQuery? && q.state == WithMaterial(block, material)
  {
    if CanInteract(entity) then PlayerBlockQuery(entity.value.id, WithMaterial(block, material))
    else BlockQuery(None, WithMaterial(block, material))
  }

  /** `handleHangingPlace`. */
  function HangingPlaceOutcome(rs: seq<Rfa>, priority: bool, block: BlockState, material: Option<nat>,
                        placer: Option<Player>, kind: EventKind,
                        oracle: (Filter, Query) -> Response, st: EventState): Outcome
  {
    Pass(ByScope(rs, BlockPlace), At(block.pos, MakeBlockQuery(placer, block, material)),
         priority, SendCancelMessage, kind, oracle, Outcome(st, []))
  }

  /** `handleHangingBreak`: the block queried is the one the breaker stands in. */
  function HangingBreakOutcome(rs: seq<Rfa>, priority: bool, material: Option<nat>,
                        breakerBlock: BlockState, breaker: Option<Player>, kind: EventKind,
                        oracle: (Filter, Query) -> Response, st: EventState): Outcome
  {
    if material.None? then Outcome(st, [])
    else
      Pass(ByScope(rs, BlockBreak), At(breakerBlock.pos, MakeBlockQuery(breaker, breakerBlock, material)),
           priority, SendCancelMessage, kind, oracle, Outcome(st, []))
  }

  // ---------------------------------------------------------------------------
  // Effects

  datatype EffectAction =
    | SetVelocity(velocity: Vector)
    | ApplyKit(kit: nat)
    | RemoveKit(kit: nat)

  predicate Enters(region: Regions.Region, from: Block, to: Block) {
    !Regions.Contains(region, from) && Regions.Contains(region, to)
  }

  predicate Exits(region: Regions.Region, from: Block, to: Block) {
    Regions.Contains(region, from) && !Regions.Contains(region, to)
  }

  /** The effects one rule fires for a move. */
  function RuleEffects(r: Rfa, player: Player, from: Block, to: Block,
                       oracle: (Filter, Query) -> Response): seq<EffectAction>
  {
    if r.velocity.None? && r.kit.None? then []
    else
      var enters := Enters(r.region, from, to);
      var exits := Exits(r.region, from, to);
      if !enters && !exits then []
      else if player.canInteract && r.filter.Some? &&
              oracle(r.filter.value, PlayerQuery(player.id)) == Deny then []
      else
        (if enters && r.velocity.Some? then [SetVelocity(r.velocity.value)] else []) +
        (if r.kit.Some? && player.canInteract then
           (if enters then [ApplyKit(r.kit.value)] else []) +
           (if exits && r.lendKit then [RemoveKit(r.kit.value)] else [])
         else [])
  }

  /** `applyEffects` over the effect rules, in order. */
  function Effects(rs: seq<Rfa>, player: Player, from: Block, to: Block,
                   oracle: (Filter, Query) -> Response): seq<EffectAction>
  {
    if |rs| == 0 then []
    else RuleEffects(rs[0], player, from, to, oracle) + Effects(rs[1..], player, from, to, oracle)
  }

  /** The body of the `applyEffects` loop for one rule. */
  method FireRule(r: Rfa, p: Player, from: Block, to: Block, oracle: (Filter, Query) -> Response)
    returns (effects: seq<EffectAction>)
    ensures effects == RuleEffects(r, p, from, to, oracle)
  {
    effects := [];
    if r.velocity.None? && r.kit.None? {
      return;
    }
    var enters := Enters(r.region, from, to);
    var exits := Exits(r.region, from, to);
    if !enters && !exits {
      return;
    }
    if !p.canInteract || r.filter.None? || oracle(r.filter.value, PlayerQuery(p.id)) != Deny {
      if enters && r.velocity.Some? {
        effects := effects + [SetVelocity(r.velocity.value)];
      }
      if r.kit.Some? && p.canInteract {
        if enters {
          effects := effects + [ApplyKit(r.kit.value)];
        }
        if exits && r.lendKit {
          effects := effects + [RemoveKit(r.kit.value)];
        }
      }
    }
  }

  // ---------------------------------------------------------------------------
  // Properties of the passes

  /** The first rule of `rs` that is consulted and decides, if any. */
  function FirstDecisive(rs: seq<Rfa>, sel: Selector, oracle: (Filter, Query) -> Response): (k: Option<nat>)
    ensures k.Some? ==> k.value < |rs| && Decisive(sel, oracle, rs[k.value])
    ensures k.Some? ==> forall j | 0 <= j < k.value :: !Decisive(sel, oracle, rs[j])
    ensures k.None? ==> forall j | 0 <= j < |rs| :: !Decisive(sel, oracle, rs[j])
  {
    if |rs| == 0 then None
    else if Decisive(sel, oracle, rs[0]) then Some(0)
    else
      match FirstDecisive(rs[1..], sel, oracle)
      case None => None
      case Some(k) => Some(k + 1)
  }

  /** The last rule of `rs` that is consulted and decides, if any. */
  function LastDecisive(rs: seq<Rfa>, sel: Selector, oracle: (Filter, Query) -> Response): (k: Option<nat>)
    ensures k.Some? ==> k.value < |rs| && Decisive(sel, oracle, rs[k.value])
    ensures k.Some? ==> forall j | k.value < j < |rs| :: !Decisive(sel, oracle, rs[j])
    ensures k.None? ==> forall j | 0 <= j < |rs| :: !Decisive(sel, oracle, rs[j])
  {
    if |rs| == 0 then None
    else if Decisive(sel, oracle, rs[|rs| - 1]) then Some(|rs| - 1)
    else LastDecisive(rs[..|rs| - 1], sel, oracle)
  }

  /** The last decisive rule is the decisive rule with no decisive rule after it. */
  lemma LastDecisiveUnique(rs: seq<Rfa>, sel: Selector, oracle: (Filter, Query) -> Response, k: nat)
    requires k < |rs| && Decisive(sel, oracle, rs[k])
    requires forall j | k < j < |rs| :: !Decisive(sel, oracle, rs[j])
    ensures LastDecisive(rs, sel, oracle) == Some(k)
  {
  }

  /** The answer the filter of a consulted rule gives. */
  function Answer(sel: Selector, oracle: (Filter, Query) -> Response, r: Rfa): Response
    requires Decisive(sel, oracle, r)
  {
    oracle(r.filter.value, Select(sel, r).value)
  }

  /** One step of a pass, in terms of `Decisive`. */
  lemma PassCons(rs: seq<Rfa>, sel: Selector, haltAll: bool, hook: Hook, kind: EventKind,
                 oracle: (Filter, Query) -> Response, acc: Outcome)
    requires |rs| > 0
    ensures Pass(rs, sel, haltAll, hook, kind, oracle, acc) ==
      if !Decisive(sel, oracle, rs[0]) then Pass(rs[1..], sel, haltAll, hook, kind, oracle, acc)
      else
        var next := Conclude(hook, kind, rs[0], Select(sel, rs[0]).value, oracle, acc);
        if haltAll || rs[0].useRegionPriority then next
        else Pass(rs[1..], sel, haltAll, hook, kind, oracle, next)
  {
  }

  /** A pass over one rule. */
  lemma PassSingle(r: Rfa, sel: Selector, haltAll: bool, hook: Hook, kind: EventKind,
                   oracle: (Filter, Query) -> Response, acc: Outcome)
    ensures Pass([r], sel, haltAll, hook, kind, oracle, acc) ==
      if Decisive(sel, oracle, r) then Conclude(hook, kind, r, Select(sel, r).value, oracle, acc) else acc
  {
    PassCons([r], sel, haltAll, hook, kind, oracle, acc);
    assert [r][1..] == [];
  }

  /** When every decision halts (the priority regime), the outcome is that of
      the first decisive rule alone; no later rule is consulted, and without a
      decisive rule nothing changes. */
  lemma {:induction false} PriorityFirstDecisive(rs: seq<Rfa>, sel: Selector, hook: Hook, kind: EventKind,
                                                 oracle: (Filter, Query) -> Response, acc: Outcome)
    ensures Pass(rs, sel, true, hook, kind, oracle, acc) ==
      match FirstDecisive(rs, sel, oracle)
      case None => acc
      case Some(k) => Conclude(hook, kind, rs[k], Select(sel, rs[k]).value, oracle, acc)
    decreases |rs|
  {
    if |rs| > 0 {
      PassCons(rs, sel, true, hook, kind, oracle, acc);
    }
    if |rs| > 0 && !Decisive(sel, oracle, rs[0]) {
      PriorityFirstDecisive(rs[1..], sel, hook, kind, oracle, acc);
      match FirstDecisive(rs[1..], sel, oracle)
      case None =>
      case Some(k) => assert rs[1..][k] == rs[k + 1];
    }
  }

  /** In the legacy regime, when no rule is priority-aware, every applicable
      rule is consulted in turn and the last decisive one has the final word on
      whether the event is cancelled, whatever the handler's follow-up. */
  lemma {:induction false} LegacyLastDecisiveWins(rs: seq<Rfa>, sel: Selector, hook: Hook, kind: EventKind,
                                                  oracle: (Filter, Query) -> Response, acc: Outcome)
    requires IsCancellable(kind)
    requires forall i | 0 <= i < |rs| :: !rs[i].useRegionPriority
    ensures Cancelled(kind, Pass(rs, sel, false, hook, kind, oracle, acc).state) ==
      match LastDecisive(rs, sel, oracle)
      case None => Cancelled(kind, acc.state)
      case Some(k) => Answer(sel, oracle, rs[k]) == Deny
    decreases |rs|
  {
    if |rs| > 0 {
      var rest := rs[1..];
      assert forall j | 0 <= j < |rest| :: rest[j] == rs[j + 1];
      var next := LegacyStep(rs, sel, hook, kind, oracle, acc);
      LegacyLastDecisiveWins(rest, sel, hook, kind, oracle, next);
      match LastDecisive(rest, sel, oracle)
      case None =>
        if Decisive(sel, oracle, rs[0]) {
          ConcludeCancels(hook, kind, rs[0], Select(sel, rs[0]).value, oracle, acc);
          LastDecisiveUnique(rs, sel, oracle, 0);
        } else {
          assert LastDecisive(rs, sel, oracle).None?;
        }
      case Some(k) =>
        LastDecisiveUnique(rs, sel, oracle, k + 1);
    }
  }

  /** A legacy pass over a rule that is not priority-aware goes on to the next
      rule with the outcome of the first. */
  lemma LegacyStep(rs: seq<Rfa>, sel: Selector, hook: Hook, kind: EventKind,
                   oracle: (Filter, Query) -> Response, acc: Outcome) returns (next: Outcome)
    requires |rs| > 0 && !rs[0].useRegionPriority
    ensures next == if Decisive(sel, oracle, rs[0])
      then Conclude(hook, kind, rs[0], Select(sel, rs[0]).value, oracle, acc) else acc
    ensures Pass(rs, sel, false, hook, kind, oracle, acc) == Pass(rs[1..], sel, false, hook, kind, oracle, next)
  {
    PassCons(rs, sel, false, hook, kind, oracle, acc);
    next := if Decisive(sel, oracle, rs[0])
      then Conclude(hook, kind, rs[0], Select(sel, rs[0]).value, oracle, acc) else acc;
  }

  /** A decisive rule leaves a cancellable event cancelled exactly when it
      denies, whatever the follow-up. */
  lemma ConcludeCancels(hook: Hook, kind: EventKind, r: Rfa, q: Query,
                        oracle: (Filter, Query) -> Response, acc: Outcome)
    requires IsCancellable(kind) && Decides(r, q, oracle)
    ensures Cancelled(kind, Conclude(hook, kind, r, q, oracle, acc).state) == (oracle(r.filter.value, q) == Deny)
  {
    var st := Decide(kind, r, q, oracle, acc.state).state;
    assert Cancelled(kind, AfterDecision(hook, kind, r, q, st).state) == Cancelled(kind, st);
  }

  /** The two regimes part ways on an allowing rule followed by a denying one:
      the priority pass stops at the first and leaves the event allowed, the
      legacy pass lets the second cancel it. */
  lemma RegimesDiffer(r1: Rfa, r2: Rfa, sel: Selector, kind: EventKind,
                      oracle: (Filter, Query) -> Response, st: EventState)
    requires IsCancellable(kind) && !r1.useRegionPriority && !r2.useRegionPriority
    requires Decisive(sel, oracle, r1) && Answer(sel, oracle, r1) == Allow
    requires Decisive(sel, oracle, r2) && Answer(sel, oracle, r2) == Deny
    ensures !Cancelled(kind, Pass([r1, r2], sel, true, NoHook, kind, oracle, Outcome(st, [])).state)
    ensures Cancelled(kind, Pass([r1, r2], sel, false, NoHook, kind, oracle, Outcome(st, [])).state)
  {
    PriorityFirstDecisive([r1, r2], sel, NoHook, kind, oracle, Outcome(st, []));
    LegacyLastDecisiveWins([r1, r2], sel, NoHook, kind, oracle, Outcome(st, []));
    assert LastDecisive([r1, r2], sel, oracle) == Some(1);
  }

  /** A pass in which no rule decides leaves the event and the warnings as they
      were, in either regime. */
  lemma {:induction false} SilentPass(rs: seq<Rfa>, sel: Selector, haltAll: bool, hook: Hook, kind: EventKind,
                                      oracle: (Filter, Query) -> Response, acc: Outcome)
    requires forall i | 0 <= i < |rs| :: !Decisive(sel, oracle, rs[i])
    ensures Pass(rs, sel, haltAll, hook, kind, oracle, acc) == acc
    decreases |rs|
  {
    if |rs| > 0 {
      assert forall j | 0 <= j < |rs| - 1 :: rs[1..][j] == rs[j + 1];
      SilentPass(rs[1..], sel, haltAll, hook, kind, oracle, acc);
    }
  }

  /** Every warning a pass sends is the message of one of its rules. */
  lemma {:induction false} WarningsAreMessages(rs: seq<Rfa>, sel: Selector, haltAll: bool, hook: Hook,
                                               kind: EventKind, oracle: (Filter, Query) -> Response, acc: Outcome)
    ensures forall w | w in Pass(rs, sel, haltAll, hook, kind, oracle, acc).warnings ::
      w in acc.warnings || exists i | 0 <= i < |rs| :: rs[i].message == Some(w)
    decreases |rs|
  {
    if |rs| > 0 {
      var rest := rs[1..];
      assert forall j | 0 <= j < |rest| :: rest[j] == rs[j + 1];
      match Select(sel, rs[0])
      case None => WarningsAreMessages(rest, sel, haltAll, hook, kind, oracle, acc);
      case Some(q) =>
        var next := Conclude(hook, kind, rs[0], q, oracle, acc);
        assert forall w | w in next.warnings :: w in acc.warnings || rs[0].message == Some(w);
        WarningsAreMessages(rest, sel, haltAll, hook, kind, oracle, acc);
        WarningsAreMessages(rest, sel, haltAll, hook, kind, oracle, next);
    }
  }

  /** A pass keeps the warnings already sent and only appends to them. */
  lemma {:induction false} WarningsGrow(rs: seq<Rfa>, sel: Selector, haltAll: bool, hook: Hook,
                                        kind: EventKind, oracle: (Filter, Query) -> Response, acc: Outcome)
    ensures acc.warnings <= Pass(rs, sel, haltAll, hook, kind, oracle, acc).warnings
    decreases |rs|
  {
    if |rs| > 0 {
      match Select(sel, rs[0])
      case None => WarningsGrow(rs[1..], sel, haltAll, hook, kind, oracle, acc);
      case Some(q) =>
        var next := Conclude(hook, kind, rs[0], q, oracle, acc);
        WarningsGrow(rs[1..], sel, haltAll, hook, kind, oracle, acc);
        WarningsGrow(rs[1..], sel, haltAll, hook, kind, oracle, next);
    }
  }

  /** Conversely, the first decisive rule of a pass sends its message whenever
      the handler's follow-up owes one for the event it leaves. */
  lemma {:induction false} FirstWarningSent(rs: seq<Rfa>, sel: Selector, haltAll: bool, hook: Hook,
                                            kind: EventKind, oracle: (Filter, Query) -> Response,
                                            acc: Outcome, k: nat)
    requires FirstDecisive(rs, sel, oracle) == Some(k)
    requires OwesWarning(hook, kind, rs[k], Select(sel, rs[k]).value,
                         Decide(kind, rs[k], Select(sel, rs[k]).value, oracle, acc.state).state)
    ensures rs[k].message.Some?
    ensures acc.warnings + [rs[k].message.value] <= Pass(rs, sel, haltAll, hook, kind, oracle, acc).warnings
    decreases k
  {
    PassCons(rs, sel, haltAll, hook, kind, oracle, acc);
    if k == 0 {
      var next := Conclude(hook, kind, rs[0], Select(sel, rs[0]).value, oracle, acc);
      assert next.warnings == acc.warnings + [rs[0].message.value];
      WarningsGrow(rs[1..], sel, haltAll, hook, kind, oracle, next);
    } else {
      assert rs[1..][k - 1] == rs[k];
      assert FirstDecisive(rs[1..], sel, oracle) == Some(k - 1);
      FirstWarningSent(rs[1..], sel, haltAll, hook, kind, oracle, acc, k - 1);
    }
  }

  /** Use handling never leaves the item in hand denied once a rule has
      decided: a denial is reversed into "item allowed", an allowance resets a
      denied item use to the default.  The item use ends up denied exactly when
      it started so and no use rule decided. */
  lemma {:induction false} UseReversalFreesItem(rs: seq<Rfa>, sel: Selector, haltAll: bool,
                                                oracle: (Filter, Query) -> Response, acc: Outcome)
    ensures Pass(rs, sel, haltAll, UseReversal, PlayerInteract, oracle, acc).state.useItem == UseDeny <==>
      (acc.state.useItem == UseDeny && forall i | 0 <= i < |rs| :: !Decisive(sel, oracle, rs[i]))
    decreases |rs|
  {
    if |rs| > 0 {
      var rest := rs[1..];
      assert forall j | 0 <= j < |rest| :: rest[j] == rs[j + 1];
      if Decisive(sel, oracle, rs[0]) {
        var next := Conclude(UseReversal, PlayerInteract, rs[0], Select(sel, rs[0]).value, oracle, acc);
        assert next.state.useItem != UseDeny;
        UseReversalFreesItem(rest, sel, haltAll, oracle, next);
      } else {
        UseReversalFreesItem(rest, sel, haltAll, oracle, acc);
      }
    }
  }

  /** A denying use rule on an interaction: the item may be used, the block
      may not (so the interaction still counts as cancelled), and the rule's
      message is sent. */
  lemma UseDenyScenario(r: Rfa, block: BlockState, player: Player, oracle: (Filter, Query) -> Response,
                        st: EventState, priority: bool)
    requires r.scope == Use && Regions.Contains(r.region, block.pos) && player.canInteract
    requires r.filter.Some? && oracle(r.filter.value, PlayerBlockQuery(player.id, block)) == Deny
    requires r.message.Some?
    ensures UseOutcome([r], priority, block, None, Some(player), PlayerInteract, oracle, st) ==
      Outcome(st.(useItem := UseAllow, useBlock := UseDeny), [r.message.value])
  {
    assert ByScope([r], Use) == [r];
    PassSingle(r, At(block.pos, PlayerBlockQuery(player.id, block)), priority, UseReversal, PlayerInteract,
               oracle, Outcome(st, []));
  }

  /** With no `from` (a flag pickup), every enter rule whose region holds the
      carrier and every leave rule whose region does not is consulted; with a
      `from`, a rule cannot apply both as an enter and as a leave, and a move that
      does not cross the region's border triggers neither. */
  lemma EnterLeaveConditions(region: Regions.Region, from: Option<Block>, to: Block)
    ensures from.None? ==> (EnterApplies(region, from, to) <==> Regions.Contains(region, to))
    ensures from.None? ==> (LeaveApplies(region, from, to) <==> !Regions.Contains(region, to))
    ensures from.Some? ==> !(EnterApplies(region, from, to) && LeaveApplies(region, from, to))
    ensures from.Some? && (Regions.Contains(region, from.value) <==> Regions.Contains(region, to)) ==>
      !EnterApplies(region, from, to) && !LeaveApplies(region, from, to)
  {
  }

  /** A flag pickup fires a leave rule: a denying leave rule whose region does
      not hold the carrier cancels the pickup, in either regime. */
  lemma FlagPickupFiresLeave(r: Rfa, carrier: Player, at: Block, priority: bool, kind: EventKind,
                             oracle: (Filter, Query) -> Response, st: EventState)
    requires r.scope == PlayerLeave && !Regions.Contains(r.region, at) && carrier.canInteract
    requires r.filter.Some? && oracle(r.filter.value, PlayerQuery(carrier.id)) == Deny
    requires IsCancellable(kind)
    ensures Cancelled(kind, EnterLeaveOutcome([r], priority, Some(carrier), None, at, kind, oracle, st))
  {
    assert ByScope([r], PlayerEnter) == [];
    assert ByScope([r], PlayerLeave) == [r];
    var q := PlayerQuery(carrier.id);
    PassSingle(r, EnterOrLeave(None, at, q), true, NoHook, kind, oracle, Outcome(st, []));
    PassSingle(r, Leaving(None, at, q), false, NoHook, kind, oracle, Outcome(st, []));
  }

  /** Legacy block transforms treat anything that is not a place as a break and
      test the new state's block: a transform that neither places nor breaks is
      still cancelled by a denying break rule there, while the priority pass
      consults no break rule for it. */
  lemma LegacyTransformIsBreak(r: Rfa, t: Transform, tntOwnedByWorld: bool, kind: EventKind,
                               oracle: (Filter, Query) -> Response, st: EventState)
    requires r.scope == BlockBreak && !t.isPlace && !t.isBreak
    requires Regions.Contains(r.region, t.newState.pos) && r.filter.Some?
    requires oracle(r.filter.value,
                    BlockQuery(GetActor(tntOwnedByWorld, t.causeIsExplosion, t.playerState), t.oldState)) == Deny
    requires IsCancellable(kind)
    ensures Cancelled(kind, TransformOutcome([r], false, tntOwnedByWorld, t, kind, oracle, st))
    ensures TransformOutcome([r], true, tntOwnedByWorld, t, kind, oracle, st) == st
  {
    assert ByScope([r], BlockBreak) == [r];
    var actor := GetActor(tntOwnedByWorld, t.causeIsExplosion, t.playerState);
    PassSingle(r, At(t.newState.pos, BlockQuery(actor, t.oldState)), false, NoHook, kind, oracle, Outcome(st, []));
    PassSingle(r, TransformAny(t, actor), true, NoHook, kind, oracle, Outcome(st, []));
  }

  // ---------------------------------------------------------------------------
  // Properties of the effects

  /** A move that crosses no effect region's border fires nothing. */
  lemma {:induction false} NoCrossingNoEffects(rs: seq<Rfa>, p: Player, from: Block, to: Block,
                                               oracle: (Filter, Query) -> Response)
    requires forall i | 0 <= i < |rs| ::
      Regions.Contains(rs[i].region, from) == Regions.Contains(rs[i].region, to)
    ensures Effects(rs, p, from, to, oracle) == []
    decreases |rs|
  {
    if |rs| > 0 {
      assert forall j | 0 <= j < |rs| - 1 :: rs[1..][j] == rs[j + 1];
      NoCrossingNoEffects(rs[1..], p, from, to, oracle);
    }
  }

  /** The rule is not denied for this player: observers are never denied. */
  predicate NotDenied(r: Rfa, p: Player, oracle: (Filter, Query) -> Response) {
    !p.canInteract || r.filter.None? || oracle(r.filter.value, PlayerQuery(p.id)) != Deny
  }

  /** The rule accounts for the effect. */
  predicate Justifies(r: Rfa, p: Player, from: Block, to: Block, oracle: (Filter, Query) -> Response,
                      e: EffectAction) {
    NotDenied(r, p, oracle) &&
    match e
    case SetVelocity(v) => r.velocity == Some(v) && Enters(r.region, from, to)
    case ApplyKit(k) => r.kit == Some(k) && p.canInteract && Enters(r.region, from, to)
    case RemoveKit(k) => r.kit == Some(k) && r.lendKit && p.canInteract && Exits(r.region, from, to)
  }

  /** One rule's effects are exactly the ones it justifies. */
  lemma RuleEffectsExact(r: Rfa, p: Player, from: Block, to: Block, oracle: (Filter, Query) -> Response)
    ensures forall e | e in RuleEffects(r, p, from, to, oracle) :: Justifies(r, p, from, to, oracle, e)
    ensures forall v | r.velocity == Some(v) && Justifies(r, p, from, to, oracle, SetVelocity(v)) ::
      SetVelocity(v) in RuleEffects(r, p, from, to, oracle)
    ensures forall k | r.kit == Some(k) && Justifies(r, p, from, to, oracle, ApplyKit(k)) ::
      ApplyKit(k) in RuleEffects(r, p, from, to, oracle)
    ensures forall k | r.kit == Some(k) && Justifies(r, p, from, to, oracle, RemoveKit(k)) ::
      RemoveKit(k) in RuleEffects(r, p, from, to, oracle)
  {
  }

  /** Every effect fired comes from a rule that justifies it. */
  lemma {:induction false} EffectsSound(rs: seq<Rfa>, p: Player, from: Block, to: Block,
                                        oracle: (Filter, Query) -> Response)
    ensures forall e | e in Effects(rs, p, from, to, oracle) ::
      exists i | 0 <= i < |rs| :: Justifies(rs[i], p, from, to, oracle, e)
    decreases |rs|
  {
    if |rs| > 0 {
      var rest := rs[1..];
      EffectsSound(rest, p, from, to, oracle);
      RuleEffectsExact(rs[0], p, from, to, oracle);
      assert Effects(rs, p, from, to, oracle) ==
        RuleEffects(rs[0], p, from, to, oracle) + Effects(rest, p, from, to, oracle);
      forall e | e in Effects(rs, p, from, to, oracle)
        ensures exists i | 0 <= i < |rs| :: Justifies(rs[i], p, from, to, oracle, e)
      {
        if e in RuleEffects(rs[0], p, from, to, oracle) {
          assert Justifies(rs[0], p, from, to, oracle, e);
        } else {
          assert e in Effects(rest, p, from, to, oracle);
          var i :| 0 <= i < |rest| && Justifies(rest[i], p, from, to, oracle, e);
          assert rest[i] == rs[i + 1];
        }
      }
    }
  }

  /** Every rule that is not denied fires the effects it stands for. */
  lemma {:induction false} EffectsComplete(rs: seq<Rfa>, p: Player, from: Block, to: Block,
                                           oracle: (Filter, Query) -> Response)
    ensures forall i, v | 0 <= i < |rs| && rs[i].velocity == Some(v) &&
      Justifies(rs[i], p, from, to, oracle, SetVelocity(v)) :: SetVelocity(v) in Effects(rs, p, from, to, oracle)
    ensures forall i, k | 0 <= i < |rs| && rs[i].kit == Some(k) &&
      Justifies(rs[i], p, from, to, oracle, ApplyKit(k)) :: ApplyKit(k) in Effects(rs, p, from, to, oracle)
    ensures forall i, k | 0 <= i < |rs| && rs[i].kit == Some(k) &&
      Justifies(rs[i], p, from, to, oracle, RemoveKit(k)) :: RemoveKit(k) in Effects(rs, p, from, to, oracle)
    decreases |rs|
  {
    if |rs| > 0 {
      var rest := rs[1..];
      assert forall j | 0 <= j < |rest| :: rest[j] == rs[j + 1];
      EffectsComplete(rest, p, from, to, oracle);
      RuleEffectsExact(rs[0], p, from, to, oracle);
      assert Effects(rs, p, from, to, oracle) ==
        RuleEffects(rs[0], p, from, to, oracle) + Effects(rest, p, from, to, oracle);
    }
  }

  /** Every effect fired comes from a rule that justifies it, and every rule
      that is not denied fires the effects it stands for: its velocity on entry,
      and, for a player who can interact, its kit on entry and the removal of a
      lent kit on exit. */
  lemma EffectsExact(rs: seq<Rfa>, p: Player, from: Block, to: Block,
                     oracle: (Filter, Query) -> Response)
    ensures forall e | e in Effects(rs, p, from, to, oracle) ::
      exists i | 0 <= i < |rs| :: Justifies(rs[i], p, from, to, oracle, e)
    ensures forall i, v | 0 <= i < |rs| && rs[i].velocity == Some(v) &&
      Justifies(rs[i], p, from, to, oracle, SetVelocity(v)) :: SetVelocity(v) in Effects(rs, p, from, to, oracle)
    ensures forall i, k | 0 <= i < |rs| && rs[i].kit == Some(k) &&
      Justifies(rs[i], p, from, to, oracle, ApplyKit(k)) :: ApplyKit(k) in Effects(rs, p, from, to, oracle)
    ensures forall i, k | 0 <= i < |rs| && rs[i].kit == Some(k) &&
      Justifies(rs[i], p, from, to, oracle, RemoveKit(k)) :: RemoveKit(k) in Effects(rs, p, from, to, oracle)
  {
    EffectsSound(rs, p, from, to, oracle);
    EffectsComplete(rs, p, from, to, oracle);
  }

  /** The `applyEffects` loop over the effect rules. */
  method FireAll(rs: seq<Rfa>, p: Player, from: Block, to: Block, oracle: (Filter, Query) -> Response)
    returns (effects: seq<EffectAction>)
    ensures effects == Effects(rs, p, from, to, oracle)
  {
    effects := [];
    var i := 0;
    while i < |rs|
      invariant 0 <= i <= |rs|
      invariant effects + Effects(rs[i..], p, from, to, oracle) == Effects(rs, p, from, to, oracle)
    {
      assert rs[i..][0] == rs[i] && rs[i..][1..] == rs[i + 1..];
      var e := FireRule(rs[i], p, from, to, oracle);
      assert Effects(rs[i..], p, from, to, oracle) == e + Effects(rs[i + 1..], p, from, to, oracle);
      effects := effects + e;
      i := i + 1;
    }
    assert rs[i..] == [];
  }

  // ---------------------------------------------------------------------------
  // The module

  class RegionMatchModule {
    /** `rfaContext.getAll()`, in priority (declaration) order. */
    const rfas: seq<Rfa>
    /** The map's proto is at least the region-priority version. */
    const useRegionPriority: bool
    /** The map's proto is older than the one where TNT damage has an owner. */
    const tntOwnedByWorld: bool
    var maxBuildHeight: Option<int>

    constructor(rfas: seq<Rfa>, useRegionPriority: bool, tntOwnedByWorld: bool, maxBuildHeight: Option<int>)
      ensures this.rfas == rfas && this.useRegionPriority == useRegionPriority
      ensures this.tntOwnedByWorld == tntOwnedByWorld && this.maxBuildHeight == maxBuildHeight
    {
      this.rfas := rfas;
      this.useRegionPriority := useRegionPriority;
      this.tntOwnedByWorld := tntOwnedByWorld;
      this.maxBuildHeight := maxBuildHeight;
    }

    method GetMaxBuildHeight() returns (h: Option<int>)
      ensures h == maxBuildHeight
    {
      h := maxBuildHeight;
    }

    method SetMaxBuildHeight(h: Option<int>)
      modifies this
      ensures maxBuildHeight == h
    {
      maxBuildHeight := h;
    }

    method CheckEnterLeave(ev: Event, player: Option<Player>, from: Option<Block>, to: Block,
                           oracle: (Filter, Query) -> Response)
      modifies ev
      ensures ev.State() == EnterLeaveOutcome(rfas, useRegionPriority, player, from, to, ev.kind, oracle, old(ev.State()))
    {
      if !CanInteract(player) {
        return;
      }
      var q := PlayerQuery(player.value.id);
      if useRegionPriority {
        var _ := RunRules(ev, rfas, EnterOrLeave(from, to, q), true, NoHook, oracle);
      } else {
        ghost var st := ev.State();
        var _ := RunRules(ev, ByScope(rfas, PlayerEnter), Entering(from, to, q), false, NoHook, oracle);
        NoHookKeepsWarnings(ByScope(rfas, PlayerEnter), Entering(from, to, q), false, ev.kind, oracle, Outcome(st, []));
        var _ := RunRules(ev, ByScope(rfas, PlayerLeave), Leaving(from, to, q), false, NoHook, oracle);
      }
    }

    // Every event handler below is registered with `ignoreCancelled`: Bukkit
    // does not call it for an event that is already cancelled.

    /** The coarse-move handler: a move between two blocks. */
    method CheckCoarseMove(ev: Event, player: Option<Player>, from: Block, to: Block,
                           oracle: (Filter, Query) -> Response)
      modifies ev
      ensures Cancelled(ev.kind, old(ev.State())) ==> ev.State() == old(ev.State())
      ensures !Cancelled(ev.kind, old(ev.State())) ==>
        ev.State() == EnterLeaveOutcome(rfas, useRegionPriority, player, Some(from), to, ev.kind, oracle, old(ev.State()))
    {
      if ev.IsCancelled() {
        return;
      }
      CheckEnterLeave(ev, player, Some(from), to, oracle);
    }

    /** The flag-pickup handler: there is no `from`. */
    method CheckFlagPickup(ev: Event, carrier: Player, at: Block, oracle: (Filter, Query) -> Response)
      modifies ev
      ensures Cancelled(ev.kind, old(ev.State())) ==> ev.State() == old(ev.State())
      ensures !Cancelled(ev.kind, old(ev.State())) ==>
        ev.State() == EnterLeaveOutcome(rfas, useRegionPriority, Some(carrier), None, at, ev.kind, oracle, old(ev.State()))
    {
      if ev.IsCancelled() {
        return;
      }
      CheckEnterLeave(ev, Some(carrier), None, at, oracle);
    }

    /** The effects of a move, which is left as it is. */
    method ApplyEffects(ev: Event, player: Option<Player>, from: Block, to: Block,
                        oracle: (Filter, Query) -> Response)
      returns (effects: seq<EffectAction>)
      ensures ev.IsCancelled() || player.None? ==> effects == []
      ensures !ev.IsCancelled() && player.Some? ==>
        effects == Effects(ByScope(rfas, Effect), player.value, from, to, oracle)
    {
      effects := [];
      if ev.IsCancelled() || player.None? {
        return;
      }
      effects := FireAll(ByScope(rfas, Effect), player.value, from, to, oracle);
    }

    method CheckBlockTransform(ev: Event, t: Transform, oracle: (Filter, Query) -> Response)
      modifies ev
      ensures Cancelled(ev.kind, old(ev.State())) ==> ev.State() == old(ev.State())
      ensures !Cancelled(ev.kind, old(ev.State())) ==>
        ev.State() == TransformOutcome(rfas, useRegionPriority, tntOwnedByWorld, t, ev.kind, oracle, old(ev.State()))
    {
      if ev.IsCancelled() {
        return;
      }
      var actor := GetActor(tntOwnedByWorld, t.causeIsExplosion, t.playerState);
      var pos := t.newState.pos;
      if useRegionPriority {
        var _ := RunRules(ev, rfas, TransformAny(t, actor), true, NoHook, oracle);
      } else if t.isPlace {
        var _ := RunRules(ev, ByScope(rfas, BlockPlace), At(pos, BlockQuery(actor, t.newState)), false, NoHook, oracle);
      } else {
        var _ := RunRules(ev, ByScope(rfas, BlockBreak), At(pos, BlockQuery(actor, t.oldState)), false, NoHook, oracle);
      }
    }

    method CheckBlockPhysics(ev: Event, block: BlockState, oracle: (Filter, Query) -> Response)
      modifies ev
      ensures Cancelled(ev.kind, old(ev.State())) ==> ev.State() == old(ev.State())
      ensures !Cancelled(ev.kind, old(ev.State())) ==>
        ev.State() == PhysicsOutcome(rfas, block, ev.kind, oracle, old(ev.State()))
    {
      if ev.IsCancelled() {
        return;
      }
      var _ := RunRules(ev, ByScope(rfas, BlockPhysics), At(block.pos, BlockQuery(None, block)), true, NoHook, oracle);
    }

    method CheckBlockDamage(ev: Event, participant: Option<Player>, block: BlockState,
                            oracle: (Filter, Query) -> Response)
      returns (warnings: seq<string>)
      modifies ev
      ensures Cancelled(ev.kind, old(ev.State())) ==> ev.State() == old(ev.State()) && warnings == []
      ensures !Cancelled(ev.kind, old(ev.State())) ==>
        Outcome(ev.State(), warnings) ==
        DamageOutcome(rfas, useRegionPriority, participant, block, ev.kind, oracle, old(ev.State()))
    {
      if ev.IsCancelled() || participant.None? {
        return [];
      }
      var q := PlayerBlockQuery(participant.value.id, block);
      warnings := RunRules(ev, ByScope(rfas, BlockBreak), EarlyWarningAt(block.pos, q),
                           useRegionPriority, WarnIfCancelled, oracle);
    }

    /** `checkUse`: a right click on a block is a use of that block. */
    method CheckUse(ev: Event, rightClickBlock: bool, clicked: Option<BlockState>,
                    participant: Option<Player>, oracle: (Filter, Query) -> Response)
      returns (warnings: seq<string>)
      modifies ev
      ensures Cancelled(ev.kind, old(ev.State())) || !rightClickBlock || clicked.None? ==>
        ev.State() == old(ev.State()) && warnings == []
      ensures !Cancelled(ev.kind, old(ev.State())) && rightClickBlock && clicked.Some? ==>
        Outcome(ev.State(), warnings) ==
        UseOutcome(rfas, useRegionPriority, clicked.value, None, participant, ev.kind, oracle, old(ev.State()))
    {
      if ev.IsCancelled() || !rightClickBlock || clicked.None? {
        return [];
      }
      warnings := HandleUse(ev, clicked.value, None, participant, oracle);
    }

    /** `checkHangingPlace`: the block is the one the hanging entity is in. */
    method CheckHangingPlace(ev: Event, block: BlockState, material: Option<nat>, placer: Option<Player>,
                             oracle: (Filter, Query) -> Response)
      returns (warnings: seq<string>)
      modifies ev
      ensures Cancelled(ev.kind, old(ev.State())) ==> ev.State() == old(ev.State()) && warnings == []
      ensures !Cancelled(ev.kind, old(ev.State())) ==>
        Outcome(ev.State(), warnings) ==
        HangingPlaceOutcome(rfas, useRegionPriority, block, material, placer, ev.kind, oracle, old(ev.State()))
    {
      if ev.IsCancelled() {
        return [];
      }
      warnings := HandleHangingPlace(ev, block, material, placer, oracle);
    }

    /** `checkHangingBreak`. */
    method CheckHangingBreak(ev: Event, material: Option<nat>, breakerBlock: BlockState,
                             breaker: Option<Player>, oracle: (Filter, Query) -> Response)
      returns (warnings: seq<string>)
      modifies ev
      ensures Cancelled(ev.kind, old(ev.State())) ==> ev.State() == old(ev.State()) && warnings == []
      ensures !Cancelled(ev.kind, old(ev.State())) ==>
        Outcome(ev.State(), warnings) ==
        HangingBreakOutcome(rfas, useRegionPriority, material, breakerBlock, breaker, ev.kind, oracle, old(ev.State()))
    {
      if ev.IsCancelled() {
        return [];
      }
      warnings := HandleHangingBreak(ev, material, breakerBlock, breaker, oracle);
    }

    /** `checkItemFrameItemRemove`: damaging an item frame that holds an item
        pops the item out, which is a break of the frame's content. */
    method CheckItemFrameItemRemove(ev: Event, frameWithItem: bool, material: Option<nat>,
                                    breakerBlock: BlockState, breaker: Option<Player>,
                                    oracle: (Filter, Query) -> Response)
      returns (warnings: seq<string>)
      modifies ev
      ensures Cancelled(ev.kind, old(ev.State())) || !frameWithItem ==>
        ev.State() == old(ev.State()) && warnings == []
      ensures !Cancelled(ev.kind, old(ev.State())) && frameWithItem ==>
        Outcome(ev.State(), warnings) ==
        HangingBreakOutcome(rfas, useRegionPriority, material, breakerBlock, breaker, ev.kind, oracle, old(ev.State()))
    {
      if ev.IsCancelled() || !frameWithItem {
        return [];
      }
      warnings := HandleHangingBreak(ev, material, breakerBlock, breaker, oracle);
    }

    /** `checkItemFrameRotate`: right-clicking an item frame that holds an item
        rotates it, a use of the frame's block as the frame's own hanging type;
        right-clicking an empty frame with an item in hand places that item in
        it.  `frameHasItem` is `getItem() != null` and `frameType` is
        `getHangingType` of the frame, two separate readings of the entity. */
    method CheckItemFrameRotate(ev: Event, isItemFrame: bool, frameHasItem: bool, frameType: Option<nat>,
                                frameBlock: BlockState, handItem: Option<nat>, participant: Option<Player>,
                                player: Option<Player>, oracle: (Filter, Query) -> Response)
      returns (warnings: seq<string>)
      modifies ev
      ensures Cancelled(ev.kind, old(ev.State())) || !isItemFrame || (!frameHasItem && handItem.None?) ==>
        ev.State() == old(ev.State()) && warnings == []
      ensures !Cancelled(ev.kind, old(ev.State())) && isItemFrame && frameHasItem ==>
        Outcome(ev.State(), warnings) ==
        UseOutcome(rfas, useRegionPriority, frameBlock, frameType, participant, ev.kind, oracle, old(ev.State()))
      ensures !Cancelled(ev.kind, old(ev.State())) && isItemFrame && !frameHasItem && handItem.Some? ==>
        Outcome(ev.State(), warnings) ==
        HangingPlaceOutcome(rfas, useRegionPriority, frameBlock, handItem, player, ev.kind, oracle, old(ev.State()))
    {
      if ev.IsCancelled() || !isItemFrame {
        return [];
      }
      if frameHasItem {
        warnings := HandleUse(ev, frameBlock, frameType, participant, oracle);
      } else if handItem.Some? {
        warnings := HandleHangingPlace(ev, frameBlock, handItem, player, oracle);
      } else {
        warnings := [];
      }
    }

    method HandleUse(ev: Event, block: BlockState, material: Option<nat>, player: Option<Player>,
                     oracle: (Filter, Query) -> Response)
      returns (warnings: seq<string>)
      modifies ev
      ensures Outcome(ev.State(), warnings) ==
        UseOutcome(rfas, useRegionPriority, block, material, player, ev.kind, oracle, old(ev.State()))
    {
      if !CanInteract(player) {
        return [];
      }
      var q := PlayerBlockQuery(player.value.id, WithMaterial(block, material));
      warnings := RunRules(ev, ByScope(rfas, Use), At(block.pos, q), useRegionPriority, UseReversal, oracle);
    }

    method HandleHangingPlace(ev: Event, block: BlockState, material: Option<nat>, placer: Option<Player>,
                              oracle: (Filter, Query) -> Response)
      returns (warnings: seq<string>)
      modifies ev
      ensures Outcome(ev.State(), warnings) ==
        HangingPlaceOutcome(rfas, useRegionPriority, block, material, placer, ev.kind, oracle, old(ev.State()))
    {
      var q := MakeBlockQuery(placer, block, material);
      warnings := RunRules(ev, ByScope(rfas, BlockPlace), At(block.pos, q), useRegionPriority,
                           SendCancelMessage, oracle);
    }

    method HandleHangingBreak(ev: Event, material: Option<nat>, breakerBlock: BlockState,
                              breaker: Option<Player>, oracle: (Filter, Query) -> Response)
      returns (warnings: seq<string>)
      modifies ev
      ensures Outcome(ev.State(), warnings) ==
        HangingBreakOutcome(rfas, useRegionPriority, material, breakerBlock, breaker, ev.kind, oracle, old(ev.State()))
    {
      if material.None? {
        return [];
      }
      var q := MakeBlockQuery(breaker, breakerBlock, material);
      warnings := RunRules(ev, ByScope(rfas, BlockBreak), At(breakerBlock.pos, q), useRegionPriority,
                           SendCancelMessage, oracle);
    }
  }
}
