# PGM core rules in Dafny

A model of six parts of the PGM Minecraft match plugin, with proofs of what they promise.

- **Region unions** (`Union.java`). `Union.of`, the containment, block-bounded, static and empty queries, and the bounds fold. Also the once-per-instance choice between three ways of enumerating a union's blocks: a full scan of the bounds, a scan of the children, or a scan of the children filtered by a visited set. The central theorem is `Regions.BlocksCorrect`: whichever strategy is chosen, the blocks yielded are exactly the blocks the union contains, each once.
- **Region rule dispatch** (`RegionMatchModule.java`). Each region filter application ("rule") names a scope, a region, an optional filter and a message. Each event handler walks the rules that concern it and asks their filters. A decisive answer cancels or un-cancels the event. There are two regimes:
  - the region-priority regime, where the first decisive rule wins;
  - the legacy regime, where every applicable rule is consulted and the last decisive one wins.

  Enter/leave checks, coarse moves, flag pickups, effects, block transforms, physics, damage, use, and hanging place/break are all proved against one specification of a rule pass. Every Bukkit handler leaves an event that is already cancelled alone, as its `ignoreCancelled` registration says. An interaction event counts as cancelled when using the clicked block is denied.
- **Attribute kits** (`AttributeKit.java`). Applying and removing a multimap of attribute modifiers on a player. Closed forms, idempotence, and removal undoing application are proved.
- **The AFK tracker** (`AfkTracker.java`). Per-player activity records, the five-second soft window with its limit of 15 points, and the movement filters.
- **Material helpers** (`Materials.java`). The numeric material-id reader, the bucket and liquid tables, and `amount`/`isNothing`.
- **XML helpers** (`XMLUtils.java`):
  - attribute and child lookups by alias, with their error cases;
  - numbers with the `oo` infinity words;
  - numeric ranges built from attributes or from range text;
  - tick durations;
  - flattening of nested parent tags.

Java `int` arithmetic is modelled by `JavaInt.Wrap32`, where the source can overflow: the children's volume sum, the soft-activity counter, and the ticks-to-milliseconds product. Filters are an uninterpreted oracle `(Filter, Query) -> Response` passed to every handler. Primitive regions are abstract shapes that list their own blocks and carry their bounds and flags.

Files:
- `wrappers.dfy`: `Option` and `Result`.
- `java_int.dfy`: Java `int` arithmetic, with `Character.digit` and `Integer.parseInt` on ASCII digits.
- `geometry.dfy`: blocks, bounds, and boxes.
- `regions.dfy`
- `region_match.dfy`
- `attribute_kit.dfy`
- `afk_tracker.dfy`
- `materials.dfy`
- `xml_utils.dfy`

## Model

| member | source | states |
|---|---|---|
| JavaInt.Wrap32 | core/src/main/java/tc/oc/pgm/regions/Union.java:117-120 | the result is a Java `int`, is congruent to the input modulo 2^32, and is the input itself whenever the input fits |
| JavaInt.Wrap32Add | core/src/main/java/tc/oc/pgm/regions/Union.java:120 | wrapping each summand and then the sum gives the same `int` as wrapping the exact sum, so an accumulating `int` loop equals one wrap at the end |
| JavaInt.Wrap32Mul | core/src/main/java/tc/oc/pgm/regions/Union.java:127 | wrapping before and after a multiplication equals wrapping the exact product |
| JavaInt.Digit | util/src/main/java/tc/oc/pgm/util/material/Materials.java:85 | `Character.digit(c, 10)` is in -1..9, and is -1 exactly when `c` is not a decimal digit |
| JavaInt.ToDecimal | util/src/main/java/tc/oc/pgm/util/material/Materials.java:83-101 | the decimal rendering of a number is a non-empty all-digit string with no leading zero |
| JavaInt.DecimalRoundTrip | util/src/main/java/tc/oc/pgm/util/material/Materials.java:83-101 | reading the decimal rendering of a number gives the number back |
| JavaInt.ParseIntIn | util/src/main/java/tc/oc/pgm/util/xml/XMLUtils.java:284 | `valueOf` for a bounded integer type succeeds exactly on an optionally signed digit string whose value lies in the type's range, and the value it yields is that string's signed value |
| JavaInt.ParseInt | util/src/main/java/tc/oc/pgm/util/xml/XMLUtils.java:615 | `Integer.parseInt` only ever yields a Java `int` |
| JavaInt.ToSignedDecimal | util/src/main/java/tc/oc/pgm/util/xml/XMLUtils.java:615 | the rendering of a value ends in a digit, starts with `-` exactly for a negative value, and otherwise starts with a digit |
| JavaInt.SignedRoundTrip | util/src/main/java/tc/oc/pgm/util/xml/XMLUtils.java:284 | the sign-and-digits grammar reads every rendering back as its value |
| JavaInt.ParseIntRoundTrip | util/src/main/java/tc/oc/pgm/util/xml/XMLUtils.java:615 | every `int`, negative ones included, is parsed back from its `Integer.toString` rendering |
| Geometry.Union | core/src/main/java/tc/oc/pgm/regions/Union.java:86-88 | `Bounds.union` is the least box holding both arguments, and is valid when both are |
| Geometry.DisjointIff | core/src/main/java/tc/oc/pgm/regions/Union.java:122 | `Bounds.disjoint` holds of two valid bounds exactly when no block lies in both |
| Geometry.BoxBlocksFacts | core/src/main/java/tc/oc/pgm/regions/Union.java:136-138 | a box's block iterator yields each block of the box exactly once, and as many blocks as its block volume |
| Regions.Contains | core/src/main/java/tc/oc/pgm/regions/Union.java:35-42 | specification, no contract of its own: a union contains a block when some child does; `Regions.ContainedWithinBounds` and `Regions.BlocksCorrect` state its properties |
| Regions.IsBlockBounded | core/src/main/java/tc/oc/pgm/regions/Union.java:44-52 | specification: a union is block-bounded when every child is; `Regions.OfQueries` and `Regions.EmptyUnion` state its properties |
| Regions.IsStatic | core/src/main/java/tc/oc/pgm/regions/Union.java:54-62 | specification: a union is static when every child is; `Regions.OfQueries` and `Regions.StrategyCases` state its properties |
| Regions.IsEmpty | core/src/main/java/tc/oc/pgm/regions/Union.java:64-72 | specification: a union is empty when every child is; `Regions.IsEmptyIff` proves this means containing no block |
| Regions.FoldBounds | core/src/main/java/tc/oc/pgm/regions/Union.java:84-90 | specification: the left fold of `Bounds.union` from the empty bounds; `Regions.FoldBoundsIsHull` proves it is the hull, `Regions.Union.GetBounds` computes it |
| Regions.ChooseStrategy | core/src/main/java/tc/oc/pgm/regions/Union.java:112-134 | specification of the strategy choice; `Regions.StrategyCases` states when each strategy is chosen, `Regions.Union.CreateIteratorFactory` computes it |
| Regions.Blocks | core/src/main/java/tc/oc/pgm/regions/Union.java:92-142 | specification of the blocks yielded; `Regions.BlocksCorrect` proves them repeat-free and exactly the contained blocks |
| Regions.Of | core/src/main/java/tc/oc/pgm/regions/Union.java:22-28 | no region gives the empty region, one gives that region itself, more give their union; in every case the result contains a block exactly when some argument does |
| Regions.OfQueries | core/src/main/java/tc/oc/pgm/regions/Union.java:22-90 | whatever `of` returns is block-bounded, static or empty exactly when every argument is, and has the bounds fold of the arguments as its bounds |
| Regions.PairwiseDisjointIff | core/src/main/java/tc/oc/pgm/regions/Union.java:116-124 | the children are pairwise disjoint exactly when each child is disjoint from every later one, which is what the nested loop tests |
| Regions.FoldBoundsIsHull | core/src/main/java/tc/oc/pgm/regions/Union.java:84-90 | the bounds fold is the smallest box holding every child's bounds, and is valid when theirs are |
| Regions.ContainedWithinBounds | core/src/main/java/tc/oc/pgm/regions/Union.java:35-42 | every block a well-formed region, union or not, contains lies inside its bounds |
| Regions.KeepContainedFacts | core/src/main/java/tc/oc/pgm/regions/Union.java:136-138 | the `this::contains` filter keeps exactly the source blocks the union contains, and keeps a repeat-free source repeat-free |
| Regions.DedupFacts | core/src/main/java/tc/oc/pgm/regions/Union.java:130-133 | the visited-set filter yields each source block not yet visited exactly once and nothing else |
| Regions.ChildBlocksMembers | core/src/main/java/tc/oc/pgm/regions/Union.java:140-142 | the child scan yields exactly the blocks some child yields |
| Regions.BlocksCorrect | core/src/main/java/tc/oc/pgm/regions/Union.java:92-142 | whichever strategy is picked, the union's blocks are repeat-free and are exactly the blocks the union contains |
| Regions.IsEmptyIff | core/src/main/java/tc/oc/pgm/regions/Union.java:64-72 | `isEmpty` holds of a well-formed region exactly when it contains no block |
| Regions.EmptyUnion | core/src/main/java/tc/oc/pgm/regions/Union.java:34-72 | a union of no children contains nothing, is block-bounded, static and empty, and has empty bounds |
| Regions.StrategyCases | core/src/main/java/tc/oc/pgm/regions/Union.java:112-134 | non-static unions are fully scanned; the child scan is chosen exactly for static unions of fewer than 100 pairwise-disjoint children; the filtered scan exactly when neither that nor the density test holds |
| Regions.ChildrenVolumeExact | core/src/main/java/tc/oc/pgm/regions/Union.java:117-120 | while the children's volumes sum to at most `Integer.MAX_VALUE`, the `int` accumulator is the exact sum |
| Regions.DisjointCubesScenario | core/src/main/java/tc/oc/pgm/regions/Union.java:126 | two far-apart one-block cuboids are enumerated by the child scan, yielding both blocks |
| Regions.DuplicateCuboid | core/src/main/java/tc/oc/pgm/regions/Union.java:127 | a cuboid of at most 200000000 blocks unioned with itself overlaps, is dense (bounds volume below five times the children's), and so is fully scanned, yielding the cuboid's blocks once each; the bound keeps the source's `int` density product from wrapping, which it does above 214748364 blocks |
| Regions.SparseOverlapScenario | core/src/main/java/tc/oc/pgm/regions/Union.java:127-133 | two thin lines meeting at a corner overlap and are sparse, so they take the filtered child scan with a visited capacity of 22, and yield each contained block once |
| Regions.Union.constructor | core/src/main/java/tc/oc/pgm/regions/Union.java:18-20 | a new union holds its children and has no strategy memoised yet |
| Regions.Union.GetBounds | core/src/main/java/tc/oc/pgm/regions/Union.java:84-90 | the loop computes the left fold of `Bounds.union` from `Bounds.empty()` |
| Regions.Union.CreateIteratorFactory | core/src/main/java/tc/oc/pgm/regions/Union.java:112-134 | the strategy computed by the nested disjointness and volume loops is the specified strategy |
| Regions.Union.CheckLater | core/src/main/java/tc/oc/pgm/regions/Union.java:121-123 | the inner loop reports disjoint exactly when child `i`'s bounds are disjoint from every later child's |
| Regions.Union.FullScanBlocks | core/src/main/java/tc/oc/pgm/regions/Union.java:136-138 | the full scan yields the blocks of the bounds box that the union contains, in the box's order |
| Regions.Union.GetBlockVectorIterator | core/src/main/java/tc/oc/pgm/regions/Union.java:92-96 | the first call memoises the specified strategy and later calls keep the memo; every call yields the union's specified blocks |
| Regions.FilterVisited | core/src/main/java/tc/oc/pgm/regions/Union.java:130-133 | the loop with a growing visited set yields the visited-set filter of its source |
| RegionMatch.Decide | core/src/main/java/tc/oc/pgm/regions/RegionMatchModule.java:416-439 | a rule decides exactly when it has a filter that does not abstain; allow un-cancels and deny cancels a cancellable event; deny records the rule's message on a generalized event; an interaction's item use is denied exactly by a deny; abstaining, or a non-cancellable event, leaves the event unchanged |
| RegionMatch.WithCancelled | core/src/main/java/tc/oc/pgm/regions/RegionMatchModule.java:423-433 | `setCancelled(c)` makes a cancellable event cancelled exactly when `c`; an interaction denies both uses, or, when un-cancelled, resets a denied use to the default and keeps any other; a non-cancellable event is unchanged |
| RegionMatch.Undeny | core/src/main/java/tc/oc/pgm/regions/RegionMatchModule.java:424 | un-cancelling an interaction never leaves a use denied and keeps a use that was not denied |
| RegionMatch.Event.SetCancelled | core/src/main/java/tc/oc/pgm/regions/RegionMatchModule.java:424 | the event's new state is the specified `setCancelled` of its old state |
| RegionMatch.ProcessQuery | core/src/main/java/tc/oc/pgm/regions/RegionMatchModule.java:416-439 | the event's new state and the returned flag are those `Decide` specifies |
| RegionMatch.CancelMessage | core/src/main/java/tc/oc/pgm/regions/RegionMatchModule.java:376-385 | a warning is sent exactly when the rule has a message, the event is cancellable and cancelled (for an interaction: its block use is denied), and the query is about a player; the warning is that message |
| RegionMatch.AfterDecision | core/src/main/java/tc/oc/pgm/regions/RegionMatchModule.java:332-342 | the use follow-up on a cancelled interaction allows the item and denies the block, so the interaction stays cancelled; other follow-ups leave the event alone; no follow-up changes whether the event is cancelled; a warning is sent exactly when the hook owes one (damage: cancelled with a message; use: a cancelled interaction with a message; hanging: the cancel message), and it is then exactly the rule's message |
| RegionMatch.Pass | core/src/main/java/tc/oc/pgm/regions/RegionMatchModule.java:86-117 | specification of one handler loop; `RegionMatch.PriorityFirstDecisive`, `RegionMatch.LegacyLastDecisiveWins`, `RegionMatch.SilentPass` and the warning lemmas state what it does, `RegionMatch.RunRules` computes it |
| RegionMatch.RunRules | core/src/main/java/tc/oc/pgm/regions/RegionMatchModule.java:332-347 | the handler loop leaves the event, and sends the warnings, that the specified pass computes |
| RegionMatch.FollowUp | core/src/main/java/tc/oc/pgm/regions/RegionMatchModule.java:333-342 | the follow-up after a decisive rule leaves the event and sends the warnings that `AfterDecision` specifies |
| RegionMatch.ByScope | core/src/main/java/tc/oc/pgm/regions/RegionMatchModule.java:101 | `rfaContext.get(scope)` holds exactly the rules of that scope: all of them when every rule has it, none when no rule has it, and with `RegionMatch.ByScopeAppend` the order-preserving filter of the rules |
| RegionMatch.ByScopeAppend | core/src/main/java/tc/oc/pgm/regions/RegionMatchModule.java:101 | selecting a scope's rules commutes with concatenation, so the selection keeps the rules' order |
| RegionMatch.EnterLeaveOutcome | core/src/main/java/tc/oc/pgm/regions/RegionMatchModule.java:78-119 | specification of `checkEnterLeave`; `RegionMatch.EnterLeaveConditions` and `RegionMatch.FlagPickupFiresLeave` state its properties, `RegionMatch.RegionMatchModule.CheckEnterLeave` computes it |
| RegionMatch.TransformOutcome | core/src/main/java/tc/oc/pgm/regions/RegionMatchModule.java:171-238 | specification of `checkBlockTransform`; `RegionMatch.LegacyTransformIsBreak` states how the regimes treat a non-place, `RegionMatch.RegionMatchModule.CheckBlockTransform` computes it |
| RegionMatch.PhysicsOutcome | core/src/main/java/tc/oc/pgm/regions/RegionMatchModule.java:240-247 | specification of `checkBlockPhysics`: a halting pass over the physics rules, so `RegionMatch.PriorityFirstDecisive` applies; `RegionMatch.RegionMatchModule.CheckBlockPhysics` computes it |
| RegionMatch.DamageOutcome | core/src/main/java/tc/oc/pgm/regions/RegionMatchModule.java:249-269 | specification of `checkBlockDamage`; the warning lemmas state its warnings, `RegionMatch.RegionMatchModule.CheckBlockDamage` computes it |
| RegionMatch.UseOutcome | core/src/main/java/tc/oc/pgm/regions/RegionMatchModule.java:326-348 | specification of `handleUse`; `RegionMatch.UseReversalFreesItem` and `RegionMatch.UseDenyScenario` state its properties, `RegionMatch.RegionMatchModule.HandleUse` computes it |
| RegionMatch.HangingPlaceOutcome | core/src/main/java/tc/oc/pgm/regions/RegionMatchModule.java:350-359 | specification of `handleHangingPlace`; the warning lemmas state its warnings, `RegionMatch.RegionMatchModule.HandleHangingPlace` computes it |
| RegionMatch.HangingBreakOutcome | core/src/main/java/tc/oc/pgm/regions/RegionMatchModule.java:361-374 | specification of `handleHangingBreak`; the warning lemmas state its warnings, `RegionMatch.RegionMatchModule.HandleHangingBreak` computes it |
| RegionMatch.GetActor | core/src/main/java/tc/oc/pgm/regions/RegionMatchModule.java:397-403 | legacy maps blame an explosion on no player; otherwise the actor is the event's player state |
| RegionMatch.MakeBlockQuery | core/src/main/java/tc/oc/pgm/regions/RegionMatchModule.java:387-395 | the query is a player block query exactly for a player who can interact, and then names that player; otherwise it is a block query with no actor; both are about the block with the given material applied |
| RegionMatch.FireRule | core/src/main/java/tc/oc/pgm/regions/RegionMatchModule.java:142-168 | the body of the effects loop fires exactly the effects specified for one rule |
| RegionMatch.FirstDecisive | core/src/main/java/tc/oc/pgm/regions/RegionMatchModule.java:88-97 | the index found is a decisive rule with no decisive rule before it, or there is no decisive rule at all |
| RegionMatch.LastDecisive | core/src/main/java/tc/oc/pgm/regions/RegionMatchModule.java:101-117 | the index found is a decisive rule with no decisive rule after it, or there is no decisive rule at all |
| RegionMatch.PriorityFirstDecisive | core/src/main/java/tc/oc/pgm/regions/RegionMatchModule.java:86-98 | in the region-priority regime a pass equals the first decisive rule's effect alone, or changes nothing when no rule decides |
| RegionMatch.LegacyLastDecisiveWins | core/src/main/java/tc/oc/pgm/regions/RegionMatchModule.java:99-117 | in the legacy regime, with no priority-aware rule and whatever the follow-up, whether the event ends cancelled is decided by the last decisive rule's answer, or is unchanged when none decides |
| RegionMatch.RegimesDiffer | core/src/main/java/tc/oc/pgm/regions/RegionMatchModule.java:86-117 | an allowing rule followed by a denying one leaves the event allowed under region priority and cancelled under the legacy regime |
| RegionMatch.SilentPass | core/src/main/java/tc/oc/pgm/regions/RegionMatchModule.java:416-419 | a pass in which no rule decides changes neither the event nor the warnings |
| RegionMatch.WarningsAreMessages | core/src/main/java/tc/oc/pgm/regions/RegionMatchModule.java:339-341 | every warning a pass sends is the message of one of its rules |
| RegionMatch.WarningsGrow | core/src/main/java/tc/oc/pgm/regions/RegionMatchModule.java:339-341 | a pass keeps the warnings already sent and only appends |
| RegionMatch.FirstWarningSent | core/src/main/java/tc/oc/pgm/regions/RegionMatchModule.java:339-341 | conversely, when the follow-up owes a warning after the first decisive rule, that rule's message is the next warning sent |
| RegionMatch.UseReversalFreesItem | core/src/main/java/tc/oc/pgm/regions/RegionMatchModule.java:332-347 | after a use pass the interaction's item use is denied exactly when it was denied before and no rule decided |
| RegionMatch.UseDenyScenario | core/src/main/java/tc/oc/pgm/regions/RegionMatchModule.java:326-348 | a denying use rule over the clicked block allows the item and denies the block (so the interaction stays cancelled) and sends the rule's warning |
| RegionMatch.EnterLeaveConditions | core/src/main/java/tc/oc/pgm/regions/RegionMatchModule.java:88-93 | with no `from`, enter rules apply where the region holds the target and leave rules where it does not; with a `from`, no rule both enters and leaves, and a move that keeps membership triggers neither |
| RegionMatch.FlagPickupFiresLeave | core/src/main/java/tc/oc/pgm/regions/RegionMatchModule.java:127-131 | a flag pickup has no `from`, so a denying leave rule whose region does not hold the carrier cancels the pickup |
| RegionMatch.LegacyTransformIsBreak | core/src/main/java/tc/oc/pgm/regions/RegionMatchModule.java:222-236 | a transform that is neither a place nor a break is denied by a break rule in the legacy regime, and is untouched in the priority regime |
| RegionMatch.NoCrossingNoEffects | core/src/main/java/tc/oc/pgm/regions/RegionMatchModule.java:145-147 | a move that crosses no effect region's border fires nothing |
| RegionMatch.EffectsExact | core/src/main/java/tc/oc/pgm/regions/RegionMatchModule.java:142-168 | each fired effect has a rule that accounts for it. Each rule not denying the player fires its velocity on entry. It applies its kit on entry, and removes a lent kit on exit, for players who can interact |
| RegionMatch.RuleEffectsExact | core/src/main/java/tc/oc/pgm/regions/RegionMatchModule.java:142-168 | one rule fires exactly the effects it accounts for |
| RegionMatch.EffectsSound | core/src/main/java/tc/oc/pgm/regions/RegionMatchModule.java:142-168 | each fired effect has a rule that accounts for it |
| RegionMatch.EffectsComplete | core/src/main/java/tc/oc/pgm/regions/RegionMatchModule.java:142-168 | each rule not denying the player fires every effect it accounts for |
| RegionMatch.FireAll | core/src/main/java/tc/oc/pgm/regions/RegionMatchModule.java:142-168 | the effects loop fires the specified effects, in rule order |
| RegionMatch.RegionMatchModule.constructor | core/src/main/java/tc/oc/pgm/regions/RegionMatchModule.java:63-68 | the module holds its rules, its regime, its TNT-owner flag and the maximum build height |
| RegionMatch.RegionMatchModule.GetMaxBuildHeight | core/src/main/java/tc/oc/pgm/regions/RegionMatchModule.java:70-72 | returns the stored height |
| RegionMatch.RegionMatchModule.SetMaxBuildHeight | core/src/main/java/tc/oc/pgm/regions/RegionMatchModule.java:74-76 | stores the height and changes nothing else |
| RegionMatch.RegionMatchModule.CheckEnterLeave | core/src/main/java/tc/oc/pgm/regions/RegionMatchModule.java:78-119 | the event ends as the enter/leave specification says: untouched for players that cannot interact, one interleaved pass under priority, and separate enter and leave passes in the legacy regime |
| RegionMatch.RegionMatchModule.CheckCoarseMove | core/src/main/java/tc/oc/pgm/regions/RegionMatchModule.java:121-125 | an already cancelled event is left alone (`ignoreCancelled`); otherwise a coarse move is the enter/leave check from its `from` block |
| RegionMatch.RegionMatchModule.CheckFlagPickup | core/src/main/java/tc/oc/pgm/regions/RegionMatchModule.java:127-131 | an already cancelled event is left alone (`ignoreCancelled`); otherwise a flag pickup is the enter/leave check with no `from` |
| RegionMatch.RegionMatchModule.ApplyEffects | core/src/main/java/tc/oc/pgm/regions/RegionMatchModule.java:133-169 | a cancelled move, or no player, fires no effects; otherwise the effects fired are those of the effect-scope rules |
| RegionMatch.RegionMatchModule.CheckBlockTransform | core/src/main/java/tc/oc/pgm/regions/RegionMatchModule.java:171-238 | an already cancelled event is left alone (`ignoreCancelled`); otherwise the event ends as the transform specification says: one pass over break, place and place-against rules under priority; the legacy place-or-break pass otherwise |
| RegionMatch.RegionMatchModule.CheckBlockPhysics | core/src/main/java/tc/oc/pgm/regions/RegionMatchModule.java:240-247 | an already cancelled event is left alone (`ignoreCancelled`); otherwise the first decisive physics rule over the block settles the event |
| RegionMatch.RegionMatchModule.CheckBlockDamage | core/src/main/java/tc/oc/pgm/regions/RegionMatchModule.java:249-269 | an already cancelled event is left alone and warns nobody; otherwise, for participants only, the early-warning break rules over the block are consulted, warning on a cancelled event with a message |
| RegionMatch.RegionMatchModule.CheckUse | core/src/main/java/tc/oc/pgm/regions/RegionMatchModule.java:271-279 | only a right click on a block, of an event not already cancelled, is handled, as a use of that block with no material |
| RegionMatch.RegionMatchModule.CheckHangingPlace | core/src/main/java/tc/oc/pgm/regions/RegionMatchModule.java:281-286 | an already cancelled event is left alone (`ignoreCancelled`); otherwise the hanging place handler over the entity's block |
| RegionMatch.RegionMatchModule.CheckHangingBreak | core/src/main/java/tc/oc/pgm/regions/RegionMatchModule.java:288-291 | an already cancelled event is left alone (`ignoreCancelled`); otherwise the hanging break handler |
| RegionMatch.RegionMatchModule.CheckItemFrameItemRemove | core/src/main/java/tc/oc/pgm/regions/RegionMatchModule.java:293-301 | only damage to an item frame holding an item, of an event not already cancelled, is handled, as a hanging break |
| RegionMatch.RegionMatchModule.CheckItemFrameRotate | core/src/main/java/tc/oc/pgm/regions/RegionMatchModule.java:303-324 | an already cancelled event is left alone (`ignoreCancelled`); otherwise a frame holding an item (`getItem() != null`) is a use of its block with the frame's own hanging type (`getHangingType`) as the material, an empty frame clicked with an item a place of that item, and anything else changes nothing |
| RegionMatch.RegionMatchModule.HandleUse | core/src/main/java/tc/oc/pgm/regions/RegionMatchModule.java:326-348 | for interacting players only, the use rules over the block are consulted, with the use reversal after each decisive one |
| RegionMatch.RegionMatchModule.HandleHangingPlace | core/src/main/java/tc/oc/pgm/regions/RegionMatchModule.java:350-359 | the place rules over the block are consulted with the block query, sending the cancel message after each decisive one |
| RegionMatch.RegionMatchModule.HandleHangingBreak | core/src/main/java/tc/oc/pgm/regions/RegionMatchModule.java:361-374 | nothing happens without a hanging type; otherwise the break rules over the breaker's block are consulted, sending the cancel message after each decisive one |
| AttributeKits.Applied | core/src/main/java/tc/oc/pgm/kits/AttributeKit.java:20-27 | specification of the apply loop; `AttributeKits.AppliedClosedForm`, `AttributeKits.ApplyFrame` and `AttributeKits.ApplyIdempotent` state its properties |
| AttributeKits.Removed | core/src/main/java/tc/oc/pgm/kits/AttributeKit.java:35-42 | specification of the remove loop; `AttributeKits.RemovedClosedForm`, `AttributeKits.RemoveFrame` and `AttributeKits.RemoveUndoesApply` state its properties |
| AttributeKits.AppliedClosedForm | core/src/main/java/tc/oc/pgm/kits/AttributeKit.java:20-27 | applying a kit adds, to each instance the player has, exactly the kit's modifiers for that attribute; missing attributes stay missing |
| AttributeKits.RemovedClosedForm | core/src/main/java/tc/oc/pgm/kits/AttributeKit.java:35-42 | removing a kit takes, from each instance the player has, exactly the kit's modifiers for that attribute |
| AttributeKits.ApplyFrame | core/src/main/java/tc/oc/pgm/kits/AttributeKit.java:20-27 | apply keeps the player's attributes, keeps every existing modifier, adds all of the kit's and nothing else, and leaves attributes the kit does not name alone |
| AttributeKits.ApplyIdempotent | core/src/main/java/tc/oc/pgm/kits/AttributeKit.java:23 | applying a kit twice equals applying it once |
| AttributeKits.RemoveFrame | core/src/main/java/tc/oc/pgm/kits/AttributeKit.java:35-42 | after removal none of the kit's modifiers remain, and every other modifier does |
| AttributeKits.RemoveUndoesApply | core/src/main/java/tc/oc/pgm/kits/AttributeKit.java:20-42 | removal undoes application when the player held none of the kit's modifiers before |
| AttributeKits.AttributeKit.ApplyPostEvent | core/src/main/java/tc/oc/pgm/kits/AttributeKit.java:20-27 | the apply loop leaves the player's instances as the specified application |
| AttributeKits.AttributeKit.IsRemovable | core/src/main/java/tc/oc/pgm/kits/AttributeKit.java:30-32 | the kit is always removable |
| AttributeKits.AttributeKit.Remove | core/src/main/java/tc/oc/pgm/kits/AttributeKit.java:35-42 | the remove loop leaves the player's instances as the specified removal |
| Afk.SecondsBetween | util/src/main/java/tc/oc/pgm/util/listener/AfkTracker.java:49 | specification of `until(…, SECONDS)`, truncated toward zero; `Afk.WindowElapsed` states what it means for the five-second window |
| Afk.WindowElapsed | util/src/main/java/tc/oc/pgm/util/listener/AfkTracker.java:49 | whole seconds truncated toward zero reach 5 exactly when at least 5000 ms have passed |
| Afk.SoftTrackSpec | util/src/main/java/tc/oc/pgm/util/listener/AfkTracker.java:46-57 | a soft track only ever moves the instants to `now`; when it marks the player active it resets the whole record to a fresh one; the `int` count ends at most 15 |
| Afk.SoftCountBounded | util/src/main/java/tc/oc/pgm/util/listener/AfkTracker.java:53-56 | with a count in 0..15 and an amount up to 1000, the count stays in 0..15 |
| Afk.TrackMarksActive | util/src/main/java/tc/oc/pgm/util/listener/AfkTracker.java:42-44 | a full track always marks the player active now and empties the soft window |
| Afk.SoftActionsAccumulate | util/src/main/java/tc/oc/pgm/util/listener/AfkTracker.java:49-56 | within the window, light actions totalling at most 15 only add to the count |
| Afk.RepeatAccumulates | util/src/main/java/tc/oc/pgm/util/listener/AfkTracker.java:49-56 | `n` light actions of the same amount within one window add `n` times that amount to the count (`Afk.Times`, which `Afk.TimesIsProduct` shows is `n * amt`), as long as the total stays within 15 |
| Afk.SoftWindowResets | util/src/main/java/tc/oc/pgm/util/listener/AfkTracker.java:49-52 | once five seconds have passed, the window restarts at `now` with the new amount as its count |
| Afk.LookMovesScenario | util/src/main/java/tc/oc/pgm/util/listener/AfkTracker.java:64-69 | five look-moves in one instant leave a fresh player's last-active time alone; the sixth marks it active |
| Afk.AfterSoftTrack | util/src/main/java/tc/oc/pgm/util/listener/AfkTracker.java:38-57 | a soft track of one player adds that player if new and changes no other player's record |
| Afk.Activity.SoftTrack | util/src/main/java/tc/oc/pgm/util/listener/AfkTracker.java:46-57 | the activity's fields become the specified soft-track state |
| Afk.Activity.AfkDuration | util/src/main/java/tc/oc/pgm/util/listener/AfkTracker.java:122-124 | the AFK duration is the time from the last activity to `now` |
| Afk.Activity.IsAfk | util/src/main/java/tc/oc/pgm/util/listener/AfkTracker.java:126-128 | AFK exactly when at least the given duration has passed since the last activity |
| Afk.Activity.IsActive | util/src/main/java/tc/oc/pgm/util/listener/AfkTracker.java:130-132 | active exactly when not AFK |
| Afk.AfkTracker.constructor | util/src/main/java/tc/oc/pgm/util/listener/AfkTracker.java:33-36 | a new tracker has no activity records and the given cached instant |
| Afk.AfkTracker.Tick | util/src/main/java/tc/oc/pgm/util/listener/AfkTracker.java:35 | the scheduler refresh changes only the cached instant |
| Afk.AfkTracker.GetActivity | util/src/main/java/tc/oc/pgm/util/listener/AfkTracker.java:38-40 | returns the player's existing record untouched, or creates one fresh at `now` for a new player; no other record changes |
| Afk.AfkTracker.SoftTrack | util/src/main/java/tc/oc/pgm/util/listener/AfkTracker.java:46-57 | the records become the specified soft track of the player; every existing record object is kept |
| Afk.AfkTracker.Bump | util/src/main/java/tc/oc/pgm/util/listener/AfkTracker.java:48-56 | updating one player's record object updates that player's state only |
| Afk.AfkTracker.Track | util/src/main/java/tc/oc/pgm/util/listener/AfkTracker.java:42-44 | a full track is a soft track of 1000 points |
| Afk.AfkTracker.OnFullAction | util/src/main/java/tc/oc/pgm/util/listener/AfkTracker.java:59-105 | joining, chatting, commands and inventory clicks fully track the player |
| Afk.AfkTracker.OnPlayerMove | util/src/main/java/tc/oc/pgm/util/listener/AfkTracker.java:64-69 | a move soft-tracks 3 points exactly when both yaw and pitch changed, and otherwise changes nothing |
| Afk.AfkTracker.OnPlayerCoarseMove | util/src/main/java/tc/oc/pgm/util/listener/AfkTracker.java:71-77 | a cancelled move changes nothing (`ignoreCancelled`); otherwise a coarse move soft-tracks 1 point exactly when the block column changed, so falling and jumping change nothing |
| Afk.AfkTracker.OnPlayerInteract | util/src/main/java/tc/oc/pgm/util/listener/AfkTracker.java:89-94 | a physical interaction changes nothing; a click fully tracks the player |
| Afk.AfkTracker.OnInventoryOpenOrClose | util/src/main/java/tc/oc/pgm/util/listener/AfkTracker.java:96-111 | opening or closing an inventory soft-tracks a player viewer by 3 points, and changes nothing otherwise |
| Materials.MaterialId | util/src/main/java/tc/oc/pgm/util/material/Materials.java:83-101 | the id is always in -1..999 |
| Materials.MaterialIdMeaning | util/src/main/java/tc/oc/pgm/util/material/Materials.java:83-101 | a one- to three-digit string reads as its decimal value, and the result is -1 exactly for every other string |
| Materials.MaterialIdRoundTrip | util/src/main/java/tc/oc/pgm/util/material/Materials.java:83-101 | every id from 0 to 999 reads back from its decimal rendering |
| Materials.MaterialIdLength | util/src/main/java/tc/oc/pgm/util/material/Materials.java:99 | the empty string and strings longer than three characters are never ids |
| Materials.LiquidTable | util/src/main/java/tc/oc/pgm/util/material/Materials.java:153-189 | exactly the four water and lava materials are liquids, and none is both water and lava |
| Materials.IsBucket | util/src/main/java/tc/oc/pgm/util/material/Materials.java:203-208 | specification: the empty bucket and the three filled ones; `Materials.MaterialInBucket` proves these are the inputs the content lookup accepts |
| Materials.MaterialInBucket | util/src/main/java/tc/oc/pgm/util/material/Materials.java:223-230 | succeeds exactly on the four buckets (`isBucket`, 203-208); what a bucket holds is air or a liquid |
| Materials.BucketContents | util/src/main/java/tc/oc/pgm/util/material/Materials.java:223-230 | the empty and the milk bucket hold air, the lava bucket lava, the water bucket water; a content is never a bucket |
| Materials.Amount | util/src/main/java/tc/oc/pgm/util/material/Materials.java:210-212 | a missing stack and a stack of air count 0; any other stack counts its amount |
| Materials.IsNothing | util/src/main/java/tc/oc/pgm/util/material/Materials.java:214-217 | specification of `isNothing`; `Materials.IsNothingCases` states exactly when it holds |
| Materials.IsNothingCases | util/src/main/java/tc/oc/pgm/util/material/Materials.java:214-217 | a stack is nothing exactly when it is missing, air, or of amount zero; in particular null is nothing |
| XmlUtils.AttributeNamed | util/src/main/java/tc/oc/pgm/util/xml/XMLUtils.java:139 | the attribute found carries the name asked for; none is found exactly when no attribute has that name |
| XmlUtils.GetAttribute | util/src/main/java/tc/oc/pgm/util/xml/XMLUtils.java:137-143 | no attribute is returned exactly when no alias is present; otherwise it is an attribute of the element named by an alias |
| XmlUtils.GetAttributeFirst | util/src/main/java/tc/oc/pgm/util/xml/XMLUtils.java:138-141 | the first present alias, in alias order, wins |
| XmlUtils.RequiredAttribute | util/src/main/java/tc/oc/pgm/util/xml/XMLUtils.java:173-198 | specification of `getRequiredAttribute`; `XmlUtils.RequiredAttributeFound` and `XmlUtils.RequiredAttributeMissing` state its cases, `XmlUtils.GetRequiredAttribute` computes it |
| XmlUtils.GetRequiredAttribute | util/src/main/java/tc/oc/pgm/util/xml/XMLUtils.java:173-198 | the loop's result is the specified one: the first two present aliases conflict, one present alias is returned, and none is the required-attribute error on the first alias |
| XmlUtils.RequiredAttributeFound | util/src/main/java/tc/oc/pgm/util/xml/XMLUtils.java:173-198 | success exactly when one alias is present, and then the attribute is the one `getAttribute` finds |
| XmlUtils.RequiredAttributeMissing | util/src/main/java/tc/oc/pgm/util/xml/XMLUtils.java:193-195 | the required-attribute error is raised exactly when no alias is present |
| XmlUtils.CollectChildren | util/src/main/java/tc/oc/pgm/util/xml/XMLUtils.java:147-150 | the collecting loop gathers the children named by each alias in turn |
| XmlUtils.UniqueChild | util/src/main/java/tc/oc/pgm/util/xml/XMLUtils.java:145-156 | specification of `getUniqueChild`; `XmlUtils.UniqueChildMeaning` states its cases, `XmlUtils.GetUniqueChild` computes it |
| XmlUtils.RequiredUniqueChild | util/src/main/java/tc/oc/pgm/util/xml/XMLUtils.java:158-171 | specification of `getRequiredUniqueChild`; `XmlUtils.UniqueChildMeaning` states its cases, `XmlUtils.GetRequiredUniqueChild` computes it |
| XmlUtils.GetUniqueChild | util/src/main/java/tc/oc/pgm/util/xml/XMLUtils.java:145-156 | the method returns the specified unique child or error |
| XmlUtils.GetRequiredUniqueChild | util/src/main/java/tc/oc/pgm/util/xml/XMLUtils.java:158-171 | the method returns the specified required child or error |
| XmlUtils.UniqueChildMeaning | util/src/main/java/tc/oc/pgm/util/xml/XMLUtils.java:145-171 | none exactly when no child has an alias name; a returned child is the only such child; exactly one match is returned; the error comes exactly when more than one child matches (counting each alias's matches, so equal elements count twice) and is the multiple-tags error; the required lookup succeeds on exactly the same child |
| XmlUtils.RepeatedAliasRejectsSingleChild | util/src/main/java/tc/oc/pgm/util/xml/XMLUtils.java:148-153 | a repeated alias counts a single child twice, so one child named `a` is rejected under aliases `a, a` |
| XmlUtils.Flatten | util/src/main/java/tc/oc/pgm/util/xml/XMLUtils.java:65-88 | specification of `flattenElements`; `XmlUtils.FlattenFiltered`, `XmlUtils.FlattenNeedsParents`, `XmlUtils.FlattenKeepsPlainChildren` and `XmlUtils.FlattenFromTree` state its properties, `XmlUtils.FlattenElements` computes it |
| XmlUtils.FlattenElements | util/src/main/java/tc/oc/pgm/util/xml/XMLUtils.java:65-88 | the recursive walk with its loop returns the specified in-order flattening |
| XmlUtils.FlattenFiltered | util/src/main/java/tc/oc/pgm/util/xml/XMLUtils.java:75-85 | every element in the result is a non-parent tag that the depth and name filters let through |
| XmlUtils.FlattenNeedsParents | util/src/main/java/tc/oc/pgm/util/xml/XMLUtils.java:75-76 | above the minimum depth, children outside parent tags are dropped |
| XmlUtils.FlattenKeepsPlainChildren | util/src/main/java/tc/oc/pgm/util/xml/XMLUtils.java:77-78 | at or below the minimum depth, with no child-name set, plain children are all kept, in order |
| XmlUtils.FlattenFromTree | util/src/main/java/tc/oc/pgm/util/xml/XMLUtils.java:65-88 | every element in the result is a descendant of the root |
| XmlUtils.Trim | util/src/main/java/tc/oc/pgm/util/xml/XMLUtils.java:277 | `String.trim` keeps only characters of its input, leaves no space or control character at either end, and leaves a string without one unchanged |
| XmlUtils.ParseNumber | util/src/main/java/tc/oc/pgm/util/xml/XMLUtils.java:273-292 | without infinities this is `valueOf` of the type; any value lies in the type's range |
| XmlUtils.ParseNumberInfinity | util/src/main/java/tc/oc/pgm/util/xml/XMLUtils.java:276-283 | with infinities allowed, trimmed `oo` and `+oo` give the type's maximum and `-oo` its minimum; without, they are not numbers |
| XmlUtils.ParseNumberRoundTrip | util/src/main/java/tc/oc/pgm/util/xml/XMLUtils.java:273-292 | every value of the type, negative ones with their minus sign, reads back from its decimal rendering, with or without infinities |
| XmlUtils.MakeRange | util/src/main/java/tc/oc/pgm/util/xml/XMLUtils.java:491 | `Range.range` fails exactly on a reversed pair or an empty open singleton, and otherwise is the valid range with those ends |
| XmlUtils.ParseRange | util/src/main/java/tc/oc/pgm/util/xml/XMLUtils.java:481-499 | a reversed pair is the lower-above-upper error; any range it builds is valid |
| XmlUtils.ParseRangeContains | util/src/main/java/tc/oc/pgm/util/xml/XMLUtils.java:481-499 | the range built contains a value exactly when each given end admits it |
| XmlUtils.SingletonContains | util/src/main/java/tc/oc/pgm/util/xml/XMLUtils.java:463 | a singleton contains exactly its value, and is the closed range from it to itself |
| XmlUtils.ElementRange | util/src/main/java/tc/oc/pgm/util/xml/XMLUtils.java:512-561 | specification of the attribute form of `parseNumericRange`; the `XmlUtils.ElementRange…` lemmas state its errors and its ends |
| XmlUtils.ElementRangeConflicts | util/src/main/java/tc/oc/pgm/util/xml/XMLUtils.java:512-527 | `count` with any bound, `lt` with `lte`/`max`, and `gt` with `gte`/`min` are the three errors, checked in that order; no attribute gives the default |
| XmlUtils.ElementRangeCount | util/src/main/java/tc/oc/pgm/util/xml/XMLUtils.java:528 | a successful `count` is the singleton of its number |
| XmlUtils.ElementRangeLower | util/src/main/java/tc/oc/pgm/util/xml/XMLUtils.java:533-539 | the lower end is `gt` open, else `gte` closed, else `min` closed; with only upper attributes it is unbounded, as in `Range.upTo` |
| XmlUtils.ElementRangeUpper | util/src/main/java/tc/oc/pgm/util/xml/XMLUtils.java:541-547 | the upper end is `lt` open, else `lte` closed, else `max` closed; with only lower attributes it is unbounded, as in `Range.downTo` |
| XmlUtils.ElementRangeOrderUnchecked | util/src/main/java/tc/oc/pgm/util/xml/XMLUtils.java:549-561 | a reversed `gte`/`lte` pair reaches `Range.range` and throws its illegal-argument error, where `parseRange` would have given the checked error |
| XmlUtils.TextRange | util/src/main/java/tc/oc/pgm/util/xml/XMLUtils.java:449-499 | specification of the text form of `parseNumericRange` once its regular expression has matched; `XmlUtils.DottedRange`, `XmlUtils.NumberedRange` and `XmlUtils.LoneRange` state its cases |
| XmlUtils.DottedRange | util/src/main/java/tc/oc/pgm/util/xml/XMLUtils.java:449-473 | in dotted text a missing low side is `-oo` and a missing high side is `oo`; `..` is all values; `oo` is no low side (text `RANGE_DOTTED` itself never admits there); both ends are closed |
| XmlUtils.NumberedRange | util/src/main/java/tc/oc/pgm/util/xml/XMLUtils.java:449-473 | for any numbers `lo <= hi` of the type, of either sign, `lo..hi` is the closed range, and bracketed text the range with the brackets' open or closed ends |
| XmlUtils.LoneRange | util/src/main/java/tc/oc/pgm/util/xml/XMLUtils.java:459-467 | a lone number of the type, of either sign, is its singleton, and the infinity words give the singleton of the type's maximum or minimum |
| XmlUtils.TickDurationAsWritten | util/src/main/java/tc/oc/pgm/util/xml/XMLUtils.java:612-619 | `oo` is infinite; text that is not an `int` falls back to the general duration parser; an `int` gives a millisecond count that is itself an `int` |
| XmlUtils.TickDurationOverflows | util/src/main/java/tc/oc/pgm/util/xml/XMLUtils.java:615 | for tick counts above `Integer.MAX_VALUE / 50` the source's duration is not fifty milliseconds per tick; 50000000 ticks give -1794967296 ms |
| XmlUtils.TickDuration | util/src/main/java/tc/oc/pgm/util/xml/XMLUtils.java:612-619 | the corrected parser: `oo` is infinite and text that is not an `int` falls back |
| XmlUtils.TickDurationExact | util/src/main/java/tc/oc/pgm/util/xml/XMLUtils.java:612-619 | each tick is exactly 50 ms for every `int` tick count, Integer.MIN_VALUE included, and the corrected parser agrees with the source for every count whose product stays in `int` |

## Left out

- Floating point: the `Float` and `Double` number types of `parseNumber` and the ranges are not modelled; yaw and pitch are `real`s compared for equality only.
- `Character.digit` and `Integer.parseInt` are modelled on ASCII digits only. Other Unicode digits, which Java accepts too, are not.
- The regular expressions `RANGE_DOTTED` and `RANGE_RE` are not modelled. Their matched groups are the input of `XmlUtils.TextRange`.
- Attribute inheritance of `InheritingElement` is not modelled. `InheritingElement` is not part of this model, so flattened elements are the children themselves.
- `TextParser.parseDuration` is not part of this model. Its answer is the `fallback` parameter of the tick-duration parsers.
- Bukkit I/O is not modelled: sending warnings (returned as sequences of messages), velocity packets, and the removal of disconnected players by `OnlinePlayerMapAdapter`.
- The scheduler is not modelled. The cached instant is a field that `Tick` refreshes, and instants are whole milliseconds.
- Some of the source's collaborators are assumptions here:
  - `Region.enters`/`Region.exits` are taken to be "not in `from` and in `to`" and its inverse;
  - `RFAContext` is a sequence of rules in priority order;
  - a `GeneralizedEvent` is cancellable and keeps the deny message.
- The Bukkit entry points take what they read off their event as inputs. `checkUse` is given whether the action is a right click on a block and the clicked block, if any. `checkItemFrameItemRemove` is given whether the damaged entity is an item frame holding an item. `checkItemFrameRotate` is given whether the clicked entity is an item frame, whether the frame holds an item, the frame's hanging type and the item in hand. The hanging type of `getHangingType` is an input where a handler needs it.
- `ignoreCancelled` is modelled as Bukkit's dispatch does it: a handler registered with it is not run for an event already cancelled. `RegionMatch.RegionMatchModule.CheckEnterLeave`, `HandleUse`, `HandleHangingPlace` and `HandleHangingBreak` are the unguarded helpers their guarded entry points call. For the AFK tracker, `Afk.AfkTracker.OnPlayerCoarseMove` is told whether the move arrives cancelled.
- Bukkit's `PlayerInteractEvent` is not part of this model; its documented behaviour is modelled by `RegionMatch.Cancelled` and `RegionMatch.WithCancelled`. `isCancelled()` is whether using the clicked block is denied. `setCancelled(true)` denies both uses. `setCancelled(false)` resets a denied use to the default. The other cancellable events keep a flag.
- Regions.Contains: `contains(Vector point)` takes a real-valued point, while the model asks only about integer block positions. Block enumeration and the region handlers use block positions too. The exception is the flag pickup, which tests the carrier's exact location; `RegionMatch.RegionMatchModule.CheckFlagPickup` takes the carrier's block instead.
- Geometry.Union: bounds are finite boxes or empty. Infinite bounds (`Bounds.unbounded()` and infinite coordinates) are not modelled.
- `getStaticImpl` and `toString` of a union are not modelled; a child's static form is the child itself.
- Iterators are modelled as the sequences they yield. The capacity hint of `BlockVectorSet` has no effect on its contents.
- Primitive regions (cuboids and the rest) are abstract shapes. `Bounds.getBlockVolume` is taken to return an `int`.
- Primitive well-formedness: the enumeration theorems require each primitive to list its blocks without repeats and within its bounds (`Regions.WellFormed`), which the primitive region classes (not part of this model) are trusted to do.
- RegionMatch.RegionMatchModule.CheckBlockTransform: the clicked block of a block place or bucket emptying comes with the transform as an optional input; the cause's type is not modelled.
- AttributeKits.AttributeKit.ApplyPostEvent: `force` and the displaced items play no part, as in the source; modifiers are compared by value.
- Afk.AfkTracker.OnPlayerMove: yaw and pitch are compared as reals, without Java's floating-point NaN and signed-zero equality.
- XmlUtils.ParseNumber: only the integral types `Integer`, `Long`, `Short` and `Byte` are modelled.

## Findings

| source | as written | input that shows it | evidently intended | confidence | as-written member | corrected member |
|---|---|---|---|---|---|---|
| util/src/main/java/tc/oc/pgm/util/xml/XMLUtils.java:615 | `Integer.parseInt(text) * 50` is computed in 32-bit `int` arithmetic before `Duration.ofMillis` widens it to `long`, so counts of more than 42949672 ticks in magnitude wrap | `"50000000"` gives -1794967296 ms, a negative duration, where 2500000000 ms was meant | multiply in `long`: 50 ms per tick for every `int` tick count | not executed | XmlUtils.TickDurationOverflows | XmlUtils.TickDurationExact |
