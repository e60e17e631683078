/** Attribute kits (`AttributeKit.java`): a kit is a multimap from attributes
    to modifiers; applying it adds each modifier to the player's instance of its
    attribute, removing it takes each one away.  A player's attribute instances
    are a map from the attributes the player has to the modifiers each carries;
    `getAttribute` returning null is an attribute outside that map. */
module AttributeKits {

  datatype Attribute = Attribute(id: nat)

  /** A modifier is identified by its identity; the amount and operation are
      carried along. */
  datatype Modifier = Modifier(uuid: nat, amount: real, operation: nat)

  type Instances = map<Attribute, set<Modifier>>

  /** One entry of the apply loop: add the modifier when the instance exists and
      lacks it. */
  function AddEntry(m: Instances, e: (Attribute, Modifier)): Instances {
    if e.0 in m && e.1 !in m[e.0] then m[e.0 := m[e.0] + {e.1}] else m
  }

  /** One entry of the remove loop: remove the modifier when the instance exists
      and holds it. */
  function RemoveEntry(m: Instances, e: (Attribute, Modifier)): Instances {
    if e.0 in m && e.1 in m[e.0] then m[e.0 := m[e.0] - {e.1}] else m
  }

  /** The apply loop over the kit's entries, in their iteration order. */
  function Applied(m: Instances, es: seq<(Attribute, Modifier)>): Instances
    decreases |es|
  {
    if |es| == 0 then m else Applied(AddEntry(m, es[0]), es[1..])
  }

  /** The remove loop over the kit's entries. */
  function Removed(m: Instances, es: seq<(Attribute, Modifier)>): Instances
    decreases |es|
  {
    if |es| == 0 then m else Removed(RemoveEntry(m, es[0]), es[1..])
  }

  /** The modifiers the kit holds for one attribute. */
  function KitModifiers(es: seq<(Attribute, Modifier)>, a: Attribute): set<Modifier> {
    set i | 0 <= i < |es| && es[i].0 == a :: es[i].1
  }

  lemma KitModifiersCons(es: seq<(Attribute, Modifier)>, a: Attribute)
    requires |es| > 0
    ensures KitModifiers(es, a) ==
      (if es[0].0 == a then {es[0].1} else {}) + KitModifiers(es[1..], a)
  {
    var rest := es[1..];
    forall x | x in KitModifiers(es, a)
      ensures x in (if es[0].0 == a then {es[0].1} else {}) + KitModifiers(rest, a)
    {
      var i :| 0 <= i < |es| && es[i].0 == a && es[i].1 == x;
      if i > 0 { assert rest[i - 1] == es[i]; }
    }
    forall x | x in KitModifiers(rest, a) ensures x in KitModifiers(es, a) {
      var i :| 0 <= i < |rest| && rest[i].0 == a && rest[i].1 == x;
      assert es[i + 1] == rest[i];
    }
  }

  /** Applying a kit adds, to every instance the player has, exactly the kit's
      modifiers for that attribute; attributes the player lacks stay absent. */
  lemma {:induction false} AppliedClosedForm(m: Instances, es: seq<(Attribute, Modifier)>)
    ensures Applied(m, es) == map a | a in m :: m[a] + KitModifiers(es, a)
    decreases |es|
  {
    var closed := map a | a in m :: m[a] + KitModifiers(es, a);
    if |es| == 0 {
      assert forall a | a in m :: KitModifiers(es, a) == {};
      assert closed.Keys == m.Keys && forall a | a in m :: closed[a] == m[a];
      assert Applied(m, es) == closed;
    } else {
      var m1 := AddEntry(m, es[0]);
      AppliedClosedForm(m1, es[1..]);
      assert m1.Keys == m.Keys;
      forall a | a in m ensures m1[a] + KitModifiers(es[1..], a) == closed[a] {
        KitModifiersCons(es, a);
      }
      assert (map a | a in m1 :: m1[a] + KitModifiers(es[1..], a)) == closed;
    }
  }

  /** Removing a kit takes, from every instance the player has, exactly the
      kit's modifiers for that attribute. */
  lemma {:induction false} RemovedClosedForm(m: Instances, es: seq<(Attribute, Modifier)>)
    ensures Removed(m, es) == map a | a in m :: m[a] - KitModifiers(es, a)
    decreases |es|
  {
    var closed := map a | a in m :: m[a] - KitModifiers(es, a);
    if |es| == 0 {
      assert forall a | a in m :: KitModifiers(es, a) == {};
      assert closed.Keys == m.Keys && forall a | a in m :: closed[a] == m[a];
      assert Removed(m, es) == closed;
    } else {
      var m1 := RemoveEntry(m, es[0]);
      RemovedClosedForm(m1, es[1..]);
      assert m1.Keys == m.Keys;
      forall a | a in m ensures m1[a] - KitModifiers(es[1..], a) == closed[a] {
        KitModifiersCons(es, a);
      }
      assert (map a | a in m1 :: m1[a] - KitModifiers(es[1..], a)) == closed;
    }
  }

  /** Apply touches only the kit's attributes, only adds the kit's modifiers,
      and leaves the player's set of attributes alone. */
  lemma ApplyFrame(m: Instances, es: seq<(Attribute, Modifier)>)
    ensures Applied(m, es).Keys == m.Keys
    ensures forall a | a in m :: m[a] <= Applied(m, es)[a]
    ensures forall a | a in m :: KitModifiers(es, a) <= Applied(m, es)[a]
    ensures forall a, x | a in m && x in Applied(m, es)[a] && x !in m[a] :: x in KitModifiers(es, a)
    ensures forall a | a in m && KitModifiers(es, a) == {} :: Applied(m, es)[a] == m[a]
  {
    AppliedClosedForm(m, es);
  }

  /** Applying a kit twice leaves the same modifiers as applying it once. */
  lemma ApplyIdempotent(m: Instances, es: seq<(Attribute, Modifier)>)
    ensures Applied(Applied(m, es), es) == Applied(m, es)
  {
    AppliedClosedForm(m, es);
    AppliedClosedForm(Applied(m, es), es);
  }

  /** After removal none of the kit's modifiers remain on any instance of its
      attributes; modifiers outside the kit, and attributes the kit does not
      name, are untouched. */
  lemma RemoveFrame(m: Instances, es: seq<(Attribute, Modifier)>)
    ensures Removed(m, es).Keys == m.Keys
    ensures forall a, x | a in m && x in KitModifiers(es, a) :: x !in Removed(m, es)[a]
    ensures forall a, x | a in m && x in m[a] && x !in KitModifiers(es, a) :: x in Removed(m, es)[a]
    ensures forall a | a in m :: Removed(m, es)[a] <= m[a]
  {
    RemovedClosedForm(m, es);
  }

  /** Removal undoes application when the player held none of the kit's
      modifiers beforehand. */
  lemma RemoveUndoesApply(m: Instances, es: seq<(Attribute, Modifier)>)
    requires forall a | a in m :: m[a] !! KitModifiers(es, a)
    ensures Removed(Applied(m, es), es) == m
  {
    AppliedClosedForm(m, es);
    RemovedClosedForm(Applied(m, es), es);
    forall a | a in m ensures (m[a] + KitModifiers(es, a)) - KitModifiers(es, a) == m[a] {
    }
  }

  /** A player, seen as its attribute instances. */
  class AttributePlayer {
    var attributes: Instances

    constructor(attributes: Instances)
      ensures this.attributes == attributes
    {
      this.attributes := attributes;
    }
  }

  class AttributeKit {
    /** The multimap's entries, in iteration order. */
    const modifiers: seq<(Attribute, Modifier)>

    constructor(modifiers: seq<(Attribute, Modifier)>)
      ensures this.modifiers == modifiers
    {
      this.modifiers := modifiers;
    }

    /** `applyPostEvent`; `force` and the displaced items play no part. */
    method ApplyPostEvent(player: AttributePlayer, force: bool)
      modifies player
      ensures player.attributes == Applied(old(player.attributes), modifiers)
    {
      var i := 0;
      while i < |modifiers|
        invariant 0 <= i <= |modifiers|
        invariant Applied(player.attributes, modifiers[i..]) == Applied(old(player.attributes), modifiers)
      {
        assert modifiers[i..][0] == modifiers[i] && modifiers[i..][1..] == modifiers[i + 1..];
        var (a, x) := modifiers[i];
        if a in player.attributes && x !in player.attributes[a] {
          player.attributes := player.attributes[a := player.attributes[a] + {x}];
        }
        i := i + 1;
      }
      assert modifiers[i..] == [];
    }

    function IsRemovable(): (r: bool)
      ensures r
    {
      true
    }

    method Remove(player: AttributePlayer)
      modifies player
      ensures player.attributes == Removed(old(player.attributes), modifiers)
    {
      var i := 0;
      while i < |modifiers|
        invariant 0 <= i <= |modifiers|
        invariant Removed(player.attributes, modifiers[i..]) == Removed(old(player.attributes), modifiers)
      {
        assert modifiers[i..][0] == modifiers[i] && modifiers[i..][1..] == modifiers[i + 1..];
        var (a, x) := modifiers[i];
        if a in player.attributes && x in player.attributes[a] {
          player.attributes := player.attributes[a := player.attributes[a] - {x}];
        }
        i := i + 1;
      }
      assert modifiers[i..] == [];
    }
  }
}
