/** The validation rules of the XML helpers (`XMLUtils.java`): attribute and
    child lookups by alias, numbers with the `oo` infinity, numeric ranges built
    from attributes or from range text, tick durations, and the flattening of
    nested parent tags.  An element is its tag name, its attributes in document
    order, and its child elements in document order. */
module XmlUtils {
  import opened Wrappers
  import opened JavaInt

  datatype Attribute = Attribute(name: string, value: string)

  datatype Element = Element(name: string, attributes: seq<Attribute>, children: seq<Element>)

  /** Each exception the helpers throw.  `IllegalArgument` is the unchecked
      exception of the range library; `IndexOutOfBounds` is reading the first
      alias of an empty alias list. */
  datatype XmlError =
    | AliasConflict(first: string, second: string)
    | AttributeRequired(name: string)
    | MultipleChildren(name: string)
    | ChildRequired(name: string)
    | InvalidNumber(text: string)
    | CountWithBounds
    | ConflictingUpper
    | ConflictingLower
    | LowerAboveUpper(lower: int, upper: int)
    | IllegalArgument
    | IndexOutOfBounds

  // ---------------------------------------------------------------------
  // Attribute lookups

  /** `Element.getAttribute(name)`: the attribute of that name, if any. */
  function AttributeNamed(attrs: seq<Attribute>, name: string): (r: Option<Attribute>)
    ensures r.Some? ==> r.value in attrs && r.value.name == name
    ensures r.None? <==> forall a | a in attrs :: a.name != name
  {
    if attrs == [] then None
    else if attrs[0].name == name then Some(attrs[0])
    else AttributeNamed(attrs[1..], name)
  }

  predicate Has(el: Element, name: string) {
    AttributeNamed(el.attributes, name).Some?
  }

  /** `getAttribute(el, names...)`: the attribute named by the first alias that
      is present, or none when no alias is present. */
  function GetAttribute(el: Element, names: seq<string>): (r: Option<Attribute>)
    ensures r.None? <==> forall i | 0 <= i < |names| :: !Has(el, names[i])
    ensures r.Some? ==> r.value in el.attributes && r.value.name in names
  {
    if names == [] then None
    else if Has(el, names[0]) then AttributeNamed(el.attributes, names[0])
    else
      var rest := GetAttribute(el, names[1..]);
      assert forall i | 1 <= i < |names| :: names[i] == names[1..][i - 1];
      rest
  }

  /** The optional lookup returns the attribute of the first alias present. */
  lemma {:induction false} GetAttributeFirst(el: Element, names: seq<string>, i: nat)
    requires i < |names| && Has(el, names[i])
    requires forall j | 0 <= j < i :: !Has(el, names[j])
    ensures GetAttribute(el, names) == AttributeNamed(el.attributes, names[i])
  {
    if i > 0 {
      assert !Has(el, names[0]);
      assert names[1..][i - 1] == names[i];
      GetAttributeFirst(el, names[1..], i - 1);
    }
  }

  /** The aliases that are present on the element, in alias order. */
  function Present(el: Element, aliases: seq<string>): (p: seq<string>)
    ensures forall x :: x in p <==> x in aliases && Has(el, x)
    ensures |p| <= |aliases|
  {
    if aliases == [] then []
    else
      var last := aliases[|aliases| - 1];
      assert aliases == aliases[..|aliases| - 1] + [last];
      Present(el, aliases[..|aliases| - 1]) + (if Has(el, last) then [last] else [])
  }

  lemma {:induction false} PresentPrefix(el: Element, aliases: seq<string>, k: nat)
    requires k <= |aliases|
    ensures Present(el, aliases[..k]) <= Present(el, aliases)
    decreases |aliases| - k
  {
    if k < |aliases| {
      PresentPrefix(el, aliases, k + 1);
      var s := aliases[..k + 1];
      assert s[..|s| - 1] == aliases[..k];
    } else {
      assert aliases[..k] == aliases;
    }
  }

  /** `getRequiredAttribute`: exactly one alias may be present.  Two present
      aliases are the conflict between the first two of them; none is the
      missing-attribute error naming the first alias. */
  function RequiredAttribute(el: Element, aliases: seq<string>): Result<Attribute, XmlError> {
    var p := Present(el, aliases);
    if |p| >= 2 then Failure(AliasConflict(p[0], p[1]))
    else if |p| == 1 then
      assert p[0] in p;
      Success(AttributeNamed(el.attributes, p[0]).value)
    else if |aliases| == 0 then Failure(IndexOutOfBounds)
    else Failure(AttributeRequired(aliases[0]))
  }

  lemma PresentStep(el: Element, aliases: seq<string>, i: nat)
    requires i < |aliases|
    ensures Present(el, aliases[..i + 1]) ==
      Present(el, aliases[..i]) + (if Has(el, aliases[i]) then [aliases[i]] else [])
  {
    var s := aliases[..i + 1];
    assert s[..|s| - 1] == aliases[..i] && s[|s| - 1] == aliases[i];
  }

  /** A second present alias decides the outcome of the whole lookup. */
  lemma ConflictAt(el: Element, aliases: seq<string>, i: nat, first: string)
    requires i < |aliases| && Present(el, aliases[..i]) == [first] && Has(el, aliases[i])
    ensures RequiredAttribute(el, aliases) == Failure(AliasConflict(first, aliases[i]))
  {
    PresentStep(el, aliases, i);
    PresentPrefix(el, aliases, i + 1);
  }

  /** The loop of `getRequiredAttribute`, which stops at the second present alias. */
  method GetRequiredAttribute(el: Element, aliases: seq<string>) returns (r: Result<Attribute, XmlError>)
    ensures r == RequiredAttribute(el, aliases)
  {
    var attr: Option<Attribute> := None;
    var i := 0;
    while i < |aliases|
      invariant 0 <= i <= |aliases|
      invariant Present(el, aliases[..i]) == if attr.Some? then [attr.value.name] else []
      invariant attr.Some? ==> attr == AttributeNamed(el.attributes, attr.value.name)
    {
      var a := AttributeNamed(el.attributes, aliases[i]);
      if a.Some? && attr.Some? {
        ConflictAt(el, aliases, i, attr.value.name);
        return Failure(AliasConflict(attr.value.name, aliases[i]));
      }
      RequiredAttributeStep(el, aliases, i, attr);
      if a.Some? {
        attr := a;
      }
      i := i + 1;
    }
    assert aliases[..i] == aliases;
    RequiredAttributeAtEnd(el, aliases, attr);
    if attr.None? {
      if |aliases| == 0 {
        return Failure(IndexOutOfBounds);
      }
      return Failure(AttributeRequired(aliases[0]));
    }
    return Success(attr.value);
  }

  /** One alias further without a conflict, the present aliases are still at
      most the one the loop holds. */
  lemma RequiredAttributeStep(el: Element, aliases: seq<string>, i: nat, attr: Option<Attribute>)
    requires i < |aliases|
    requires Present(el, aliases[..i]) == if attr.Some? then [attr.value.name] else []
    requires attr.Some? ==> !Has(el, aliases[i])
    ensures var next := if Has(el, aliases[i]) then AttributeNamed(el.attributes, aliases[i]) else attr;
      Present(el, aliases[..i + 1]) == if next.Some? then [next.value.name] else []
  {
    PresentStep(el, aliases, i);
  }

  /** The lookup once the loop has seen every alias without a conflict. */
  lemma RequiredAttributeAtEnd(el: Element, aliases: seq<string>, attr: Option<Attribute>)
    requires Present(el, aliases) == if attr.Some? then [attr.value.name] else []
    requires attr.Some? ==> attr == AttributeNamed(el.attributes, attr.value.name)
    ensures attr.Some? ==> RequiredAttribute(el, aliases) == Success(attr.value)
    ensures attr.None? && |aliases| == 0 ==> RequiredAttribute(el, aliases) == Failure(IndexOutOfBounds)
    ensures attr.None? && |aliases| > 0 ==> RequiredAttribute(el, aliases) == Failure(AttributeRequired(aliases[0]))
  {
  }

  /** A required attribute is found exactly when one alias is present, and it is
      then the one the optional lookup returns. */
  lemma RequiredAttributeFound(el: Element, aliases: seq<string>)
    ensures RequiredAttribute(el, aliases).Success? <==> |Present(el, aliases)| == 1
    ensures RequiredAttribute(el, aliases).Success? ==>
      GetAttribute(el, aliases) == Some(RequiredAttribute(el, aliases).value)
  {
    var p := Present(el, aliases);
    if |p| == 1 {
      assert p == [p[0]];
      assert p[0] in p;
      var k :| 0 <= k < |aliases| && aliases[k] == p[0];
      var k0 := FirstIndexOf(aliases, p[0], k);
      forall j | 0 <= j < k0 ensures !Has(el, aliases[j]) {
        assert aliases[j] in aliases && aliases[j] !in p;
      }
      GetAttributeFirst(el, aliases, k0);
    }
  }

  /** The missing-attribute error is raised exactly when no alias is present. */
  lemma RequiredAttributeMissing(el: Element, aliases: seq<string>)
    requires |aliases| > 0
    ensures RequiredAttribute(el, aliases) == Failure(AttributeRequired(aliases[0])) <==>
      forall i | 0 <= i < |aliases| :: !Has(el, aliases[i])
  {
    var p := Present(el, aliases);
    if |p| == 0 {
      forall i | 0 <= i < |aliases| ensures !Has(el, aliases[i]) {
        assert aliases[i] in aliases && aliases[i] !in p;
      }
    } else {
      assert p[0] in p;
    }
  }

  /** The least index holding `x`, given some index that holds it. */
  function FirstIndexOf(s: seq<string>, x: string, k: nat): (i: nat)
    requires k < |s| && s[k] == x
    ensures i <= k && s[i] == x
    ensures forall j | 0 <= j < i :: s[j] != x
  {
    if exists j | 0 <= j < k :: s[j] == x then
      var j :| 0 <= j < k && s[j] == x;
      FirstIndexOf(s, x, j)
    else k
  }

  // ---------------------------------------------------------------------
  // Unique child lookups

  /** `Element.getChildren(name)`: the children of that name, in document order. */
  function ChildrenNamed(cs: seq<Element>, name: string): (r: seq<Element>)
    ensures forall e :: e in r <==> e in cs && e.name == name
  {
    if cs == [] then []
    else (if cs[0].name == name then [cs[0]] else []) + ChildrenNamed(cs[1..], name)
  }

  /** The list the unique-child lookups build: the children of each alias in
      turn. */
  function Matches(parent: Element, aliases: seq<string>): (r: seq<Element>)
    ensures forall e :: e in r <==> e in parent.children && e.name in aliases
    ensures aliases == [] ==> r == []
  {
    if aliases == [] then []
    else
      var last := aliases[|aliases| - 1];
      assert aliases == aliases[..|aliases| - 1] + [last];
      Matches(parent, aliases[..|aliases| - 1]) + ChildrenNamed(parent.children, last)
  }

  method CollectChildren(parent: Element, aliases: seq<string>) returns (children: seq<Element>)
    ensures children == Matches(parent, aliases)
  {
    children := [];
    var i := 0;
    while i < |aliases|
      invariant 0 <= i <= |aliases|
      invariant children == Matches(parent, aliases[..i])
    {
      var s := aliases[..i + 1];
      assert s[..|s| - 1] == aliases[..i];
      children := children + ChildrenNamed(parent.children, aliases[i]);
      i := i + 1;
    }
    assert aliases[..i] == aliases;
  }

  /** `getUniqueChild`: more than one match is an error naming the first alias;
      no match is none. */
  function UniqueChild(parent: Element, aliases: seq<string>): Result<Option<Element>, XmlError> {
    var m := Matches(parent, aliases);
    if |m| > 1 then Failure(MultipleChildren(aliases[0]))
    else if |m| == 0 then Success(None)
    else Success(Some(m[0]))
  }

  /** `getRequiredUniqueChild`: as `getUniqueChild`, and no match is an error too. */
  function RequiredUniqueChild(parent: Element, aliases: seq<string>): Result<Element, XmlError> {
    var m := Matches(parent, aliases);
    if |m| > 1 then Failure(MultipleChildren(aliases[0]))
    else if |m| == 0 then
      (if |aliases| == 0 then Failure(IndexOutOfBounds) else Failure(ChildRequired(aliases[0])))
    else Success(m[0])
  }

  method GetUniqueChild(parent: Element, aliases: seq<string>) returns (r: Result<Option<Element>, XmlError>)
    ensures r == UniqueChild(parent, aliases)
  {
    var children := CollectChildren(parent, aliases);
    if |children| > 1 {
      return Failure(MultipleChildren(aliases[0]));
    }
    return if |children| == 0 then Success(None) else Success(Some(children[0]));
  }

  method GetRequiredUniqueChild(parent: Element, aliases: seq<string>) returns (r: Result<Element, XmlError>)
    ensures r == RequiredUniqueChild(parent, aliases)
  {
    var children := CollectChildren(parent, aliases);
    if |children| > 1 {
      return Failure(MultipleChildren(aliases[0]));
    } else if |children| == 0 {
      if |aliases| == 0 {
        return Failure(IndexOutOfBounds);
      }
      return Failure(ChildRequired(aliases[0]));
    }
    return Success(children[0]);
  }

  /** The unique child is absent exactly when no child carries an alias, and a
      found child is a child carrying an alias that no other such child shares
      (as an element); more than one match, even of equal elements, is the
      duplicate error; the required lookup agrees with the optional one except
      that absence is an error. */
  lemma UniqueChildMeaning(parent: Element, aliases: seq<string>)
    ensures UniqueChild(parent, aliases) == Success(None) <==>
      forall c | c in parent.children :: c.name !in aliases
    ensures UniqueChild(parent, aliases).Success? && UniqueChild(parent, aliases).value.Some? ==>
      var c := UniqueChild(parent, aliases).value.value;
      c in parent.children && c.name in aliases &&
      forall d | d in parent.children && d.name in aliases :: d == c
    ensures forall c :: RequiredUniqueChild(parent, aliases) == Success(c) <==>
      UniqueChild(parent, aliases) == Success(Some(c))
    ensures |aliases| > 0 && UniqueChild(parent, aliases) == Success(None) ==>
      RequiredUniqueChild(parent, aliases) == Failure(ChildRequired(aliases[0]))
    ensures UniqueChild(parent, aliases).Failure? <==> |Matches(parent, aliases)| > 1
    ensures |Matches(parent, aliases)| == 1 ==>
      UniqueChild(parent, aliases) == Success(Some(Matches(parent, aliases)[0]))
    ensures UniqueChild(parent, aliases).Success? && UniqueChild(parent, aliases).value.Some? ==>
      Matches(parent, aliases) == [UniqueChild(parent, aliases).value.value]
    ensures UniqueChild(parent, aliases).Failure? <==>
      (RequiredUniqueChild(parent, aliases).Failure? &&
       RequiredUniqueChild(parent, aliases).error.MultipleChildren?)
  {
    var m := Matches(parent, aliases);
    if |m| == 1 {
      forall d | d in parent.children && d.name in aliases ensures d == m[0] {
        assert d in m;
      }
    }
    if |m| > 0 {
      assert m[0] in m;
    }
  }

  /** A repeated alias counts its children twice: a single child is then
      rejected as a duplicate. */
  lemma RepeatedAliasRejectsSingleChild(parent: Element, a: string)
    requires |parent.children| == 1 && parent.children[0].name == a
    ensures UniqueChild(parent, [a]) == Success(Some(parent.children[0]))
    ensures UniqueChild(parent, [a, a]) == Failure(MultipleChildren(a))
  {
    var c := parent.children[0];
    assert parent.children[1..] == [];
    assert ChildrenNamed(parent.children, a) == [c];
    assert [a, a][..1] == [a] && [a][..0] == [];
    assert Matches(parent, [a]) == [c];
    assert Matches(parent, [a, a]) == [c, c];
  }

  // ---------------------------------------------------------------------
  // Flattening of parent tags

  /** Whether a child of a tag at the given remaining depth is visited: above the
      minimum depth only parent tags are; after it, every child when no child
      names are given, otherwise parent and child tags. */
  predicate Visited(c: Element, parents: set<string>, childNames: Option<set<string>>, depth: int) {
    if depth > 0 then c.name in parents
    else childNames.None? || c.name in parents || c.name in childNames.value
  }

  /** `flattenElements` over a list of siblings: a visited parent tag is replaced
      by the flattening of its own children one level deeper; any other visited
      child is kept. */
  function FlattenList(cs: seq<Element>, parents: set<string>, childNames: Option<set<string>>, depth: int): seq<Element>
    decreases cs
  {
    if cs == [] then []
    else
      var c := cs[0];
      (if !Visited(c, parents, childNames, depth) then []
       else if c.name in parents then FlattenList(c.children, parents, childNames, depth - 1)
       else [c])
      + FlattenList(cs[1..], parents, childNames, depth)
  }

  function Flatten(root: Element, parents: set<string>, childNames: Option<set<string>>, depth: int): seq<Element> {
    FlattenList(root.children, parents, childNames, depth)
  }

  /** The recursive walk of `flattenElements`, in document order. */
  method FlattenElements(root: Element, parents: set<string>, childNames: Option<set<string>>, depth: int)
    returns (result: seq<Element>)
    ensures result == Flatten(root, parents, childNames, depth)
    decreases root
  {
    result := [];
    var cs := root.children;
    var i := 0;
    while i < |cs|
      invariant 0 <= i <= |cs|
      invariant result + FlattenList(cs[i..], parents, childNames, depth) == FlattenList(cs, parents, childNames, depth)
    {
      var child := cs[i];
      assert cs[i..][0] == child && cs[i..][1..] == cs[i + 1..];
      ghost var rest := FlattenList(cs[i + 1..], parents, childNames, depth);
      var piece: seq<Element> := [];
      if Visited(child, parents, childNames, depth) {
        if child.name in parents {
          piece := FlattenElements(child, parents, childNames, depth - 1);
        } else {
          piece := [child];
        }
      }
      assert FlattenList(cs[i..], parents, childNames, depth) == piece + rest;
      ConcatAssoc(result, piece, rest);
      result := result + piece;
      i := i + 1;
    }
    assert cs[i..] == [];
  }

  lemma ConcatAssoc(a: seq<Element>, b: seq<Element>, c: seq<Element>)
    ensures a + (b + c) == (a + b) + c
  {
  }

  /** No parent tag survives flattening, and when child names are given every
      element returned carries one of them. */
  lemma {:induction false} FlattenFiltered(cs: seq<Element>, parents: set<string>, childNames: Option<set<string>>, depth: int)
    ensures forall e | e in FlattenList(cs, parents, childNames, depth) ::
      e.name !in parents && (childNames.Some? ==> e.name in childNames.value)
    decreases cs
  {
    if cs != [] {
      var c := cs[0];
      if Visited(c, parents, childNames, depth) && c.name in parents {
        FlattenFiltered(c.children, parents, childNames, depth - 1);
      }
      FlattenFiltered(cs[1..], parents, childNames, depth);
    }
  }

  /** With a positive minimum depth, children outside parent tags are never
      returned: siblings without parent tags flatten to nothing. */
  lemma {:induction false} FlattenNeedsParents(cs: seq<Element>, parents: set<string>, childNames: Option<set<string>>, depth: int)
    requires depth > 0
    requires forall c | c in cs :: c.name !in parents
    ensures FlattenList(cs, parents, childNames, depth) == []
    decreases cs
  {
    if cs != [] {
      FlattenNeedsParents(cs[1..], parents, childNames, depth);
    }
  }

  /** At depth zero with no child names, siblings without parent tags are all
      returned, in order. */
  lemma {:induction false} FlattenKeepsPlainChildren(cs: seq<Element>, parents: set<string>, depth: int)
    requires depth <= 0
    requires forall c | c in cs :: c.name !in parents
    ensures FlattenList(cs, parents, None, depth) == cs
    decreases cs
  {
    if cs != [] {
      FlattenKeepsPlainChildren(cs[1..], parents, depth);
      assert cs == [cs[0]] + cs[1..];
    }
  }

  /** Every element returned lies somewhere below the siblings it came from. */
  predicate Below(e: Element, cs: seq<Element>)
    decreases cs
  {
    exists i | 0 <= i < |cs| :: cs[i] == e || Below(e, cs[i].children)
  }

  lemma {:induction false} FlattenFromTree(cs: seq<Element>, parents: set<string>, childNames: Option<set<string>>, depth: int)
    ensures forall e | e in FlattenList(cs, parents, childNames, depth) :: Below(e, cs)
    decreases cs
  {
    if cs != [] {
      var c := cs[0];
      var rest := cs[1..];
      FlattenFromTree(rest, parents, childNames, depth);
      if Visited(c, parents, childNames, depth) && c.name in parents {
        FlattenFromTree(c.children, parents, childNames, depth - 1);
      }
      forall e | e in FlattenList(cs, parents, childNames, depth) ensures Below(e, cs) {
        if e in FlattenList(rest, parents, childNames, depth) {
          var i :| 0 <= i < |rest| && (rest[i] == e || Below(e, rest[i].children));
          assert cs[i + 1] == rest[i];
        } else {
          assert cs[0] == e || Below(e, cs[0].children);
        }
      }
    }
  }

  // ---------------------------------------------------------------------
  // Numbers

  /** An integral number type of the parser: the range of its values.  Its
      infinities are its extreme values, as the type has no infinity field. */
  datatype NumType = NumType(min: int, max: int)

  const IntegerType: NumType := NumType(INT_MIN, INT_MAX)
  const LongType: NumType := NumType(-0x8000_0000_0000_0000, 0x7FFF_FFFF_FFFF_FFFF)
  const ShortType: NumType := NumType(-0x8000, 0x7FFF)
  const ByteType: NumType := NumType(-0x80, 0x7F)

  /** `String.trim`: drops every leading and trailing character up to the space. */
  function Trim(s: string): (r: string)
    ensures forall c | c in r :: c in s
    ensures |r| > 0 ==> r[0] > ' ' && r[|r| - 1] > ' '
    ensures |s| > 0 && s[0] > ' ' && s[|s| - 1] > ' ' ==> r == s
  {
    TrimEnd(TrimStart(s))
  }

  function TrimStart(s: string): (r: string)
    ensures forall c | c in r :: c in s
    ensures |r| <= |s|
    ensures |r| > 0 ==> r[0] > ' ' && r[|r| - 1] == s[|s| - 1]
    ensures |s| > 0 && s[0] > ' ' ==> r == s
  {
    if |s| > 0 && s[0] <= ' ' then TrimStart(s[1..]) else s
  }

  function TrimEnd(s: string): (r: string)
    ensures forall c | c in r :: c in s
    ensures |r| <= |s|
    ensures |r| > 0 ==> r[0] == s[0] && r[|r| - 1] > ' '
    ensures |s| > 0 && s[|s| - 1] > ' ' ==> r == s
  {
    if |s| > 0 && s[|s| - 1] <= ' ' then TrimEnd(s[..|s| - 1]) else s
  }

  /** `parseNumber(text, type, infinity)`: with the flag set, trimmed `oo` or
      `+oo` is the type's largest value and `-oo` its smallest; otherwise the
      text is the type's `valueOf`, whose failure is `None`. */
  function ParseNumber(text: string, t: NumType, infinity: bool): (r: Option<int>)
    ensures !infinity ==> r == ParseIntIn(text, t.min, t.max)
    ensures r.Some? && t.min <= t.max ==> t.min <= r.value <= t.max
  {
    var trimmed := Trim(text);
    if infinity && (trimmed == "oo" || trimmed == "+oo") then Some(t.max)
    else if infinity && trimmed == "-oo" then Some(t.min)
    else ParseIntIn(text, t.min, t.max)
  }

  /** The infinity words are read only with the flag set; whitespace around
      them is ignored. */
  lemma ParseNumberInfinity(text: string, t: NumType)
    ensures Trim(text) == "oo" || Trim(text) == "+oo" ==> ParseNumber(text, t, true) == Some(t.max)
    ensures Trim(text) == "-oo" ==> ParseNumber(text, t, true) == Some(t.min)
    ensures ParseNumber(" oo ", t, true) == Some(t.max)
    ensures ParseNumber("oo", t, false).None? && ParseNumber("-oo", t, false).None?
  {
    assert Trim(" oo ") == "oo" by {
      assert TrimStart(" oo ") == TrimStart(" oo "[1..]);
      assert " oo "[1..] == "oo ";
      assert TrimEnd("oo ") == TrimEnd("oo "[..2]);
      assert "oo "[..2] == "oo";
    }
    assert !AllDigits("oo") by { assert !('0' <= "oo"[0] <= '9'); }
    assert !AllDigits("-oo"[1..]) by { assert "-oo"[1..][0] == 'o'; }
  }

  /** Every value of the type written in decimal, negative ones with their
      minus sign, is read back, with or without the infinity flag. */
  lemma ParseNumberRoundTrip(n: int, t: NumType, infinity: bool)
    requires t.min <= n <= t.max
    ensures ParseNumber(ToSignedDecimal(n), t, infinity) == Some(n)
  {
    var s := ToSignedDecimal(n);
    SignedRoundTrip(n);
    assert Trim(s) == s;
    assert s != "oo" && s != "+oo" && s != "-oo" by {
      assert "oo"[0] == 'o' && "+oo"[0] == '+';
      if n < 0 {
        assert s[1..] == ToDecimal(-n);
        assert '0' <= s[1] <= '9' && "-oo"[1] == 'o';
      }
    }
  }

  // ---------------------------------------------------------------------
  // Ranges

  datatype BoundType = Open | Closed

  /** One end of a range: unbounded, or a value that is excluded (`Open`) or
      included (`Closed`). */
  datatype Cut = Unbounded | Bound(value: int, kind: BoundType)

  datatype Range = Range(lower: Cut, upper: Cut)

  predicate AboveLower(c: Cut, x: int) {
    c.Unbounded? || (if c.kind == Open then c.value < x else c.value <= x)
  }

  predicate BelowUpper(c: Cut, x: int) {
    c.Unbounded? || (if c.kind == Open then x < c.value else x <= c.value)
  }

  predicate Contains(r: Range, x: int) {
    AboveLower(r.lower, x) && BelowUpper(r.upper, x)
  }

  /** The range library's invariant: the lower end does not lie above the upper
      end (the open interval from a value to itself is refused; the half-open ones
      are empty). */
  predicate ValidRange(r: Range) {
    r.lower.Bound? && r.upper.Bound? ==>
      r.lower.value < r.upper.value ||
      (r.lower.value == r.upper.value && !(r.lower.kind == Open && r.upper.kind == Open))
  }

  function Singleton(v: int): Range { Range(Bound(v, Closed), Bound(v, Closed)) }
  function DownTo(v: int, k: BoundType): Range { Range(Bound(v, k), Unbounded) }
  function UpTo(v: int, k: BoundType): Range { Range(Unbounded, Bound(v, k)) }
  function AllValues(): Range { Range(Unbounded, Unbounded) }

  /** `Range.range`: the library refuses ends in the wrong order. */
  function MakeRange(lo: int, lk: BoundType, hi: int, uk: BoundType): (r: Result<Range, XmlError>)
    ensures r.Success? ==> ValidRange(r.value) && r.value == Range(Bound(lo, lk), Bound(hi, uk))
    ensures r.Failure? <==> lo > hi || (lo == hi && lk == Open && uk == Open)
    ensures r.Failure? ==> r.error == IllegalArgument
  {
    if lo > hi || (lo == hi && lk == Open && uk == Open) then Failure(IllegalArgument)
    else Success(Range(Bound(lo, lk), Bound(hi, uk)))
  }

  /** `parseRange`: a lower end above the upper end is reported; otherwise the
      range has the ends that are given. */
  function ParseRange(lower: Option<int>, lk: BoundType, upper: Option<int>, uk: BoundType): (r: Result<Range, XmlError>)
    ensures r.Success? ==> ValidRange(r.value)
    ensures r.Failure? <==>
      (lower.Some? && upper.Some? &&
       (lower.value > upper.value || (lower.value == upper.value && lk == Open && uk == Open)))
    ensures r.Failure? && lower.value > upper.value ==> r.error == LowerAboveUpper(lower.value, upper.value)
  {
    if lower.Some? && upper.Some? then
      if lower.value > upper.value then Failure(LowerAboveUpper(lower.value, upper.value))
      else MakeRange(lower.value, lk, upper.value, uk)
    else if lower.Some? then Success(DownTo(lower.value, lk))
    else if upper.Some? then Success(UpTo(upper.value, uk))
    else Success(AllValues())
  }

  /** A parsed range holds exactly the values past each given end, an end being
      inclusive when closed and exclusive when open; a missing end bounds
      nothing. */
  lemma ParseRangeContains(lower: Option<int>, lk: BoundType, upper: Option<int>, uk: BoundType, x: int)
    requires ParseRange(lower, lk, upper, uk).Success?
    ensures Contains(ParseRange(lower, lk, upper, uk).value, x) <==>
      (lower.None? || (if lk == Open then lower.value < x else lower.value <= x)) &&
      (upper.None? || (if uk == Open then x < upper.value else x <= upper.value))
  {
  }

  /** A closed range from a value to itself holds that value alone. */
  lemma SingletonContains(v: int, x: int)
    ensures Contains(Singleton(v), x) <==> x == v
    ensures ParseRange(Some(v), Closed, Some(v), Closed) == Success(Singleton(v))
  {
  }

  /** `parseNumber(attr, type, null)`: a missing attribute is no value; a present
      one must hold a number. */
  function ParseOptional(attr: Option<Attribute>, t: NumType): (r: Result<Option<int>, XmlError>)
    ensures attr.None? ==> r == Success(None)
    ensures attr.Some? ==> (r.Failure? <==> ParseNumber(attr.value.value, t, false).None?)
    ensures r.Failure? ==> r.error == InvalidNumber(attr.value.value)
    ensures r.Success? && attr.Some? ==> r.value == ParseNumber(attr.value.value, t, false)
  {
    if attr.None? then Success(None)
    else match ParseNumber(attr.value.value, t, false)
      case None => Failure(InvalidNumber(attr.value.value))
      case Some(v) => Success(Some(v))
  }

  /** The number an attribute of the element holds, if it is present and holds one. */
  function NumberOf(el: Element, name: string, t: NumType): (r: Option<int>)
    ensures r.Some? ==> Has(el, name)
  {
    match AttributeNamed(el.attributes, name)
    case None => None
    case Some(a) => ParseNumber(a.value, t, false)
  }

  /** `parseNumericRange(el, type, def)`: the range given by the `count`, `lt`,
      `lte`/`max`, `gt` and `gte`/`min` attributes. */
  function ElementRange(el: Element, t: NumType, def: Range): Result<Range, XmlError> {
    var count := AttributeNamed(el.attributes, "count");
    var lt := AttributeNamed(el.attributes, "lt");
    var lte := GetAttribute(el, ["lte", "max"]);
    var gt := AttributeNamed(el.attributes, "gt");
    var gte := GetAttribute(el, ["gte", "min"]);
    if count.Some? && (lt.Some? || lte.Some? || gt.Some? || gte.Some?) then Failure(CountWithBounds)
    else if lt.Some? && lte.Some? then Failure(ConflictingUpper)
    else if gt.Some? && gte.Some? then Failure(ConflictingLower)
    else if count.Some? then
      match ParseOptional(count, t)
      case Failure(e) => Failure(e)
      case Success(v) => Success(Singleton(v.value))
    else
      var lowAttr := if gt.Some? then gt else gte;
      var lk := if gt.Some? then Open else Closed;
      var uppAttr := if lt.Some? then lt else lte;
      var uk := if lt.Some? then Open else Closed;
      match ParseOptional(lowAttr, t)
      case Failure(e) => Failure(e)
      case Success(lo) =>
        match ParseOptional(uppAttr, t)
        case Failure(e) => Failure(e)
        case Success(hi) =>
          if lo.None? then (if hi.None? then Success(def) else Success(UpTo(hi.value, uk)))
          else if hi.None? then Success(DownTo(lo.value, lk))
          else MakeRange(lo.value, lk, hi.value, uk)
  }

  /** The conflicts between range attributes: `count` with any bound, `lt` with
      `lte` or `max`, `gt` with `gte` or `min`; with none of the attributes the
      default range is returned. */
  lemma ElementRangeConflicts(el: Element, t: NumType, def: Range)
    ensures ElementRange(el, t, def) == Failure(CountWithBounds) <==>
      Has(el, "count") &&
      (Has(el, "lt") || Has(el, "lte") || Has(el, "max") || Has(el, "gt") || Has(el, "gte") || Has(el, "min"))
    ensures !Has(el, "count") && Has(el, "lt") && (Has(el, "lte") || Has(el, "max")) ==>
      ElementRange(el, t, def) == Failure(ConflictingUpper)
    ensures (!Has(el, "count") && !(Has(el, "lt") && (Has(el, "lte") || Has(el, "max"))) &&
             Has(el, "gt") && (Has(el, "gte") || Has(el, "min"))) ==>
      ElementRange(el, t, def) == Failure(ConflictingLower)
    ensures !(Has(el, "count") || Has(el, "lt") || Has(el, "lte") || Has(el, "max") ||
              Has(el, "gt") || Has(el, "gte") || Has(el, "min")) ==>
      ElementRange(el, t, def) == Success(def)
  {
    AliasPair(el, "lte", "max");
    AliasPair(el, "gte", "min");
  }

  /** Two aliases: the first one wins when both are present. */
  lemma AliasPair(el: Element, a: string, b: string)
    ensures GetAttribute(el, [a, b]) ==
      if Has(el, a) then AttributeNamed(el.attributes, a) else AttributeNamed(el.attributes, b)
  {
    assert [a, b][1..] == [b] && [b][1..] == [];
  }

  /** `count` alone gives the one-value range. */
  lemma ElementRangeCount(el: Element, t: NumType, def: Range)
    requires ElementRange(el, t, def).Success? && Has(el, "count")
    ensures NumberOf(el, "count", t).Some?
    ensures ElementRange(el, t, def) == Success(Singleton(NumberOf(el, "count", t).value))
  {
    AliasPair(el, "lte", "max");
    AliasPair(el, "gte", "min");
  }

  /** Without conflicts, `gt` gives an open lower end and `gte` or `min` a
      closed one, `gte` winning over `min` when both are given; with only upper
      attributes the lower end is unbounded (`Range.upTo`). */
  lemma ElementRangeLower(el: Element, t: NumType, def: Range)
    requires ElementRange(el, t, def).Success? && !Has(el, "count")
    ensures Has(el, "gt") ==>
      (NumberOf(el, "gt", t).Some? &&
       ElementRange(el, t, def).value.lower == Bound(NumberOf(el, "gt", t).value, Open))
    ensures Has(el, "gte") ==>
      (NumberOf(el, "gte", t).Some? &&
       ElementRange(el, t, def).value.lower == Bound(NumberOf(el, "gte", t).value, Closed))
    ensures !Has(el, "gte") && Has(el, "min") ==>
      (NumberOf(el, "min", t).Some? &&
       ElementRange(el, t, def).value.lower == Bound(NumberOf(el, "min", t).value, Closed))
    ensures (!Has(el, "gt") && !Has(el, "gte") && !Has(el, "min") &&
             (Has(el, "lt") || Has(el, "lte") || Has(el, "max"))) ==>
      ElementRange(el, t, def).value.lower.Unbounded?
  {
    AliasPair(el, "lte", "max");
    AliasPair(el, "gte", "min");
  }

  /** Without conflicts, `lt` gives an open upper end and `lte` or `max` a
      closed one, `lte` winning over `max` when both are given; with only lower
      attributes the upper end is unbounded (`Range.downTo`). */
  lemma ElementRangeUpper(el: Element, t: NumType, def: Range)
    requires ElementRange(el, t, def).Success? && !Has(el, "count")
    ensures Has(el, "lt") ==>
      (NumberOf(el, "lt", t).Some? &&
       ElementRange(el, t, def).value.upper == Bound(NumberOf(el, "lt", t).value, Open))
    ensures Has(el, "lte") ==>
      (NumberOf(el, "lte", t).Some? &&
       ElementRange(el, t, def).value.upper == Bound(NumberOf(el, "lte", t).value, Closed))
    ensures !Has(el, "lte") && Has(el, "max") ==>
      (NumberOf(el, "max", t).Some? &&
       ElementRange(el, t, def).value.upper == Bound(NumberOf(el, "max", t).value, Closed))
    ensures (!Has(el, "lt") && !Has(el, "lte") && !Has(el, "max") &&
             (Has(el, "gt") || Has(el, "gte") || Has(el, "min"))) ==>
      ElementRange(el, t, def).value.upper.Unbounded?
  {
    AliasPair(el, "lte", "max");
    AliasPair(el, "gte", "min");
  }

  /** Unlike `parseRange`, the attribute form does not check the order of its
      ends itself: a `gte` above an `lte` escapes as the range library's
      unchecked exception rather than as an XML error. */
  lemma ElementRangeOrderUnchecked(el: Element, t: NumType, def: Range, lo: int, hi: int)
    requires !Has(el, "count") && !Has(el, "lt") && !Has(el, "max") && !Has(el, "gt") && !Has(el, "min")
    requires NumberOf(el, "gte", t) == Some(lo) && NumberOf(el, "lte", t) == Some(hi)
    requires lo > hi
    ensures ElementRange(el, t, def) == Failure(IllegalArgument)
    ensures ParseRange(Some(lo), Closed, Some(hi), Closed) == Failure(LowerAboveUpper(lo, hi))
  {
    AliasPair(el, "lte", "max");
    AliasPair(el, "gte", "min");
  }

  /** The shape the range patterns recognise in the text of a range node: the
      dotted form with its optional sides, the bracketed form with its bracket
      kinds, or a lone number.  The patterns themselves are not modelled. */
  datatype RangeText =
    | Dotted(low: Option<string>, upp: Option<string>)
    | Bracketed(lowOpen: bool, lowText: string, uppText: string, uppOpen: bool)
    | Lone(text: string)

  /** One side of a range text: missing, or the side's infinity word, is no end;
      anything else must be a number (without infinity words). */
  function RangeSide(text: Option<string>, infinityWord: string, t: NumType): (r: Result<Option<int>, XmlError>)
    ensures text.None? || text == Some(infinityWord) ==> r == Success(None)
    ensures text.Some? && text != Some(infinityWord) ==>
      (r.Success? <==> ParseNumber(text.value, t, false).Some?) &&
      (r.Success? ==> r.value == ParseNumber(text.value, t, false)) &&
      (r.Failure? ==> r.error == InvalidNumber(text.value))
  {
    if text.None? || text.value == infinityWord then Success(None)
    else match ParseNumber(text.value, t, false)
      case None => Failure(InvalidNumber(text.value))
      case Some(v) => Success(Some(v))
  }

  /** The end of `parseNumericRange(node, value, type)` shared by the dotted and
      the bracketed form. */
  function SidesRange(low: Option<string>, lk: BoundType, upp: Option<string>, uk: BoundType, t: NumType): Result<Range, XmlError> {
    match RangeSide(low, "-oo", t)
    case Failure(e) => Failure(e)
    case Success(lo) =>
      match RangeSide(upp, "oo", t)
      case Failure(e) => Failure(e)
      case Success(hi) => ParseRange(lo, lk, hi, uk)
  }

  /** `parseNumericRange(node, value, type)` once the text is classified. */
  function TextRange(syntax: RangeText, t: NumType): Result<Range, XmlError> {
    match syntax
    case Lone(text) =>
      (match ParseNumber(text, t, true)
       case Some(v) => Success(Singleton(v))
       case None => Failure(InvalidNumber(text)))
    case Dotted(low, upp) => SidesRange(low, Closed, upp, Closed, t)
    case Bracketed(lowOpen, lowText, uppText, uppOpen) =>
      SidesRange(Some(lowText), if lowOpen then Open else Closed,
                 Some(uppText), if uppOpen then Open else Closed, t)
  }

  /** The dotted form is closed on both sides; a missing side and the side's
      infinity word leave that side unbounded; `-oo` is only the low side's word
      and `oo` only the high side's.  The `RANGE_DOTTED` expression never puts
      `oo` in the low group, so the clause about it concerns group texts that
      expression does not produce: it states what the parsing would do if it
      were reached, not a reachable input. */
  lemma DottedRange(low: Option<string>, upp: Option<string>, t: NumType)
    ensures TextRange(Dotted(None, upp), t) == TextRange(Dotted(Some("-oo"), upp), t)
    ensures TextRange(Dotted(low, None), t) == TextRange(Dotted(low, Some("oo")), t)
    ensures TextRange(Dotted(None, None), t) == Success(AllValues())
    ensures TextRange(Dotted(Some("oo"), upp), t) == Failure(InvalidNumber("oo"))
    ensures TextRange(Dotted(low, upp), t).Success? ==>
      var r := TextRange(Dotted(low, upp), t).value;
      (r.lower.Bound? ==> r.lower.kind == Closed) && (r.upper.Bound? ==> r.upper.kind == Closed) &&
      (r.lower.Unbounded? <==> low.None? || low == Some("-oo")) &&
      (r.upper.Unbounded? <==> upp.None? || upp == Some("oo"))
  {
    assert "oo" != "-oo";
    assert !AllDigits("oo") by { assert "oo"[0] == 'o'; }
  }

  /** Two numbers in the dotted form are the closed range between them; the
      bracketed form takes its ends' kinds from the brackets. */
  lemma NumberedRange(lo: int, hi: int, t: NumType, lowOpen: bool, uppOpen: bool)
    requires t.min <= lo <= hi <= t.max
    requires lo == hi ==> !(lowOpen && uppOpen)
    ensures TextRange(Dotted(Some(ToSignedDecimal(lo)), Some(ToSignedDecimal(hi))), t) ==
      Success(Range(Bound(lo, Closed), Bound(hi, Closed)))
    ensures TextRange(Bracketed(lowOpen, ToSignedDecimal(lo), ToSignedDecimal(hi), uppOpen), t) ==
      Success(Range(Bound(lo, if lowOpen then Open else Closed), Bound(hi, if uppOpen then Open else Closed)))
  {
    ParseNumberRoundTrip(lo, t, false);
    ParseNumberRoundTrip(hi, t, false);
    var a, b := ToSignedDecimal(lo), ToSignedDecimal(hi);
    assert a != "-oo" by { assert '0' <= a[|a| - 1] <= '9'; }
    assert b != "oo" by { assert '0' <= b[|b| - 1] <= '9'; }
  }

  /** A lone number is the one-value range; a lone infinity word is the range
      holding only the type's extreme value. */
  lemma LoneRange(n: int, t: NumType)
    requires t.min <= n <= t.max
    ensures TextRange(Lone(ToSignedDecimal(n)), t) == Success(Singleton(n))
    ensures TextRange(Lone("oo"), t) == Success(Singleton(t.max))
    ensures TextRange(Lone("-oo"), t) == Success(Singleton(t.min))
  {
    ParseNumberRoundTrip(n, t, true);
    ParseNumberInfinity("oo", t);
    ParseNumberInfinity("-oo", t);
    assert Trim("oo") == "oo" && Trim("-oo") == "-oo";
  }

  // ---------------------------------------------------------------------
  // Tick durations

  /** A duration in milliseconds, or the infinite duration. */
  datatype Duration = Infinite | Millis(ms: int)

  /** `parseTickDuration` as written: `oo` is the infinite duration; an `int` of
      ticks is multiplied by 50 in `int` arithmetic, which wraps; other text goes
      to the general duration parser, whose verdict is `fallback`. */
  function TickDurationAsWritten(text: string, fallback: Result<Duration, XmlError>): (r: Result<Duration, XmlError>)
    ensures text == "oo" ==> r == Success(Infinite)
    ensures text != "oo" && ParseInt(text).None? ==> r == fallback
    ensures text != "oo" && ParseInt(text).Some? ==> r.Success? && r.value.Millis? && InInt(r.value.ms)
  {
    if text == "oo" then Success(Infinite)
    else match ParseInt(text)
      case Some(n) => Success(Millis(Wrap32(n * 50)))
      case None => fallback
  }

  /** Above 42949672 ticks the product leaves the `int` range and the duration
      comes out wrong: 50000000 ticks would be 2500000000 ms but read as a
      negative duration. */
  lemma TickDurationOverflows(n: nat, fallback: Result<Duration, XmlError>)
    requires INT_MAX / 50 < n <= INT_MAX
    ensures TickDurationAsWritten(ToDecimal(n), fallback) != Success(Millis(n * 50))
    ensures n == 50000000 ==> TickDurationAsWritten(ToDecimal(n), fallback) == Success(Millis(-1794967296))
  {
    var s := ToDecimal(n);
    ParseIntRoundTrip(n);
    assert ToSignedDecimal(n) == s;
    assert s != "oo" by { assert '0' <= s[0] <= '9'; }
    assert TickDurationAsWritten(s, fallback) == Success(Millis(Wrap32(n * 50)));
    assert InInt(Wrap32(n * 50)) && !InInt(n * 50);
  }

  /** `parseTickDuration` with the product taken in `long` arithmetic, which no
      `int` number of ticks overflows. */
  function TickDuration(text: string, fallback: Result<Duration, XmlError>): (r: Result<Duration, XmlError>)
    ensures text == "oo" ==> r == Success(Infinite)
    ensures text != "oo" && ParseInt(text).None? ==> r == fallback
  {
    if text == "oo" then Success(Infinite)
    else match ParseInt(text)
      case Some(n) => Success(Millis(n * 50))
      case None => fallback
  }

  /** Every `int` number of ticks is 50 ms per tick, whichever its sign, and
      agrees with the as-written version wherever that one does not overflow. */
  lemma TickDurationExact(n: int, fallback: Result<Duration, XmlError>)
    requires InInt(n)
    ensures TickDuration(ToSignedDecimal(n), fallback) == Success(Millis(n * 50))
    ensures InInt(n * 50) ==>
      TickDurationAsWritten(ToSignedDecimal(n), fallback) == TickDuration(ToSignedDecimal(n), fallback)
  {
    ParseIntRoundTrip(n);
    var s := ToSignedDecimal(n);
    assert s != "oo" by { assert '0' <= s[|s| - 1] <= '9'; }
  }

}
