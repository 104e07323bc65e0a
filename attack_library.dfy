/**
 * The attack catalogue, AttackLibrary: a name-keyed map of Attack values
 * filled by one pass over the children of the catalogue's root element.
 *
 * Two copies of the class exist; owasp-jsp-testing-tool/src/... and the
 * older src/... differ only in getAttackString, which the older copy does
 * not guard against an unknown name (GetAttackStringUnguarded below).
 * The SAXException that stops a parse is caught by parseAttackFile and the
 * library built so far is returned; the model returns the error beside the
 * library instead of printing it.
 */
module AttackCatalogue {
  import opened JavaLang
  import opened Dom
  import opened TldSpec
  import opened Attacks

  /** The four SAXException messages parseAttackNode and parseAttackFile raise. */
  datatype ParseError = UnknownElement | MissingName | MissingDisplayName | MissingAttackString

  /** What the older getAttackString produced: a string (null allowed), or a NullPointerException. */
  datatype LookupOutcome = Returned(value: JString) | NullPointer

  const AttackFieldNames: set<string> := {"name", "display-name", "attack-string"}

  /** An element child of <attack> that parseAttackNode does not know. */
  predicate IsUnknownField(c: Node)
  {
    c.Element? && c.name !in AttackFieldNames
  }

  function HasUnknownField(cs: seq<Node>): bool
  {
    cs != [] && (HasUnknownField(cs[..|cs| - 1]) || IsUnknownField(cs[|cs| - 1]))
  }

  lemma {:induction false} HasUnknownFieldIff(cs: seq<Node>)
    ensures HasUnknownField(cs) <==> exists j :: 0 <= j < |cs| && IsUnknownField(cs[j])
    decreases |cs|
  {
    if cs != [] {
      var p := cs[..|cs| - 1];
      HasUnknownFieldIff(p);
      if HasUnknownField(p) {
        var j :| 0 <= j < |p| && IsUnknownField(p[j]);
        assert cs[j] == p[j];
      }
      if exists j :: 0 <= j < |cs| && IsUnknownField(cs[j]) {
        var j :| 0 <= j < |cs| && IsUnknownField(cs[j]);
        if j < |p| {
          assert p[j] == cs[j];
        }
      }
    }
  }

  /**
   * What parseAttackNode makes of an <attack> element: an unknown element
   * child fails the parse wherever it stands; otherwise each field is the
   * untrimmed text of its last element, and an absent name, display-name
   * or attack-string fails, checked in that order.
   */
  function AttackSpec(attack: Node): (r: Result<Attack, ParseError>)
    ensures r.Success? ==> r.value.name.Some? && r.value.displayName.Some? && r.value.attackString.Some?
  {
    var cs := ChildNodes(attack);
    if HasUnknownField(cs) then Failure(UnknownElement)
    else if LastContent(cs, {"name"}).None? then Failure(MissingName)
    else if LastContent(cs, {"display-name"}).None? then Failure(MissingDisplayName)
    else if LastContent(cs, {"attack-string"}).None? then Failure(MissingAttackString)
    else Success(Attack(LastContent(cs, {"name"}), LastContent(cs, {"display-name"}), LastContent(cs, {"attack-string"})))
  }

  /** AttackLibrary.parseAttackNode. */
  method ParseAttackNode(attack: Node) returns (r: Result<Attack, ParseError>)
    ensures r == AttackSpec(attack)
  {
    var nodes := ChildNodes(attack);
    var name: JString := None;
    var displayName: JString := None;
    var attackString: JString := None;
    assert nodes[..0] == [];
    var nodeIdx := 0;
    while nodeIdx < |nodes|
      invariant 0 <= nodeIdx <= |nodes|
      invariant !HasUnknownField(nodes[..nodeIdx])
      invariant name == LastContent(nodes[..nodeIdx], {"name"})
      invariant displayName == LastContent(nodes[..nodeIdx], {"display-name"})
      invariant attackString == LastContent(nodes[..nodeIdx], {"attack-string"})
    {
      var childNode := nodes[nodeIdx];
      assert nodes[..nodeIdx + 1][..nodeIdx] == nodes[..nodeIdx];
      if childNode.Element? {
        if childNode.name == "name" {
          name := Some(TextContent(childNode));
        } else if childNode.name == "display-name" {
          displayName := Some(TextContent(childNode));
        } else if childNode.name == "attack-string" {
          attackString := Some(TextContent(childNode));
        } else {
          HasUnknownFieldPrefix(nodes, nodeIdx + 1);
          return Failure(UnknownElement);
        }
      }
      nodeIdx := nodeIdx + 1;
    }
    assert nodes[..nodeIdx] == nodes;
    if name.None? {
      return Failure(MissingName);
    }
    if displayName.None? {
      return Failure(MissingDisplayName);
    }
    if attackString.None? {
      return Failure(MissingAttackString);
    }
    return Success(Attack(name, displayName, attackString));
  }

  lemma {:induction false} HasUnknownFieldPrefix(cs: seq<Node>, i: int)
    requires 0 <= i <= |cs|
    ensures HasUnknownField(cs[..i]) ==> HasUnknownField(cs)
    decreases |cs| - i
  {
    if i < |cs| {
      assert cs[..i + 1][..i] == cs[..i];
      HasUnknownFieldPrefix(cs, i + 1);
    } else {
      assert cs[..i] == cs;
    }
  }

  // ---------------------------------------------------------------------
  // Properties of one <attack>

  /**
   * Field values are the raw text of the element: an empty <name/> gives
   * the empty name, and surrounding white space is kept.
   */
  lemma AttackFieldsUntrimmed(attack: Node)
    requires AttackSpec(attack).Success?
    ensures var cs := ChildNodes(attack);
      var a := AttackSpec(attack).value;
      && (exists j :: 0 <= j < |cs| && Matches(cs[j], {"name"}) && a.name == Some(TextContent(cs[j])))
      && (exists j :: 0 <= j < |cs| && Matches(cs[j], {"display-name"}) && a.displayName == Some(TextContent(cs[j])))
      && (exists j :: 0 <= j < |cs| && Matches(cs[j], {"attack-string"}) && a.attackString == Some(TextContent(cs[j])))
  {
    var cs := ChildNodes(attack);
    var i1 := LastContentWitness(cs, {"name"});
    var i2 := LastContentWitness(cs, {"display-name"});
    var i3 := LastContentWitness(cs, {"attack-string"});
  }

  /**
   * An <attack> parses exactly when all its element children are known and
   * each of the three fields is present.
   */
  lemma AttackSpecSucceedsIff(attack: Node)
    ensures var cs := ChildNodes(attack);
      AttackSpec(attack).Success? <==>
        && (forall j :: 0 <= j < |cs| ==> !IsUnknownField(cs[j]))
        && (exists j :: 0 <= j < |cs| && Matches(cs[j], {"name"}))
        && (exists j :: 0 <= j < |cs| && Matches(cs[j], {"display-name"}))
        && (exists j :: 0 <= j < |cs| && Matches(cs[j], {"attack-string"}))
  {
    var cs := ChildNodes(attack);
    HasUnknownFieldIff(cs);
    FieldPresentIff(cs, {"name"});
    FieldPresentIff(cs, {"display-name"});
    FieldPresentIff(cs, {"attack-string"});
  }

  lemma FieldPresentIff(cs: seq<Node>, names: set<string>)
    ensures LastContent(cs, names).Some? <==> exists j :: 0 <= j < |cs| && Matches(cs[j], names)
  {
    LastContentAbsent(cs, names);
    if LastContent(cs, names).Some? {
      var j := LastContentWitness(cs, names);
    }
  }

  // ---------------------------------------------------------------------
  // The catalogue

  /** The state of parseAttackFile's loop: the map filled so far and the exception, if one was raised. */
  datatype Load = Load(attacks: map<string, Attack>, error: Option<ParseError>)

  /** The effect of one root child on a map no exception has interrupted. */
  function LoadChild(m: map<string, Attack>, c: Node): (r: Load)
    ensures r.error.None? ==> m.Keys <= r.attacks.Keys
  {
    if !c.Element? then Load(m, None)
    else if c.name == "attack" then
      match AttackSpec(c)
      case Success(a) => Load(m[a.name.value := a], None)
      case Failure(e) => Load(m, Some(e))
    else Load(m, Some(UnknownElement))
  }

  /** The root children, in document order, up to the first one that raises. */
  function LoadAll(cs: seq<Node>): Load
  {
    if cs == [] then Load(map[], None)
    else
      var prev := LoadAll(cs[..|cs| - 1]);
      if prev.error.Some? then prev else LoadChild(prev.attacks, cs[|cs| - 1])
  }

  /** Whether root child c makes parseAttackFile raise. */
  predicate Raises(c: Node)
  {
    c.Element? && (c.name != "attack" || AttackSpec(c).Failure?)
  }

  class AttackLibrary {
    var attacks: map<string, Attack>

    constructor()
      ensures attacks == map[]
    {
      attacks := map[];
    }

    /** Every stored attack is filed under its own name. */
    ghost predicate Valid()
      reads this
    {
      forall k :: k in attacks ==> attacks[k].name == Some(k)
    }

    /**
     * getAttackString of the current copy: the attack string of the attack
     * stored under `name`, null for a name with no attack (null included).
     */
    function GetAttackString(name: JString): (r: JString)
      reads this
      ensures name.Some? && name.value in attacks ==> r == attacks[name.value].attackString
      ensures name.None? || name.value !in attacks ==> r.None?
    {
      if name.Some? && name.value in attacks then attacks[name.value].attackString else None
    }

    /**
     * getAttackString of the older copy, which dereferences the lookup
     * without a check: a null or unknown name makes HashMap.get return
     * null, and calling getAttackString on it throws.
     */
    function GetAttackStringUnguarded(name: JString): (r: LookupOutcome)
      reads this
      ensures r.NullPointer? <==> name.None? || name.value !in attacks
      ensures r.Returned? ==> r.value == GetAttackString(name)
    {
      if name.Some? && name.value in attacks then Returned(attacks[name.value].attackString) else NullPointer
    }

    /**
     * getAttacks: the stored attacks, one per name, in whatever order the
     * HashMap yields them.
     */
    method GetAttacks() returns (r: seq<Attack>)
      requires Valid()
      ensures |r| == |attacks|
      ensures forall a :: a in r <==> a in attacks.Values
      ensures forall i, j :: 0 <= i < j < |r| ==> r[i].name != r[j].name
    {
      r := [];
      var rest := attacks.Keys;
      while rest != {}
        invariant rest <= attacks.Keys
        invariant |r| + |rest| == |attacks|
        invariant forall a :: a in r <==> exists k :: k in attacks.Keys - rest && attacks[k] == a
        invariant forall i :: 0 <= i < |r| ==> r[i].name.Some? && r[i].name.value in attacks.Keys - rest
        invariant forall i, j :: 0 <= i < j < |r| ==> r[i].name != r[j].name
        decreases |rest|
      {
        var k :| k in rest;
        r := r + [attacks[k]];
        rest := rest - {k};
      }
      assert attacks.Keys - rest == attacks.Keys;
      assert |attacks.Keys| == |attacks|;
    }
  }

  /**
   * parseAttackFile on the children of the catalogue's root element: a
   * fresh library holding the attacks stored before the first failure,
   * and that failure.
   */
  method ParseAttackFile(root: Node) returns (library: AttackLibrary, error: Option<ParseError>)
    ensures fresh(library)
    ensures library.attacks == LoadAll(ChildNodes(root)).attacks
    ensures error == LoadAll(ChildNodes(root)).error
  {
    library := new AttackLibrary();
    error := None;
    var nodes := ChildNodes(root);
    assert nodes[..0] == [];
    var nodeIdx := 0;
    while nodeIdx < |nodes|
      invariant 0 <= nodeIdx <= |nodes|
      invariant LoadAll(nodes[..nodeIdx]) == Load(library.attacks, None)
    {
      var childNode := nodes[nodeIdx];
      assert nodes[..nodeIdx + 1][..nodeIdx] == nodes[..nodeIdx];
      if childNode.Element? {
        if childNode.name == "attack" {
          var attack := ParseAttackNode(childNode);
          if attack.Failure? {
            error := Some(attack.error);
            LoadAllStops(nodes, nodeIdx + 1);
            return;
          }
          library.attacks := library.attacks[attack.value.name.value := attack.value];
        } else {
          error := Some(UnknownElement);
          LoadAllStops(nodes, nodeIdx + 1);
          return;
        }
      }
      nodeIdx := nodeIdx + 1;
    }
    assert nodes[..nodeIdx] == nodes;
  }

  // ---------------------------------------------------------------------
  // Properties of the catalogue

  /** Once a child has raised, the rest of the document is not read. */
  lemma {:induction false} LoadAllStops(cs: seq<Node>, i: int)
    requires 0 <= i <= |cs|
    requires LoadAll(cs[..i]).error.Some?
    ensures LoadAll(cs) == LoadAll(cs[..i])
    decreases |cs| - i
  {
    if i < |cs| {
      assert cs[..i + 1][..i] == cs[..i];
      LoadAllStops(cs, i + 1);
    } else {
      assert cs[..i] == cs;
    }
  }

  /** The parse fails exactly when some root child raises. */
  lemma {:induction false} LoadAllFailsIff(cs: seq<Node>)
    ensures LoadAll(cs).error.Some? <==> exists j :: 0 <= j < |cs| && Raises(cs[j])
    decreases |cs|
  {
    if cs != [] {
      var p := cs[..|cs| - 1];
      LoadAllFailsIff(p);
      if exists j :: 0 <= j < |p| && Raises(p[j]) {
        var j :| 0 <= j < |p| && Raises(p[j]);
        assert cs[j] == p[j];
      }
      if exists j :: 0 <= j < |cs| && Raises(cs[j]) {
        var j :| 0 <= j < |cs| && Raises(cs[j]);
        if j < |p| {
          assert p[j] == cs[j];
        }
      }
    }
  }

  /**
   * When the child at index i is the first to raise, the returned library
   * holds exactly the attacks stored from the children before it, and the
   * error is the one that child raised.
   */
  lemma FailureKeepsEarlierAttacks(cs: seq<Node>, i: int)
    requires 0 <= i < |cs|
    requires Raises(cs[i])
    requires forall j :: 0 <= j < i ==> !Raises(cs[j])
    ensures LoadAll(cs).attacks == LoadAll(cs[..i]).attacks
    ensures LoadAll(cs[..i]).error.None?
    ensures LoadAll(cs).error == Some(if cs[i].name == "attack" then AttackSpec(cs[i]).error else UnknownElement)
  {
    var p, q := cs[..i], cs[..i + 1];
    LoadAllFailsIff(p);
    assert q[..i] == p && q[i] == cs[i];
    assert LoadAll(q) == LoadChild(LoadAll(p).attacks, cs[i]);
    RaisingChildKeepsMap(LoadAll(p).attacks, cs[i]);
    LoadAllStops(cs, i + 1);
  }

  /** A child that raises leaves the map as it was and records its exception. */
  lemma RaisingChildKeepsMap(m: map<string, Attack>, c: Node)
    requires Raises(c)
    ensures LoadChild(m, c) == Load(m, Some(if c.name == "attack" then AttackSpec(c).error else UnknownElement))
  {
  }

  /** Every stored attack is filed under its own name. */
  lemma {:induction false} LoadAllFilesByName(cs: seq<Node>)
    ensures forall k :: k in LoadAll(cs).attacks ==> LoadAll(cs).attacks[k].name == Some(k)
    decreases |cs|
  {
    if cs != [] {
      LoadAllFilesByName(cs[..|cs| - 1]);
    }
  }

  /**
   * Overwrite semantics: the attack stored under a name is the one parsed
   * from the last <attack> child carrying that name, provided the parse
   * gets past it.
   */
  lemma {:induction false} LastAttackWins(cs: seq<Node>, i: int)
    requires 0 <= i < |cs|
    requires cs[i].Element? && cs[i].name == "attack" && AttackSpec(cs[i]).Success?
    requires forall j :: i < j < |cs| && cs[j].Element? && cs[j].name == "attack" && AttackSpec(cs[j]).Success?
               ==> AttackSpec(cs[j]).value.name != AttackSpec(cs[i]).value.name
    requires LoadAll(cs[..i + 1]).error.None?
    ensures var a := AttackSpec(cs[i]).value;
      a.name.value in LoadAll(cs).attacks && LoadAll(cs).attacks[a.name.value] == a
    decreases |cs| - i
  {
    var a := AttackSpec(cs[i]).value;
    if i == |cs| - 1 {
      assert cs[..i + 1] == cs;
    } else {
      var p := cs[..|cs| - 1];
      assert p[..i + 1] == cs[..i + 1];
      LastAttackWins(p, i);
      var c := cs[|cs| - 1];
      if c.Element? && c.name == "attack" && AttackSpec(c).Success? {
        assert AttackSpec(c).value.name != a.name;
      }
    }
  }

  /** Every stored attack was parsed from some <attack> child of the root. */
  lemma {:induction false} StoredAttacksComeFromDocument(cs: seq<Node>)
    ensures forall k :: k in LoadAll(cs).attacks ==>
      exists j :: 0 <= j < |cs| && cs[j].Element? && cs[j].name == "attack"
                  && AttackSpec(cs[j]) == Success(LoadAll(cs).attacks[k])
    decreases |cs|
  {
    if cs != [] {
      var p := cs[..|cs| - 1];
      StoredAttacksComeFromDocument(p);
      forall k | k in LoadAll(cs).attacks
        ensures exists j :: 0 <= j < |cs| && cs[j].Element? && cs[j].name == "attack"
                  && AttackSpec(cs[j]) == Success(LoadAll(cs).attacks[k])
      {
        var last := |cs| - 1;
        var c := cs[last];
        if LoadAll(p).error.None? && c.Element? && c.name == "attack" && AttackSpec(c).Success?
           && k == AttackSpec(c).value.name.value {
          assert AttackSpec(cs[last]) == Success(LoadAll(cs).attacks[k]);
        } else {
          assert LoadAll(cs).attacks[k] == LoadAll(p).attacks[k];
          var j :| 0 <= j < |p| && p[j].Element? && p[j].name == "attack"
                   && AttackSpec(p[j]) == Success(LoadAll(p).attacks[k]);
          assert cs[j] == p[j];
        }
      }
    }
  }

  /** Text, comments and other non-element children of the root are skipped. */
  lemma NonElementSkipped(cs: seq<Node>, c: Node)
    requires !c.Element?
    ensures LoadAll(cs + [c]) == LoadAll(cs)
  {
    assert (cs + [c])[..|cs|] == cs;
  }
}
