/**
 * What the trunk parser promises about a single <tag> element and about the
 * list of tags: defaults, the warnings for missing elements, tolerance of
 * the JSP 1.1 spellings, unknown children skipped, and document order.
 */
module TagFacts {
  import opened JavaLang
  import opened Dom
  import opened TagExt
  import opened TldSpec
  import opened TagFileParser

  /** The i-th TagInfo of a library is the one its i-th <tag> element describes. */
  lemma {:induction false} TagListIndex(tagNodes: seq<Node>, library: TagLibraryInfoImpl?, getBoolean: JString -> bool, i: int)
    requires 0 <= i < |tagNodes|
    ensures TagList(tagNodes, library, getBoolean)[i] == TagSpec(tagNodes[i], library, getBoolean)
    decreases |tagNodes|
  {
    if i < |tagNodes| - 1 {
      TagListIndex(tagNodes[..|tagNodes| - 1], library, getBoolean, i);
    }
  }

  /**
   * A tag without a body-content element has body content "JSP"; without a
   * dynamic-attributes element it does not accept dynamic attributes.
   */
  lemma TagDefaults(tag: Node, library: TagLibraryInfoImpl?, getBoolean: JString -> bool)
    ensures (forall j :: 0 <= j < |ChildNodes(tag)| ==> !Matches(ChildNodes(tag)[j], BodyContentNames))
            ==> TagSpec(tag, library, getBoolean).bodyContent == Some(DefaultBodyContent)
    ensures (forall j :: 0 <= j < |ChildNodes(tag)| ==> !Matches(ChildNodes(tag)[j], {"dynamic-attributes"}))
            ==> !TagSpec(tag, library, getBoolean).dynamicAttributes
  {
    LastContentAbsent(ChildNodes(tag), BodyContentNames);
    LastContentAbsent(ChildNodes(tag), {"dynamic-attributes"});
  }

  /** The children of a tag only ever raise attribute and variable warnings. */
  lemma {:induction false} ChildWarningsKinds(cs: seq<Node>)
    ensures forall w :: w in ChildWarnings(cs) ==> w == MissingAttributeName || w == MissingVariableName
    decreases |cs|
  {
    if cs != [] {
      ChildWarningsKinds(cs[..|cs| - 1]);
    }
  }

  /**
   * A tag is reported as missing its name (its tag class) exactly when the
   * TagInfo built for it has a null name (tag class); the tag is built
   * either way.
   */
  lemma TagWarningsExact(tag: Node, library: TagLibraryInfoImpl?, getBoolean: JString -> bool)
    ensures MissingTagName in TagWarnings(tag) <==> TagSpec(tag, library, getBoolean).tagName.None?
    ensures MissingTagClass in TagWarnings(tag) <==> TagSpec(tag, library, getBoolean).tagClassName.None?
  {
    var cs := ChildNodes(tag);
    var spec := TagSpec(tag, library, getBoolean);
    assert spec.tagName == Field(cs, {"name"}) && spec.tagClassName == Field(cs, TagClassNames);
    ChildWarningsKinds(cs);
  }

  // ---------------------------------------------------------------------
  // JSP 1.1 spellings

  /** A <variable> reads the same under either spelling of the descriptor. */
  lemma VariableCanonical(variable: Node, getBoolean: JString -> bool)
    ensures VariableSpec(Canonicalize(variable), getBoolean) == VariableSpec(variable, getBoolean)
    ensures VariableWarnings(Canonicalize(variable)) == VariableWarnings(variable)
  {
    if variable.Element? {
      var cs := variable.children;
      SingleSpellingClosed("name-given");
      SingleSpellingClosed("name-from-attribute");
      SingleSpellingClosed("variable-class");
      SingleSpellingClosed("declare");
      SingleSpellingClosed("scope");
      LastContentCanonical(cs, {"name-given"});
      LastContentCanonical(cs, {"name-from-attribute"});
      LastContentCanonical(cs, {"variable-class"});
      LastContentCanonical(cs, {"declare"});
      LastContentCanonical(cs, {"scope"});
    }
  }

  lemma {:induction false} VariableListCanonical(es: seq<Node>, getBoolean: JString -> bool)
    ensures VariableList(CanonicalizeAll(es), getBoolean) == VariableList(es, getBoolean)
    decreases |es|
  {
    if es != [] {
      var rs := CanonicalizeAll(es);
      assert rs[..|rs| - 1] == CanonicalizeAll(es[..|es| - 1]);
      VariableListCanonical(es[..|es| - 1], getBoolean);
      VariableCanonical(es[|es| - 1], getBoolean);
    }
  }

  lemma ChildWarningCanonical(c: Node)
    ensures ChildWarning(Canonicalize(c)) == ChildWarning(c)
  {
    if c.Element? && c.name == "attribute" {
      AttributeWarningCanonical(c);
    } else if c.Element? && c.name == "variable" {
      VariableWarningCanonical(c);
    } else {
      OtherChildNoWarning(c);
    }
  }

  lemma AttributeWarningCanonical(c: Node)
    requires c.Element? && c.name == "attribute"
    ensures ChildWarning(Canonicalize(c)) == ChildWarning(c)
  {
    assert ChildWarning(c) == AttributeWarnings(c);
    assert ChildWarning(Canonicalize(c)) == AttributeWarnings(Canonicalize(c));
    AttributeCanonical(c);
  }

  lemma VariableWarningCanonical(c: Node)
    requires c.Element? && c.name == "variable"
    ensures ChildWarning(Canonicalize(c)) == ChildWarning(c)
  {
    assert ChildWarning(c) == VariableWarnings(c);
    assert ChildWarning(Canonicalize(c)) == VariableWarnings(Canonicalize(c));
    VariableCanonical(c, x => false);
  }

  lemma OtherChildNoWarning(c: Node)
    requires !(c.Element? && (c.name == "attribute" || c.name == "variable"))
    ensures ChildWarning(Canonicalize(c)) == [] && ChildWarning(c) == []
  {
    ListNamesUnaffected();
  }

  lemma {:induction false} ChildWarningsCanonical(cs: seq<Node>)
    ensures ChildWarnings(CanonicalizeAll(cs)) == ChildWarnings(cs)
    decreases |cs|
  {
    if cs != [] {
      var rs := CanonicalizeAll(cs);
      assert rs[..|rs| - 1] == CanonicalizeAll(cs[..|cs| - 1]);
      ChildWarningsCanonical(cs[..|cs| - 1]);
      ChildWarningCanonical(cs[|cs| - 1]);
    }
  }

  /** The single-spelling elements a <tag> may hold. */
  lemma TagSingleSpellings()
    ensures SpellingClosed({"name"}) && SpellingClosed({"info"}) && SpellingClosed({"display-name"})
    ensures SpellingClosed({"small-icon"}) && SpellingClosed({"large-icon"}) && SpellingClosed({"description"})
    ensures SpellingClosed({"example"}) && SpellingClosed({"dynamic-attributes"})
  {
    SingleSpellingClosed("name");
    SingleSpellingClosed("info");
    SingleSpellingClosed("display-name");
    SingleSpellingClosed("small-icon");
    SingleSpellingClosed("large-icon");
    SingleSpellingClosed("description");
    SingleSpellingClosed("example");
    SingleSpellingClosed("dynamic-attributes");
  }

  lemma ListNamesUnaffected()
    ensures forall x :: Canonical(x) == "attribute" <==> x == "attribute"
    ensures forall x :: Canonical(x) == "variable" <==> x == "variable"
  {
  }

  lemma TagLocalsCanonical(cs: seq<Node>, getBoolean: JString -> bool)
    ensures TagLocalsOf(CanonicalizeAll(cs), getBoolean) == TagLocalsOf(cs, getBoolean)
  {
    NameSetsSpellingClosed();
    TagSingleSpellings();
    FieldCanonical(cs, {"name"});
    FieldCanonical(cs, TagClassNames);
    FieldCanonical(cs, TeiClassNames);
    FieldCanonical(cs, BodyContentNames);
    FieldCanonical(cs, {"info"});
    FieldCanonical(cs, {"display-name"});
    FieldCanonical(cs, {"small-icon"});
    FieldCanonical(cs, {"large-icon"});
    FieldCanonical(cs, {"description"});
    FieldCanonical(cs, {"example"});
    FieldCanonical(cs, {"dynamic-attributes"});
    ListNamesUnaffected();
    ElementsNamedCanonical(cs, "attribute");
    AttributeListCanonical(ElementsNamed(cs, "attribute"));
    ElementsNamedCanonical(cs, "variable");
    VariableListCanonical(ElementsNamed(cs, "variable"), getBoolean);
  }

  /**
   * A <tag> written with JSP 1.1 names (tagclass, teiclass, bodycontent)
   * yields the same TagInfo and the same warnings as the same element
   * written with the JSP 1.2+ names.
   */
  lemma TagSpellingTolerance(tag: Node, library: TagLibraryInfoImpl?, getBoolean: JString -> bool)
    ensures TagSpec(Canonicalize(tag), library, getBoolean) == TagSpec(tag, library, getBoolean)
    ensures TagWarnings(Canonicalize(tag)) == TagWarnings(tag)
  {
    var cs := ChildNodes(tag);
    assert ChildNodes(Canonicalize(tag)) == CanonicalizeAll(cs);
    TagLocalsCanonical(cs, getBoolean);
    ChildWarningsCanonical(cs);
  }

  // ---------------------------------------------------------------------
  // Unknown children

  /** Every element name a <tag> child may carry without being "unknown". */
  const KnownTagNames: set<string> :=
    TagClassNames + TeiClassNames + BodyContentNames
    + {"name", "info", "attribute", "display-name", "small-icon", "large-icon", "description",
       "variable", "example", "dynamic-attributes"}

  lemma {:induction false} ChildWarningsIgnores(a: seq<Node>, e: Node, b: seq<Node>)
    requires ChildWarning(e) == []
    ensures ChildWarnings(a + [e] + b) == ChildWarnings(a + b)
    decreases |b|
  {
    if b == [] {
      assert (a + [e] + b)[..|a + [e] + b| - 1] == a;
      assert a + b == a;
    } else {
      var b' := b[..|b| - 1];
      assert (a + [e] + b)[..|a + [e] + b| - 1] == a + [e] + b';
      assert (a + b)[..|a + b| - 1] == a + b';
      ChildWarningsIgnores(a, e, b');
    }
  }

  /** An unknown element among a tag's children changes neither the TagInfo nor the warnings. */
  lemma UnknownTagChildIgnored(a: seq<Node>, e: Node, b: seq<Node>, getBoolean: JString -> bool)
    requires e.Element? && e.name !in KnownTagNames
    ensures TagLocalsOf(a + [e] + b, getBoolean) == TagLocalsOf(a + b, getBoolean)
    ensures ChildWarnings(a + [e] + b) == ChildWarnings(a + b)
  {
    LastContentIgnores(a, e, b, {"name"});
    LastContentIgnores(a, e, b, TagClassNames);
    LastContentIgnores(a, e, b, TeiClassNames);
    LastContentIgnores(a, e, b, BodyContentNames);
    LastContentIgnores(a, e, b, {"info"});
    LastContentIgnores(a, e, b, {"display-name"});
    LastContentIgnores(a, e, b, {"small-icon"});
    LastContentIgnores(a, e, b, {"large-icon"});
    LastContentIgnores(a, e, b, {"description"});
    LastContentIgnores(a, e, b, {"example"});
    LastContentIgnores(a, e, b, {"dynamic-attributes"});
    ElementsNamedIgnores(a, e, b, "attribute");
    ElementsNamedIgnores(a, e, b, "variable");
    ChildWarningsIgnores(a, e, b);
  }
}
