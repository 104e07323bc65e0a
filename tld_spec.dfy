/**
 * What a tag library descriptor (TLD) means, independently of the loops
 * that read it: every single-valued element takes the trimmed text of the
 * LAST child element that carries it (under either its JSP 1.1 or its
 * JSP 1.2+ spelling), repeated elements are collected in document order,
 * and a missing element leaves the Java default in place. Both parser
 * copies (trunk and the v0.5 branch) are proved against these definitions.
 */
module TldSpec {
  import opened JavaLang
  import opened Dom
  import opened TagExt

  /** A "missing required element" diagnostic; parsing carries on after each. */
  datatype Warning =
    | MissingTlibVersion
    | MissingShortName
    | MissingTag
    | MissingTagName
    | MissingTagClass
    | MissingAttributeName
    | MissingVariableName

  // Element names, each set holding every spelling that one branch of the
  // parsers' if/else chains accepts.
  const TlibVersionNames: set<string> := {"tlibversion", "tlib-version"}
  const JspVersionNames: set<string> := {"jspversion", "jsp-version"}
  const ShortNameNames: set<string> := {"shortname", "short-name"}
  const TagClassNames: set<string> := {"tagclass", "tag-class"}
  const TeiClassNames: set<string> := {"teiclass", "tei-class"}
  const BodyContentNames: set<string> := {"bodycontent", "body-content"}

  /** Default values the parsers start from. */
  const DefaultBodyContent: string := "JSP"
  const DefaultAttributeType: string := "java.lang.String"
  const DefaultVariableClass: string := "java.lang.String"
  const DefaultScope: string := "NESTED"

  /** parseElementString: null stays null, anything else is trimmed. */
  function ParseElementString(value: JString): (r: JString)
    ensures r.None? <==> value.None?
  {
    match value
    case None => None
    case Some(v) => Some(Trim(v))
  }

  /** What parseElementString yields is trimmed and no longer than its input. */
  lemma ParseElementStringTrimmed(value: JString)
    requires value.Some?
    ensures IsTrimmed(ParseElementString(value).value)
    ensures |ParseElementString(value).value| <= |value.value|
  {
    TrimIsTrimmed(value.value);
  }

  /** The doubled parseElementString calls of the parsers change nothing. */
  lemma ParseElementStringIdempotent(value: JString)
    ensures ParseElementString(ParseElementString(value)) == ParseElementString(value)
  {
    if value.Some? {
      TrimIdempotent(value.value);
    }
  }

  /** parseTldBoolean: exactly the strings "true" and "yes" are true (case-sensitive, untrimmed). */
  function ParseTldBoolean(value: JString): (r: bool)
    ensures r ==> value.Some? && |value.value| in {3, 4}
    ensures value == Some("true") ==> r
    ensures value == Some("yes") ==> r
  {
    value == Some("true") || value == Some("yes")
  }

  /** parseScopeType: AT_BEGIN and AT_END are recognised, everything else (null too) is NESTED. */
  function ParseScopeType(value: JString): (r: int)
    ensures r == NESTED || r == AT_BEGIN || r == AT_END
    ensures r == AT_BEGIN <==> value == Some("AT_BEGIN")
    ensures r == AT_END <==> value == Some("AT_END")
  {
    if value == Some("AT_BEGIN") then AT_BEGIN
    else if value == Some("AT_END") then AT_END
    else NESTED
  }

  predicate Matches(n: Node, names: set<string>)
  {
    n.Element? && n.name in names
  }

  /**
   * The (untrimmed) text content of the last element in `cs` whose name is
   * in `names`, or null when there is none.
   */
  function LastContent(cs: seq<Node>, names: set<string>): JString
  {
    if cs == [] then None
    else
      var last := cs[|cs| - 1];
      if Matches(last, names) then Some(TextContent(last)) else LastContent(cs[..|cs| - 1], names)
  }

  /** A single-valued element as the parsers store it: trimmed, or null when absent. */
  function Field(cs: seq<Node>, names: set<string>): JString
  {
    ParseElementString(LastContent(cs, names))
  }

  /** A single-valued element with a default: the trimmed text when present, else `default`. */
  function FieldOr(cs: seq<Node>, names: set<string>, default: string): JString
  {
    if LastContent(cs, names).None? then Some(default) else Field(cs, names)
  }

  /** One more child: a matching child replaces the value, any other leaves it. */
  lemma LastContentStep(cs: seq<Node>, i: int, names: set<string>)
    requires 0 <= i < |cs|
    ensures LastContent(cs[..i + 1], names)
      == if Matches(cs[i], names) then Some(TextContent(cs[i])) else LastContent(cs[..i], names)
  {
    assert cs[..i + 1][..i] == cs[..i];
  }

  lemma ElementsNamedStep(cs: seq<Node>, i: int, name: string)
    requires 0 <= i < |cs|
    ensures ElementsNamed(cs[..i + 1], name)
      == if Matches(cs[i], {name}) then ElementsNamed(cs[..i], name) + [cs[i]] else ElementsNamed(cs[..i], name)
  {
    assert cs[..i + 1][..i] == cs[..i];
    if !Matches(cs[i], {name}) {
      assert ElementsNamed(cs[..i], name) + [] == ElementsNamed(cs[..i], name);
    }
  }

  /** The element is absent exactly when no child carries one of the names. */
  lemma {:induction false} LastContentAbsent(cs: seq<Node>, names: set<string>)
    ensures LastContent(cs, names).None? <==> forall j :: 0 <= j < |cs| ==> !Matches(cs[j], names)
    decreases |cs|
  {
    if cs != [] {
      LastContentAbsent(cs[..|cs| - 1], names);
      assert forall j :: 0 <= j < |cs| - 1 ==> cs[..|cs| - 1][j] == cs[j];
    }
  }

  /** The last matching child wins: its text is the value, whatever came before. */
  lemma {:induction false} LastContentIsLast(cs: seq<Node>, names: set<string>, i: int)
    requires 0 <= i < |cs| && Matches(cs[i], names)
    requires forall j :: i < j < |cs| ==> !Matches(cs[j], names)
    ensures LastContent(cs, names) == Some(TextContent(cs[i]))
    decreases |cs|
  {
    if i < |cs| - 1 {
      LastContentIsLast(cs[..|cs| - 1], names, i);
    }
  }

  /** Conversely, a present value is the text of a matching child with no later match. */
  lemma {:induction false} LastContentWitness(cs: seq<Node>, names: set<string>) returns (i: int)
    requires LastContent(cs, names).Some?
    ensures 0 <= i < |cs| && Matches(cs[i], names)
    ensures LastContent(cs, names).value == TextContent(cs[i])
    ensures forall j :: i < j < |cs| ==> !Matches(cs[j], names)
    decreases |cs|
  {
    if Matches(cs[|cs| - 1], names) {
      i := |cs| - 1;
    } else {
      i := LastContentWitness(cs[..|cs| - 1], names);
    }
  }

  /** A child that carries none of the names can be removed without effect. */
  lemma {:induction false} LastContentIgnores(a: seq<Node>, e: Node, b: seq<Node>, names: set<string>)
    requires !Matches(e, names)
    ensures LastContent(a + [e] + b, names) == LastContent(a + b, names)
    decreases |b|
  {
    if b == [] {
      assert (a + [e] + b)[..|a + [e] + b| - 1] == a;
      assert a + b == a;
    } else {
      var b' := b[..|b| - 1];
      assert (a + [e] + b)[..|a + [e] + b| - 1] == a + [e] + b';
      assert (a + b)[..|a + b| - 1] == a + b';
      LastContentIgnores(a, e, b', names);
    }
  }

  lemma {:induction false} ElementsNamedIgnores(a: seq<Node>, e: Node, b: seq<Node>, name: string)
    requires !Matches(e, {name})
    ensures ElementsNamed(a + [e] + b, name) == ElementsNamed(a + b, name)
    decreases |b|
  {
    if b == [] {
      assert (a + [e] + b)[..|a + [e] + b| - 1] == a;
      assert a + b == a;
    } else {
      var b' := b[..|b| - 1];
      assert (a + [e] + b)[..|a + [e] + b| - 1] == a + [e] + b';
      assert (a + b)[..|a + b| - 1] == a + b';
      ElementsNamedIgnores(a, e, b', name);
    }
  }

  // ---------------------------------------------------------------------
  // Attributes and icons (identical in both parser copies)

  /** The TagAttributeInfo an <attribute> element describes. */
  function AttributeSpec(attribute: Node): TagAttributeInfo
  {
    var cs := ChildNodes(attribute);
    TagAttributeInfo(
      Field(cs, {"name"}),
      ParseTldBoolean(Field(cs, {"required"})),
      FieldOr(cs, {"type"}, DefaultAttributeType),
      ParseTldBoolean(Field(cs, {"rtexprvalue"})))
  }

  function AttributeWarnings(attribute: Node): seq<Warning>
  {
    if AttributeSpec(attribute).name.None? then [MissingAttributeName] else []
  }

  /** The attributes of the given <attribute> elements, in order. */
  function AttributeList(es: seq<Node>): (r: seq<TagAttributeInfo>)
    ensures |r| == |es|
  {
    if es == [] then [] else AttributeList(es[..|es| - 1]) + [AttributeSpec(es[|es| - 1])]
  }

  lemma AttributeListAppend(es: seq<Node>, e: Node)
    ensures AttributeList(es + [e]) == AttributeList(es) + [AttributeSpec(e)]
  {
    assert (es + [e])[..|es|] == es;
  }

  /** An attribute reads its defaults when its children say nothing. */
  lemma AttributeDefaults(attribute: Node)
    requires forall j :: 0 <= j < |ChildNodes(attribute)| ==> !ChildNodes(attribute)[j].Element?
    ensures AttributeSpec(attribute) == TagAttributeInfo(None, false, Some(DefaultAttributeType), false)
    ensures AttributeWarnings(attribute) == [MissingAttributeName]
  {
    var cs := ChildNodes(attribute);
    LastContentAbsent(cs, {"name"});
    LastContentAbsent(cs, {"required"});
    LastContentAbsent(cs, {"type"});
    LastContentAbsent(cs, {"rtexprvalue"});
  }

  /** The (small, large) icon pair of an <icon> element. */
  function IconSpec(icon: Node): (JString, JString)
  {
    (Field(ChildNodes(icon), {"small-icon"}), Field(ChildNodes(icon), {"large-icon"}))
  }

  // ---------------------------------------------------------------------
  // The <taglib> element

  /** The values parseTagLibElement hands to TagLibraryInfoImpl, and the tag elements it parses. */
  datatype TagLibraryFields = TagLibraryFields(
    shortName: JString,
    uri: JString,
    tlibVersion: JString,
    jspVersion: JString,
    info: JString,
    tagNodes: seq<Node>)

  function LibraryFields(taglib: Node): TagLibraryFields
  {
    var cs := ChildNodes(taglib);
    TagLibraryFields(
      Field(cs, ShortNameNames),
      Field(cs, {"uri"}),
      Field(cs, TlibVersionNames),
      Field(cs, JspVersionNames),
      Field(cs, {"info"}),
      ElementsNamed(cs, "tag"))
  }

  /** The warnings the <taglib> checks emit, in order, before any tag is parsed. */
  function LibraryWarnings(f: TagLibraryFields): seq<Warning>
  {
    (if f.tlibVersion.None? then [MissingTlibVersion] else [])
    + (if f.shortName.None? then [MissingShortName] else [])
    + (if |f.tagNodes| < 1 then [MissingTag] else [])
  }

  /** Each <taglib> warning is raised exactly when its element is missing. */
  lemma LibraryWarningsExact(f: TagLibraryFields)
    ensures MissingTlibVersion in LibraryWarnings(f) <==> f.tlibVersion.None?
    ensures MissingShortName in LibraryWarnings(f) <==> f.shortName.None?
    ensures MissingTag in LibraryWarnings(f) <==> f.tagNodes == []
  {
  }

  /** Every element name a <taglib> child may carry without being "unknown". */
  const KnownLibraryNames: set<string> :=
    TlibVersionNames + JspVersionNames + ShortNameNames
    + {"uri", "info", "tag", "display-name", "small-icon", "large-icon", "description",
       "validator", "listener", "icon", "tag-file", "function", "taglib-extension"}

  /** An unknown element among the <taglib> children changes nothing that is kept. */
  lemma UnknownLibraryChildIgnored(name: string, a: seq<Node>, e: Node, b: seq<Node>)
    requires e.Element? && e.name !in KnownLibraryNames
    ensures LibraryFields(Element(name, a + [e] + b)) == LibraryFields(Element(name, a + b))
  {
    LastContentIgnores(a, e, b, ShortNameNames);
    LastContentIgnores(a, e, b, {"uri"});
    LastContentIgnores(a, e, b, TlibVersionNames);
    LastContentIgnores(a, e, b, JspVersionNames);
    LastContentIgnores(a, e, b, {"info"});
    ElementsNamedIgnores(a, e, b, "tag");
  }

  /**
   * The JSP 1.2+ elements the library keeps nothing of (display-name, icons,
   * description, validator, listener, tag-file, function, taglib-extension)
   * can be added anywhere without changing the library.
   */
  lemma DroppedLibraryChildIgnored(name: string, a: seq<Node>, e: Node, b: seq<Node>)
    requires e.Element?
    requires e.name in {"display-name", "small-icon", "large-icon", "description",
                        "validator", "listener", "icon", "tag-file", "function", "taglib-extension"}
    ensures LibraryFields(Element(name, a + [e] + b)) == LibraryFields(Element(name, a + b))
  {
    LastContentIgnores(a, e, b, ShortNameNames);
    LastContentIgnores(a, e, b, {"uri"});
    LastContentIgnores(a, e, b, TlibVersionNames);
    LastContentIgnores(a, e, b, JspVersionNames);
    LastContentIgnores(a, e, b, {"info"});
    ElementsNamedIgnores(a, e, b, "tag");
  }

  // ---------------------------------------------------------------------
  // Spelling tolerance: JSP 1.1 names and their JSP 1.2+ spellings

  /** The JSP 1.2+ spelling of a JSP 1.1 element name; other names are unchanged. */
  function Canonical(name: string): string
  {
    if name == "tlibversion" then "tlib-version"
    else if name == "jspversion" then "jsp-version"
    else if name == "shortname" then "short-name"
    else if name == "tagclass" then "tag-class"
    else if name == "teiclass" then "tei-class"
    else if name == "bodycontent" then "body-content"
    else name
  }

  /** The same descriptor with every element renamed to its JSP 1.2+ spelling. */
  function Canonicalize(n: Node): (r: Node)
    ensures r.Element? <==> n.Element?
    ensures n.Element? ==> r.name == Canonical(n.name) && |r.children| == |n.children|
    decreases n, 1
  {
    match n
    case Element(nm, cs) => Element(Canonical(nm), CanonicalizeAll(cs))
    case _ => n
  }

  function CanonicalizeAll(cs: seq<Node>): (r: seq<Node>)
    ensures |r| == |cs|
    ensures forall i :: 0 <= i < |cs| ==> r[i] == Canonicalize(cs[i])
    decreases cs, 0
  {
    if cs == [] then [] else [Canonicalize(cs[0])] + CanonicalizeAll(cs[1..])
  }

  /** A set of names that, for every name, holds both spellings or neither. */
  ghost predicate SpellingClosed(names: set<string>)
  {
    forall x :: x in names <==> Canonical(x) in names
  }

  /** A name Canonical neither renames nor produces has a single spelling. */
  lemma SingleSpellingClosed(name: string)
    requires name != "tlibversion" && name != "jspversion" && name != "shortname"
    requires name != "tagclass" && name != "teiclass" && name != "bodycontent"
    requires name != "tlib-version" && name != "jsp-version" && name != "short-name"
    requires name != "tag-class" && name != "tei-class" && name != "body-content"
    ensures SpellingClosed({name})
  {
  }

  lemma {:induction false} TextContentCanonical(n: Node)
    ensures TextContent(Canonicalize(n)) == TextContent(n)
    decreases n, 1
  {
    if n.Element? {
      ChildrenTextCanonical(n.children);
    }
  }

  lemma {:induction false} ChildrenTextCanonical(cs: seq<Node>)
    ensures ChildrenText(CanonicalizeAll(cs)) == ChildrenText(cs)
    decreases cs, 0
  {
    if cs != [] {
      TextContentCanonical(cs[0]);
      ChildrenTextCanonical(cs[1..]);
      assert CanonicalizeAll(cs)[1..] == CanonicalizeAll(cs[1..]);
    }
  }

  lemma {:induction false} LastContentCanonical(cs: seq<Node>, names: set<string>)
    requires SpellingClosed(names)
    ensures LastContent(CanonicalizeAll(cs), names) == LastContent(cs, names)
    decreases |cs|
  {
    if cs != [] {
      var rs := CanonicalizeAll(cs);
      var last := cs[|cs| - 1];
      assert rs[..|rs| - 1] == CanonicalizeAll(cs[..|cs| - 1]);
      if last.Element? {
        assert Canonical(last.name) in names <==> last.name in names;
        TextContentCanonical(last);
      }
      LastContentCanonical(cs[..|cs| - 1], names);
    }
  }

  lemma {:induction false} ElementsNamedCanonical(cs: seq<Node>, name: string)
    requires forall x :: Canonical(x) == name <==> x == name
    ensures ElementsNamed(CanonicalizeAll(cs), name) == CanonicalizeAll(ElementsNamed(cs, name))
    decreases |cs|
  {
    if cs != [] {
      var rs := CanonicalizeAll(cs);
      var last := cs[|cs| - 1];
      assert rs[..|rs| - 1] == CanonicalizeAll(cs[..|cs| - 1]);
      ElementsNamedCanonical(cs[..|cs| - 1], name);
      if last.Element? {
        assert Canonical(last.name) == name <==> last.name == name;
      }
      CanonicalizeAllAppend(ElementsNamed(cs[..|cs| - 1], name),
        if last.Element? && last.name == name then [last] else []);
    }
  }

  lemma {:induction false} CanonicalizeAllAppend(a: seq<Node>, b: seq<Node>)
    ensures CanonicalizeAll(a + b) == CanonicalizeAll(a) + CanonicalizeAll(b)
    decreases |a|
  {
    if a == [] {
      assert a + b == b;
    } else {
      assert (a + b)[1..] == a[1..] + b;
      CanonicalizeAllAppend(a[1..], b);
    }
  }

  lemma {:induction false} AttributeCanonical(attribute: Node)
    ensures AttributeSpec(Canonicalize(attribute)) == AttributeSpec(attribute)
  {
    if attribute.Element? {
      var cs := attribute.children;
      SingleSpellingClosed("name");
      SingleSpellingClosed("required");
      SingleSpellingClosed("type");
      SingleSpellingClosed("rtexprvalue");
      LastContentCanonical(cs, {"name"});
      LastContentCanonical(cs, {"required"});
      LastContentCanonical(cs, {"type"});
      LastContentCanonical(cs, {"rtexprvalue"});
    }
  }

  lemma {:induction false} AttributeListCanonical(es: seq<Node>)
    ensures AttributeList(CanonicalizeAll(es)) == AttributeList(es)
    decreases |es|
  {
    if es != [] {
      var rs := CanonicalizeAll(es);
      assert rs[..|rs| - 1] == CanonicalizeAll(es[..|es| - 1]);
      AttributeListCanonical(es[..|es| - 1]);
      AttributeCanonical(es[|es| - 1]);
    }
  }

  lemma FieldCanonical(cs: seq<Node>, names: set<string>)
    requires SpellingClosed(names)
    ensures Field(CanonicalizeAll(cs), names) == Field(cs, names)
    ensures forall d :: FieldOr(CanonicalizeAll(cs), names, d) == FieldOr(cs, names, d)
  {
    LastContentCanonical(cs, names);
  }

  /** Every spelling set the parsers use holds both spellings of each name or neither. */
  lemma NameSetsSpellingClosed()
    ensures SpellingClosed(TlibVersionNames) && SpellingClosed(JspVersionNames)
    ensures SpellingClosed(ShortNameNames) && SpellingClosed(TagClassNames)
    ensures SpellingClosed(TeiClassNames) && SpellingClosed(BodyContentNames)
    ensures SpellingClosed({"uri"}) && SpellingClosed({"info"}) && SpellingClosed({"name"})
  {
  }

  lemma TagNameUnaffected()
    ensures forall x :: Canonical(x) == "tag" <==> x == "tag"
  {
  }

  /**
   * A <taglib> written with JSP 1.1 names yields the same library fields as
   * the same descriptor written with the JSP 1.2+ names; its tag elements
   * are renamed the same way.
   */
  lemma LibrarySpellingTolerance(taglib: Node)
    ensures LibraryFields(Canonicalize(taglib)).shortName == LibraryFields(taglib).shortName
    ensures LibraryFields(Canonicalize(taglib)).uri == LibraryFields(taglib).uri
    ensures LibraryFields(Canonicalize(taglib)).tlibVersion == LibraryFields(taglib).tlibVersion
    ensures LibraryFields(Canonicalize(taglib)).jspVersion == LibraryFields(taglib).jspVersion
    ensures LibraryFields(Canonicalize(taglib)).info == LibraryFields(taglib).info
    ensures LibraryFields(Canonicalize(taglib)).tagNodes == CanonicalizeAll(LibraryFields(taglib).tagNodes)
  {
    if taglib.Element? {
      var cs := taglib.children;
      assert ChildNodes(Canonicalize(taglib)) == CanonicalizeAll(cs);
      NameSetsSpellingClosed();
      TagNameUnaffected();
      FieldCanonical(cs, ShortNameNames);
      FieldCanonical(cs, {"uri"});
      FieldCanonical(cs, TlibVersionNames);
      FieldCanonical(cs, JspVersionNames);
      FieldCanonical(cs, {"info"});
      ElementsNamedCanonical(cs, "tag");
    }
  }
}
