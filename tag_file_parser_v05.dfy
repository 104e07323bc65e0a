/**
 * branches/owasp-jsp-testing-tool-v0.5/src/org/owasp/jsptester/parser/TagFileParser.java:
 * the JSP 1.1-era copy of the descriptor parser. Its <taglib> loop keeps
 * the same values as trunk's (every value passes through parseElementString
 * twice), but a <tag> becomes the seven-argument TagInfo: only the name,
 * tag class, body content, info, library and attributes survive, and
 * <variable> elements are collected without being parsed. Missing required
 * elements are reported on stderr, modelled as the same Warning values.
 *
 * The <attribute> and <icon> loops of this copy are the trunk's, statement
 * for statement (the v0.5 parseAttributeElement at lines 377-439 and
 * parseIconElement at lines 640-673), so TagFileParser.ParseAttributeElement
 * and TagFileParser.ParseIconElement are used here.
 */
module TagFileParserV05 {
  import opened JavaLang
  import opened Dom
  import opened TagExt
  import opened TldSpec
  import Trunk = TagFileParser

  // ---------------------------------------------------------------------
  // Specification

  /**
   * The locals of the v0.5 parseTagElement. `dynamicAttributes` is declared
   * without an initial value and only assigned by a <dynamic-attributes>
   * element: None until then.
   */
  datatype TagLocals = TagLocals(
    name: JString,
    tagClass: JString,
    teiClass: JString,
    bodyContent: JString,
    infoString: JString,
    attributes: seq<TagAttributeInfo>,
    displayName: JString,
    smallIcon: JString,
    largeIcon: JString,
    description: JString,
    example: JString,
    variableNodes: seq<Node>,
    dynamicAttributes: Option<bool>)

  /** What those locals hold once the children `cs` have been read. */
  function TagLocalsOf(cs: seq<Node>): TagLocals
  {
    TagLocals(
      Field(cs, {"name"}),
      Field(cs, TagClassNames),
      Field(cs, TeiClassNames),
      FieldOr(cs, BodyContentNames, DefaultBodyContent),
      Field(cs, {"info"}),
      AttributeList(ElementsNamed(cs, "attribute")),
      Field(cs, {"display-name"}),
      Field(cs, {"small-icon"}),
      Field(cs, {"large-icon"}),
      Field(cs, {"description"}),
      Field(cs, {"example"}),
      ElementsNamed(cs, "variable"),
      if LastContent(cs, {"dynamic-attributes"}).None? then None
      else Some(ParseTldBoolean(Field(cs, {"dynamic-attributes"}))))
  }

  /** The effect of one more child on the locals. */
  function TagChildEffect(l: TagLocals, c: Node): TagLocals
  {
    var text := ParseElementString(Some(TextContent(c)));
    l.(name := if Matches(c, {"name"}) then text else l.name,
       tagClass := if Matches(c, TagClassNames) then text else l.tagClass,
       teiClass := if Matches(c, TeiClassNames) then text else l.teiClass,
       bodyContent := if Matches(c, BodyContentNames) then text else l.bodyContent,
       infoString := if Matches(c, {"info"}) then text else l.infoString,
       attributes := if Matches(c, {"attribute"}) then l.attributes + [AttributeSpec(c)] else l.attributes,
       displayName := if Matches(c, {"display-name"}) then text else l.displayName,
       smallIcon := if Matches(c, {"small-icon"}) then text else l.smallIcon,
       largeIcon := if Matches(c, {"large-icon"}) then text else l.largeIcon,
       description := if Matches(c, {"description"}) then text else l.description,
       example := if Matches(c, {"example"}) then text else l.example,
       variableNodes := if Matches(c, {"variable"}) then l.variableNodes + [c] else l.variableNodes,
       dynamicAttributes := if Matches(c, {"dynamic-attributes"}) then Some(ParseTldBoolean(text))
                            else l.dynamicAttributes)
  }

  lemma TagLocalsStep(cs: seq<Node>, i: int)
    requires 0 <= i < |cs|
    ensures TagLocalsOf(cs[..i + 1]) == TagChildEffect(TagLocalsOf(cs[..i]), cs[i])
  {
    LastContentStep(cs, i, {"name"});
    LastContentStep(cs, i, TagClassNames);
    LastContentStep(cs, i, TeiClassNames);
    LastContentStep(cs, i, BodyContentNames);
    LastContentStep(cs, i, {"info"});
    LastContentStep(cs, i, {"display-name"});
    LastContentStep(cs, i, {"small-icon"});
    LastContentStep(cs, i, {"large-icon"});
    LastContentStep(cs, i, {"description"});
    LastContentStep(cs, i, {"example"});
    LastContentStep(cs, i, {"dynamic-attributes"});
    ElementsNamedStep(cs, i, "attribute");
    ElementsNamedStep(cs, i, "variable");
    AttributeListAppend(ElementsNamed(cs[..i], "attribute"), cs[i]);
  }

  /**
   * The seven-argument TagInfo a <tag> element becomes: display name,
   * icons and the variable array are left null by that constructor, and
   * dynamic attributes false.
   */
  function TagSpec(tag: Node, library: TagLibraryInfoImpl?): TagInfo
  {
    var l := TagLocalsOf(ChildNodes(tag));
    TagInfo(l.name, l.tagClass, l.bodyContent, l.infoString, library, l.attributes,
            None, None, None, None, false)
  }

  /** The diagnostics one child of a <tag> raises: only an <attribute> is parsed further. */
  function ChildWarning(c: Node): seq<Warning>
  {
    if Matches(c, {"attribute"}) then AttributeWarnings(c) else []
  }

  function ChildWarnings(cs: seq<Node>): seq<Warning>
  {
    if cs == [] then [] else ChildWarnings(cs[..|cs| - 1]) + ChildWarning(cs[|cs| - 1])
  }

  lemma ChildWarningsStep(cs: seq<Node>, i: int)
    requires 0 <= i < |cs|
    ensures ChildWarnings(cs[..i + 1]) == ChildWarnings(cs[..i]) + ChildWarning(cs[i])
  {
    assert cs[..i + 1][..i] == cs[..i];
  }

  function TagWarnings(tag: Node): seq<Warning>
  {
    var cs := ChildNodes(tag);
    ChildWarnings(cs)
    + (if Field(cs, {"name"}).None? then [MissingTagName] else [])
    + (if Field(cs, TagClassNames).None? then [MissingTagClass] else [])
  }

  function TagList(tagNodes: seq<Node>, library: TagLibraryInfoImpl?): (r: seq<TagInfo>)
    ensures |r| == |tagNodes|
  {
    if tagNodes == [] then []
    else TagList(tagNodes[..|tagNodes| - 1], library) + [TagSpec(tagNodes[|tagNodes| - 1], library)]
  }

  function TagListWarnings(tagNodes: seq<Node>): seq<Warning>
  {
    if tagNodes == [] then []
    else TagListWarnings(tagNodes[..|tagNodes| - 1]) + TagWarnings(tagNodes[|tagNodes| - 1])
  }

  lemma TagListStep(tagNodes: seq<Node>, i: int, library: TagLibraryInfoImpl?)
    requires 0 <= i < |tagNodes|
    ensures TagList(tagNodes[..i + 1], library) == TagList(tagNodes[..i], library) + [TagSpec(tagNodes[i], library)]
    ensures TagListWarnings(tagNodes[..i + 1]) == TagListWarnings(tagNodes[..i]) + TagWarnings(tagNodes[i])
  {
    assert tagNodes[..i + 1][..i] == tagNodes[..i];
  }

  // ---------------------------------------------------------------------
  // The parser

  /** parseTagLibElement: the library, its tags in document order, and the stderr diagnostics. */
  method ParseTagLibElement(taglib: Node) returns (library: TagLibraryInfoImpl, warnings: seq<Warning>)
    ensures fresh(library) && library.tags != null && fresh(library.tags)
    ensures var f := LibraryFields(taglib);
      && library.prefix == f.shortName && library.shortname == f.shortName
      && library.uri == f.uri && library.tlibversion == f.tlibVersion
      && library.jspversion == f.jspVersion && library.info == f.info
      && library.tags[..] == TagList(f.tagNodes, library)
      && warnings == LibraryWarnings(f) + TagListWarnings(f.tagNodes)
  {
    var f := ReadTagLibChildren(taglib);
    library, warnings := BuildLibrary(f);
  }

  /**
   * The tail of parseTagLibElement: the tlibversion and shortname checks,
   * the library, the check for at least one tag, and the tag array.
   */
  method BuildLibrary(f: TagLibraryFields) returns (library: TagLibraryInfoImpl, warnings: seq<Warning>)
    ensures fresh(library) && library.tags != null && fresh(library.tags)
    ensures library.prefix == f.shortName && library.shortname == f.shortName
    ensures library.uri == f.uri && library.tlibversion == f.tlibVersion
    ensures library.jspversion == f.jspVersion && library.info == f.info
    ensures library.tags[..] == TagList(f.tagNodes, library)
    ensures warnings == LibraryWarnings(f) + TagListWarnings(f.tagNodes)
  {
    var tlibVersionWarning := if f.tlibVersion.None? then [MissingTlibVersion] else [];
    var shortNameWarning := if f.shortName.None? then [MissingShortName] else [];

    library := new TagLibraryInfoImpl(f.shortName, f.uri);
    library.SetTlibVersion(f.tlibVersion);
    library.SetJspVersion(f.jspVersion);
    library.SetInfo(f.info);

    var tagWarning := if |f.tagNodes| < 1 then [MissingTag] else [];

    var tags, tagWarnings := ParseTagElements(f.tagNodes, library);
    warnings := tlibVersionWarning + shortNameWarning + tagWarning + tagWarnings;
    library.SetTags(tags);
  }

  /** The loop over the <taglib> children; every kept value is parsed twice. */
  method ReadTagLibChildren(taglib: Node) returns (f: TagLibraryFields)
    ensures f == LibraryFields(taglib)
  {
    var tlibVersion: JString := None;
    var jspVersion: JString := None;
    var shortName: JString := None;
    var uri: JString := None;
    var info: JString := None;
    var tagNodes: seq<Node> := [];

    // JSP 1.2 and 2.1 elements that are read but not kept
    var displayName: JString := None;
    var smallIcon: JString := None;
    var largeIcon: JString := None;
    var description: JString := None;
    var validator: Option<Node> := None;
    var listenerNodes: seq<Node> := [];
    var tagFileNodes: seq<Node> := [];
    var functionNodes: seq<Node> := [];
    var taglibExtensionNodes: seq<Node> := [];

    var nodes := ChildNodes(taglib);
    for nodeIdx := 0 to |nodes|
      invariant tlibVersion == Field(nodes[..nodeIdx], TlibVersionNames)
      invariant jspVersion == Field(nodes[..nodeIdx], JspVersionNames)
      invariant shortName == Field(nodes[..nodeIdx], ShortNameNames)
      invariant uri == Field(nodes[..nodeIdx], {"uri"})
      invariant info == Field(nodes[..nodeIdx], {"info"})
      invariant tagNodes == ElementsNamed(nodes[..nodeIdx], "tag")
    {
      var childNode := nodes[nodeIdx];
      LastContentStep(nodes, nodeIdx, TlibVersionNames);
      LastContentStep(nodes, nodeIdx, JspVersionNames);
      LastContentStep(nodes, nodeIdx, ShortNameNames);
      LastContentStep(nodes, nodeIdx, {"uri"});
      LastContentStep(nodes, nodeIdx, {"info"});
      ElementsNamedStep(nodes, nodeIdx, "tag");
      if !childNode.Element? {
        continue;
      }
      var name := childNode.name;
      var text := Some(TextContent(childNode));
      ParseElementStringIdempotent(text);
      assert Matches(childNode, TlibVersionNames) <==> name == "tlibversion" || name == "tlib-version";
      assert Matches(childNode, JspVersionNames) <==> name == "jspversion" || name == "jsp-version";
      assert Matches(childNode, ShortNameNames) <==> name == "shortname" || name == "short-name";
      assert Matches(childNode, {"uri"}) <==> name == "uri";
      assert Matches(childNode, {"info"}) <==> name == "info";
      assert Matches(childNode, {"tag"}) <==> name == "tag";
      if name == "tlibversion" || name == "tlib-version" {
        tlibVersion := ParseElementString(ParseElementString(text));
      } else if name == "jspversion" || name == "jsp-version" {
        jspVersion := ParseElementString(ParseElementString(text));
      } else if name == "shortname" || name == "short-name" {
        shortName := ParseElementString(ParseElementString(text));
      } else if name == "uri" {
        uri := ParseElementString(ParseElementString(text));
      } else if name == "info" {
        info := ParseElementString(ParseElementString(text));
      } else if name == "tag" {
        tagNodes := tagNodes + [childNode];
      } else if name == "display-name" {
        displayName := ParseElementString(ParseElementString(text));
      } else if name == "small-icon" {
        smallIcon := ParseElementString(ParseElementString(text));
      } else if name == "large-icon" {
        largeIcon := ParseElementString(ParseElementString(text));
      } else if name == "description" {
        description := ParseElementString(ParseElementString(text));
      } else if name == "validator" {
        validator := Some(childNode);
      } else if name == "listener" {
        listenerNodes := listenerNodes + [childNode];
      } else if name == "icon" {
        smallIcon, largeIcon := Trunk.ParseIconElement(childNode);
      } else if name == "tag-file" {
        tagFileNodes := tagFileNodes + [childNode];
      } else if name == "function" {
        functionNodes := functionNodes + [childNode];
      } else if name == "taglib-extension" {
        taglibExtensionNodes := taglibExtensionNodes + [childNode];
      }
      // any other element is reported on stderr and skipped
    }
    assert nodes[..|nodes|] == nodes;
    f := TagLibraryFields(shortName, uri, tlibVersion, jspVersion, info, tagNodes);
  }

  /** The loop filling the tag array, one parseTagElement per <tag> element. */
  method ParseTagElements(tagNodes: seq<Node>, library: TagLibraryInfoImpl)
    returns (tags: array<TagInfo>, warnings: seq<Warning>)
    ensures fresh(tags)
    ensures tags[..] == TagList(tagNodes, library)
    ensures warnings == TagListWarnings(tagNodes)
  {
    tags := new TagInfo[|tagNodes|];
    warnings := [];
    for tagIdx := 0 to |tagNodes|
      invariant tags[..tagIdx] == TagList(tagNodes[..tagIdx], library)
      invariant warnings == TagListWarnings(tagNodes[..tagIdx])
    {
      TagListStep(tagNodes, tagIdx, library);
      ghost var done := tags[..tagIdx];
      var tag, tagWarnings := ParseTagElement(tagNodes[tagIdx], library);
      tags[tagIdx] := tag;
      assert tags[..tagIdx + 1] == done + [tag];
      warnings := warnings + tagWarnings;
    }
    assert tags[..] == tags[..|tagNodes|];
    assert tagNodes[..|tagNodes|] == tagNodes;
  }

  /** parseTagElement: the seven-argument TagInfo of a <tag> element and its diagnostics. */
  method ParseTagElement(tag: Node, library: TagLibraryInfoImpl?) returns (info: TagInfo, warnings: seq<Warning>)
    ensures info == TagSpec(tag, library)
    ensures warnings == TagWarnings(tag)
  {
    var locals := TagLocals(None, None, None, Some(DefaultBodyContent), None, [],
                            None, None, None, None, None, [], None);
    warnings := [];
    var nodes := ChildNodes(tag);
    assert nodes[..0] == [];
    for nodeIdx := 0 to |nodes|
      invariant locals == TagLocalsOf(nodes[..nodeIdx])
      invariant warnings == ChildWarnings(nodes[..nodeIdx])
    {
      var childNode := nodes[nodeIdx];
      TagLocalsStep(nodes, nodeIdx);
      ChildWarningsStep(nodes, nodeIdx);
      var childWarnings;
      locals, childWarnings := ReadTagChild(locals, childNode);
      warnings := warnings + childWarnings;
    }
    assert nodes[..|nodes|] == nodes;

    if locals.name.None? {
      warnings := warnings + [MissingTagName];
    }
    if locals.tagClass.None? {
      warnings := warnings + [MissingTagClass];
    }
    info := TagInfo(locals.name, locals.tagClass, locals.bodyContent, locals.infoString, library,
                    locals.attributes, None, None, None, None, false);
  }

  /** The body of the v0.5 parseTagElement loop for one child; every text value is parsed twice. */
  method ReadTagChild(locals: TagLocals, childNode: Node) returns (next: TagLocals, childWarnings: seq<Warning>)
    ensures next == TagChildEffect(locals, childNode)
    ensures childWarnings == ChildWarning(childNode)
  {
    next, childWarnings := locals, [];
    if !childNode.Element? {
      return;
    }
    var childName := childNode.name;
    var text := Some(TextContent(childNode));
    ParseElementStringIdempotent(text);
    if childName == "name" {
      next := next.(name := ParseElementString(ParseElementString(text)));
    } else if childName == "tagclass" || childName == "tag-class" {
      next := next.(tagClass := ParseElementString(ParseElementString(text)));
    } else if childName == "teiclass" || childName == "tei-class" {
      next := next.(teiClass := ParseElementString(ParseElementString(text)));
    } else if childName == "bodycontent" || childName == "body-content" {
      next := next.(bodyContent := ParseElementString(ParseElementString(text)));
    } else if childName == "info" {
      next := next.(infoString := ParseElementString(ParseElementString(text)));
    } else {
      next, childWarnings := ReadLaterTagChild(locals, childNode);
    }
  }

  /** The rest of the chain of element names in ReadTagChild. */
  method ReadLaterTagChild(locals: TagLocals, childNode: Node) returns (next: TagLocals, childWarnings: seq<Warning>)
    requires childNode.Element?
    requires !Matches(childNode, {"name"}) && !Matches(childNode, TagClassNames) && !Matches(childNode, TeiClassNames)
    requires !Matches(childNode, BodyContentNames) && !Matches(childNode, {"info"})
    ensures next == TagChildEffect(locals, childNode)
    ensures childWarnings == ChildWarning(childNode)
  {
    next, childWarnings := locals, [];
    var childName := childNode.name;
    var text := Some(TextContent(childNode));
    ParseElementStringIdempotent(text);
    if childName == "attribute" {
      var attribute;
      attribute, childWarnings := Trunk.ParseAttributeElement(childNode);
      next := next.(attributes := next.attributes + [attribute]);
    } else if childName == "display-name" {
      next := next.(displayName := ParseElementString(ParseElementString(text)));
    } else if childName == "small-icon" {
      next := next.(smallIcon := ParseElementString(ParseElementString(text)));
    } else if childName == "large-icon" {
      next := next.(largeIcon := ParseElementString(ParseElementString(text)));
    } else if childName == "description" {
      next := next.(description := ParseElementString(ParseElementString(text)));
    } else if childName == "variable" {
      next := next.(variableNodes := next.variableNodes + [childNode]);
    } else if childName == "example" {
      next := next.(example := ParseElementString(ParseElementString(text)));
    } else if childName == "dynamic-attributes" {
      next := next.(dynamicAttributes := Some(ParseTldBoolean(ParseElementString(ParseElementString(text)))));
    }
    // any other element is reported on stderr and skipped
  }

  // ---------------------------------------------------------------------
  // Properties

  /** The elements a v0.5 TagInfo is built from. */
  const KeptTagNames: set<string> := TagClassNames + BodyContentNames + {"name", "info", "attribute"}

  lemma {:induction false} ChildWarningsIgnores(a: seq<Node>, e: Node, b: seq<Node>)
    requires ChildWarning(e) == []
    ensures ChildWarnings(a + [e] + b) == ChildWarnings(a + b)
    decreases |b|
  {
    if b == [] {
      assert (a + [e] + b)[..|a + [e] + b| - 1] == a;
      assert a + b == a;
    } else {
      var b' := b[..|b| - 1];
      assert (a + [e] + b)[..|a + [e] + b| - 1] == a + [e] + b';
      assert (a + b)[..|a + b| - 1] == a + b';
      ChildWarningsIgnores(a, e, b');
    }
  }

  /**
   * Any element other than name, tag class, body content, info and
   * attribute (unknown ones, and the JSP 1.2+ display-name, icons,
   * description, variable, example and dynamic-attributes alike) can be
   * added anywhere among a tag's children without changing the TagInfo or
   * the diagnostics.
   */
  lemma OtherTagChildIgnored(name: string, a: seq<Node>, e: Node, b: seq<Node>, library: TagLibraryInfoImpl?)
    requires e.Element? && e.name !in KeptTagNames
    ensures TagSpec(Element(name, a + [e] + b), library) == TagSpec(Element(name, a + b), library)
    ensures TagWarnings(Element(name, a + [e] + b)) == TagWarnings(Element(name, a + b))
  {
    LastContentIgnores(a, e, b, {"name"});
    LastContentIgnores(a, e, b, TagClassNames);
    LastContentIgnores(a, e, b, BodyContentNames);
    LastContentIgnores(a, e, b, {"info"});
    ElementsNamedIgnores(a, e, b, "attribute");
    ChildWarningsIgnores(a, e, b);
  }

  /**
   * The v0.5 parser and the trunk parser agree on everything the v0.5 one
   * keeps of a tag; only the trunk one passes a variable array.
   */
  lemma AgreesWithTrunk(tag: Node, library: TagLibraryInfoImpl?, getBoolean: JString -> bool)
    ensures var old05 := TagSpec(tag, library);
      var now := Trunk.TagSpec(tag, library, getBoolean);
      && old05.tagName == now.tagName && old05.tagClassName == now.tagClassName
      && old05.bodyContent == now.bodyContent && old05.infoString == now.infoString
      && old05.library == now.library && old05.attributes == now.attributes
    ensures TagSpec(tag, library).variables.None? && Trunk.TagSpec(tag, library, getBoolean).variables.Some?
  {
  }

  lemma ChildWarningCanonical(c: Node)
    ensures ChildWarning(Canonicalize(c)) == ChildWarning(c)
  {
    if c.Element? {
      if c.name == "attribute" {
        AttributeCanonical(c);
      } else {
        assert Canonical(c.name) != "attribute";
      }
    }
  }

  lemma {:induction false} ChildWarningsCanonical(cs: seq<Node>)
    ensures ChildWarnings(CanonicalizeAll(cs)) == ChildWarnings(cs)
    decreases |cs|
  {
    if cs != [] {
      var rs := CanonicalizeAll(cs);
      assert rs[..|rs| - 1] == CanonicalizeAll(cs[..|cs| - 1]);
      ChildWarningsCanonical(cs[..|cs| - 1]);
      ChildWarningCanonical(cs[|cs| - 1]);
    }
  }

  /** A <tag> reads the same under its JSP 1.1 and JSP 1.2+ element names. */
  lemma TagSpellingTolerance(tag: Node, library: TagLibraryInfoImpl?)
    ensures TagSpec(Canonicalize(tag), library) == TagSpec(tag, library)
    ensures TagWarnings(Canonicalize(tag)) == TagWarnings(tag)
  {
    var cs := ChildNodes(tag);
    assert ChildNodes(Canonicalize(tag)) == CanonicalizeAll(cs);
    NameSetsSpellingClosed();
    FieldCanonical(cs, {"name"});
    FieldCanonical(cs, TagClassNames);
    FieldCanonical(cs, BodyContentNames);
    FieldCanonical(cs, {"info"});
    assert forall x :: Canonical(x) == "attribute" <==> x == "attribute";
    ElementsNamedCanonical(cs, "attribute");
    AttributeListCanonical(ElementsNamed(cs, "attribute"));
    ChildWarningsCanonical(cs);
  }
}
