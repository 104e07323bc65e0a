/**
 * trunk/owasp-jsp-testing-tool/src/org/owasp/jsptester/parser/TagFileParser.java:
 * turns the DOM of a tag library descriptor into a TagLibraryInfoImpl and
 * its TagInfo, TagAttributeInfo and TagVariableInfo records. Each parse
 * method is the source's loop over the child nodes, proved equal to the
 * descriptor's meaning as TldSpec defines it.
 *
 * Boolean.getBoolean (which reads a JVM system property) is the parameter
 * `getBoolean`.
 */
module TagFileParser {
  import opened JavaLang
  import opened Dom
  import opened TagExt
  import opened TldSpec

  // ---------------------------------------------------------------------
  // Specification

  /** The TagVariableInfo a <variable> element describes. */
  function VariableSpec(variable: Node, getBoolean: JString -> bool): TagVariableInfo
  {
    var cs := ChildNodes(variable);
    TagVariableInfo(
      Field(cs, {"name-given"}),
      Field(cs, {"name-from-attribute"}),
      FieldOr(cs, {"variable-class"}, DefaultVariableClass),
      if LastContent(cs, {"declare"}).None? then true else getBoolean(Field(cs, {"declare"})),
      ParseScopeType(FieldOr(cs, {"scope"}, DefaultScope)))
  }

  function VariableWarnings(variable: Node): seq<Warning>
  {
    var cs := ChildNodes(variable);
    if Field(cs, {"name-given"}).None? && Field(cs, {"name-from-attribute"}).None?
    then [MissingVariableName] else []
  }

  function VariableList(es: seq<Node>, getBoolean: JString -> bool): (r: seq<TagVariableInfo>)
    ensures |r| == |es|
  {
    if es == [] then [] else VariableList(es[..|es| - 1], getBoolean) + [VariableSpec(es[|es| - 1], getBoolean)]
  }

  lemma VariableListAppend(es: seq<Node>, e: Node, getBoolean: JString -> bool)
    ensures VariableList(es + [e], getBoolean) == VariableList(es, getBoolean) + [VariableSpec(e, getBoolean)]
  {
    assert (es + [e])[..|es|] == es;
  }

  /**
   * The locals of parseTagElement that its loop over the children of a
   * <tag> element fills in. The tei-class, description and example values
   * are read and then dropped.
   */
  datatype TagLocals = TagLocals(
    name: JString,
    tagClass: JString,
    teiClass: JString,
    bodyContent: JString,
    infoString: JString,
    attributes: seq<TagAttributeInfo>,
    displayName: JString,
    smallIcon: JString,
    largeIcon: JString,
    description: JString,
    example: JString,
    variables: seq<TagVariableInfo>,
    dynamicAttributes: bool)

  /** What the locals of parseTagElement hold once the children `cs` have been read. */
  function TagLocalsOf(cs: seq<Node>, getBoolean: JString -> bool): TagLocals
  {
    TagLocals(
      Field(cs, {"name"}),
      Field(cs, TagClassNames),
      Field(cs, TeiClassNames),
      FieldOr(cs, BodyContentNames, DefaultBodyContent),
      Field(cs, {"info"}),
      AttributeList(ElementsNamed(cs, "attribute")),
      Field(cs, {"display-name"}),
      Field(cs, {"small-icon"}),
      Field(cs, {"large-icon"}),
      Field(cs, {"description"}),
      Field(cs, {"example"}),
      VariableList(ElementsNamed(cs, "variable"), getBoolean),
      ParseTldBoolean(Field(cs, {"dynamic-attributes"})))
  }

  /**
   * The effect of one more child on those locals: an element with one of
   * the known names replaces the matching local with its trimmed text (or,
   * for <attribute> and <variable>, appends what it describes); any other
   * child leaves them as they were.
   */
  function TagChildEffect(l: TagLocals, c: Node, getBoolean: JString -> bool): TagLocals
  {
    var text := ParseElementString(Some(TextContent(c)));
    l.(name := if Matches(c, {"name"}) then text else l.name,
       tagClass := if Matches(c, TagClassNames) then text else l.tagClass,
       teiClass := if Matches(c, TeiClassNames) then text else l.teiClass,
       bodyContent := if Matches(c, BodyContentNames) then text else l.bodyContent,
       infoString := if Matches(c, {"info"}) then text else l.infoString,
       attributes := if Matches(c, {"attribute"}) then l.attributes + [AttributeSpec(c)] else l.attributes,
       displayName := if Matches(c, {"display-name"}) then text else l.displayName,
       smallIcon := if Matches(c, {"small-icon"}) then text else l.smallIcon,
       largeIcon := if Matches(c, {"large-icon"}) then text else l.largeIcon,
       description := if Matches(c, {"description"}) then text else l.description,
       example := if Matches(c, {"example"}) then text else l.example,
       variables := if Matches(c, {"variable"}) then l.variables + [VariableSpec(c, getBoolean)] else l.variables,
       dynamicAttributes := if Matches(c, {"dynamic-attributes"}) then ParseTldBoolean(text) else l.dynamicAttributes)
  }

  /**
   * Reading the children one at a time with TagChildEffect yields the
   * locals TagLocalsOf describes: the last occurrence of each element wins
   * and the attributes and variables keep document order.
   */
  lemma TagLocalsStep(cs: seq<Node>, i: int, getBoolean: JString -> bool)
    requires 0 <= i < |cs|
    ensures TagLocalsOf(cs[..i + 1], getBoolean) == TagChildEffect(TagLocalsOf(cs[..i], getBoolean), cs[i], getBoolean)
  {
    LastContentStep(cs, i, {"name"});
    LastContentStep(cs, i, TagClassNames);
    LastContentStep(cs, i, TeiClassNames);
    LastContentStep(cs, i, BodyContentNames);
    LastContentStep(cs, i, {"info"});
    LastContentStep(cs, i, {"display-name"});
    LastContentStep(cs, i, {"small-icon"});
    LastContentStep(cs, i, {"large-icon"});
    LastContentStep(cs, i, {"description"});
    LastContentStep(cs, i, {"example"});
    LastContentStep(cs, i, {"dynamic-attributes"});
    ElementsNamedStep(cs, i, "attribute");
    ElementsNamedStep(cs, i, "variable");
    AttributeListAppend(ElementsNamed(cs[..i], "attribute"), cs[i]);
    VariableListAppend(ElementsNamed(cs[..i], "variable"), cs[i], getBoolean);
  }

  /** The TagInfo a <tag> element describes, attached to `library`. */
  function TagSpec(tag: Node, library: TagLibraryInfoImpl?, getBoolean: JString -> bool): TagInfo
  {
    var l := TagLocalsOf(ChildNodes(tag), getBoolean);
    TagInfo(l.name, l.tagClass, l.bodyContent, l.infoString, library, l.attributes,
            l.displayName, l.smallIcon, l.largeIcon, Some(l.variables), l.dynamicAttributes)
  }

  /** The warnings one child of a <tag> raises: those of an attribute or a variable. */
  function ChildWarning(c: Node): seq<Warning>
  {
    if Matches(c, {"attribute"}) then AttributeWarnings(c)
    else if Matches(c, {"variable"}) then VariableWarnings(c)
    else []
  }

  /** Warnings raised while reading a tag's children, in document order. */
  function ChildWarnings(cs: seq<Node>): seq<Warning>
  {
    if cs == [] then [] else ChildWarnings(cs[..|cs| - 1]) + ChildWarning(cs[|cs| - 1])
  }

  function TagWarnings(tag: Node): seq<Warning>
  {
    var cs := ChildNodes(tag);
    ChildWarnings(cs)
    + (if Field(cs, {"name"}).None? then [MissingTagName] else [])
    + (if Field(cs, TagClassNames).None? then [MissingTagClass] else [])
  }

  lemma ChildWarningsStep(cs: seq<Node>, i: int)
    requires 0 <= i < |cs|
    ensures ChildWarnings(cs[..i + 1]) == ChildWarnings(cs[..i]) + ChildWarning(cs[i])
  {
    assert cs[..i + 1][..i] == cs[..i];
  }

  /** The tags of a library, one per <tag> element, in document order. */
  function TagList(tagNodes: seq<Node>, library: TagLibraryInfoImpl?, getBoolean: JString -> bool): (r: seq<TagInfo>)
    ensures |r| == |tagNodes|
  {
    if tagNodes == [] then []
    else TagList(tagNodes[..|tagNodes| - 1], library, getBoolean) + [TagSpec(tagNodes[|tagNodes| - 1], library, getBoolean)]
  }

  function TagListWarnings(tagNodes: seq<Node>): seq<Warning>
  {
    if tagNodes == [] then []
    else TagListWarnings(tagNodes[..|tagNodes| - 1]) + TagWarnings(tagNodes[|tagNodes| - 1])
  }

  lemma TagListStep(tagNodes: seq<Node>, i: int, library: TagLibraryInfoImpl?, getBoolean: JString -> bool)
    requires 0 <= i < |tagNodes|
    ensures TagList(tagNodes[..i + 1], library, getBoolean)
            == TagList(tagNodes[..i], library, getBoolean) + [TagSpec(tagNodes[i], library, getBoolean)]
    ensures TagListWarnings(tagNodes[..i + 1]) == TagListWarnings(tagNodes[..i]) + TagWarnings(tagNodes[i])
  {
    assert tagNodes[..i + 1][..i] == tagNodes[..i];
  }

  // ---------------------------------------------------------------------
  // The parser

  /** parseTagLibElement: the library, its tags (in document order) and the warnings logged. */
  method ParseTagLibElement(taglib: Node, getBoolean: JString -> bool)
    returns (library: TagLibraryInfoImpl, warnings: seq<Warning>)
    ensures fresh(library) && library.tags != null && fresh(library.tags)
    ensures var f := LibraryFields(taglib);
      && library.prefix == f.shortName && library.shortname == f.shortName
      && library.uri == f.uri && library.tlibversion == f.tlibVersion
      && library.jspversion == f.jspVersion && library.info == f.info
      && library.tags[..] == TagList(f.tagNodes, library, getBoolean)
      && warnings == LibraryWarnings(f) + TagListWarnings(f.tagNodes)
  {
    var f := ReadTagLibChildren(taglib);
    library, warnings := BuildLibrary(f, getBoolean);
  }

  /**
   * The second half of parseTagLibElement: the three checks that log a
   * warning, the TagLibraryInfoImpl built from the fields read, and its tag
   * array filled in document order.
   */
  method BuildLibrary(f: TagLibraryFields, getBoolean: JString -> bool)
    returns (library: TagLibraryInfoImpl, warnings: seq<Warning>)
    ensures fresh(library) && library.tags != null && fresh(library.tags)
    ensures library.prefix == f.shortName && library.shortname == f.shortName
    ensures library.uri == f.uri && library.tlibversion == f.tlibVersion
    ensures library.jspversion == f.jspVersion && library.info == f.info
    ensures library.tags[..] == TagList(f.tagNodes, library, getBoolean)
    ensures warnings == LibraryWarnings(f) + TagListWarnings(f.tagNodes)
  {
    // the checks for tlibversion, shortname and at least one tag
    warnings := LibraryWarnings(f);

    library := new TagLibraryInfoImpl(f.shortName, f.uri);
    library.SetTlibVersion(f.tlibVersion);
    library.SetJspVersion(f.jspVersion);
    library.SetInfo(f.info);

    var tags, tagWarnings := ParseTagElements(f.tagNodes, library, getBoolean);
    warnings := warnings + tagWarnings;
    library.SetTags(tags);
  }

  /**
   * The loop over the <taglib> children at the head of parseTagLibElement:
   * the last occurrence of each kept element wins, <tag> elements are
   * collected in order, and the JSP 1.2+ elements are read and dropped.
   */
  method ReadTagLibChildren(taglib: Node) returns (f: TagLibraryFields)
    ensures f == LibraryFields(taglib)
  {
    var tlibVersion: JString := None;
    var jspVersion: JString := None;
    var shortName: JString := None;
    var uri: JString := None;
    var info: JString := None;
    var tagNodes: seq<Node> := [];

    // JSP 1.2+ elements that are read but not kept
    var displayName: JString := None;
    var smallIcon: JString := None;
    var largeIcon: JString := None;
    var description: JString := None;
    var validator: Option<Node> := None;
    var listenerNodes: seq<Node> := [];
    var tagFileNodes: seq<Node> := [];
    var functionNodes: seq<Node> := [];
    var taglibExtensionNodes: seq<Node> := [];

    var nodes := ChildNodes(taglib);
    for nodeIdx := 0 to |nodes|
      invariant tlibVersion == Field(nodes[..nodeIdx], TlibVersionNames)
      invariant jspVersion == Field(nodes[..nodeIdx], JspVersionNames)
      invariant shortName == Field(nodes[..nodeIdx], ShortNameNames)
      invariant uri == Field(nodes[..nodeIdx], {"uri"})
      invariant info == Field(nodes[..nodeIdx], {"info"})
      invariant tagNodes == ElementsNamed(nodes[..nodeIdx], "tag")
    {
      var childNode := nodes[nodeIdx];
      LastContentStep(nodes, nodeIdx, TlibVersionNames);
      LastContentStep(nodes, nodeIdx, JspVersionNames);
      LastContentStep(nodes, nodeIdx, ShortNameNames);
      LastContentStep(nodes, nodeIdx, {"uri"});
      LastContentStep(nodes, nodeIdx, {"info"});
      ElementsNamedStep(nodes, nodeIdx, "tag");
      if !childNode.Element? {
        continue;
      }
      var name := childNode.name;
      assert Matches(childNode, TlibVersionNames) <==> name == "tlibversion" || name == "tlib-version";
      assert Matches(childNode, JspVersionNames) <==> name == "jspversion" || name == "jsp-version";
      assert Matches(childNode, ShortNameNames) <==> name == "shortname" || name == "short-name";
      assert Matches(childNode, {"uri"}) <==> name == "uri";
      assert Matches(childNode, {"info"}) <==> name == "info";
      assert Matches(childNode, {"tag"}) <==> name == "tag";
      if name == "tlibversion" || name == "tlib-version" {
        tlibVersion := ParseElementString(Some(TextContent(childNode)));
      } else if name == "jspversion" || name == "jsp-version" {
        jspVersion := ParseElementString(Some(TextContent(childNode)));
      } else if name == "shortname" || name == "short-name" {
        shortName := ParseElementString(Some(TextContent(childNode)));
      } else if name == "uri" {
        uri := ParseElementString(Some(TextContent(childNode)));
      } else if name == "info" {
        info := ParseElementString(Some(TextContent(childNode)));
      } else if name == "tag" {
        tagNodes := tagNodes + [childNode];
      } else if name == "display-name" {
        displayName := ParseElementString(Some(TextContent(childNode)));
      } else if name == "small-icon" {
        smallIcon := ParseElementString(Some(TextContent(childNode)));
      } else if name == "large-icon" {
        largeIcon := ParseElementString(Some(TextContent(childNode)));
      } else if name == "description" {
        description := ParseElementString(ParseElementString(Some(TextContent(childNode))));
      } else if name == "validator" {
        validator := Some(childNode);
      } else if name == "listener" {
        listenerNodes := listenerNodes + [childNode];
      } else if name == "icon" {
        smallIcon, largeIcon := ParseIconElement(childNode);
      } else if name == "tag-file" {
        tagFileNodes := tagFileNodes + [childNode];
      } else if name == "function" {
        functionNodes := functionNodes + [childNode];
      } else if name == "taglib-extension" {
        taglibExtensionNodes := taglibExtensionNodes + [childNode];
      }
      // any other element is only logged, at FINE level
    }
    assert nodes[..|nodes|] == nodes;
    f := TagLibraryFields(shortName, uri, tlibVersion, jspVersion, info, tagNodes);
  }

  /**
   * The loop at the end of parseTagLibElement: a fresh array holding one
   * TagInfo per <tag> element, filled in document order.
   */
  method ParseTagElements(tagNodes: seq<Node>, library: TagLibraryInfoImpl, getBoolean: JString -> bool)
    returns (tags: array<TagInfo>, warnings: seq<Warning>)
    ensures fresh(tags)
    ensures tags[..] == TagList(tagNodes, library, getBoolean)
    ensures warnings == TagListWarnings(tagNodes)
  {
    tags := new TagInfo[|tagNodes|];
    warnings := [];
    for tagIdx := 0 to |tagNodes|
      invariant tags[..tagIdx] == TagList(tagNodes[..tagIdx], library, getBoolean)
      invariant warnings == TagListWarnings(tagNodes[..tagIdx])
    {
      TagListStep(tagNodes, tagIdx, library, getBoolean);
      ghost var done := tags[..tagIdx];
      var tag, tagWarnings := ParseTagElement(tagNodes[tagIdx], library, getBoolean);
      tags[tagIdx] := tag;
      assert tags[..tagIdx + 1] == done + [tag];
      warnings := warnings + tagWarnings;
    }
    assert tags[..] == tags[..|tagNodes|];
    assert tagNodes[..|tagNodes|] == tagNodes;
  }

  /** parseTagElement: the TagInfo a <tag> element describes, and the warnings logged on the way. */
  method ParseTagElement(tag: Node, library: TagLibraryInfoImpl?, getBoolean: JString -> bool)
    returns (info: TagInfo, warnings: seq<Warning>)
    ensures info == TagSpec(tag, library, getBoolean)
    ensures warnings == TagWarnings(tag)
  {
    var locals := TagLocals(None, None, None, Some(DefaultBodyContent), None, [],
                            None, None, None, None, None, [], false);
    warnings := [];
    var nodes := ChildNodes(tag);
    assert nodes[..0] == [];
    for nodeIdx := 0 to |nodes|
      invariant locals == TagLocalsOf(nodes[..nodeIdx], getBoolean)
      invariant warnings == ChildWarnings(nodes[..nodeIdx])
    {
      var childNode := nodes[nodeIdx];
      TagLocalsStep(nodes, nodeIdx, getBoolean);
      ChildWarningsStep(nodes, nodeIdx);
      var childWarnings;
      locals, childWarnings := ReadTagChild(locals, childNode, getBoolean);
      warnings := warnings + childWarnings;
    }
    assert nodes[..|nodes|] == nodes;

    if locals.name.None? {
      warnings := warnings + [MissingTagName];
    }
    if locals.tagClass.None? {
      warnings := warnings + [MissingTagClass];
    }
    info := TagInfo(locals.name, locals.tagClass, locals.bodyContent, locals.infoString, library,
                    locals.attributes, locals.displayName, locals.smallIcon, locals.largeIcon,
                    Some(locals.variables), locals.dynamicAttributes);
  }

  /**
   * The body of parseTagElement's loop for one child: an element whose name
   * parseTagElement knows replaces the matching local (or, for <attribute>
   * and <variable>, appends to its list); any other child changes nothing.
   */
  method ReadTagChild(locals: TagLocals, childNode: Node, getBoolean: JString -> bool)
    returns (next: TagLocals, childWarnings: seq<Warning>)
    ensures next == TagChildEffect(locals, childNode, getBoolean)
    ensures childWarnings == ChildWarning(childNode)
  {
    next, childWarnings := locals, [];
    if !childNode.Element? {
      return;
    }
    var childName := childNode.name;
    if childName == "name" {
      next := next.(name := ParseElementString(Some(TextContent(childNode))));
    } else if childName == "tagclass" || childName == "tag-class" {
      next := next.(tagClass := ParseElementString(Some(TextContent(childNode))));
    } else if childName == "teiclass" || childName == "tei-class" {
      next := next.(teiClass := ParseElementString(Some(TextContent(childNode))));
    } else if childName == "bodycontent" || childName == "body-content" {
      next := next.(bodyContent := ParseElementString(Some(TextContent(childNode))));
    } else if childName == "info" {
      next := next.(infoString := ParseElementString(Some(TextContent(childNode))));
    } else {
      next, childWarnings := ReadLaterTagChild(locals, childNode, getBoolean);
    }
  }

  /** The rest of the chain of element names in ReadTagChild. */
  method ReadLaterTagChild(locals: TagLocals, childNode: Node, getBoolean: JString -> bool)
    returns (next: TagLocals, childWarnings: seq<Warning>)
    requires childNode.Element?
    requires !Matches(childNode, {"name"}) && !Matches(childNode, TagClassNames) && !Matches(childNode, TeiClassNames)
    requires !Matches(childNode, BodyContentNames) && !Matches(childNode, {"info"})
    ensures next == TagChildEffect(locals, childNode, getBoolean)
    ensures childWarnings == ChildWarning(childNode)
  {
    next, childWarnings := locals, [];
    var childName := childNode.name;
    if childName == "attribute" {
      var attribute;
      attribute, childWarnings := ParseAttributeElement(childNode);
      next := next.(attributes := next.attributes + [attribute]);
    } else if childName == "display-name" {
      next := next.(displayName := ParseElementString(Some(TextContent(childNode))));
    } else if childName == "small-icon" {
      next := next.(smallIcon := ParseElementString(Some(TextContent(childNode))));
    } else if childName == "large-icon" {
      next := next.(largeIcon := ParseElementString(Some(TextContent(childNode))));
    } else if childName == "description" {
      next := next.(description := ParseElementString(Some(TextContent(childNode))));
    } else if childName == "variable" {
      var variable;
      variable, childWarnings := ParseVariableElement(childNode, getBoolean);
      next := next.(variables := next.variables + [variable]);
    } else if childName == "example" {
      next := next.(example := ParseElementString(Some(TextContent(childNode))));
    } else if childName == "dynamic-attributes" {
      next := next.(dynamicAttributes := ParseTldBoolean(ParseElementString(Some(TextContent(childNode)))));
    }
    // any other element is only logged, at FINE level
  }

  /** parseAttributeElement: the TagAttributeInfo an <attribute> element describes. */
  method ParseAttributeElement(attribute: Node) returns (info: TagAttributeInfo, warnings: seq<Warning>)
    ensures info == AttributeSpec(attribute)
    ensures warnings == AttributeWarnings(attribute)
  {
    var name: JString := None;
    var required := false;
    var typeName: JString := Some(DefaultAttributeType);
    var rtexprvalue := false;
    var description: JString := None;

    var nodes := ChildNodes(attribute);
    for nodeIdx := 0 to |nodes|
      invariant name == Field(nodes[..nodeIdx], {"name"})
      invariant required == ParseTldBoolean(Field(nodes[..nodeIdx], {"required"}))
      invariant typeName == FieldOr(nodes[..nodeIdx], {"type"}, DefaultAttributeType)
      invariant rtexprvalue == ParseTldBoolean(Field(nodes[..nodeIdx], {"rtexprvalue"}))
    {
      var childNode := nodes[nodeIdx];
      LastContentStep(nodes, nodeIdx, {"name"});
      LastContentStep(nodes, nodeIdx, {"required"});
      LastContentStep(nodes, nodeIdx, {"type"});
      LastContentStep(nodes, nodeIdx, {"rtexprvalue"});
      if !childNode.Element? {
        continue;
      }
      var text := Some(TextContent(childNode));
      ParseElementStringIdempotent(text);
      if childNode.name == "name" {
        name := ParseElementString(ParseElementString(text));
      } else if childNode.name == "required" {
        required := ParseTldBoolean(ParseElementString(ParseElementString(text)));
      } else if childNode.name == "rtexprvalue" {
        rtexprvalue := ParseTldBoolean(ParseElementString(ParseElementString(text)));
      } else if childNode.name == "type" {
        typeName := ParseElementString(ParseElementString(text));
      } else if childNode.name == "description" {
        description := ParseElementString(ParseElementString(text));
      }
      // any other element is only logged, at FINE level
    }
    assert nodes[..|nodes|] == nodes;

    warnings := if name.None? then [MissingAttributeName] else [];
    info := TagAttributeInfo(name, required, typeName, rtexprvalue);
  }

  /** parseVariableElement: the TagVariableInfo a <variable> element describes. */
  method ParseVariableElement(variable: Node, getBoolean: JString -> bool)
    returns (info: TagVariableInfo, warnings: seq<Warning>)
    ensures info == VariableSpec(variable, getBoolean)
    ensures warnings == VariableWarnings(variable)
  {
    var nameGiven: JString := None;
    var nameFromAttribute: JString := None;
    var variableClass: JString := Some(DefaultVariableClass);
    var declare := true;
    var scope: JString := Some(DefaultScope);
    var description: JString := None;

    var nodes := ChildNodes(variable);
    for nodeIdx := 0 to |nodes|
      invariant nameGiven == Field(nodes[..nodeIdx], {"name-given"})
      invariant nameFromAttribute == Field(nodes[..nodeIdx], {"name-from-attribute"})
      invariant variableClass == FieldOr(nodes[..nodeIdx], {"variable-class"}, DefaultVariableClass)
      invariant declare == if LastContent(nodes[..nodeIdx], {"declare"}).None? then true
                           else getBoolean(Field(nodes[..nodeIdx], {"declare"}))
      invariant scope == FieldOr(nodes[..nodeIdx], {"scope"}, DefaultScope)
    {
      var childNode := nodes[nodeIdx];
      LastContentStep(nodes, nodeIdx, {"name-given"});
      LastContentStep(nodes, nodeIdx, {"name-from-attribute"});
      LastContentStep(nodes, nodeIdx, {"variable-class"});
      LastContentStep(nodes, nodeIdx, {"declare"});
      LastContentStep(nodes, nodeIdx, {"scope"});
      if !childNode.Element? {
        continue;
      }
      var text := Some(TextContent(childNode));
      ParseElementStringIdempotent(text);
      if childNode.name == "name-given" {
        nameGiven := ParseElementString(ParseElementString(text));
      } else if childNode.name == "name-from-attribute" {
        nameFromAttribute := ParseElementString(ParseElementString(text));
      } else if childNode.name == "variable-class" {
        variableClass := ParseElementString(text);
      } else if childNode.name == "declare" {
        declare := getBoolean(ParseElementString(text));
      } else if childNode.name == "scope" {
        scope := ParseElementString(text);
      } else if childNode.name == "description" {
        description := ParseElementString(text);
      }
      // any other element is only logged, at FINE level
    }
    assert nodes[..|nodes|] == nodes;

    warnings := if nameGiven.None? && nameFromAttribute.None? then [MissingVariableName] else [];
    info := TagVariableInfo(nameGiven, nameFromAttribute, variableClass, declare, ParseScopeType(scope));
  }

  /** parseIconElement: the (small-icon, large-icon) pair of an <icon> element. */
  method ParseIconElement(icon: Node) returns (smallIcon: JString, largeIcon: JString)
    ensures (smallIcon, largeIcon) == IconSpec(icon)
  {
    smallIcon, largeIcon := None, None;
    var nodes := ChildNodes(icon);
    for nodeIdx := 0 to |nodes|
      invariant smallIcon == Field(nodes[..nodeIdx], {"small-icon"})
      invariant largeIcon == Field(nodes[..nodeIdx], {"large-icon"})
    {
      var childNode := nodes[nodeIdx];
      assert nodes[..nodeIdx + 1][..nodeIdx] == nodes[..nodeIdx];
      if !childNode.Element? {
        continue;
      }
      if childNode.name == "small-icon" {
        smallIcon := ParseElementString(Some(TextContent(childNode)));
      } else if childNode.name == "large-icon" {
        largeIcon := ParseElementString(Some(TextContent(childNode)));
      }
      // any other element is only logged, at FINE level
    }
    assert nodes[..|nodes|] == nodes;
  }
}
