/**
 * The descriptor records of javax.servlet.jsp.tagext that the tag-library
 * parser builds, and TagLibraryInfoImpl, the tool's mutable subclass of
 * TagLibraryInfo (trunk/owasp-jsp-testing-tool/src/org/owasp/jsptester/parser/TagLibraryInfoImpl.java).
 */
module TagExt {
  import opened JavaLang

  /** VariableInfo scope constants. */
  const NESTED: int := 0
  const AT_BEGIN: int := 1
  const AT_END: int := 2

  /** TagAttributeInfo(name, required, type, reqTime). */
  datatype TagAttributeInfo = TagAttributeInfo(
    name: JString,
    required: bool,
    typeName: JString,
    canBeRequestTime: bool)

  /** TagVariableInfo(nameGiven, nameFromAttribute, className, declare, scope). */
  datatype TagVariableInfo = TagVariableInfo(
    nameGiven: JString,
    nameFromAttribute: JString,
    className: JString,
    declare: bool,
    scope: int)

  /**
   * TagInfo. The TagExtraInfo argument is always null in the tool and is not
   * recorded; `library` is the TagLibraryInfo the tag was parsed into.
   * `variables` is null (None) when the constructor used takes no
   * TagVariableInfo array.
   */
  datatype TagInfo = TagInfo(
    tagName: JString,
    tagClassName: JString,
    bodyContent: JString,
    infoString: JString,
    library: TagLibraryInfoImpl?,
    attributes: seq<TagAttributeInfo>,
    displayName: JString,
    smallIcon: JString,
    largeIcon: JString,
    variables: Option<seq<TagVariableInfo>>,
    dynamicAttributes: bool)

  class TagLibraryInfoImpl {
    var prefix: JString
    var uri: JString
    var shortname: JString
    var tlibversion: JString
    var jspversion: JString
    var info: JString
    var tags: array?<TagInfo>

    /** TagLibraryInfo(prefix, uri) followed by `shortname = prefix`. */
    constructor (prefix: JString, uri: JString)
      ensures this.prefix == prefix && this.uri == uri && shortname == prefix
      ensures tlibversion.None? && jspversion.None? && info.None? && tags == null
    {
      this.prefix := prefix;
      this.uri := uri;
      shortname := prefix;
      tlibversion := None;
      jspversion := None;
      info := None;
      tags := null;
    }

    /** The library lists exactly one TagLibraryInfo: itself. */
    method GetTagLibraryInfos() returns (r: array<TagLibraryInfoImpl>)
      ensures fresh(r) && r.Length == 1 && r[0] == this
    {
      r := new TagLibraryInfoImpl[1](_ => this);
    }

    /** Stores the caller's array itself, so later writes to it are visible here. */
    method SetTags(tags: array<TagInfo>)
      modifies this`tags
      ensures this.tags == tags
      ensures unchanged(this`prefix, this`uri, this`shortname, this`tlibversion, this`jspversion, this`info)
    {
      this.tags := tags;
    }

    method SetTlibVersion(version: JString)
      modifies this`tlibversion
      ensures tlibversion == version
      ensures unchanged(this`prefix, this`uri, this`shortname, this`jspversion, this`info, this`tags)
    {
      tlibversion := version;
    }

    method SetJspVersion(version: JString)
      modifies this`jspversion
      ensures jspversion == version
      ensures unchanged(this`prefix, this`uri, this`shortname, this`tlibversion, this`info, this`tags)
    {
      jspversion := version;
    }

    method SetInfo(info: JString)
      modifies this`info
      ensures this.info == info
      ensures unchanged(this`prefix, this`uri, this`shortname, this`tlibversion, this`jspversion, this`tags)
    {
      this.info := info;
    }
  }
}
