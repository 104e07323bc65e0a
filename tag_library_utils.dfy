/**
 * TagLibraryUtils (owasp-jsp-testing-tool/.../parser/TagLibraryUtils.java):
 * which attributes of a tag are required, and which configured values the
 * tag properties hold for them.
 *
 * TagAttributeInfo has no equals of its own, so Java's sets and maps of
 * attributes are keyed by object identity; here an attribute is its index
 * in the tag's attribute array.
 */
module TagLibraryUtils {
  import opened JavaLang
  import opened TagExt
  import opened TagPropertyStore

  /** The indices of the tag's required attributes. */
  function RequiredIndices(attrs: seq<TagAttributeInfo>): (r: set<nat>)
    ensures forall i :: i in r <==> 0 <= i < |attrs| && attrs[i].required
  {
    set i: nat | i < |attrs| && attrs[i].required
  }

  /** hasRequiredAttributes: a scan that stops at the first required attribute. */
  method HasRequiredAttributes(tag: TagInfo) returns (b: bool)
    ensures b <==> exists i :: 0 <= i < |tag.attributes| && tag.attributes[i].required
  {
    var attrs := tag.attributes;
    var attrIdx := 0;
    while attrIdx < |attrs|
      invariant 0 <= attrIdx <= |attrs|
      invariant forall i :: 0 <= i < attrIdx ==> !attrs[i].required
    {
      if attrs[attrIdx].required {
        return true;
      }
      attrIdx := attrIdx + 1;
    }
    return false;
  }

  /** getRequiredAttributes. */
  method GetRequiredAttributes(tag: TagInfo) returns (reqAttrs: set<nat>)
    ensures reqAttrs == RequiredIndices(tag.attributes)
  {
    reqAttrs := {};
    var attrs := tag.attributes;
    var attrIdx := 0;
    while attrIdx < |attrs|
      invariant 0 <= attrIdx <= |attrs|
      invariant forall i :: i in reqAttrs <==> 0 <= i < attrIdx && attrs[i].required
    {
      if attrs[attrIdx].required {
        reqAttrs := reqAttrs + {attrIdx};
      }
      attrIdx := attrIdx + 1;
    }
  }

  /** A tag has required attributes exactly when getRequiredAttributes is not empty. */
  lemma HasRequiredIffNonEmpty(attrs: seq<TagAttributeInfo>)
    ensures (exists i :: 0 <= i < |attrs| && attrs[i].required) <==> RequiredIndices(attrs) != {}
  {
    if exists i :: 0 <= i < |attrs| && attrs[i].required {
      var i :| 0 <= i < |attrs| && attrs[i].required;
      assert i in RequiredIndices(attrs);
    }
  }

  /**
   * The map getRequiredAttributesMap builds: each required attribute that
   * has a tag property, mapped to that property's value.
   */
  function ConfiguredRequired(tag: TagInfo, props: map<string, string>): (r: map<nat, string>)
    ensures forall i :: i in r <==> i in RequiredIndices(tag.attributes)
                                    && PropertyKey(tag.tagName, tag.attributes[i].name) in props
    ensures forall i :: i in r ==> r[i] == props[PropertyKey(tag.tagName, tag.attributes[i].name)]
  {
    map i | i in RequiredIndices(tag.attributes) && PropertyKey(tag.tagName, tag.attributes[i].name) in props
      :: props[PropertyKey(tag.tagName, tag.attributes[i].name)]
  }

  /**
   * getRequiredAttributesMap: walks the required set in HashSet order and
   * puts each configured attribute's value; it changes neither the tag nor
   * the tag properties.
   */
  method GetRequiredAttributesMap(tag: TagInfo, tagProperties: TagProperties) returns (attrMap: map<nat, string>)
    ensures attrMap == ConfiguredRequired(tag, tagProperties.properties)
    ensures forall i :: i in attrMap <==> i in RequiredIndices(tag.attributes)
                                          && tagProperties.HasTagProperty(tag.tagName, tag.attributes[i].name)
    ensures forall i :: i in attrMap ==> Some(attrMap[i]) == tagProperties.GetTagProperty(tag.tagName, tag.attributes[i].name)
  {
    attrMap := map[];
    var reqAttrs := GetRequiredAttributes(tag);
    var rest := reqAttrs;
    while rest != {}
      invariant rest <= reqAttrs
      invariant attrMap == ConfiguredRequired(tag, tagProperties.properties) - rest
      decreases |rest|
    {
      var reqAttr :| reqAttr in rest;
      if tagProperties.HasTagProperty(tag.tagName, tag.attributes[reqAttr].name) {
        attrMap := attrMap[reqAttr := tagProperties.GetTagProperty(tag.tagName, tag.attributes[reqAttr].name).value];
      }
      rest := rest - {reqAttr};
    }
  }

  /** A tag without required attributes yields an empty map, whatever the tag properties hold. */
  lemma NoRequiredNoValues(tag: TagInfo, props: map<string, string>)
    requires forall i :: 0 <= i < |tag.attributes| ==> !tag.attributes[i].required
    ensures ConfiguredRequired(tag, props) == map[]
  {
    assert RequiredIndices(tag.attributes) == {};
  }

  /** The map only ever holds required attributes of the tag. */
  lemma ConfiguredAreRequired(tag: TagInfo, props: map<string, string>)
    ensures ConfiguredRequired(tag, props).Keys <= RequiredIndices(tag.attributes)
    ensures |ConfiguredRequired(tag, props)| <= |RequiredIndices(tag.attributes)|
  {
    var r := ConfiguredRequired(tag, props);
    assert r.Keys <= RequiredIndices(tag.attributes);
    SubsetCardinality(r.Keys, RequiredIndices(tag.attributes));
  }

  lemma SubsetCardinality(a: set<nat>, b: set<nat>)
    requires a <= b
    ensures |a| <= |b|
  {
    assert b == a + (b - a);
  }
}
