/**
 * The trunk TestCase (trunk/owasp-jsp-testing-tool/.../report/TestCase.java):
 * builds the custom tag a test page embeds. An attribute test puts the
 * attack into one attribute; a body test puts it into the tag's text. In
 * both, every required attribute with a configured value (the reqAttrs map
 * of TagLibraryUtils.getRequiredAttributesMap, attributes as indices into
 * the tag's attribute array) is added in the map's iteration order, which
 * the methods report as a ghost `order`.
 */
module TestCase {
  import opened JavaLang
  import opened TagExt
  import opened Attacks
  import opened EcsXml

  /** shortName + ":" + tagName, nulls written as "null". */
  function ElementName(shortName: JString, tagName: JString): string
  {
    Str(shortName) + ":" + Str(tagName)
  }

  /** Every key of reqAttrs names an attribute of the tag. */
  predicate KeysAreAttributes(tag: TagInfo, reqAttrs: map<nat, string>)
  {
    forall k :: k in reqAttrs ==> k < |tag.attributes|
  }

  /** `order` lists every element of `keys` exactly once. */
  predicate IsEnumeration(order: seq<nat>, keys: set<nat>)
  {
    && (forall i :: 0 <= i < |order| ==> order[i] in keys)
    && (forall k :: k in keys ==> k in order)
    && (forall i, j :: 0 <= i < j < |order| ==> order[i] != order[j])
  }

  /** The addAttribute call for required attribute k. */
  function RequiredCall(tag: TagInfo, reqAttrs: map<nat, string>, k: nat): AttributeCall
    requires KeysAreAttributes(tag, reqAttrs) && k in reqAttrs
  {
    AttributeCall(tag.attributes[k].name, Some(reqAttrs[k]))
  }

  /** The addAttribute calls for the required attributes, in the order given. */
  function RequiredCalls(tag: TagInfo, reqAttrs: map<nat, string>, order: seq<nat>): (r: seq<AttributeCall>)
    requires KeysAreAttributes(tag, reqAttrs)
    requires forall i :: 0 <= i < |order| ==> order[i] in reqAttrs
    ensures |r| == |order|
    ensures forall i :: 0 <= i < |order| ==> r[i] == RequiredCall(tag, reqAttrs, order[i])
  {
    if order == [] then []
    else RequiredCalls(tag, reqAttrs, order[..|order| - 1]) + [RequiredCall(tag, reqAttrs, order[|order| - 1])]
  }

  /** The element an attribute test embeds, for a given iteration order of reqAttrs. */
  function AttrTestCase(shortName: JString, tag: TagInfo, attr: TagAttributeInfo, attack: Attack,
                        reqAttrs: map<nat, string>, order: seq<nat>): Xml
    requires KeysAreAttributes(tag, reqAttrs)
    requires forall i :: 0 <= i < |order| ==> order[i] in reqAttrs
  {
    Xml(ElementName(shortName, tag.tagName),
        [AttributeCall(attr.name, attack.attackString)] + RequiredCalls(tag, reqAttrs, order),
        None)
  }

  /** The element a body test embeds, for a given iteration order of reqAttrs. */
  function TagTestCase(shortName: JString, tag: TagInfo, attack: Attack,
                       reqAttrs: map<nat, string>, order: seq<nat>): Xml
    requires KeysAreAttributes(tag, reqAttrs)
    requires forall i :: 0 <= i < |order| ==> order[i] in reqAttrs
  {
    Xml(ElementName(shortName, tag.tagName), RequiredCalls(tag, reqAttrs, order), Some(attack.attackString))
  }

  /** generateAttrTestCaseJspTag. */
  method GenerateAttrTestCaseJspTag(tagLibrary: TagLibraryInfoImpl, tag: TagInfo, attr: TagAttributeInfo,
                                    attack: Attack, reqAttrs: map<nat, string>)
    returns (customTag: Xml, ghost order: seq<nat>)
    requires KeysAreAttributes(tag, reqAttrs)
    ensures IsEnumeration(order, reqAttrs.Keys)
    ensures customTag == AttrTestCase(tagLibrary.shortname, tag, attr, attack, reqAttrs, order)
  {
    customTag := NewXml(ElementName(tagLibrary.shortname, tag.tagName));
    customTag := AddAttribute(customTag, attr.name, attack.attackString);
    order := [];
    var rest := reqAttrs.Keys;
    while rest != {}
      invariant rest <= reqAttrs.Keys
      invariant IsEnumeration(order, reqAttrs.Keys - rest)
      invariant customTag == AttrTestCase(tagLibrary.shortname, tag, attr, attack, reqAttrs, order)
      decreases |rest|
    {
      var reqAttr :| reqAttr in rest;
      customTag := AddAttribute(customTag, tag.attributes[reqAttr].name, Some(reqAttrs[reqAttr]));
      order := order + [reqAttr];
      rest := rest - {reqAttr};
    }
  }

  /** generateTagTestCaseJspTag. */
  method GenerateTagTestCaseJspTag(tagLibrary: TagLibraryInfoImpl, tag: TagInfo, attack: Attack,
                                   reqAttrs: map<nat, string>)
    returns (customTag: Xml, ghost order: seq<nat>)
    requires KeysAreAttributes(tag, reqAttrs)
    ensures IsEnumeration(order, reqAttrs.Keys)
    ensures customTag == TagTestCase(tagLibrary.shortname, tag, attack, reqAttrs, order)
  {
    customTag := NewXml(ElementName(tagLibrary.shortname, tag.tagName));
    order := [];
    var rest := reqAttrs.Keys;
    while rest != {}
      invariant rest <= reqAttrs.Keys
      invariant IsEnumeration(order, reqAttrs.Keys - rest)
      invariant customTag == NewXml(ElementName(tagLibrary.shortname, tag.tagName)).(attributeCalls := RequiredCalls(tag, reqAttrs, order))
      decreases |rest|
    {
      var reqAttr :| reqAttr in rest;
      customTag := AddAttribute(customTag, tag.attributes[reqAttr].name, Some(reqAttrs[reqAttr]));
      order := order + [reqAttr];
      rest := rest - {reqAttr};
    }
    customTag := SetTagText(customTag, attack.attackString);
  }

  // ---------------------------------------------------------------------
  // Properties

  /** An enumeration of a set is exactly as long as the set is large. */
  lemma {:induction false} EnumerationLength(order: seq<nat>, keys: set<nat>)
    requires IsEnumeration(order, keys)
    ensures |order| == |keys|
    decreases |order|
  {
    if order != [] {
      var last := order[|order| - 1];
      var p := order[..|order| - 1];
      assert IsEnumeration(p, keys - {last}) by {
        forall k | k in keys - {last}
          ensures k in p
        {
          var i :| 0 <= i < |order| && order[i] == k;
          assert i != |order| - 1;
          assert p[i] == k;
        }
      }
      EnumerationLength(p, keys - {last});
    } else {
      assert keys == {} by {
        forall k | k in keys
          ensures false
        {
        }
      }
    }
  }

  /**
   * The attribute test's tag is shortName:tagName with no text; its first
   * call adds the tested attribute with the attack string unmodified, and
   * one further call follows for each configured required attribute.
   */
  lemma AttrTestCaseShape(shortName: JString, tag: TagInfo, attr: TagAttributeInfo, attack: Attack,
                          reqAttrs: map<nat, string>, order: seq<nat>)
    requires KeysAreAttributes(tag, reqAttrs) && IsEnumeration(order, reqAttrs.Keys)
    ensures var x := AttrTestCase(shortName, tag, attr, attack, reqAttrs, order);
      && x.elementName == Str(shortName) + ":" + Str(tag.tagName)
      && x.tagText.None?
      && |x.attributeCalls| == 1 + |reqAttrs|
      && x.attributeCalls[0] == AttributeCall(attr.name, attack.attackString)
  {
    EnumerationLength(order, reqAttrs.Keys);
  }

  /**
   * The body test's tag is shortName:tagName, carries exactly one call per
   * configured required attribute and has the raw attack string as text.
   */
  lemma TagTestCaseShape(shortName: JString, tag: TagInfo, attack: Attack,
                         reqAttrs: map<nat, string>, order: seq<nat>)
    requires KeysAreAttributes(tag, reqAttrs) && IsEnumeration(order, reqAttrs.Keys)
    ensures var x := TagTestCase(shortName, tag, attack, reqAttrs, order);
      && x.elementName == Str(shortName) + ":" + Str(tag.tagName)
      && x.tagText == Some(attack.attackString)
      && |x.attributeCalls| == |reqAttrs|
  {
    EnumerationLength(order, reqAttrs.Keys);
  }

  /**
   * Whatever the iteration order, every configured required attribute is
   * added once with its configured value, and nothing else is added.
   */
  lemma RequiredCallsCover(tag: TagInfo, reqAttrs: map<nat, string>, order: seq<nat>)
    requires KeysAreAttributes(tag, reqAttrs) && IsEnumeration(order, reqAttrs.Keys)
    ensures forall k :: k in reqAttrs ==> RequiredCall(tag, reqAttrs, k) in RequiredCalls(tag, reqAttrs, order)
    ensures forall c :: c in RequiredCalls(tag, reqAttrs, order) ==>
      exists k :: k in reqAttrs && c == RequiredCall(tag, reqAttrs, k)
  {
    var calls := RequiredCalls(tag, reqAttrs, order);
    forall k | k in reqAttrs
      ensures RequiredCall(tag, reqAttrs, k) in calls
    {
      var i :| 0 <= i < |order| && order[i] == k;
      assert calls[i] == RequiredCall(tag, reqAttrs, k);
    }
    forall c | c in calls
      ensures exists k :: k in reqAttrs && c == RequiredCall(tag, reqAttrs, k)
    {
      var i :| 0 <= i < |calls| && calls[i] == c;
      assert c == RequiredCall(tag, reqAttrs, order[i]);
    }
  }

  /** With no configured required attributes only the attack is added. */
  lemma EmptyRequiredMap(shortName: JString, tag: TagInfo, attr: TagAttributeInfo, attack: Attack, order: seq<nat>)
    requires IsEnumeration(order, {})
    ensures AttrTestCase(shortName, tag, attr, attack, map[], order).attributeCalls == [AttributeCall(attr.name, attack.attackString)]
    ensures TagTestCase(shortName, tag, attack, map[], order).attributeCalls == []
  {
    EnumerationLength(order, {});
  }

  /**
   * When the tested attribute itself has a configured value, its name is
   * added twice: first with the attack, later with the configured value.
   */
  lemma TestedAttributeAddedTwice(shortName: JString, tag: TagInfo, a: nat, attack: Attack,
                                  reqAttrs: map<nat, string>, order: seq<nat>)
    requires KeysAreAttributes(tag, reqAttrs) && IsEnumeration(order, reqAttrs.Keys)
    requires a in reqAttrs
    ensures var calls := AttrTestCase(shortName, tag, tag.attributes[a], attack, reqAttrs, order).attributeCalls;
      exists j :: 1 <= j < |calls| && calls[0].name == calls[j].name == tag.attributes[a].name
                  && calls[j].value == Some(reqAttrs[a])
  {
    var calls := AttrTestCase(shortName, tag, tag.attributes[a], attack, reqAttrs, order).attributeCalls;
    var i :| 0 <= i < |order| && order[i] == a;
    assert calls[1 + i] == RequiredCalls(tag, reqAttrs, order)[i];
  }
}
