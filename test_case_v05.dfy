/**
 * The v0.5 TestCase (branches/owasp-jsp-testing-tool-v0.5/.../report/TestCase.java):
 * the same two elements as the trunk generators, built without any
 * required-attribute values.
 */
module TestCaseV05 {
  import opened JavaLang
  import opened TagExt
  import opened Attacks
  import opened EcsXml
  import opened TagLibraryUtils
  import Trunk = TestCase

  /**
   * generateTestCase: shortName:tagName with the tested attribute set to
   * the attack, which is the trunk attribute test with no configured
   * required attributes.
   */
  function GenerateTestCase(tagLibrary: TagLibraryInfoImpl, tag: TagInfo, attr: TagAttributeInfo, attack: Attack): (x: Xml)
    reads tagLibrary
    ensures x == Trunk.AttrTestCase(tagLibrary.shortname, tag, attr, attack, map[], [])
    ensures x.attributeCalls == [AttributeCall(attr.name, attack.attackString)]
  {
    AddAttribute(NewXml(Trunk.ElementName(tagLibrary.shortname, tag.tagName)), attr.name, attack.attackString)
  }

  /**
   * generateTagTextTestCase: shortName:tagName with no attributes and the
   * attack as text, the trunk body test with no configured required
   * attributes.
   */
  function GenerateTagTextTestCase(tagLibrary: TagLibraryInfoImpl, tag: TagInfo, attack: Attack): (x: Xml)
    reads tagLibrary
    ensures x == Trunk.TagTestCase(tagLibrary.shortname, tag, attack, map[], [])
    ensures x.attributeCalls == [] && x.tagText == Some(attack.attackString)
  {
    SetTagText(NewXml(Trunk.ElementName(tagLibrary.shortname, tag.tagName)), attack.attackString)
  }

  /** The names of the required attributes, as getRequiredAttributes collects them. */
  function RequiredNames(attrs: seq<TagAttributeInfo>): (r: set<JString>)
    ensures forall n :: n in r <==> exists i :: i in RequiredIndices(attrs) && attrs[i].name == n
  {
    set i | i in RequiredIndices(attrs) :: attrs[i].name
  }

  /** getRequiredAttributes (private and unused by the generators). */
  method GetRequiredAttributes(tag: TagInfo) returns (requiredAttrs: set<JString>)
    ensures requiredAttrs == RequiredNames(tag.attributes)
  {
    var attrs := tag.attributes;
    requiredAttrs := {};
    var attrIdx := 0;
    while attrIdx < |attrs|
      invariant 0 <= attrIdx <= |attrs|
      invariant forall n :: n in requiredAttrs <==> exists i :: 0 <= i < attrIdx && attrs[i].required && attrs[i].name == n
    {
      if attrs[attrIdx].required {
        requiredAttrs := requiredAttrs + {attrs[attrIdx].name};
      }
      attrIdx := attrIdx + 1;
    }
  }

  /**
   * Collected by name, two required attributes with the same name count
   * once: the v0.5 set can be smaller than the trunk's identity set.
   */
  lemma SameNameRequiredCollapse()
    ensures var a := TagAttributeInfo(Some("id"), true, Some("java.lang.String"), false);
      |RequiredNames([a, a])| == 1 && |RequiredIndices([a, a])| == 2
  {
    var a := TagAttributeInfo(Some("id"), true, Some("java.lang.String"), false);
    assert RequiredIndices([a, a]) == {0, 1};
    assert RequiredNames([a, a]) == {Some("id")};
  }
}
