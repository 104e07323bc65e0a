/**
 * The ReportGenerator of owasp-jsp-testing-tool: for every tag of a
 * library and every attack it writes one body test and one test per
 * attribute (the TestMatrix order), each a page holding the custom tag
 * TestCase builds, the tag's test prefix and suffix from the tag
 * properties, and a warning when a required attribute is not configured.
 * The pages are kept as values; the files themselves, the Velocity
 * template and the HTML report pages are not part of this model.
 */
module ReportGenerator {
  import opened JavaLang
  import opened TagExt
  import opened Attacks
  import opened EcsXml
  import opened TestCase
  import opened TagLibraryUtils
  import opened TagPropertyStore
  import opened Config
  import opened TestMatrix

  /** Every required attribute other than the one under test has a tag property. */
  predicate RequiredConfigured(tag: TagInfo, tested: Option<nat>, props: map<string, string>)
  {
    forall i :: i in RequiredIndices(tag.attributes) && tested != Some(i) ==>
      PropertyKey(tag.tagName, tag.attributes[i].name) in props
  }

  /**
   * verifyRequiredAttributes: walks the required attributes in HashSet
   * order, skipping the tested one and stopping at the first that has no
   * tag property; the result is whether it logged the warning.
   */
  method VerifyRequiredAttributes(tag: TagInfo, attr: Option<nat>, tagProperties: TagProperties) returns (warned: bool)
    ensures warned <==> !RequiredConfigured(tag, attr, tagProperties.properties)
  {
    warned := false;
    var hasRequired := HasRequiredAttributes(tag);
    HasRequiredIffNonEmpty(tag.attributes);
    if hasRequired {
      var reqAttrs := GetRequiredAttributes(tag);
      var reqAttrsConfigured := true;
      var rest := reqAttrs;
      while rest != {} && reqAttrsConfigured
        invariant rest <= reqAttrs
        invariant reqAttrsConfigured <==>
          forall i :: i in reqAttrs - rest && attr != Some(i) ==> tagProperties.HasTagProperty(tag.tagName, tag.attributes[i].name)
        decreases |rest|
      {
        var reqAttr :| reqAttr in rest;
        rest := rest - {reqAttr};
        if attr == Some(reqAttr) {
          continue;
        }
        reqAttrsConfigured := reqAttrsConfigured && tagProperties.HasTagProperty(tag.tagName, tag.attributes[reqAttr].name);
      }
      warned := !reqAttrsConfigured;
    }
  }

  /** One generated page: the test it implements and what the template is given. */
  datatype TestPage = TestPage(test: Test, tagTest: Xml, prefix: string, suffix: string, warned: bool)

  /** The custom tag of a test, for one iteration order of the configured values. */
  function TestElement(shortName: JString, t: Test, reqAttrs: map<nat, string>, order: seq<nat>): Xml
    requires WellFormed(t) && KeysAreAttributes(t.tag, reqAttrs)
    requires forall i :: 0 <= i < |order| ==> order[i] in reqAttrs
  {
    match t.tested
    case None => TagTestCase(shortName, t.tag, t.attack, reqAttrs, order)
    case Some(a) => AttrTestCase(shortName, t.tag, t.tag.attributes[a], t.attack, reqAttrs, order)
  }

  /**
   * A page is right for its test: the tag built with every configured
   * required value (in some iteration order), the tag's prefix and suffix,
   * and the warning exactly when a required attribute other than the
   * tested one is unconfigured.
   */
  ghost predicate PageFits(tagLibrary: TagLibraryInfoImpl, tagProperties: TagProperties, p: TestPage)
    reads tagLibrary, tagProperties
  {
    var reqAttrs := ConfiguredRequired(p.test.tag, tagProperties.properties);
    && WellFormed(p.test)
    && p.prefix == tagProperties.GetTagPrefix(p.test.tag.tagName)
    && p.suffix == tagProperties.GetTagSuffix(p.test.tag.tagName)
    && p.warned == !RequiredConfigured(p.test.tag, p.test.tested, tagProperties.properties)
    && exists order :: IsEnumeration(order, reqAttrs.Keys) && p.tagTest == TestElement(tagLibrary.shortname, p.test, reqAttrs, order)
  }

  /** writeAtrributeTest: the page testing attribute a of tag with attack. */
  method WriteAttributeTest(tagLibrary: TagLibraryInfoImpl, tagProperties: TagProperties, tag: TagInfo, a: nat, attack: Attack)
    returns (page: TestPage)
    requires a < |tag.attributes|
    ensures page.test == Test(tag, Some(a), attack)
    ensures PageFits(tagLibrary, tagProperties, page)
  {
    var warned := VerifyRequiredAttributes(tag, Some(a), tagProperties);
    var reqAttrs := GetRequiredAttributesMap(tag, tagProperties);
    var testCase;
    ghost var order;
    testCase, order := GenerateAttrTestCaseJspTag(tagLibrary, tag, tag.attributes[a], attack, reqAttrs);
    page := TestPage(Test(tag, Some(a), attack), testCase,
                     tagProperties.GetTagPrefix(tag.tagName), tagProperties.GetTagSuffix(tag.tagName), warned);
    assert page.tagTest == TestElement(tagLibrary.shortname, page.test, reqAttrs, order);
  }

  /** writeComponentTest: the page putting attack into the body of tag. */
  method WriteComponentTest(tagLibrary: TagLibraryInfoImpl, tagProperties: TagProperties, tag: TagInfo, attack: Attack)
    returns (page: TestPage)
    ensures page.test == Test(tag, None, attack)
    ensures PageFits(tagLibrary, tagProperties, page)
  {
    var warned := VerifyRequiredAttributes(tag, None, tagProperties);
    var reqAttrs := GetRequiredAttributesMap(tag, tagProperties);
    var testCase;
    ghost var order;
    testCase, order := GenerateTagTestCaseJspTag(tagLibrary, tag, attack, reqAttrs);
    page := TestPage(Test(tag, None, attack), testCase,
                     tagProperties.GetTagPrefix(tag.tagName), tagProperties.GetTagSuffix(tag.tagName), warned);
    assert page.tagTest == TestElement(tagLibrary.shortname, page.test, reqAttrs, order);
  }

  /**
   * One pass of generateTagReport's first loop: the body test of attack is
   * written to the file named tagName-attackName+ext, which is returned.
   */
  method WriteComponentTestFile(tagLibrary: TagLibraryInfoImpl, tagProperties: TagProperties, tag: TagInfo,
                                attack: Attack, extension: JString)
    returns (file: string)
    ensures file == FileName(Test(tag, None, attack), extension)
  {
    var page := WriteComponentTest(tagLibrary, tagProperties, tag, attack);
    file := FileName(page.test, extension);
  }

  /**
   * One pass of generateTagReport's second loop: the test of attribute a
   * with attack is written to the file named tagName-attrName-attackName+ext,
   * which is returned.
   */
  method WriteAttributeTestFile(tagLibrary: TagLibraryInfoImpl, tagProperties: TagProperties, tag: TagInfo,
                                a: nat, attack: Attack, extension: JString)
    returns (file: string)
    requires a < |tag.attributes|
    ensures file == FileName(Test(tag, Some(a), attack), extension)
  {
    var page := WriteAttributeTest(tagLibrary, tagProperties, tag, a, attack);
    file := FileName(page.test, extension);
  }

  /**
   * generateTagReport: writes the body test of every attack, in attack
   * order, then the test of every (attribute, attack) pair, attribute by
   * attribute, and returns the files written. Every test is written whether
   * or not the tag's required attributes are configured, so the list does
   * not depend on the tag properties.
   */
  method GenerateTagReport(tagLibrary: TagLibraryInfoImpl, tagProperties: TagProperties, tag: TagInfo,
                           attacks: seq<Attack>, config: Configuration)
    returns (files: seq<string>)
    ensures files == FileNames(TagTests(tag, attacks), config.GetProperty(ReportFileExtension))
  {
    files := WriteTagTests(tagLibrary, tagProperties, tag, attacks, config.GetProperty(ReportFileExtension));
  }

  /**
   * The two loops of generateTagReport, with the file extension the
   * Configuration holds (read for every file in the source; nothing
   * changes it while the report is generated).
   */
  method WriteTagTests(tagLibrary: TagLibraryInfoImpl, tagProperties: TagProperties, tag: TagInfo,
                       attacks: seq<Attack>, extension: JString)
    returns (files: seq<string>)
    ensures files == FileNames(TagTests(tag, attacks), extension)
  {
    var bodyFiles := WriteComponentTests(tagLibrary, tagProperties, tag, attacks, extension);
    var attrFiles := WriteAllAttributeTests(tagLibrary, tagProperties, tag, attacks, extension);
    TagFilesSplit(tag, attacks, extension);
    files := bodyFiles + attrFiles;
  }

  /** The second loop of generateTagReport: each attribute's tests, attribute by attribute. */
  method WriteAllAttributeTests(tagLibrary: TagLibraryInfoImpl, tagProperties: TagProperties, tag: TagInfo,
                                attacks: seq<Attack>, extension: JString)
    returns (files: seq<string>)
    ensures files == FileNames(AttrTests(tag, |tag.attributes|, attacks), extension)
  {
    files := [];
    var attrs := tag.attributes;
    var attrIdx := 0;
    while attrIdx < |attrs|
      invariant 0 <= attrIdx <= |attrs|
      invariant files == FileNames(AttrTests(tag, attrIdx, attacks), extension)
    {
      var attrFiles := WriteAttributeTests(tagLibrary, tagProperties, tag, attrIdx, attacks, extension);
      AttrFilesStep(tag, attacks, attrIdx, extension);
      files := files + attrFiles;
      attrIdx := attrIdx + 1;
    }
  }

  /** The first loop of generateTagReport: the body tests, in attack order. */
  method WriteComponentTests(tagLibrary: TagLibraryInfoImpl, tagProperties: TagProperties, tag: TagInfo,
                             attacks: seq<Attack>, extension: JString)
    returns (files: seq<string>)
    ensures files == FileNames(BodyTests(tag, attacks), extension)
  {
    files := [];
    ghost var tests: seq<Test> := [];
    var attackIdx := 0;
    while attackIdx < |attacks|
      invariant 0 <= attackIdx <= |attacks|
      invariant tests == BodyTests(tag, attacks[..attackIdx])
      invariant forall i :: 0 <= i < |tests| ==> WellFormed(tests[i])
      invariant files == FileNames(tests, extension)
    {
      var compFile := WriteComponentTestFile(tagLibrary, tagProperties, tag, attacks[attackIdx], extension);
      ghost var t := Test(tag, None, attacks[attackIdx]);
      FileNamesSnoc(tests, t, extension);
      BodyTestsSnoc(tag, attacks, attackIdx);
      files := files + [compFile];
      tests := tests + [t];
      attackIdx := attackIdx + 1;
    }
    assert attacks[..attackIdx] == attacks;
  }

  /** The inner loop of generateTagReport's second loop: the tests of attribute a, in attack order. */
  method WriteAttributeTests(tagLibrary: TagLibraryInfoImpl, tagProperties: TagProperties, tag: TagInfo, a: nat,
                             attacks: seq<Attack>, extension: JString)
    returns (files: seq<string>)
    requires a < |tag.attributes|
    ensures files == FileNames(AttrTestsFor(tag, a, attacks), extension)
  {
    files := [];
    ghost var tests: seq<Test> := [];
    var attackIdx := 0;
    while attackIdx < |attacks|
      invariant 0 <= attackIdx <= |attacks|
      invariant tests == AttrTestsFor(tag, a, attacks[..attackIdx])
      invariant forall i :: 0 <= i < |tests| ==> WellFormed(tests[i])
      invariant files == FileNames(tests, extension)
    {
      var attrFile := WriteAttributeTestFile(tagLibrary, tagProperties, tag, a, attacks[attackIdx], extension);
      ghost var t := Test(tag, Some(a), attacks[attackIdx]);
      FileNamesSnoc(tests, t, extension);
      AttrTestsForSnoc(tag, a, attacks, attackIdx);
      files := files + [attrFile];
      tests := tests + [t];
      attackIdx := attackIdx + 1;
    }
    assert attacks[..attackIdx] == attacks;
  }

  /** generateLibraryReport: every tag's files, tag by tag. */
  method GenerateLibraryReport(tagLibrary: TagLibraryInfoImpl, tagProperties: TagProperties,
                               attacks: seq<Attack>, config: Configuration)
    returns (files: seq<string>)
    requires tagLibrary.tags != null
    ensures files == FileNames(LibraryTests(tagLibrary.tags[..], attacks), config.GetProperty(ReportFileExtension))
  {
    ghost var extension := config.GetProperty(ReportFileExtension);
    var tags := tagLibrary.tags;
    files := [];
    var tagIdx := 0;
    while tagIdx < tags.Length
      invariant 0 <= tagIdx <= tags.Length
      invariant files == FileNames(LibraryTests(tags[..tagIdx], attacks), extension)
    {
      var tagFiles := GenerateTagReport(tagLibrary, tagProperties, tags[tagIdx], attacks, config);
      ghost var done := LibraryTests(tags[..tagIdx], attacks);
      assert tags[..tagIdx + 1][..tagIdx] == tags[..tagIdx];
      assert LibraryTests(tags[..tagIdx + 1], attacks) == done + TagTests(tags[tagIdx], attacks);
      FileNamesAppend(done, TagTests(tags[tagIdx], attacks), extension);
      files := files + tagFiles;
      tagIdx := tagIdx + 1;
    }
    assert tags[..tagIdx] == tags[..];
  }

  // ---------------------------------------------------------------------
  // Properties

  /**
   * The body test is configured exactly when getRequiredAttributesMap
   * finds a value for every required attribute.
   */
  lemma RequiredConfiguredIffComplete(tag: TagInfo, props: map<string, string>)
    ensures RequiredConfigured(tag, None, props) <==> ConfiguredRequired(tag, props).Keys == RequiredIndices(tag.attributes)
  {
    var r := ConfiguredRequired(tag, props);
    if r.Keys == RequiredIndices(tag.attributes) {
      forall i | i in RequiredIndices(tag.attributes)
        ensures PropertyKey(tag.tagName, tag.attributes[i].name) in props
      {
        assert i in r;
      }
    }
  }

  /**
   * The tested attribute needs no tag property: a configured tag is
   * configured for every attribute test, and an attribute test that passes
   * with a configured (or optional) tested attribute means the tag is
   * configured.
   */
  lemma TestedAttributeExempt(tag: TagInfo, a: nat, props: map<string, string>)
    ensures RequiredConfigured(tag, None, props) ==> RequiredConfigured(tag, Some(a), props)
    ensures RequiredConfigured(tag, Some(a), props)
            && (a in RequiredIndices(tag.attributes) ==> PropertyKey(tag.tagName, tag.attributes[a].name) in props)
            ==> RequiredConfigured(tag, None, props)
  {
  }

  /** The library report lists one file per cell of the test matrix. */
  lemma LibraryReportSize(tags: seq<TagInfo>, attacks: seq<Attack>, extension: JString)
    ensures |FileNames(LibraryTests(tags, attacks), extension)| == TestCount(tags, |attacks|)
  {
    LibraryTestCount(tags, attacks);
  }
}
