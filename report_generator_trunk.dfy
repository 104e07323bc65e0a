/**
 * The trunk copy of ReportGenerator: one generateTagReport walks every tag
 * of the library, writes the body test of each attack and the test of each
 * (attribute, attack) pair, and returns the test files in TestMatrix order.
 * Unlike the later copy it hard-codes the ".jsp" extension, has no
 * required-attribute check and takes every page's prefix and suffix from
 * the global Configuration. The main report.html is written too but is not
 * in the returned list.
 *
 * The two TestCase methods this copy calls (generateTestCaseJspTag and
 * generateTagTextTestCaseJspTag) do not exist in the trunk TestCase, so
 * they are function parameters about which nothing is known.
 */
module ReportGeneratorTrunk {
  import opened JavaLang
  import opened TagExt
  import opened Attacks
  import opened Config
  import opened TestMatrix

  /** The test file extension, fixed in this copy. */
  const JspExtension: string := ".jsp"

  /** The name of the main report file. */
  const ReportFile: string := "report.html"

  /** The values one test page is merged from: the test, the generated tag and the page's prefix and suffix. */
  datatype TrunkPage = TrunkPage(test: Test, tagTest: string, prefix: JString, suffix: JString)

  /** generateAtrributeTest: the attribute test page, framed by the Configuration's test prefix and suffix. */
  method GenerateAttributeTest(tagLibrary: TagLibraryInfoImpl, tag: TagInfo, a: nat, attack: Attack,
                               config: Configuration,
                               generateTestCaseJspTag: (TagLibraryInfoImpl, TagInfo, TagAttributeInfo, Attack) -> string)
    returns (page: TrunkPage)
    requires a < |tag.attributes|
    ensures page.test == Test(tag, Some(a), attack) && WellFormed(page.test)
    ensures page.tagTest == generateTestCaseJspTag(tagLibrary, tag, tag.attributes[a], attack)
    ensures page.prefix == config.GetProperty(ReportTestPrefix)
    ensures page.suffix == config.GetProperty(ReportTestSuffix)
  {
    var testCase := generateTestCaseJspTag(tagLibrary, tag, tag.attributes[a], attack);
    page := TrunkPage(Test(tag, Some(a), attack), testCase,
                      config.GetProperty(ReportTestPrefix), config.GetProperty(ReportTestSuffix));
  }

  /** generateComponentTest: the body test page, framed the same way. */
  method GenerateComponentTest(tagLibrary: TagLibraryInfoImpl, tag: TagInfo, attack: Attack,
                               config: Configuration,
                               generateTagTextTestCaseJspTag: (TagLibraryInfoImpl, TagInfo, Attack) -> string)
    returns (page: TrunkPage)
    ensures page.test == Test(tag, None, attack)
    ensures page.tagTest == generateTagTextTestCaseJspTag(tagLibrary, tag, attack)
    ensures page.prefix == config.GetProperty(ReportTestPrefix)
    ensures page.suffix == config.GetProperty(ReportTestSuffix)
  {
    var testCase := generateTagTextTestCaseJspTag(tagLibrary, tag, attack);
    page := TrunkPage(Test(tag, None, attack), testCase,
                      config.GetProperty(ReportTestPrefix), config.GetProperty(ReportTestSuffix));
  }

  /** The body of the attack loop: names the file tagName-attackName plus the extension (".jsp" here), then writes the page into it. */
  method WriteComponentTestFile(tagLibrary: TagLibraryInfoImpl, tag: TagInfo, attack: Attack, config: Configuration,
                                generateTagTextTestCaseJspTag: (TagLibraryInfoImpl, TagInfo, Attack) -> string,
                                extension: JString)
    returns (file: string, page: TrunkPage)
    ensures file == FileName(Test(tag, None, attack), extension)
    ensures page.test == Test(tag, None, attack)
    ensures page.tagTest == generateTagTextTestCaseJspTag(tagLibrary, tag, attack)
    ensures page.prefix == config.GetProperty(ReportTestPrefix) && page.suffix == config.GetProperty(ReportTestSuffix)
  {
    file := Str(tag.tagName) + "-" + Str(attack.name) + Str(extension);
    page := GenerateComponentTest(tagLibrary, tag, attack, config, generateTagTextTestCaseJspTag);
  }

  /** The body of the attribute loops: names the file tagName-attrName-attackName plus the extension, then writes the page into it. */
  method WriteAttributeTestFile(tagLibrary: TagLibraryInfoImpl, tag: TagInfo, a: nat, attack: Attack,
                                config: Configuration,
                                generateTestCaseJspTag: (TagLibraryInfoImpl, TagInfo, TagAttributeInfo, Attack) -> string,
                                extension: JString)
    returns (file: string, page: TrunkPage)
    requires a < |tag.attributes|
    ensures file == FileName(Test(tag, Some(a), attack), extension)
    ensures page.test == Test(tag, Some(a), attack)
    ensures page.tagTest == generateTestCaseJspTag(tagLibrary, tag, tag.attributes[a], attack)
    ensures page.prefix == config.GetProperty(ReportTestPrefix) && page.suffix == config.GetProperty(ReportTestSuffix)
  {
    file := Str(tag.tagName) + "-" + Str(tag.attributes[a].name) + "-" + Str(attack.name) + Str(extension);
    page := GenerateAttributeTest(tagLibrary, tag, a, attack, config, generateTestCaseJspTag);
  }

  /** The attack loop of one tag: its body tests, in attack order. */
  method WriteComponentTests(tagLibrary: TagLibraryInfoImpl, tag: TagInfo, attacks: seq<Attack>, config: Configuration,
                             generateTagTextTestCaseJspTag: (TagLibraryInfoImpl, TagInfo, Attack) -> string,
                             extension: JString)
    returns (files: seq<string>)
    ensures files == FileNames(BodyTests(tag, attacks), extension)
  {
    files := [];
    ghost var tests: seq<Test> := [];
    var attackIdx := 0;
    while attackIdx < |attacks|
      invariant 0 <= attackIdx <= |attacks|
      invariant tests == BodyTests(tag, attacks[..attackIdx])
      invariant forall i :: 0 <= i < |tests| ==> WellFormed(tests[i])
      invariant files == FileNames(tests, extension)
    {
      var compFile, _ := WriteComponentTestFile(tagLibrary, tag, attacks[attackIdx], config, generateTagTextTestCaseJspTag, extension);
      ghost var t := Test(tag, None, attacks[attackIdx]);
      FileNamesSnoc(tests, t, extension);
      BodyTestsSnoc(tag, attacks, attackIdx);
      files := files + [compFile];
      tests := tests + [t];
      attackIdx := attackIdx + 1;
    }
    assert attacks[..attackIdx] == attacks;
  }

  /** The inner attack loop for attribute a: its tests, in attack order. */
  method WriteAttributeTests(tagLibrary: TagLibraryInfoImpl, tag: TagInfo, a: nat, attacks: seq<Attack>,
                             config: Configuration,
                             generateTestCaseJspTag: (TagLibraryInfoImpl, TagInfo, TagAttributeInfo, Attack) -> string,
                             extension: JString)
    returns (files: seq<string>)
    requires a < |tag.attributes|
    ensures files == FileNames(AttrTestsFor(tag, a, attacks), extension)
  {
    files := [];
    ghost var tests: seq<Test> := [];
    var attackIdx := 0;
    while attackIdx < |attacks|
      invariant 0 <= attackIdx <= |attacks|
      invariant tests == AttrTestsFor(tag, a, attacks[..attackIdx])
      invariant forall i :: 0 <= i < |tests| ==> WellFormed(tests[i])
      invariant files == FileNames(tests, extension)
    {
      var attrFile, _ := WriteAttributeTestFile(tagLibrary, tag, a, attacks[attackIdx], config, generateTestCaseJspTag, extension);
      ghost var t := Test(tag, Some(a), attacks[attackIdx]);
      FileNamesSnoc(tests, t, extension);
      AttrTestsForSnoc(tag, a, attacks, attackIdx);
      files := files + [attrFile];
      tests := tests + [t];
      attackIdx := attackIdx + 1;
    }
    assert attacks[..attackIdx] == attacks;
  }

  /** The attribute loop of one tag: each attribute's tests, attribute by attribute. */
  method WriteAllAttributeTests(tagLibrary: TagLibraryInfoImpl, tag: TagInfo, attacks: seq<Attack>, config: Configuration,
                                generateTestCaseJspTag: (TagLibraryInfoImpl, TagInfo, TagAttributeInfo, Attack) -> string,
                                extension: JString)
    returns (files: seq<string>)
    ensures files == FileNames(AttrTests(tag, |tag.attributes|, attacks), extension)
  {
    files := [];
    var attrs := tag.attributes;
    var attrIdx := 0;
    while attrIdx < |attrs|
      invariant 0 <= attrIdx <= |attrs|
      invariant files == FileNames(AttrTests(tag, attrIdx, attacks), extension)
    {
      var attrFiles := WriteAttributeTests(tagLibrary, tag, attrIdx, attacks, config, generateTestCaseJspTag, extension);
      AttrFilesStep(tag, attacks, attrIdx, extension);
      files := files + attrFiles;
      attrIdx := attrIdx + 1;
    }
  }

  /** The loops of one tag: the body tests, then each attribute's tests. */
  method WriteTagTests(tagLibrary: TagLibraryInfoImpl, tag: TagInfo, attacks: seq<Attack>, config: Configuration,
                       generateTestCaseJspTag: (TagLibraryInfoImpl, TagInfo, TagAttributeInfo, Attack) -> string,
                       generateTagTextTestCaseJspTag: (TagLibraryInfoImpl, TagInfo, Attack) -> string,
                       extension: JString)
    returns (files: seq<string>)
    ensures files == FileNames(TagTests(tag, attacks), extension)
  {
    var bodyFiles := WriteComponentTests(tagLibrary, tag, attacks, config, generateTagTextTestCaseJspTag, extension);
    var attrFiles := WriteAllAttributeTests(tagLibrary, tag, attacks, config, generateTestCaseJspTag, extension);
    TagFilesSplit(tag, attacks, extension);
    files := bodyFiles + attrFiles;
  }

  /**
   * generateTagReport: the test files of every tag of the library, tag by
   * tag; report.html is written first and left out of the list.
   */
  method GenerateTagReport(tagLibrary: TagLibraryInfoImpl, attacks: seq<Attack>, config: Configuration,
                           generateTestCaseJspTag: (TagLibraryInfoImpl, TagInfo, TagAttributeInfo, Attack) -> string,
                           generateTagTextTestCaseJspTag: (TagLibraryInfoImpl, TagInfo, Attack) -> string)
    returns (files: seq<string>)
    requires tagLibrary.tags != null
    ensures files == FileNames(LibraryTests(tagLibrary.tags[..], attacks), Some(JspExtension))
    ensures ReportFile !in files
  {
    var tags := tagLibrary.tags;
    files := [];
    var tagIdx := 0;
    while tagIdx < tags.Length
      invariant 0 <= tagIdx <= tags.Length
      invariant files == FileNames(LibraryTests(tags[..tagIdx], attacks), Some(JspExtension))
    {
      var tagFiles := WriteTagTests(tagLibrary, tags[tagIdx], attacks, config,
                                    generateTestCaseJspTag, generateTagTextTestCaseJspTag, Some(JspExtension));
      ghost var done := LibraryTests(tags[..tagIdx], attacks);
      assert tags[..tagIdx + 1][..tagIdx] == tags[..tagIdx];
      assert LibraryTests(tags[..tagIdx + 1], attacks) == done + TagTests(tags[tagIdx], attacks);
      FileNamesAppend(done, TagTests(tags[tagIdx], attacks), Some(JspExtension));
      files := files + tagFiles;
      tagIdx := tagIdx + 1;
    }
    assert tags[..tagIdx] == tags[..];
    ReportFileNotListed(tags[..], attacks);
  }

  // ---------------------------------------------------------------------
  // Properties

  /** Every listed name ends in ".jsp", so the main report file is never among them. */
  lemma ReportFileNotListed(tags: seq<TagInfo>, attacks: seq<Attack>)
    ensures ReportFile !in FileNames(LibraryTests(tags, attacks), Some(JspExtension))
  {
    var ts := LibraryTests(tags, attacks);
    var names := FileNames(ts, Some(JspExtension));
    forall i | 0 <= i < |names|
      ensures names[i] != ReportFile
    {
      FileNameExtension(ts[i], Some(JspExtension));
      var n := names[i];
      assert n[|n| - 1] == 'p';
    }
  }

  /**
   * The later ReportGenerator names its files with the Configuration's
   * extension instead; for a non-empty matrix both list the same files
   * exactly when that extension is written as ".jsp".
   */
  lemma SameFilesIffJspExtension(tags: seq<TagInfo>, attacks: seq<Attack>, extension: JString)
    requires LibraryTests(tags, attacks) != []
    ensures FileNames(LibraryTests(tags, attacks), Some(JspExtension)) == FileNames(LibraryTests(tags, attacks), extension)
            <==> Str(extension) == JspExtension
  {
    var ts := LibraryTests(tags, attacks);
    var jsp, other := FileNames(ts, Some(JspExtension)), FileNames(ts, extension);
    if Str(extension) == JspExtension {
      forall i | 0 <= i < |ts|
        ensures jsp[i] == other[i]
      {
        FileNameExtension(ts[i], Some(JspExtension));
        FileNameExtension(ts[i], extension);
      }
    } else {
      var base := FileName(ts[0], Some(""));
      FileNameExtension(ts[0], Some(JspExtension));
      FileNameExtension(ts[0], extension);
      assert (base + JspExtension)[|base|..] == JspExtension;
      assert (base + Str(extension))[|base|..] == Str(extension);
      assert jsp[0] != other[0];
    }
  }

  /** With the extension left at its default, both generators list the same files. */
  lemma FreshConfigurationSameFiles(tags: seq<TagInfo>, attacks: seq<Attack>, c: Configuration)
    requires c.config == map[]
    ensures FileNames(LibraryTests(tags, attacks), Some(JspExtension))
         == FileNames(LibraryTests(tags, attacks), c.GetProperty(ReportFileExtension))
  {
    FreshConfigurationDefaults(c);
  }
}
