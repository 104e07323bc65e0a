/**
 * The test matrix both ReportGenerator copies enumerate: for each tag, one
 * body test per attack, then one attribute test per (attribute, attack)
 * pair, attribute-major. Each test is written to a file named after the
 * tag, the attribute (for attribute tests) and the attack, joined by "-",
 * followed by the file extension.
 */
module TestMatrix {
  import opened JavaLang
  import opened TagExt
  import opened Attacks

  /**
   * One generated test: the tag, the index of the attribute under test
   * (None for the body test, which puts the attack into the tag's text)
   * and the attack.
   */
  datatype Test = Test(tag: TagInfo, tested: Option<nat>, attack: Attack)

  /** The attribute under test, if any, is one of the tag's. */
  predicate WellFormed(t: Test)
  {
    t.tested.Some? ==> t.tested.value < |t.tag.attributes|
  }

  /** tagName-attackName+ext, or tagName-attrName-attackName+ext; nulls written as "null". */
  function FileName(t: Test, extension: JString): string
    requires WellFormed(t)
  {
    match t.tested
    case None =>
      Str(t.tag.tagName) + "-" + Str(t.attack.name) + Str(extension)
    case Some(a) =>
      Str(t.tag.tagName) + "-" + Str(t.tag.attributes[a].name) + "-" + Str(t.attack.name) + Str(extension)
  }

  /** The file names of a list of tests, in the same order. */
  function FileNames(ts: seq<Test>, extension: JString): (r: seq<string>)
    requires forall i :: 0 <= i < |ts| ==> WellFormed(ts[i])
    ensures |r| == |ts|
    ensures forall i {:trigger r[i]} :: 0 <= i < |ts| ==> r[i] == FileName(ts[i], extension)
  {
    if ts == [] then []
    else FileNames(ts[..|ts| - 1], extension) + [FileName(ts[|ts| - 1], extension)]
  }

  /** The body tests of a tag, in attack order. */
  function BodyTests(tag: TagInfo, attacks: seq<Attack>): (r: seq<Test>)
    ensures |r| == |attacks|
    ensures forall k {:trigger r[k]} :: 0 <= k < |attacks| ==> r[k] == Test(tag, None, attacks[k])
  {
    if attacks == [] then []
    else BodyTests(tag, attacks[..|attacks| - 1]) + [Test(tag, None, attacks[|attacks| - 1])]
  }

  /** The tests of attribute a, in attack order. */
  function AttrTestsFor(tag: TagInfo, a: nat, attacks: seq<Attack>): (r: seq<Test>)
    ensures |r| == |attacks|
    ensures forall k {:trigger r[k]} :: 0 <= k < |attacks| ==> r[k] == Test(tag, Some(a), attacks[k])
  {
    if attacks == [] then []
    else AttrTestsFor(tag, a, attacks[..|attacks| - 1]) + [Test(tag, Some(a), attacks[|attacks| - 1])]
  }

  /** The tests of the first n attributes of a tag, attribute by attribute. */
  function AttrTests(tag: TagInfo, n: nat, attacks: seq<Attack>): (r: seq<Test>)
    requires n <= |tag.attributes|
    ensures forall i :: 0 <= i < |r| ==> r[i].tag == tag && r[i].tested.Some? && r[i].tested.value < n && WellFormed(r[i])
  {
    if n == 0 then []
    else AttrTests(tag, n - 1, attacks) + AttrTestsFor(tag, n - 1, attacks)
  }

  /** All tests of one tag: the body tests, then the tests of every attribute. */
  function TagTests(tag: TagInfo, attacks: seq<Attack>): (r: seq<Test>)
    ensures forall i :: 0 <= i < |r| ==> r[i].tag == tag && WellFormed(r[i])
  {
    BodyTests(tag, attacks) + AttrTests(tag, |tag.attributes|, attacks)
  }

  /** All tests of a library, tag by tag. */
  function LibraryTests(tags: seq<TagInfo>, attacks: seq<Attack>): (r: seq<Test>)
    ensures forall i :: 0 <= i < |r| ==> WellFormed(r[i]) && r[i].tag in tags
  {
    if tags == [] then []
    else LibraryTests(tags[..|tags| - 1], attacks) + TagTests(tags[|tags| - 1], attacks)
  }

  /** The offset of block a when every block holds m entries: m added a times. */
  function Block(a: nat, m: nat): nat
  {
    if a == 0 then 0 else Block(a - 1, m) + m
  }

  /** The size of the matrix: m body tests and one block of m attribute tests per attribute of each tag. */
  function TestCount(tags: seq<TagInfo>, m: nat): nat
  {
    if tags == [] then 0
    else TestCount(tags[..|tags| - 1], m) + m + Block(|tags[|tags| - 1].attributes|, m)
  }

  // ---------------------------------------------------------------------
  // Properties

  /** One more test appends its file name. */
  lemma FileNamesSnoc(ts: seq<Test>, t: Test, extension: JString)
    requires forall i :: 0 <= i < |ts| ==> WellFormed(ts[i])
    requires WellFormed(t)
    ensures forall i :: 0 <= i < |ts| + 1 ==> WellFormed((ts + [t])[i])
    ensures FileNames(ts + [t], extension) == FileNames(ts, extension) + [FileName(t, extension)]
  {
    assert (ts + [t])[..|ts|] == ts;
  }

  /** The names of two lists of tests, one after the other. */
  lemma {:induction false} FileNamesAppend(a: seq<Test>, b: seq<Test>, extension: JString)
    requires forall i :: 0 <= i < |a| ==> WellFormed(a[i])
    requires forall i :: 0 <= i < |b| ==> WellFormed(b[i])
    ensures FileNames(a + b, extension) == FileNames(a, extension) + FileNames(b, extension)
  {
    var l := FileNames(a + b, extension);
    var r := FileNames(a, extension) + FileNames(b, extension);
    forall i | 0 <= i < |l|
      ensures l[i] == r[i]
    {
      if i < |a| {
        assert (a + b)[i] == a[i];
      } else {
        assert (a + b)[i] == b[i - |a|];
      }
    }
  }

  /** The files of a tag: those of its body tests, then those of its attribute tests. */
  lemma TagFilesSplit(tag: TagInfo, attacks: seq<Attack>, extension: JString)
    ensures FileNames(TagTests(tag, attacks), extension)
         == FileNames(BodyTests(tag, attacks), extension) + FileNames(AttrTests(tag, |tag.attributes|, attacks), extension)
  {
    FileNamesAppend(BodyTests(tag, attacks), AttrTests(tag, |tag.attributes|, attacks), extension);
  }

  /** One more attribute appends its block of file names. */
  lemma AttrFilesStep(tag: TagInfo, attacks: seq<Attack>, n: nat, extension: JString)
    requires n < |tag.attributes|
    ensures FileNames(AttrTests(tag, n + 1, attacks), extension)
         == FileNames(AttrTests(tag, n, attacks), extension) + FileNames(AttrTestsFor(tag, n, attacks), extension)
  {
    var done, block := AttrTests(tag, n, attacks), AttrTestsFor(tag, n, attacks);
    assert AttrTests(tag, n + 1, attacks) == done + block;
    FileNamesAppend(done, block, extension);
  }

  /** Block(a, m) is the product a * m. */
  lemma {:induction false} BlockIsProduct(a: nat, m: nat)
    ensures Block(a, m) == a * m
    decreases a
  {
    if a > 0 {
      BlockIsProduct(a - 1, m);
      assert (a - 1) * m + m == a * m;
    }
  }

  /** A later block starts after an earlier one ends. */
  lemma {:induction false} BlockMono(a: nat, b: nat, m: nat)
    requires a < b
    ensures Block(a, m) + m <= Block(b, m)
    decreases b
  {
    if a < b - 1 {
      BlockMono(a, b - 1, m);
    }
  }

  /** One more attack adds one body test at the end. */
  lemma BodyTestsSnoc(tag: TagInfo, attacks: seq<Attack>, k: nat)
    requires k < |attacks|
    ensures BodyTests(tag, attacks[..k + 1]) == BodyTests(tag, attacks[..k]) + [Test(tag, None, attacks[k])]
  {
    assert attacks[..k + 1][..k] == attacks[..k];
  }

  /** One more attack adds one test of attribute a at the end. */
  lemma AttrTestsForSnoc(tag: TagInfo, a: nat, attacks: seq<Attack>, k: nat)
    requires k < |attacks|
    ensures AttrTestsFor(tag, a, attacks[..k + 1]) == AttrTestsFor(tag, a, attacks[..k]) + [Test(tag, Some(a), attacks[k])]
  {
    assert attacks[..k + 1][..k] == attacks[..k];
  }

  /** The attribute tests of a tag form one block of m entries per attribute. */
  lemma {:induction false} AttrTestsLength(tag: TagInfo, n: nat, attacks: seq<Attack>)
    requires n <= |tag.attributes|
    ensures |AttrTests(tag, n, attacks)| == Block(n, |attacks|)
    decreases n
  {
    if n > 0 {
      AttrTestsLength(tag, n - 1, attacks);
    }
  }

  /**
   * Attribute-major, attack-minor: with m attacks, the test of attribute a
   * and attack k is entry Block(a, m) + k.
   */
  lemma {:induction false} AttrTestsAt(tag: TagInfo, n: nat, attacks: seq<Attack>, a: nat, k: nat)
    requires n <= |tag.attributes| && a < n && k < |attacks|
    ensures Block(a, |attacks|) + k < |AttrTests(tag, n, attacks)|
    ensures AttrTests(tag, n, attacks)[Block(a, |attacks|) + k] == Test(tag, Some(a), attacks[k])
    decreases n
  {
    AttrTestsLength(tag, n - 1, attacks);
    assert AttrTests(tag, n, attacks) == AttrTests(tag, n - 1, attacks) + AttrTestsFor(tag, n - 1, attacks);
    if a < n - 1 {
      AttrTestsAt(tag, n - 1, attacks, a, k);
      BlockMono(a, n - 1, |attacks|);
    }
  }

  /** One tag's list: m body tests in attack order, then one block of m attribute tests per attribute. */
  lemma TagTestsLayout(tag: TagInfo, attacks: seq<Attack>)
    ensures |TagTests(tag, attacks)| == |attacks| + Block(|tag.attributes|, |attacks|)
    ensures forall k :: 0 <= k < |attacks| ==> TagTests(tag, attacks)[k] == Test(tag, None, attacks[k])
  {
    var body := BodyTests(tag, attacks);
    assert TagTests(tag, attacks) == body + AttrTests(tag, |tag.attributes|, attacks);
    AttrTestsLength(tag, |tag.attributes|, attacks);
  }

  /** In one tag's list, the test of attribute a and attack k follows the m body tests at offset Block(a, m) + k. */
  lemma TagAttrTestAt(tag: TagInfo, attacks: seq<Attack>, a: nat, k: nat)
    requires a < |tag.attributes| && k < |attacks|
    ensures |attacks| + Block(a, |attacks|) + k < |TagTests(tag, attacks)|
    ensures TagTests(tag, attacks)[|attacks| + Block(a, |attacks|) + k] == Test(tag, Some(a), attacks[k])
  {
    assert TagTests(tag, attacks) == BodyTests(tag, attacks) + AttrTests(tag, |tag.attributes|, attacks);
    AttrTestsAt(tag, |tag.attributes|, attacks, a, k);
  }

  /** The library's list is as long as the matrix. */
  lemma {:induction false} LibraryTestCount(tags: seq<TagInfo>, attacks: seq<Attack>)
    ensures |LibraryTests(tags, attacks)| == TestCount(tags, |attacks|)
    decreases |tags|
  {
    if tags != [] {
      LibraryTestCount(tags[..|tags| - 1], attacks);
      AttrTestsLength(tags[|tags| - 1], |tags[|tags| - 1].attributes|, attacks);
    }
  }

  /** Without attacks nothing is generated, whatever the tags. */
  lemma {:induction false} NoAttacksNoTests(tags: seq<TagInfo>)
    ensures LibraryTests(tags, []) == []
    decreases |tags|
  {
    if tags != [] {
      var last := tags[|tags| - 1];
      AttrTestsLength(last, |last.attributes|, []);
      BlockIsProduct(|last.attributes|, 0);
      NoAttacksNoTests(tags[..|tags| - 1]);
    }
  }

  /** Every file name is the test's extensionless name followed by the extension. */
  lemma FileNameExtension(t: Test, extension: JString)
    requires WellFormed(t)
    ensures FileName(t, extension) == FileName(t, Some("")) + Str(extension)
  {
    var base := FileName(t, Some(""));
    assert base + "" == base;
  }

  /**
   * Names are joined with "-" unescaped, so a body test whose attack name
   * contains "-" is written to the same file as an attribute test of the
   * same tag, and the later one overwrites the earlier.
   */
  lemma FileNamesCollide(tag: TagInfo, value: Attack, attack: Attack)
    requires tag.tagName == Some("out") && |tag.attributes| > 0 && tag.attributes[0].name == Some("value")
    requires value.name == Some("value-XSS") && attack.name == Some("XSS")
    ensures Test(tag, None, value) != Test(tag, Some(0), attack)
    ensures FileName(Test(tag, None, value), Some(".jsp")) == FileName(Test(tag, Some(0), attack), Some(".jsp"))
  {
    assert "out" + "-" + "value-XSS" + ".jsp" == "out-value-XSS.jsp";
    assert "out" + "-" + "value" + "-" + "XSS" + ".jsp" == "out-value-XSS.jsp";
  }
}
