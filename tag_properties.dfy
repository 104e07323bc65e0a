/**
 * TagProperties (trunk/owasp-jsp-testing-tool/.../conf/TagProperties.java):
 * per-tag configuration kept in one flat java.util.Properties table. A
 * tag's test prefix and suffix live under tagName + "-prefix" and
 * tagName + "-suffix", and the value to give attribute p of tag t lives
 * under t + "." + p. The table is a map from key to value; loading from
 * and saving to an XML file are a map handed in and handed back.
 */
module TagPropertyStore {
  import opened JavaLang

  const DefaultPrefix: string := "<%@ taglib uri=\"http://java.sun.com/jsf/core\" prefix=\"f\" %>\n<f:view>"
  const DefaultSuffix: string := "</f:view>"

  const PrefixSuffix: string := "-prefix"
  const SuffixSuffix: string := "-suffix"

  /** The keys; Java's string concatenation writes a null name as "null". */
  function PrefixKey(tagName: JString): string
  {
    Str(tagName) + PrefixSuffix
  }

  function SuffixKey(tagName: JString): string
  {
    Str(tagName) + SuffixSuffix
  }

  function PropertyKey(tagName: JString, propertyName: JString): string
  {
    Str(tagName) + "." + Str(propertyName)
  }

  class TagProperties {
    var properties: map<string, string>

    constructor()
      ensures properties == map[]
    {
      properties := map[];
    }

    function GetTagPrefix(tagName: JString): (r: string)
      reads this
      ensures PrefixKey(tagName) in properties ==> r == properties[PrefixKey(tagName)]
      ensures PrefixKey(tagName) !in properties ==> r == DefaultPrefix
    {
      if PrefixKey(tagName) in properties then properties[PrefixKey(tagName)] else DefaultPrefix
    }

    function GetTagSuffix(tagName: JString): (r: string)
      reads this
      ensures SuffixKey(tagName) in properties ==> r == properties[SuffixKey(tagName)]
      ensures SuffixKey(tagName) !in properties ==> r == DefaultSuffix
    {
      if SuffixKey(tagName) in properties then properties[SuffixKey(tagName)] else DefaultSuffix
    }

    predicate HasTagProperty(tagName: JString, propertyName: JString)
      reads this
    {
      PropertyKey(tagName, propertyName) in properties
    }

    /** getTagProperty: null exactly when hasTagProperty is false. */
    function GetTagProperty(tagName: JString, propertyName: JString): (r: JString)
      reads this
      ensures r.Some? <==> HasTagProperty(tagName, propertyName)
      ensures r.Some? ==> r.value == properties[PropertyKey(tagName, propertyName)]
    {
      var key := PropertyKey(tagName, propertyName);
      if key in properties then Some(properties[key]) else None
    }

    method SetTagPrefix(tagName: JString, prefix: string)
      modifies this
      ensures properties == old(properties)[PrefixKey(tagName) := prefix]
      ensures GetTagPrefix(tagName) == prefix
      ensures forall t: string :: GetTagSuffix(Some(t)) == old(GetTagSuffix(Some(t)))
      ensures GetTagSuffix(None) == old(GetTagSuffix(None))
    {
      properties := properties[PrefixKey(tagName) := prefix];
      forall t: string
        ensures GetTagSuffix(Some(t)) == old(GetTagSuffix(Some(t)))
      {
        PrefixSuffixKeysDiffer(tagName, Some(t));
      }
      PrefixSuffixKeysDiffer(tagName, None);
    }

    method SetTagSuffix(tagName: JString, suffix: string)
      modifies this
      ensures properties == old(properties)[SuffixKey(tagName) := suffix]
      ensures GetTagSuffix(tagName) == suffix
      ensures forall t: string :: GetTagPrefix(Some(t)) == old(GetTagPrefix(Some(t)))
      ensures GetTagPrefix(None) == old(GetTagPrefix(None))
    {
      properties := properties[SuffixKey(tagName) := suffix];
      forall t: string
        ensures GetTagPrefix(Some(t)) == old(GetTagPrefix(Some(t)))
      {
        PrefixSuffixKeysDiffer(Some(t), tagName);
      }
      PrefixSuffixKeysDiffer(None, tagName);
    }

    /**
     * setTagProperty; Properties.setProperty rejects a null value with a
     * NullPointerException, so the value is a (non-null) string.
     */
    method SetTagProperty(tagName: JString, propertyName: JString, property: string)
      modifies this
      ensures properties == old(properties)[PropertyKey(tagName, propertyName) := property]
      ensures GetTagProperty(tagName, propertyName) == Some(property)
      ensures forall t, p :: PropertyKey(t, p) != PropertyKey(tagName, propertyName) ==>
                GetTagProperty(t, p) == old(GetTagProperty(t, p))
    {
      properties := properties[PropertyKey(tagName, propertyName) := property];
    }

    /** load: every existing entry is dropped, then the file's entries are read. */
    method Load(entries: map<string, string>)
      modifies this
      ensures properties == entries
    {
      properties := map[];
      properties := properties + entries;
    }

    /** save: the entries written to the file; the table itself is left as it is. */
    method Save() returns (entries: map<string, string>)
      ensures entries == properties
    {
      entries := properties;
    }
  }

  // ---------------------------------------------------------------------
  // The key scheme

  /** A prefix key never equals a suffix key, so the two kinds of setting never disturb each other. */
  lemma PrefixSuffixKeysDiffer(t1: JString, t2: JString)
    ensures PrefixKey(t1) != SuffixKey(t2)
  {
    var k1 := PrefixKey(t1);
    var k2 := SuffixKey(t2);
    assert k1[|k1| - 6] == 'p';
    assert k2[|k2| - 6] == 's';
  }

  /**
   * Tag and property names are joined with a dot and nothing else, so
   * different pairs can share a key: ("a.b", "c") and ("a", "b.c").
   */
  lemma PropertyKeysCollide()
    ensures PropertyKey(Some("a.b"), Some("c")) == PropertyKey(Some("a"), Some("b.c"))
    ensures (Some("a.b"), Some("c")) != (Some("a"), Some("b.c"))
  {
  }

  /**
   * A prefix key can also be a property key: the prefix of tag "t.x" is
   * stored where the property "x-prefix" of tag "t" is.
   */
  lemma PrefixKeyIsPropertyKey(t: string, x: string)
    ensures PrefixKey(Some(t + "." + x)) == PropertyKey(Some(t), Some(x + PrefixSuffix))
  {
  }

  /** A null name and the name "null" share their keys. */
  lemma NullNameSharesKeys(p: JString)
    ensures PropertyKey(None, p) == PropertyKey(Some("null"), p)
    ensures PrefixKey(None) == PrefixKey(Some("null"))
  {
  }

  /** Without dots in tag names, distinct (tag, property) pairs get distinct keys. */
  lemma PropertyKeyInjective(t1: JString, p1: JString, t2: JString, p2: JString)
    requires '.' !in Str(t1) && '.' !in Str(t2)
    requires PropertyKey(t1, p1) == PropertyKey(t2, p2)
    ensures Str(t1) == Str(t2) && Str(p1) == Str(p2)
  {
    var a1, a2 := Str(t1), Str(t2);
    var k := PropertyKey(t1, p1);
    FirstDot(a1, Str(p1));
    FirstDot(a2, Str(p2));
    assert |a1| == |a2|;
    assert a1 == k[..|a1|] == a2;
    assert Str(p1) == k[|a1| + 1..] == Str(p2);
  }

  /** In a + "." + b with no dot in a, the first dot sits right after a. */
  lemma FirstDot(a: string, b: string)
    requires '.' !in a
    ensures var k := a + "." + b;
      k[|a|] == '.' && forall i :: 0 <= i < |a| ==> k[i] != '.'
  {
    var k := a + "." + b;
    forall i | 0 <= i < |a|
      ensures k[i] != '.'
    {
      assert k[i] == a[i];
    }
  }
}
