/**
 * owasp-jsp-testing-tool/src/org/owasp/jsptester/attack/Attack.java: one
 * XSS test input, an immutable triple of strings. The constructor checks
 * nothing, so null and empty values are stored as given; the getters are
 * the fields of the datatype.
 */
module Attacks {
  import opened JavaLang

  datatype Attack = Attack(name: JString, displayName: JString, attackString: JString)

  const NamePrefix: string := "[name: "
  const DisplayNameLabel: string := ", displayName: "
  const AttackStringLabel: string := ", attackString: "

  /** Attack.toString. */
  function ToString(a: Attack): (r: string)
    ensures |r| == |NamePrefix| + |DisplayNameLabel| + |AttackStringLabel| + 1
                   + |Str(a.name)| + |Str(a.displayName)| + |Str(a.attackString)|
  {
    NamePrefix + Str(a.name) + DisplayNameLabel + Str(a.displayName)
    + AttackStringLabel + Str(a.attackString) + "]"
  }

  /**
   * The rendering is bracketed, and each value sits, unquoted, right after
   * its label: a reader that knows the lengths of the three values can cut
   * them back out.
   */
  lemma ToStringLayout(a: Attack)
    ensures var r := ToString(a);
      var n := Str(a.name);
      var d := Str(a.displayName);
      var s := Str(a.attackString);
      var dAt := |NamePrefix| + |n| + |DisplayNameLabel|;
      var sAt := dAt + |d| + |AttackStringLabel|;
      && r[..|NamePrefix|] == NamePrefix
      && r[|NamePrefix|..|NamePrefix| + |n|] == n
      && r[dAt..dAt + |d|] == d
      && r[sAt..sAt + |s|] == s
      && r[|r| - 1] == ']'
  {
    var n := Str(a.name);
    var d := Str(a.displayName);
    var s := Str(a.attackString);
    var r := ToString(a);
    var p1 := NamePrefix + n;
    var p2 := p1 + DisplayNameLabel + d;
    var p3 := p2 + AttackStringLabel + s;
    assert r == p3 + "]";
    assert r[..|p3|] == p3;
    assert p3[..|p2|] == p2;
    assert p2[..|p1|] == p1;
    assert r[..|NamePrefix|] == p1[..|NamePrefix|];
    assert r[|NamePrefix|..|p1|] == p1[|NamePrefix|..];
    assert r[|p1| + |DisplayNameLabel|..|p2|] == p2[|p1| + |DisplayNameLabel|..];
    assert r[|p2| + |AttackStringLabel|..|p3|] == p3[|p2| + |AttackStringLabel|..];
  }

  /**
   * Null values print as the four letters "null", so a null field and the
   * string "null" render alike.
   */
  lemma ToStringNullAmbiguity()
    ensures ToString(Attack(None, Some("x"), Some("y"))) == ToString(Attack(Some("null"), Some("x"), Some("y")))
    ensures Attack(None, Some("x"), Some("y")) != Attack(Some("null"), Some("x"), Some("y"))
  {
  }
}
