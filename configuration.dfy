/**
 * Configuration (trunk/owasp-jsp-testing-tool/.../conf/Configuration.java):
 * the tool's settings, a java.util.Properties table whose lookups fall back
 * to a fixed table of defaults. Properties.load reads key/value lines from
 * a stream; here the lines arrive already read, as a map, and are merged
 * into the table, replacing the values of keys they repeat.
 */
module Config {
  import opened JavaLang

  const AttackLibrary: string := "ATTACK_LIBRARY"
  const EmbeddedDocBase: string := "EMBEDDED_DOC_BASE"
  const EmbeddedWebRoot: string := "EMBEDDED_WEB_ROOT"
  const EmbeddedPortNum: string := "EMBEDDED_PORT_NUM"
  const TemplateReport: string := "REPORT_REPORT_TEMPLATE"
  const TemplateTestCase: string := "REPORT_TEST_CASE_TEMPLATE"
  const TemplateIndexJsp: string := "REPORT_INDEX_JSP"
  const TemplateErrorJsp: string := "REPORT_ERROR_JSP"
  const TemplateMetaInf: string := "REPORT_META_INF_FOLDER"
  const TemplateWebInf: string := "REPORT_WEB_INF_FOLDER"
  const ReportContextRoot: string := "REPORT_CONTEXT_ROOT"
  const ReportFileExtension: string := "REPORT_FILE_EXTENSION"
  const ReportFrameNamespace: string := "REPORT_FRAME_NAMESPACE"
  const ReportTestPrefix: string := "REPORT_TEST_PREFIX"
  const ReportTestSuffix: string := "REPORT_TEST_SUFFIX"

  /** The DEFAULTS table the static initializer fills. */
  const Defaults: map<string, string> := map[
    AttackLibrary := "resources/attacks.xml",
    EmbeddedDocBase := "./report",
    EmbeddedWebRoot := "./report",
    EmbeddedPortNum := "8096",
    TemplateReport := "template/report.vm",
    TemplateTestCase := "template/testcase.vm",
    TemplateIndexJsp := "template/index.jsp",
    TemplateErrorJsp := "template/error.jsp",
    TemplateMetaInf := "template/META-INF/",
    TemplateWebInf := "template/WEB-INF/",
    ReportContextRoot := "test/",
    ReportFileExtension := ".jsp",
    ReportFrameNamespace := "frame",
    ReportTestPrefix := "<%@ taglib uri=\"http://java.sun.com/jsf/core\" prefix=\"f\" %>\n<f:view>",
    ReportTestSuffix := "</f:view>"
  ]

  /** DEFAULTS.getProperty(key): null for a key the table does not list. */
  function DefaultOf(key: string): (r: JString)
    ensures r.Some? <==> key in Defaults
  {
    if key in Defaults then Some(Defaults[key]) else None
  }

  class Configuration {
    /** The entries loaded into the instance's own table (not the defaults). */
    var config: map<string, string>

    /** The private constructor: an empty table backed by DEFAULTS. */
    constructor()
      ensures config == map[]
    {
      config := map[];
    }

    /**
     * getProperty(key, defaultValue): the instance's own value, else the
     * DEFAULTS value, else the caller's default.
     */
    function GetPropertyOr(key: string, defaultValue: JString): (r: JString)
      reads this
      ensures key in config ==> r == Some(config[key])
      ensures key !in config && key in Defaults ==> r == Some(Defaults[key])
      ensures key !in config && key !in Defaults ==> r == defaultValue
    {
      if key in config then Some(config[key])
      else if key in Defaults then Some(Defaults[key])
      else defaultValue
    }

    /** getProperty(key), which passes DEFAULTS.getProperty(key) as the default. */
    function GetProperty(key: string): (r: JString)
      reads this
      ensures r == GetPropertyOr(key, None)
      ensures r.None? <==> key !in config && key !in Defaults
    {
      GetPropertyOr(key, DefaultOf(key))
    }

    /** load: the read entries are merged in, a repeated key taking the read value. */
    method Load(entries: map<string, string>)
      modifies this
      ensures config == old(config) + entries
      ensures forall k :: k in entries ==> GetProperty(k) == Some(entries[k])
      ensures forall k :: k !in entries ==> GetProperty(k) == old(GetProperty(k))
    {
      config := config + entries;
    }
  }

  /**
   * A fresh configuration answers every key with its default, and the
   * report's test file extension defaults to ".jsp".
   */
  lemma FreshConfigurationDefaults(c: Configuration)
    requires c.config == map[]
    ensures forall k :: c.GetProperty(k) == DefaultOf(k)
    ensures c.GetProperty(ReportFileExtension) == Some(".jsp")
    ensures c.GetProperty(ReportTestSuffix) == Some("</f:view>")
  {
  }

  /**
   * A caller's default only matters for keys that neither the loaded
   * entries nor DEFAULTS know.
   */
  lemma CallerDefaultOnlyForUnknownKeys(c: Configuration, key: string, d1: JString, d2: JString)
    requires key in c.config || key in Defaults
    ensures c.GetPropertyOr(key, d1) == c.GetPropertyOr(key, d2) == c.GetProperty(key)
  {
  }
}
