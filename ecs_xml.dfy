/**
 * The part of the Apache ECS org.apache.ecs.xml.XML builder the test-case
 * generators use, kept as the calls made on it rather than as rendered
 * text: the element name given to the constructor, every addAttribute
 * call in order, and the text given to setTagText, if any.
 */
module EcsXml {
  import opened JavaLang

  /** One addAttribute(name, value) call. */
  datatype AttributeCall = AttributeCall(name: JString, value: JString)

  datatype Xml = Xml(elementName: string, attributeCalls: seq<AttributeCall>, tagText: Option<JString>)

  /** new XML(name). */
  function NewXml(elementName: string): Xml
  {
    Xml(elementName, [], None)
  }

  function AddAttribute(x: Xml, name: JString, value: JString): Xml
  {
    x.(attributeCalls := x.attributeCalls + [AttributeCall(name, value)])
  }

  function SetTagText(x: Xml, text: JString): Xml
  {
    x.(tagText := Some(text))
  }
}
