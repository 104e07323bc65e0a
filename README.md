# OWASP JSP Testing Tool: test-matrix core in Dafny

This project models the core of the OWASP JSP Testing Tool. The tool
tests JSP custom tag libraries for cross-site scripting.

- It reads a tag library descriptor (TLD) into TagLibraryInfo, TagInfo,
  TagAttributeInfo and TagVariableInfo records.
- It reads a catalogue of XSS attacks.
- For every tag it builds one test page per attack that puts the attack
  into the tag's body. It also builds one test page per (attribute,
  attack) pair that puts the attack into that attribute.
- Pages are framed by a per-tag prefix and suffix. Values for the tag's
  required attributes come from the tag properties.
- The error page of the report shows stack traces through a small HTML
  entity encoder.

Modules, one per Java class (two copies where the repository has two):

- `JavaLang`, `Dom`: nullable strings, `String.trim`, `Character` predicates; the DOM tree and `getTextContent`
- `TagExt`: the `javax.servlet.jsp.tagext` records, and `TagLibraryInfoImpl` as a class
- `TldSpec`: what a descriptor says: the last matching element wins, trimmed; the JSP 1.1 and 1.2+ spellings
- `TagFileParser`, `TagFacts`: the trunk `TagFileParser`, and its properties
- `TagFileParserV05`: the v0.5 `TagFileParser`
- `Attacks`, `AttackCatalogue`: `Attack`, and both `AttackLibrary` copies
- `Config`, `TagPropertyStore`: `Configuration`, `TagProperties`
- `TagLibraryUtils`: required attributes and their configured values
- `EcsXml`, `TestCase`, `TestCaseV05`: the ECS `XML` builder as a record of the calls made on it, and both `TestCase` copies
- `TestMatrix`, `ReportGenerator`, `ReportGeneratorTrunk`: the order and names of the generated test files, for both `ReportGenerator` copies
- `ErrorHandler`: `htmlEntityEncode` and `buildStackTrace`

Java conventions used throughout:

- A Java `String` that may be null is `JString = Option<string>`.
- Concatenating null writes the four letters `null` (`JavaLang.Str`).
- A `TagAttributeInfo` has no `equals` of its own, so Java's sets and maps
  of attributes are keyed by object identity. Here an attribute is its
  index in the tag's attribute array.
- `HashMap` and `HashSet` iteration order is unspecified. A loop over one
  picks any remaining element (`:|`). Where the order shows in the result,
  a ghost out-parameter reports it.
- The parsers' log messages for missing required elements (`warning` in
  trunk, `System.err` in v0.5) are returned as a sequence of `Warning`
  values.

Two behaviours of the code worth knowing:

- A catalogue load that fails part-way is not rolled back.
  `parseAttackFile` catches the exception and returns the library with
  every attack stored before the failure
  (`AttackCatalogue.FailureKeepsEarlierAttacks`).
- Both ReportGenerator copies carry a comment naming attribute test files
  `[tagName-attackName-attrName.jsp]`. The code writes
  tagName-attrName-attackName, and the model follows the code
  (`TestMatrix.FileName`).

## Model

| member | source | states |
|---|---|---|
| JavaLang.Str | trunk/owasp-jsp-testing-tool/src/org/owasp/jsptester/report/TestCase.java:78-79 | string concatenation writes a non-null string as itself and null as "null" |
| JavaLang.TrimIsTrimmed | trunk/owasp-jsp-testing-tool/src/org/owasp/jsptester/parser/TagFileParser.java:1118-1121 | `String.trim` leaves no strippable character (code at most U+0020) at either end, and never lengthens its input |
| JavaLang.TrimIdempotent | trunk/owasp-jsp-testing-tool/src/org/owasp/jsptester/parser/TagFileParser.java:1118-1121 | trimming twice is trimming once |
| JavaLang.NatToDecimal | trunk/owasp-jsp-testing-tool/src/org/owasp/jsptester/report/ErrorHandler.java:156-161 | the decimal rendering of a code is non-empty and made of digits only |
| JavaLang.DecimalRoundTrip | trunk/owasp-jsp-testing-tool/src/org/owasp/jsptester/report/ErrorHandler.java:156-161 | the digits written for a code denote that code (read back by an independent left fold), with no leading zero |
| TldSpec.ParseElementString | trunk/owasp-jsp-testing-tool/src/org/owasp/jsptester/parser/TagFileParser.java:1118-1121 | parseElementString returns null exactly for null |
| TldSpec.ParseElementStringTrimmed | trunk/owasp-jsp-testing-tool/src/org/owasp/jsptester/parser/TagFileParser.java:1118-1121 | a non-null result is trimmed and no longer than the input |
| TldSpec.ParseElementStringIdempotent | trunk/owasp-jsp-testing-tool/src/org/owasp/jsptester/parser/TagFileParser.java:232-233 | parseElementString is idempotent, so the doubled calls of both parsers change nothing |
| TldSpec.ParseTldBoolean | trunk/owasp-jsp-testing-tool/src/org/owasp/jsptester/parser/TagFileParser.java:1082-1085 | "true" and "yes" are true; a true result needs a non-null value of 3 or 4 characters, so null, "" and " true " are false |
| TldSpec.ParseScopeType | trunk/owasp-jsp-testing-tool/src/org/owasp/jsptester/parser/TagFileParser.java:1094-1107 | the result is one of the three VariableInfo constants; AT_BEGIN exactly for "AT_BEGIN", AT_END exactly for "AT_END", NESTED for everything else, null included |
| TldSpec.LastContentAbsent | trunk/owasp-jsp-testing-tool/src/org/owasp/jsptester/parser/TagFileParser.java:171-191 | a field stays null exactly when no child element carries one of its spellings |
| TldSpec.LastContentIsLast | trunk/owasp-jsp-testing-tool/src/org/owasp/jsptester/parser/TagFileParser.java:171-191 | the last child with either spelling wins, whatever came before it |
| TldSpec.LastContentWitness | trunk/owasp-jsp-testing-tool/src/org/owasp/jsptester/parser/TagFileParser.java:171-191 | conversely, a present value is the text of a matching child with no later match |
| TldSpec.LastContentIgnores | trunk/owasp-jsp-testing-tool/src/org/owasp/jsptester/parser/TagFileParser.java:163-166 | a child that carries none of a field's names can be removed without changing that field |
| TldSpec.ElementsNamedIgnores | trunk/owasp-jsp-testing-tool/src/org/owasp/jsptester/parser/TagFileParser.java:206-210 | a child with another name can be removed without changing the collected element list |
| TldSpec.AttributeDefaults | trunk/owasp-jsp-testing-tool/src/org/owasp/jsptester/parser/TagFileParser.java:529-532 | an <attribute> without element children is (null, required false, type "java.lang.String", rtexprvalue false) and raises only the missing-name warning |
| TldSpec.LibraryWarningsExact | trunk/owasp-jsp-testing-tool/src/org/owasp/jsptester/parser/TagFileParser.java:286-304 | each <taglib> warning is raised exactly when tlibversion, shortname or every tag is missing |
| TldSpec.UnknownLibraryChildIgnored | trunk/owasp-jsp-testing-tool/src/org/owasp/jsptester/parser/TagFileParser.java:278-282 | an unknown element anywhere among the <taglib> children changes none of the library fields or tag elements |
| TldSpec.DroppedLibraryChildIgnored | trunk/owasp-jsp-testing-tool/src/org/owasp/jsptester/parser/TagFileParser.java:211-277 | display-name, icons, description, validator, listener, tag-file, function and taglib-extension elements change nothing the library keeps |
| TldSpec.LastContentCanonical | trunk/owasp-jsp-testing-tool/src/org/owasp/jsptester/parser/TagFileParser.java:171-191 | a field read under a set holding both spellings of each name is the same after renaming every element to its JSP 1.2+ spelling |
| TldSpec.FieldCanonical | trunk/owasp-jsp-testing-tool/src/org/owasp/jsptester/parser/TagFileParser.java:400-420 | the same for the trimmed field, with or without a default |
| TldSpec.NameSetsSpellingClosed | trunk/owasp-jsp-testing-tool/src/org/owasp/jsptester/parser/TagFileParser.java:171-191 | every name set the parsers test holds both spellings of each name or neither |
| TldSpec.AttributeCanonical | trunk/owasp-jsp-testing-tool/src/org/owasp/jsptester/parser/TagFileParser.java:522-591 | an <attribute> reads the same under either spelling of the descriptor |
| TldSpec.AttributeListCanonical | trunk/owasp-jsp-testing-tool/src/org/owasp/jsptester/parser/TagFileParser.java:429-433 | so does a tag's attribute list |
| TldSpec.LibrarySpellingTolerance | trunk/owasp-jsp-testing-tool/src/org/owasp/jsptester/parser/TagFileParser.java:171-191 | a <taglib> with JSP 1.1 names (tlibversion, jspversion, shortname) gives the same library fields as with the JSP 1.2+ names; its tag elements are renamed the same way |
| TagFileParser.ParseTagLibElement | trunk/owasp-jsp-testing-tool/src/org/owasp/jsptester/parser/TagFileParser.java:126-331 | a fresh library whose prefix and shortname are the shortname read, with uri, tlibversion, jspversion and info from the last such element, trimmed, and a fresh tags array with one TagInfo per <tag> child in document order; the warnings are the three <taglib> checks, then each tag's |
| TagFileParser.ReadTagLibChildren | trunk/owasp-jsp-testing-tool/src/org/owasp/jsptester/parser/TagFileParser.java:158-283 | the <taglib> loop yields exactly the library fields of the descriptor: the last occurrence of each kept element wins and tag elements are collected in order |
| TagFileParser.BuildLibrary | trunk/owasp-jsp-testing-tool/src/org/owasp/jsptester/parser/TagFileParser.java:286-325 | the library gets exactly those fields, a warning is logged for each missing required element, and the tags array holds the parsed tags |
| TagFileParser.ParseTagElements | trunk/owasp-jsp-testing-tool/src/org/owasp/jsptester/parser/TagFileParser.java:318-323 | a fresh array whose i-th entry is the TagInfo of the i-th <tag> element, with the warnings of each tag in order |
| TagFileParser.TagList | trunk/owasp-jsp-testing-tool/src/org/owasp/jsptester/parser/TagFileParser.java:318-323 | one TagInfo per <tag> element |
| TagFileParser.ParseTagElement | trunk/owasp-jsp-testing-tool/src/org/owasp/jsptester/parser/TagFileParser.java:344-511 | the TagInfo is built from the last occurrence of each element (body content "JSP" by default), the attributes and variables in document order; warnings for the children, then a missing name, then a missing tag class |
| TagFileParser.ReadTagChild | trunk/owasp-jsp-testing-tool/src/org/owasp/jsptester/parser/TagFileParser.java:381-427 | one child: a known element replaces its local (or appends an attribute or variable), a non-element or unknown element changes nothing |
| TagFileParser.ReadLaterTagChild | trunk/owasp-jsp-testing-tool/src/org/owasp/jsptester/parser/TagFileParser.java:429-481 | the same for attribute, display-name, icons, description, variable, example and dynamic-attributes |
| TagFileParser.ParseAttributeElement | trunk/owasp-jsp-testing-tool/src/org/owasp/jsptester/parser/TagFileParser.java:522-591 | the TagAttributeInfo the <attribute> element describes, starting from the defaults, and the warning exactly when its name is missing |
| TagFileParser.ParseVariableElement | trunk/owasp-jsp-testing-tool/src/org/owasp/jsptester/parser/TagFileParser.java:708-779 | the TagVariableInfo the <variable> element describes (declare through Boolean.getBoolean, scope through parseScopeType), and the warning when neither name is given |
| TagFileParser.ParseIconElement | trunk/owasp-jsp-testing-tool/src/org/owasp/jsptester/parser/TagFileParser.java:849-888 | the trimmed small-icon and large-icon of an <icon> element, last occurrence winning |
| TagFacts.TagListIndex | trunk/owasp-jsp-testing-tool/src/org/owasp/jsptester/parser/TagFileParser.java:318-323 | the i-th tag of the library comes from the i-th <tag> element |
| TagFacts.TagDefaults | trunk/owasp-jsp-testing-tool/src/org/owasp/jsptester/parser/TagFileParser.java:355-372 | without a body-content element the body content is "JSP"; without dynamic-attributes the tag takes no dynamic attributes |
| TagFacts.TagWarningsExact | trunk/owasp-jsp-testing-tool/src/org/owasp/jsptester/parser/TagFileParser.java:485-496 | the missing-name (missing-tagclass) warning is logged exactly when the returned TagInfo has a null name (tag class); the TagInfo is returned either way |
| TagFacts.ChildWarningsKinds | trunk/owasp-jsp-testing-tool/src/org/owasp/jsptester/parser/TagFileParser.java:429-464 | a tag's children only raise attribute-name and variable-name warnings |
| TagFacts.VariableCanonical | trunk/owasp-jsp-testing-tool/src/org/owasp/jsptester/parser/TagFileParser.java:708-779 | a <variable> reads the same, with the same warnings, under either spelling of the descriptor |
| TagFacts.VariableListCanonical | trunk/owasp-jsp-testing-tool/src/org/owasp/jsptester/parser/TagFileParser.java:460-464 | so does the variable list |
| TagFacts.ChildWarningsCanonical | trunk/owasp-jsp-testing-tool/src/org/owasp/jsptester/parser/TagFileParser.java:429-464 | the children's warnings do not depend on the spelling |
| TagFacts.TagLocalsCanonical | trunk/owasp-jsp-testing-tool/src/org/owasp/jsptester/parser/TagFileParser.java:400-420 | every local of parseTagElement is the same under both spellings |
| TagFacts.TagSpellingTolerance | trunk/owasp-jsp-testing-tool/src/org/owasp/jsptester/parser/TagFileParser.java:400-420 | a <tag> with tagclass, teiclass and bodycontent gives the same TagInfo and warnings as with tag-class, tei-class and body-content |
| TagFacts.UnknownTagChildIgnored | trunk/owasp-jsp-testing-tool/src/org/owasp/jsptester/parser/TagFileParser.java:478-481 | an unknown element anywhere among a tag's children changes neither the locals nor the warnings |
| TagFileParserV05.ParseTagLibElement | branches/owasp-jsp-testing-tool-v0.5/src/org/owasp/jsptester/parser/TagFileParser.java:81-245 | the same library fields and document-order tag array as the trunk parser, with the v0.5 tags and stderr messages |
| TagFileParserV05.ReadTagLibChildren | branches/owasp-jsp-testing-tool-v0.5/src/org/owasp/jsptester/parser/TagFileParser.java:107-205 | the <taglib> loop yields exactly the library fields; both spellings write the same field and the last wins |
| TagFileParserV05.BuildLibrary | branches/owasp-jsp-testing-tool-v0.5/src/org/owasp/jsptester/parser/TagFileParser.java:207-244 | the missing tlibversion, shortname and tag messages are printed exactly when those are missing; the library is built regardless |
| TagFileParserV05.ParseTagElements | branches/owasp-jsp-testing-tool-v0.5/src/org/owasp/jsptester/parser/TagFileParser.java:236-242 | tags in document order |
| TagFileParserV05.TagList | branches/owasp-jsp-testing-tool-v0.5/src/org/owasp/jsptester/parser/TagFileParser.java:236-242 | one TagInfo per <tag> element |
| TagFileParserV05.ParseTagElement | branches/owasp-jsp-testing-tool-v0.5/src/org/owasp/jsptester/parser/TagFileParser.java:247-375 | the seven-argument TagInfo: name, tag class, body content ("JSP" by default), info, library and attributes, with the variable array and icons left null; the missing name and tag class messages |
| TagFileParserV05.ReadTagChild | branches/owasp-jsp-testing-tool-v0.5/src/org/owasp/jsptester/parser/TagFileParser.java:274-310 | one child: both spellings write the same local, a non-element or unknown element changes nothing |
| TagFileParserV05.ReadLaterTagChild | branches/owasp-jsp-testing-tool-v0.5/src/org/owasp/jsptester/parser/TagFileParser.java:311-355 | the same for attribute, display-name, icons, description, variable, example and dynamic-attributes |
| TagFileParserV05.ChildWarningsIgnores | branches/owasp-jsp-testing-tool-v0.5/src/org/owasp/jsptester/parser/TagFileParser.java:350-354 | a child raising no message can be removed without changing the messages |
| TagFileParserV05.OtherTagChildIgnored | branches/owasp-jsp-testing-tool-v0.5/src/org/owasp/jsptester/parser/TagFileParser.java:336-354 | any element other than name, tag class, body content, info and attribute (unknown ones, and the discarded JSP 1.2+ elements) changes neither the TagInfo nor the messages |
| TagFileParserV05.AgreesWithTrunk | branches/owasp-jsp-testing-tool-v0.5/src/org/owasp/jsptester/parser/TagFileParser.java:372-374 | on every tag, the v0.5 TagInfo agrees with the trunk's on name, tag class, body content, info, library and attributes; only the trunk one has a variable array |
| TagFileParserV05.ChildWarningsCanonical | branches/owasp-jsp-testing-tool-v0.5/src/org/owasp/jsptester/parser/TagFileParser.java:311-315 | the children's messages do not depend on the spelling |
| TagFileParserV05.TagSpellingTolerance | branches/owasp-jsp-testing-tool-v0.5/src/org/owasp/jsptester/parser/TagFileParser.java:288-305 | a <tag> reads the same, with the same messages, under its JSP 1.1 and JSP 1.2+ element names |
| TagExt.TagLibraryInfoImpl.constructor | trunk/owasp-jsp-testing-tool/src/org/owasp/jsptester/parser/TagLibraryInfoImpl.java:51-56 | prefix and uri as given, shortname equal to the prefix, the other fields unset |
| TagExt.TagLibraryInfoImpl.GetTagLibraryInfos | trunk/owasp-jsp-testing-tool/src/org/owasp/jsptester/parser/TagLibraryInfoImpl.java:71-75 | a fresh one-element array holding this library |
| TagExt.TagLibraryInfoImpl.SetTags | trunk/owasp-jsp-testing-tool/src/org/owasp/jsptester/parser/TagLibraryInfoImpl.java:83-86 | stores the caller's array itself (not a copy) and leaves every other field |
| TagExt.TagLibraryInfoImpl.SetTlibVersion | trunk/owasp-jsp-testing-tool/src/org/owasp/jsptester/parser/TagLibraryInfoImpl.java:94-97 | assigns tlibversion only |
| TagExt.TagLibraryInfoImpl.SetJspVersion | trunk/owasp-jsp-testing-tool/src/org/owasp/jsptester/parser/TagLibraryInfoImpl.java:105-108 | assigns jspversion only |
| TagExt.TagLibraryInfoImpl.SetInfo | trunk/owasp-jsp-testing-tool/src/org/owasp/jsptester/parser/TagLibraryInfoImpl.java:116-119 | assigns info only |
| Attacks.ToString | owasp-jsp-testing-tool/src/org/owasp/jsptester/attack/Attack.java:104-108 | the rendering is as long as the three labels, the closing bracket and the three values written with nulls as "null" |
| Attacks.ToStringLayout | owasp-jsp-testing-tool/src/org/owasp/jsptester/attack/Attack.java:104-108 | "[name: " starts the text, "]" ends it, and each value sits unquoted right after its label |
| Attacks.ToStringNullAmbiguity | owasp-jsp-testing-tool/src/org/owasp/jsptester/attack/Attack.java:104-108 | an attack with a null name renders exactly like one named "null", though the two attacks differ |
| AttackCatalogue.HasUnknownFieldIff | owasp-jsp-testing-tool/src/org/owasp/jsptester/attack/AttackLibrary.java:250-253 | an <attack> has an unknown field exactly when some element child is not name, display-name or attack-string |
| AttackCatalogue.AttackSpec | owasp-jsp-testing-tool/src/org/owasp/jsptester/attack/AttackLibrary.java:212-277 | a successfully parsed attack has non-null name, display name and attack string |
| AttackCatalogue.ParseAttackNode | owasp-jsp-testing-tool/src/org/owasp/jsptester/attack/AttackLibrary.java:212-277 | the loop and the missing-field checks yield the attack or the error AttackSpec describes; the older copy's parseAttackNode (src/org/owasp/jsptester/attack/AttackLibrary.java:140-192) is the same |
| AttackCatalogue.AttackFieldsUntrimmed | owasp-jsp-testing-tool/src/org/owasp/jsptester/attack/AttackLibrary.java:234-249 | each field of a parsed attack is the untrimmed text content of one of its child elements of that name |
| AttackCatalogue.AttackSpecSucceedsIff | owasp-jsp-testing-tool/src/org/owasp/jsptester/attack/AttackLibrary.java:250-273 | an <attack> parses exactly when every element child is known and all three fields are present |
| AttackCatalogue.LoadChild | owasp-jsp-testing-tool/src/org/owasp/jsptester/attack/AttackLibrary.java:162-178 | a root child that raises no exception never removes a stored name |
| AttackCatalogue.AttackLibrary.constructor | owasp-jsp-testing-tool/src/org/owasp/jsptester/attack/AttackLibrary.java:64-66 | a new library is empty |
| AttackCatalogue.AttackLibrary.GetAttackString | owasp-jsp-testing-tool/src/org/owasp/jsptester/attack/AttackLibrary.java:113-122 | the attack string stored under the name, and null for null or an unknown name |
| AttackCatalogue.AttackLibrary.GetAttackStringUnguarded | src/org/owasp/jsptester/attack/AttackLibrary.java:74-77 | the older copy throws a NullPointerException exactly for a null or unknown name, and otherwise returns what the guarded one does |
| AttackCatalogue.AttackLibrary.GetAttacks | owasp-jsp-testing-tool/src/org/owasp/jsptester/attack/AttackLibrary.java:100-104 | one Attack per stored name: exactly the stored attacks, no two with the same name, in some order |
| AttackCatalogue.ParseAttackFile | owasp-jsp-testing-tool/src/org/owasp/jsptester/attack/AttackLibrary.java:133-199 | a fresh library holding the attacks stored before the first failing root child, and that failure; the older copy's loop (src/org/owasp/jsptester/attack/AttackLibrary.java:79-138) is the same |
| AttackCatalogue.LoadAllStops | owasp-jsp-testing-tool/src/org/owasp/jsptester/attack/AttackLibrary.java:181-195 | once a child has raised, the rest of the document is not read |
| AttackCatalogue.LoadAllFailsIff | owasp-jsp-testing-tool/src/org/owasp/jsptester/attack/AttackLibrary.java:158-179 | the load fails exactly when some root child is an unknown element or an <attack> that does not parse |
| AttackCatalogue.FailureKeepsEarlierAttacks | owasp-jsp-testing-tool/src/org/owasp/jsptester/attack/AttackLibrary.java:181-198 | when child i is the first to raise, the library holds exactly the attacks of the children before it, and the error is that child's |
| AttackCatalogue.LoadAllFilesByName | owasp-jsp-testing-tool/src/org/owasp/jsptester/attack/AttackLibrary.java:170-174 | every stored attack is filed under its own name |
| AttackCatalogue.LastAttackWins | owasp-jsp-testing-tool/src/org/owasp/jsptester/attack/AttackLibrary.java:170-174 | the attack stored under a name is the one from the last <attack> with that name, when the load gets that far |
| AttackCatalogue.StoredAttacksComeFromDocument | owasp-jsp-testing-tool/src/org/owasp/jsptester/attack/AttackLibrary.java:158-179 | every stored attack was parsed from some <attack> child of the root |
| AttackCatalogue.NonElementSkipped | owasp-jsp-testing-tool/src/org/owasp/jsptester/attack/AttackLibrary.java:162-166 | text, comments and other non-element root children change nothing |
| Config.DefaultOf | trunk/owasp-jsp-testing-tool/src/org/owasp/jsptester/conf/Configuration.java:64-92 | the DEFAULTS table answers exactly the keys it lists |
| Config.Configuration.constructor | trunk/owasp-jsp-testing-tool/src/org/owasp/jsptester/conf/Configuration.java:102-105 | a new configuration holds no entries of its own |
| Config.Configuration.GetPropertyOr | trunk/owasp-jsp-testing-tool/src/org/owasp/jsptester/conf/Configuration.java:113-116 | the loaded value, else the DEFAULTS value, else the caller's default |
| Config.Configuration.GetProperty | trunk/owasp-jsp-testing-tool/src/org/owasp/jsptester/conf/Configuration.java:123-126 | the two-argument lookup with null as default; null exactly for a key neither loaded nor defaulted |
| Config.Configuration.Load | trunk/owasp-jsp-testing-tool/src/org/owasp/jsptester/conf/Configuration.java:133-146 | loaded entries are merged in: a loaded key answers its loaded value, every other key answers as before |
| Config.FreshConfigurationDefaults | trunk/owasp-jsp-testing-tool/src/org/owasp/jsptester/conf/Configuration.java:64-92 | before any load every key answers its default; the report file extension is ".jsp" and the test suffix "</f:view>" |
| Config.CallerDefaultOnlyForUnknownKeys | trunk/owasp-jsp-testing-tool/src/org/owasp/jsptester/conf/Configuration.java:113-116 | for a key that is loaded or defaulted, the caller's default does not matter |
| TagPropertyStore.TagProperties.constructor | trunk/owasp-jsp-testing-tool/src/org/owasp/jsptester/conf/TagProperties.java:52-55 | a new table is empty |
| TagPropertyStore.TagProperties.GetTagPrefix | trunk/owasp-jsp-testing-tool/src/org/owasp/jsptester/conf/TagProperties.java:57-61 | the value under tagName + "-prefix", else DEFAULT_PREFIX |
| TagPropertyStore.TagProperties.GetTagSuffix | trunk/owasp-jsp-testing-tool/src/org/owasp/jsptester/conf/TagProperties.java:68-72 | the value under tagName + "-suffix", else DEFAULT_SUFFIX |
| TagPropertyStore.TagProperties.GetTagProperty | trunk/owasp-jsp-testing-tool/src/org/owasp/jsptester/conf/TagProperties.java:79-87 | non-null exactly when hasTagProperty holds, and then the stored value |
| TagPropertyStore.TagProperties.SetTagPrefix | trunk/owasp-jsp-testing-tool/src/org/owasp/jsptester/conf/TagProperties.java:63-66 | changes only the prefix key: the prefix reads back, and every tag's suffix is unchanged |
| TagPropertyStore.TagProperties.SetTagSuffix | trunk/owasp-jsp-testing-tool/src/org/owasp/jsptester/conf/TagProperties.java:74-77 | changes only the suffix key: the suffix reads back, and every tag's prefix is unchanged |
| TagPropertyStore.TagProperties.SetTagProperty | trunk/owasp-jsp-testing-tool/src/org/owasp/jsptester/conf/TagProperties.java:89-93 | the property reads back, and every lookup with a different key is unchanged |
| TagPropertyStore.TagProperties.Load | trunk/owasp-jsp-testing-tool/src/org/owasp/jsptester/conf/TagProperties.java:95-99 | existing entries are dropped; the table is exactly what was read |
| TagPropertyStore.TagProperties.Save | trunk/owasp-jsp-testing-tool/src/org/owasp/jsptester/conf/TagProperties.java:101-105 | writes exactly the table's entries and changes nothing |
| TagPropertyStore.PrefixSuffixKeysDiffer | trunk/owasp-jsp-testing-tool/src/org/owasp/jsptester/conf/TagProperties.java:57-77 | no prefix key equals any suffix key |
| TagPropertyStore.PropertyKeysCollide | trunk/owasp-jsp-testing-tool/src/org/owasp/jsptester/conf/TagProperties.java:79-93 | ("a.b", "c") and ("a", "b.c") share a key |
| TagPropertyStore.PrefixKeyIsPropertyKey | trunk/owasp-jsp-testing-tool/src/org/owasp/jsptester/conf/TagProperties.java:63-93 | the prefix of tag "t.x" is stored where property "x-prefix" of tag "t" is |
| TagPropertyStore.NullNameSharesKeys | trunk/owasp-jsp-testing-tool/src/org/owasp/jsptester/conf/TagProperties.java:79-93 | a null tag name and the name "null" share their keys |
| TagPropertyStore.PropertyKeyInjective | trunk/owasp-jsp-testing-tool/src/org/owasp/jsptester/conf/TagProperties.java:79-93 | when tag names hold no dot, equal keys mean equal tag and property names |
| TagLibraryUtils.RequiredIndices | owasp-jsp-testing-tool/src/org/owasp/jsptester/parser/TagLibraryUtils.java:69-81 | exactly the indices of the attributes marked required |
| TagLibraryUtils.HasRequiredAttributes | owasp-jsp-testing-tool/src/org/owasp/jsptester/parser/TagLibraryUtils.java:48-60 | true exactly when some attribute is required |
| TagLibraryUtils.GetRequiredAttributes | owasp-jsp-testing-tool/src/org/owasp/jsptester/parser/TagLibraryUtils.java:69-81 | exactly the required attributes |
| TagLibraryUtils.HasRequiredIffNonEmpty | owasp-jsp-testing-tool/src/org/owasp/jsptester/parser/TagLibraryUtils.java:48-81 | hasRequiredAttributes holds exactly when getRequiredAttributes is non-empty |
| TagLibraryUtils.ConfiguredRequired | owasp-jsp-testing-tool/src/org/owasp/jsptester/parser/TagLibraryUtils.java:86-103 | a required attribute is a key exactly when its tag property exists, and maps to that property |
| TagLibraryUtils.GetRequiredAttributesMap | owasp-jsp-testing-tool/src/org/owasp/jsptester/parser/TagLibraryUtils.java:83-103 | whatever the HashSet order, the keys are the required attributes with hasTagProperty, each mapped to getTagProperty; neither the tag nor the tag properties change |
| TagLibraryUtils.NoRequiredNoValues | owasp-jsp-testing-tool/src/org/owasp/jsptester/parser/TagLibraryUtils.java:86-103 | a tag without required attributes gives an empty map |
| TagLibraryUtils.ConfiguredAreRequired | owasp-jsp-testing-tool/src/org/owasp/jsptester/parser/TagLibraryUtils.java:88-100 | the map holds only required attributes and is no larger than their set |
| TestCase.RequiredCalls | trunk/owasp-jsp-testing-tool/src/org/owasp/jsptester/report/TestCase.java:85-91 | one addAttribute call per key of the order, in that order, with the attribute's name and configured value |
| TestCase.GenerateAttrTestCaseJspTag | trunk/owasp-jsp-testing-tool/src/org/owasp/jsptester/report/TestCase.java:69-99 | for some enumeration of the map's keys, the element shortName:tagName with the attack attribute first, then one call per configured value in that order |
| TestCase.GenerateTagTestCaseJspTag | trunk/owasp-jsp-testing-tool/src/org/owasp/jsptester/report/TestCase.java:112-141 | for some enumeration of the keys, shortName:tagName with one call per configured value and the attack as text |
| TestCase.EnumerationLength | trunk/owasp-jsp-testing-tool/src/org/owasp/jsptester/report/TestCase.java:85-91 | an iteration over the keys visits as many entries as the map has |
| TestCase.AttrTestCaseShape | trunk/owasp-jsp-testing-tool/src/org/owasp/jsptester/report/TestCase.java:78-91 | name shortName:tagName, no text, 1 + |reqAttrs| calls, the first (attr.name, attack string) unmodified |
| TestCase.TagTestCaseShape | trunk/owasp-jsp-testing-tool/src/org/owasp/jsptester/report/TestCase.java:121-134 | name shortName:tagName, |reqAttrs| calls, the raw attack string as text |
| TestCase.RequiredCallsCover | trunk/owasp-jsp-testing-tool/src/org/owasp/jsptester/report/TestCase.java:125-131 | whatever the order, each configured attribute is added with its value, and nothing else is |
| TestCase.EmptyRequiredMap | trunk/owasp-jsp-testing-tool/src/org/owasp/jsptester/report/TestCase.java:171-174 | with an empty map the attribute test adds only the attack and the body test adds nothing |
| TestCase.TestedAttributeAddedTwice | trunk/owasp-jsp-testing-tool/src/org/owasp/jsptester/report/TestCase.java:82-91 | a tested attribute with a configured value is added twice: first with the attack, later with the value |
| TestCaseV05.GenerateTestCase | branches/owasp-jsp-testing-tool-v0.5/src/org/owasp/jsptester/report/TestCase.java:50-57 | shortName:tagName with exactly the call (attr.name, attack string): the trunk attribute test with no configured values |
| TestCaseV05.GenerateTagTextTestCase | branches/owasp-jsp-testing-tool-v0.5/src/org/owasp/jsptester/report/TestCase.java:59-66 | shortName:tagName with no attributes and the attack as text: the trunk body test with no configured values |
| TestCaseV05.RequiredNames | branches/owasp-jsp-testing-tool-v0.5/src/org/owasp/jsptester/report/TestCase.java:68-83 | exactly the names of the required attributes |
| TestCaseV05.GetRequiredAttributes | branches/owasp-jsp-testing-tool-v0.5/src/org/owasp/jsptester/report/TestCase.java:68-83 | the loop collects exactly those names |
| TestCaseV05.SameNameRequiredCollapse | branches/owasp-jsp-testing-tool-v0.5/src/org/owasp/jsptester/report/TestCase.java:78 | two required attributes with one name count once by name, twice by identity |
| TestMatrix.FileNames | owasp-jsp-testing-tool/src/org/owasp/jsptester/report/ReportGenerator.java:295-299 | one name per test, in the same order |
| TestMatrix.BodyTests | owasp-jsp-testing-tool/src/org/owasp/jsptester/report/ReportGenerator.java:286-288 | the k-th body test of a tag uses the k-th attack |
| TestMatrix.AttrTestsFor | owasp-jsp-testing-tool/src/org/owasp/jsptester/report/ReportGenerator.java:325-327 | the k-th test of attribute a uses the k-th attack |
| TestMatrix.AttrTests | owasp-jsp-testing-tool/src/org/owasp/jsptester/report/ReportGenerator.java:322-327 | every test tests one of the first n attributes of the tag |
| TestMatrix.TagTests | owasp-jsp-testing-tool/src/org/owasp/jsptester/report/ReportGenerator.java:286-356 | every test of a tag belongs to that tag and tests one of its attributes or its body |
| TestMatrix.LibraryTests | owasp-jsp-testing-tool/src/org/owasp/jsptester/report/ReportGenerator.java:230-239 | every test of the library belongs to one of its tags |
| TestMatrix.FileNamesAppend | owasp-jsp-testing-tool/src/org/owasp/jsptester/report/ReportGenerator.java:233-236 | the names of two lists of tests are the two name lists one after the other |
| TestMatrix.TagFilesSplit | owasp-jsp-testing-tool/src/org/owasp/jsptester/report/ReportGenerator.java:286-356 | a tag's files: those of its body tests, then those of its attribute tests |
| TestMatrix.BlockIsProduct | owasp-jsp-testing-tool/src/org/owasp/jsptester/report/ReportGenerator.java:322-325 | a block offset is the number of attributes before it times the number of attacks |
| TestMatrix.AttrTestsLength | owasp-jsp-testing-tool/src/org/owasp/jsptester/report/ReportGenerator.java:322-356 | a tag's attribute tests number attributes × attacks |
| TestMatrix.AttrTestsAt | owasp-jsp-testing-tool/src/org/owasp/jsptester/report/ReportGenerator.java:322-327 | attribute-major, attack-minor: attribute a with attack k is entry a·m + k |
| TestMatrix.TagTestsLayout | owasp-jsp-testing-tool/src/org/owasp/jsptester/report/ReportGenerator.java:286-356 | a tag's list is m body tests in attack order followed by n·m attribute tests |
| TestMatrix.TagAttrTestAt | owasp-jsp-testing-tool/src/org/owasp/jsptester/report/ReportGenerator.java:322-344 | attribute a with attack k is entry m + a·m + k of the tag's list |
| TestMatrix.LibraryTestCount | trunk/owasp-jsp-testing-tool/src/org/owasp/jsptester/report/ReportGenerator.java:163-229 | the library's list holds the sum over tags of m + n_t·m tests |
| TestMatrix.NoAttacksNoTests | trunk/owasp-jsp-testing-tool/src/org/owasp/jsptester/report/ReportGenerator.java:168-201 | without attacks nothing is generated, whatever the tags |
| TestMatrix.FileNameExtension | owasp-jsp-testing-tool/src/org/owasp/jsptester/report/ReportGenerator.java:295-299 | every file name is the extensionless name followed by the extension |
| TestMatrix.FileNamesCollide | owasp-jsp-testing-tool/src/org/owasp/jsptester/report/ReportGenerator.java:334-340 | a body test whose attack name holds "-" can get the same file as a different attribute test of the same tag |
| ReportGenerator.VerifyRequiredAttributes | owasp-jsp-testing-tool/src/org/owasp/jsptester/report/ReportGenerator.java:716-764 | whatever the HashSet order, warns exactly when some required attribute other than the tested one has no tag property |
| ReportGenerator.RequiredConfiguredIffComplete | owasp-jsp-testing-tool/src/org/owasp/jsptester/report/ReportGenerator.java:725-750 | a body test is configured exactly when getRequiredAttributesMap finds every required attribute |
| ReportGenerator.TestedAttributeExempt | owasp-jsp-testing-tool/src/org/owasp/jsptester/report/ReportGenerator.java:739-744 | a tag configured for its body test is configured for every attribute test; an attribute test's configuration implies the body test's once the tested attribute, if required, has its property |
| ReportGenerator.WriteAttributeTest | owasp-jsp-testing-tool/src/org/owasp/jsptester/report/ReportGenerator.java:551-619 | the page holds the attribute test element with the configured values, the tag's prefix and suffix, and the warning exactly when unconfigured; it is written either way |
| ReportGenerator.WriteComponentTest | owasp-jsp-testing-tool/src/org/owasp/jsptester/report/ReportGenerator.java:638-703 | the same for the body test, with no attribute exempt |
| ReportGenerator.WriteComponentTestFile | owasp-jsp-testing-tool/src/org/owasp/jsptester/report/ReportGenerator.java:286-316 | the body test of one attack goes to tagName-attackName + extension |
| ReportGenerator.WriteAttributeTestFile | owasp-jsp-testing-tool/src/org/owasp/jsptester/report/ReportGenerator.java:325-355 | the test of one attribute and attack goes to tagName-attrName-attackName + extension |
| ReportGenerator.WriteComponentTests | owasp-jsp-testing-tool/src/org/owasp/jsptester/report/ReportGenerator.java:286-316 | the body-test files, in attack order |
| ReportGenerator.WriteAttributeTests | owasp-jsp-testing-tool/src/org/owasp/jsptester/report/ReportGenerator.java:325-355 | the files of one attribute, in attack order |
| ReportGenerator.WriteAllAttributeTests | owasp-jsp-testing-tool/src/org/owasp/jsptester/report/ReportGenerator.java:321-356 | the attribute-test files, attribute by attribute |
| ReportGenerator.WriteTagTests | owasp-jsp-testing-tool/src/org/owasp/jsptester/report/ReportGenerator.java:286-356 | a tag's files in matrix order with the given extension |
| ReportGenerator.GenerateTagReport | owasp-jsp-testing-tool/src/org/owasp/jsptester/report/ReportGenerator.java:268-369 | a tag's files in matrix order with the configured extension, whatever the tag properties |
| ReportGenerator.GenerateLibraryReport | owasp-jsp-testing-tool/src/org/owasp/jsptester/report/ReportGenerator.java:209-247 | the per-tag lists, concatenated in tag order |
| ReportGenerator.LibraryReportSize | owasp-jsp-testing-tool/src/org/owasp/jsptester/report/ReportGenerator.java:230-239 | one file per cell of the matrix |
| ReportGeneratorTrunk.GenerateAttributeTest | trunk/owasp-jsp-testing-tool/src/org/owasp/jsptester/report/ReportGenerator.java:305-351 | the page of one attribute test, framed by the Configuration's test prefix and suffix for every tag |
| ReportGeneratorTrunk.GenerateComponentTest | trunk/owasp-jsp-testing-tool/src/org/owasp/jsptester/report/ReportGenerator.java:368-413 | the page of one body test, framed the same way |
| ReportGeneratorTrunk.WriteComponentTestFile | trunk/owasp-jsp-testing-tool/src/org/owasp/jsptester/report/ReportGenerator.java:168-194 | the body test goes to tagName-attackName.jsp; the page written is the generated body test framed by the configured test prefix and suffix |
| ReportGeneratorTrunk.WriteAttributeTestFile | trunk/owasp-jsp-testing-tool/src/org/owasp/jsptester/report/ReportGenerator.java:201-227 | the attribute test goes to tagName-attrName-attackName.jsp; the page written is the generated attribute test framed by the configured test prefix and suffix |
| ReportGeneratorTrunk.WriteComponentTests | trunk/owasp-jsp-testing-tool/src/org/owasp/jsptester/report/ReportGenerator.java:168-194 | the body-test files, in attack order |
| ReportGeneratorTrunk.WriteAttributeTests | trunk/owasp-jsp-testing-tool/src/org/owasp/jsptester/report/ReportGenerator.java:201-227 | the files of one attribute, in attack order |
| ReportGeneratorTrunk.WriteAllAttributeTests | trunk/owasp-jsp-testing-tool/src/org/owasp/jsptester/report/ReportGenerator.java:198-228 | the attribute-test files, attribute by attribute |
| ReportGeneratorTrunk.WriteTagTests | trunk/owasp-jsp-testing-tool/src/org/owasp/jsptester/report/ReportGenerator.java:168-228 | a tag's files in matrix order |
| ReportGeneratorTrunk.GenerateTagReport | trunk/owasp-jsp-testing-tool/src/org/owasp/jsptester/report/ReportGenerator.java:132-232 | every tag's files in matrix order with ".jsp", report.html not among them |
| ReportGeneratorTrunk.ReportFileNotListed | trunk/owasp-jsp-testing-tool/src/org/owasp/jsptester/report/ReportGenerator.java:143-157 | report.html is never among the test files, whatever the tags and attacks |
| ReportGeneratorTrunk.SameFilesIffJspExtension | trunk/owasp-jsp-testing-tool/src/org/owasp/jsptester/report/ReportGenerator.java:177-178 | for a non-empty matrix, the later copy lists the same files exactly when its configured extension is ".jsp" |
| ReportGeneratorTrunk.FreshConfigurationSameFiles | trunk/owasp-jsp-testing-tool/src/org/owasp/jsptester/report/ReportGenerator.java:210-212 | with the extension left at its default, both copies list the same files |
| ErrorHandler.EncodeLoop | trunk/owasp-jsp-testing-tool/src/org/owasp/jsptester/report/ErrorHandler.java:131-162 | the loop builds the encoding of the string, character by character |
| ErrorHandler.HtmlEntityEncodeAsWritten | trunk/owasp-jsp-testing-tool/src/org/owasp/jsptester/report/ErrorHandler.java:121-163 | null for null; otherwise the encoding with decimal 20 as the lowest referenced code |
| ErrorHandler.HtmlEntityEncode | trunk/owasp-jsp-testing-tool/src/org/owasp/jsptester/report/ErrorHandler.java:121-163 | the same with the printable range starting at 0x20 |
| ErrorHandler.MarkupCharacters | trunk/owasp-jsp-testing-tool/src/org/owasp/jsptester/report/ErrorHandler.java:136-147 | "&", "<" and ">" become "&amp;", "&lt;" and "&gt;" |
| ErrorHandler.PlainCharactersKept | trunk/owasp-jsp-testing-tool/src/org/owasp/jsptester/report/ErrorHandler.java:148-155 | white space, letters and digits come out unchanged |
| ErrorHandler.EncodedAppend | trunk/owasp-jsp-testing-tool/src/org/owasp/jsptester/report/ErrorHandler.java:131-163 | encode(a + b) = encode(a) + encode(b) |
| ErrorHandler.EncodedNoAngle | trunk/owasp-jsp-testing-tool/src/org/owasp/jsptester/report/ErrorHandler.java:131-163 | the encoding never holds "<" or ">" |
| ErrorHandler.AsWrittenEncodesControlCharacter | trunk/owasp-jsp-testing-tool/src/org/owasp/jsptester/report/ErrorHandler.java:156-161 | as written, U+0014 becomes "&#20;" while U+0013 is dropped |
| ErrorHandler.CorrectedReferencesPrintable | trunk/owasp-jsp-testing-tool/src/org/owasp/jsptester/report/ErrorHandler.java:156-161 | corrected, every numeric reference names printable ASCII and an unkept control character is dropped |
| ErrorHandler.AppendFrames | trunk/owasp-jsp-testing-tool/src/org/owasp/jsptester/report/ErrorHandler.java:101-106 | each frame is appended after the separator, encoded, in order |
| ErrorHandler.BuildStackTraceAsWritten | trunk/owasp-jsp-testing-tool/src/org/owasp/jsptester/report/ErrorHandler.java:88-111 | "Unknown Error" for null; a NullPointerException for a null message; otherwise the encoded message followed by separator + encoded frame for each frame |
| ErrorHandler.BuildStackTrace | trunk/owasp-jsp-testing-tool/src/org/owasp/jsptester/report/ErrorHandler.java:88-111 | corrected: never throws, and a null message contributes nothing |
| ErrorHandler.BuildHtmlStackTraceAsWritten | trunk/owasp-jsp-testing-tool/src/org/owasp/jsptester/report/ErrorHandler.java:72-75 | as written: throws exactly for a throwable with a null message; otherwise the as-written stack trace with "<br>" separators |
| ErrorHandler.BuildTooltipStackTraceAsWritten | trunk/owasp-jsp-testing-tool/src/org/owasp/jsptester/report/ErrorHandler.java:58-61 | as written: throws exactly for a throwable with a null message; otherwise the as-written stack trace with "&#013;" separators |
| ErrorHandler.BuildHtmlStackTrace | trunk/owasp-jsp-testing-tool/src/org/owasp/jsptester/report/ErrorHandler.java:72-75 | corrected: the corrected stack trace with "<br>" separators |
| ErrorHandler.BuildTooltipStackTrace | trunk/owasp-jsp-testing-tool/src/org/owasp/jsptester/report/ErrorHandler.java:58-61 | corrected: the corrected stack trace with "&#013;" separators |
| ErrorHandler.HtmlStackTraceLines | trunk/owasp-jsp-testing-tool/src/org/owasp/jsptester/report/ErrorHandler.java:95-107 | in the HTML flavour the text holds exactly one "<" per frame, all from the line breaks |
| ErrorHandler.TooltipStackTraceNoAngle | trunk/owasp-jsp-testing-tool/src/org/owasp/jsptester/report/ErrorHandler.java:58-61 | the tooltip flavour holds no "<" or ">" |
| ErrorHandler.CorrectedMatchesAsWrittenWithMessage | trunk/owasp-jsp-testing-tool/src/org/owasp/jsptester/report/ErrorHandler.java:92-107 | with a message, and no character of the message or frames in U+0014..U+001F other than white space, letters and digits, the corrected text equals the as-written one |
| ErrorHandler.EncodedBoundsAgree | trunk/owasp-jsp-testing-tool/src/org/owasp/jsptester/report/ErrorHandler.java:156-161 | the two encoder bounds give the same text on every string without such a character |

## Left out

- XML parsing is left out: `TagFileParser.loadTagFile` and the `DocumentBuilder` calls of both AttackLibrary copies. The parsers start from an already parsed element tree.
- The singletons are left out: `Configuration.getInstance`, `AttackLibrary.getInstance`, `ReportGenerator.getInstance`. Callers pass the instance in.
- `Configuration.load` streams and the `Properties` text format are not modelled. The entries arrive as a map.
- `TagProperties.load` and `save` XML files are not modelled. They are a map replaced or handed back.
- The static `DEFAULTS` table is a constant map, so it cannot be written after initialisation.
- `Boolean.getBoolean`, used for a variable's declare element, reads a JVM system property. It is the parameter `getBoolean`.
- `Character.isLetterOrDigit` consults Unicode tables. It is the parameter `isLetterOrDigit` (`JavaLang.IsAsciiLetterOrDigit` is one instance).
- `Character.isWhitespace` is written out for the BMP separators.
- Dead code of both parsers is not modelled: parseValidatorElement, parseListenerElement, parseInitParamElement, parseTagFileElement, parseFunctionElement, parseTagLibExtensionElement, parseExtensionElement. No parse method calls them. Validator, listener, tag-file and function nodes are only collected.
- The FINE-level and stderr "unknown element" log lines are not modelled. Such elements are proved to change nothing. All other logging is left out too.
- The ECS `XML.toString()` rendering is not modelled, since escaping and attribute-map behaviour are not visible. TestCase results are the record of calls made on the builder.
- TestCase.GenerateAttrTestCaseJspTag: reports the element as that record, not the string the source returns.
- Velocity template merging and the ESAPI `JavaScriptCodec` value `encoded_attack` are not modelled. A page is its test, its element, its prefix, its suffix and whether the warning was logged.
- `copyBase`, `generateLibraryReportFile`, `generateTagReportFile`, `generateReport` and the written report.html content are not modelled. The files themselves and `FileWriter` are left out. Methods return the file names in order.
- ReportGenerator.GenerateTagReport: reads the configured extension once, where the source reads it for every file. Nothing changes it while a report is generated.
- ReportGeneratorTrunk.GenerateTagReport: takes `generateTestCaseJspTag` and `generateTagTextTestCaseJspTag` as uninterpreted function parameters, since the trunk TestCase does not define them.
- ReportGenerator.GenerateLibraryReport: requires a non-null tag array. The source would throw a NullPointerException.
- ReportGeneratorTrunk.GenerateTagReport: requires a non-null tag array for the same reason. Both parsers always set one.
- AttackCatalogue.AttackLibrary.GetAttacks: promises no particular order, since `HashMap.values()` has none.
- AttackCatalogue.ParseAttackFile: returns the SAXException beside the library instead of printing its stack trace. The IO and configuration exceptions of the XML parser are not modelled.
- Attack getters are the datatype's fields, and Attack values cannot change.
- The orchestration and GUI code is not part of this model: JspTester, TestCaseSerializer, EmbeddedServer, TestClean, TagPropertiesEditor, TagInfoListCellRenderer and DataBean. Neither is src/org/owasp/jsptester/report/ReportGenerator.java, which only runs Velocity and copies files.
- TldSpec.ParseTldBoolean: its contract does not exclude other 3- and 4-character values such as "TRUE". Only the two accepted words and the length bound are stated.
- Java's `int` is unbounded here. No index or count in the core comes near 2^31.

## Findings

| source | as written | input that shows it | evidently intended | confidence | as-written member | corrected member |
|---|---|---|---|---|---|---|
| trunk/owasp-jsp-testing-tool/src/org/owasp/jsptester/report/ErrorHandler.java:95-96 | the buffer starts as `new StringBuffer(htmlEntityEncode(throwable.getMessage()))`, and htmlEntityEncode(null) is null, so the constructor throws a NullPointerException | a throwable with a null message, e.g. `new NullPointerException()` | a throwable without a message shows its frames alone | not executed | ErrorHandler.BuildStackTraceAsWritten | ErrorHandler.BuildStackTrace |
| trunk/owasp-jsp-testing-tool/src/org/owasp/jsptester/report/ErrorHandler.java:156 | the numeric-reference range starts at decimal 20, so U+0014..U+001B become "&#20;".."&#27;", while U+0000..U+0008 and U+000E..U+0013 are dropped (U+0009..U+000D are white space and kept) | the one-character string U+0014 | the printable range from 0x20 (32); numeric references to C0 controls are not allowed by section 5.3.1 of HTML 4.01 | not executed | ErrorHandler.AsWrittenEncodesControlCharacter | ErrorHandler.CorrectedReferencesPrintable |
