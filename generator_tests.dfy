/**
 * The six generator tests of ProtoGeneratorTest.cs: each schema, as the
 * loader would build it from the test's XML, generates exactly the expected
 * text. Each expected text is given as its list of lines; the text is those
 * lines, each followed by a newline. A field line is written as adjacent
 * literals that follow its parts: modifier, type name, name and id, default.
 */
module GeneratorTests {
  import opened Wrappers
  import opened Text
  import opened SchemaModel
  import opened TypeLowering
  import opened Emitter

  // ------------------------------------------------------------ shared steps

  lemma DecimalOne() ensures NatToDecimal(1) == "1" { }
  lemma DecimalTwo() ensures NatToDecimal(2) == "2" { }
  lemma DecimalThree() ensures NatToDecimal(3) == "3" { }
  lemma DecimalFortyTwo() ensures NatToDecimal(42) == "42" { }
  lemma IntFortyTwo() ensures IntToDecimal(42) == "42" { DecimalFortyTwo(); }

  /** Generation succeeds, and its text is `lines`, each closed by a newline. */
  lemma GeneratesLines(s: Schema, ns: string, lines: seq<string>)
    requires Resolved(s) && DocumentLines(ns, Blocks(s)) == lines
    ensures Generate(s, ns) == Ok(Unlines(lines))
  {
  }

  lemma BlocksOfOne(s: Schema)
    requires Resolved(s) && |s.messages| == 1 && s.enums == []
    ensures Lowerables(s.messages[0]) && Blocks(s) == [MessageBlock(s.messages[0]), LocatorBlock]
  {
    var r := Blocks(s);
    assert Lowerables(s.messages[0]) && r[0] == MessageBlock(s.messages[0]);
    assert r == [r[0], r[1]];
  }

  lemma BlocksOfTwo(s: Schema)
    requires Resolved(s) && |s.messages| == 2 && s.enums == []
    ensures Lowerables(s.messages[0]) && Lowerables(s.messages[1])
    ensures Blocks(s) == [MessageBlock(s.messages[0]), MessageBlock(s.messages[1]), LocatorBlock]
  {
    var r := Blocks(s);
    assert Lowerables(s.messages[0]) && r[0] == MessageBlock(s.messages[0]);
    assert Lowerables(s.messages[1]) && r[1] == MessageBlock(s.messages[1]);
    assert r == [r[0], r[1], r[2]];
  }

  lemma BlocksOfMessageAndEnum(s: Schema)
    requires Resolved(s) && |s.messages| == 1 && |s.enums| == 1
    ensures Lowerables(s.messages[0])
    ensures Blocks(s) == [MessageBlock(s.messages[0]), EnumBlock(s.enums[0]), LocatorBlock]
  {
    var r := Blocks(s);
    assert Lowerables(s.messages[0]) && r[0] == MessageBlock(s.messages[0]);
    assert r[1 + 0] == EnumBlock(s.enums[0]);
    assert r == [r[0], r[1], r[2]];
  }

  lemma DocumentOfTwo(ns: string, pkg: string, a: Block, b: Block)
    requires PackageLine(ns) == pkg
    ensures DocumentLines(ns, [a, b]) ==
      [pkg, "", a.title, "{"] + a.body + ["}", "", b.title, "{"] + b.body + ["}"]
  {
    assert [a, b][1..] == [b];
    assert [b][1..] == [];
    assert RenderBlocks([b]) == BlockLines(b) + RenderBlocks([]);
    assert RenderBlocks([a, b]) == BlockLines(a) + BlockLines(b);
  }

  lemma DocumentOfThree(ns: string, pkg: string, a: Block, b: Block, c: Block)
    requires PackageLine(ns) == pkg
    ensures DocumentLines(ns, [a, b, c]) ==
      [pkg, "", a.title, "{"] + a.body + ["}", "", b.title, "{"] + b.body +
      ["}", "", c.title, "{"] + c.body + ["}"]
  {
    assert [a, b, c][1..] == [b, c];
    DocumentOfTwo(ns, pkg, b, c);
    assert RenderBlocks([a, b, c]) == BlockLines(a) + RenderBlocks([b, c]);
  }

  lemma PackageBar()
    ensures PackageLine("bar") == "package bar;"
  {
  }

  lemma LocatorLines()
    ensures LocatorBlock.title == "message LocalMessageDescriptor"
    ensures LocatorBlock.body == ["    repeated int32 coordinate" + " = 1 [packed=true];"]
  {
  }

  lemma HeaderTitles()
    ensures "message " + HeaderName("Folder") == "message FolderHeader"
    ensures "message " + HeaderName("File") == "message FileHeader"
  {
  }

  lemma MessageBlockIs(m: Message, ls: seq<Lowered>, title: string, lines: seq<string>)
    requires Lowerables(m) && LowerAll(m.entries, m.entries) == ls
    requires "message " + HeaderName(m.name) == title && RenderEntries(ls) == lines
    ensures MessageBlock(m) == Block(title, lines)
  {
  }

  /**
   * A field line is the marker, the modifier, the type token, the name and
   * id, then the default clause and `;`.
   */
  lemma FieldLineParts(marker: string, d: Decl, prefix: string, rest: string, tail: string)
    requires marker + ModifierText(d.modifier) + " " == prefix
    requires " " + d.name + "= " + NatToDecimal(d.id) == rest
    requires DefaultClause(d.default) + ";" == tail
    ensures marker + StatementText(d) == prefix + d.typeToken + rest + tail
  {
  }

  lemma SingleLine(d: Decl, line: string)
    requires FieldIndent + StatementText(d) == line
    ensures EntryLines(Single(d)) == [line]
  {
  }

  lemma CommentedLines(h: Decl, d: Decl, hintLine: string, line: string)
    requires CommentMarker + StatementText(h) == hintLine && FieldIndent + StatementText(d) == line
    ensures EntryLines(Commented(h, d)) == [hintLine, line]
  {
  }

  lemma RenderOne(a: Lowered, lines: seq<string>)
    requires EntryLines(a) == lines
    ensures RenderEntries([a]) == lines
  {
    assert [a][1..] == [];
  }

  lemma RenderTwo(a: Lowered, b: Lowered, la: seq<string>, lb: seq<string>)
    requires EntryLines(a) == la && EntryLines(b) == lb
    ensures RenderEntries([a, b]) == la + lb
  {
    assert [a, b][1..] == [b];
    RenderOne(b, lb);
  }

  // ------------------------------------------------------ MessageWith2Fields

  const FolderWith2Fields: Schema :=
    Schema([Message("Folder", "Document definition", [
      F(Field(1, "name", Some(Required), Primitive("string"), None, "Folder Name.")),
      F(Field(42, "size", Some(Optional), Primitive("int64"), None, "Folder size."))])], [])

  const FolderWith2FieldsText: seq<string> := [
    "package bar;",
    "",
    "message FolderHeader",
    "{",
    "    required " + "string" + " name= 1" + ";",
    "    optional " + "int64" + " size= 42" + ";",
    "}",
    "",
    "message LocalMessageDescriptor",
    "{",
    "    repeated int32 coordinate" + " = 1 [packed=true];",
    "}"]

  lemma FolderWith2FieldsLowered()
    ensures Resolved(FolderWith2Fields)
    ensures var m := FolderWith2Fields.messages[0];
      Lowerables(m) &&
      LowerAll(m.entries, m.entries) ==
        [Single(Decl(Required, "string", "name", 1, None)), Single(Decl(Optional, "int64", "size", 42, None))]
  {
  }

  lemma FolderWith2FieldsLine1()
    ensures FieldIndent + StatementText(Decl(Required, "string", "name", 1, None))
         == "    required " + "string" + " name= 1" + ";"
  {
    DecimalOne();
    FieldLineParts(FieldIndent, Decl(Required, "string", "name", 1, None), "    required ", " name= 1", ";");
  }

  lemma FolderWith2FieldsLine2()
    ensures FieldIndent + StatementText(Decl(Optional, "int64", "size", 42, None))
         == "    optional " + "int64" + " size= 42" + ";"
  {
    DecimalFortyTwo();
    FieldLineParts(FieldIndent, Decl(Optional, "int64", "size", 42, None), "    optional ", " size= 42", ";");
  }

  /** Two primitive fields, in declared order, with their own modifiers. */
  lemma MessageWith2Fields()
    ensures Generate(FolderWith2Fields, "bar") == Ok(Unlines(FolderWith2FieldsText))
  {
    var s := FolderWith2Fields;
    var d1, d2 := Decl(Required, "string", "name", 1, None), Decl(Optional, "int64", "size", 42, None);
    var l1, l2 := "    required " + "string" + " name= 1" + ";", "    optional " + "int64" + " size= 42" + ";";
    FolderWith2FieldsLowered();
    FolderWith2FieldsLine1();
    FolderWith2FieldsLine2();
    SingleLine(d1, l1);
    SingleLine(d2, l2);
    RenderTwo(Single(d1), Single(d2), [l1], [l2]);
    HeaderTitles();
    MessageBlockIs(s.messages[0], [Single(d1), Single(d2)], "message FolderHeader", [l1] + [l2]);
    BlocksOfOne(s);
    PackageBar();
    DocumentOfTwo("bar", "package bar;", Block("message FolderHeader", [l1] + [l2]), LocatorBlock);
    LocatorLines();
    GeneratesLines(s, "bar", FolderWith2FieldsText);
  }

  // ------------------------------------------------- NoModifierMeansRequired

  const FolderWithoutModifier: Schema :=
    Schema([Message("Folder", "Document definition", [
      F(Field(1, "size", None, Primitive("double"), None, "Folder size."))])], [])

  const FolderWithoutModifierText: seq<string> := [
    "package bar;",
    "",
    "message FolderHeader",
    "{",
    "    required " + "double" + " size= 1" + ";",
    "}",
    "",
    "message LocalMessageDescriptor",
    "{",
    "    repeated int32 coordinate" + " = 1 [packed=true];",
    "}"]

  lemma FolderWithoutModifierLowered()
    ensures Resolved(FolderWithoutModifier)
    ensures var m := FolderWithoutModifier.messages[0];
      Lowerables(m) && LowerAll(m.entries, m.entries) == [Single(Decl(Required, "double", "size", 1, None))]
  {
  }

  lemma FolderWithoutModifierLine()
    ensures FieldIndent + StatementText(Decl(Required, "double", "size", 1, None))
         == "    required " + "double" + " size= 1" + ";"
  {
    DecimalOne();
    FieldLineParts(FieldIndent, Decl(Required, "double", "size", 1, None), "    required ", " size= 1", ";");
  }

  /** A field without a modifier attribute is declared `required`. */
  lemma NoModifierMeansRequired()
    ensures Generate(FolderWithoutModifier, "bar") == Ok(Unlines(FolderWithoutModifierText))
  {
    var s := FolderWithoutModifier;
    var d := Decl(Required, "double", "size", 1, None);
    var l1 := "    required " + "double" + " size= 1" + ";";
    FolderWithoutModifierLowered();
    FolderWithoutModifierLine();
    SingleLine(d, l1);
    RenderOne(Single(d), [l1]);
    HeaderTitles();
    MessageBlockIs(s.messages[0], [Single(d)], "message FolderHeader", [l1]);
    BlocksOfOne(s);
    PackageBar();
    DocumentOfTwo("bar", "package bar;", Block("message FolderHeader", [l1]), LocatorBlock);
    LocatorLines();
    GeneratesLines(s, "bar", FolderWithoutModifierText);
  }

  // -------------------------------------------------------- EnumTypeForField

  const FolderWithEnum: Schema :=
    Schema([Message("Folder", "Document definition", [
      F(Field(1, "name", Some(Required), EnumType("my_enum"), None, "Folder Name."))])],
      [Enum("my_enum", "description of my enum", [
        EnumItem("item1", "first item", None),
        EnumItem("item2", "second item", Some(42)),
        EnumItem("item3", "third item", None)])])

  const FolderWithEnumText: seq<string> := [
    "package bar;",
    "",
    "message FolderHeader",
    "{",
    "    required " + "my_enum" + " name= 1" + ";",
    "}",
    "",
    "enum my_enum",
    "{",
    "    item1;",
    "    item2=42;",
    "    item3;",
    "}",
    "",
    "message LocalMessageDescriptor",
    "{",
    "    repeated int32 coordinate" + " = 1 [packed=true];",
    "}"]

  lemma FolderWithEnumLowered()
    ensures Resolved(FolderWithEnum)
    ensures var m := FolderWithEnum.messages[0];
      Lowerables(m) && LowerAll(m.entries, m.entries) == [Single(Decl(Required, "my_enum", "name", 1, None))]
  {
    assert FolderWithEnum.enums[0] in FolderWithEnum.enums;
  }

  lemma FolderWithEnumLine()
    ensures FieldIndent + StatementText(Decl(Required, "my_enum", "name", 1, None))
         == "    required " + "my_enum" + " name= 1" + ";"
  {
    DecimalOne();
    FieldLineParts(FieldIndent, Decl(Required, "my_enum", "name", 1, None), "    required ", " name= 1", ";");
  }

  lemma MyEnumItem1()
    ensures ItemText(FolderWithEnum.enums[0].items[0]) == "    item1;"
  {
  }

  lemma MyEnumItem2()
    ensures ItemText(FolderWithEnum.enums[0].items[1]) == "    item2=42;"
  {
    IntFortyTwo();
  }

  lemma MyEnumItem3()
    ensures ItemText(FolderWithEnum.enums[0].items[2]) == "    item3;"
  {
  }

  lemma MyEnumBlock()
    ensures EnumBlock(FolderWithEnum.enums[0]) == Block("enum my_enum", ["    item1;", "    item2=42;", "    item3;"])
  {
    var e := FolderWithEnum.enums[0];
    MyEnumItem1();
    MyEnumItem2();
    MyEnumItem3();
    assert ItemLines(e.items) == ["    item1;", "    item2=42;", "    item3;"];
  }

  lemma FolderWithEnumTextParts()
    ensures ["package bar;", "", "message FolderHeader", "{"] + ["    required " + "my_enum" + " name= 1" + ";"] +
      ["}", "", "enum my_enum", "{"] + ["    item1;", "    item2=42;", "    item3;"] +
      ["}", "", "message LocalMessageDescriptor", "{"] + ["    repeated int32 coordinate" + " = 1 [packed=true];"] + ["}"]
      == FolderWithEnumText
  {
  }

  /** A field of enum type is declared with the enum's name; enums follow the messages. */
  lemma EnumTypeForField()
    ensures Generate(FolderWithEnum, "bar") == Ok(Unlines(FolderWithEnumText))
  {
    var s := FolderWithEnum;
    var d := Decl(Required, "my_enum", "name", 1, None);
    var l1 := "    required " + "my_enum" + " name= 1" + ";";
    FolderWithEnumLowered();
    FolderWithEnumLine();
    SingleLine(d, l1);
    RenderOne(Single(d), [l1]);
    HeaderTitles();
    MessageBlockIs(s.messages[0], [Single(d)], "message FolderHeader", [l1]);
    MyEnumBlock();
    BlocksOfMessageAndEnum(s);
    PackageBar();
    DocumentOfThree("bar", "package bar;", Block("message FolderHeader", [l1]),
      Block("enum my_enum", ["    item1;", "    item2=42;", "    item3;"]), LocatorBlock);
    LocatorLines();
    FolderWithEnumTextParts();
    GeneratesLines(s, "bar", FolderWithEnumText);
  }

  // ------------------------------------------------------------------- Index

  const FolderWithIndex: Schema :=
    Schema([
      Message("Folder", "Document definition", [
        F(Field(1, "name", Some(Repeated), ReferenceMessage("File"), None, "Folder Name.")),
        I(Index(2, "my_index", 1, "filename"))]),
      Message("File", "File desc", [
        F(Field(3, "filename", Some(Required), Primitive("string"), None, ""))])], [])

  const FolderWithIndexText: seq<string> := [
    "package bar;",
    "",
    "message FolderHeader",
    "{",
    "  //repeated " + "FileHeader" + " name= 1" + ";",
    "    repeated " + "LocalMessageDescriptor" + " name= 1" + ";",
    "  //repeated " + "FileHeader" + " my_index= 2" + ";",
    "    repeated " + "LocalMessageDescriptor" + " my_index= 2" + ";",
    "}",
    "",
    "message FileHeader",
    "{",
    "    required " + "string" + " filename= 3" + ";",
    "}",
    "",
    "message LocalMessageDescriptor",
    "{",
    "    repeated int32 coordinate" + " = 1 [packed=true];",
    "}"]

  lemma FolderWithIndexResolved()
    ensures Resolved(FolderWithIndex)
  {
    var es := FolderWithIndex.messages[0].entries;
    assert FindField(es, 1) == Some(es[0].field);
  }

  lemma FolderWithIndexFolderLowered()
    ensures var m := FolderWithIndex.messages[0];
      Lowerables(m) && LowerAll(m.entries, m.entries) == [
        Commented(Decl(Repeated, "FileHeader", "name", 1, None), Decl(Repeated, LocatorType, "name", 1, None)),
        Commented(Decl(Repeated, "FileHeader", "my_index", 2, None), Decl(Repeated, LocatorType, "my_index", 2, None))]
  {
    var es := FolderWithIndex.messages[0].entries;
    assert FindField(es, 1) == Some(es[0].field);
    assert Lowerables(FolderWithIndex.messages[0]);
    assert HeaderName("File") == "FileHeader";
    var ls := LowerAll(es, es);
    assert ls[0] == LowerField(Some(Repeated), ReferenceMessage("File"), None, "name", 1);
    assert ls[1] == LowerField(Some(Repeated), ReferenceMessage("File"), None, "my_index", 2);
    assert ls == [ls[0], ls[1]];
  }

  lemma FolderWithIndexFileLowered()
    ensures var m := FolderWithIndex.messages[1];
      Lowerables(m) && LowerAll(m.entries, m.entries) == [Single(Decl(Required, "string", "filename", 3, None))]
  {
  }

  lemma FolderWithIndexLine1()
    ensures CommentMarker + StatementText(Decl(Repeated, "FileHeader", "name", 1, None))
         == "  //repeated " + "FileHeader" + " name= 1" + ";"
  {
    DecimalOne();
    FieldLineParts(CommentMarker, Decl(Repeated, "FileHeader", "name", 1, None), "  //repeated ", " name= 1", ";");
  }

  lemma FolderWithIndexLine2()
    ensures FieldIndent + StatementText(Decl(Repeated, LocatorType, "name", 1, None))
         == "    repeated " + "LocalMessageDescriptor" + " name= 1" + ";"
  {
    DecimalOne();
    FieldLineParts(FieldIndent, Decl(Repeated, LocatorType, "name", 1, None), "    repeated ", " name= 1", ";");
  }

  lemma FolderWithIndexLine3()
    ensures CommentMarker + StatementText(Decl(Repeated, "FileHeader", "my_index", 2, None))
         == "  //repeated " + "FileHeader" + " my_index= 2" + ";"
  {
    DecimalTwo();
    FieldLineParts(CommentMarker, Decl(Repeated, "FileHeader", "my_index", 2, None), "  //repeated ", " my_index= 2", ";");
  }

  lemma FolderWithIndexLine4()
    ensures FieldIndent + StatementText(Decl(Repeated, LocatorType, "my_index", 2, None))
         == "    repeated " + "LocalMessageDescriptor" + " my_index= 2" + ";"
  {
    DecimalTwo();
    FieldLineParts(FieldIndent, Decl(Repeated, LocatorType, "my_index", 2, None), "    repeated ", " my_index= 2", ";");
  }

  lemma FolderWithIndexLine5()
    ensures FieldIndent + StatementText(Decl(Required, "string", "filename", 3, None))
         == "    required " + "string" + " filename= 3" + ";"
  {
    DecimalThree();
    FieldLineParts(FieldIndent, Decl(Required, "string", "filename", 3, None), "    required ", " filename= 3", ";");
  }

  lemma FolderWithIndexTextParts(folder: seq<string>, file: seq<string>)
    requires folder == ["  //repeated " + "FileHeader" + " name= 1" + ";", "    repeated " + "LocalMessageDescriptor" + " name= 1" + ";"] +
      ["  //repeated " + "FileHeader" + " my_index= 2" + ";", "    repeated " + "LocalMessageDescriptor" + " my_index= 2" + ";"]
    requires file == ["    required " + "string" + " filename= 3" + ";"]
    ensures ["package bar;", "", "message FolderHeader", "{"] + folder +
      ["}", "", "message FileHeader", "{"] + file +
      ["}", "", "message LocalMessageDescriptor", "{"] + ["    repeated int32 coordinate" + " = 1 [packed=true];"] + ["}"]
      == FolderWithIndexText
  {
  }

  /**
   * A field referring to another message is declared with the locator type,
   * after a comment naming the referenced header; the index mirrors it.
   */
  lemma IndexTest()
    ensures Generate(FolderWithIndex, "bar") == Ok(Unlines(FolderWithIndexText))
  {
    var s := FolderWithIndex;
    var h1, d1 := Decl(Repeated, "FileHeader", "name", 1, None), Decl(Repeated, LocatorType, "name", 1, None);
    var h2, d2 := Decl(Repeated, "FileHeader", "my_index", 2, None), Decl(Repeated, LocatorType, "my_index", 2, None);
    var d3 := Decl(Required, "string", "filename", 3, None);
    var l1, l2 := "  //repeated " + "FileHeader" + " name= 1" + ";", "    repeated " + "LocalMessageDescriptor" + " name= 1" + ";";
    var l3, l4 := "  //repeated " + "FileHeader" + " my_index= 2" + ";", "    repeated " + "LocalMessageDescriptor" + " my_index= 2" + ";";
    var l5 := "    required " + "string" + " filename= 3" + ";";
    FolderWithIndexResolved();
    FolderWithIndexFolderLowered();
    FolderWithIndexFileLowered();
    FolderWithIndexLine1();
    FolderWithIndexLine2();
    FolderWithIndexLine3();
    FolderWithIndexLine4();
    FolderWithIndexLine5();
    CommentedLines(h1, d1, l1, l2);
    CommentedLines(h2, d2, l3, l4);
    SingleLine(d3, l5);
    RenderTwo(Commented(h1, d1), Commented(h2, d2), [l1, l2], [l3, l4]);
    RenderOne(Single(d3), [l5]);
    HeaderTitles();
    MessageBlockIs(s.messages[0], [Commented(h1, d1), Commented(h2, d2)], "message FolderHeader", [l1, l2] + [l3, l4]);
    MessageBlockIs(s.messages[1], [Single(d3)], "message FileHeader", [l5]);
    BlocksOfTwo(s);
    PackageBar();
    DocumentOfThree("bar", "package bar;", Block("message FolderHeader", [l1, l2] + [l3, l4]),
      Block("message FileHeader", [l5]), LocatorBlock);
    LocatorLines();
    FolderWithIndexTextParts([l1, l2] + [l3, l4], [l5]);
    GeneratesLines(s, "bar", FolderWithIndexText);
  }

  // -------------------------------------------------------- IndexWithDefault

  const FolderWithDefault: Schema :=
    Schema([
      Message("Folder", "Document definition", [
        F(Field(1, "name", Some(Repeated), ReferenceMessage("File"), Some("foo"), "Folder Name.")),
        I(Index(2, "my_index", 1, "filename"))]),
      Message("File", "File desc", [
        F(Field(3, "filename", Some(Required), Primitive("string"), None, ""))])], [])

  const FolderWithDefaultText: seq<string> := [
    "package bar;",
    "",
    "message FolderHeader",
    "{",
    "  //repeated " + "FileHeader" + " name= 1" + " [default=foo];",
    "    repeated " + "LocalMessageDescriptor" + " name= 1" + " [default=foo];",
    "  //repeated " + "FileHeader" + " my_index= 2" + " [default=foo];",
    "    repeated " + "LocalMessageDescriptor" + " my_index= 2" + " [default=foo];",
    "}",
    "",
    "message FileHeader",
    "{",
    "    required " + "string" + " filename= 3" + ";",
    "}",
    "",
    "message LocalMessageDescriptor",
    "{",
    "    repeated int32 coordinate" + " = 1 [packed=true];",
    "}"]

  lemma FolderWithDefaultResolved()
    ensures Resolved(FolderWithDefault)
  {
    var es := FolderWithDefault.messages[0].entries;
    assert FindField(es, 1) == Some(es[0].field);
  }

  lemma FolderWithDefaultFolderLowered()
    ensures var m := FolderWithDefault.messages[0];
      Lowerables(m) && LowerAll(m.entries, m.entries) == [
        Commented(Decl(Repeated, "FileHeader", "name", 1, Some("foo")), Decl(Repeated, LocatorType, "name", 1, Some("foo"))),
        Commented(Decl(Repeated, "FileHeader", "my_index", 2, Some("foo")), Decl(Repeated, LocatorType, "my_index", 2, Some("foo")))]
  {
    var es := FolderWithDefault.messages[0].entries;
    assert FindField(es, 1) == Some(es[0].field);
    assert Lowerables(FolderWithDefault.messages[0]);
    assert HeaderName("File") == "FileHeader";
    var ls := LowerAll(es, es);
    assert ls[0] == LowerField(Some(Repeated), ReferenceMessage("File"), Some("foo"), "name", 1);
    assert ls[1] == LowerField(Some(Repeated), ReferenceMessage("File"), Some("foo"), "my_index", 2);
    assert ls == [ls[0], ls[1]];
  }

  lemma FolderWithDefaultFileLowered()
    ensures var m := FolderWithDefault.messages[1];
      Lowerables(m) && LowerAll(m.entries, m.entries) == [Single(Decl(Required, "string", "filename", 3, None))]
  {
  }

  lemma DefaultFoo()
    ensures DefaultClause(Some("foo")) == " [default=foo]"
  {
  }

  lemma FolderWithDefaultLine1()
    ensures CommentMarker + StatementText(Decl(Repeated, "FileHeader", "name", 1, Some("foo")))
         == "  //repeated " + "FileHeader" + " name= 1" + " [default=foo];"
  {
    DecimalOne();
    DefaultFoo();
    FieldLineParts(CommentMarker, Decl(Repeated, "FileHeader", "name", 1, Some("foo")), "  //repeated ", " name= 1", " [default=foo];");
  }

  lemma FolderWithDefaultLine2()
    ensures FieldIndent + StatementText(Decl(Repeated, LocatorType, "name", 1, Some("foo")))
         == "    repeated " + "LocalMessageDescriptor" + " name= 1" + " [default=foo];"
  {
    DecimalOne();
    DefaultFoo();
    FieldLineParts(FieldIndent, Decl(Repeated, LocatorType, "name", 1, Some("foo")), "    repeated ", " name= 1", " [default=foo];");
  }

  lemma FolderWithDefaultLine3()
    ensures CommentMarker + StatementText(Decl(Repeated, "FileHeader", "my_index", 2, Some("foo")))
         == "  //repeated " + "FileHeader" + " my_index= 2" + " [default=foo];"
  {
    DecimalTwo();
    DefaultFoo();
    FieldLineParts(CommentMarker, Decl(Repeated, "FileHeader", "my_index", 2, Some("foo")), "  //repeated ", " my_index= 2", " [default=foo];");
  }

  lemma FolderWithDefaultLine4()
    ensures FieldIndent + StatementText(Decl(Repeated, LocatorType, "my_index", 2, Some("foo")))
         == "    repeated " + "LocalMessageDescriptor" + " my_index= 2" + " [default=foo];"
  {
    DecimalTwo();
    DefaultFoo();
    FieldLineParts(FieldIndent, Decl(Repeated, LocatorType, "my_index", 2, Some("foo")), "    repeated ", " my_index= 2", " [default=foo];");
  }

  lemma FolderWithDefaultTextParts(folder: seq<string>, file: seq<string>)
    requires folder ==
      ["  //repeated " + "FileHeader" + " name= 1" + " [default=foo];",
       "    repeated " + "LocalMessageDescriptor" + " name= 1" + " [default=foo];"] +
      ["  //repeated " + "FileHeader" + " my_index= 2" + " [default=foo];",
       "    repeated " + "LocalMessageDescriptor" + " my_index= 2" + " [default=foo];"]
    requires file == ["    required " + "string" + " filename= 3" + ";"]
    ensures ["package bar;", "", "message FolderHeader", "{"] + folder +
      ["}", "", "message FileHeader", "{"] + file +
      ["}", "", "message LocalMessageDescriptor", "{"] + ["    repeated int32 coordinate" + " = 1 [packed=true];"] + ["}"]
      == FolderWithDefaultText
  {
  }

  /** The referenced field's default is carried by both its lines and by the index's. */
  lemma IndexWithDefault()
    ensures Generate(FolderWithDefault, "bar") == Ok(Unlines(FolderWithDefaultText))
  {
    var s := FolderWithDefault;
    var h1, d1 := Decl(Repeated, "FileHeader", "name", 1, Some("foo")), Decl(Repeated, LocatorType, "name", 1, Some("foo"));
    var h2, d2 := Decl(Repeated, "FileHeader", "my_index", 2, Some("foo")), Decl(Repeated, LocatorType, "my_index", 2, Some("foo"));
    var d3 := Decl(Required, "string", "filename", 3, None);
    var l1 := "  //repeated " + "FileHeader" + " name= 1" + " [default=foo];";
    var l2 := "    repeated " + "LocalMessageDescriptor" + " name= 1" + " [default=foo];";
    var l3 := "  //repeated " + "FileHeader" + " my_index= 2" + " [default=foo];";
    var l4 := "    repeated " + "LocalMessageDescriptor" + " my_index= 2" + " [default=foo];";
    var l5 := "    required " + "string" + " filename= 3" + ";";
    FolderWithDefaultResolved();
    FolderWithDefaultFolderLowered();
    FolderWithDefaultFileLowered();
    FolderWithDefaultLine1();
    FolderWithDefaultLine2();
    FolderWithDefaultLine3();
    FolderWithDefaultLine4();
    FolderWithIndexLine5();
    CommentedLines(h1, d1, l1, l2);
    CommentedLines(h2, d2, l3, l4);
    SingleLine(d3, l5);
    RenderTwo(Commented(h1, d1), Commented(h2, d2), [l1, l2], [l3, l4]);
    RenderOne(Single(d3), [l5]);
    HeaderTitles();
    MessageBlockIs(s.messages[0], [Commented(h1, d1), Commented(h2, d2)], "message FolderHeader", [l1, l2] + [l3, l4]);
    MessageBlockIs(s.messages[1], [Single(d3)], "message FileHeader", [l5]);
    BlocksOfTwo(s);
    PackageBar();
    DocumentOfThree("bar", "package bar;", Block("message FolderHeader", [l1, l2] + [l3, l4]),
      Block("message FileHeader", [l5]), LocatorBlock);
    LocatorLines();
    FolderWithDefaultTextParts([l1, l2] + [l3, l4], [l5]);
    GeneratesLines(s, "bar", FolderWithDefaultText);
  }

  // ----------------------------------------------------------- NestedMessage

  const FolderWithNested: Schema :=
    Schema([
      Message("Folder", "Document definition", [
        F(Field(1, "name", Some(Required), NestedMessage("File"), None, "Folder Name."))]),
      Message("File", "File desc", [
        F(Field(2, "filename", Some(Required), Primitive("string"), None, ""))])], [])

  const FolderWithNestedText: seq<string> := [
    "package bar;",
    "",
    "message FolderHeader",
    "{",
    "  //required " + "FileHeader" + " name= 1" + ";",
    "    required " + "uint32" + " name= 1" + ";",
    "}",
    "",
    "message FileHeader",
    "{",
    "    required " + "string" + " filename= 2" + ";",
    "}",
    "",
    "message LocalMessageDescriptor",
    "{",
    "    repeated int32 coordinate" + " = 1 [packed=true];",
    "}"]

  lemma FolderWithNestedLowered()
    ensures Resolved(FolderWithNested)
    ensures var m := FolderWithNested.messages[0];
      Lowerables(m) && LowerAll(m.entries, m.entries) ==
        [Commented(Decl(Required, "FileHeader", "name", 1, None), Decl(Required, HandleType, "name", 1, None))]
    ensures var m := FolderWithNested.messages[1];
      Lowerables(m) && LowerAll(m.entries, m.entries) == [Single(Decl(Required, "string", "filename", 2, None))]
  {
    assert HeaderName("File") == "FileHeader";
  }

  lemma FolderWithNestedLine1()
    ensures CommentMarker + StatementText(Decl(Required, "FileHeader", "name", 1, None))
         == "  //required " + "FileHeader" + " name= 1" + ";"
  {
    DecimalOne();
    FieldLineParts(CommentMarker, Decl(Required, "FileHeader", "name", 1, None), "  //required ", " name= 1", ";");
  }

  lemma FolderWithNestedLine2()
    ensures FieldIndent + StatementText(Decl(Required, HandleType, "name", 1, None))
         == "    required " + "uint32" + " name= 1" + ";"
  {
    DecimalOne();
    FieldLineParts(FieldIndent, Decl(Required, HandleType, "name", 1, None), "    required ", " name= 1", ";");
  }

  lemma FolderWithNestedLine3()
    ensures FieldIndent + StatementText(Decl(Required, "string", "filename", 2, None))
         == "    required " + "string" + " filename= 2" + ";"
  {
    DecimalTwo();
    FieldLineParts(FieldIndent, Decl(Required, "string", "filename", 2, None), "    required ", " filename= 2", ";");
  }

  lemma FolderWithNestedTextParts(folder: seq<string>, file: seq<string>)
    requires folder == ["  //required " + "FileHeader" + " name= 1" + ";", "    required " + "uint32" + " name= 1" + ";"]
    requires file == ["    required " + "string" + " filename= 2" + ";"]
    ensures ["package bar;", "", "message FolderHeader", "{"] + folder +
      ["}", "", "message FileHeader", "{"] + file +
      ["}", "", "message LocalMessageDescriptor", "{"] + ["    repeated int32 coordinate" + " = 1 [packed=true];"] + ["}"]
      == FolderWithNestedText
  {
  }

  /**
   * A nested message field is declared as a 32-bit handle, after a comment
   * naming the nested message's header.
   */
  lemma NestedMessageTest()
    ensures Generate(FolderWithNested, "bar") == Ok(Unlines(FolderWithNestedText))
  {
    var s := FolderWithNested;
    var h1, d1 := Decl(Required, "FileHeader", "name", 1, None), Decl(Required, HandleType, "name", 1, None);
    var d2 := Decl(Required, "string", "filename", 2, None);
    var l1, l2 := "  //required " + "FileHeader" + " name= 1" + ";", "    required " + "uint32" + " name= 1" + ";";
    var l3 := "    required " + "string" + " filename= 2" + ";";
    FolderWithNestedLowered();
    FolderWithNestedLine1();
    FolderWithNestedLine2();
    FolderWithNestedLine3();
    CommentedLines(h1, d1, l1, l2);
    SingleLine(d2, l3);
    RenderOne(Commented(h1, d1), [l1, l2]);
    RenderOne(Single(d2), [l3]);
    HeaderTitles();
    MessageBlockIs(s.messages[0], [Commented(h1, d1)], "message FolderHeader", [l1, l2]);
    MessageBlockIs(s.messages[1], [Single(d2)], "message FileHeader", [l3]);
    BlocksOfTwo(s);
    PackageBar();
    DocumentOfThree("bar", "package bar;", Block("message FolderHeader", [l1, l2]),
      Block("message FileHeader", [l3]), LocatorBlock);
    LocatorLines();
    FolderWithNestedTextParts([l1, l2], [l3]);
    GeneratesLines(s, "bar", FolderWithNestedText);
  }
}
