# ProtoZBuffer `.proto` generator — a Dafny model

ProtoZBuffer reads a "protozbuff" schema (messages made of fields and indexes,
and enums made of items) and `ProtoGenerator.Generate(model, writer, ns)` writes
a Protocol Buffers `.proto` text for it to a `TextWriter`. What that text looks
like is fixed by the six expectations of `ProtoGeneratorTest.cs`:

- the document opens with `package <ns>;` and a blank line;
- each message becomes a block `message <Name>Header { ... }`, and its entries
  become lines in declared order;
- a field prints as `<modifier> <type> <name>= <id>[ [default=<v>]];`. A missing
  modifier prints as `required`;
- primitive and enum fields print their own type name;
- a nested-message field prints as `uint32`;
- a referenced-message field prints as `LocalMessageDescriptor`;
- both message-typed kinds are preceded by a comment line `  //` that names the
  `<Type>Header` they stand for;
- an index prints exactly like the field its `forField` names, under its own
  name and id;
- each enum becomes a block `enum <name> { ... }`, one `item;` or `item=<v>;`
  line per item;
- the document always ends with the fixed `LocalMessageDescriptor` block
  (`repeated int32 coordinate = 1 [packed=true];`).

The test helper `StringExtensions.RemoveCarriageReturn` (`str.Replace("\r", "")`)
is modelled too.

The model is layered as follows:

- `SchemaModel` holds the schema values and the lookup of an index's target field.
- `TypeLowering` turns an entry into the one or two statements it prints as, and
  renders and parses those lines.
- `Emitter` builds the blocks and the document, and provides `Check` (are all
  references resolved?) and the total `Generate`.
- `Writer` holds a `StringWriter` class, the sink the tests hand to the
  generator, and `GenerateTo`, which writes the document line by line into it.
- `Text` and `StringExtensions` hold the string helpers (lines, decimal numbers).
- `EmitterProperties` proves the document-level properties.
- `GeneratorTests` proves that each of the six test schemas generates exactly
  the expected text.

Every rendering has a parser as its partner, with a round-trip lemma:
statements, entry lines, enum items, blocks, the whole document, lines and
decimal numbers.

## Model

| member | source | states |
|---|---|---|
| StringExtensions.RemoveCarriageReturn | ProtoZBuffer.Tests/ProtoGeneratorTest.cs:9-12 | the result holds no '\r', keeps every other character with its count, is shorter by exactly the number of '\r', and is the input itself when there was no '\r' |
| StringExtensions.RemoveCarriageReturnAppend | ProtoZBuffer.Tests/ProtoGeneratorTest.cs:9-12 | removal distributes over concatenation, so the order of the kept characters is preserved |
| StringExtensions.RemoveCarriageReturnIdempotent | ProtoZBuffer.Tests/ProtoGeneratorTest.cs:9-12 | a second removal changes nothing |
| SchemaModel.FindField | ProtoZBuffer.Tests/ProtoGeneratorTest.cs:124 | an index's `forField` finds a field entry (not an index) carrying that id, and finds none exactly when no field has that id |
| SchemaModel.FindFieldFirst | ProtoZBuffer.Tests/ProtoGeneratorTest.cs:165 | when ids repeat, the earliest field with the id is the one found |
| TypeLowering.LowerField | ProtoZBuffer.Tests/ProtoGeneratorTest.cs:204-205 | the statement keeps name, id and default; a missing modifier becomes `required`; primitive and enum fields keep their type name; a nested message becomes `uint32` and a referenced message `LocalMessageDescriptor`, both with a comment statement naming `<Type>Header` |
| TypeLowering.EffectiveModifier | ProtoZBuffer.Tests/ProtoGeneratorTest.cs:63 | no contract of its own: a missing modifier is `required`; `LowerField` states it and `NoModifierMeansRequired` shows it on the test schema |
| TypeLowering.HeaderName | ProtoZBuffer.Tests/ProtoGeneratorTest.cs:32 | no contract of its own: a message is named `<Name>Header`; `LowerField` places it in the comment statement and `Blocks` in each message title, and the test lemmas pin the exact text |
| TypeLowering.LowerEntry | ProtoZBuffer.Tests/ProtoGeneratorTest.cs:133-138 | a lowered field or index carries the entry's own name and id |
| TypeLowering.IndexMirrorsTarget | ProtoZBuffer.Tests/ProtoGeneratorTest.cs:176-179 | an index lowers exactly as its target field would under the index's name and id: modifier, category, message type and default all come from the field |
| TypeLowering.LowerAll | ProtoZBuffer.Tests/ProtoGeneratorTest.cs:34-35 | one lowered statement per entry, in declared order |
| TypeLowering.EntryLines | ProtoZBuffer.Tests/ProtoGeneratorTest.cs:135-136 | a plain entry prints one indented line; a message-typed entry prints two, the `  //` comment line first and the indented statement second |
| TypeLowering.RenderEntriesAppend | ProtoZBuffer.Tests/ProtoGeneratorTest.cs:135-138 | the lines of consecutive entries are the concatenation of each entry's lines |
| TypeLowering.ModifierText | ProtoZBuffer.Tests/ProtoGeneratorTest.cs:34 | no contract of its own: the modifier keyword, pinned by `ParseModifierText` |
| TypeLowering.DefaultClause | ProtoZBuffer.Tests/ProtoGeneratorTest.cs:176-177 | no contract of its own: ` [default=<v>]`, or nothing without a default, pinned by `ParseDefaultClause` |
| TypeLowering.StatementText | ProtoZBuffer.Tests/ProtoGeneratorTest.cs:34-35 | no contract of its own: `<modifier> <type> <name>= <id>[ [default=<v>]];`, pinned by `StatementRoundTrip` and, character for character, by the six test lemmas |
| TypeLowering.RenderEntries | ProtoZBuffer.Tests/ProtoGeneratorTest.cs:133-139 | no contract of its own: the body lines of a message, pinned by `RenderEntriesAppend`, `EntriesRoundTrip` and `RenderEntriesIndented` |
| TypeLowering.ParseModifierText | ProtoZBuffer.Tests/ProtoGeneratorTest.cs:34-35 | each modifier keyword reads back as that modifier and holds no space |
| TypeLowering.ParseDefaultClause | ProtoZBuffer.Tests/ProtoGeneratorTest.cs:176-177 | the ` [default=<v>]` clause (or its absence) reads back as the default |
| TypeLowering.NumberedRoundTrip | ProtoZBuffer.Tests/ProtoGeneratorTest.cs:177 | the id and default tail of a statement reads back as the declaration |
| TypeLowering.StatementRoundTrip | ProtoZBuffer.Tests/ProtoGeneratorTest.cs:34-35 | a statement `<modifier> <type> <name>= <id>[ [default=<v>]];` reads back as the declaration it was printed from |
| TypeLowering.ParseSingle | ProtoZBuffer.Tests/ProtoGeneratorTest.cs:143 | an indented statement line reads back as a plain entry |
| TypeLowering.ParseCommented | ProtoZBuffer.Tests/ProtoGeneratorTest.cs:216-217 | a `  //` comment line followed by an indented statement reads back as one message-typed entry |
| TypeLowering.EntriesRoundTrip | ProtoZBuffer.Tests/ProtoGeneratorTest.cs:135-138 | the body lines of a message read back as exactly the lowered entries they were printed from |
| TypeLowering.RenderEntriesIndented | ProtoZBuffer.Tests/ProtoGeneratorTest.cs:134-139 | every body line is indented, so none can be taken for `{` or `}` |
| Emitter.EntryError | ProtoZBuffer.Tests/ProtoGeneratorTest.cs:124 | an entry yields no error exactly when its enum type is declared or its index target exists |
| Emitter.EntriesError | ProtoZBuffer.Tests/ProtoGeneratorTest.cs:122-124 | no error exactly when every entry of the message resolves |
| Emitter.MessagesError | ProtoZBuffer.Tests/ProtoGeneratorTest.cs:120-129 | no error exactly when every message resolves |
| Emitter.Check | ProtoZBuffer.Tests/ProtoGeneratorTest.cs:122-124 | reports no error exactly when the schema is resolved |
| Emitter.ValueClause | ProtoZBuffer.Tests/ProtoGeneratorTest.cs:102 | no contract of its own: `=<v>` for an item with a value, nothing otherwise, pinned by `ItemRoundTrip` |
| Emitter.ItemText | ProtoZBuffer.Tests/ProtoGeneratorTest.cs:101-103 | no contract of its own: `    <item>[=<v>];`, pinned by `ItemRoundTrip` |
| Emitter.ItemLines | ProtoZBuffer.Tests/ProtoGeneratorTest.cs:101-103 | one `item;` / `item=<v>;` line per enum item, in declared order |
| Emitter.ItemRoundTrip | ProtoZBuffer.Tests/ProtoGeneratorTest.cs:102 | an item line reads back as the item's name and optional value |
| Emitter.ItemsRoundTrip | ProtoZBuffer.Tests/ProtoGeneratorTest.cs:99-104 | an enum body reads back as its items' names and values |
| Emitter.RenderBlocksAppend | ProtoZBuffer.Tests/ProtoGeneratorTest.cs:92-109 | the lines of consecutive blocks are the concatenation of each block's lines |
| Emitter.BlockLines | ProtoZBuffer.Tests/ProtoGeneratorTest.cs:37-41 | no contract of its own: a blank line, the title, `{`, the body and `}`, pinned by `ParseBlockCons` |
| Emitter.RenderBlocks | ProtoZBuffer.Tests/ProtoGeneratorTest.cs:31-41 | no contract of its own: the blocks one after another, pinned by `RenderBlocksAppend` and `BlocksRoundTrip` |
| Emitter.MessageBlock | ProtoZBuffer.Tests/ProtoGeneratorTest.cs:32-36 | no contract of its own: `message <Name>Header` over the lowered entries, pinned by `MessageBodyReadsBack` |
| Emitter.EnumBlock | ProtoZBuffer.Tests/ProtoGeneratorTest.cs:99-104 | no contract of its own: `enum <name>` over the item lines, pinned by `EnumBodyReadsBack` |
| Emitter.MessageBlocks | ProtoZBuffer.Tests/ProtoGeneratorTest.cs:133-144 | one `message <Name>Header` block per message, in declared order |
| Emitter.EnumBlocks | ProtoZBuffer.Tests/ProtoGeneratorTest.cs:99-104 | one `enum <name>` block per enum, in declared order |
| Emitter.ResolvedLowerable | ProtoZBuffer.Tests/ProtoGeneratorTest.cs:122-124 | in a resolved schema every entry of every message can be lowered |
| Emitter.Blocks | ProtoZBuffer.Tests/ProtoGeneratorTest.cs:92-110 | all message blocks first, then all enum blocks, then the fixed `LocalMessageDescriptor` block last |
| Emitter.Generate | ProtoZBuffer.Tests/ProtoGeneratorTest.cs:43-44 | produces text exactly when the schema is resolved, and otherwise the error `Check` reports |
| Emitter.PackageLine | ProtoZBuffer.Tests/ProtoGeneratorTest.cs:30 | no contract of its own: `package <ns>;`, pinned by `GenerateFraming` and `DocumentRoundTrip` |
| Emitter.DocumentLines | ProtoZBuffer.Tests/ProtoGeneratorTest.cs:30-42 | no contract of its own: the package line followed by the blocks, pinned by `DocumentRoundTrip` and `GenerateFraming` |
| Emitter.ParseBlockCons | ProtoZBuffer.Tests/ProtoGeneratorTest.cs:37-41 | a blank line, a title, `{`, a body and `}` read back as that one block |
| Emitter.BlocksRoundTrip | ProtoZBuffer.Tests/ProtoGeneratorTest.cs:31-41 | the block lines read back as exactly the blocks printed |
| Emitter.DocumentRoundTrip | ProtoZBuffer.Tests/ProtoGeneratorTest.cs:30-42 | the document lines read back as the package name and the blocks |
| EmitterProperties.GenerateFraming | ProtoZBuffer.Tests/ProtoGeneratorTest.cs:30-41 | generated text starts with `package <ns>;` and a blank line and ends with the `LocalMessageDescriptor` block and `}` plus a newline |
| EmitterProperties.MessageBodyReadsBack | ProtoZBuffer.Tests/ProtoGeneratorTest.cs:133-139 | a message block's body reads back as its lowered entries |
| EmitterProperties.EnumBodyReadsBack | ProtoZBuffer.Tests/ProtoGeneratorTest.cs:99-104 | an enum block's body reads back as its items |
| EmitterProperties.RenderBlocksOneLine | ProtoZBuffer.Tests/ProtoGeneratorTest.cs:212-228 | blocks with identifier names print no embedded newline |
| EmitterProperties.GenerateReadsBack | ProtoZBuffer.Tests/ProtoGeneratorTest.cs:131-150 | splitting the generated text into lines and parsing it gives back the package name and exactly the blocks of the schema |
| EmitterProperties.GeneratedTextHasNoCarriageReturn | ProtoZBuffer.Tests/ProtoGeneratorTest.cs:45 | for a resolved schema whose names are identifiers and whose defaults hold no line break (`PlainNames`), and an identifier namespace, removing carriage returns leaves the generated text unchanged |
| Text.SplitLinesUnlines | ProtoZBuffer.Tests/ProtoGeneratorTest.cs:30-42 | splitting newline-terminated text gives back the lines it was joined from |
| Text.Unlines | ProtoZBuffer.Tests/ProtoGeneratorTest.cs:30-42 | the text is empty exactly when there are no lines, and otherwise ends in a newline; `SplitLinesUnlines` gives the lines back |
| Text.DecimalRoundTrip | ProtoZBuffer.Tests/ProtoGeneratorTest.cs:35 | a field id printed in decimal reads back as the id |
| Text.NatToDecimal | ProtoZBuffer.Tests/ProtoGeneratorTest.cs:35 | a field id prints as one or more digits without a leading zero; `DecimalRoundTrip` reads it back |
| Text.IntRoundTrip | ProtoZBuffer.Tests/ProtoGeneratorTest.cs:87 | an enum value, negative ones included, printed in decimal reads back as the value |
| Text.IntToDecimal | ProtoZBuffer.Tests/ProtoGeneratorTest.cs:102 | an enum value prints as at least one character; `IntRoundTrip` reads it back, negative values included |
| Writer.StringWriter.constructor | ProtoZBuffer.Tests/ProtoGeneratorTest.cs:43 | a new writer holds no text |
| Writer.StringWriter.Write | ProtoZBuffer.Tests/ProtoGeneratorTest.cs:44 | appends the string to the text written so far |
| Writer.StringWriter.WriteLine | ProtoZBuffer.Tests/ProtoGeneratorTest.cs:44 | appends the string and a newline |
| Writer.WriteLines | ProtoZBuffer.Tests/ProtoGeneratorTest.cs:44-45 | writing lines one by one appends exactly their newline-joined text |
| Writer.GenerateTo | ProtoZBuffer.Tests/ProtoGeneratorTest.cs:43-45 | on a resolved schema the writer receives exactly the text `Generate` defines; otherwise the error is returned and the writer is untouched |
| GeneratorTests.MessageWith2Fields | ProtoZBuffer.Tests/ProtoGeneratorTest.cs:18-46 | the two-field `Folder` schema generates exactly the expected text |
| GeneratorTests.NoModifierMeansRequired | ProtoZBuffer.Tests/ProtoGeneratorTest.cs:49-74 | a field without modifier is printed `required` |
| GeneratorTests.EnumTypeForField | ProtoZBuffer.Tests/ProtoGeneratorTest.cs:77-114 | an enum-typed field prints the enum name, and the enum block follows the message blocks, with `item2=42` |
| GeneratorTests.IndexTest | ProtoZBuffer.Tests/ProtoGeneratorTest.cs:117-155 | a referenced-message field and the index on it each print a `FileHeader` comment and a `LocalMessageDescriptor` statement |
| GeneratorTests.IndexWithDefault | ProtoZBuffer.Tests/ProtoGeneratorTest.cs:158-196 | the index carries its target's `[default=foo]` |
| GeneratorTests.NestedMessageTest | ProtoZBuffer.Tests/ProtoGeneratorTest.cs:199-234 | a nested-message field prints a `FileHeader` comment and a `uint32` statement |

## Left out

- The generator's own source file is not part of this model. Its behaviour is
  defined from the six expected outputs in `ProtoGeneratorTest.cs`, and `Generate`
  reproduces each of them exactly.
- XML loading (`ProtozbuffLoader.Load`) is not part of this model. Schemas are
  given as `SchemaModel.Schema` values that are already loaded.
- NUnit and its assertions are left out. Each test becomes a lemma stating
  `Generate(schema, "bar") == Ok(<expected text>)`.
- The `TextWriter` is modelled by the `StringWriter` class. Lines end in "\n"
  rather than `Environment.NewLine`. Every comparison in the tests strips '\r'
  first, and `GeneratedTextHasNoCarriageReturn` shows that this stripping leaves
  the generated text alone.
- Descriptions and an index's `sortBy` are carried in the schema but never
  rendered, as in every expected output.
- Emitter.Generate: an index whose `forField` names no field, or a field whose
  enum type is undeclared, gives an `Err` naming the fault. The expected outputs
  never show what the generator does there (an exception or some text).
- SchemaModel.FindField: when two fields share an id, the first one is used.
  The expected outputs never have duplicate ids.
- EmitterProperties.GenerateReadsBack: requires identifier-like names
  (`PlainNames`). A name holding a newline, `=` or a space would make the
  printed text ambiguous to read back.
- EmitterProperties.GeneratedTextHasNoCarriageReturn: requires the same
  `PlainNames` schema and an identifier namespace. A name or default holding
  '\r' would be printed as it is.
- Enum item values are unbounded integers, printed in C#'s decimal form with a
  leading `-`. 32-bit overflow is not modelled. Field ids are natural numbers.
