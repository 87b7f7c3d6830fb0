/**
 * What the generated text promises as a whole: it is framed by the package
 * line and the locator message, it reads back into exactly the blocks the
 * schema calls for, every message body reads back into its lowered entries in
 * declared order, and it never contains a carriage return.
 */
module EmitterProperties {
  import opened Wrappers
  import opened Text
  import opened StringExtensions
  import opened SchemaModel
  import opened TypeLowering
  import opened Emitter

  /** The lines of the closing locator message. */
  const TrailerLines: seq<string> := ["message LocalMessageDescriptor", "{", LocatorLine, "}"]

  predicate EndsWith(t: string, suffix: string)
  {
    |suffix| <= |t| && t[|t| - |suffix|..] == suffix
  }

  /**
   * Whatever the schema, the output opens with `package <ns>;` and a blank
   * line and closes with the locator message followed by one newline.
   */
  lemma GenerateFraming(s: Schema, ns: string)
    requires Resolved(s)
    ensures Generate(s, ns).Ok?
    ensures StartsWith(Generate(s, ns).value, PackageLine(ns) + "\n\n")
    ensures EndsWith(Generate(s, ns).value, Unlines(TrailerLines))
    ensures EndsWith(Generate(s, ns).value, "}\n")
  {
    GenerateEndsWithTrailer(s, ns);
    TrailerEndsWithBrace();
    EndsWithTrans(Generate(s, ns).value, Unlines(TrailerLines), "}\n");
    FirstBlockBlank(ns, Blocks(s));
  }

  lemma GenerateEndsWithTrailer(s: Schema, ns: string)
    requires Resolved(s)
    ensures Generate(s, ns).Ok? && EndsWith(Generate(s, ns).value, Unlines(TrailerLines))
  {
    var bs := Blocks(s);
    var front := bs[..|bs| - 1];
    assert bs == front + [LocatorBlock];
    DocumentEndsWithBlock(ns, front, LocatorBlock);
    TrailerText();
    EndsWithAppend("\n", Unlines(TrailerLines));
    EndsWithTrans(Generate(s, ns).value, Unlines(BlockLines(LocatorBlock)), Unlines(TrailerLines));
  }

  lemma DocumentEndsWithBlock(ns: string, front: seq<Block>, b: Block)
    ensures EndsWith(Unlines(DocumentLines(ns, front + [b])), Unlines(BlockLines(b)))
  {
    RenderBlocksSnoc(front, b);
    var head := [PackageLine(ns)] + RenderBlocks(front);
    assert DocumentLines(ns, front + [b]) == head + BlockLines(b);
    EndsWithUnlines(head, BlockLines(b));
  }

  lemma RenderBlocksSnoc(front: seq<Block>, b: Block)
    ensures RenderBlocks(front + [b]) == RenderBlocks(front) + BlockLines(b)
  {
    RenderBlocksAppend(front, [b]);
    assert [b][1..] == [];
  }

  lemma EndsWithUnlines(head: seq<string>, tail: seq<string>)
    ensures EndsWith(Unlines(head + tail), Unlines(tail))
  {
    UnlinesAppend(head, tail);
    EndsWithAppend(Unlines(head), Unlines(tail));
  }

  lemma UnlinesBlankFirst(ls: seq<string>)
    ensures Unlines([""] + ls) == "\n" + Unlines(ls)
  {
    assert ([""] + ls)[1..] == ls;
  }

  lemma UnlinesLastLine(ls: seq<string>, last: string)
    ensures EndsWith(Unlines(ls + [last]), last + "\n")
  {
    UnlinesAppend(ls, [last]);
    assert [last][1..] == [];
    EndsWithAppend(Unlines(ls), last + "\n");
  }

  lemma TrailerBlockLines()
    ensures BlockLines(LocatorBlock) == [""] + TrailerLines
  {
    assert LocatorBlock.title == "message LocalMessageDescriptor";
  }

  lemma TrailerText()
    ensures Unlines(BlockLines(LocatorBlock)) == "\n" + Unlines(TrailerLines)
  {
    TrailerBlockLines();
    UnlinesBlankFirst(TrailerLines);
  }

  lemma TrailerEndsWithBrace()
    ensures EndsWith(Unlines(TrailerLines), "}\n")
  {
    assert TrailerLines == TrailerLines[..3] + ["}"];
    UnlinesLastLine(TrailerLines[..3], "}");
  }

  lemma EndsWithAppend(a: string, b: string)
    ensures EndsWith(a + b, b)
  {
    assert (a + b)[|a + b| - |b|..] == b;
  }

  lemma EndsWithTrans(t: string, u: string, v: string)
    requires EndsWith(t, u) && EndsWith(u, v)
    ensures EndsWith(t, v)
  {
    assert t[|t| - |v|..] == t[|t| - |u|..][|u| - |v|..];
  }

  lemma FirstBlockBlank(ns: string, bs: seq<Block>)
    requires bs != []
    ensures StartsWith(Unlines(DocumentLines(ns, bs)), PackageLine(ns) + "\n\n")
  {
    var lines := DocumentLines(ns, bs);
    assert lines == [PackageLine(ns), ""] + lines[2..];
    UnlinesAppend([PackageLine(ns), ""], lines[2..]);
    assert Unlines([PackageLine(ns), ""]) == PackageLine(ns) + "\n\n";
  }

  // --------------------------------------------------------- one-line text

  lemma IdentIsPlain(s: string)
    requires Ident(s)
    ensures OneLine(s) && ' ' !in s && '=' !in s
  {
  }

  predicate DeclPlain(d: Decl)
  {
    Readable(d) && OneLine(d.typeToken) && OneLine(d.name) && (d.default.Some? ==> OneLine(d.default.value))
  }

  predicate LoweredPlain(l: Lowered)
  {
    DeclPlain(l.decl) && (l.Commented? ==> DeclPlain(l.hint))
  }

  lemma NumberOneLine(v: int)
    ensures OneLine(IntToDecimal(v)) && OneLine(NatToDecimal(if v < 0 then -v else v))
  {
  }

  lemma StatementOneLine(d: Decl)
    requires DeclPlain(d)
    ensures OneLine(StatementText(d))
  {
    NumberOneLine(d.id);
  }

  lemma HeaderNamePlain(n: string)
    requires Ident(n)
    ensures Ident(HeaderName(n))
  {
  }

  lemma OneLineJoin(a: string, b: string)
    requires OneLine(a) && OneLine(b)
    ensures OneLine(a + b)
  {
  }

  lemma HandleTypePlain()
    ensures OneLine(HandleType) && ' ' !in HandleType
  {
  }

  lemma LocatorTypePlain()
    ensures OneLine(LocatorType) && ' ' !in LocatorType
  {
  }

  lemma LowerFieldPlain(modifier: Option<Modifier>, fieldType: FieldType, default: Option<string>,
                        name: string, id: nat)
    requires Ident(name) && FieldTypeIdent(fieldType) && (default.Some? ==> OneLine(default.value))
    ensures LoweredPlain(LowerField(modifier, fieldType, default, name, id))
  {
    var r := LowerField(modifier, fieldType, default, name, id);
    IdentIsPlain(name);
    HandleTypePlain();
    LocatorTypePlain();
    if fieldType.Primitive? {
      IdentIsPlain(fieldType.typeName);
    } else if fieldType.EnumType? {
      IdentIsPlain(fieldType.enumName);
    } else {
      HeaderNamePlain(fieldType.messageType);
      IdentIsPlain(HeaderName(fieldType.messageType));
    }
    assert DeclPlain(r.decl);
  }

  /** Lowering a plain entry gives declarations with plain, unambiguous text. */
  lemma LowerEntryPlain(m: Message, e: Entry)
    requires PlainMessage(m) && e in m.entries && Lowerable(m.entries, e)
    ensures LoweredPlain(LowerEntry(m.entries, e))
  {
    assert PlainEntry(e);
    match e
    case F(f) =>
      LowerFieldPlain(f.modifier, f.fieldType, f.default, f.name, f.id);
    case I(ix) =>
      var f := FindField(m.entries, ix.forField).value;
      assert PlainEntry(F(f));
      LowerFieldPlain(f.modifier, f.fieldType, f.default, ix.name, ix.id);
  }

  lemma {:induction false} EntryLinesOneLine(ls: seq<Lowered>)
    requires forall l :: l in ls ==> LoweredPlain(l)
    ensures forall line :: line in RenderEntries(ls) ==> OneLine(line)
  {
    if ls != [] {
      EntryLinesOneLine(ls[1..]);
      var l := ls[0];
      assert LoweredPlain(l);
      StatementOneLine(l.decl);
      if l.Commented? {
        StatementOneLine(l.hint);
      }
    }
  }

  lemma LowerAllPlain(m: Message)
    requires PlainMessage(m) && Lowerables(m)
    ensures forall l :: l in LowerAll(m.entries, m.entries) ==> LoweredPlain(l)
  {
    var ls := LowerAll(m.entries, m.entries);
    forall l | l in ls
      ensures LoweredPlain(l)
    {
      var j :| 0 <= j < |ls| && ls[j] == l;
      LowerEntryPlain(m, m.entries[j]);
    }
  }

  /**
   * The body of a message block reads back into the message's entries, each
   * lowered, in declared order: fields and indexes are neither grouped nor
   * reordered, and each lowered entry is recovered in full.
   */
  lemma MessageBodyReadsBack(m: Message)
    requires PlainMessage(m) && Lowerables(m)
    ensures ParseEntries(MessageBlock(m).body) == Some(LowerAll(m.entries, m.entries))
  {
    var ls := LowerAll(m.entries, m.entries);
    LowerAllPlain(m);
    EntriesRoundTrip(ls);
  }

  /** The body of an enum block reads back into the items' names and values, in declared order. */
  lemma EnumBodyReadsBack(e: Enum)
    requires PlainEnum(e)
    ensures ParseItems(EnumBlock(e).body) == Some(ItemViews(e.items))
  {
    forall it | it in e.items
      ensures '=' !in it.name
    {
      IdentIsPlain(it.name);
    }
    ItemsRoundTrip(e.items);
  }

  // -------------------------------------------------------- whole document

  predicate BlockPlain(b: Block)
  {
    Delimited(b) && OneLine(b.title) && forall line :: line in b.body ==> OneLine(line)
  }

  lemma {:induction false} RenderBlocksOneLine(bs: seq<Block>)
    requires forall b :: b in bs ==> BlockPlain(b)
    ensures forall line :: line in RenderBlocks(bs) ==> OneLine(line)
  {
    if bs != [] {
      assert BlockPlain(bs[0]);
      RenderBlocksOneLine(bs[1..]);
    }
  }

  lemma MessageBlockPlain(m: Message)
    requires PlainMessage(m) && Lowerables(m)
    ensures BlockPlain(MessageBlock(m))
  {
    var ls := LowerAll(m.entries, m.entries);
    LowerAllPlain(m);
    EntryLinesOneLine(ls);
    RenderEntriesIndented(ls);
    HeaderNamePlain(m.name);
    IdentIsPlain(HeaderName(m.name));
    OneLineJoin("message ", HeaderName(m.name));
    var b := MessageBlock(m);
    assert b.title == "message " + HeaderName(m.name) && b.body == RenderEntries(ls);
  }

  lemma EnumBlockPlain(e: Enum)
    requires PlainEnum(e)
    ensures BlockPlain(EnumBlock(e))
  {
    IdentIsPlain(e.name);
    var body := ItemLines(e.items);
    forall j | 0 <= j < |body|
      ensures OneLine(body[j]) && body[j] != "}"
    {
      var it := e.items[j];
      IdentIsPlain(it.name);
      NumberOneLine(if it.value.Some? then it.value.value else 0);
      assert body[j] == FieldIndent + it.name + ValueClause(it.value) + ";";
      assert body[j][0] == ' ';
    }
  }

  lemma BlockPlainAt(s: Schema, i: nat)
    requires Resolved(s) && PlainNames(s) && i < |Blocks(s)|
    ensures BlockPlain(Blocks(s)[i])
  {
    var n := |s.messages|;
    if i < n {
      assert s.messages[i] in s.messages;
      MessageBlockPlain(s.messages[i]);
    } else if i < n + |s.enums| {
      assert s.enums[i - n] in s.enums;
      EnumBlockPlain(s.enums[i - n]);
    } else {
      LocatorBlockPlain();
    }
  }

  lemma LocatorBlockPlain()
    ensures BlockPlain(LocatorBlock)
  {
    LocatorTitlePlain();
    LocatorLinePlain();
    assert LocatorBlock.body == [LocatorLine];
  }

  lemma LocatorTitlePlain()
    ensures OneLine(LocatorBlock.title)
  {
    LocatorTypePlain();
    OneLineJoin("message ", LocatorType);
  }

  lemma LocatorHeadPlain()
    ensures OneLine("    repeated int32 coordinate")
  {
  }

  lemma LocatorTailPlain()
    ensures OneLine(" = 1 [packed=true];")
  {
  }

  lemma LocatorLinePlain()
    ensures OneLine(LocatorLine) && LocatorLine != "}"
  {
    LocatorHeadPlain();
    LocatorTailPlain();
    OneLineJoin("    repeated int32 coordinate", " = 1 [packed=true];");
    assert |LocatorLine| > 1;
  }

  lemma BlocksPlain(s: Schema)
    requires Resolved(s) && PlainNames(s)
    ensures forall b :: b in Blocks(s) ==> BlockPlain(b)
  {
    forall i | 0 <= i < |Blocks(s)|
      ensures BlockPlain(Blocks(s)[i])
    {
      BlockPlainAt(s, i);
    }
  }

  lemma DocumentOneLine(ns: string, bs: seq<Block>)
    requires OneLine(ns) && forall b :: b in bs ==> BlockPlain(b)
    ensures forall l :: l in DocumentLines(ns, bs) ==> OneLine(l)
  {
    RenderBlocksOneLine(bs);
    OneLineJoin("package ", ns);
    OneLineJoin("package " + ns, ";");
  }

  /**
   * For a schema whose names are identifiers, the generated text reads back,
   * line by line, into the package name and exactly the blocks `Blocks(s)`:
   * one `message <Name>Header` block per message in document order, then one
   * `enum <Name>` block per enum, then the locator, each preceded by one blank line.
   */
  lemma GenerateReadsBack(s: Schema, ns: string)
    requires Resolved(s) && PlainNames(s) && Ident(ns)
    ensures Generate(s, ns).Ok?
    ensures ParseDocument(SplitLines(Generate(s, ns).value)) == Some(Document(ns, Blocks(s)))
  {
    var bs := Blocks(s);
    BlocksPlain(s);
    IdentIsPlain(ns);
    DocumentOneLine(ns, bs);
    SplitLinesUnlines(DocumentLines(ns, bs));
    DocumentRoundTrip(ns, bs);
  }

  /**
   * The generator never writes a carriage return for such a schema, so the
   * `RemoveCarriageReturn` applied by the tests leaves its output unchanged.
   */
  lemma GeneratedTextHasNoCarriageReturn(s: Schema, ns: string)
    requires Resolved(s) && PlainNames(s) && Ident(ns)
    ensures Generate(s, ns).Ok?
    ensures RemoveCarriageReturn(Generate(s, ns).value) == Generate(s, ns).value
  {
    var bs := Blocks(s);
    BlocksPlain(s);
    IdentIsPlain(ns);
    DocumentOneLine(ns, bs);
    UnlinesAvoids(DocumentLines(ns, bs), '\r');
  }
}
