/**
 * The emitter: `package <ns>;`, one `message <Name>Header` block per message in
 * document order, one `enum <Name>` block per enum after all messages, and the
 * fixed `LocalMessageDescriptor` locator message last. Every block is preceded
 * by one blank line and its members are indented four spaces.
 */
module Emitter {
  import opened Wrappers
  import opened Text
  import opened SchemaModel
  import opened TypeLowering

  /** Why a generation call fails: a structural reference that does not resolve. */
  datatype GenError =
    | UnresolvedField(message: string, index: string, forField: nat)
    | UnresolvedEnum(message: string, field: string, enumName: string)

  // ------------------------------------------------------------- resolution

  function EntryError(enums: seq<Enum>, m: Message, e: Entry): (r: Option<GenError>)
    ensures r.None? <==> EntryResolved(enums, m.entries, e)
  {
    match e
    case F(f) =>
      if f.fieldType.EnumType? && !EnumDeclared(enums, f.fieldType.enumName)
      then Some(UnresolvedEnum(m.name, f.name, f.fieldType.enumName))
      else None
    case I(ix) =>
      if FindField(m.entries, ix.forField).None?
      then Some(UnresolvedField(m.name, ix.name, ix.forField))
      else None
  }

  /** The first unresolved entry among `es`, in declared order. */
  function EntriesError(enums: seq<Enum>, m: Message, es: seq<Entry>): (r: Option<GenError>)
    ensures r.None? <==> forall e :: e in es ==> EntryResolved(enums, m.entries, e)
  {
    if es == [] then None
    else
      assert es == [es[0]] + es[1..];
      match EntryError(enums, m, es[0])
      case Some(err) => Some(err)
      case None => EntriesError(enums, m, es[1..])
  }

  function MessagesError(enums: seq<Enum>, ms: seq<Message>): (r: Option<GenError>)
    ensures r.None? <==> forall m :: m in ms ==> MessageResolved(enums, m)
  {
    if ms == [] then None
    else
      assert ms == [ms[0]] + ms[1..];
      match EntriesError(enums, ms[0], ms[0].entries)
      case Some(err) =>
        assert !MessageResolved(enums, ms[0]);
        Some(err)
      case None => MessagesError(enums, ms[1..])
  }

  /** The first structural error of the schema in document order, if any. */
  function Check(s: Schema): (r: Option<GenError>)
    ensures r.None? <==> Resolved(s)
  {
    MessagesError(s.enums, s.messages)
  }

  // ------------------------------------------------------------------ enums

  function ValueClause(v: Option<int>): string
  {
    match v
    case None => ""
    case Some(n) => "=" + IntToDecimal(n)
  }

  /** `<name>;` or `<name>=<value>;`, with no spaces and no synthesized numbering. */
  function ItemText(it: EnumItem): string
  {
    FieldIndent + it.name + ValueClause(it.value) + ";"
  }

  function ItemLines(items: seq<EnumItem>): (ls: seq<string>)
    ensures |ls| == |items|
    ensures forall j :: 0 <= j < |items| ==> ls[j] == ItemText(items[j])
  {
    if items == [] then []
    else [ItemText(items[0])] + ItemLines(items[1..])
  }

  /** Reads an enum item line back into its name and optional value. */
  function ParseItem(line: string): Option<(string, Option<int>)>
  {
    if |line| < 5 || !StartsWith(line, FieldIndent) || line[|line| - 1] != ';' then None
    else
      var body := line[4..|line| - 1];
      match SplitFirst(body, '=')
      case None => Some((body, None))
      case Some((name, value)) =>
        match ParseInt(value)
        case None => None
        case Some(n) => Some((name, Some(n)))
  }

  lemma ItemRoundTrip(it: EnumItem)
    requires '=' !in it.name
    ensures ParseItem(ItemText(it)) == Some((it.name, it.value))
  {
    var clause := ValueClause(it.value);
    var body := it.name + clause;
    var line := ItemText(it);
    assert line == FieldIndent + body + ";";
    assert line[..4] == FieldIndent;
    assert line[4..|line| - 1] == body;
    match it.value
    case None =>
      assert body == it.name;
    case Some(n) =>
      assert body == it.name + ['='] + IntToDecimal(n);
      SplitFirstOf(it.name, '=', IntToDecimal(n));
      IntRoundTrip(n);
  }

  function ParseItems(lines: seq<string>): Option<seq<(string, Option<int>)>>
  {
    if lines == [] then Some([])
    else
      match (ParseItem(lines[0]), ParseItems(lines[1..]))
      case (Some(it), Some(rest)) => Some([it] + rest)
      case _ => None
  }

  /** The name and value of every item, in declared order; descriptions are not rendered. */
  function ItemViews(items: seq<EnumItem>): seq<(string, Option<int>)>
  {
    if items == [] then [] else [(items[0].name, items[0].value)] + ItemViews(items[1..])
  }

  lemma {:induction false} ItemsRoundTrip(items: seq<EnumItem>)
    requires forall it :: it in items ==> '=' !in it.name
    ensures ParseItems(ItemLines(items)) == Some(ItemViews(items))
  {
    if items != [] {
      var lines := ItemLines(items);
      ItemRoundTrip(items[0]);
      assert lines[1..] == ItemLines(items[1..]);
      ItemsRoundTrip(items[1..]);
    }
  }

  // ----------------------------------------------------------------- blocks

  /** A titled block: a blank line, the title, `{`, the members, `}`. */
  datatype Block = Block(title: string, body: seq<string>)

  function BlockLines(b: Block): seq<string>
  {
    ["", b.title, "{"] + b.body + ["}"]
  }

  function RenderBlocks(bs: seq<Block>): seq<string>
  {
    if bs == [] then []
    else BlockLines(bs[0]) + RenderBlocks(bs[1..])
  }

  lemma {:induction false} RenderBlocksAppend(a: seq<Block>, b: seq<Block>)
    ensures RenderBlocks(a + b) == RenderBlocks(a) + RenderBlocks(b)
  {
    if a == [] {
      assert a + b == b;
    } else {
      assert (a + b)[0] == a[0] && (a + b)[1..] == a[1..] + b;
      RenderBlocksAppend(a[1..], b);
    }
  }

  predicate Lowerables(m: Message)
  {
    forall e :: e in m.entries ==> Lowerable(m.entries, e)
  }

  function MessageBlock(m: Message): Block
    requires Lowerables(m)
  {
    Block("message " + HeaderName(m.name), RenderEntries(LowerAll(m.entries, m.entries)))
  }

  function EnumBlock(e: Enum): Block
  {
    Block("enum " + e.name, ItemLines(e.items))
  }

  /**
   * The locator record every referenced message is lowered into; note the
   * spaces on both sides of `=` here, unlike field declarations.
   */
  const LocatorLine: string := "    repeated int32 coordinate" + " = 1 [packed=true];"
  const LocatorBlock: Block := Block("message " + LocatorType, [LocatorLine])

  function MessageBlocks(ms: seq<Message>): (r: seq<Block>)
    requires forall m :: m in ms ==> Lowerables(m)
    ensures |r| == |ms|
    ensures forall i :: 0 <= i < |ms| ==> r[i] == MessageBlock(ms[i])
  {
    if ms == [] then []
    else [MessageBlock(ms[0])] + MessageBlocks(ms[1..])
  }

  function EnumBlocks(es: seq<Enum>): (r: seq<Block>)
    ensures |r| == |es|
    ensures forall i :: 0 <= i < |es| ==> r[i] == EnumBlock(es[i])
  {
    if es == [] then []
    else [EnumBlock(es[0])] + EnumBlocks(es[1..])
  }

  lemma ResolvedLowerable(s: Schema)
    requires Resolved(s)
    ensures forall m :: m in s.messages ==> Lowerables(m)
  {
    forall m, e | m in s.messages && e in m.entries
      ensures Lowerable(m.entries, e)
    {
      assert MessageResolved(s.enums, m);
      assert EntryResolved(s.enums, m.entries, e);
    }
  }

  /** Messages in document order, then enums in document order, then the locator. */
  function Blocks(s: Schema): (r: seq<Block>)
    requires Resolved(s)
    ensures |r| == |s.messages| + |s.enums| + 1
    ensures forall i :: 0 <= i < |s.messages| ==>
              Lowerables(s.messages[i]) && r[i] == MessageBlock(s.messages[i])
    ensures forall i :: 0 <= i < |s.enums| ==> r[|s.messages| + i] == EnumBlock(s.enums[i])
    ensures r[|r| - 1] == LocatorBlock
  {
    ResolvedLowerable(s);
    MessageBlocks(s.messages) + EnumBlocks(s.enums) + [LocatorBlock]
  }

  function PackageLine(ns: string): string
  {
    "package " + ns + ";"
  }

  function DocumentLines(ns: string, bs: seq<Block>): seq<string>
  {
    [PackageLine(ns)] + RenderBlocks(bs)
  }

  /**
   * `ProtoGenerator.Generate(model, writer, ns)`: the whole output text, or the
   * first unresolved reference, in which case nothing is produced.
   */
  function Generate(s: Schema, ns: string): (r: Result<string, GenError>)
    ensures r.Ok? <==> Resolved(s)
    ensures r.Err? ==> Check(s) == Some(r.error)
  {
    match Check(s)
    case Some(err) => Err(err)
    case None => Ok(Unlines(DocumentLines(ns, Blocks(s))))
  }

  // ------------------------------------------------------------ reading back

  /** Cuts block lines back into blocks; a body ends at the first lone `}`. */
  function ParseBlocks(ls: seq<string>): Option<seq<Block>>
    decreases |ls|
  {
    if ls == [] then Some([])
    else if |ls| < 3 || ls[0] != "" || ls[2] != "{" then None
    else
      var rest := ls[3..];
      var k := IndexOf(rest, "}");
      if k == |rest| then None
      else
        match ParseBlocks(rest[k + 1..])
        case None => None
        case Some(bs) => Some([Block(ls[1], rest[..k])] + bs)
  }

  predicate Delimited(b: Block)
  {
    "}" !in b.body
  }

  lemma ParseBlockCons(b: Block, rest: seq<string>, tail: seq<Block>)
    requires Delimited(b) && ParseBlocks(rest) == Some(tail)
    ensures ParseBlocks(BlockLines(b) + rest) == Some([b] + tail)
  {
    var ls := BlockLines(b) + rest;
    var r := b.body + ["}"] + rest;
    assert ls[0] == "" && ls[1] == b.title && ls[2] == "{";
    assert ls[3..] == r;
    IndexOfAfter(b.body, "}", rest);
    assert r[..|b.body|] == b.body;
    assert r[|b.body| + 1..] == rest;
  }

  lemma {:induction false} BlocksRoundTrip(bs: seq<Block>)
    requires forall b :: b in bs ==> Delimited(b)
    ensures ParseBlocks(RenderBlocks(bs)) == Some(bs)
  {
    if bs != [] {
      BlocksRoundTrip(bs[1..]);
      assert bs == [bs[0]] + bs[1..];
      ParseBlockCons(bs[0], RenderBlocks(bs[1..]), bs[1..]);
    }
  }

  datatype Document = Document(packageName: string, blocks: seq<Block>)

  function ParseDocument(ls: seq<string>): Option<Document>
  {
    if ls == [] || |ls[0]| < 9 || !StartsWith(ls[0], "package ") || ls[0][|ls[0]| - 1] != ';' then None
    else
      match ParseBlocks(ls[1..])
      case None => None
      case Some(bs) => Some(Document(ls[0][8..|ls[0]| - 1], bs))
  }

  lemma DocumentRoundTrip(ns: string, bs: seq<Block>)
    requires forall b :: b in bs ==> Delimited(b)
    ensures ParseDocument(DocumentLines(ns, bs)) == Some(Document(ns, bs))
  {
    var ls := DocumentLines(ns, bs);
    var p := PackageLine(ns);
    assert p[..8] == "package ";
    assert p[8..|p| - 1] == ns;
    assert ls[1..] == RenderBlocks(bs);
    BlocksRoundTrip(bs);
  }
}
