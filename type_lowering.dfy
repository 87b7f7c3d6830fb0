/**
 * Type lowering: what one field or index of a message becomes in the output.
 * Primitive and enum fields map straight to one declaration; nested and
 * referenced messages, which the target dialect cannot express, become a
 * comment showing the intended `<Msg>Header` type followed by a real
 * declaration of a placeholder type. An index lowers as the field it mirrors.
 */
module TypeLowering {
  import opened Wrappers
  import opened Text
  import opened SchemaModel

  /** One declaration `<mod> <type> <name>= <id>[ [default=<lit>]];`. */
  datatype Decl = Decl(modifier: Modifier, typeToken: string, name: string, id: nat, default: Option<string>)

  /** A single real declaration, or a comment declaration followed by the real one. */
  datatype Lowered = Single(decl: Decl) | Commented(hint: Decl, decl: Decl)

  /** Placeholder for a nested message: a local numeric handle. */
  const HandleType: string := "uint32"
  /** Placeholder for a referenced message: the synthetic locator type. */
  const LocatorType: string := "LocalMessageDescriptor"

  function HeaderName(messageName: string): string
  {
    messageName + "Header"
  }

  /** An absent modifier means `required`. */
  function EffectiveModifier(m: Option<Modifier>): Modifier
  {
    if m.Some? then m.value else Required
  }

  /** The lowering rules, by type category. */
  function LowerField(modifier: Option<Modifier>, fieldType: FieldType, default: Option<string>,
                      name: string, id: nat): (r: Lowered)
    ensures r.decl.modifier == EffectiveModifier(modifier)
    ensures r.decl.name == name && r.decl.id == id && r.decl.default == default
    ensures fieldType.Primitive? ==> r.Single? && r.decl.typeToken == fieldType.typeName
    ensures fieldType.EnumType? ==> r.Single? && r.decl.typeToken == fieldType.enumName
    ensures fieldType.NestedMessage? ==> r.Commented? && r.decl.typeToken == HandleType
    ensures fieldType.ReferenceMessage? ==> r.Commented? && r.decl.typeToken == LocatorType
    ensures r.Commented? ==> r.hint == r.decl.(typeToken := HeaderName(fieldType.messageType))
  {
    var decl := Decl(EffectiveModifier(modifier), "", name, id, default);
    match fieldType
    case Primitive(t) => Single(decl.(typeToken := t))
    case EnumType(e) => Single(decl.(typeToken := e))
    case NestedMessage(msg) => Commented(decl.(typeToken := HeaderName(msg)), decl.(typeToken := HandleType))
    case ReferenceMessage(msg) => Commented(decl.(typeToken := HeaderName(msg)), decl.(typeToken := LocatorType))
  }

  predicate Lowerable(entries: seq<Entry>, e: Entry)
  {
    e.I? ==> FindField(entries, e.index.forField).Some?
  }

  function EntryName(e: Entry): string
  {
    match e
    case F(f) => f.name
    case I(ix) => ix.name
  }

  function EntryId(e: Entry): nat
  {
    match e
    case F(f) => f.id
    case I(ix) => ix.id
  }

  /** Lowers one entry of a message whose entries are `entries`. */
  function LowerEntry(entries: seq<Entry>, e: Entry): (r: Lowered)
    requires Lowerable(entries, e)
    ensures r.decl.name == EntryName(e) && r.decl.id == EntryId(e)
  {
    match e
    case F(f) => LowerField(f.modifier, f.fieldType, f.default, f.name, f.id)
    case I(ix) =>
      var target := FindField(entries, ix.forField).value;
      LowerField(target.modifier, target.fieldType, target.default, ix.name, ix.id)
  }

  /**
   * An index lowers exactly as the field it names would if that field carried
   * the index's own name and id: modifier, category, message type and default
   * all come from the field.
   */
  lemma IndexMirrorsTarget(entries: seq<Entry>, ix: Index)
    requires FindField(entries, ix.forField).Some?
    ensures exists f :: F(f) in entries && f.id == ix.forField &&
              LowerEntry(entries, I(ix)) == LowerEntry(entries, F(f.(name := ix.name, id := ix.id)))
  {
    var f := FindField(entries, ix.forField).value;
    assert LowerEntry(entries, I(ix)) == LowerEntry(entries, F(f.(name := ix.name, id := ix.id)));
  }

  /** The entries of a message, lowered one by one in declared order. */
  function LowerAll(entries: seq<Entry>, es: seq<Entry>): (r: seq<Lowered>)
    requires forall e :: e in es ==> Lowerable(entries, e)
    ensures |r| == |es|
    ensures forall j :: 0 <= j < |es| ==> r[j] == LowerEntry(entries, es[j])
  {
    if es == [] then []
    else [LowerEntry(entries, es[0])] + LowerAll(entries, es[1..])
  }

  // --------------------------------------------------------------- text

  function ModifierText(m: Modifier): string
  {
    match m
    case Required => "required"
    case Optional => "optional"
    case Repeated => "repeated"
  }

  function DefaultClause(d: Option<string>): string
  {
    match d
    case None => ""
    case Some(lit) => " [default=" + lit + "]"
  }

  /** Note the fixed `<name>= <id>` spacing. */
  function StatementText(d: Decl): string
  {
    ModifierText(d.modifier) + " " + d.typeToken + " " + d.name + "= " + NatToDecimal(d.id)
      + DefaultClause(d.default) + ";"
  }

  const FieldIndent: string := "    "
  const CommentMarker: string := "  //"

  /** The output lines of one lowered entry: the comment line comes first. */
  function EntryLines(l: Lowered): (ls: seq<string>)
    ensures |ls| == if l.Single? then 1 else 2
    ensures l.Single? ==> StartsWith(ls[0], FieldIndent)
    ensures l.Commented? ==> StartsWith(ls[0], CommentMarker) && StartsWith(ls[1], FieldIndent)
  {
    match l
    case Single(d) => [FieldIndent + StatementText(d)]
    case Commented(h, d) => [CommentMarker + StatementText(h), FieldIndent + StatementText(d)]
  }

  function RenderEntries(ls: seq<Lowered>): seq<string>
  {
    if ls == [] then []
    else EntryLines(ls[0]) + RenderEntries(ls[1..])
  }

  lemma {:induction false} RenderEntriesAppend(a: seq<Lowered>, b: seq<Lowered>)
    ensures RenderEntries(a + b) == RenderEntries(a) + RenderEntries(b)
  {
    if a == [] {
      assert a + b == b;
    } else {
      assert (a + b)[0] == a[0] && (a + b)[1..] == a[1..] + b;
      RenderEntriesAppend(a[1..], b);
    }
  }

  // ------------------------------------------------------------ reading back

  function ParseModifier(w: string): (r: Option<Modifier>)
  {
    if w == "required" then Some(Required)
    else if w == "optional" then Some(Optional)
    else if w == "repeated" then Some(Repeated)
    else None
  }

  lemma ParseModifierText(m: Modifier)
    ensures ParseModifier(ModifierText(m)) == Some(m)
    ensures ' ' !in ModifierText(m)
  {
    var r, o := "required", "optional";
    assert r[1] != o[1];
    assert r[2] != "repeated"[2];
    assert o[0] != "repeated"[0];
  }

  function ParseDefault(s: string): Option<Option<string>>
  {
    if s == [] then Some(None)
    else if |s| >= 11 && s[..10] == " [default=" && s[|s| - 1] == ']' then Some(Some(s[10..|s| - 1]))
    else None
  }

  lemma ParseDefaultClause(d: Option<string>)
    ensures ParseDefault(DefaultClause(d)) == Some(d)
    ensures DefaultClause(d) == [] || DefaultClause(d)[0] == ' '
  {
    if d.Some? {
      var s := DefaultClause(d);
      assert s == " [default=" + d.value + "]";
      assert s[..10] == " [default=";
      assert s[10..|s| - 1] == d.value;
    }
  }

  /** Reads a declaration back from its text. */
  function ParseStatement(s: string): Option<Decl>
  {
    if s == [] || s[|s| - 1] != ';' then None
    else
      match SplitFirst(s[..|s| - 1], ' ')
      case None => None
      case Some((word, rest)) =>
        match ParseModifier(word)
        case None => None
        case Some(m) => ParseTyped(m, rest)
  }

  /** Reads `<type> <name>= <id>[ [default=<lit>]]`. */
  function ParseTyped(m: Modifier, s: string): Option<Decl>
  {
    match SplitFirst(s, ' ')
    case None => None
    case Some((ty, rest)) => ParseNamed(m, ty, rest)
  }

  /** Reads `<name>= <id>[ [default=<lit>]]`. */
  function ParseNamed(m: Modifier, ty: string, s: string): Option<Decl>
  {
    match SplitFirst(s, '=')
    case None => None
    case Some((name, rest)) =>
      if rest == [] || rest[0] != ' ' then None
      else ParseNumbered(m, ty, name, rest[1..])
  }

  /** Reads `<id>[ [default=<lit>]]`. */
  function ParseNumbered(m: Modifier, ty: string, name: string, s: string): Option<Decl>
  {
    var k := DigitRun(s);
    if k == 0 then None
    else
      assert forall c :: c in s[..k] ==> IsDigit(c);
      match ParseDefault(s[k..])
      case None => None
      case Some(dflt) => Some(Decl(m, ty, name, DecimalValue(s[..k]), dflt))
  }

  /** The text of a declaration is unambiguous when its type has no space and its name no '='. */
  predicate Readable(d: Decl)
  {
    ' ' !in d.typeToken && '=' !in d.name
  }

  lemma NumberedRoundTrip(d: Decl)
    ensures ParseNumbered(d.modifier, d.typeToken, d.name, NatToDecimal(d.id) + DefaultClause(d.default)) == Some(d)
  {
    var num := NatToDecimal(d.id);
    var dc := DefaultClause(d.default);
    ParseDefaultClause(d.default);
    DigitRunOf(num, dc);
    assert (num + dc)[..|num|] == num && (num + dc)[|num|..] == dc;
    DecimalRoundTrip(d.id);
  }

  lemma StatementRoundTrip(d: Decl)
    requires Readable(d)
    ensures ParseStatement(StatementText(d)) == Some(d)
  {
    var mt := ModifierText(d.modifier);
    var tail := NatToDecimal(d.id) + DefaultClause(d.default);
    var rest3 := [' '] + tail;
    var rest2 := d.name + ['='] + rest3;
    var rest := d.typeToken + [' '] + rest2;
    var body := mt + [' '] + rest;
    assert StatementText(d) == body + ";";
    assert (body + ";")[..|body + ";"| - 1] == body;
    ParseModifierText(d.modifier);
    SplitFirstOf(mt, ' ', rest);
    SplitFirstOf(d.typeToken, ' ', rest2);
    SplitFirstOf(d.name, '=', rest3);
    assert rest3[1..] == tail;
    NumberedRoundTrip(d);
  }

  predicate LoweredReadable(l: Lowered)
  {
    Readable(l.decl) && (l.Commented? ==> Readable(l.hint))
  }

  /** Reads the body of a message block back into lowered entries. */
  function ParseEntries(lines: seq<string>): Option<seq<Lowered>>
    decreases |lines|
  {
    if lines == [] then Some([])
    else if StartsWith(lines[0], FieldIndent) then
      match (ParseStatement(lines[0][4..]), ParseEntries(lines[1..]))
      case (Some(d), Some(rest)) => Some([Single(d)] + rest)
      case _ => None
    else if StartsWith(lines[0], CommentMarker) && |lines| >= 2 && StartsWith(lines[1], FieldIndent) then
      match (ParseStatement(lines[0][4..]), ParseStatement(lines[1][4..]), ParseEntries(lines[2..]))
      case (Some(h), Some(d), Some(rest)) => Some([Commented(h, d)] + rest)
      case _ => None
    else None
  }

  lemma IndentedLine(prefix: string, t: string)
    requires |prefix| == 4
    ensures StartsWith(prefix + t, prefix) && (prefix + t)[4..] == t
  {
    assert (prefix + t)[..4] == prefix;
  }

  lemma CommentIsNotIndent(t: string)
    ensures !StartsWith(CommentMarker + t, FieldIndent)
  {
    assert (CommentMarker + t)[2] == '/';
  }

  lemma ParseSingle(d: Decl, rest: seq<string>, tail: seq<Lowered>)
    requires Readable(d) && ParseEntries(rest) == Some(tail)
    ensures ParseEntries([FieldIndent + StatementText(d)] + rest) == Some([Single(d)] + tail)
  {
    var lines := [FieldIndent + StatementText(d)] + rest;
    IndentedLine(FieldIndent, StatementText(d));
    StatementRoundTrip(d);
    assert lines[1..] == rest;
  }

  lemma ParseCommented(h: Decl, d: Decl, rest: seq<string>, tail: seq<Lowered>)
    requires Readable(h) && Readable(d) && ParseEntries(rest) == Some(tail)
    ensures ParseEntries([CommentMarker + StatementText(h), FieldIndent + StatementText(d)] + rest)
            == Some([Commented(h, d)] + tail)
  {
    var lines := [CommentMarker + StatementText(h), FieldIndent + StatementText(d)] + rest;
    IndentedLine(CommentMarker, StatementText(h));
    IndentedLine(FieldIndent, StatementText(d));
    CommentIsNotIndent(StatementText(h));
    StatementRoundTrip(h);
    StatementRoundTrip(d);
    assert lines[2..] == rest;
  }

  /** The lines of a message body determine the lowered entries they came from, in order. */
  lemma {:induction false} EntriesRoundTrip(ls: seq<Lowered>)
    requires forall l :: l in ls ==> LoweredReadable(l)
    ensures ParseEntries(RenderEntries(ls)) == Some(ls)
  {
    if ls != [] {
      EntriesRoundTrip(ls[1..]);
      assert ls == [ls[0]] + ls[1..];
      assert LoweredReadable(ls[0]);
      match ls[0]
      case Single(d) =>
        ParseSingle(d, RenderEntries(ls[1..]), ls[1..]);
      case Commented(h, d) =>
        ParseCommented(h, d, RenderEntries(ls[1..]), ls[1..]);
    }
  }

  /** No line of a message body is a lone closing brace. */
  lemma {:induction false} RenderEntriesIndented(ls: seq<Lowered>)
    ensures forall line :: line in RenderEntries(ls) ==> |line| >= 4 && line[0] == ' '
  {
    if ls != [] {
      RenderEntriesIndented(ls[1..]);
    }
  }
}
