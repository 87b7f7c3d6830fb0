/**
 * The schema model handed to the generator: messages made of fields and
 * indexes, and enums made of items. Descriptions and `sortBy` are carried
 * but never rendered.
 */
module SchemaModel {
  import opened Wrappers

  datatype Modifier = Required | Optional | Repeated

  /** A field's type category, with the name that category needs. */
  datatype FieldType =
    | Primitive(typeName: string)
    | EnumType(enumName: string)
    | NestedMessage(messageType: string)
    | ReferenceMessage(messageType: string)

  /** `modifier` is None when the attribute is absent. */
  datatype Field = Field(id: nat, name: string, modifier: Option<Modifier>, fieldType: FieldType,
                         default: Option<string>, description: string)

  /** An index mirrors the field whose id is `forField`, under its own id and name. */
  datatype Index = Index(id: nat, name: string, forField: nat, sortBy: string)

  datatype Entry = F(field: Field) | I(index: Index)

  datatype Message = Message(name: string, description: string, entries: seq<Entry>)

  datatype EnumItem = EnumItem(name: string, description: string, value: Option<int>)

  datatype Enum = Enum(name: string, description: string, items: seq<EnumItem>)

  datatype Schema = Schema(messages: seq<Message>, enums: seq<Enum>)

  predicate HasFieldId(e: Entry, id: nat)
  {
    e.F? && e.field.id == id
  }

  /** The first field (not index) of `entries` whose id is `id`. */
  function FindField(entries: seq<Entry>, id: nat): (r: Option<Field>)
    ensures r.Some? ==> F(r.value) in entries && r.value.id == id
    ensures r.None? <==> forall e :: e in entries ==> !HasFieldId(e, id)
  {
    if entries == [] then None
    else if HasFieldId(entries[0], id) then Some(entries[0].field)
    else
      assert entries == [entries[0]] + entries[1..];
      FindField(entries[1..], id)
  }

  /** FindField picks the earliest matching field when ids repeat. */
  lemma {:induction false} FindFieldFirst(entries: seq<Entry>, id: nat, k: nat)
    requires k < |entries| && HasFieldId(entries[k], id)
    requires forall j :: 0 <= j < k ==> !HasFieldId(entries[j], id)
    ensures FindField(entries, id) == Some(entries[k].field)
  {
    if k > 0 {
      FindFieldFirst(entries[1..], id, k - 1);
    }
  }

  predicate EnumDeclared(enums: seq<Enum>, name: string)
  {
    exists e :: e in enums && e.name == name
  }

  /** An entry the generator can lower: its enum is declared, its `forField` names a field. */
  predicate EntryResolved(enums: seq<Enum>, entries: seq<Entry>, e: Entry)
  {
    match e
    case F(f) => f.fieldType.EnumType? ==> EnumDeclared(enums, f.fieldType.enumName)
    case I(ix) => FindField(entries, ix.forField).Some?
  }

  predicate MessageResolved(enums: seq<Enum>, m: Message)
  {
    forall e :: e in m.entries ==> EntryResolved(enums, m.entries, e)
  }

  predicate Resolved(s: Schema)
  {
    forall m :: m in s.messages ==> MessageResolved(s.enums, m)
  }

  // ------------------------------------------------------ plain identifiers

  /** Characters of a protobuf identifier (a dotted name included). */
  predicate IdentChar(c: char)
  {
    'a' <= c <= 'z' || 'A' <= c <= 'Z' || '0' <= c <= '9' || c == '_' || c == '.'
  }

  predicate Ident(s: string)
  {
    forall c :: c in s ==> IdentChar(c)
  }

  /** A line of text: no newline and no carriage return. A default literal is written verbatim and only has to be one. */
  predicate OneLine(s: string)
  {
    '\n' !in s && '\r' !in s
  }

  predicate FieldTypeIdent(t: FieldType)
  {
    match t
    case Primitive(n) => Ident(n)
    case EnumType(n) => Ident(n)
    case NestedMessage(n) => Ident(n)
    case ReferenceMessage(n) => Ident(n)
  }

  predicate PlainEntry(e: Entry)
  {
    match e
    case F(f) => Ident(f.name) && FieldTypeIdent(f.fieldType) && (f.default.Some? ==> OneLine(f.default.value))
    case I(ix) => Ident(ix.name)
  }

  predicate PlainMessage(m: Message)
  {
    Ident(m.name) && forall e :: e in m.entries ==> PlainEntry(e)
  }

  predicate PlainEnum(e: Enum)
  {
    Ident(e.name) && forall it :: it in e.items ==> Ident(it.name)
  }

  /** Every name in the schema is an identifier and every default a one-line literal. */
  predicate PlainNames(s: Schema)
  {
    && (forall m :: m in s.messages ==> PlainMessage(m))
    && (forall e :: e in s.enums ==> PlainEnum(e))
  }
}
