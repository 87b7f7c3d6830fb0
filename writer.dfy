/**
 * The text sink `ProtoGenerator.Generate` writes into (a `StringWriter` in
 * the tests), and the generator driven line by line into it.
 */
module Writer {
  import opened Wrappers
  import opened Text
  import opened SchemaModel
  import opened Emitter

  /** An append-only text buffer. */
  class StringWriter {
    var text: string

    constructor()
      ensures text == ""
    {
      text := "";
    }

    method Write(s: string)
      modifies this
      ensures text == old(text) + s
    {
      text := text + s;
    }

    /** Writes `s` followed by a line terminator (`\n` in this model). */
    method WriteLine(s: string)
      modifies this
      ensures text == old(text) + s + "\n"
    {
      text := text + s + "\n";
    }
  }

  lemma UnlinesSnoc(ls: seq<string>, l: string)
    ensures Unlines(ls + [l]) == Unlines(ls) + l + "\n"
  {
    UnlinesAppend(ls, [l]);
    assert [l][1..] == [];
  }

  /** Writes each of `lines` in order, each followed by a line terminator. */
  method WriteLines(writer: StringWriter, lines: seq<string>)
    modifies writer
    ensures writer.text == old(writer.text) + Unlines(lines)
  {
    var i := 0;
    while i < |lines|
      invariant 0 <= i <= |lines|
      invariant writer.text == old(writer.text) + Unlines(lines[..i])
    {
      UnlinesSnoc(lines[..i], lines[i]);
      assert lines[..i + 1] == lines[..i] + [lines[i]];
      writer.WriteLine(lines[i]);
      i := i + 1;
    }
    assert lines[..i] == lines;
  }

  /**
   * Writes the whole document after what `writer` already holds, or, on an
   * unresolved reference, reports it and writes nothing.
   */
  method GenerateTo(s: Schema, writer: StringWriter, ns: string) returns (err: Option<GenError>)
    modifies writer
    ensures err == Check(s)
    ensures err.None? ==> Generate(s, ns).Ok? && writer.text == old(writer.text) + Generate(s, ns).value
    ensures err.Some? ==> writer.text == old(writer.text)
  {
    err := Check(s);
    if err.Some? {
      return;
    }
    WriteLines(writer, DocumentLines(ns, Blocks(s)));
  }
}
