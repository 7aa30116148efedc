/** The texts that the JSON parser accepts, and what it makes of them (api/JsonRequest.cc). */
module JsonGrammar {
  import opened Bytes
  import opened Json

  /** Space, tab, line feed, vertical tab, form feed or carriage return. */
  predicate Blank(s: seq<Byte>) {
    forall i :: 0 <= i < |s| ==> s[i] == 32 || s[i] == 9 || s[i] == 10 || s[i] == 11 || s[i] == 12 || s[i] == 13
  }

  /** How one byte may be written between quotes: as it is, or behind a backslash. */
  predicate Spells(piece: seq<Byte>, c: Byte) {
    || (piece == [c] && c != 34 && c != 92)
    || (piece == Ascii("\\\"") && c == 34)
    || (piece == Ascii("\\\\") && c == 92)
    || (piece == Ascii("\\/") && c == 47)
    || (piece == Ascii("\\b") && c == 8)
    || (piece == Ascii("\\f") && c == 12)
    || (piece == Ascii("\\n") && c == 10)
    || (piece == Ascii("\\r") && c == 13)
    || (piece == Ascii("\\t") && c == 9)
  }

  /** A string as it is written: a piece for each of its bytes. */
  datatype Written = Written(pieces: seq<seq<Byte>>, value: seq<Byte>) {
    predicate Valid() {
      |pieces| == |value| && forall i :: 0 <= i < |value| ==> Spells(pieces[i], value[i])
    }

    function Text(): seq<Byte> {
      Ascii("\"") + Flatten(pieces) + Ascii("\"")
    }
  }

  /** A field with the blanks before the key, around the colon and behind the value. */
  datatype Field = Field(b0: seq<Byte>, key: Written, b1: seq<Byte>, b2: seq<Byte>, value: Written, b3: seq<Byte>) {
    predicate Valid() {
      Blank(b0) && key.Valid() && Blank(b1) && Blank(b2) && value.Valid() && Blank(b3)
    }

    function Text(): seq<Byte> {
      b0 + (key.Text() + (b1 + (Ascii(":") + (b2 + (value.Text() + b3)))))
    }
  }

  predicate ValidFields(fs: seq<Field>) {
    forall i :: 0 <= i < |fs| ==> fs[i].Valid()
  }

  /** Fields separated by commas. */
  function Listed(fs: seq<Field>): seq<Byte> {
    if fs == [] then [] else fs[0].Text() + (if |fs| == 1 then [] else Ascii(",") + Listed(fs[1..]))
  }

  function PairsOf(fs: seq<Field>): seq<Pair> {
    seq(|fs|, i requires 0 <= i < |fs| => (fs[i].key.value, fs[i].value.value))
  }

  /** An object: blanks, a brace, blanks, the fields, a brace, blanks. */
  datatype Document = Document(before: seq<Byte>, inside: seq<Byte>, fields: seq<Field>, behind: seq<Byte>) {
    predicate Valid() {
      Blank(before) && Blank(inside) && ValidFields(fields) && Blank(behind)
    }

    function Text(): seq<Byte> {
      before + (Ascii("{") + (inside + (Listed(fields) + (Ascii("}") + behind))))
    }
  }

  // ---------- Blanks ----------

  /** Blanks in front of anything else are skipped, and nothing but blanks is. */
  lemma {:induction false} SkipBlank(b: seq<Byte>, t: seq<Byte>)
    requires Blank(b)
    ensures Skip(b + t) == Skip(t)
  {
    if b == [] {
      assert b + t == t;
    } else {
      assert (b + t)[1..] == b[1..] + t;
      SkipBlank(b[1..], t);
    }
  }

  lemma {:induction false} SkippedIsBlank(s: seq<Byte>) returns (b: seq<Byte>)
    ensures Blank(b) && s == b + Skip(s)
    ensures Skip(s) != [] ==> !Blank(Skip(s)[..1])
  {
    if s != [] && IsSpace(s[0]) {
      var more := SkippedIsBlank(s[1..]);
      b := [s[0]] + more;
      assert Skip(s) == Skip(s[1..]);
    } else {
      b := [];
    }
  }

  lemma Solid(s: seq<Byte>)
    requires s != [] && !Blank(s[..1])
    ensures Skip(s) == s
  {
    assert s[..1][0] == s[0];
  }

  lemma Marks()
    ensures Ascii("\"") == [34] && Ascii(":") == [58] && Ascii(",") == [44]
    ensures Ascii("{") == [123] && Ascii("}") == [125]
  {
  }

  // ---------- Strings ----------

  lemma SpellsIs(piece: seq<Byte>, c: Byte)
    ensures Spells(piece, c) <==>
      || (piece == [c] && c != QUOTE && c != BACKSLASH)
      || (|piece| == 2 && piece[0] == BACKSLASH && Unescape(piece[1]) == Some(c))
  {
    UnescapeIs(if |piece| == 2 then piece[1] else 0);
    hide Unescape;
  }

  lemma OneChar(piece: seq<Byte>, c: Byte, tail: seq<Byte>, done: seq<Byte>)
    requires Spells(piece, c)
    ensures ReadChars(piece + tail, done) ==
      match ReadChars(tail, done + [c])
      case None => None
      case Some((v, n)) => Some((v, |piece| + n))
  {
    SpellsIs(piece, c);
    hide Spells, Unescape;
    assert (piece + tail)[|piece|..] == tail;
  }

  /** Any way of writing a string is read as that string. */
  lemma {:induction false} CharsRead(w: Written, done: seq<Byte>, rest: seq<Byte>)
    requires w.Valid()
    ensures ReadChars(Flatten(w.pieces) + (Ascii("\"") + rest), done)
      == Some((done + w.value, |Flatten(w.pieces)| + 1))
    decreases |w.pieces|
  {
    Marks();
    if w.pieces == [] {
      assert Flatten(w.pieces) + ([34] + rest) == [34] + rest;
      assert done + w.value == done;
    } else {
      var more := Written(w.pieces[1..], w.value[1..]);
      hide Spells, ReadChars;
      assert more.Valid();
      var tail := Flatten(more.pieces) + (Ascii("\"") + rest);
      OneChar(w.pieces[0], w.value[0], tail, done);
      CharsRead(more, done + [w.value[0]], rest);
      Associate(w.pieces[0], Flatten(more.pieces), Ascii("\"") + rest);
      Associate(done, [w.value[0]], more.value);
      assert [w.value[0]] + more.value == w.value;
    }
  }

  /** The first piece of what is read, and the rest. */
  lemma FirstChar(s: seq<Byte>, done: seq<Byte>) returns (piece: seq<Byte>, c: Byte)
    requires ReadChars(s, done).Some? && s[0] != QUOTE
    ensures 0 < |piece| <= |s| && s == piece + s[|piece|..] && Spells(piece, c)
    ensures ReadChars(s[|piece|..], done + [c]).Some?
    ensures ReadChars(s, done).value.0 == ReadChars(s[|piece|..], done + [c]).value.0
    ensures ReadChars(s, done).value.1 == |piece| + ReadChars(s[|piece|..], done + [c]).value.1
  {
    hide Unescape;
    if s[0] == BACKSLASH {
      piece, c := s[..2], Unescape(s[1]).value;
    } else {
      piece, c := s[..1], s[0];
    }
    SpellsIs(piece, c);
    hide Spells;
  }

  lemma WrittenCons(piece: seq<Byte>, c: Byte, more: Written) returns (w: Written)
    requires Spells(piece, c) && more.Valid()
    ensures w.Valid() && w.value == [c] + more.value && Flatten(w.pieces) == piece + Flatten(more.pieces)
  {
    hide Spells;
    w := Written([piece] + more.pieces, [c] + more.value);
    assert w.pieces[1..] == more.pieces;
  }

  /** What is read was written in one of those ways. */
  lemma {:induction false} CharsWritten(s: seq<Byte>, done: seq<Byte>) returns (w: Written)
    requires ReadChars(s, done).Some?
    ensures w.Valid() && ReadChars(s, done).value == (done + w.value, |Flatten(w.pieces)| + 1)
    ensures |Flatten(w.pieces)| < |s| && s[..|Flatten(w.pieces)|] == Flatten(w.pieces) && s[|Flatten(w.pieces)|] == 34
    decreases |s|
  {
    if s[0] == QUOTE {
      w := Written([], []);
      assert done + w.value == done;
    } else {
      var piece, c := FirstChar(s, done);
      hide ReadChars, Written.Valid, Spells;
      var more := CharsWritten(s[|piece|..], done + [c]);
      w := WrittenCons(piece, c, more);
      hide Flatten;
      Associate(done, [c], more.value);
      var n := |Flatten(more.pieces)|;
      assert s[|piece| + n] == s[|piece|..][n];
      assert s[..|piece| + n] == piece + s[|piece|..][..n];
    }
  }

  lemma StringRead(w: Written, rest: seq<Byte>)
    requires w.Valid()
    ensures ReadString(w.Text() + rest) == Some((w.value, |w.Text()|))
    ensures (w.Text() + rest)[|w.Text()|..] == rest && !Blank((w.Text() + rest)[..1])
  {
    CharsRead(w, [], rest);
    hide ReadChars, Spells;
    Marks();
    var s := w.Text() + rest;
    assert s[1..] == Flatten(w.pieces) + (Ascii("\"") + rest);
    assert [] + w.value == w.value;
    assert s[..1][0] == 34;
  }

  lemma StringWritten(s: seq<Byte>) returns (w: Written)
    requires ReadString(s).Some?
    ensures w.Valid() && ReadString(s).value == (w.value, |w.Text()|) && s == w.Text() + s[|w.Text()|..]
  {
    hide ReadChars, Spells, Flatten, Written.Valid;
    Marks();
    w := CharsWritten(s[1..], []);
    assert [] + w.value == w.value;
    var n := |Flatten(w.pieces)|;
    assert s[1..][n] == s[n + 1];
    assert s[..n + 2] == [34] + s[1..][..n] + [s[n + 1]];
    assert w.Text() == s[..n + 2];
  }

  // ---------- Fields ----------

  lemma FieldRead(f: Field, rest: seq<Byte>)
    requires f.Valid() && rest != [] && !Blank(rest[..1])
    ensures ReadField(f.Text() + rest) == Some(((f.key.value, f.value.value), rest))
  {
    hide ReadString, Skip, Written.Text, Written.Valid, Blank;
    Marks();
    var after := f.b3 + rest;
    var value := f.value.Text() + after;
    var colon := [58] + (f.b2 + value);
    var key := f.key.Text() + (f.b1 + colon);
    FieldTail(f, rest);
    StringRead(f.key, f.b1 + colon);
    StringRead(f.value, after);
    SkipBlank(f.b0, key);
    Solid(key);
    SkipBlank(f.b1, colon);
    Solid(colon) by { NotBlank(colon); }
    SkipBlank(f.b2, value);
    Solid(value);
    SkipBlank(f.b3, rest);
    Solid(rest);
    assert colon[1..] == f.b2 + value;
  }

  lemma NotBlank(s: seq<Byte>)
    requires s != [] && s[0] > 32
    ensures !Blank(s[..1])
  {
    assert s[..1][0] == s[0];
  }

  lemma FieldTail(f: Field, rest: seq<Byte>)
    ensures f.Text() + rest
      == f.b0 + (f.key.Text() + (f.b1 + (Ascii(":") + (f.b2 + (f.value.Text() + (f.b3 + rest))))))
  {
    hide Written.Text;
  }

  lemma FieldWritten(s: seq<Byte>) returns (f: Field)
    requires ReadField(s).Some?
    ensures f.Valid() && ReadField(s).value.0 == (f.key.value, f.value.value)
    ensures s == f.Text() + ReadField(s).value.1
    ensures ReadField(s).value.1 != [] ==> !Blank(ReadField(s).value.1[..1])
  {
    hide ReadString, Skip, Written.Text, Written.Valid, Blank;
    Marks();
    var b0 := SkippedIsBlank(s);
    var s1 := Skip(s);
    var key := StringWritten(s1);
    var n := |key.Text()|;
    var b1 := SkippedIsBlank(s1[n..]);
    var s2 := Skip(s1[n..]);
    var b2 := SkippedIsBlank(s2[1..]);
    var s3 := Skip(s2[1..]);
    var value := StringWritten(s3);
    var m := |value.Text()|;
    var b3 := SkippedIsBlank(s3[m..]);
    f := Field(b0, key, b1, b2, value, b3);
    assert s2 == [58] + s2[1..];
    FieldTail(f, Skip(s3[m..]));
  }

  // ---------- The object ----------

  lemma PairsStep(fs: seq<Field>, found: Object)
    requires fs != []
    ensures MapOf(PairsOf(fs), found) == MapOf(PairsOf(fs[1..]), found[fs[0].key.value := fs[0].value.value])
  {
    assert PairsOf(fs)[1..] == PairsOf(fs[1..]);
  }

  lemma {:induction false} FieldsRead(fs: seq<Field>, behind: seq<Byte>, found: Object)
    requires fs != [] && ValidFields(fs) && Blank(behind)
    ensures ReadFields(Listed(fs) + (Ascii("}") + behind), found) == Some(MapOf(PairsOf(fs), found))
    decreases |fs|
  {
    hide ReadField, ReadFields, Skip, Field.Text, Field.Valid, Blank, MapOf, PairsOf;
    Marks();
    var more := found[fs[0].key.value := fs[0].value.value];
    var rest := if |fs| == 1 then [125] + behind else [44] + (Listed(fs[1..]) + ([125] + behind));
    assert Listed(fs) + ([125] + behind) == fs[0].Text() + rest;
    NotBlank(rest);
    FieldRead(fs[0], rest);
    TextIsNotEmpty(fs[0]);
    FieldUnfold(fs[0].Text() + rest, found);
    PairsStep(fs, found);
    assert rest[1..] == if |fs| == 1 then behind else Listed(fs[1..]) + ([125] + behind);
    if |fs| == 1 {
      NothingBehind(behind);
      NoPairs(more);
      assert fs[1..] == [];
    } else {
      FieldsRead(fs[1..], behind, more);
    }
  }

  lemma TextIsNotEmpty(f: Field)
    ensures f.Text() != []
  {
    assert |f.key.Text()| >= 2;
  }

  lemma NoPairs(m: Object)
    ensures MapOf(PairsOf([]), m) == m
  {
  }

  lemma NothingBehind(b: seq<Byte>)
    ensures Blank(b) <==> Skip(b) == []
  {
    assert Skip([]) == [];
    hide Skip, Blank;
    if Blank(b) {
      SkipBlank(b, []);
      assert b + [] == b;
    } else {
      var c := SkippedIsBlank(b);
      assert Skip(b) == [] ==> b == c;
    }
  }

  lemma LastField(f: Field, rest: seq<Byte>, found: Object)
    requires f.Valid() && rest != [] && rest[0] == CLOSE
    ensures ValidFields([f]) && f.Text() + rest == Listed([f]) + (Ascii("}") + rest[1..])
    ensures MapOf(PairsOf([f]), found) == found[f.key.value := f.value.value]
  {
    hide Field.Text, MapOf;
    Marks();
    assert Listed([f]) == f.Text() + [];
    assert rest == [125] + rest[1..];
    PairsStep([f], found);
    NoPairs(found[f.key.value := f.value.value]);
    assert [f][1..] == [];
  }

  lemma MoreFields(f: Field, gs: seq<Field>, behind: seq<Byte>, rest: seq<Byte>, found: Object)
    requires f.Valid() && ValidFields(gs) && gs != []
    requires rest != [] && rest[0] == COMMA && rest[1..] == Listed(gs) + (Ascii("}") + behind)
    ensures ValidFields([f] + gs) && f.Text() + rest == Listed([f] + gs) + (Ascii("}") + behind)
    ensures MapOf(PairsOf([f] + gs), found) == MapOf(PairsOf(gs), found[f.key.value := f.value.value])
  {
    hide Field.Text, MapOf, Listed;
    Marks();
    ListedStep(f, gs);
    assert rest == [44] + rest[1..];
    PairsStep([f] + gs, found);
    assert ([f] + gs)[1..] == gs;
  }

  lemma FirstField(s: seq<Byte>, found: Object)
    requires ReadFields(s, found).Some?
    ensures ReadField(s).Some?
    ensures var (field, rest) := ReadField(s).value;
      && rest != [] && (rest[0] == CLOSE || rest[0] == COMMA)
      && (rest[0] == CLOSE ==> Skip(rest[1..]) == [] && ReadFields(s, found) == Some(found[field.0 := field.1]))
      && (rest[0] == COMMA ==> ReadFields(s, found) == ReadFields(rest[1..], found[field.0 := field.1]))
  {
    hide ReadField, Skip;
    assert s != [] && ReadField(s).Some?;
    FieldUnfold(s, found);
  }

  lemma {:induction false} FieldsWritten(s: seq<Byte>, found: Object) returns (fs: seq<Field>, behind: seq<Byte>)
    requires ReadFields(s, found).Some?
    ensures fs != [] && ValidFields(fs) && Blank(behind) && s == Listed(fs) + (Ascii("}") + behind)
    ensures ReadFields(s, found) == Some(MapOf(PairsOf(fs), found))
    decreases |s|
  {
    FirstField(s, found);
    hide *;
    var f := FieldWritten(s);
    var rest := ReadField(s).value.1;
    if rest[0] == CLOSE {
      fs, behind := [f], rest[1..];
      NothingBehind(behind);
      LastField(f, rest, found);
    } else {
      var gs;
      gs, behind := FieldsWritten(rest[1..], found[f.key.value := f.value.value]);
      fs := [f] + gs;
      MoreFields(f, gs, behind, rest, found);
    }
  }

  lemma ListedStep(f: Field, gs: seq<Field>)
    requires gs != []
    ensures Listed([f] + gs) == f.Text() + (Ascii(",") + Listed(gs))
  {
    hide Field.Text;
    assert ([f] + gs)[1..] == gs;
  }

  /** Blanks in front of a list of fields make no difference. */
  lemma ListIgnoresBlank(b: seq<Byte>, s: seq<Byte>, found: Object)
    requires Blank(b) && s != []
    ensures ReadFields(b + s, found) == ReadFields(s, found)
  {
    FieldIgnoresBlank(b, s);
    FieldUnfold(s, found);
    FieldUnfold(b + s, found);
    hide ReadField, ReadFields, Blank, Skip;
  }

  lemma FieldIgnoresBlank(b: seq<Byte>, s: seq<Byte>)
    requires Blank(b)
    ensures ReadField(b + s) == ReadField(s)
  {
    SkipBlank(b, s);
    hide Skip, Blank, ReadString;
  }

  lemma ListStarts(fs: seq<Field>, tail: seq<Byte>)
    requires fs != [] && ValidFields(fs)
    ensures Skip(Listed(fs) + tail) != [] && Skip(Listed(fs) + tail)[0] == 34
  {
    hide Blank, Skip, Field.Text, Written.Valid;
    var f := fs[0];
    var more := (if |fs| == 1 then [] else Ascii(",") + Listed(fs[1..])) + tail;
    assert Listed(fs) + tail == f.Text() + more;
    FieldTail(f, more);
    var text := f.key.Text() + (f.b1 + (Ascii(":") + (f.b2 + (f.value.Text() + (f.b3 + more)))));
    SkipBlank(f.b0, text);
    assert text[0] == 34;
    NotBlank(text);
    Solid(text);
  }

  /** Reading past the opening brace. */
  lemma OpenRead(before: seq<Byte>, body: seq<Byte>)
    requires Blank(before)
    ensures ReadObject(before + (Ascii("{") + body)) ==
      var b := Skip(body);
      if b != [] && b[0] == CLOSE then (if Skip(b[1..]) == [] then Some(map[]) else None) else ReadFields(b, map[])
  {
    hide Skip, ReadFields, Blank;
    Marks();
    SkipBlank(before, [123] + body);
    NotBlank([123] + body);
    Solid([123] + body);
    assert ([123] + body)[1..] == body;
  }

  /** Whatever blanks stand around its tokens and however its strings are spelled, a document is read. */
  lemma DocumentRead(d: Document)
    requires d.Valid()
    ensures ReadObject(d.Text()) == Some(MapOf(PairsOf(d.fields), map[]))
  {
    hide Skip, ReadFields, Blank, ReadObject, MapOf, PairsOf, Listed;
    Marks();
    var list := Listed(d.fields) + ([125] + d.behind);
    OpenRead(d.before, d.inside + list);
    SkipBlank(d.inside, list);
    if d.fields == [] {
      assert list == [125] + d.behind by { NoList(); }
      NotBlank(list);
      Solid(list);
      assert list[1..] == d.behind;
      NothingBehind(d.behind);
      NoPairs(map[]);
    } else {
      ListStarts(d.fields, [125] + d.behind);
      FieldsRead(d.fields, d.behind, map[]);
      var b := SkippedIsBlank(list);
      ListIgnoresBlank(b, Skip(list), map[]);
    }
  }

  lemma NoList()
    ensures Listed([]) == []
  {
  }

  /** Whatever is read is such a document. */
  lemma DocumentWritten(input: seq<Byte>) returns (d: Document)
    requires ReadObject(input).Some?
    ensures d.Valid() && input == d.Text() && ReadObject(input) == Some(MapOf(PairsOf(d.fields), map[]))
  {
    hide Skip, ReadFields, Blank, MapOf, PairsOf, Listed, ValidFields;
    Marks();
    var before := SkippedIsBlank(input);
    var s := Skip(input);
    var inside := SkippedIsBlank(s[1..]);
    var body := Skip(s[1..]);
    assert s == [123] + s[1..];
    if body != [] && body[0] == CLOSE {
      d := Document(before, inside, [], body[1..]);
      NothingBehind(body[1..]);
      NoList();
      NoPairs(map[]);
      assert ValidFields([]) by { NoFieldsValid(); }
      assert body == [125] + body[1..] == [] + ([125] + body[1..]);
    } else {
      var fs, behind := FieldsWritten(body, map[]);
      d := Document(before, inside, fs, behind);
    }
  }

  lemma NoFieldsValid()
    ensures ValidFields([])
  {
  }

  ghost predicate Denotes(input: seq<Byte>, m: Object, d: Document) {
    d.Valid() && input == d.Text() && m == MapOf(PairsOf(d.fields), map[])
  }

  /**
   The parser accepts exactly the documents: one object of string fields with blanks anywhere
   between tokens. It gives the map in which the last of equal keys wins.
   */
  lemma AcceptedIff(input: seq<Byte>, m: Object)
    ensures ReadObject(input) == Some(m) <==> exists d :: Denotes(input, m, d)
  {
    hide ReadObject, Document.Valid, Document.Text, MapOf, PairsOf;
    if ReadObject(input) == Some(m) {
      var d := DocumentWritten(input);
      assert Denotes(input, m, d);
    }
    forall d | Denotes(input, m, d) ensures ReadObject(input) == Some(m) {
      DocumentRead(d);
    }
  }

  /** Bytes that the printer puts behind a backslash. */
  predicate Special(c: Byte) {
    c == 34 || c == 92 || c == 8 || c == 9 || c == 10 || c == 12 || c == 13
  }

  /** What the printer writes is a way of writing the string, with a backslash only where it is needed. */
  lemma {:induction false} EscapeIsWritten(s: seq<Byte>) returns (w: Written)
    ensures w.Valid() && w.value == s && Escape(s) == Flatten(w.pieces)
    ensures forall i :: 0 <= i < |s| ==> (|w.pieces[i]| == 2 <==> Special(s[i]))
  {
    if s == [] {
      w := Written([], []);
    } else {
      var more := EscapeIsWritten(s[1..]);
      var piece := EscapeByte(s[0]);
      assert Spells(piece, s[0]) && (|piece| == 2 <==> Special(s[0]));
      hide EscapeByte, Spells, Special;
      w := WrittenCons(piece, s[0], more);
      w := Written([piece] + more.pieces, s);
      assert w.pieces[1..] == more.pieces;
    }
  }
}
