/**
 The two printers of `serde_json`, compact and pretty with two-space indentation, and the parser
 they share. Both printers choose one concrete syntax tree per value, so every fact about trees
 applies to them: printed text parses back to the value, and different values print differently.
 */
module JsonPrinter {
  import opened Results
  import opened JsonText
  import opened JsonGrammar
  import JsonScanner
  import Decimal

  datatype Style = Compact | Pretty

  /** Values a text can denote: numbers spelled by the grammar. */
  ghost predicate Printable(v: Json)
    decreases v
  {
    match v
    case Number(t) => IsNumber(t)
    case Array(items) => PrintableItems(items)
    case Object(members) => PrintableMembers(members)
    case _ => true
  }

  ghost predicate PrintableItems(items: seq<Json>)
    decreases items
  {
    items != [] ==> Printable(items[0]) && PrintableItems(items[1..])
  }

  ghost predicate PrintableMembers(members: seq<Member>)
    decreases members
  {
    members != [] ==> PrintableMember(members[0]) && PrintableMembers(members[1..])
  }

  ghost predicate PrintableMember(m: Member)
    decreases m
  {
    Printable(m.value)
  }

  // ----- strings

  function LowerHex(d: nat): (c: char)
    requires d < 16
    ensures IsHexDigit(c) && HexDigitValue(c) == d
  {
    if d < 10 then ('0' as int + d) as char else ('a' as int + d - 10) as char
  }

  /** How one byte of a string is written: the two-character escapes first, \u00xx for other controls. */
  function PieceOf(c: char): Piece {
    if c == '"' || c == '\\' then Short(c)
    else if c == 0x08 as char then Short('b')
    else if c == 0x0C as char then Short('f')
    else if c == 0x0A as char then Short('n')
    else if c == 0x0D as char then Short('r')
    else if c == 0x09 as char then Short('t')
    else if c as int < 0x20 then Hex(['0', '0', LowerHex(c as int / 16), LowerHex(c as int % 16)])
    else Raw(c)
  }

  function PiecesOf(s: string): seq<Piece> {
    if s == "" then [] else [PieceOf(s[0])] + PiecesOf(s[1..])
  }

  lemma PieceOfByte(c: char)
    ensures ValidPiece(PieceOf(c)) && PieceBytes(PieceOf(c)) == [c]
  {
    var p := PieceOf(c);
    if p.Hex? {
      assert QuadValue(p.digits) == c as int;
      assert Utf8(c as int) == [c];
    }
  }

  lemma {:induction false} PiecesOfBytes(s: string)
    ensures ValidPieces(PiecesOf(s)) && PiecesBytes(PiecesOf(s)) == s
  {
    if s != "" {
      PieceOfByte(s[0]);
      PiecesOfBytes(s[1..]);
      assert PiecesOf(s)[1..] == PiecesOf(s[1..]);
      assert s == [s[0]] + s[1..];
    }
  }

  // ----- values

  function Indent(level: nat): string {
    if level == 0 then "" else "  " + Indent(level - 1)
  }

  function NewLine(style: Style, level: nat): string {
    if style.Compact? then "" else "\n" + Indent(level)
  }

  lemma {:induction false} IndentIsSpace(level: nat)
    ensures AllSpace(Indent(level))
  {
    if level > 0 {
      IndentIsSpace(level - 1);
    }
  }

  lemma NewLineIsSpace(style: Style, level: nat)
    ensures AllSpace(NewLine(style, level))
  {
    IndentIsSpace(level);
  }

  function KeyOf(style: Style, key: string): Tag {
    KeyTag(PiecesOf(key), "", if style.Compact? then "" else " ")
  }

  function DocOf(v: Json, style: Style, level: nat): Doc
    decreases v
  {
    match v
    case Null => Word(NullWord)
    case Bool(b) => Word(if b then TrueWord else FalseWord)
    case Number(t) => Num(t)
    case Str(s) => Quoted(PiecesOf(s))
    case Array(items) => Group(Brackets, "", ItemEntries(items, style, level))
    case Object(members) => Group(Braces, "", MemberEntries(members, style, level))
  }

  function ItemEntries(items: seq<Json>, style: Style, level: nat): (es: seq<Entry>)
    ensures |es| == |items|
    decreases items
  {
    if items == [] then []
    else
      [Entry(NewLine(style, level + 1), NoTag, DocOf(items[0], style, level + 1),
             if |items| == 1 then NewLine(style, level) else "")]
      + ItemEntries(items[1..], style, level)
  }

  function MemberEntries(members: seq<Member>, style: Style, level: nat): (es: seq<Entry>)
    ensures |es| == |members|
    decreases members
  {
    if members == [] then []
    else
      [Entry(NewLine(style, level + 1), KeyOf(style, members[0].key), DocOf(members[0].value, style, level + 1),
             if |members| == 1 then NewLine(style, level) else "")]
      + MemberEntries(members[1..], style, level)
  }

  lemma {:induction false} DocOfDenotes(v: Json, style: Style, level: nat)
    requires Printable(v)
    ensures WellFormed(DocOf(v, style, level)) && ValueOf(DocOf(v, style, level)) == v
    decreases v
  {
    match v
    case Str(s) => PiecesOfBytes(s);
    case Array(items) => ItemEntriesDenote(items, style, level);
    case Object(members) => MemberEntriesDenote(members, style, level);
    case _ =>
  }

  lemma {:induction false} ItemEntriesDenote(items: seq<Json>, style: Style, level: nat)
    requires PrintableItems(items)
    ensures WellFormedEntries(Brackets, ItemEntries(items, style, level))
    ensures ItemsOf(ItemEntries(items, style, level)) == items
    decreases items
  {
    if items != [] {
      var es := ItemEntries(items, style, level);
      NewLineIsSpace(style, level + 1);
      NewLineIsSpace(style, level);
      DocOfDenotes(items[0], style, level + 1);
      ItemEntriesDenote(items[1..], style, level);
      assert es[1..] == ItemEntries(items[1..], style, level);
      assert WellFormedEntry(Brackets, es[0]) && EntryValue(Brackets, es[0]) == items[0];
    }
  }

  lemma {:induction false} MemberEntriesDenote(members: seq<Member>, style: Style, level: nat)
    requires PrintableMembers(members)
    ensures WellFormedEntries(Braces, MemberEntries(members, style, level))
    ensures MembersOf(MemberEntries(members, style, level)) == members
    decreases members
  {
    if members != [] {
      var es := MemberEntries(members, style, level);
      NewLineIsSpace(style, level + 1);
      NewLineIsSpace(style, level);
      DocOfDenotes(members[0].value, style, level + 1);
      MemberEntriesDenote(members[1..], style, level);
      KeyedEntryDenotes(members[0].key, style, es[0]);
      var rest := MemberEntries(members[1..], style, level);
      assert es == [es[0]] + rest;
      KeyedEntriesDenote(es[0], rest);
    }
  }

  lemma KeyedEntryDenotes(key: string, style: Style, e: Entry)
    requires e.tag == KeyOf(style, key) && AllSpace(e.pre) && AllSpace(e.post) && WellFormed(e.doc)
    ensures WellFormedEntry(Braces, e) && EntryKey(e) == key
  {
    PiecesOfBytes(key);
  }

  lemma KeyedEntriesDenote(e: Entry, rest: seq<Entry>)
    requires WellFormedEntry(Braces, e) && WellFormedEntries(Braces, rest)
    ensures WellFormedEntries(Braces, [e] + rest)
    ensures MembersOf([e] + rest) == [Member(EntryKey(e), EntryValue(Braces, e))] + MembersOf(rest)
  {
    assert ([e] + rest)[1..] == rest;
  }

  /** `to_string` and `to_string_pretty`. */
  function Print(v: Json, style: Style): string {
    Text(DocOf(v, style, 0))
  }

  lemma {:induction false} QuotedIsNotShorter(s: string)
    ensures |PiecesText(PiecesOf(s))| >= |s|
  {
    if s != "" {
      QuotedIsNotShorter(s[1..]);
      assert PiecesOf(s)[1..] == PiecesOf(s[1..]);
    }
  }

  /** A printed record is at least as long as any string among its values. */
  lemma {:induction false} MembersAreNotShorter(members: seq<Member>, style: Style, level: nat, i: nat, s: string)
    requires i < |members| && members[i].value == Str(s)
    ensures |EntriesText(MemberEntries(members, style, level))| >= |s|
  {
    var es := MemberEntries(members, style, level);
    if i == 0 {
      QuotedIsNotShorter(s);
      assert es[0].doc == Quoted(PiecesOf(s));
      assert |EntryText(es[0])| >= |Text(es[0].doc)| >= |s|;
      assert |EntriesText(es)| >= |EntryText(es[0])|;
    } else {
      MembersAreNotShorter(members[1..], style, level, i - 1, s);
      assert es[1..] == MemberEntries(members[1..], style, level);
    }
  }

  lemma PrintIsNotShorter(members: seq<Member>, style: Style, i: nat, s: string)
    requires i < |members| && members[i].value == Str(s)
    ensures |Print(Object(members), style)| >= |s|
  {
    MembersAreNotShorter(members, style, 0, i, s);
  }

  /** The value a text denotes, if it is a JSON text. */
  ghost function Parse(s: string): Option<Json> {
    if exists e :: IsDocument(e, s) then
      var e :| IsDocument(e, s);
      Some(EntryValue(Brackets, e))
    else None
  }

  /** Parsing does not depend on which reading of the text is found: there is only one. */
  lemma ParseIsDetermined(e: Entry, s: string)
    requires IsDocument(e, s)
    ensures Parse(s) == Some(EntryValue(Brackets, e))
  {
    forall f | IsDocument(f, s)
      ensures f == e
    {
      DocumentIsUnique(e, f, s);
    }
  }

  /** Printed text, with any white space around it, parses back to the value. */
  lemma ParsePrinted(v: Json, style: Style, pre: string, post: string)
    requires Printable(v) && AllSpace(pre) && AllSpace(post)
    ensures Parse(pre + Print(v, style) + post) == Some(v)
  {
    DocOfDenotes(v, style, 0);
    DocParses(DocOf(v, style, 0), pre, post);
  }

  lemma DocParses(d: Doc, pre: string, post: string)
    requires WellFormed(d) && AllSpace(pre) && AllSpace(post)
    ensures Parse(pre + Text(d) + post) == Some(ValueOf(d))
  {
    var e := Entry(pre, NoTag, d, post);
    assert EntryText(e) == pre + ("" + (Text(d) + post)) == pre + Text(d) + post;
    ParseIsDetermined(e, pre + Text(d) + post);
  }

  lemma ParsePrint(v: Json, style: Style)
    requires Printable(v)
    ensures Parse(Print(v, style)) == Some(v)
  {
    ParsePrinted(v, style, "", "");
    assert "" + Print(v, style) + "" == Print(v, style);
  }

  /** Different values print differently, even across the two styles. */
  lemma PrintIsInjective(v: Json, s: Style, w: Json, t: Style)
    requires Printable(v) && Printable(w) && Print(v, s) == Print(w, t)
    ensures v == w
  {
    ParsePrint(v, s);
    ParsePrint(w, t);
  }

  /** The scanner's verdict on printed text is the value's true nesting. */
  lemma PrintedNesting(v: Json, style: Style)
    requires Printable(v)
    ensures JsonScanner.Peak(JsonScanner.At(0), Print(v, style)) == JsonScanner.Nesting(v)
  {
    DocOfDenotes(v, style, 0);
    JsonScanner.DocIsBalanced(DocOf(v, style, 0), 0);
  }

  /** No strict prefix of a printed array or object parses, the empty text included. */
  lemma TornPrintDoesNotParse(v: Json, style: Style, torn: string)
    requires Printable(v) && (v.Array? || v.Object?)
    requires torn <= Print(v, style) && torn != Print(v, style)
    ensures Parse(torn) == None
  {
    DocOfDenotes(v, style, 0);
    forall e
      ensures !IsDocument(e, torn)
    {
      JsonScanner.StrictPrefixIsNoDocument(DocOf(v, style, 0), torn, e);
    }
  }

  // ----- unsigned integers

  function OfNat(n: nat): Json {
    Number(Decimal.Print(n))
  }

  lemma OfNatIsPrintable(n: nat)
    ensures Printable(OfNat(n))
  {
    var s := Decimal.Print(n);
    Decimal.PrintIsCanonical(n);
    assert s[..|s|] == s && s[|s|..|s|] == "" && s[|s|..] == "";
    assert IntegerPart(s[..|s|]) && FractionPart(s[|s|..|s|]) && ExponentPart(s[|s|..]);
  }
}
