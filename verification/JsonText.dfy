/**
 JSON values and their texts, following sections 2 to 7 of RFC 8259.

 A text is modelled byte by byte: each element of a string here stands for one byte of the UTF-8
 text, so lengths are byte counts. A Doc is a concrete syntax tree: it fixes every choice the grammar leaves
 open (white space, escapes, the spelling of numbers), Text prints it and ValueOf forgets the choices.
 */
module JsonText {
  /** A number keeps its spelling; a string keeps its decoded bytes; members keep their order. */
  datatype Json =
    | Null
    | Bool(b: bool)
    | Number(token: string)
    | Str(chars: string)
    | Array(items: seq<Json>)
    | Object(members: seq<Member>)

  datatype Member = Member(key: string, value: Json)

  /** How one piece of a string is written: as itself, or by one of the three kinds of escape. */
  datatype Piece = Raw(c: char) | Short(c: char) | Hex(digits: string) | Surrogates(high: string, low: string)

  datatype Literal = NullWord | TrueWord | FalseWord

  datatype Kind = Brackets | Braces

  datatype Doc =
    | Word(literal: Literal)
    | Num(token: string)
    | Quoted(pieces: seq<Piece>)
    | Group(kind: Kind, pad: string, entries: seq<Entry>)

  /** One element of an array or one member of an object, with its surrounding white space. */
  datatype Entry = Entry(pre: string, tag: Tag, doc: Doc, post: string)

  datatype Tag = NoTag | KeyTag(key: seq<Piece>, beforeColon: string, afterColon: string)

  function Max(a: nat, b: nat): nat {
    if a < b then b else a
  }

  // ----- characters

  predicate IsSpace(c: char) {
    c == ' ' || c == '\t' || c == '\n' || c == '\r'
  }

  predicate AllSpace(s: string) {
    forall i :: 0 <= i < |s| ==> IsSpace(s[i])
  }

  predicate IsNumberChar(c: char) {
    '0' <= c <= '9' || c == '-' || c == '+' || c == '.' || c == 'e' || c == 'E'
  }

  predicate IsHexDigit(c: char) {
    '0' <= c <= '9' || 'a' <= c <= 'f' || 'A' <= c <= 'F'
  }

  function HexDigitValue(c: char): (v: nat)
    requires IsHexDigit(c)
    ensures v < 16
  {
    if c <= '9' then c as int - '0' as int
    else if c <= 'F' then c as int - 'A' as int + 10
    else c as int - 'a' as int + 10
  }

  predicate IsHexQuad(s: string) {
    |s| == 4 && forall i :: 0 <= i < 4 ==> IsHexDigit(s[i])
  }

  function QuadValue(s: string): (v: nat)
    requires IsHexQuad(s)
    ensures v < 0x10000
  {
    ((HexDigitValue(s[0]) * 16 + HexDigitValue(s[1])) * 16 + HexDigitValue(s[2])) * 16 + HexDigitValue(s[3])
  }

  predicate IsHigh(v: nat) { 0xD800 <= v <= 0xDBFF }

  predicate IsLow(v: nat) { 0xDC00 <= v <= 0xDFFF }

  // ----- numbers (section 6)

  predicate DigitRun(s: string) {
    s != "" && forall i :: 0 <= i < |s| ==> '0' <= s[i] <= '9'
  }

  predicate IntegerPart(s: string) {
    DigitRun(s) && (|s| > 1 ==> s[0] != '0')
  }

  predicate FractionPart(s: string) {
    s == "" || (s[0] == '.' && DigitRun(s[1..]))
  }

  predicate ExponentPart(s: string) {
    s == "" || ((s[0] == 'e' || s[0] == 'E') &&
                (DigitRun(s[1..]) || (|s| > 1 && (s[1] == '+' || s[1] == '-') && DigitRun(s[2..]))))
  }

  ghost predicate UnsignedNumber(s: string) {
    exists i, j :: 0 <= i <= j <= |s| && IntegerPart(s[..i]) && FractionPart(s[i..j]) && ExponentPart(s[j..])
  }

  ghost predicate IsNumber(s: string) {
    UnsignedNumber(s) || (s != "" && s[0] == '-' && UnsignedNumber(s[1..]))
  }

  lemma UnsignedNumberShape(s: string)
    requires UnsignedNumber(s)
    ensures s != "" && '0' <= s[0] <= '9'
    ensures forall k :: 0 <= k < |s| ==> IsNumberChar(s[k])
  {
    var i, j :| 0 <= i <= j <= |s| && IntegerPart(s[..i]) && FractionPart(s[i..j]) && ExponentPart(s[j..]);
    assert s[..i][0] == s[0];
    forall k | 0 <= k < |s|
      ensures IsNumberChar(s[k])
    {
      if k < i {
        assert s[..i][k] == s[k];
      } else if k < j {
        assert s[i..j][k - i] == s[k];
        if k > i { assert s[i..j][1..][k - i - 1] == s[k]; }
      } else {
        assert s[j..][k - j] == s[k];
        if k > j { assert s[j..][1..][k - j - 1] == s[k]; }
        if k > j + 1 { assert s[j..][2..][k - j - 2] == s[k]; }
      }
    }
  }

  lemma NumberShape(s: string)
    requires IsNumber(s)
    ensures s != "" && (s[0] == '-' || '0' <= s[0] <= '9')
    ensures forall k :: 0 <= k < |s| ==> IsNumberChar(s[k])
  {
    if UnsignedNumber(s) {
      UnsignedNumberShape(s);
    } else {
      UnsignedNumberShape(s[1..]);
      forall k | 0 < k < |s|
        ensures IsNumberChar(s[k])
      {
        assert s[k] == s[1..][k - 1];
      }
    }
  }

  // ----- strings (section 7)

  predicate ValidPiece(p: Piece) {
    match p
    case Raw(c) => c as int >= 0x20 && c != '"' && c != '\\'
    case Short(c) => c in "\"\\/bfnrt"
    case Hex(d) => IsHexQuad(d) && !IsHigh(QuadValue(d)) && !IsLow(QuadValue(d))
    case Surrogates(h, l) => IsHexQuad(h) && IsHexQuad(l) && IsHigh(QuadValue(h)) && IsLow(QuadValue(l))
  }

  function PieceText(p: Piece): (s: string)
    ensures s != ""
  {
    match p
    case Raw(c) => [c]
    case Short(c) => ['\\', c]
    case Hex(d) => "\\u" + d
    case Surrogates(h, l) => "\\u" + h + "\\u" + l
  }

  /** The UTF-8 bytes of one Unicode scalar value. */
  function Utf8(code: nat): string
    requires code < 0x110000
  {
    if code < 0x80 then [code as char]
    else if code < 0x800 then [(0xC0 + code / 64) as char, (0x80 + code % 64) as char]
    else if code < 0x10000 then
      [(0xE0 + code / 4096) as char, (0x80 + code / 64 % 64) as char, (0x80 + code % 64) as char]
    else
      [(0xF0 + code / 262144) as char, (0x80 + code / 4096 % 64) as char,
       (0x80 + code / 64 % 64) as char, (0x80 + code % 64) as char]
  }

  function PieceBytes(p: Piece): string
    requires ValidPiece(p)
  {
    match p
    case Raw(c) => [c]
    case Short(c) =>
      if c == 'b' then [0x08 as char] else if c == 'f' then [0x0C as char] else if c == 'n' then [0x0A as char]
      else if c == 'r' then [0x0D as char] else if c == 't' then [0x09 as char] else [c]
    case Hex(d) => Utf8(QuadValue(d))
    case Surrogates(h, l) => Utf8(0x10000 + (QuadValue(h) - 0xD800) * 0x400 + (QuadValue(l) - 0xDC00))
  }

  predicate ValidPieces(ps: seq<Piece>) {
    forall i :: 0 <= i < |ps| ==> ValidPiece(ps[i])
  }

  function PiecesText(ps: seq<Piece>): string {
    if ps == [] then "" else PieceText(ps[0]) + PiecesText(ps[1..])
  }

  function PiecesBytes(ps: seq<Piece>): string
    requires ValidPieces(ps)
  {
    if ps == [] then "" else PieceBytes(ps[0]) + PiecesBytes(ps[1..])
  }

  // ----- documents (sections 2 to 5)

  function WordText(l: Literal): string {
    match l case NullWord => "null" case TrueWord => "true" case FalseWord => "false"
  }

  function Opening(k: Kind): char {
    if k.Brackets? then '[' else '{'
  }

  function Closing(k: Kind): char {
    if k.Brackets? then ']' else '}'
  }

  function Text(d: Doc): string
    decreases d
  {
    match d
    case Word(l) => WordText(l)
    case Num(t) => t
    case Quoted(ps) => "\"" + PiecesText(ps) + "\""
    case Group(k, pad, es) => [Opening(k)] + (pad + EntriesText(es)) + [Closing(k)]
  }

  function EntriesText(es: seq<Entry>): string
    decreases es
  {
    if es == [] then ""
    else if |es| == 1 then EntryText(es[0])
    else EntryText(es[0]) + ("," + EntriesText(es[1..]))
  }

  function EntryText(e: Entry): string
    decreases e
  {
    e.pre + (TagText(e.tag) + (Text(e.doc) + e.post))
  }

  function TagText(t: Tag): string {
    match t
    case NoTag => ""
    case KeyTag(k, b, a) => "\"" + PiecesText(k) + "\"" + (b + (":" + a))
  }

  ghost predicate WellFormed(d: Doc)
    decreases d
  {
    match d
    case Word(_) => true
    case Num(t) => IsNumber(t)
    case Quoted(ps) => ValidPieces(ps)
    case Group(k, pad, es) => AllSpace(pad) && (es != [] ==> pad == "") && WellFormedEntries(k, es)
  }

  ghost predicate WellFormedEntries(k: Kind, es: seq<Entry>)
    decreases es
  {
    es != [] ==> WellFormedEntry(k, es[0]) && WellFormedEntries(k, es[1..])
  }

  ghost predicate WellFormedEntry(k: Kind, e: Entry)
    decreases e
  {
    AllSpace(e.pre) && AllSpace(e.post) && WellFormedTag(k, e.tag) && WellFormed(e.doc)
  }

  predicate WellFormedTag(k: Kind, t: Tag) {
    match t
    case NoTag => k.Brackets?
    case KeyTag(key, b, a) => k.Braces? && ValidPieces(key) && AllSpace(b) && AllSpace(a)
  }

  ghost function ValueOf(d: Doc): Json
    requires WellFormed(d)
    decreases d
  {
    match d
    case Word(l) => if l.NullWord? then Null else Bool(l.TrueWord?)
    case Num(t) => Number(t)
    case Quoted(ps) => Str(PiecesBytes(ps))
    case Group(k, _, es) => if k.Brackets? then Array(ItemsOf(es)) else Object(MembersOf(es))
  }

  ghost function ItemsOf(es: seq<Entry>): seq<Json>
    requires WellFormedEntries(Brackets, es)
    decreases es
  {
    if es == [] then [] else [EntryValue(Brackets, es[0])] + ItemsOf(es[1..])
  }

  ghost function MembersOf(es: seq<Entry>): seq<Member>
    requires WellFormedEntries(Braces, es)
    decreases es
  {
    if es == [] then [] else [Member(EntryKey(es[0]), EntryValue(Braces, es[0]))] + MembersOf(es[1..])
  }

  ghost function EntryKey(e: Entry): string
    requires WellFormedEntry(Braces, e)
  {
    PiecesBytes(e.tag.key)
  }

  ghost function EntryValue(k: Kind, e: Entry): Json
    requires WellFormedEntry(k, e)
    decreases e
  {
    ValueOf(e.doc)
  }

  /** s is a complete JSON text: one value with optional white space on both sides. */
  ghost predicate IsDocument(e: Entry, s: string) {
    WellFormedEntry(Brackets, e) && EntryText(e) == s
  }
}
