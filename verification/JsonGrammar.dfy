/**
 The grammar is unambiguous: a text determines its concrete syntax tree, white space, escapes and all.
 Two trees whose texts agree up to a terminator are the same tree.
 */
module JsonGrammar {
  import opened JsonText

  /** Equal texts split at equal lengths agree on both parts. */
  lemma Cancel(a: string, r: string, b: string, s: string)
    requires a + r == b + s && |a| == |b|
    ensures a == b && r == s
  {
    assert a == (a + r)[..|a|] && b == (b + s)[..|b|];
    assert r == (a + r)[|a|..] && s == (b + s)[|b|..];
  }

  lemma Assoc(a: string, b: string, c: string)
    ensures a + b + c == a + (b + c)
  {
  }

  lemma NextCharacter(a: string, r: string, b: string, s: string)
    requires a + r == b + s && |b| < |a|
    ensures s != "" && s[0] == a[|b|]
  {
    assert a[|b|] == (a + r)[|b|];
  }

  lemma RunIsNotLonger(p: char -> bool, a: string, r: string, b: string, s: string)
    requires forall i :: 0 <= i < |a| ==> p(a[i])
    requires s != "" ==> !p(s[0])
    requires a + r == b + s
    ensures |a| <= |b|
  {
    if |b| < |a| {
      NextCharacter(a, r, b, s);
    }
  }

  /** A maximal run of characters of one class is determined by the text it starts. */
  lemma RunIsUnique(p: char -> bool, a: string, r: string, b: string, s: string)
    requires forall i :: 0 <= i < |a| ==> p(a[i])
    requires forall i :: 0 <= i < |b| ==> p(b[i])
    requires r != "" ==> !p(r[0])
    requires s != "" ==> !p(s[0])
    requires a + r == b + s
    ensures a == b && r == s
  {
    RunIsNotLonger(p, a, r, b, s);
    RunIsNotLonger(p, b, s, a, r);
    Cancel(a, r, b, s);
  }

  lemma SpaceIsUnique(a: string, r: string, b: string, s: string)
    requires AllSpace(a) && AllSpace(b) && a + r == b + s
    requires r != "" ==> !IsSpace(r[0])
    requires s != "" ==> !IsSpace(s[0])
    ensures a == b && r == s
  {
    RunIsUnique(IsSpace, a, r, b, s);
  }

  // ----- strings

  lemma PieceIsUnique(p: Piece, r: string, q: Piece, s: string)
    requires ValidPiece(p) && ValidPiece(q) && PieceText(p) + r == PieceText(q) + s
    ensures p == q && r == s
  {
    var t := PieceText(p) + r;
    assert t[0] == PieceText(p)[0] == PieceText(q)[0];
    if p.Raw? {
      Cancel(PieceText(p), r, PieceText(q), s);
    } else {
      assert t[1] == PieceText(p)[1] == PieceText(q)[1];
      if p.Short? {
        Cancel(PieceText(p), r, PieceText(q), s);
      } else {
        EscapeIsUnique(p, r, q, s);
      }
    }
  }

  function FirstQuad(p: Piece): string
    requires p.Hex? || p.Surrogates?
  {
    if p.Hex? then p.digits else p.high
  }

  lemma EscapeIsUnique(p: Piece, r: string, q: Piece, s: string)
    requires ValidPiece(p) && ValidPiece(q) && PieceText(p) + r == PieceText(q) + s
    requires (p.Hex? || p.Surrogates?) && (q.Hex? || q.Surrogates?)
    ensures p == q && r == s
  {
    var t := PieceText(p) + r;
    assert t[2..6] == FirstQuad(p);
    assert t[2..6] == FirstQuad(q) by { assert t == PieceText(q) + s; }
    Cancel(PieceText(p), r, PieceText(q), s);
    if p.Surrogates? {
      assert PieceText(p)[8..12] == p.low && PieceText(q)[8..12] == q.low;
    }
  }

  lemma QuoteIsNoPiece(p: Piece, r: string, s: string)
    requires ValidPiece(p)
    ensures PieceText(p) + r != "\"" + s
  {
    assert (PieceText(p) + r)[0] == PieceText(p)[0];
  }

  lemma SplitPieces(ps: seq<Piece>, tail: string)
    requires ps != []
    ensures PiecesText(ps) + tail == PieceText(ps[0]) + (PiecesText(ps[1..]) + tail)
  {
    Assoc(PieceText(ps[0]), PiecesText(ps[1..]), tail);
  }

  lemma {:induction false} PiecesAreUnique(ps: seq<Piece>, r: string, qs: seq<Piece>, s: string)
    requires ValidPieces(ps) && ValidPieces(qs)
    requires PiecesText(ps) + ("\"" + r) == PiecesText(qs) + ("\"" + s)
    ensures ps == qs && r == s
  {
    var x, y := "\"" + r, "\"" + s;
    if ps == [] && qs == [] {
      assert "" + x == x && "" + y == y;
      Cancel("\"", r, "\"", s);
    } else if ps == [] {
      assert "" + x == x;
      SplitPieces(qs, y);
      QuoteIsNoPiece(qs[0], PiecesText(qs[1..]) + y, r);
    } else if qs == [] {
      assert "" + y == y;
      SplitPieces(ps, x);
      QuoteIsNoPiece(ps[0], PiecesText(ps[1..]) + x, s);
    } else {
      SplitPieces(ps, x);
      SplitPieces(qs, y);
      PieceIsUnique(ps[0], PiecesText(ps[1..]) + x, qs[0], PiecesText(qs[1..]) + y);
      PiecesAreUnique(ps[1..], r, qs[1..], s);
    }
  }

  lemma QuotedAssoc(body: string, r: string)
    ensures "\"" + body + "\"" + r == "\"" + (body + ("\"" + r))
  {
    Assoc("\"" + body, "\"", r);
    Assoc("\"", body, "\"" + r);
  }

  lemma StringIsUnique(ps: seq<Piece>, r: string, qs: seq<Piece>, s: string)
    requires ValidPieces(ps) && ValidPieces(qs)
    requires "\"" + PiecesText(ps) + "\"" + r == "\"" + PiecesText(qs) + "\"" + s
    ensures ps == qs && r == s
  {
    var p, q := PiecesText(ps), PiecesText(qs);
    QuotedAssoc(p, r);
    QuotedAssoc(q, s);
    Cancel("\"", p + ("\"" + r), "\"", q + ("\"" + s));
    PiecesAreUnique(ps, r, qs, s);
  }

  // ----- documents

  /** A text that cannot continue a number. */
  predicate Terminates(r: string) {
    r != "" ==> !IsNumberChar(r[0])
  }

  /** What may follow an entry: the end of the text, a comma or a closing bracket. */
  predicate Delimits(r: string) {
    r != "" ==> r[0] == ',' || r[0] == ']' || r[0] == '}'
  }

  datatype Class = WordClass(l: Literal) | NumberClass | StringClass | GroupClass(k: Kind) | OtherClass

  function ClassOfChar(c: char): Class {
    if c == 'n' then WordClass(NullWord)
    else if c == 't' then WordClass(TrueWord)
    else if c == 'f' then WordClass(FalseWord)
    else if c == '-' || '0' <= c <= '9' then NumberClass
    else if c == '"' then StringClass
    else if c == '[' then GroupClass(Brackets)
    else if c == '{' then GroupClass(Braces)
    else OtherClass
  }

  function ClassOf(d: Doc): Class {
    match d
    case Word(l) => WordClass(l)
    case Num(_) => NumberClass
    case Quoted(_) => StringClass
    case Group(k, _, _) => GroupClass(k)
  }

  /** The first character of a document's text names its kind. */
  lemma FirstCharacter(d: Doc)
    requires WellFormed(d)
    ensures Text(d) != "" && ClassOfChar(Text(d)[0]) == ClassOf(d) && ClassOf(d) != OtherClass
    ensures !IsSpace(Text(d)[0])
  {
    if d.Num? {
      NumberShape(d.token);
    }
  }

  lemma {:induction false} DocIsUnique(d: Doc, r: string, e: Doc, s: string)
    requires WellFormed(d) && WellFormed(e) && Terminates(r) && Terminates(s)
    requires Text(d) + r == Text(e) + s
    ensures d == e && r == s
    decreases d, 0
  {
    FirstCharacter(d);
    FirstCharacter(e);
    assert (Text(d) + r)[0] == Text(d)[0] && (Text(e) + s)[0] == Text(e)[0];
    assert ClassOf(d) == ClassOf(e);
    match d {
      case Word(_) =>
        Cancel(Text(d), r, Text(e), s);
      case Num(t) =>
        NumberShape(t);
        NumberShape(e.token);
        RunIsUnique(IsNumberChar, t, r, e.token, s);
      case Quoted(ps) =>
        StringIsUnique(ps, r, e.pieces, s);
      case Group(k, pad, es) =>
        var x, y := EntriesText(es) + ([Closing(k)] + r), EntriesText(e.entries) + ([Closing(k)] + s);
        assert Text(d) + r == [Opening(k)] + (pad + x);
        assert Text(e) + s == [Opening(k)] + (e.pad + y);
        Cancel([Opening(k)], pad + x, [Opening(k)], e.pad + y);
        if es != [] && e.entries != [] {
          assert pad + x == x && e.pad + y == y;
          EntriesAreUnique(k, es, r, e.entries, s);
        } else if es == [] && e.entries == [] {
          assert x == [Closing(k)] + r && y == [Closing(k)] + s;
          SpaceIsUnique(pad, x, e.pad, y);
          Cancel([Closing(k)], r, [Closing(k)], s);
        } else if es == [] {
          assert x == [Closing(k)] + r && e.pad + y == y;
          EmptyIsNotEntries(k, pad, r, e.entries, s);
        } else {
          assert y == [Closing(k)] + s && pad + x == x;
          EmptyIsNotEntries(k, e.pad, s, es, r);
        }
    }
  }

  /** After its leading white space an entry starts with a character that is neither space nor delimiter. */
  lemma EntryCore(k: Kind, e: Entry)
    requires WellFormedEntry(k, e)
    ensures Core(e) != "" && !IsSpace(Core(e)[0]) && ClassOfChar(Core(e)[0]) != OtherClass
  {
    FirstCharacter(e.doc);
    if e.tag.NoTag? {
      assert Core(e)[0] == Text(e.doc)[0];
    } else {
      assert Core(e)[0] == '"';
    }
  }

  function Core(e: Entry): string {
    TagText(e.tag) + (Text(e.doc) + e.post)
  }

  lemma EntryAssoc(e: Entry, r: string)
    ensures EntryText(e) + r == e.pre + (Core(e) + r)
    ensures Core(e) + r == TagText(e.tag) + (Text(e.doc) + (e.post + r))
  {
    var tag, doc := TagText(e.tag), Text(e.doc);
    Assoc(e.pre, Core(e), r);
    Assoc(tag, doc + e.post, r);
    Assoc(doc, e.post, r);
  }

  function RestOf(es: seq<Entry>, tail: string): string
    requires es != []
  {
    if |es| == 1 then tail else "," + (EntriesText(es[1..]) + tail)
  }

  lemma SplitEntries(es: seq<Entry>, tail: string)
    requires es != []
    ensures EntriesText(es) + tail == EntryText(es[0]) + RestOf(es, tail)
  {
    if |es| > 1 {
      Assoc(EntryText(es[0]), "," + EntriesText(es[1..]), tail);
      Assoc(",", EntriesText(es[1..]), tail);
    }
  }

  lemma EmptyIsNotEntries(k: Kind, pad: string, r: string, es: seq<Entry>, s: string)
    requires AllSpace(pad) && es != [] && WellFormedEntries(k, es)
    ensures pad + ([Closing(k)] + r) != EntriesText(es) + ([Closing(k)] + s)
  {
    var e, tail := es[0], [Closing(k)] + s;
    SplitEntries(es, tail);
    EntryCore(k, e);
    EntryAssoc(e, RestOf(es, tail));
    var x := Core(e) + RestOf(es, tail);
    assert x[0] == Core(e)[0];
    if pad + ([Closing(k)] + r) == EntriesText(es) + tail {
      SpaceIsUnique(pad, [Closing(k)] + r, e.pre, x);
    }
  }

  lemma {:induction false} FirstEntryIsUnique(k: Kind, es: seq<Entry>, r: string, fs: seq<Entry>, s: string)
    requires es != [] && fs != [] && WellFormedEntries(k, es) && WellFormedEntries(k, fs)
    requires EntriesText(es) + ([Closing(k)] + r) == EntriesText(fs) + ([Closing(k)] + s)
    ensures es[0] == fs[0] && RestOf(es, [Closing(k)] + r) == RestOf(fs, [Closing(k)] + s)
    ensures |es| == 1 <==> |fs| == 1
    decreases es, 0
  {
    var x, y := [Closing(k)] + r, [Closing(k)] + s;
    SplitEntries(es, x);
    SplitEntries(fs, y);
    RestDelimits(k, es, r);
    RestDelimits(k, fs, s);
    EntryIsUnique(k, es[0], RestOf(es, x), fs[0], RestOf(fs, y));
  }

  lemma {:induction false} RestDelimits(k: Kind, es: seq<Entry>, r: string)
    requires es != []
    ensures var rest := RestOf(es, [Closing(k)] + r);
      Delimits(rest) && rest[0] == if |es| == 1 then Closing(k) else ','
  {
  }

  lemma {:induction false} EntriesAreUnique(k: Kind, es: seq<Entry>, r: string, fs: seq<Entry>, s: string)
    requires es != [] && fs != [] && WellFormedEntries(k, es) && WellFormedEntries(k, fs)
    requires EntriesText(es) + ([Closing(k)] + r) == EntriesText(fs) + ([Closing(k)] + s)
    ensures es == fs && r == s
    decreases es, 1
  {
    var x, y := [Closing(k)] + r, [Closing(k)] + s;
    FirstEntryIsUnique(k, es, r, fs, s);
    if |es| == 1 {
      Cancel([Closing(k)], r, [Closing(k)], s);
      assert es == [es[0]] && fs == [fs[0]];
    } else {
      Cancel(",", EntriesText(es[1..]) + x, ",", EntriesText(fs[1..]) + y);
      EntriesAreUnique(k, es[1..], r, fs[1..], s);
      assert es == [es[0]] + es[1..] && fs == [fs[0]] + fs[1..];
    }
  }

  lemma {:induction false} EntryIsUnique(k: Kind, e: Entry, r: string, f: Entry, s: string)
    requires WellFormedEntry(k, e) && WellFormedEntry(k, f) && Delimits(r) && Delimits(s)
    requires EntryText(e) + r == EntryText(f) + s
    ensures e == f && r == s
    decreases e, 0
  {
    EntryAssoc(e, r);
    EntryAssoc(f, s);
    EntryCore(k, e);
    EntryCore(k, f);
    StartsLike(Core(e), r);
    StartsLike(Core(f), s);
    SpaceIsUnique(e.pre, Core(e) + r, f.pre, Core(f) + s);
    FirstCharacter(e.doc);
    FirstCharacter(f.doc);
    StartsLike(Text(e.doc), e.post + r);
    StartsLike(Text(f.doc), f.post + s);
    TagIsUnique(k, e.tag, Text(e.doc) + (e.post + r), f.tag, Text(f.doc) + (f.post + s));
    AfterDocument(e.post, r);
    AfterDocument(f.post, s);
    DocIsUnique(e.doc, e.post + r, f.doc, f.post + s);
    SpaceIsUnique(e.post, r, f.post, s);
  }

  lemma StartsLike(a: string, r: string)
    requires a != ""
    ensures a + r != "" && (a + r)[0] == a[0]
  {
  }

  lemma AfterDocument(post: string, r: string)
    requires AllSpace(post) && Delimits(r)
    ensures Terminates(post + r)
  {
    if post != "" {
      assert (post + r)[0] == post[0];
    } else {
      assert post + r == r;
    }
  }

  lemma KeyAssoc(t: Tag, r: string)
    requires t.KeyTag?
    ensures TagText(t) + r == "\"" + PiecesText(t.key) + "\"" + (t.beforeColon + (":" + (t.afterColon + r)))
  {
    Assoc("\"" + PiecesText(t.key) + "\"", t.beforeColon + (":" + t.afterColon), r);
    Assoc(t.beforeColon, ":" + t.afterColon, r);
    Assoc(":", t.afterColon, r);
  }

  lemma TagIsUnique(k: Kind, t: Tag, r: string, u: Tag, s: string)
    requires WellFormedTag(k, t) && WellFormedTag(k, u) && TagText(t) + r == TagText(u) + s
    requires r != "" && !IsSpace(r[0]) && s != "" && !IsSpace(s[0])
    ensures t == u && r == s
  {
    if t.NoTag? {
      assert TagText(t) + r == r && TagText(u) + s == s;
    } else {
      var q, v := ":" + (t.afterColon + r), ":" + (u.afterColon + s);
      KeyAssoc(t, r);
      KeyAssoc(u, s);
      StringIsUnique(t.key, t.beforeColon + q, u.key, u.beforeColon + v);
      SpaceIsUnique(t.beforeColon, q, u.beforeColon, v);
      Cancel(":", t.afterColon + r, ":", u.afterColon + s);
      SpaceIsUnique(t.afterColon, r, u.afterColon, s);
    }
  }

  /** A JSON text has exactly one reading. */
  lemma DocumentIsUnique(e: Entry, f: Entry, s: string)
    requires IsDocument(e, s) && IsDocument(f, s)
    ensures e == f
  {
    assert EntryText(e) + "" == EntryText(f) + "";
    EntryIsUnique(Brackets, e, "", f, "");
  }
}
