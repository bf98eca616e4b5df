/**
 The byte scanner that bounds bracket nesting before a configuration is parsed
 (`reject_excessive_nesting`), against the true nesting of the value the text denotes.
 */
module JsonScanner {
  import opened JsonText

  const MAX_NESTING_DEPTH: nat := 8

  datatype State = State(depth: nat, quoted: bool, escaped: bool)

  function At(depth: nat): State {
    State(depth, false, false)
  }

  function Step(st: State, c: char): State {
    if st.quoted then
      if st.escaped then st.(escaped := false)
      else if c == '\\' then st.(escaped := true)
      else if c == '"' then st.(quoted := false)
      else st
    else if c == '"' then st.(quoted := true)
    else if c == '{' || c == '[' then st.(depth := st.depth + 1)
    else if c == '}' || c == ']' then st.(depth := if st.depth == 0 then 0 else st.depth - 1)
    else st
  }

  function Run(st: State, s: string): State
    decreases s
  {
    if s == "" then st else Run(Step(st, s[0]), s[1..])
  }

  /** The largest depth met while scanning s from st, the start included. */
  function Peak(st: State, s: string): (p: nat)
    ensures p >= st.depth
    decreases s
  {
    if s == "" then st.depth else Max(st.depth, Peak(Step(st, s[0]), s[1..]))
  }

  /** Scanning any strict prefix of s from st ends at depth k or more. */
  predicate StaysAbove(st: State, s: string, k: nat)
    decreases s
  {
    s != "" ==> st.depth >= k && StaysAbove(Step(st, s[0]), s[1..], k)
  }

  lemma {:induction false} ScanConcat(st: State, a: string, b: string, k: nat)
    ensures Run(st, a + b) == Run(Run(st, a), b)
    ensures Peak(st, a + b) == Max(Peak(st, a), Peak(Run(st, a), b))
    ensures StaysAbove(st, a + b, k) <==> StaysAbove(st, a, k) && StaysAbove(Run(st, a), b, k)
    decreases a
  {
    if a == "" {
      assert a + b == b;
    } else {
      assert (a + b)[1..] == a[1..] + b;
      ScanConcat(Step(st, a[0]), a[1..], b, k);
    }
  }

  /** The scanner loop: it stops at the first bracket beyond the bound. */
  method RejectExcessiveNesting(input: string) returns (ok: bool)
    ensures ok <==> Peak(At(0), input) <= MAX_NESTING_DEPTH
  {
    var depth: nat, quoted, escaped := 0, false, false;
    for i := 0 to |input|
      invariant Run(At(0), input[..i]) == State(depth, quoted, escaped)
      invariant depth <= Peak(At(0), input[..i]) <= MAX_NESTING_DEPTH
    {
      var byte := input[i];
      assert input[..i + 1] == input[..i] + [byte];
      ScanConcat(At(0), input[..i], [byte], 0);
      assert [byte][1..] == "";
      if quoted {
        if escaped {
          escaped := false;
        } else if byte == '\\' {
          escaped := true;
        } else if byte == '"' {
          quoted := false;
        }
        continue;
      }
      if byte == '"' {
        quoted := true;
      } else if byte == '{' || byte == '[' {
        depth := depth + 1;
        if depth > MAX_NESTING_DEPTH {
          assert input == input[..i + 1] + input[i + 1..];
          ScanConcat(At(0), input[..i + 1], input[i + 1..], 0);
          return false;
        }
      } else if byte == '}' || byte == ']' {
        depth := if depth == 0 then 0 else depth - 1;
      }
    }
    assert input[..|input|] == input;
    return true;
  }

  // ----- true nesting

  /** Brackets and braces around the deepest point of a value. */
  function Nesting(v: Json): nat
    decreases v
  {
    match v
    case Array(items) => 1 + NestingOfItems(items)
    case Object(members) => 1 + NestingOfMembers(members)
    case _ => 0
  }

  function NestingOfItems(items: seq<Json>): nat
    decreases items
  {
    if items == [] then 0 else Max(Nesting(items[0]), NestingOfItems(items[1..]))
  }

  function NestingOfMembers(members: seq<Member>): nat
    decreases members
  {
    if members == [] then 0 else Max(Nesting(members[0].value), NestingOfMembers(members[1..]))
  }

  ghost function NestingOfEntries(k: Kind, es: seq<Entry>): nat
    requires WellFormedEntries(k, es)
    decreases es
  {
    if es == [] then 0 else Max(Nesting(EntryValue(k, es[0])), NestingOfEntries(k, es[1..]))
  }

  lemma {:induction false} EntriesNestLikeItems(es: seq<Entry>)
    requires WellFormedEntries(Brackets, es)
    ensures NestingOfEntries(Brackets, es) == NestingOfItems(ItemsOf(es))
  {
    if es != [] {
      EntriesNestLikeItems(es[1..]);
      assert ItemsOf(es)[1..] == ItemsOf(es[1..]);
    }
  }

  lemma {:induction false} EntriesNestLikeMembers(es: seq<Entry>)
    requires WellFormedEntries(Braces, es)
    ensures NestingOfEntries(Braces, es) == NestingOfMembers(MembersOf(es))
  {
    if es != [] {
      EntriesNestLikeMembers(es[1..]);
      assert MembersOf(es)[1..] == MembersOf(es[1..]);
    }
  }

  // ----- scanning documents

  /** From depth k the text s returns to depth k, climbs exactly h, and never dips below k on the way. */
  predicate Balanced(s: string, k: nat, h: nat) {
    Run(At(k), s) == At(k) && Peak(At(k), s) == k + h && StaysAbove(At(k), s, k)
  }

  lemma BalancedConcat(a: string, b: string, k: nat, h1: nat, h2: nat)
    requires Balanced(a, k, h1) && Balanced(b, k, h2)
    ensures Balanced(a + b, k, Max(h1, h2))
  {
    ScanConcat(At(k), a, b, k);
  }

  predicate IsInert(c: char) {
    c != '"' && c != '{' && c != '[' && c != '}' && c != ']'
  }

  lemma {:induction false} InertIsBalanced(s: string, k: nat)
    requires forall i :: 0 <= i < |s| ==> IsInert(s[i])
    ensures Balanced(s, k, 0)
  {
    if s != "" {
      InertIsBalanced(s[1..], k);
    }
  }

  function Inside(k: nat): State {
    State(k, true, false)
  }

  predicate KeepsInside(s: string, k: nat) {
    Run(Inside(k), s) == Inside(k) && Peak(Inside(k), s) == k && StaysAbove(Inside(k), s, k)
  }

  lemma {:induction false} PlainKeepsInside(s: string, k: nat)
    requires forall i :: 0 <= i < |s| ==> s[i] != '"' && s[i] != '\\'
    ensures KeepsInside(s, k)
  {
    if s != "" {
      PlainKeepsInside(s[1..], k);
    }
  }

  lemma KeepsInsideConcat(a: string, b: string, k: nat)
    requires KeepsInside(a, k) && KeepsInside(b, k)
    ensures KeepsInside(a + b, k)
  {
    ScanConcat(Inside(k), a, b, k);
  }

  lemma EscapeKeepsInside(c: char, k: nat)
    ensures KeepsInside(['\\', c], k)
  {
    var s := ['\\', c];
    assert s[1..] == [c] && s[1..][1..] == "";
    assert Step(Inside(k), '\\') == State(k, true, true) && Step(State(k, true, true), c) == Inside(k);
    assert Run(Inside(k), "") == Inside(k) && Peak(Inside(k), "") == k;
    assert Run(State(k, true, true), [c]) == Inside(k) && Peak(State(k, true, true), [c]) == k;
  }

  lemma PieceKeepsInside(p: Piece, k: nat)
    requires ValidPiece(p)
    ensures KeepsInside(PieceText(p), k)
  {
    match p
    case Raw(c) => PlainKeepsInside([c], k);
    case Short(c) => EscapeKeepsInside(c, k);
    case Hex(d) =>
      EscapeKeepsInside('u', k);
      PlainKeepsInside(d, k);
      KeepsInsideConcat("\\u", d, k);
    case Surrogates(h, l) =>
      EscapeKeepsInside('u', k);
      PlainKeepsInside(h, k);
      PlainKeepsInside(l, k);
      KeepsInsideConcat("\\u", h, k);
      KeepsInsideConcat("\\u" + h, "\\u", k);
      KeepsInsideConcat("\\u" + h + "\\u", l, k);
  }

  lemma {:induction false} PiecesKeepInside(ps: seq<Piece>, k: nat)
    requires ValidPieces(ps)
    ensures KeepsInside(PiecesText(ps), k)
  {
    if ps != [] {
      PieceKeepsInside(ps[0], k);
      PiecesKeepInside(ps[1..], k);
      KeepsInsideConcat(PieceText(ps[0]), PiecesText(ps[1..]), k);
    }
  }

  /** Whatever quotes, backslashes and brackets a string contains, scanning its text changes nothing. */
  lemma StringIsBalanced(ps: seq<Piece>, k: nat)
    requires ValidPieces(ps)
    ensures Balanced("\"" + PiecesText(ps) + "\"", k, 0)
  {
    var body := PiecesText(ps);
    PiecesKeepInside(ps, k);
    assert Run(At(k), "\"") == Inside(k);
    assert Run(Inside(k), "\"") == At(k);
    ScanConcat(At(k), "\"", body, k);
    ScanConcat(At(k), "\"" + body, "\"", k);
  }

  lemma {:induction false} DocIsBalanced(d: Doc, k: nat)
    requires WellFormed(d)
    ensures Balanced(Text(d), k, Nesting(ValueOf(d)))
    ensures d.Group? ==> StaysAbove(At(k + 1), Text(d)[1..], k + 1)
    decreases d
  {
    match d
    case Word(l) => InertIsBalanced(Text(d), k);
    case Num(t) =>
      NumberShape(t);
      InertIsBalanced(t, k);
    case Quoted(ps) => StringIsBalanced(ps, k);
    case Group(kind, pad, es) =>
      InertIsBalanced(pad, k + 1);
      EntriesAreBalanced(kind, es, k + 1);
      GroupTextIsBalanced(d, k);
  }

  lemma GroupTextIsBalanced(d: Doc, k: nat)
    requires WellFormed(d) && d.Group?
    requires Balanced(d.pad, k + 1, 0)
    requires Balanced(EntriesText(d.entries), k + 1, NestingOfEntries(d.kind, d.entries))
    ensures Balanced(Text(d), k, Nesting(ValueOf(d)))
    ensures StaysAbove(At(k + 1), Text(d)[1..], k + 1)
  {
    var body := d.pad + EntriesText(d.entries);
    var h := NestingOfEntries(d.kind, d.entries);
    BalancedConcat(d.pad, EntriesText(d.entries), k + 1, 0, h);
    if d.kind.Brackets? {
      EntriesNestLikeItems(d.entries);
    } else {
      EntriesNestLikeMembers(d.entries);
    }
    assert Nesting(ValueOf(d)) == 1 + h;
    GroupIsBalanced(d.kind, body, k, h);
    assert Text(d) == [Opening(d.kind)] + body + [Closing(d.kind)];
    assert Text(d)[1..] == body + [Closing(d.kind)];
  }

  lemma GroupIsBalanced(kind: Kind, body: string, k: nat, h: nat)
    requires Balanced(body, k + 1, h)
    ensures Balanced([Opening(kind)] + body + [Closing(kind)], k, 1 + h)
    ensures StaysAbove(At(k + 1), body + [Closing(kind)], k + 1)
  {
    ScanConcat(At(k + 1), body, [Closing(kind)], k + 1);
    assert Run(At(k), [Opening(kind)]) == At(k + 1);
    assert Run(At(k + 1), [Closing(kind)]) == At(k);
    ScanConcat(At(k), [Opening(kind)], body, k);
    ScanConcat(At(k), [Opening(kind)] + body, [Closing(kind)], k);
    AboveIsWeaker(At(k + 1), body, k + 1, k);
  }

  lemma {:induction false} AboveIsWeaker(st: State, s: string, hi: nat, lo: nat)
    requires StaysAbove(st, s, hi) && lo <= hi
    ensures StaysAbove(st, s, lo)
    decreases s
  {
    if s != "" {
      AboveIsWeaker(Step(st, s[0]), s[1..], hi, lo);
    }
  }

  lemma {:induction false} EntriesAreBalanced(kind: Kind, es: seq<Entry>, k: nat)
    requires WellFormedEntries(kind, es)
    ensures Balanced(EntriesText(es), k, NestingOfEntries(kind, es))
    decreases es
  {
    if es != [] {
      EntryIsBalanced(kind, es[0], k);
      if |es| > 1 {
        EntriesAreBalanced(kind, es[1..], k);
        InertIsBalanced(",", k);
        BalancedConcat(",", EntriesText(es[1..]), k, 0, NestingOfEntries(kind, es[1..]));
        BalancedConcat(EntryText(es[0]), "," + EntriesText(es[1..]), k,
                       Nesting(EntryValue(kind, es[0])), NestingOfEntries(kind, es[1..]));
      }
    }
  }

  lemma {:induction false} EntryIsBalanced(kind: Kind, e: Entry, k: nat)
    requires WellFormedEntry(kind, e)
    ensures Balanced(EntryText(e), k, Nesting(EntryValue(kind, e)))
    decreases e
  {
    var h := Nesting(ValueOf(e.doc));
    DocIsBalanced(e.doc, k);
    InertIsBalanced(e.pre, k);
    InertIsBalanced(e.post, k);
    TagIsBalanced(kind, e.tag, k);
    BalancedConcat(Text(e.doc), e.post, k, h, 0);
    BalancedConcat(TagText(e.tag), Text(e.doc) + e.post, k, 0, h);
    BalancedConcat(e.pre, TagText(e.tag) + (Text(e.doc) + e.post), k, 0, h);
  }

  lemma TagIsBalanced(kind: Kind, t: Tag, k: nat)
    requires WellFormedTag(kind, t)
    ensures Balanced(TagText(t), k, 0)
  {
    match t
    case NoTag =>
    case KeyTag(key, b, a) =>
      StringIsBalanced(key, k);
      InertIsBalanced(b + (":" + a), k);
      BalancedConcat("\"" + PiecesText(key) + "\"", b + (":" + a), k, 0, 0);
  }

  // ----- main results

  /** For every document in every layout, the scanner accepts exactly the values nested at most eight deep. */
  lemma ScannerMeasuresNesting(e: Entry, s: string)
    requires IsDocument(e, s)
    ensures Peak(At(0), s) == Nesting(ValueOf(e.doc))
    ensures Peak(At(0), s) <= MAX_NESTING_DEPTH <==> Nesting(ValueOf(e.doc)) <= MAX_NESTING_DEPTH
  {
    EntryIsBalanced(Brackets, e, 0);
  }

  lemma {:induction false} PrefixStaysAbove(st: State, s: string, p: string, k: nat)
    requires StaysAbove(st, s, k) && p <= s && p != s
    ensures Run(st, p).depth >= k
    decreases s
  {
    if p != "" {
      assert p[1..] <= s[1..] && p[1..] != s[1..];
      PrefixStaysAbove(Step(st, s[0]), s[1..], p[1..], k);
    }
  }

  /** Cutting an array or an object short anywhere leaves the scanner inside it. */
  lemma StrictPrefixIsOpen(d: Doc, p: string)
    requires WellFormed(d) && d.Group?
    requires p != "" && p <= Text(d) && p != Text(d)
    ensures Run(At(0), p).depth >= 1
  {
    DocIsBalanced(d, 0);
    assert p[0] == Opening(d.kind);
    assert p[1..] <= Text(d)[1..] && p[1..] != Text(d)[1..];
    PrefixStaysAbove(At(1), Text(d)[1..], p[1..], 1);
  }

  /** Hence no strict prefix of an array or an object, the empty one included, is a JSON text. */
  lemma StrictPrefixIsNoDocument(d: Doc, p: string, e: Entry)
    requires WellFormed(d) && d.Group?
    requires p <= Text(d) && p != Text(d)
    ensures !IsDocument(e, p)
  {
    if IsDocument(e, p) {
      EntryIsBalanced(Brackets, e, 0);
      if p != "" {
        StrictPrefixIsOpen(d, p);
      } else {
        TextIsNotEmpty(e.doc);
      }
      assert false;
    }
  }

  lemma TextIsNotEmpty(d: Doc)
    requires WellFormed(d)
    ensures Text(d) != ""
  {
    if d.Num? {
      NumberShape(d.token);
    }
  }
}
