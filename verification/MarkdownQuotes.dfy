/** Block quotes: lines written with quote marks are parsed as quotes that span exactly
    these lines, expandable or not, and the text comes back without the marks. */
module MarkdownQuotes {
  import opened Wrappers
  import opened MarkdownDefs
  import opened MarkdownParser
  import opened MarkdownGenerator
  import opened MarkdownSpans
  import opened MarkdownRoundTrip

  // Quotes as ranges of characters

  datatype Quote = Quote(a: nat, b: nat, collapsed: bool)

  predicate LineStart(text: string, k: nat) {
    k == 0 || (k <= |text| && text[k - 1] == '\n')
  }

  /** Whole lines, in order; quotes that touch are of different kinds. */
  predicate QuotesLines(text: string, qs: seq<Quote>) {
    && (forall i :: 0 <= i < |qs| ==>
          qs[i].a < qs[i].b <= |text| && LineStart(text, qs[i].a) && (qs[i].b == |text| || LineStart(text, qs[i].b)))
    && (forall i, j :: 0 <= i < j < |qs| ==> qs[i].b <= qs[j].a)
    && (forall i :: 0 < i < |qs| && qs[i - 1].b == qs[i].a ==> qs[i - 1].collapsed != qs[i].collapsed)
  }

  function QuoteEntity(text: string, q: Quote): Entity
    requires q.a <= q.b <= |text|
  {
    Blockquote(Units(text[..q.a]), Units(text[q.a..q.b]), q.collapsed)
  }

  function QuoteEntities(text: string, qs: seq<Quote>): (r: seq<Entity>)
    requires forall i :: 0 <= i < |qs| ==> qs[i].a <= qs[i].b <= |text|
    ensures |r| == |qs| && forall i :: 0 <= i < |qs| ==> r[i] == QuoteEntity(text, qs[i])
  {
    seq(|qs|, i requires 0 <= i < |qs| => QuoteEntity(text, qs[i]))
  }

  // What the generator puts in front of a line

  function PrefixOf(collapsed: bool): string {
    if collapsed then "**> " else "> "
  }

  /** The first quote that holds the character at `k`; `|qs|` if there is none. */
  function QuoteAt(qs: seq<Quote>, k: nat): (i: nat)
    ensures i <= |qs| && (i < |qs| ==> qs[i].a <= k < qs[i].b)
    ensures forall j :: 0 <= j < i ==> !(qs[j].a <= k < qs[j].b)
  {
    if qs == [] || qs[0].a <= k < qs[0].b then 0 else 1 + QuoteAt(qs[1..], k)
  }

  lemma CoversByIndex(text: string, q: Quote, k: nat)
    requires q.a <= q.b <= |text| && k <= |text|
    ensures Covers(QuoteEntity(text, q), Units(text[..k])) <==> q.a <= k < q.b
  {
    PrefixUnits(text, q.a, q.b);
    if k < q.a {
      PrefixUnits(text, k, q.a);
    } else {
      PrefixUnits(text, q.a, k);
    }
    if k < q.b {
      PrefixUnits(text, k, q.b);
    } else {
      PrefixUnits(text, q.b, k);
    }
  }

  lemma {:induction false} PrefixAt(text: string, qs: seq<Quote>, ents: seq<Entity>, k: nat)
    requires k <= |text| && |ents| == |qs|
    requires forall i :: 0 <= i < |qs| ==> qs[i].a <= qs[i].b <= |text| && ents[i] == QuoteEntity(text, qs[i])
    ensures var i := QuoteAt(qs, k);
            QuotePrefix(ents, Units(text[..k])) == if i < |qs| then PrefixOf(qs[i].collapsed) else ""
  {
    if qs != [] {
      CoversByIndex(text, qs[0], k);
      PrefixAt(text, qs[1..], ents[1..], k);
    }
  }

  lemma NothingVerbatim(text: string, qs: seq<Quote>, ents: seq<Entity>, pos: int)
    requires forall i :: 0 <= i < |qs| ==> qs[i].a <= qs[i].b <= |text|
    requires ents == QuoteEntities(text, qs)
    ensures !InVerbatim(ents, pos)
  {
  }

  lemma NextIndex(text: string, k: nat)
    requires k < |text|
    ensures text[k..] != "" && text[k..][0] == text[k] && text[k..][1..] == text[k + 1..]
    ensures Units(text[..k + 1]) == Units(text[..k]) + UnitsOf(text[k])
    ensures LineStart(text, k + 1) <==> text[k] == '\n'
  {
    PrefixUnits(text, k, k + 1);
    assert text[k..k + 1] == [text[k]];
    UnitsOne(text[k]);
  }

  /** What stands in front of the line at `k`, if a line starts there. */
  function Front(text: string, qs: seq<Quote>, k: nat): string {
    var i := QuoteAt(qs, k);
    if LineStart(text, k) && i < |qs| then PrefixOf(qs[i].collapsed) else ""
  }

  lemma CharQuoted(text: string, qs: seq<Quote>, ents: seq<Entity>, k: nat)
    requires forall i :: 0 <= i < |qs| ==> qs[i].a <= qs[i].b <= |text|
    requires k < |text| && ents == QuoteEntities(text, qs)
    ensures CharAt(ents, VerbatimAt(ents), Units(text[..k]), LineStart(text, k), text[k])
        == Front(text, qs, k) + Escaped(text[k])
  {
    PrefixAt(text, qs, ents, k);
    NothingVerbatim(text, qs, ents, Units(text[..k]));
  }

  lemma EmitUnfolds(text: string, pos: int, lineStart: bool, ents: seq<Entity>, v: int -> bool)
    requires text != ""
    ensures Emit(text, pos, lineStart, [], ents, v)
            == CharAt(ents, v, pos, lineStart, text[0]) + Emit(text[1..], pos + UnitsOf(text[0]), text[0]
                == '\n', [], ents, v)
  {
  }

  /** What is left to write from `k` on. */
  ghost function WrittenFrom(text: string, ents: seq<Entity>, k: nat): string
    requires k <= |text|
  {
    Emit(text[k..], Units(text[..k]), LineStart(text, k), [], ents, VerbatimAt(ents))
  }

  lemma EmitsQuoted(text: string, qs: seq<Quote>, ents: seq<Entity>, k: nat)
    requires forall i :: 0 <= i < |qs| ==> qs[i].a <= qs[i].b <= |text|
    requires k < |text| && ents == QuoteEntities(text, qs)
    ensures WrittenFrom(text, ents, k) == Front(text, qs, k) + (Escaped(text[k]) + WrittenFrom(text, ents, k + 1))
  {
    CharQuoted(text, qs, ents, k);
    NextIndex(text, k);
    EmitUnfolds(text[k..], Units(text[..k]), LineStart(text, k), ents, VerbatimAt(ents));
    Reassociated(Front(text, qs, k), Escaped(text[k]), WrittenFrom(text, ents, k + 1));
  }

  lemma Reassociated(x: string, y: string, z: string)
    ensures (x + y) + z == x + (y + z)
  {
  }

  // Parsing it

  lemma EscapedStep(c: char, more: string, st: State)
    ensures var s := Escaped(c) + more;
            Step(s, st) == Stepped(|Escaped(c)|, Pushed(OffLineStart(st), [c], c == '\n')) && s[|Escaped(c)|..] == more
  {
    var s := Escaped(c) + more;
    assert s[0] == if IsEscapable(c) then '\\' else c;
  }

  lemma EscapedParses(c: char, more: string, st: State)
    ensures ParseFrom(Escaped(c) + more, st) == ParseFrom(more, Pushed(OffLineStart(st), [c], c == '\n'))
  {
    EscapedStep(c, more, st);
    ParseFromUnfolds(Escaped(c) + more, st);
  }

  /** The state behind a quote mark at the start of a line. */
  function Quoted(st: State, collapsed: bool): State {
    (if st.quote.Some? && st.collapsed == collapsed then st
     else EndQuote(st).(quote := Some(st.off), collapsed := collapsed)).(lineStart := false)
  }

  lemma PrefixParses(collapsed: bool, more: string, st: State)
    requires st.lineStart
    ensures ParseFrom(PrefixOf(collapsed) + more, st) == ParseFrom(more, Quoted(st, collapsed))
  {
    var s := PrefixOf(collapsed) + more;
    assert s[..|PrefixOf(collapsed)|] == PrefixOf(collapsed) && s[|PrefixOf(collapsed)|..] == more;
    assert QuoteMark(s) == if collapsed then 3 else 1;
    assert Step(s, st) == Stepped(|PrefixOf(collapsed)|, Quoted(st, collapsed));
    ParseFromUnfolds(s, st);
  }

  // Line by line

  /** Everything up to `k` is read and the first `i` quotes are noted. */
  ghost predicate Read(st: State, text: string, qs: seq<Quote>, ents: seq<Entity>, k: nat, i: nat) {
    && k <= |text| && i <= |qs| == |ents|
    && st.stack == [] && st.out == text[..k] && st.off == Units(text[..k]) && st.ents == ents[..i]
    && forall j :: 0 <= j < i ==> qs[j].b <= k
  }

  /** The quote that is open is the next one, begun and not passed; with none open the
      next one lies ahead. */
  ghost predicate Opened(st: State, text: string, qs: seq<Quote>, k: nat, i: nat)
    requires i <= |qs| && forall j :: 0 <= j < |qs| ==> qs[j].a <= qs[j].b <= |text|
  {
    match st.quote
    case Some(start) =>
      i < |qs| && qs[i].a <= k <= qs[i].b && start == Units(text[..qs[i].a]) && st.collapsed == qs[i].collapsed
    case None => i < |qs| ==> k <= qs[i].a
  }

  ghost predicate Stands(st: State, text: string, qs: seq<Quote>, ents: seq<Entity>, k: nat, i: nat)
    requires QuotesLines(text, qs)
  {
    Read(st, text, qs, ents, k, i) && Opened(st, text, qs, k, i) && st.lineStart == LineStart(text, k)
  }

  /** In front of the character at `k`, with its line's mark read. */
  ghost predicate Entered(st: State, text: string, qs: seq<Quote>, ents: seq<Entity>, k: nat, i: nat)
    requires QuotesLines(text, qs)
  {
    && Read(st, text, qs, ents, k, i) && Opened(st, text, qs, k, i) && !st.lineStart
    && (st.quote.Some? ==> k < qs[i].b) && (st.quote.None? && i < |qs| ==> k < qs[i].a)
  }

  lemma EndsQuote(st: State, text: string, qs: seq<Quote>, ents: seq<Entity>, i: nat)
    requires QuotesLines(text, qs) && ents == QuoteEntities(text, qs) && i < |qs|
    requires Read(st, text, qs, ents, qs[i].b, i) && Opened(st, text, qs, qs[i].b, i) && st.quote.Some?
    ensures var r := EndQuote(st);
            r.quote.None? && Read(r, text, qs, ents, qs[i].b, i + 1) && r.lineStart == st.lineStart && r.off == st.off
  {
    PrefixUnits(text, qs[i].a, qs[i].b);
    assert QuoteEntity(text, qs[i]) == Blockquote(st.quote.value, st.off - st.quote.value, st.collapsed);
    assert ents[..i + 1] == ents[..i] + [ents[i]];
  }

  lemma QuoteHere(qs: seq<Quote>, text: string, k: nat, i: nat)
    requires QuotesLines(text, qs) && i < |qs| && qs[i].a <= k < qs[i].b
    ensures QuoteAt(qs, k) == i
  {
  }

  lemma NoQuoteHere(qs: seq<Quote>, text: string, k: nat, i: nat)
    requires QuotesLines(text, qs) && i <= |qs| && (forall j :: 0 <= j < i ==> qs[j].b <= k)
    requires i < |qs| ==> k < qs[i].a
    ensures QuoteAt(qs, k) == |qs|
  {
  }

  /** The quote that ends where a line starts is closed by whatever that line is. */
  function Closed(st: State, ended: bool): State {
    if ended then EndQuote(st) else st
  }

  lemma PassesEnd(text: string, qs: seq<Quote>, ents: seq<Entity>, k: nat, i: nat, st: State)
    returns (open: State, n: nat)
    requires QuotesLines(text, qs) && ents == QuoteEntities(text, qs) && k < |text| && Stands(st, text, qs, ents, k, i)
    requires LineStart(text, k)
    ensures Stands(open, text, qs, ents, k, n) && (open.quote.Some? ==> k < qs[n].b)
    ensures open == Closed(st, st.quote.Some? && k == qs[i].b)
    ensures OffLineStart(st) == OffLineStart(open)
    ensures n < |qs| && qs[n].a <= k ==> Quoted(st, qs[n].collapsed) == Quoted(open, qs[n].collapsed)
  {
    open, n := st, i;
    if st.quote.Some? && k == qs[i].b {
      EndsQuote(st, text, qs, ents, i);
      open, n := EndQuote(st), i + 1;
    }
  }

  lemma QuotedIsEntered(text: string, qs: seq<Quote>, ents: seq<Entity>, k: nat, n: nat, open: State)
    requires QuotesLines(text, qs) && k < |text| && Stands(open, text, qs, ents, k, n)
    requires (open.quote.Some? ==> k < qs[n].b) && n < |qs| && qs[n].a <= k
    ensures k < qs[n].b && Entered(OffLineStart(Quoted(open, qs[n].collapsed)), text, qs, ents, k, n)
  {
  }

  lemma PlainIsEntered(text: string, qs: seq<Quote>, ents: seq<Entity>, k: nat, n: nat, open: State)
    requires QuotesLines(text, qs) && k < |text| && Stands(open, text, qs, ents, k, n)
    requires LineStart(text, k) ==> (open.quote.Some? ==> k < qs[n].b) && !(n < |qs| && qs[n].a <= k)
    ensures Entered(OffLineStart(open), text, qs, ents, k, n)
  {
  }

  lemma FrontParses(text: string, qs: seq<Quote>, ents: seq<Entity>, k: nat, i: nat, st: State, more: string)
    returns (next: State, n: nat)
    requires QuotesLines(text, qs) && ents == QuoteEntities(text, qs) && k < |text| && Stands(st, text, qs, ents, k, i)
    ensures ParseFrom(Front(text, qs, k) + more, st) == ParseFrom(more, next)
    ensures Entered(OffLineStart(next), text, qs, ents, k, n)
  {
    next, n := st, i;
    assert "" + more == more;
    if LineStart(text, k) {
      var open;
      open, n := PassesEnd(text, qs, ents, k, i, st);
      if n < |qs| && qs[n].a <= k {
        QuotedIsEntered(text, qs, ents, k, n, open);
        QuoteHere(qs, text, k, n);
        PrefixParses(qs[n].collapsed, more, st);
        next := Quoted(st, qs[n].collapsed);
      } else {
        PlainIsEntered(text, qs, ents, k, n, open);
        NoQuoteHere(qs, text, k, n);
      }
    } else {
      PlainIsEntered(text, qs, ents, k, n, st);
    }
  }

  lemma StandsBehind(text: string, qs: seq<Quote>, ents: seq<Entity>, k: nat, n: nat, next: State)
    requires QuotesLines(text, qs) && k < |text| && Entered(next, text, qs, ents, k, n)
    ensures Stands(Pushed(next, [text[k]], text[k] == '\n'), text, qs, ents, k + 1, n)
  {
    NextIndex(text, k);
    UnitsOne(text[k]);
    assert text[..k + 1] == text[..k] + [text[k]];
  }

  lemma EndsBefore(text: string, qs: seq<Quote>, i: nat)
    requires QuotesLines(text, qs) && i + 1 < |qs|
    ensures qs[i].b < |text|
  {
    assert qs[i].b <= qs[i + 1].a < qs[i + 1].b <= |text|;
  }

  lemma NoneBehindTheEnd(text: string, qs: seq<Quote>, i: nat)
    requires QuotesLines(text, qs) && i < |qs| && qs[i].b == |text|
    ensures i + 1 == |qs|
  {
    if i + 1 < |qs| {
      EndsBefore(text, qs, i);
    }
  }

  lemma NothingBehind(text: string, qs: seq<Quote>, ents: seq<Entity>, i: nat, st: State)
    requires QuotesLines(text, qs) && ents == QuoteEntities(text, qs) && Stands(st, text, qs, ents, |text|, i)
    ensures EndQuote(st).out == text && EndQuote(st).ents == ents
  {
    assert text[..|text|] == text;
    if st.quote.Some? {
      EndsQuote(st, text, qs, ents, i);
      NoneBehindTheEnd(text, qs, i);
    }
  }

  /** From any character on, what is written for the lines is parsed as the lines. */
  lemma {:induction false} LinesParse(text: string, qs: seq<Quote>, ents: seq<Entity>, k: nat, i: nat, st: State)
    requires QuotesLines(text, qs) && ents == QuoteEntities(text, qs) && Stands(st, text, qs, ents, k, i)
    ensures var r := EndQuote(ParseFrom(WrittenFrom(text, ents, k), st)); r.out == text && r.ents == ents
    decreases |text| - k
  {
    if k == |text| {
      assert text[k..] == "";
      NothingBehind(text, qs, ents, i, st);
    } else {
      var c, later := text[k], WrittenFrom(text, ents, k + 1);
      EmitsQuoted(text, qs, ents, k);
      var next, n := FrontParses(text, qs, ents, k, i, st, Escaped(c) + later);
      EscapedParses(c, later, next);
      StandsBehind(text, qs, ents, k, n, OffLineStart(next));
      LinesParse(text, qs, ents, k + 1, n, Pushed(OffLineStart(next), [c], c == '\n'));
    }
  }

  lemma {:induction false} NoMarks(ents: seq<Entity>)
    requires forall i :: 0 <= i < |ents| ==> ents[i].Blockquote?
    ensures AllInsertions(ents) == []
  {
    if ents != [] {
      NoMarks(ents[1..]);
    }
  }

  /** For every text and every list of quotes over whole lines, parsing what was generated
      gives the text and the quotes back, each with its lines and its kind. */
  lemma QuotesRoundTrip(text: string, qs: seq<Quote>)
    requires QuotesLines(text, qs)
    ensures Parse(Generate(text, QuoteEntities(text, qs))) == Parsed(text, QuoteEntities(text, qs))
  {
    var ents := QuoteEntities(text, qs);
    NoMarks(ents);
    assert text[0..] == text && text[..0] == "";
    assert Generate(text, ents) == WrittenFrom(text, ents, 0);
    LinesParse(text, qs, ents, 0, 0, Initial());
  }

  lemma {:induction false} SameWithinALine(text: string, pos: int, x: seq<Entity>, y: seq<Entity>)
    requires '\n' !in text && forall p :: !InVerbatim(x, p) && !InVerbatim(y, p)
    ensures Emit(text, pos, false, [], x, VerbatimAt(x)) == Emit(text, pos, false, [], y, VerbatimAt(y))
    decreases |text|
  {
    if text != "" {
      SameWithinALine(text[1..], pos + UnitsOf(text[0]), x, y);
      EmitUnfolds(text, pos, false, x, VerbatimAt(x));
      EmitUnfolds(text, pos, false, y, VerbatimAt(y));
    }
  }

  lemma SameFirstLine(text: string, n: int, m: int, collapsed: bool)
    requires '\n' !in text && text != "" && 0 < n && 0 < m
    ensures Generate(text, [Blockquote(0, n, collapsed)]) == Generate(text, [Blockquote(0, m, collapsed)])
  {
    var x, y := [Blockquote(0, n, collapsed)], [Blockquote(0, m, collapsed)];
    NoMarks(x);
    NoMarks(y);
    SameWithinALine(text[1..], UnitsOf(text[0]), x, y);
    EmitUnfolds(text, 0, true, x, VerbatimAt(x));
    EmitUnfolds(text, 0, true, y, VerbatimAt(y));
  }

  /** A quote over the first part of a single line comes back over the whole line, so it
      comes back as it was exactly when it covers the line. */
  lemma AQuoteGrowsToItsLine(text: string, n: int, collapsed: bool)
    requires '\n' !in text && text != "" && 0 < n
    ensures Parse(Generate(text, [Blockquote(0, n, collapsed)]))
        == Parsed(text, [Blockquote(0, Units(text), collapsed)])
  {
    var qs := [Quote(0, |text|, collapsed)];
    assert text[..0] == "" && text[0..|text|] == text;
    assert QuoteEntities(text, qs) == [Blockquote(0, Units(text), collapsed)];
    UnitsBound(text);
    SameFirstLine(text, n, Units(text), collapsed);
    QuotesRoundTrip(text, qs);
  }
}
