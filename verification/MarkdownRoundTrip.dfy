/** Generating MarkdownV2 and parsing it again gives the text and the entities back, for
    spans of every kind but block quotes that do not touch and can be written. */
module MarkdownRoundTrip {
  import opened MarkdownDefs
  import opened MarkdownParser
  import opened MarkdownGenerator
  import opened MarkdownSpans
  import opened StableSort

  // Text and entities as alternating pieces

  /** Plain text, then a span of one kind. */
  datatype Piece = Piece(gap: string, kind: Kind, body: string)

  function TextOf(ps: seq<Piece>, tail: string): string {
    if ps == [] then tail else PieceText(ps[0], TextOf(ps[1..], tail))
  }

  function PieceText(p: Piece, more: string): string {
    p.gap + (p.body + more)
  }

  function EntitiesOf(ps: seq<Piece>, base: int): seq<Entity> {
    if ps == [] then []
    else
      var start := base + Units(ps[0].gap);
      [EntityOf(ps[0].kind, start, Units(ps[0].body))] + EntitiesOf(ps[1..], start + Units(ps[0].body))
  }

  predicate GoodPiece(p: Piece) {
    Writable(p.kind, p.body)
  }

  /** Every span can be written, and there is text between spans. */
  predicate GoodPieces(ps: seq<Piece>) {
    && (forall i :: 0 <= i < |ps| ==> GoodPiece(ps[i]))
    && (forall i :: 0 < i < |ps| ==> ps[i].gap != "")
  }

  /** What the generator writes. */
  function Printed(ps: seq<Piece>, tail: string): string {
    if ps == [] then EscapedText(tail) else PrintedPiece(ps[0], Printed(ps[1..], tail))
  }

  function PrintedPiece(p: Piece, more: string): string {
    EscapedText(p.gap) + SpanText(p.kind, p.body, more)
  }

  // Parsing what was printed

  lemma PrintedIsCalm(ps: seq<Piece>, tail: string)
    requires ps != [] ==> ps[0].gap != ""
    ensures Calm(Printed(ps, tail))
  {
    if ps == [] {
      EscapedIsCalm(tail, "");
      assert EscapedText(tail) + "" == EscapedText(tail);
    } else {
      EscapedIsCalm(ps[0].gap, SpanText(ps[0].kind, ps[0].body, Printed(ps[1..], tail)));
    }
  }

  /** `next` holds what `st` held, and the text and entities of the pieces. */
  ghost predicate Holds(next: State, st: State, ps: seq<Piece>, tail: string) {
    && Idle(next) && next.out == st.out + TextOf(ps, tail) && next.ents == st.ents + EntitiesOf(ps, st.off)
  }

  lemma HoldsMore(next: State, st: State, ps: seq<Piece>, tail: string, lineStart: bool)
    requires ps != []
    requires Holds(next, Spanned(Pushed(st, ps[0].gap, lineStart), ps[0].kind, ps[0].body), ps[1..], tail)
    ensures Holds(next, st, ps, tail)
  {
    var p := ps[0];
    assert (st.out + p.gap) + p.body + TextOf(ps[1..], tail) == st.out + (p.gap + (p.body + TextOf(ps[1..], tail)));
  }

  lemma {:induction false} PrintedParses(ps: seq<Piece>, tail: string, st: State)
    requires Idle(st) && GoodPieces(ps)
    ensures Holds(ParseFrom(Printed(ps, tail), st), st, ps, tail)
    decreases |ps|
  {
    if ps == [] {
      var lineStart := EscapedTextParses(tail, "", st);
      assert EscapedText(tail) + "" == EscapedText(tail);
      assert st.ents + [] == st.ents;
    } else {
      var p, more := ps[0], Printed(ps[1..], tail);
      var span := SpanText(p.kind, p.body, more);
      var lineStart := EscapedTextParses(p.gap, span, st);
      var read := Pushed(st, p.gap, lineStart);
      PrintedIsCalm(ps[1..], tail);
      SpanParses(span, p.kind, p.body, more, read);
      PrintedParses(ps[1..], tail, Spanned(read, p.kind, p.body));
      HoldsMore(ParseFrom(more, Spanned(read, p.kind, p.body)), st, ps, tail, lineStart);
    }
  }

  // Generating the pieces

  /** No entity is a block quote: no line gets a prefix. */
  predicate NoQuotes(ents: seq<Entity>) {
    forall i :: 0 <= i < |ents| ==> !ents[i].Blockquote?
  }

  lemma {:induction false} NoPrefix(ents: seq<Entity>, pos: int)
    requires NoQuotes(ents)
    ensures QuotePrefix(ents, pos) == ""
  {
    if ents != [] {
      NoPrefix(ents[1..], pos);
    }
  }

  function Copied(run: string, verbatim: bool): string {
    if verbatim then run else EscapedText(run)
  }

  /** Whether `p` is verbatim is the same for all `p` in [lo, hi). */
  ghost predicate Uniform(v: int -> bool, lo: int, hi: int, verbatim: bool) {
    forall p :: lo <= p < hi ==> v(p) == verbatim
  }

  lemma EmitOne(c: char, more: string, pos: int, lineStart: bool, ins: seq<Insertion>, all: seq<Entity>, v: int -> bool)
    requires NoQuotes(all) && (ins == [] || ins[0].pos > pos)
    ensures Emit([c] + more, pos, lineStart, ins, all, v)
            == (if v(pos) then [c] else Escaped(c)) + Emit(more, pos + UnitsOf(c), c == '\n', ins, all, v)
  {
    NoPrefix(all, pos);
    assert ([c] + more)[1..] == more;
    var plain := if v(pos) then [c] else Escaped(c);
    assert "" + plain == plain;
  }

  lemma CopiedMore(c: char, run: string, verbatim: bool, more: string)
    ensures Copied([c] + run, verbatim) + more
            == (if verbatim then [c] else Escaped(c)) + (Copied(run, verbatim) + more)
  {
    if verbatim {
      assert ([c] + run) + more == [c] + (run + more);
    } else {
      EscapedMore(c, run, more);
    }
  }

  lemma EmitMark(text: string, pos: int, lineStart: bool, mark: Insertion, ins: seq<Insertion>, all: seq<Entity>,
          v: int -> bool)
    requires mark.pos <= pos
    ensures Emit(text, pos, lineStart, [mark] + ins, all, v) == mark.mark + Emit(text, pos, lineStart, ins, all, v)
  {
    assert ([mark] + ins)[1..] == ins;
  }

  /** What the proof uses of the generator: a character with no mark due is copied or
      escaped, a mark that is due is written. */
  type Emitter = (string, int, bool, seq<Insertion>) -> string

  ghost predicate EmitsChars(emit: Emitter, v: int -> bool) {
    forall c, more, pos, lineStart, ins: seq<Insertion> :: ins == [] || ins[0].pos > pos ==>
      EmitsChar(emit, v, c, more, pos, lineStart, ins)
  }

  ghost predicate EmitsChar(emit: Emitter, v: int -> bool, c: char, more: string, pos: int, lineStart: bool,
          ins: seq<Insertion>) {
    emit([c] + more, pos, lineStart, ins)
    == (if v(pos) then [c] else Escaped(c)) + emit(more, pos + UnitsOf(c), c == '\n', ins)
  }

  ghost predicate EmitsMarks(emit: Emitter) {
    forall text, pos, lineStart, mark: Insertion, ins :: mark.pos <= pos ==>
      emit(text, pos, lineStart, [mark] + ins) == mark.mark + emit(text, pos, lineStart, ins)
  }

  ghost predicate EmitsNothing(emit: Emitter) {
    forall pos, lineStart :: emit("", pos, lineStart, []) == ""
  }

  function EmitterFor(all: seq<Entity>): Emitter {
    (text: string, pos: int, lineStart: bool, ins: seq<Insertion>) =>
      Emit(text, pos, lineStart, ins, all, VerbatimAt(all))
  }

  lemma GeneratorEmitsOne(c: char, more: string, pos: int, lineStart: bool, ins: seq<Insertion>, all: seq<Entity>)
    requires NoQuotes(all) && (ins == [] || ins[0].pos > pos)
    ensures EmitsChar(EmitterFor(all), VerbatimAt(all), c, more, pos, lineStart, ins)
  {
    EmitOne(c, more, pos, lineStart, ins, all, VerbatimAt(all));
  }

  lemma GeneratorEmitsChars(all: seq<Entity>)
    requires NoQuotes(all)
    ensures EmitsChars(EmitterFor(all), VerbatimAt(all))
  {
    var emit, v := EmitterFor(all), VerbatimAt(all);
    forall c, more, pos, lineStart, ins: seq<Insertion> | ins == [] || ins[0].pos > pos
      ensures EmitsChar(emit, v, c, more, pos, lineStart, ins)
    {
      GeneratorEmitsOne(c, more, pos, lineStart, ins, all);
    }
  }

  lemma GeneratorEmitsMarks(all: seq<Entity>)
    ensures EmitsMarks(EmitterFor(all)) && EmitsNothing(EmitterFor(all))
  {
    var emit, v := EmitterFor(all), VerbatimAt(all);
    forall text, pos, lineStart, mark: Insertion, ins | mark.pos <= pos
      ensures emit(text, pos, lineStart, [mark] + ins) == mark.mark + emit(text, pos, lineStart, ins)
    {
      EmitMark(text, pos, lineStart, mark, ins, all, v);
    }
  }

  /** Characters with no mark due before them are copied. */
  lemma {:induction false} EmitRun(run: string, rest: string, pos: int, lineStart: bool, ins: seq<Insertion>,
                                   emit: Emitter, v: int -> bool, verbatim: bool)
    returns (later: bool)
    requires EmitsChars(emit, v) && (ins == [] || ins[0].pos >= pos + Units(run))
    requires Uniform(v, pos, pos + Units(run), verbatim)
    ensures emit(run + rest, pos, lineStart, ins)
            == Copied(run, verbatim) + emit(rest, pos + Units(run), later, ins)
    decreases |run|
  {
    if run == "" {
      later := lineStart;
      assert run + rest == rest;
    } else {
      var c, more := run[0], run[1..];
      var next := pos + UnitsOf(c);
      assert run + rest == [c] + (more + rest) && run == [c] + more;
      assert EmitsChar(emit, v, c, more + rest, pos, lineStart, ins);
      later := EmitRun(more, rest, next, c == '\n', ins, emit, v, verbatim);
      CopiedMore(c, more, verbatim, emit(rest, next + Units(more), later, ins));
    }
  }

  lemma {:induction false} EntitiesStartLater(ps: seq<Piece>, base: int, i: nat)
    requires i < |EntitiesOf(ps, base)|
    ensures EntitiesOf(ps, base)[i].offset >= base + Units(ps[0].gap)
    ensures !EntitiesOf(ps, base)[i].Blockquote?
    decreases |ps|
  {
    if i > 0 {
      EntitiesStartLater(ps[1..], base + Units(ps[0].gap) + Units(ps[0].body), i - 1);
    }
  }

  function Opening(p: Piece, base: int): Insertion {
    Insertion(base + Units(p.gap), true, OpenMark(p.kind))
  }

  function Closing(p: Piece, base: int): Insertion {
    Insertion(base + Units(p.gap) + Units(p.body), false, CloseMark(p.kind))
  }

  /** The marks of the pieces, by rising position. */
  function Marks(ps: seq<Piece>, base: int): seq<Insertion> {
    if ps == [] then []
    else [Opening(ps[0], base)] + ([Closing(ps[0], base)] + Marks(ps[1..], base + Units(ps[0].gap) + Units(ps[0].body)))
  }

  lemma MarksOfOne(p: Piece, base: int)
    ensures InsertionsOf(EntityOf(p.kind, base + Units(p.gap), Units(p.body))) == [Opening(p, base), Closing(p, base)]
  {
  }

  lemma MarksSplit(e: Entity, later: seq<Entity>, x: Insertion, y: Insertion)
    requires InsertionsOf(e) == [x, y]
    ensures AllInsertions([e] + later) == [x] + ([y] + AllInsertions(later))
  {
    assert ([e] + later)[1..] == later;
  }

  lemma FirstMarks(ps: seq<Piece>, base: int, end: int)
    requires ps != [] && end == base + Units(ps[0].gap) + Units(ps[0].body)
    ensures Marks(ps, base) == [Opening(ps[0], base)] + ([Closing(ps[0], base)] + Marks(ps[1..], end))
  {
  }

  lemma FirstEntity(ps: seq<Piece>, base: int, start: int)
    requires ps != [] && start == base + Units(ps[0].gap)
    ensures EntitiesOf(ps, base)
            == [EntityOf(ps[0].kind, start, Units(ps[0].body))] + EntitiesOf(ps[1..], start + Units(ps[0].body))
  {
  }

  /** The generator collects these marks. */
  lemma {:induction false} MarksAreCollected(ps: seq<Piece>, base: int)
    ensures AllInsertions(EntitiesOf(ps, base)) == Marks(ps, base)
  {
    if ps != [] {
      var p, start := ps[0], base + Units(ps[0].gap);
      var end := start + Units(p.body);
      MarksAreCollected(ps[1..], end);
      MarksOfOne(p, base);
      MarksSplit(EntityOf(p.kind, start, Units(p.body)), EntitiesOf(ps[1..], end), Opening(p, base), Closing(p, base));
      FirstMarks(ps, base, end);
      FirstEntity(ps, base, start);
    }
  }

  /** From `base` on, `v` tells the code and block spans of the pieces. */
  ghost predicate TellsVerbatim(v: int -> bool, ps: seq<Piece>, base: int) {
    forall p :: p >= base ==> v(p) == InVerbatim(EntitiesOf(ps, base), p)
  }

  lemma FirstVerbatim(e: Entity, later: seq<Entity>, p: int)
    ensures InVerbatim([e] + later, p) <==> ((e.Code? || e.Pre?) && Covers(e, p)) || InVerbatim(later, p)
  {
    if InVerbatim(later, p) {
      var i :| 0 <= i < |later| && (later[i].Code? || later[i].Pre?) && Covers(later[i], p);
      assert ([e] + later)[i + 1] == later[i];
    }
    assert ([e] + later)[0] == e;
  }

  lemma PiecesVerbatim(ps: seq<Piece>, base: int, p: int)
    requires ps != []
    ensures var start := base + Units(ps[0].gap);
            var end := start + Units(ps[0].body);
            && (p < start ==> !InVerbatim(EntitiesOf(ps, base), p))
            && (start <= p < end ==> InVerbatim(EntitiesOf(ps, base), p) == IsVerbatim(ps[0].kind))
            && (p >= end ==> InVerbatim(EntitiesOf(ps, base), p) == InVerbatim(EntitiesOf(ps[1..], end), p))
  {
    var start := base + Units(ps[0].gap);
    var end := start + Units(ps[0].body);
    var later := EntitiesOf(ps[1..], end);
    FirstVerbatim(EntityOf(ps[0].kind, start, Units(ps[0].body)), later, p);
    forall i | 0 <= i < |later|
      ensures later[i].offset >= end
    {
      EntitiesStartLater(ps[1..], end, i);
    }
  }

  lemma VerbatimParts(ps: seq<Piece>, base: int, end: int, v: int -> bool)
    requires ps != [] && end == base + Units(ps[0].gap) + Units(ps[0].body) && TellsVerbatim(v, ps, base)
    ensures Uniform(v, base, base + Units(ps[0].gap), false)
    ensures Uniform(v, base + Units(ps[0].gap), end, IsVerbatim(ps[0].kind))
    ensures TellsVerbatim(v, ps[1..], end)
  {
    forall q
      ensures var start := base + Units(ps[0].gap);
              && (q < start ==> !InVerbatim(EntitiesOf(ps, base), q))
              && (start <= q < end ==> InVerbatim(EntitiesOf(ps, base), q) == IsVerbatim(ps[0].kind))
              && (q >= end ==> InVerbatim(EntitiesOf(ps, base), q) == InVerbatim(EntitiesOf(ps[1..], end), q))
    {
      PiecesVerbatim(ps, base, q);
    }
  }

  lemma EmitsTail(tail: string, base: int, lineStart: bool, emit: Emitter, v: int -> bool)
    requires EmitsChars(emit, v) && EmitsNothing(emit) && TellsVerbatim(v, [], base)
    ensures emit(tail, base, lineStart, []) == EscapedText(tail)
  {
    var later := EmitRun(tail, "", base, lineStart, [], emit, v, false);
    assert tail + "" == tail && EscapedText(tail) + "" == EscapedText(tail);
  }

  /** The first span and the rest, written one behind the other. */
  lemma FirstAndRest(ps: seq<Piece>, tail: string, whole: string, rest: string)
    requires ps != [] && whole == PrintedPiece(ps[0], rest) && rest == Printed(ps[1..], tail)
    ensures whole == Printed(ps, tail)
  {
  }

  lemma SameEmission(ps: seq<Piece>, tail: string, base: int, end: int, lineStart: bool, emit: Emitter)
    requires ps != [] && end == base + Units(ps[0].gap) + Units(ps[0].body)
    ensures emit(TextOf(ps, tail), base, lineStart, Marks(ps, base))
            == emit(PieceText(ps[0], TextOf(ps[1..], tail)), base, lineStart,
                    [Opening(ps[0], base)] + ([Closing(ps[0], base)] + Marks(ps[1..], end)))
  {
    FirstMarks(ps, base, end);
  }

  lemma {:induction false} EmitsPrinted(ps: seq<Piece>, tail: string, base: int, lineStart: bool,
                                        emit: Emitter, v: int -> bool)
    requires EmitsChars(emit, v) && EmitsMarks(emit) && EmitsNothing(emit)
    requires TellsVerbatim(v, ps, base)
    ensures emit(TextOf(ps, tail), base, lineStart, Marks(ps, base)) == Printed(ps, tail)
    decreases |ps|
  {
    if ps == [] {
      EmitsTail(tail, base, lineStart, emit, v);
    } else {
      var p, more := ps[0], TextOf(ps[1..], tail);
      var end := base + Units(p.gap) + Units(p.body);
      VerbatimParts(ps, base, end, v);
      var after, whole, rest := EmitSpan(p, more, base, end, lineStart, Marks(ps[1..], end), emit, v);
      EmitsPrinted(ps[1..], tail, end, after, emit, v);
      SameEmission(ps, tail, base, end, lineStart, emit);
      FirstAndRest(ps, tail, whole, rest);
    }
  }

  lemma EmitSpan(p: Piece, rest: string, base: int, end: int, lineStart: bool, ins: seq<Insertion>, emit: Emitter,
          v: int -> bool)
    returns (later: bool, whole: string, more: string)
    requires EmitsChars(emit, v) && EmitsMarks(emit) && end == base + Units(p.gap) + Units(p.body)
    requires Uniform(v, base, base + Units(p.gap), false) && Uniform(v, base + Units(p.gap), end, IsVerbatim(p.kind))
    ensures whole == emit(PieceText(p, rest), base, lineStart, [Opening(p, base)] + ([Closing(p, base)] + ins))
    ensures more == emit(rest, end, later, ins) && whole == PrintedPiece(p, more)
  {
    var start := base + Units(p.gap);
    var closing := [Closing(p, base)] + ins;
    var inGap := EmitRun(p.gap, p.body + rest, base, lineStart, [Opening(p, base)] + closing, emit, v, false);
    later := EmitRun(p.body, rest, start, inGap, closing, emit, v, IsVerbatim(p.kind));
    whole := emit(PieceText(p, rest), base, lineStart, [Opening(p, base)] + closing);
    more := emit(rest, end, later, ins);
  }

  ghost predicate KeysFrom(ins: seq<Insertion>, low: int) {
    forall i :: 0 <= i < |ins| ==> KeyOf(ins[i]) >= low
  }

  lemma TwoMoreSorted(x: Insertion, y: Insertion, ins: seq<Insertion>)
    requires SortedBy(ins, KeyOf) && KeysFrom(ins, KeyOf(y)) && KeyOf(x) <= KeyOf(y)
    ensures SortedBy([x] + ([y] + ins), KeyOf) && KeysFrom([x] + ([y] + ins), KeyOf(x))
  {
  }

  lemma LaterKeys(ps: seq<Piece>, end: int, ins: seq<Insertion>)
    requires ps == [] ==> ins == []
    requires ps != [] ==> ps[0].gap != "" && KeysFrom(ins, 2 * (end + Units(ps[0].gap)))
    ensures KeysFrom(ins, 2 * end + 1)
  {
    if ps != [] {
      UnitsBound(ps[0].gap);
    }
  }

  lemma GoodTail(ps: seq<Piece>)
    requires ps != [] && GoodPieces(ps)
    ensures GoodPiece(ps[0]) && GoodPieces(ps[1..]) && (ps[1..] != [] ==> ps[1..][0].gap != "")
  {
  }

  lemma FirstSorted(p: Piece, base: int, ins: seq<Insertion>)
    requires SortedBy(ins, KeyOf) && KeysFrom(ins, 2 * (base + Units(p.gap) + Units(p.body)) + 1)
    ensures var all := [Opening(p, base)] + ([Closing(p, base)] + ins);
            SortedBy(all, KeyOf) && KeysFrom(all, 2 * (base + Units(p.gap)))
  {
    TwoMoreSorted(Opening(p, base), Closing(p, base), ins);
  }

  lemma {:induction false} MarksAreSorted(ps: seq<Piece>, base: int)
    requires GoodPieces(ps)
    ensures SortedBy(Marks(ps, base), KeyOf)
    ensures ps != [] ==> KeysFrom(Marks(ps, base), 2 * (base + Units(ps[0].gap)))
    decreases |ps|
  {
    if ps != [] {
      var end := base + Units(ps[0].gap) + Units(ps[0].body);
      GoodTail(ps);
      MarksAreSorted(ps[1..], end);
      LaterKeys(ps[1..], end, Marks(ps[1..], end));
      FirstSorted(ps[0], base, Marks(ps[1..], end));
    }
  }

  lemma PiecesRoundTrip(ps: seq<Piece>, tail: string)
    requires GoodPieces(ps)
    ensures Parse(Generate(TextOf(ps, tail), EntitiesOf(ps, 0))) == Parsed(TextOf(ps, tail), EntitiesOf(ps, 0))
  {
    var ents := EntitiesOf(ps, 0);
    forall i | 0 <= i < |ents|
      ensures !ents[i].Blockquote?
    {
      EntitiesStartLater(ps, 0, i);
    }
    MarksAreCollected(ps, 0);
    MarksAreSorted(ps, 0);
    SortLeavesSorted(AllInsertions(ents), KeyOf);
    GeneratorEmitsChars(ents);
    GeneratorEmitsMarks(ents);
    EmitsPrinted(ps, tail, 0, true, EmitterFor(ents), VerbatimAt(ents));
    PrintedParses(ps, tail, Initial());
    assert "" + TextOf(ps, tail) == TextOf(ps, tail) && [] + ents == ents;
  }

  // Any separated spans are pieces

  /** Every entity but a block quote and one that is not written at all. */
  predicate InFragment(e: Entity) {
    !e.Blockquote? && !e.Unformatted?
  }

  function KindOf(e: Entity): Kind
    requires InFragment(e)
  {
    match e
    case Styled(style, _, _) => Tag(style)
    case Code(_, _) => Verbatim
    case Pre(_, _, language) => Block(language)
    case TextUrl(_, _, url) => Link(url)
    case MentionName(_, _, user) => Mention(user)
    case CustomEmoji(_, _, doc) => Emoji(doc)
  }

  /** The entity spans the characters from `a` to `b`, and they can be written as its body.
      The text starts at offset `base`. */
  predicate SpansOver(text: string, base: int, e: Entity, a: nat, b: nat) {
    && InFragment(e) && a < b <= |text|
    && e.offset == base + Units(text[..a]) && e.offset + e.length == base + Units(text[..b])
    && Writable(KindOf(e), text[a..b])
  }

  ghost predicate SpanIn(text: string, base: int, e: Entity) {
    exists a: nat, b: nat :: SpansOver(text, base, e, a, b)
  }

  /** Spans that can be written, in order and apart from each other. */
  ghost predicate Separated(text: string, base: int, ents: seq<Entity>) {
    && (forall i :: 0 <= i < |ents| ==> SpanIn(text, base, ents[i]))
    && (forall i, j :: 0 <= i < j < |ents| ==> ents[i].offset + ents[i].length < ents[j].offset)
  }

  lemma {:induction false} PrefixUnits(text: string, i: nat, j: nat)
    requires i <= j <= |text|
    ensures Units(text[..j]) == Units(text[..i]) + Units(text[i..j])
    ensures Units(text[..i]) + (j - i) <= Units(text[..j])
  {
    assert text[..j] == text[..i] + text[i..j];
    UnitsConcat(text[..i], text[i..j]);
    UnitsBound(text[i..j]);
  }

  lemma Shifted(text: string, b: nat, x: nat, y: nat)
    requires b <= x <= y <= |text|
    ensures text[b..][..x - b] == text[b..x] && text[b..][x - b..y - b] == text[x..y]
  {
  }

  lemma LaterSpan(text: string, base: int, b: nat, e: Entity)
    requires b <= |text| && SpanIn(text, base, e) && e.offset >= base + Units(text[..b])
    ensures SpanIn(text[b..], base + Units(text[..b]), e)
  {
    var x: nat, y: nat :| SpansOver(text, base, e, x, y);
    if x < b {
      PrefixUnits(text, x, b);
    }
    PrefixUnits(text, b, x);
    PrefixUnits(text, b, y);
    Shifted(text, b, x, y);
    Shifted(text, b, y, y);
    assert SpansOver(text[b..], base + Units(text[..b]), e, x - b, y - b);
  }

  lemma LaterSeparated(text: string, base: int, b: nat, ents: seq<Entity>)
    requires ents != [] && Separated(text, base, ents)
    requires b <= |text| && base + Units(text[..b]) == ents[0].offset + ents[0].length
    ensures Separated(text[b..], base + Units(text[..b]), ents[1..])
  {
    forall i | 0 <= i < |ents[1..]|
      ensures SpanIn(text[b..], base + Units(text[..b]), ents[1..][i])
    {
      LaterSpan(text, base, b, ents[i + 1]);
    }
  }

  lemma CutAt(text: string, base: int, e: Entity, a: nat, b: nat)
    requires SpansOver(text, base, e, a, b)
    ensures var p := Piece(text[..a], KindOf(e), text[a..b]);
            && GoodPiece(p) && text == PieceText(p, text[b..])
            && EntityOf(p.kind, base + Units(p.gap), Units(p.body)) == e
            && base + Units(text[..b]) == base + Units(p.gap) + Units(p.body)
  {
    PrefixUnits(text, a, b);
    assert text == text[..a] + (text[a..b] + text[b..]);
  }

  /** The first span with the text before it, and what is left. */
  lemma CutFirst(text: string, base: int, ents: seq<Entity>) returns (p: Piece, rest: string)
    requires ents != [] && Separated(text, base, ents)
    ensures GoodPiece(p) && text == PieceText(p, rest)
    ensures EntityOf(p.kind, base + Units(p.gap), Units(p.body)) == ents[0]
    ensures Separated(rest, base + Units(p.gap) + Units(p.body), ents[1..])
  {
    var a: nat, b: nat :| SpansOver(text, base, ents[0], a, b);
    p, rest := Piece(text[..a], KindOf(ents[0]), text[a..b]), text[b..];
    CutAt(text, base, ents[0], a, b);
    LaterSeparated(text, base, b, ents);
  }

  lemma GoodFront(p: Piece, more: seq<Piece>)
    requires GoodPiece(p) && GoodPieces(more) && (more != [] ==> more[0].gap != "")
    ensures GoodPieces([p] + more)
  {
  }

  /** A span that begins behind `end` has text in front of it. */
  lemma GapBefore(more: seq<Piece>, end: int, ents: seq<Entity>)
    requires EntitiesOf(more, end) == ents && (ents != [] ==> end < ents[0].offset)
    ensures more != [] ==> more[0].gap != ""
  {
  }

  lemma AddPiece(p: Piece, more: seq<Piece>, tail: string, base: int, ents: seq<Entity>)
    requires ents != [] && GoodPiece(p) && GoodPieces(more)
    requires EntityOf(p.kind, base + Units(p.gap), Units(p.body)) == ents[0]
    requires EntitiesOf(more, base + Units(p.gap) + Units(p.body)) == ents[1..]
    requires |ents| > 1 ==> ents[0].offset + ents[0].length < ents[1].offset
    ensures TextOf([p] + more, tail) == PieceText(p, TextOf(more, tail))
    ensures EntitiesOf([p] + more, base) == ents && GoodPieces([p] + more)
  {
    assert ([p] + more)[1..] == more;
    GapBefore(more, base + Units(p.gap) + Units(p.body), ents[1..]);
    GoodFront(p, more);
    assert ents == [ents[0]] + ents[1..];
  }

  lemma {:induction false} Chop(text: string, base: int, ents: seq<Entity>) returns (ps: seq<Piece>, tail: string)
    requires Separated(text, base, ents)
    ensures TextOf(ps, tail) == text && EntitiesOf(ps, base) == ents && GoodPieces(ps)
    decreases |ents|
  {
    if ents == [] {
      ps, tail := [], text;
    } else {
      var p, rest := CutFirst(text, base, ents);
      var more;
      more, tail := Chop(rest, base + Units(p.gap) + Units(p.body), ents[1..]);
      AddPiece(p, more, tail, base, ents);
      ps := [p] + more;
    }
  }

  /** For every text and every list of separated spans, parsing what was generated gives
      the text and the spans back. */
  lemma MarkdownRoundTrips(text: string, ents: seq<Entity>)
    requires Separated(text, 0, ents)
    ensures Parse(Generate(text, ents)) == Parsed(text, ents)
  {
    var ps, tail := Chop(text, 0, ents);
    PiecesRoundTrip(ps, tail);
  }

  /** With no entities: escaping a text and parsing it gives the text. */
  lemma EscapingRoundTrips(text: string)
    ensures Parse(Generate(text, [])) == Parsed(text, [])
  {
    MarkdownRoundTrips(text, []);
  }
}
