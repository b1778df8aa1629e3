/** When a link, a mention or a custom emoji at the end of a text comes back: exactly when
    its label holds no character that is escaped and its address can be told. */
module MarkdownLinks {
  import opened Wrappers
  import opened MarkdownDefs
  import opened MarkdownParser
  import opened MarkdownGenerator
  import opened MarkdownSpans
  import opened MarkdownRoundTrip
  import opened StableSort

  // Parsing only appends

  ghost predicate Appends(st: State, next: State) {
    st.out <= next.out && st.ents <= next.ents
  }

  lemma EndQuoteAppends(st: State)
    ensures Appends(st, EndQuote(st)) && EndQuote(st).out == st.out
  {
  }

  lemma ToggleAppends(st: State, style: Style)
    ensures Appends(st, Toggle(st, style))
  {
  }

  lemma TagAppends(s: string, st: State)
    requires s != ""
    ensures Appends(st, TagStep(s, st).st)
  {
    var tag := TwoCharTag(s);
    if tag.Some? {
      ToggleAppends(st, tag.value);
    } else if OneCharTag(s).Some? {
      ToggleAppends(st, OneCharTag(s).value);
    }
  }

  lemma SpansAppend(s: string, st: State)
    ensures PreStep(s, st).Some? ==> Appends(st, PreStep(s, st).value.st)
    ensures CodeStep(s, st).Some? ==> Appends(st, CodeStep(s, st).value.st)
    ensures EmojiStep(s, st).Some? ==> Appends(st, EmojiStep(s, st).value.st)
    ensures LinkStep(s, st).Some? ==> Appends(st, LinkStep(s, st).value.st)
  {
  }

  lemma InlineAppends(s: string, st: State)
    requires s != ""
    ensures Appends(st, InlineStep(s, st).st)
  {
    SpansAppend(s, st);
    TagAppends(s, st);
  }

  lemma StepAppends(s: string, st: State)
    requires s != ""
    ensures Appends(st, Step(s, st).st)
  {
    EndQuoteAppends(st);
    if !(st.lineStart && QuoteMark(s) > 0) {
      InlineAppends(s, OffLineStart(st));
    }
  }

  lemma {:induction false} ParsingAppends(s: string, st: State)
    ensures Appends(st, ParseFrom(s, st))
    decreases |s|
  {
    if s != "" {
      ParseFromUnfolds(s, st);
      StepAppends(s, st);
      var t := Step(s, st);
      ParsingAppends(s[t.used..], t.st);
    }
  }

  // A label that reads as it was

  /** `m` backslashes and then what is written for `l`. */
  predicate SlashesFirst(e: string, m: nat, l: string, rest: string) {
    m <= |e| && (forall i :: 0 <= i < m ==> e[i] == '\\') && e[m..] == EscapedText(l) + rest
  }

  lemma OneMoreSlash(e: string, m: nat, l: string, rest: string)
    requires SlashesFirst(e, m, l, rest) && m > 0 && l != "" && l[0] == '\\'
    ensures SlashesFirst(e[1..], m + 1, l[1..], rest)
  {
    assert IsEscapable('\\');
    var later := EscapedText(l[1..]) + rest;
    assert e[m..] == ['\\', '\\'] + later;
    assert e[m] == e[m..][0] && e[m + 1] == e[m..][1];
    assert e[1..][m + 1..] == e[m..][2..] == later;
  }

  /** Behind an escape the text read never catches up with the label. */
  lemma {:induction false} NeverCatchesUp(e: string, m: nat, l: string, rest: string)
    requires m > 0 && SlashesFirst(e, m, l, rest) && l <= e && |l| < |e|
    ensures e[|l|] == '\\'
    decreases |l|
  {
    if l != "" {
      assert l[0] == e[0];
      OneMoreSlash(e, m, l, rest);
      assert e[1..][|l[1..]|] == e[|l|];
      NeverCatchesUp(e[1..], m + 1, l[1..], rest);
    }
  }

  /** If what was written for the label reads as the label up to a bracket, nothing in
      it was escaped. */
  lemma {:induction false} ReadAsWritten(l: string, rest: string)
    requires var e := EscapedText(l) + rest; l <= e && |l| < |e| && e[|l|] == ']'
    ensures Plain(l)
    decreases |l|
  {
    if l != "" {
      var c, later := l[0], l[1..];
      var e := EscapedText(l) + rest;
      assert e == Escaped(c) + (EscapedText(later) + rest);
      assert e[0] == c;
      if IsEscapable(c) {
        assert e[1..][1..] == EscapedText(later) + rest;
        assert e[1..][|later|] == e[|l|];
        NeverCatchesUp(e[1..], 1, later, rest);
        assert false;
      } else {
        assert e[1..] == EscapedText(later) + rest;
        ReadAsWritten(later, rest);
        assert l == [c] + later;
      }
    }
  }

  // One labelled span at the end of a text

  predicate IsLabelled(kind: Kind) {
    kind.Link? || ((kind.Mention? || kind.Emoji?) && IsI64(if kind.Mention? then kind.user else kind.doc))
  }

  function LabelEntity(gap: string, body: string, kind: Kind): Entity {
    EntityOf(kind, Units(gap), Units(body))
  }

  lemma OneIsGenerated(gap: string, body: string, kind: Kind)
    ensures Generate(gap + body, [LabelEntity(gap, body, kind)]) == EscapedText(gap) + SpanText(kind, body, "")
  {
    var p := Piece(gap, kind, body);
    var ents := EntitiesOf([p], 0);
    assert [p][1..] == [] && body + "" == body;
    FirstEntity([p], 0, Units(gap));
    assert ents == [LabelEntity(gap, body, kind)];
    MarksAreCollected([p], 0);
    FirstSorted(p, 0, []);
    SortLeavesSorted(AllInsertions(ents), KeyOf);
    GeneratorEmitsChars(ents);
    GeneratorEmitsMarks(ents);
    EmitsPrinted([p], "", 0, true, EmitterFor(ents), VerbatimAt(ents));
  }

  /** The first entity noted is the first in the end. */
  lemma FirstStays(st: State, next: State, e: Entity)
    requires Appends(st, next) && st.ents != [] && next.ents == [e]
    ensures st.ents == [e]
  {
  }

  lemma SamePrefix(gap: string, x: string, body: string)
    requires gap + x <= gap + body && Units(x) == Units(body)
    ensures x == body
  {
    assert (gap + x)[|gap|..] == x && (gap + body)[|gap|..] == body;
    assert x == body[..|x|] by {
      assert (gap + body)[..|gap| + |x|] == gap + body[..|x|];
    }
    UnitsSplit(body, |x|);
    UnitsBound(body[|x|..]);
    assert body == body[..|x|] + body[|x|..];
  }

  lemma {:induction false} BracketEnds(s: string, from: nat, depth: int)
    requires from <= |s|
    ensures var j := FindBracket(s, from, depth); j < |s| ==> s[j] == ']'
    decreases |s| - from
  {
    if from < |s| {
      var d := if s[from] == '[' then depth + 1 else if s[from] == ']' then depth - 1 else depth;
      if !(s[from] == ']' && d == 0) {
        BracketEnds(s, from + 1, d);
      }
    }
  }

  /** A label taken from `start` to the bracket at `j` that is the label written there. */
  lemma TakenAsWritten(s: string, start: nat, j: nat, body: string, rest: string)
    requires start <= j < |s| && s[j] == ']' && s[start..] == EscapedText(body) + rest && s[start..j] == body
    ensures Plain(body)
  {
    assert s[start..][..|body|] == s[start..j];
    assert s[start..][|body|] == s[j];
    ReadAsWritten(body, rest);
  }

  // What parsing a labelled span comes to

  /** At the end of `gap`, with nothing open or noted. */
  predicate Behind(st: State, gap: string) {
    st.quote.None? && st.out == gap && st.off == Units(gap) && st.ents == []
  }

  /** Parsing goes on from `next` with `rest`. */
  ghost predicate GoesOn(s: string, st: State, rest: string, next: State) {
    ParseFrom(s, st) == ParseFrom(rest, next)
  }

  lemma LinkTaken(s: string, st: State, t: Stepped) returns (j: nat, k: nat)
    requires s != "" && s[0] == '[' && LinkStep(s, st) == Some(t)
    ensures 1 <= j < |s| && s[j] == ']' && j + 2 <= k < |s| && ')' !in s[j + 2..k] && 0 < t.used <= |s|
    ensures t.st == Note(Push(st, s[1..j]), LinkEntity(st.off, Units(s[1..j]), s[j + 2..k]))
  {
    j := FindBracket(s, 1, 1);
    k := AddressEnd(s, j).value;
    BracketEnds(s, 1, 1);
  }

  lemma EmojiTaken(s: string, st: State, t: Stepped) returns (j: nat)
    requires |s| >= 2 && s[0] == '!' && EmojiStep(s, st) == Some(t)
    ensures 2 <= j < |s| && s[j] == ']' && 0 < t.used <= |s|
    ensures exists doc :: t.st == Note(Push(st, s[2..j]), CustomEmoji(st.off, Units(s[2..j]), doc))
  {
    j := FindChar(s, 2, ']');
    var k := AddressEnd(s, j).value;
    assert t.st == Note(Push(st, s[2..j]), CustomEmoji(st.off, Units(s[2..j]), EmojiId(s[j + 2..k]).value));
  }

  lemma SignIsText(s: string, st: State)
    requires s != "" && ((s[0] == '[' && LinkStep(s, st).None?) || (s[0] == '!' && EmojiStep(s, st).None?))
    ensures QuoteMark(s) == 0 && InlineStep(s, st) == Stepped(1, Push(st, [s[0]]).(lineStart := false))
  {
  }

  /** A sign that is read as text, and then the label as it was written. */
  lemma ReadAsText(s: string, st: State, body: string, rest: string, gap: string) returns (next: State)
    requires s != "" && s[1..] == EscapedText(body) + rest && Behind(st, gap)
    requires var begun := st.(lineStart := false);
             (s[0] == '[' && LinkStep(s, begun).None?) || (s[0] == '!' && EmojiStep(s, begun).None?)
    ensures GoesOn(s, st, rest, next) && next.out == gap + [s[0]] + body
  {
    var begun := st.(lineStart := false);
    var read := Push(begun, [s[0]]).(lineStart := false);
    SignIsText(s, begun);
    InlineParses(s, st, Stepped(1, read), EscapedText(body) + rest);
    var lineStart := EscapedTextParses(body, rest, read);
    next := Pushed(read, body, lineStart);
  }

  lemma TooLong(s: string, st: State, rest: string, next: State, gap: string, sign: string, body: string)
    requires GoesOn(s, st, rest, next) && next.out == gap + sign + body && sign != ""
    ensures EndQuote(ParseFrom(s, st)).out != gap + body
  {
    ParsingAppends(rest, next);
    EndQuoteAppends(ParseFrom(s, st));
  }

  /** The entity noted first is the one that comes out, over a label that reads as its own. */
  lemma OneNoted(st: State, begun: State, x: string, e: Entity, gap: string, body: string, found: Entity, final: State)
    requires Behind(begun, gap) && st == Note(Push(begun, x), found) && Appends(st, final)
    requires found.offset == begun.off && found.length == Units(x)
    requires EndQuote(final).out == gap + body && EndQuote(final).ents == [e] && e.length == Units(body)
    ensures found == e && x == body
  {
    EndQuoteAppends(final);
    assert st.ents == [found];
    assert [found] <= [e];
    assert [found][0] == [e][0];
    SamePrefix(gap, x, body);
  }

  lemma LinkMeans(s: string, st: State, body: string, rest: string, gap: string, e: Entity)
    requires s != "" && s[0] == '[' && s[1..] == EscapedText(body) + rest && Behind(st, gap) && e.length == Units(body)
    requires EndQuote(ParseFrom(s, st)).out == gap + body && EndQuote(ParseFrom(s, st)).ents == [e]
    ensures Plain(body) && exists url :: ')' !in url && e == LinkEntity(Units(gap), Units(body), url)
  {
    var begun := st.(lineStart := false);
    if LinkStep(s, begun).None? {
      var next := ReadAsText(s, st, body, rest, gap);
      TooLong(s, st, rest, next, gap, [s[0]], body);
    } else {
      var t := LinkStep(s, begun).value;
      var j, k := LinkTaken(s, begun, t);
      BracketIsInline(s, begun, t);
      InlineParses(s, st, t, s[t.used..]);
      ParsingAppends(s[t.used..], t.st);
      OneNoted(t.st, begun, s[1..j], e, gap, body, LinkEntity(begun.off, Units(s[1..j]), s[j + 2..k]), ParseFrom(s,
          st));
      TakenAsWritten(s, 1, j, body, rest);
    }
  }

  lemma LinkIsNoEmoji(st: State, final: State, e: Entity)
    requires Appends(st, final) && |st.ents| == 1 && !st.ents[0].CustomEmoji? && e.CustomEmoji?
    ensures EndQuote(final).ents != [e]
  {
    EndQuoteAppends(final);
    assert EndQuote(final).ents[0] == st.ents[0];
  }

  lemma LinkBehindSign(s: string, st: State, t: Stepped, gap: string, e: Entity)
    requires s != "" && s[0] == '[' && Behind(st, gap) && e.CustomEmoji?
    requires LinkStep(s, st.(lineStart := false)) == Some(t)
    ensures EndQuote(ParseFrom(s, st)).ents != [e]
  {
    var begun := st.(lineStart := false);
    var j, k := LinkTaken(s, begun, t);
    BracketIsInline(s, begun, t);
    InlineParses(s, st, t, s[t.used..]);
    ParsingAppends(s[t.used..], t.st);
    LinkIsNoEmoji(t.st, ParseFrom(s, st), e);
  }

  lemma TextBehindSign(s: string, st: State, body: string, rest: string, gap: string)
    requires s != "" && s[0] == '[' && s[1..] == EscapedText(body) + rest && Behind(st, gap + "!")
    requires LinkStep(s, st.(lineStart := false)).None?
    ensures EndQuote(ParseFrom(s, st)).out != gap + body
  {
    var next := ReadAsText(s, st, body, rest, gap + "!");
    assert gap + "!" + "[" + body == gap + "![" + body;
    TooLong(s, st, rest, next, gap, "![", body);
  }

  /** From the bracket of an emoji on: a link, which is not an emoji, or more text. */
  lemma NoEmojiFromBracket(s: string, st: State, body: string, rest: string, gap: string, e: Entity)
    requires s != "" && s[0] == '[' && s[1..] == EscapedText(body) + rest && Behind(st, gap + "!") && e.CustomEmoji?
    ensures EndQuote(ParseFrom(s, st)).out != gap + body || EndQuote(ParseFrom(s, st)).ents != [e]
  {
    var link := LinkStep(s, st.(lineStart := false));
    if link.None? {
      TextBehindSign(s, st, body, rest, gap);
    } else {
      LinkBehindSign(s, st, link.value, gap + "!", e);
    }
  }

  /** An emoji's sign that was read as text. */
  lemma NoEmojiLater(s: string, st: State, body: string, rest: string, gap: string, e: Entity)
    requires |s| >= 2 && s[0] == '!' && s[1] == '[' && s[2..] == EscapedText(body) + rest && Behind(st, gap)
    requires EmojiStep(s, st.(lineStart := false)).None? && e.CustomEmoji?
    ensures EndQuote(ParseFrom(s, st)).out != gap + body || EndQuote(ParseFrom(s, st)).ents != [e]
  {
    var begun := st.(lineStart := false);
    var read := Push(begun, "!").(lineStart := false);
    SignIsText(s, begun);
    InlineParses(s, st, Stepped(1, read), s[1..]);
    assert s[1..][1..] == s[2..];
    UnitsConcat(gap, "!");
    NoEmojiFromBracket(s[1..], read, body, rest, gap, e);
  }

  lemma EmojiMeans(s: string, st: State, body: string, rest: string, gap: string, e: Entity)
    requires |s| >= 2 && s[0] == '!' && s[1] == '[' && s[2..] == EscapedText(body) + rest && Behind(st, gap)
    requires e.CustomEmoji? && e.length == Units(body)
    requires EndQuote(ParseFrom(s, st)).out == gap + body && EndQuote(ParseFrom(s, st)).ents == [e]
    ensures Plain(body)
  {
    var begun := st.(lineStart := false);
    if EmojiStep(s, begun).None? {
      NoEmojiLater(s, st, body, rest, gap, e);
    } else {
      var t := EmojiStep(s, begun).value;
      var j := EmojiTaken(s, begun, t);
      var doc :| t.st == Note(Push(begun, s[2..j]), CustomEmoji(begun.off, Units(s[2..j]), doc));
      BracketIsInline(s, begun, t);
      InlineParses(s, st, t, s[t.used..]);
      ParsingAppends(s[t.used..], t.st);
      OneNoted(t.st, begun, s[2..j], e, gap, body, CustomEmoji(begun.off, Units(s[2..j]), doc), ParseFrom(s, st));
      TakenAsWritten(s, 2, j, body, rest);
    }
  }

  lemma MeansWritable(kind: Kind, body: string, offset: nat, url: string)
    requires IsLabelled(kind) && !kind.Emoji? && body != "" && Plain(body) && ')' !in url
    requires EntityOf(kind, offset, Units(body)) == LinkEntity(offset, Units(body), url)
    ensures Writable(kind, body)
  {
  }

  lemma SpanMeansWritable(kind: Kind, gap: string, body: string, st: State)
    requires IsLabelled(kind) && body != "" && Behind(st, gap)
    requires var r := EndQuote(ParseFrom(SpanText(kind, body, ""), st));
             r.out == gap + body && r.ents == [LabelEntity(gap, body, kind)]
    ensures Writable(kind, body)
  {
    var s, e := SpanText(kind, body, ""), LabelEntity(gap, body, kind);
    var rest := CloseMark(kind) + "";
    if kind.Emoji? {
      assert s[2..] == EscapedText(body) + rest;
      EmojiMeans(s, st, body, rest, gap, e);
    } else {
      assert s[1..] == EscapedText(body) + rest;
      LinkMeans(s, st, body, rest, gap, e);
      var url :| ')' !in url && e == LinkEntity(Units(gap), Units(body), url);
      MeansWritable(kind, body, Units(gap), url);
    }
  }

  /** Generating and parsing gives text and span back. */
  predicate ComesBack(gap: string, body: string, kind: Kind) {
    Parse(Generate(gap + body, [LabelEntity(gap, body, kind)])) == Parsed(gap + body, [LabelEntity(gap, body, kind)])
  }

  lemma LabelComesBack(gap: string, body: string, kind: Kind)
    requires Writable(kind, body)
    ensures ComesBack(gap, body, kind)
  {
    var p := Piece(gap, kind, body);
    assert [p][1..] == [] && body + "" == body;
    FirstEntity([p], 0, Units(gap));
    assert EntitiesOf([p], 0) == [LabelEntity(gap, body, kind)];
    PiecesRoundTrip([p], "");
  }

  /** A link, mention or custom emoji at the end of any text comes back exactly when its
      label holds no character that is escaped and, for a link, its address holds no
      closing parenthesis and does not name a user. */
  lemma LabelComesBackExactlyWhen(gap: string, body: string, kind: Kind)
    requires IsLabelled(kind) && body != ""
    ensures ComesBack(gap, body, kind) <==> Plain(body) && (kind.Link? ==> ')' !in kind.url && !NamesUser(kind.url))
  {
    if Writable(kind, body) {
      LabelComesBack(gap, body, kind);
    } else {
      OneIsGenerated(gap, body, kind);
      var lineStart := EscapedTextParses(gap, SpanText(kind, body, ""), Initial());
      var st := Pushed(Initial(), gap, lineStart);
      assert "" + gap == gap;
      if ComesBack(gap, body, kind) {
        SpanMeansWritable(kind, gap, body, st);
      }
    }
  }
}
