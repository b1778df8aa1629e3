/** The MarkdownV2 parser: a scan with a stack of open tags. Every input is parsed, and
    every entity lies within the text, on character boundaries. */
module MarkdownParser {
  import opened Wrappers
  import opened MarkdownDefs

  datatype Open = Open(style: Style, start: nat)

  datatype State = State(out: string, ents: seq<Entity>, stack: seq<Open>, off: nat,
                         quote: Option<nat>, collapsed: bool, lineStart: bool)

  function Initial(): State {
    State("", [], [], 0, None, false, true)
  }

  function Push(st: State, s: string): State {
    st.(out := st.out + s, off := st.off + Units(s))
  }

  function Note(st: State, e: Entity): State {
    st.(ents := st.ents + [e])
  }

  // Scanning ahead

  /** The first `c` at or behind `from`; the length of `s` if there is none. */
  function FindChar(s: string, from: nat, c: char): (j: nat)
    requires from <= |s|
    ensures from <= j <= |s| && (j < |s| ==> s[j] == c)
    ensures forall k :: from <= k < j ==> s[k] != c
    decreases |s| - from
  {
    if from == |s| || s[from] == c then from else FindChar(s, from + 1, c)
  }

  predicate FenceAt(s: string, j: nat) {
    j + 2 < |s| && s[j] == '`' && s[j + 1] == '`' && s[j + 2] == '`'
  }

  function FindFence(s: string, from: nat): (j: nat)
    requires from <= |s|
    ensures from <= j && (j + 2 < |s| ==> FenceAt(s, j))
    decreases |s| - from
  {
    if from + 2 >= |s| || FenceAt(s, from) then from else FindFence(s, from + 1)
  }

  /** Where the bracket opened before `from` is closed again. */
  function FindBracket(s: string, from: nat, depth: int): (j: nat)
    requires from <= |s|
    ensures from <= j <= |s|
    decreases |s| - from
  {
    if from == |s| then from
    else
      var d := if s[from] == '[' then depth + 1 else if s[from] == ']' then depth - 1 else depth;
      if s[from] == ']' && d == 0 then from else FindBracket(s, from + 1, d)
  }

  // Block quotes

  function QuoteMark(s: string): nat {
    if |s| > 2 && s[0] == '*' && s[1] == '*' && s[2] == '>' then 3
    else if s != "" && s[0] == '>' then 1
    else 0
  }

  function EndQuote(st: State): State {
    if st.quote.None? then st
    else
      var length := st.off - st.quote.value;
      var closed := st.(quote := None);
      if length > 0 then Note(closed, Blockquote(st.quote.value, length, st.collapsed)) else closed
  }

  datatype Stepped = Stepped(used: nat, st: State)

  function QuoteStep(s: string, st: State): Stepped
    requires QuoteMark(s) > 0
  {
    var mark := QuoteMark(s);
    var collapsed := mark == 3;
    var next := if st.quote.Some? && st.collapsed == collapsed then st
                else EndQuote(st).(quote := Some(st.off), collapsed := collapsed);
    Stepped(if mark < |s| && s[mark] == ' ' then mark + 1 else mark, next.(lineStart := false))
  }

  // Code

  function PreParts(block: string): (string, string) {
    var nl := FindChar(block, 0, '\n');
    if nl < |block| then (Trim(block[..nl]), TrimNewlines(block[nl + 1..])) else ("", block)
  }

  function PreStep(s: string, st: State): Option<Stepped> {
    if !FenceAt(s, 0) then None
    else
      var j := FindFence(s, 3);
      if j + 2 >= |s| then None
      else
        var parts := PreParts(s[3..j]);
        Some(Stepped(j + 3, Push(Note(st, Pre(st.off, Units(parts.1), parts.0)), parts.1)))
  }

  function CodeStep(s: string, st: State): Option<Stepped> {
    if s == "" || s[0] != '`' then None
    else
      var j := FindChar(s, 1, '`');
      if j == |s| then None
      else Some(Stepped(j + 1, Push(Note(st, Code(st.off, Units(s[1..j]))), s[1..j])))
  }

  // Links

  /** The end of the address behind a label that ends at `j`, if there is one. */
  function AddressEnd(s: string, j: nat): (k: Option<nat>)
    requires j <= |s|
    ensures k.Some? ==> j + 2 <= k.value < |s|
  {
    if j + 1 >= |s| || s[j + 1] != '(' then None
    else
      var k := FindChar(s, j + 2, ')');
      if k == |s| then None else Some(k)
  }

  /** The document an emoji address names. */
  function EmojiId(url: string): Option<int> {
    match StripPrefix(url, EMOJI_PREFIX)
    case None => None
    case Some(id) => ParseI64(id)
  }

  function EmojiStep(s: string, st: State): Option<Stepped> {
    if |s| < 2 || s[0] != '!' || s[1] != '[' then None
    else
      var j := FindChar(s, 2, ']');
      match AddressEnd(s, j)
      case None => None
      case Some(k) =>
        match EmojiId(s[j + 2..k])
        case None => None
        case Some(doc) =>
          Some(Stepped(k + 1, Note(Push(st, s[2..j]), CustomEmoji(st.off, Units(s[2..j]), doc))))
  }

  function LinkEntity(offset: nat, length: nat, url: string): (e: Entity)
    ensures e.offset == offset && e.length == length
  {
    match StripPrefix(url, MENTION_PREFIX)
    case None => TextUrl(offset, length, url)
    case Some(id) =>
      match ParseI64(id)
      case None => TextUrl(offset, length, url)
      case Some(user) => MentionName(offset, length, user)
  }

  function LinkStep(s: string, st: State): Option<Stepped> {
    if s == "" || s[0] != '[' then None
    else
      var j := FindBracket(s, 1, 1);
      match AddressEnd(s, j)
      case None => None
      case Some(k) =>
        Some(Stepped(k + 1, Note(Push(st, s[1..j]), LinkEntity(st.off, Units(s[1..j]), s[j + 2..k]))))
  }

  // Tags

  /** The innermost open tag of a style; `|stack|` if there is none. */
  function LastOpen(stack: seq<Open>, style: Style): (i: nat)
    ensures i <= |stack| && (i < |stack| ==> stack[i].style == style)
    ensures forall k :: 0 <= k < |stack| && (i == |stack| || i < k) ==> stack[k].style != style
  {
    if stack == [] then 0
    else if stack[|stack| - 1].style == style then |stack| - 1
    else
      var i := LastOpen(stack[..|stack| - 1], style);
      if i == |stack| - 1 then |stack| else i
  }

  function Toggle(st: State, style: Style): State {
    var i := LastOpen(st.stack, style);
    if i == |st.stack| then st.(stack := st.stack + [Open(style, st.off)])
    else
      var start := st.stack[i].start;
      var closed := st.(stack := st.stack[..i] + st.stack[i + 1..]);
      if st.off > start then Note(closed, Styled(style, start, st.off - start)) else closed
  }

  function TwoCharTag(s: string): Option<Style> {
    if |s| < 2 then None
    else if s[0] == '*' && s[1] == '*' then Some(Bold)
    else if s[0] == '_' && s[1] == '_' then Some(Underline)
    else if s[0] == '|' && s[1] == '|' then Some(Spoiler)
    else None
  }

  function OneCharTag(s: string): Option<Style>
    requires s != ""
  {
    match s[0]
    case '*' => Some(Bold)
    case '_' => Some(Italic)
    case '~' => Some(Strike)
    case _ => None
  }

  function TagStep(s: string, st: State): Stepped
    requires s != ""
  {
    match TwoCharTag(s)
    case Some(style) => Stepped(2, Toggle(st, style))
    case None =>
      match OneCharTag(s)
      case Some(style) => Stepped(1, Toggle(st, style))
      case None => Stepped(1, Push(st, [s[0]]).(lineStart := s[0] == '\n'))
  }

  predicate IsEscape(s: string) {
    |s| > 1 && s[0] == '\\' && IsEscapable(s[1])
  }

  function OrElse(o: Option<Stepped>, d: Stepped): Stepped {
    if o.Some? then o.value else d
  }

  function BracketStep(s: string, st: State): Stepped
    requires s != ""
  {
    OrElse(EmojiStep(s, st), OrElse(LinkStep(s, st), TagStep(s, st)))
  }

  /** One element that is not a block quote mark; not at the start of a line any more. */
  function InlineStep(s: string, st: State): Stepped
    requires s != ""
  {
    if IsEscape(s) then Stepped(2, Push(st, [s[1]]))
    else OrElse(PreStep(s, st), OrElse(CodeStep(s, st), BracketStep(s, st)))
  }

  function OffLineStart(st: State): State {
    if st.lineStart then EndQuote(st).(lineStart := false) else st
  }

  function Step(s: string, st: State): Stepped
    requires s != ""
  {
    if st.lineStart && QuoteMark(s) > 0 then QuoteStep(s, st) else InlineStep(s, OffLineStart(st))
  }

  lemma StepAdvances(s: string, st: State)
    requires s != ""
    ensures 0 < Step(s, st).used <= |s|
  {
  }

  function ParseFrom(s: string, st: State): State
    decreases |s|
  {
    if s == "" then st
    else
      StepAdvances(s, st);
      var t := Step(s, st);
      ParseFrom(s[t.used..], t.st)
  }

  lemma ParseFromUnfolds(s: string, st: State)
    requires s != ""
    ensures 0 < Step(s, st).used <= |s|
    ensures ParseFrom(s, st) == ParseFrom(s[Step(s, st).used..], Step(s, st).st)
  {
    StepAdvances(s, st);
  }

  datatype Parsed = Parsed(text: string, ents: seq<Entity>)

  function Parse(s: string): Parsed {
    var st := EndQuote(ParseFrom(s, Initial()));
    Parsed(st.out, st.ents)
  }

  // Every entity lies in the text

  /** `x` is the offset of a character of `text`, or its end: never inside a surrogate pair. */
  ghost predicate Boundary(text: string, x: int) {
    exists k :: 0 <= k <= |text| && Units(text[..k]) == x
  }

  ghost predicate Within(text: string, e: Entity) {
    0 <= e.length && Boundary(text, e.offset) && Boundary(text, e.offset + e.length)
  }

  ghost predicate Good(st: State) {
    && st.off == Units(st.out)
    && (forall i :: 0 <= i < |st.ents| ==> Within(st.out, st.ents[i]))
    && (forall i :: 0 <= i < |st.stack| ==> Boundary(st.out, st.stack[i].start))
    && (st.quote.Some? ==> Boundary(st.out, st.quote.value))
  }

  lemma BoundaryGrows(text: string, more: string, x: int)
    requires Boundary(text, x)
    ensures Boundary(text + more, x)
  {
    var k :| 0 <= k <= |text| && Units(text[..k]) == x;
    assert (text + more)[..k] == text[..k];
  }

  lemma EndIsBoundary(text: string)
    ensures Boundary(text, Units(text))
  {
    assert text[..|text|] == text;
  }

  lemma PushGood(st: State, s: string)
    requires Good(st)
    ensures Good(Push(st, s)) && Within(Push(st, s).out, Unformatted(st.off, Units(s)))
  {
    UnitsConcat(st.out, s);
    forall x | Boundary(st.out, x)
      ensures Boundary(st.out + s, x)
    {
      BoundaryGrows(st.out, s, x);
    }
    EndIsBoundary(st.out);
    EndIsBoundary(st.out + s);
  }

  lemma NoteGood(st: State, e: Entity)
    requires Good(st) && Within(st.out, e)
    ensures Good(Note(st, e))
  {
  }

  /** An entity over the characters it pushes. */
  lemma SpanGood(st: State, s: string, e: Entity)
    requires Good(st) && e.offset == st.off && e.length == Units(s)
    ensures Good(Note(Push(st, s), e)) && Note(Push(st, s), e) == Push(Note(st, e), s)
  {
    PushGood(st, s);
    NoteGood(Push(st, s), e);
  }

  /** An entity from an earlier boundary to the end. */
  lemma ClosedGood(st: State, start: nat, e: Entity)
    requires Good(st) && Boundary(st.out, start)
    requires e.offset == start && e.length == st.off - start > 0
    ensures Good(Note(st, e))
  {
    EndIsBoundary(st.out);
  }

  lemma EndQuoteGood(st: State)
    requires Good(st)
    ensures Good(EndQuote(st)) && EndQuote(st).out == st.out && EndQuote(st).off == st.off
  {
    if st.quote.Some? && st.off > st.quote.value {
      ClosedGood(st.(quote := None), st.quote.value, Blockquote(st.quote.value, st.off - st.quote.value, st.collapsed));
    }
  }

  lemma ToggleGood(st: State, style: Style)
    requires Good(st)
    ensures Good(Toggle(st, style))
  {
    EndIsBoundary(st.out);
    var i := LastOpen(st.stack, style);
    if i < |st.stack| {
      var start := st.stack[i].start;
      var closed := st.(stack := st.stack[..i] + st.stack[i + 1..]);
      if st.off > start {
        ClosedGood(closed, start, Styled(style, start, st.off - start));
      }
    }
  }

  lemma QuoteStepGood(s: string, st: State)
    requires Good(st) && QuoteMark(s) > 0
    ensures Good(QuoteStep(s, st).st)
  {
    EndQuoteGood(st);
    EndIsBoundary(st.out);
  }

  lemma CodeStepsGood(s: string, st: State)
    requires Good(st)
    ensures PreStep(s, st).Some? ==> Good(PreStep(s, st).value.st)
    ensures CodeStep(s, st).Some? ==> Good(CodeStep(s, st).value.st)
  {
    if PreStep(s, st).Some? {
      var parts := PreParts(s[3..FindFence(s, 3)]);
      SpanGood(st, parts.1, Pre(st.off, Units(parts.1), parts.0));
    }
    if CodeStep(s, st).Some? {
      var code := s[1..FindChar(s, 1, '`')];
      SpanGood(st, code, Code(st.off, Units(code)));
    }
  }

  lemma EmojiStepGood(s: string, st: State)
    requires Good(st) && EmojiStep(s, st).Some?
    ensures Good(EmojiStep(s, st).value.st)
  {
    var j := FindChar(s, 2, ']');
    var ents := EmojiStep(s, st).value.st.ents;
    SpanGood(st, s[2..j], ents[|ents| - 1]);
  }

  lemma LinkStepGood(s: string, st: State)
    requires Good(st) && LinkStep(s, st).Some?
    ensures Good(LinkStep(s, st).value.st)
  {
    var j := FindBracket(s, 1, 1);
    var k := AddressEnd(s, j).value;
    SpanGood(st, s[1..j], LinkEntity(st.off, Units(s[1..j]), s[j + 2..k]));
  }

  lemma TagStepGood(s: string, st: State)
    requires Good(st) && s != ""
    ensures Good(TagStep(s, st).st)
  {
    PushGood(st, [s[0]]);
    match TwoCharTag(s)
    case Some(style) => ToggleGood(st, style);
    case None =>
      match OneCharTag(s)
      case Some(style) => ToggleGood(st, style);
      case None =>
  }

  lemma InlineStepGood(s: string, st: State)
    requires Good(st) && s != ""
    ensures Good(InlineStep(s, st).st)
  {
    if IsEscape(s) {
      PushGood(st, [s[1]]);
    } else {
      CodeStepsGood(s, st);
      TagStepGood(s, st);
      if EmojiStep(s, st).Some? {
        EmojiStepGood(s, st);
      }
      if LinkStep(s, st).Some? {
        LinkStepGood(s, st);
      }
    }
  }

  lemma StepGood(s: string, st: State)
    requires Good(st) && s != ""
    ensures Good(Step(s, st).st)
  {
    EndQuoteGood(st);
    if st.lineStart && QuoteMark(s) > 0 {
      QuoteStepGood(s, st);
    } else {
      InlineStepGood(s, OffLineStart(st));
    }
  }

  lemma {:induction false} ParseFromGood(s: string, st: State)
    requires Good(st)
    ensures Good(ParseFrom(s, st))
    decreases |s|
  {
    if s != "" {
      StepAdvances(s, st);
      StepGood(s, st);
      var t := Step(s, st);
      ParseFromGood(s[t.used..], t.st);
    }
  }

  /** For every input, each entity has a non-negative length and begins and ends on
      character boundaries of the text. */
  lemma EveryEntityIsWithin(s: string, i: nat)
    requires i < |Parse(s).ents|
    ensures Within(Parse(s).text, Parse(s).ents[i])
    ensures 0 <= Parse(s).ents[i].offset
    ensures Parse(s).ents[i].offset + Parse(s).ents[i].length <= Units(Parse(s).text)
  {
    assert Good(Initial());
    ParseFromGood(s, Initial());
    EndQuoteGood(ParseFrom(s, Initial()));
    BoundaryInRange(Parse(s).text, Parse(s).ents[i].offset);
    BoundaryInRange(Parse(s).text, Parse(s).ents[i].offset + Parse(s).ents[i].length);
  }

  lemma BoundaryInRange(text: string, x: int)
    requires Boundary(text, x)
    ensures 0 <= x <= Units(text)
  {
    var k :| 0 <= k <= |text| && Units(text[..k]) == x;
    UnitsSplit(text, k);
  }
}
