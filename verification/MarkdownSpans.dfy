/** One span of MarkdownV2: what the generator writes around it, and how that is parsed. */
module MarkdownSpans {
  import opened Wrappers
  import opened MarkdownDefs
  import opened MarkdownParser
  import opened MarkdownGenerator

  datatype Kind =
    | Tag(style: Style) | Verbatim | Block(language: string)
    | Link(url: string) | Mention(user: int) | Emoji(doc: int)

  function EntityOf(kind: Kind, offset: int, length: int): (e: Entity)
    ensures e.offset == offset && e.length == length && !e.Blockquote?
  {
    match kind
    case Tag(style) => Styled(style, offset, length)
    case Verbatim => Code(offset, length)
    case Block(language) => Pre(offset, length, language)
    case Link(url) => TextUrl(offset, length, url)
    case Mention(user) => MentionName(offset, length, user)
    case Emoji(doc) => CustomEmoji(offset, length, doc)
  }

  predicate IsVerbatim(kind: Kind) {
    kind.Verbatim? || kind.Block?
  }

  // Which bodies come back

  predicate Plain(s: string) {
    forall i :: 0 <= i < |s| ==> !IsEscapable(s[i])
  }

  predicate NoFence(s: string) {
    forall i :: 0 <= i < |s| ==> !FenceAt(s, i)
  }

  predicate IsI64(n: int) {
    -I64_LIMIT <= n < I64_LIMIT
  }

  /** The address names a user. */
  predicate NamesUser(url: string) {
    var id := StripPrefix(url, MENTION_PREFIX);
    id.Some? && ParseI64(id.value).Some?
  }

  /** What the body and the rest of a span must be for it to come back: labels bear no
      character that would be escaped, addresses end at their parenthesis and do not name
      a user, code holds no backtick, a block holds no fence, its language is trimmed and
      of one line, and its last line is not empty. */
  predicate Writable(kind: Kind, body: string) {
    && body != ""
    && match kind
       case Tag(_) => true
       case Verbatim => '`' !in body
       case Block(language) =>
         NoFence(body) && body[|body| - 1] != '\n' && Trim(language) == language && '\n' !in language
             && NoFence(language)
       case Link(url) => Plain(body) && ')' !in url && !NamesUser(url)
       case Mention(user) => Plain(body) && IsI64(user)
       case Emoji(doc) => Plain(body) && IsI64(doc)
  }

  function OpenMark(kind: Kind): string {
    match kind
    case Tag(style) => Mark(style)
    case Verbatim => "`"
    case Block(language) => "```" + Trim(language) + "\n"
    case Link(_) => "["
    case Mention(_) => "["
    case Emoji(_) => "!["
  }

  function CloseMark(kind: Kind): string {
    match kind
    case Tag(style) => Mark(style)
    case Verbatim => "`"
    case Block(_) => "\n```"
    case Link(url) => "](" + url + ")"
    case Mention(user) => "](" + MENTION_PREFIX + Decimal(user) + ")"
    case Emoji(doc) => "](" + EMOJI_PREFIX + Decimal(doc) + ")"
  }

  function EscapedText(s: string): string {
    if s == "" then "" else Escaped(s[0]) + EscapedText(s[1..])
  }

  function Written(kind: Kind, body: string): string {
    if IsVerbatim(kind) then body else EscapedText(body)
  }

  lemma {:induction false} PlainIsWritten(s: string)
    requires Plain(s)
    ensures EscapedText(s) == s
  {
    if s != "" {
      assert Escaped(s[0]) == [s[0]];
      PlainIsWritten(s[1..]);
      assert s == [s[0]] + s[1..];
    }
  }

  // Numbers are read back

  lemma {:induction false} DecimalIsRead(n: nat)
    ensures var s := DecimalNat(n); s != "" && IsDigits(s) && DigitsValue(s) == n
    decreases n
  {
    if n < 10 {
      assert DecimalNat(n)[..0] == "";
    } else {
      var s := DecimalNat(n / 10);
      DecimalIsRead(n / 10);
      assert (s + [Digit(n % 10)])[..|s|] == s;
    }
  }

  lemma DigitsParse(s: string)
    requires s != "" && IsDigits(s)
    ensures DigitsValue(s) < I64_LIMIT ==> ParseI64(s) == Some(DigitsValue(s))
    ensures DigitsValue(s) <= I64_LIMIT ==> ParseI64("-" + s) == Some(-(DigitsValue(s) as int))
    ensures ')' !in s && ')' !in "-" + s
  {
    assert ("-" + s)[1..] == s;
  }

  lemma DecimalParses(n: int)
    requires IsI64(n)
    ensures ParseI64(Decimal(n)) == Some(n) && ')' !in Decimal(n)
  {
    var m := if n < 0 then -n else n;
    DecimalIsRead(m);
    DigitsParse(DecimalNat(m));
  }

  lemma PrefixStripped(prefix: string, rest: string)
    ensures StripPrefix(prefix + rest, prefix) == Some(rest)
  {
    assert (prefix + rest)[|prefix|..] == rest;
  }

  lemma MentionIsRead(offset: nat, length: nat, user: int)
    requires IsI64(user)
    ensures LinkEntity(offset, length, MENTION_PREFIX + Decimal(user)) == MentionName(offset, length, user)
    ensures ')' !in MENTION_PREFIX + Decimal(user)
  {
    PrefixStripped(MENTION_PREFIX, Decimal(user));
    DecimalParses(user);
  }

  lemma EmojiIsRead(doc: int)
    requires IsI64(doc)
    ensures EmojiId(EMOJI_PREFIX + Decimal(doc)) == Some(doc) && ')' !in EMOJI_PREFIX + Decimal(doc)
  {
    PrefixStripped(EMOJI_PREFIX, Decimal(doc));
    DecimalParses(doc);
  }

  // Scans that find what was written

  lemma FindsChar(before: string, c: char, after: string, s: string, from: nat)
    requires c !in before && from <= |s| && s[from..] == before + ([c] + after)
    ensures FindChar(s, from, c) == from + |before| && s[from..from + |before|] == before
    ensures s[from + |before| + 1..] == after
    decreases |before|
  {
    assert s[from..][|before|] == c;
    assert s[from..from + |before|] == s[from..][..|before|];
    assert s[from + |before| + 1..] == s[from..][|before| + 1..];
    assert forall k :: from <= k < from + |before| ==> s[k] == before[k - from];
  }

  lemma {:induction false} FindsBracket(before: string, after: string, s: string, from: nat)
    requires '[' !in before && ']' !in before && from <= |s| && s[from..] == before + ([']'] + after)
    ensures FindBracket(s, from, 1) == from + |before|
    decreases |before|
  {
    assert s[from..][|before|] == ']';
    if before != "" {
      assert s[from] == before[0];
      assert s[from + 1..] == s[from..][1..] == before[1..] + ([']'] + after);
      FindsBracket(before[1..], after, s, from + 1);
    }
  }

  // Parsing what was written

  /** What can follow a mark without changing how it is read. */
  predicate Calm(s: string) {
    s != "" ==> s[0] !in "*_|`>"
  }

  lemma EscapedIsCalm(s: string, more: string)
    requires s != "" || Calm(more)
    ensures Calm(EscapedText(s) + more)
  {
  }

  /** No tag and no quote is open. */
  predicate Idle(st: State) {
    st.stack == [] && st.quote.None?
  }

  function Pushed(st: State, s: string, lineStart: bool): State {
    Push(st, s).(lineStart := lineStart)
  }

  lemma EscapedCharStep(c: char, more: string, st: State)
    requires st.quote.None?
    ensures var s := Escaped(c) + more;
            Step(s, st) == Stepped(|Escaped(c)|, Pushed(st, [c], c == '\n')) && s[|Escaped(c)|..] == more
  {
    var s := Escaped(c) + more;
    assert s[0] == if IsEscapable(c) then '\\' else c;
    assert OffLineStart(st) == st.(lineStart := false);
  }

  lemma EscapedCharParses(c: char, more: string, st: State)
    requires st.quote.None?
    ensures ParseFrom(Escaped(c) + more, st) == ParseFrom(more, Pushed(st, [c], c == '\n'))
  {
    EscapedCharStep(c, more, st);
    ParseFromUnfolds(Escaped(c) + more, st);
  }

  lemma EscapedMore(c: char, run: string, more: string)
    ensures EscapedText([c] + run) + more == Escaped(c) + (EscapedText(run) + more)
  {
    assert ([c] + run)[1..] == run;
    assert (Escaped(c) + EscapedText(run)) + more == Escaped(c) + (EscapedText(run) + more);
  }

  lemma {:induction false} EscapedTextParses(text: string, more: string, st: State) returns (lineStart: bool)
    requires st.quote.None?
    ensures ParseFrom(EscapedText(text) + more, st) == ParseFrom(more, Pushed(st, text, lineStart))
    decreases |text|
  {
    if text == "" {
      lineStart := st.lineStart;
      assert EscapedText(text) + more == more;
      assert st.out + "" == st.out;
    } else {
      var c, later := text[0], text[1..];
      assert [c] + later == text;
      EscapedMore(c, later, more);
      EscapedCharParses(c, EscapedText(later) + more, st);
      lineStart := EscapedTextParses(later, more, Pushed(st, [c], c == '\n'));
      PushedTwice(st, [c], c == '\n', later, lineStart);
    }
  }

  lemma PushedTwice(st: State, a: string, la: bool, b: string, lb: bool)
    ensures Pushed(Pushed(st, a, la), b, lb) == Pushed(st, a + b, lb)
  {
    UnitsConcat(a, b);
    assert (st.out + a) + b == st.out + (a + b);
  }

  lemma MarkStep(style: Style, more: string, st: State)
    requires st.quote.None? && Calm(more)
    ensures var s := Mark(style) + more;
            Step(s, st) == Stepped(|Mark(style)|, Toggle(st.(lineStart := false), style)) && s[|Mark(style)|..] == more
  {
    var s := Mark(style) + more;
    assert |s| > |Mark(style)| ==> s[|Mark(style)|] == more[0];
    assert OffLineStart(st) == st.(lineStart := false);
  }

  /** The state behind a span that was begun in `st`. */
  function Spanned(st: State, kind: Kind, body: string): State {
    Note(Push(st, body), EntityOf(kind, st.off, Units(body))).(lineStart := false)
  }

  lemma ToggleOpens(st: State, style: Style)
    requires st.stack == []
    ensures Toggle(st, style) == st.(stack := [Open(style, st.off)])
  {
    assert [] + [Open(style, st.off)] == [Open(style, st.off)];
  }

  lemma ToggleCloses(st: State, style: Style, start: nat)
    requires st.stack == [Open(style, start)] && st.off > start
    ensures Toggle(st, style) == Note(st.(stack := []), Styled(style, start, st.off - start))
  {
    assert LastOpen(st.stack, style) == 0;
    assert st.stack[..0] + st.stack[1..] == [];
  }

  lemma ToggledTwice(st: State, style: Style, body: string, lineStart: bool)
    requires Idle(st) && body != ""
    ensures var begun := Toggle(st.(lineStart := false), style);
            Toggle(Pushed(begun, body, lineStart).(lineStart := false), style) == Spanned(st, Tag(style), body)
  {
    UnitsBound(body);
    ToggleOpens(st.(lineStart := false), style);
    var begun := Toggle(st.(lineStart := false), style);
    ToggleCloses(Pushed(begun, body, lineStart).(lineStart := false), style, st.off);
  }

  lemma TagSpanParses(style: Style, body: string, more: string, st: State)
    requires Idle(st) && body != "" && Calm(more)
    ensures ParseFrom(Mark(style) + (EscapedText(body) + (Mark(style) + more)), st)
            == ParseFrom(more, Spanned(st, Tag(style), body))
  {
    var closing := Mark(style) + more;
    var inside := EscapedText(body) + closing;
    var begun := Toggle(st.(lineStart := false), style);
    EscapedIsCalm(body, closing);
    MarkStep(style, inside, st);
    ParseFromUnfolds(Mark(style) + inside, st);
    var lineStart := EscapedTextParses(body, closing, begun);
    var read := Pushed(begun, body, lineStart);
    MarkStep(style, more, read);
    ParseFromUnfolds(closing, read);
    ToggledTwice(st, style, body, lineStart);
  }

  lemma CodeSpanStep(body: string, more: string, st: State)
    requires Idle(st) && body != "" && '`' !in body
    ensures var s := "`" + (body + ("`" + more));
            Step(s, st) == Stepped(|body| + 2, Spanned(st, Verbatim, body)) && s[|body| + 2..] == more
  {
    var s := "`" + (body + ("`" + more));
    assert s[1..|body| + 1] == body;
    assert s[|body| + 1] == '`' && s[|body| + 2..] == more;
    assert s[1] == body[0];
    assert FindChar(s, 1, '`') == |body| + 1 by {
      assert forall k :: 1 <= k <= |body| ==> s[k] == body[k - 1];
    }
    assert OffLineStart(st) == st.(lineStart := false);
  }

  /** A label and its address, as they stand between brackets. */
  function Labelled(body: string, url: string, more: string): string {
    body + ([']'] + Addressed(url, more))
  }

  function Addressed(url: string, more: string): string {
    ['('] + (url + ([')'] + more))
  }

  lemma ClosesAddress(body: string, url: string, more: string)
    ensures body + ((("](" + url) + ")") + more) == Labelled(body, url, more)
  {
    assert (("](" + url) + ")") + more == [']'] + (['('] + (url + ([')'] + more)));
  }

  /** The end of a stretch, and what is behind it. */
  lemma StretchEnds(s: string, start: nat, body: string, rest: string)
    requires start <= |s| && s[start..] == body + rest
    ensures start + |body| <= |s| && s[start..start + |body|] == body && s[start + |body|..] == rest
  {
    assert s[start + |body|..] == s[start..][|body|..];
    assert s[start..start + |body|] == s[start..][..|body|];
  }

  /** Behind a label that ends in front of `j` the address is found. */
  lemma AddressIsFound(s: string, j: nat, url: string, more: string)
    requires ')' !in url && j < |s| && s[j + 1..] == Addressed(url, more)
    ensures AddressEnd(s, j) == Some(j + 2 + |url|) && s[j + 2..j + 2 + |url|] == url
    ensures s[j + 3 + |url|..] == more
  {
    StretchEnds(s, j + 1, ['('], url + ([')'] + more));
    assert s[j + 1..j + 2] == ['('];
    FindsChar(url, ')', more, s, j + 2);
  }

  lemma LabelEnds(s: string, start: nat, body: string, url: string, more: string)
    requires start <= |s| && s[start..] == Labelled(body, url, more)
    ensures var j := start + |body|; j < |s| && s[start..j] == body && s[j + 1..] == Addressed(url, more)
  {
    StretchEnds(s, start, body, [']'] + Addressed(url, more));
    StretchEnds(s, start + |body|, [']'], Addressed(url, more));
  }

  lemma LinkIsFound(s: string, body: string, url: string, more: string)
    requires Plain(body) && s != "" && s[1..] == Labelled(body, url, more)
    ensures FindBracket(s, 1, 1) == 1 + |body|
  {
    assert forall i :: 0 <= i < |body| ==> body[i] != '[' && body[i] != ']';
    FindsBracket(body, Addressed(url, more), s, 1);
  }

  lemma EmojiIsFound(s: string, body: string, url: string, more: string)
    requires Plain(body) && |s| >= 2 && s[2..] == Labelled(body, url, more)
    ensures FindChar(s, 2, ']') == 2 + |body|
  {
    assert forall i :: 0 <= i < |body| ==> body[i] != ']';
    FindsChar(body, ']', Addressed(url, more), s, 2);
  }

  /** Where the label of a link ends and where its address does. */
  ghost predicate LinkAt(s: string, start: nat, j: nat, k: nat, body: string, url: string, more: string) {
    && start <= j <= |s| && AddressEnd(s, j) == Some(k) && k == j + 2 + |url| && j == start + |body|
    && s[start..j] == body && s[j + 2..k] == url && s[k + 1..] == more
  }

  lemma LinkIsThere(s: string, start: nat, body: string, url: string, more: string) returns (j: nat, k: nat)
    requires ')' !in url && start <= |s| && s[start..] == Labelled(body, url, more)
    ensures LinkAt(s, start, j, k, body, url, more)
  {
    j, k := start + |body|, start + |body| + 2 + |url|;
    LabelEnds(s, start, body, url, more);
    AddressIsFound(s, j, url, more);
  }

  lemma LinkIsTaken(s: string, j: nat, k: nat, body: string, url: string, more: string, st: State)
    requires s != "" && s[0] == '[' && FindBracket(s, 1, 1) == j && LinkAt(s, 1, j, k, body, url, more)
    ensures LinkStep(s, st) == Some(Stepped(k + 1, Note(Push(st, body), LinkEntity(st.off, Units(body), url))))
  {
  }

  lemma EmojiIsTaken(s: string, j: nat, k: nat, body: string, url: string, doc: int, more: string, st: State)
    requires |s| >= 2 && s[0] == '!' && s[1] == '[' && FindChar(s, 2, ']') == j && LinkAt(s, 2, j, k, body, url, more)
    requires EmojiId(url) == Some(doc)
    ensures EmojiStep(s, st) == Some(Stepped(k + 1, Note(Push(st, body), EntityOf(Emoji(doc), st.off, Units(body)))))
  {
    assert s[2..j] == body && s[j + 2..k] == url;
    assert EmojiId(s[j + 2..k]) == Some(doc);
  }

  /** Off the start of a line, or where no quote mark stands, an element is parsed inline. */
  lemma InlineParses(s: string, st: State, t: Stepped, more: string)
    requires s != "" && st.quote.None? && QuoteMark(s) == 0 && InlineStep(s, st.(lineStart := false)) == t
    requires 0 < t.used <= |s| && s[t.used..] == more
    ensures ParseFrom(s, st) == ParseFrom(more, t.st)
  {
    assert OffLineStart(st) == st.(lineStart := false);
    ParseFromUnfolds(s, st);
  }

  lemma LinkTurn(s: string, body: string, url: string, more: string, st: State) returns (t: Stepped)
    requires Plain(body) && ')' !in url && s != "" && s[0] == '[' && s[1..] == Labelled(body, url, more)
    ensures LinkStep(s, st) == Some(t) && t.st == Note(Push(st, body), LinkEntity(st.off, Units(body), url))
    ensures 0 < t.used <= |s| && s[t.used..] == more
  {
    var j, k := LinkIsThere(s, 1, body, url, more);
    LinkIsFound(s, body, url, more);
    LinkIsTaken(s, j, k, body, url, more, st);
    t := Stepped(k + 1, Note(Push(st, body), LinkEntity(st.off, Units(body), url)));
  }

  lemma EmojiTurn(s: string, body: string, url: string, doc: int, more: string, st: State) returns (t: Stepped)
    requires Plain(body) && ')' !in url && EmojiId(url) == Some(doc)
    requires |s| >= 2 && s[0] == '!' && s[1] == '[' && s[2..] == Labelled(body, url, more)
    ensures EmojiStep(s, st) == Some(t) && t.st == Note(Push(st, body), EntityOf(Emoji(doc), st.off, Units(body)))
    ensures 0 < t.used <= |s| && s[t.used..] == more
  {
    var j, k := LinkIsThere(s, 2, body, url, more);
    EmojiIsFound(s, body, url, more);
    EmojiIsTaken(s, j, k, body, url, doc, more, st);
    t := Stepped(k + 1, Note(Push(st, body), EntityOf(Emoji(doc), st.off, Units(body))));
  }

  lemma BracketIsInline(s: string, st: State, t: Stepped)
    requires s != "" && ((s[0] == '[' && LinkStep(s, st) == Some(t)) || (s[0] == '!' && EmojiStep(s, st) == Some(t)))
    ensures QuoteMark(s) == 0 && InlineStep(s, st) == t
  {
  }

  lemma SpannedInEitherOrder(st: State, kind: Kind, body: string)
    ensures var begun, e := st.(lineStart := false), EntityOf(kind, st.off, Units(body));
            Note(Push(begun, body), e) == Push(Note(begun, e), body) == Spanned(st, kind, body)
  {
  }

  lemma LinkParses(s: string, kind: Kind, body: string, url: string, more: string, st: State)
    requires Plain(body) && ')' !in url && s != "" && s[0] == '[' && s[1..] == Labelled(body, url, more)
        && st.quote.None?
    requires LinkEntity(st.off, Units(body), url) == EntityOf(kind, st.off, Units(body))
    ensures ParseFrom(s, st) == ParseFrom(more, Spanned(st, kind, body))
  {
    var t := LinkTurn(s, body, url, more, st.(lineStart := false));
    SpannedInEitherOrder(st, kind, body);
    assert t.st == Spanned(st, kind, body);
    BracketIsInline(s, st.(lineStart := false), t);
    InlineParses(s, st, t, more);
  }

  lemma EmojiParses(s: string, body: string, url: string, doc: int, more: string, st: State)
    requires Plain(body) && ')' !in url && EmojiId(url) == Some(doc) && st.quote.None?
    requires |s| >= 2 && s[0] == '!' && s[1] == '[' && s[2..] == Labelled(body, url, more)
    ensures ParseFrom(s, st) == ParseFrom(more, Spanned(st, Emoji(doc), body))
  {
    var t := EmojiTurn(s, body, url, doc, more, st.(lineStart := false));
    SpannedInEitherOrder(st, Emoji(doc), body);
    assert t.st == Spanned(st, Emoji(doc), body);
    BracketIsInline(s, st.(lineStart := false), t);
    InlineParses(s, st, t, more);
  }

  // Blocks

  lemma {:induction false} FindsFence(s: string, from: nat, j: nat)
    requires from <= j && FenceAt(s, j) && forall i :: from <= i < j ==> !FenceAt(s, i)
    ensures FindFence(s, from) == j
    decreases j - from
  {
    if from < j {
      FindsFence(s, from + 1, j);
    }
  }

  /** The lines between the fences of a block. */
  function Lines(language: string, body: string): string {
    language + (['\n'] + (body + ['\n']))
  }

  lemma LinesAt(language: string, body: string)
    ensures var block := Lines(language, body);
            && |block| == |language| + |body| + 2
            && (forall i :: 0 <= i < |language| ==> block[i] == language[i]) && block[|language|] == '\n'
            && (forall i :: 0 <= i < |body| ==> block[|language| + 1 + i] == body[i]) && block[|block| - 1] == '\n'
  {
  }

  lemma NoFenceInLines(language: string, body: string, i: nat)
    requires NoFence(language) && NoFence(body)
    ensures !FenceAt(Lines(language, body), i)
  {
    LinesAt(language, body);
    if i + 2 < |language| {
      assert !FenceAt(language, i);
    } else if |language| < i && i + 2 < |language| + 1 + |body| {
      assert !FenceAt(body, i - |language| - 1);
    }
  }

  /** A fence begins nowhere in front of the closing one. */
  lemma ClosingFenceIsFound(s: string, language: string, body: string, j: nat)
    requires NoFence(language) && NoFence(body) && FenceAt(s, j)
    requires j == 3 + |Lines(language, body)| && s[3..j] == Lines(language, body)
    ensures FindFence(s, 3) == j
  {
    var block := Lines(language, body);
    LinesAt(language, body);
    forall i | 3 <= i < j
      ensures !FenceAt(s, i)
    {
      NoFenceInLines(language, body, i - 3);
      assert forall k :: 0 <= k < |block| ==> s[3 + k] == block[k];
    }
    FindsFence(s, 3, j);
  }

  lemma LinesHaveParts(language: string, body: string)
    requires '\n' !in language && Trim(language) == language && body != "" && body[|body| - 1] != '\n'
    ensures PreParts(Lines(language, body)) == (language, body)
  {
    var block := Lines(language, body);
    assert block[0..] == block;
    FindsChar(language, '\n', body + ['\n'], block, 0);
    assert block[..|language|] == block[0..|language|];
    assert (body + ['\n'])[..|body|] == body;
    assert TrimNewlines(body + ['\n']) == TrimNewlines(body) == body;
  }

  lemma LinesStand(s: string, language: string, body: string, more: string) returns (j: nat)
    requires |s| >= 3 && s[3..] == Lines(language, body) + ("```" + more)
    ensures j == 3 + |Lines(language, body)| && s[3..j] == Lines(language, body)
    ensures FenceAt(s, j) && s[j + 3..] == more
  {
    j := 3 + |Lines(language, body)|;
    StretchEnds(s, 3, Lines(language, body), "```" + more);
    StretchEnds(s, j, "```", more);
    assert s[j] == s[j..j + 3][0] && s[j + 1] == s[j..j + 3][1] && s[j + 2] == s[j..j + 3][2];
  }

  lemma BlockTurn(s: string, language: string, body: string, more: string, st: State) returns (t: Stepped)
    requires Writable(Block(language), body) && FenceAt(s, 0) && s[3..] == Lines(language, body) + ("```" + more)
    ensures PreStep(s, st) == Some(t) && t.st == Push(Note(st, EntityOf(Block(language), st.off, Units(body))), body)
    ensures 0 < t.used <= |s| && s[t.used..] == more
  {
    var j := LinesStand(s, language, body, more);
    ClosingFenceIsFound(s, language, body, j);
    LinesHaveParts(language, body);
    t := Stepped(j + 3, Push(Note(st, EntityOf(Block(language), st.off, Units(body))), body));
  }

  lemma FenceIsInline(s: string, st: State, t: Stepped)
    requires FenceAt(s, 0) && PreStep(s, st) == Some(t)
    ensures QuoteMark(s) == 0 && InlineStep(s, st) == t
  {
  }

  lemma BlockParses(s: string, language: string, body: string, more: string, st: State)
    requires Writable(Block(language), body) && FenceAt(s, 0) && st.quote.None?
    requires s[3..] == Lines(language, body) + ("```" + more)
    ensures ParseFrom(s, st) == ParseFrom(more, Spanned(st, Block(language), body))
  {
    var t := BlockTurn(s, language, body, more, st.(lineStart := false));
    SpannedInEitherOrder(st, Block(language), body);
    assert t.st == Spanned(st, Block(language), body);
    FenceIsInline(s, st.(lineStart := false), t);
    InlineParses(s, st, t, more);
  }

  // Any span

  /** What the generator writes for a span, with what follows. */
  function SpanText(kind: Kind, body: string, more: string): string {
    OpenMark(kind) + (Written(kind, body) + (CloseMark(kind) + more))
  }

  lemma MovedBracket(a: string, b: string, c: string, d: string)
    ensures (a + b + ['\n']) + (c + ((['\n'] + a) + d)) == a + (Lines(b, c) + (a + d))
  {
    assert (a + b + ['\n']) + (c + ((['\n'] + a) + d)) == a + (b + (['\n'] + (c + (['\n'] + (a + d)))));
    assert Lines(b, c) + (a + d) == b + (['\n'] + (c + (['\n'] + (a + d))));
  }

  lemma BlockTextStarts(s: string, language: string, body: string, more: string)
    requires Trim(language) == language && s == SpanText(Block(language), body, more)
    ensures FenceAt(s, 0) && s[3..] == Lines(language, body) + ("```" + more)
  {
    MovedBracket("```", language, body, more);
    assert "\n```" == ['\n'] + "```";
    assert s == "```" + (Lines(language, body) + ("```" + more));
  }

  /** The address a link, mention or emoji is written with. */
  function AddressOf(kind: Kind): string {
    match kind
    case Link(url) => url
    case Mention(user) => MENTION_PREFIX + Decimal(user)
    case Emoji(doc) => EMOJI_PREFIX + Decimal(doc)
    case _ => ""
  }

  lemma AddressIsClosed(kind: Kind)
    requires kind.Link? || kind.Mention? || kind.Emoji?
    ensures CloseMark(kind) == ("](" + AddressOf(kind)) + ")"
  {
    match kind
    case Link(url) =>
    case Mention(user) => assert "](" + MENTION_PREFIX + Decimal(user) == "](" + (MENTION_PREFIX + Decimal(user));
    case Emoji(doc) => assert "](" + EMOJI_PREFIX + Decimal(doc) == "](" + (EMOJI_PREFIX + Decimal(doc));
  }

  lemma LinkTextStarts(s: string, kind: Kind, body: string, more: string)
    requires Plain(body) && (kind.Link? || kind.Mention? || kind.Emoji?) && s == SpanText(kind, body, more)
    ensures var n := |OpenMark(kind)|; s[..n] == OpenMark(kind) && s[n..] == Labelled(body, AddressOf(kind), more)
  {
    PlainIsWritten(body);
    AddressIsClosed(kind);
    ClosesAddress(body, AddressOf(kind), more);
  }

  lemma LinkSpanParses(s: string, kind: Kind, body: string, more: string, st: State)
    requires Idle(st) && Writable(kind, body) && (kind.Link? || kind.Mention?) && s == SpanText(kind, body, more)
    ensures ParseFrom(s, st) == ParseFrom(more, Spanned(st, kind, body))
  {
    LinkTextStarts(s, kind, body, more);
    if kind.Mention? {
      MentionIsRead(st.off, Units(body), kind.user);
    }
    LinkParses(s, kind, body, AddressOf(kind), more, st);
  }

  lemma EmojiSpanParses(s: string, doc: int, body: string, more: string, st: State)
    requires Idle(st) && Writable(Emoji(doc), body) && s == SpanText(Emoji(doc), body, more)
    ensures ParseFrom(s, st) == ParseFrom(more, Spanned(st, Emoji(doc), body))
  {
    LinkTextStarts(s, Emoji(doc), body, more);
    EmojiIsRead(doc);
    EmojiParses(s, body, AddressOf(Emoji(doc)), doc, more, st);
  }

  lemma CodeSpanParses(s: string, body: string, more: string, st: State)
    requires Idle(st) && Writable(Verbatim, body) && s == SpanText(Verbatim, body, more)
    ensures ParseFrom(s, st) == ParseFrom(more, Spanned(st, Verbatim, body))
  {
    CodeSpanStep(body, more, st);
    ParseFromUnfolds(s, st);
  }

  /** What the generator writes for a span is parsed as that span. */
  lemma SpanParses(s: string, kind: Kind, body: string, more: string, st: State)
    requires Idle(st) && Writable(kind, body) && Calm(more) && s == SpanText(kind, body, more)
    ensures ParseFrom(s, st) == ParseFrom(more, Spanned(st, kind, body))
  {
    match kind
    case Tag(style) => TagSpanParses(style, body, more, st);
    case Verbatim => CodeSpanParses(s, body, more, st);
    case Block(language) =>
      BlockTextStarts(s, language, body, more);
      BlockParses(s, language, body, more, st);
    case Link(_) => LinkSpanParses(s, kind, body, more, st);
    case Mention(_) => LinkSpanParses(s, kind, body, more, st);
    case Emoji(doc) => EmojiSpanParses(s, doc, body, more, st);
  }
}
