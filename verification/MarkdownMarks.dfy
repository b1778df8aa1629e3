/** The marks of MarkdownV2, spelled out: what each of them makes of the text it stands
    around, or of the line it stands in front of. */
module MarkdownMarks {
  import opened Wrappers
  import opened MarkdownDefs
  import opened MarkdownParser
  import opened MarkdownGenerator
  import opened MarkdownSpans
  import opened MarkdownQuotes

  /** The whole input is one span. */
  predicate IsOne(s: string, text: string, e: Entity) {
    Parse(s) == Parsed(text, [e])
  }

  lemma SpanIsOne(s: string, kind: Kind, body: string)
    requires Writable(kind, body) && s == SpanText(kind, body, "")
    ensures IsOne(s, body, EntityOf(kind, 0, Units(body)))
  {
    SpanParses(s, kind, body, "", Initial());
    assert "" + body == body && [] + [EntityOf(kind, 0, Units(body))] == [EntityOf(kind, 0, Units(body))];
  }

  function StyleOf(mark: string): Option<Style> {
    if mark == "*" then Some(Bold)
    else if mark == "_" then Some(Italic)
    else if mark == "__" then Some(Underline)
    else if mark == "~" then Some(Strike)
    else if mark == "||" then Some(Spoiler)
    else None
  }

  lemma MarkOfStyle(mark: string)
    requires StyleOf(mark).Some?
    ensures mark == Mark(StyleOf(mark).value)
  {
  }

  /** The five styles and their marks. */
  lemma StyleMarks(s: string, mark: string, body: string)
    requires StyleOf(mark).Some? && body != "" && s == mark + EscapedText(body) + mark
    ensures IsOne(s, body, Styled(StyleOf(mark).value, 0, Units(body)))
  {
    MarkOfStyle(mark);
    assert s == mark + (EscapedText(body) + (mark + ""));
    SpanIsOne(s, Tag(StyleOf(mark).value), body);
  }

  lemma CodeMark(body: string)
    requires body != "" && '`' !in body
    ensures IsOne("`" + body + "`", body, Code(0, Units(body)))
  {
    assert "`" + body + "`" == SpanText(Verbatim, body, "");
    SpanIsOne("`" + body + "`", Verbatim, body);
  }

  lemma LinkMark(s: string, body: string, url: string)
    requires body != "" && Plain(body) && ')' !in url && !NamesUser(url) && s == "[" + body + "](" + url + ")"
    ensures IsOne(s, body, TextUrl(0, Units(body), url))
  {
    PlainIsWritten(body);
    Bracketed("[", body, "](", url);
    SpanIsOne(s, Link(url), body);
  }

  lemma Bracketed(open: string, body: string, middle: string, url: string)
    ensures open + body + middle + url + ")" == open + (body + ((middle + url + ")") + ""))
  {
  }

  lemma MentionText(body: string, user: int)
    requires Plain(body)
    ensures "[" + body + "](tg://user?id=" + Decimal(user) + ")" == SpanText(Mention(user), body, "")
  {
    PlainIsWritten(body);
    Bracketed("[", body, "](" + MENTION_PREFIX, Decimal(user));
    assert "](tg://user?id=" == "](" + MENTION_PREFIX;
  }

  lemma MentionMark(s: string, body: string, user: int)
    requires body != "" && Plain(body) && IsI64(user) && s == "[" + body + "](tg://user?id=" + Decimal(user) + ")"
    ensures IsOne(s, body, MentionName(0, Units(body), user))
  {
    MentionText(body, user);
    SpanIsOne(s, Mention(user), body);
  }

  lemma EmojiText(body: string, doc: int)
    requires Plain(body)
    ensures "![" + body + "](tg://emoji?id=" + Decimal(doc) + ")" == SpanText(Emoji(doc), body, "")
  {
    PlainIsWritten(body);
    Bracketed("![", body, "](" + EMOJI_PREFIX, Decimal(doc));
    assert "](tg://emoji?id=" == "](" + EMOJI_PREFIX;
  }

  lemma EmojiMark(s: string, body: string, doc: int)
    requires body != "" && Plain(body) && IsI64(doc) && s == "![" + body + "](tg://emoji?id=" + Decimal(doc) + ")"
    ensures IsOne(s, body, CustomEmoji(0, Units(body), doc))
  {
    EmojiText(body, doc);
    SpanIsOne(s, Emoji(doc), body);
  }

  lemma BlockMark(s: string, language: string, body: string)
    requires Writable(Block(language), body) && s == "```" + language + "\n" + body + "\n```"
    ensures IsOne(s, body, Pre(0, Units(body), language))
  {
    assert s == ("```" + language + "\n") + (body + ("\n```" + ""));
    SpanIsOne(s, Block(language), body);
  }

  // Quoted lines

  lemma {:induction false} LineParses(line: string, st: State)
    requires '\n' !in line && !st.lineStart
    ensures ParseFrom(EscapedText(line), st) == Push(st, line)
    decreases |line|
  {
    if line == "" {
      assert st.out + "" == st.out;
    } else {
      var c, later := line[0], line[1..];
      EscapedParses(c, EscapedText(later), st);
      assert OffLineStart(st) == st;
      LineParses(later, Pushed(st, [c], false));
      PushedTwice(st, [c], false, later, false);
      assert [c] + later == line;
    }
  }

  lemma QuoteEnds(line: string, collapsed: bool)
    requires line != ""
    ensures var r := EndQuote(Push(Quoted(Initial(), collapsed), line));
            r.out == line && r.ents == [Blockquote(0, Units(line), collapsed)]
  {
    UnitsBound(line);
    assert "" + line == line && [] + [Blockquote(0, Units(line), collapsed)] == [Blockquote(0, Units(line), collapsed)];
  }

  /** The marks of a quote and of an expandable one. */
  lemma QuoteMarks(s: string, mark: string, line: string)
    requires (mark == "> " || mark == "**> ") && '\n' !in line && line != "" && s == mark + EscapedText(line)
    ensures IsOne(s, line, Blockquote(0, Units(line), mark == "**> "))
  {
    var collapsed := mark == "**> ";
    PrefixParses(collapsed, EscapedText(line), Initial());
    LineParses(line, Quoted(Initial(), collapsed));
    QuoteEnds(line, collapsed);
  }
}
