/** The parser's loops: an index over the characters, inner scans for closing marks, and
    a stack searched from its end. */
module MarkdownScan {
  import opened Wrappers
  import opened MarkdownDefs
  import opened MarkdownParser

  method ScanChar(s: string, from: nat, c: char) returns (j: nat)
    requires from <= |s|
    ensures j == FindChar(s, from, c)
  {
    j := from;
    while j < |s| && s[j] != c
      invariant from <= j <= |s| && FindChar(s, j, c) == FindChar(s, from, c)
    {
      j := j + 1;
    }
  }

  method ScanFence(s: string, from: nat) returns (j: nat)
    requires from <= |s|
    ensures j == FindFence(s, from)
  {
    j := from;
    while j + 2 < |s|
      invariant from <= j <= |s| && FindFence(s, j) == FindFence(s, from)
    {
      if s[j] == '`' && s[j + 1] == '`' && s[j + 2] == '`' {
        break;
      }
      j := j + 1;
    }
  }

  method ScanBracket(s: string, from: nat) returns (j: nat)
    requires from <= |s|
    ensures j == FindBracket(s, from, 1)
  {
    j := from;
    var depth := 1;
    while j < |s|
      invariant from <= j <= |s| && FindBracket(s, j, depth) == FindBracket(s, from, 1)
    {
      if s[j] == '[' {
        depth := depth + 1;
      }
      if s[j] == ']' {
        depth := depth - 1;
        if depth == 0 {
          break;
        }
      }
      j := j + 1;
    }
  }

  lemma PushOneMore(st: State, s: string, i: nat)
    requires i < |s|
    ensures Push(Push(st, s[..i]), [s[i]]) == Push(st, s[..i + 1])
  {
    assert s[..i] + [s[i]] == s[..i + 1];
    UnitsConcat(s[..i], [s[i]]);
  }

  /** Pushes the characters of `s` one by one. */
  method PushChars(st: State, s: string) returns (next: State)
    ensures next == Push(st, s)
  {
    next := st;
    assert s[..0] == "" && st.out + "" == st.out;
    for i := 0 to |s|
      invariant next == Push(st, s[..i])
    {
      PushOneMore(st, s, i);
      UnitsOne(s[i]);
      next := next.(out := next.out + [s[i]], off := next.off + UnitsOf(s[i]));
    }
    assert s[..|s|] == s;
  }

  method FindOpen(stack: seq<Open>, style: Style) returns (pos: nat)
    ensures pos == LastOpen(stack, style)
  {
    pos := |stack|;
    while pos > 0
      invariant pos <= |stack| && forall k :: pos <= k < |stack| ==> stack[k].style != style
    {
      pos := pos - 1;
      if stack[pos].style == style {
        return;
      }
    }
    pos := |stack|;
  }

  method ToggleTag(st: State, style: Style) returns (next: State)
    ensures next == Toggle(st, style)
  {
    var pos := FindOpen(st.stack, style);
    if pos < |st.stack| {
      var start := st.stack[pos].start;
      next := st.(stack := st.stack[..pos] + st.stack[pos + 1..]);
      var length: int := st.off - start;
      if length > 0 {
        next := Note(next, Styled(style, start, length));
      }
    } else {
      next := st.(stack := st.stack + [Open(style, st.off)]);
    }
  }

  method TryCode(s: string, st: State) returns (t: Option<Stepped>)
    ensures t == if PreStep(s, st).Some? then PreStep(s, st) else CodeStep(s, st)
  {
    if |s| > 2 && s[0] == '`' && s[1] == '`' && s[2] == '`' {
      var j := ScanFence(s, 3);
      if j + 2 < |s| {
        var parts := PreParts(s[3..j]);
        var noted := Note(st, Pre(st.off, Units(parts.1), parts.0));
        var next := PushChars(noted, parts.1);
        return Some(Stepped(j + 3, next));
      }
    }
    if s != "" && s[0] == '`' {
      var j := ScanChar(s, 1, '`');
      if j < |s| {
        var next := PushChars(Note(st, Code(st.off, Units(s[1..j]))), s[1..j]);
        return Some(Stepped(j + 1, next));
      }
    }
    t := None;
  }

  method ScanAddress(s: string, j: nat) returns (k: Option<nat>)
    requires j <= |s|
    ensures k == AddressEnd(s, j)
  {
    if j >= |s| || j + 1 >= |s| || s[j + 1] != '(' {
      return None;
    }
    var e := ScanChar(s, j + 2, ')');
    k := if e >= |s| then None else Some(e);
  }

  method TryEmoji(s: string, st: State) returns (t: Option<Stepped>)
    ensures t == EmojiStep(s, st)
  {
    if |s| < 2 || s[0] != '!' || s[1] != '[' {
      return None;
    }
    var j := ScanChar(s, 2, ']');
    var k := ScanAddress(s, j);
    if k.None? {
      return None;
    }
    var doc := EmojiId(s[j + 2..k.value]);
    if doc.None? {
      return None;
    }
    var next := PushChars(st, s[2..j]);
    t := Some(Stepped(k.value + 1, Note(next, CustomEmoji(st.off, next.off - st.off, doc.value))));
  }

  method TryLink(s: string, st: State) returns (t: Option<Stepped>)
    ensures t == LinkStep(s, st)
  {
    if s == "" || s[0] != '[' {
      return None;
    }
    var j := ScanBracket(s, 1);
    var k := ScanAddress(s, j);
    if k.None? {
      return None;
    }
    var next := PushChars(st, s[1..j]);
    t := Some(Stepped(k.value + 1, Note(next, LinkEntity(st.off, next.off - st.off, s[j + 2..k.value]))));
  }

  method TakeTag(s: string, st: State) returns (t: Stepped)
    requires s != ""
    ensures t == TagStep(s, st)
  {
    var two := TwoCharTag(s);
    if two.Some? {
      var next := ToggleTag(st, two.value);
      return Stepped(2, next);
    }
    var one := OneCharTag(s);
    if one.Some? {
      var next := ToggleTag(st, one.value);
      return Stepped(1, next);
    }
    var next := PushChars(st, [s[0]]);
    t := Stepped(1, next.(lineStart := s[0] == '\n'));
  }

  method TakeInline(s: string, st: State) returns (t: Stepped)
    requires s != ""
    ensures t == InlineStep(s, st)
  {
    if |s| > 1 && s[0] == '\\' && IsEscapable(s[1]) {
      var next := PushChars(st, [s[1]]);
      return Stepped(2, next);
    }
    var code := TryCode(s, st);
    if code.Some? {
      return code.value;
    }
    var emoji := TryEmoji(s, st);
    if emoji.Some? {
      return emoji.value;
    }
    var link := TryLink(s, st);
    if link.Some? {
      return link.value;
    }
    t := TakeTag(s, st);
  }

  method CloseQuote(st: State) returns (next: State)
    ensures next == EndQuote(st)
  {
    next := st;
    if st.quote.Some? {
      var length: int := st.off - st.quote.value;
      next := st.(quote := None);
      if length > 0 {
        next := Note(next, Blockquote(st.quote.value, length, st.collapsed));
      }
    }
  }

  method TakeQuoteMark(s: string, st: State) returns (t: Stepped)
    requires QuoteMark(s) > 0
    ensures t == QuoteStep(s, st)
  {
    var collapsed := QuoteMark(s) == 3;
    var next := st;
    match st.quote {
      case None =>
        next := st.(quote := Some(st.off), collapsed := collapsed);
      case Some(_) =>
        if st.collapsed != collapsed {
          next := CloseQuote(st);
          next := next.(quote := Some(st.off), collapsed := collapsed);
        }
    }
    var i := if collapsed then 3 else 1;
    if i < |s| && s[i] == ' ' {
      i := i + 1;
    }
    t := Stepped(i, next.(lineStart := false));
  }

  method TakeStep(s: string, st: State) returns (t: Stepped)
    requires s != ""
    ensures t == Step(s, st)
  {
    if st.lineStart {
      if QuoteMark(s) > 0 {
        t := TakeQuoteMark(s, st);
        return;
      }
      var closed := CloseQuote(st);
      t := TakeInline(s, closed.(lineStart := false));
    } else {
      t := TakeInline(s, st);
    }
  }

  /** One step of the scan; `rest` is what is left of the characters. */
  method Advance(rest: string, st: State) returns (left: string, next: State)
    requires rest != ""
    ensures |left| < |rest| && ParseFrom(left, next) == ParseFrom(rest, st)
  {
    ParseFromUnfolds(rest, st);
    var t := TakeStep(rest, st);
    left, next := rest[t.used..], t.st;
  }

  /** Parses any text, in one pass that always moves forward. */
  method ParseMarkdownV2(chars: string) returns (r: Parsed)
    ensures r == Parse(chars)
  {
    var rest, st := chars, Initial();
    while rest != ""
      invariant ParseFrom(rest, st) == ParseFrom(chars, Initial())
      decreases |rest|
    {
      rest, st := Advance(rest, st);
    }
    st := CloseQuote(st);
    r := Parsed(st.out, st.ents);
  }
}
