/** The MarkdownV2 generator: marks sorted by position are inserted while the text is
    copied, escaped, character by character. */
module MarkdownGenerator {
  import opened MarkdownDefs
  import opened StableSort

  datatype Insertion = Insertion(pos: int, opens: bool, mark: string)

  /** Sorting by this sorts by position, opening marks first. */
  function KeyOf(i: Insertion): int {
    2 * i.pos + if i.opens then 0 else 1
  }

  function Mark(style: Style): string {
    match style
    case Bold => "*"
    case Italic => "_"
    case Underline => "__"
    case Strike => "~"
    case Spoiler => "||"
  }

  function Around(e: Entity, open: string, close: string): seq<Insertion> {
    [Insertion(e.offset, true, open), Insertion(e.offset + e.length, false, close)]
  }

  function InsertionsOf(e: Entity): seq<Insertion> {
    match e
    case Styled(style, _, _) => Around(e, Mark(style), Mark(style))
    case Code(_, _) => Around(e, "`", "`")
    case Pre(_, _, language) => Around(e, "```" + Trim(language) + "\n", "\n```")
    case TextUrl(_, _, url) => Around(e, "[", "](" + url + ")")
    case MentionName(_, _, user) => Around(e, "[", "](" + MENTION_PREFIX + Decimal(user) + ")")
    case CustomEmoji(_, _, doc) => Around(e, "![", "](" + EMOJI_PREFIX + Decimal(doc) + ")")
    case Blockquote(_, _, _) => []
    case Unformatted(_, _) => []
  }

  function AllInsertions(ents: seq<Entity>): seq<Insertion> {
    if ents == [] then [] else InsertionsOf(ents[0]) + AllInsertions(ents[1..])
  }

  predicate Covers(e: Entity, pos: int) {
    e.offset <= pos < e.offset + e.length
  }

  /** Some code or preformatted entity covers `pos`. */
  predicate InVerbatim(ents: seq<Entity>, pos: int) {
    exists i :: 0 <= i < |ents| && (ents[i].Code? || ents[i].Pre?) && Covers(ents[i], pos)
  }

  function VerbatimAt(ents: seq<Entity>): int -> bool {
    (pos: int) => InVerbatim(ents, pos)
  }

  function QuotePrefix(ents: seq<Entity>, pos: int): string {
    if ents == [] then ""
    else if ents[0].Blockquote? && Covers(ents[0], pos) then (if ents[0].collapsed then "**> " else "> ")
    else QuotePrefix(ents[1..], pos)
  }

  function Escaped(c: char): string {
    if IsEscapable(c) then ['\\', c] else [c]
  }

  function CharAt(ents: seq<Entity>, verbatim: int -> bool, pos: int, lineStart: bool, c: char): string {
    (if lineStart then QuotePrefix(ents, pos) else "") + if verbatim(pos) then [c] else Escaped(c)
  }

  /** Marks due at a position come before its character, what is left of them at the end. */
  function Emit(text: string, pos: int, lineStart: bool, ins: seq<Insertion>, ents: seq<Entity>, v: int -> bool): string
    decreases |text| + |ins|
  {
    if ins != [] && (text == "" || ins[0].pos <= pos) then ins[0].mark + Emit(text, pos, lineStart, ins[1..], ents, v)
    else if text == "" then ""
    else CharAt(ents, v, pos, lineStart, text[0]) + Emit(text[1..], pos + UnitsOf(text[0]), text[0] == '\n', ins, ents, v)
  }

  function Generate(text: string, ents: seq<Entity>): string {
    Emit(text, 0, true, Sort(AllInsertions(ents), KeyOf), ents, VerbatimAt(ents))
  }

  // The loops

  method CollectInsertions(ents: seq<Entity>) returns (ins: seq<Insertion>)
    ensures ins == AllInsertions(ents)
  {
    ins := [];
    for i := 0 to |ents|
      invariant ins + AllInsertions(ents[i..]) == AllInsertions(ents)
    {
      ins := ins + InsertionsOf(ents[i]);
      assert ents[i..][1..] == ents[i + 1..];
    }
  }

  method FindQuote(ents: seq<Entity>, pos: int) returns (prefix: string)
    ensures prefix == QuotePrefix(ents, pos)
  {
    for i := 0 to |ents|
      invariant QuotePrefix(ents, pos) == QuotePrefix(ents[i..], pos)
    {
      assert ents[i..][1..] == ents[i + 1..];
      if ents[i].Blockquote? && Covers(ents[i], pos) {
        return if ents[i].collapsed then "**> " else "> ";
      }
    }
    prefix := "";
  }

  method FindVerbatim(ents: seq<Entity>, pos: int) returns (found: bool)
    ensures found == InVerbatim(ents, pos)
  {
    for i := 0 to |ents|
      invariant forall j :: 0 <= j < i ==> !((ents[j].Code? || ents[j].Pre?) && Covers(ents[j], pos))
    {
      if (ents[i].Code? || ents[i].Pre?) && Covers(ents[i], pos) {
        return true;
      }
    }
    found := false;
  }

  method EmitChar(ents: seq<Entity>, pos: int, lineStart: bool, c: char) returns (s: string)
    ensures s == CharAt(ents, VerbatimAt(ents), pos, lineStart, c)
  {
    s := "";
    if lineStart {
      s := FindQuote(ents, pos);
    }
    var verbatim := FindVerbatim(ents, pos);
    if !verbatim && IsEscapable(c) {
      s := s + ['\\'];
    }
    s := s + [c];
  }

  /** Appends the marks due at `pos`, or all of them at the end of the text. */
  method FlushMarks(text: string, pos: int, lineStart: bool, ins: seq<Insertion>, ents: seq<Entity>,
                    ghost v: int -> bool, result: string)
    returns (grown: string, left: seq<Insertion>)
    ensures grown + Emit(text, pos, lineStart, left, ents, v) == result + Emit(text, pos, lineStart, ins, ents, v)
    ensures left == [] || (text != "" && left[0].pos > pos)
  {
    grown, left := result, ins;
    while left != [] && (text == "" || left[0].pos <= pos)
      invariant grown + Emit(text, pos, lineStart, left, ents, v) == result + Emit(text, pos, lineStart, ins, ents, v)
      decreases |left|
    {
      grown, left := grown + left[0].mark, left[1..];
    }
  }

  lemma EmitNext(text: string, pos: int, lineStart: bool, ins: seq<Insertion>, ents: seq<Entity>, v: int -> bool, result: string)
    requires text != "" && (ins == [] || ins[0].pos > pos)
    ensures result + Emit(text, pos, lineStart, ins, ents, v)
            == (result + CharAt(ents, v, pos, lineStart, text[0]))
               + Emit(text[1..], pos + UnitsOf(text[0]), text[0] == '\n', ins, ents, v)
  {
  }

  /** Copies the text from `pos` on, with the marks and escapes in between. */
  method EmitAll(text: string, ins: seq<Insertion>, ents: seq<Entity>) returns (result: string)
    ensures result == Emit(text, 0, true, ins, ents, VerbatimAt(ents))
  {
    ghost var v := VerbatimAt(ents);
    ghost var whole := Emit(text, 0, true, ins, ents, v);
    result := "";
    var pos, lineStart, rest, left := 0, true, text, ins;
    while rest != ""
      invariant result + Emit(rest, pos, lineStart, left, ents, v) == whole
      decreases |rest|
    {
      result, left := FlushMarks(rest, pos, lineStart, left, ents, v, result);
      EmitNext(rest, pos, lineStart, left, ents, v, result);
      var s := EmitChar(ents, pos, lineStart, rest[0]);
      result := result + s;
      pos, lineStart, rest := pos + UnitsOf(rest[0]), rest[0] == '\n', rest[1..];
    }
    result, left := FlushMarks("", pos, lineStart, left, ents, v, result);
  }

  method GenerateMarkdownV2(text: string, ents: seq<Entity>) returns (result: string)
    ensures result == Generate(text, ents)
  {
    var ins := CollectInsertions(ents);
    result := EmitAll(text, Sort(ins, KeyOf), ents);
  }
}
