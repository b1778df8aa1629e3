/** Text, entities and the small helpers of the MarkdownV2 parser and generator
    (ferogram-parsers' markdown.rs). Offsets count UTF-16 units. */
module MarkdownDefs {
  import opened Wrappers

  // UTF-16 lengths (section 2.1 of RFC 2781)

  function UnitsOf(c: char): (n: nat)
    ensures n == 1 || n == 2
  {
    if c as int >= 0x1_0000 then 2 else 1
  }

  function Units(s: string): nat {
    if s == "" then 0 else UnitsOf(s[0]) + Units(s[1..])
  }

  lemma {:induction false} UnitsConcat(a: string, b: string)
    ensures Units(a + b) == Units(a) + Units(b)
  {
    if a == "" {
      assert a + b == b;
    } else {
      assert (a + b)[1..] == a[1..] + b;
      UnitsConcat(a[1..], b);
    }
  }

  lemma UnitsSplit(s: string, k: nat)
    requires k <= |s|
    ensures Units(s) == Units(s[..k]) + Units(s[k..])
  {
    UnitsConcat(s[..k], s[k..]);
    assert s == s[..k] + s[k..];
  }

  lemma {:induction false} UnitsBound(s: string)
    ensures |s| <= Units(s) <= 2 * |s|
  {
    if s != "" {
      UnitsBound(s[1..]);
    }
  }

  lemma UnitsOne(c: char)
    ensures Units([c]) == UnitsOf(c)
  {
    assert [c][1..] == "";
  }

  // Entities

  datatype Style = Bold | Italic | Underline | Strike | Spoiler

  datatype Entity =
    | Styled(style: Style, offset: int, length: int)
    | Code(offset: int, length: int)
    | Pre(offset: int, length: int, language: string)
    | TextUrl(offset: int, length: int, url: string)
    | MentionName(offset: int, length: int, userId: int)
    | CustomEmoji(offset: int, length: int, documentId: int)
    | Blockquote(offset: int, length: int, collapsed: bool)
    | Unformatted(offset: int, length: int)

  // Characters

  const ESCAPABLE := "_*[]()~\\`>#+-=|{}.!"

  predicate IsEscapable(c: char) {
    c in ESCAPABLE
  }

  /** The White_Space property of Unicode. */
  predicate IsSpace(c: char) {
    var n := c as int;
    || 0x9 <= n <= 0xd || n == 0x20 || n == 0x85 || n == 0xa0 || n == 0x1680
    || 0x2000 <= n <= 0x200a || n == 0x2028 || n == 0x2029 || n == 0x202f || n == 0x205f || n == 0x3000
  }

  function TrimStart(s: string): string {
    if s != "" && IsSpace(s[0]) then TrimStart(s[1..]) else s
  }

  function TrimEnd(s: string): string {
    if s != "" && IsSpace(s[|s| - 1]) then TrimEnd(s[..|s| - 1]) else s
  }

  function Trim(s: string): string {
    TrimEnd(TrimStart(s))
  }

  function TrimNewlines(s: string): string {
    if s != "" && s[|s| - 1] == '\n' then TrimNewlines(s[..|s| - 1]) else s
  }

  // Numbers in links

  const I64_LIMIT := 0x8000_0000_0000_0000

  predicate IsDigits(s: string) {
    forall i :: 0 <= i < |s| ==> '0' <= s[i] <= '9'
  }

  function DigitsValue(s: string): nat
    requires IsDigits(s)
  {
    if s == "" then 0 else 10 * DigitsValue(s[..|s| - 1]) + (s[|s| - 1] as int - '0' as int)
  }

  /** Decimal digits with an optional sign, within 64 bits. */
  function ParseI64(s: string): Option<int> {
    var signed := s != "" && (s[0] == '-' || s[0] == '+');
    var digits := if signed then s[1..] else s;
    if digits == "" || !IsDigits(digits) then None
    else
      var n: int := DigitsValue(digits);
      if signed && s[0] == '-' then (if n <= I64_LIMIT then Some(-n) else None)
      else if n < I64_LIMIT then Some(n) else None
  }

  function Digit(d: nat): char
    requires d < 10
  {
    '0' + d as char
  }

  function DecimalNat(n: nat): string {
    if n < 10 then [Digit(n)] else DecimalNat(n / 10) + [Digit(n % 10)]
  }

  function Decimal(n: int): string {
    if n < 0 then "-" + DecimalNat(-n) else DecimalNat(n)
  }

  const MENTION_PREFIX := "tg://user?id="
  const EMOJI_PREFIX := "tg://emoji?id="

  function StripPrefix(s: string, prefix: string): Option<string> {
    if prefix <= s then Some(s[|prefix|..]) else None
  }
}
