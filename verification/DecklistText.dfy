/**
 The tolerant parser for decklist export text, over real strings. Each regular
 expression of the original is written out as the string function it denotes.
 */
module DecklistText {
  import opened Common
  import Decimals

  const MAX_LINE_QTY := 99

  datatype Section = Hero | Deck | Sideboard
  datatype Entry = Entry(qty: nat, name: string, pitch: Option<nat>, section: Section)

  // ---------------------------------------------------------------- characters and trimming

  /** Line terminators: what `.` does not match. */
  predicate IsTerminator(c: char) { c == '\n' || c == '\r' || c == '\U{2028}' || c == '\U{2029}' }

  /** White space as `trim` and `\s` understand it. */
  predicate IsSpace(c: char) {
    || '\U{9}' <= c <= '\U{D}' || c == ' ' || c == '\U{A0}' || c == '\U{1680}' || '\U{2000}' <= c <= '\U{200A}'
    || c == '\U{2028}' || c == '\U{2029}' || c == '\U{202F}' || c == '\U{205F}' || c == '\U{3000}' || c == '\U{FEFF}'
  }

  predicate IsLetter(c: char) { 'A' <= c <= 'Z' || 'a' <= c <= 'z' }

  predicate OneLine(s: string) { forall i | 0 <= i < |s| :: !IsTerminator(s[i]) }

  predicate Blank(s: string) { forall i | 0 <= i < |s| :: IsSpace(s[i]) }

  /** Not empty, and nothing for `trim` to remove. */
  predicate Trimmed(s: string) { s != "" && !IsSpace(s[0]) && !IsSpace(s[|s| - 1]) }

  function TrimStart(s: string): string { if s != "" && IsSpace(s[0]) then TrimStart(s[1..]) else s }

  function TrimEnd(s: string): string { if s != "" && IsSpace(s[|s| - 1]) then TrimEnd(s[..|s| - 1]) else s }

  function Trim(s: string): string { TrimEnd(TrimStart(s)) }

  function Lower(s: string): string {
    seq(|s|, i requires 0 <= i < |s| => if 'A' <= s[i] <= 'Z' then s[i] - 'A' + 'a' else s[i])
  }

  predicate StartsWith(s: string, prefix: string) { |prefix| <= |s| && s[..|prefix|] == prefix }

  /** The text after a prefix. */
  function After(s: string, prefix: string): Option<string> {
    if StartsWith(s, prefix) then Some(s[|prefix|..]) else None
  }

  function IndexOf(s: string, c: char): (i: nat)
    ensures i <= |s| && (i < |s| ==> s[i] == c) && forall k | 0 <= k < i :: s[k] != c
  {
    if s == "" then 0 else if s[0] == c then 0 else 1 + IndexOf(s[1..], c)
  }

  /** One past the last occurrence, zero when there is none. */
  function LastIndexOf(s: string, c: char): (i: nat)
    ensures i <= |s| && (i > 0 ==> s[i - 1] == c) && forall k | i <= k < |s| :: s[k] != c
  {
    if s == "" then 0 else if s[|s| - 1] == c then |s| else LastIndexOf(s[..|s| - 1], c)
  }

  function LeadingDigits(s: string): (n: nat)
    ensures n <= |s| && (forall i | 0 <= i < n :: Decimals.IsDigit(s[i])) && (n < |s| ==> !Decimals.IsDigit(s[n]))
  {
    if s == "" || !Decimals.IsDigit(s[0]) then 0 else 1 + LeadingDigits(s[1..])
  }

  // ---------------------------------------------------------------- the line forms

  predicate IsBare(lower: string, word: string) { lower == word + " card" || lower == word + " cards" }

  function BareSection(line: string): Option<Section> {
    var lower := Lower(line);
    if IsBare(lower, "arena") || IsBare(lower, "deck") || IsBare(lower, "main") then Some(Deck)
    else if IsBare(lower, "sideboard") || IsBare(lower, "maybeboard") then Some(Sideboard)
    else None
  }

  /** The link a "see the full deck @" line ends in. */
  predicate IsDeckLink(lower: string) {
    var scheme := After(TrimStart(lower), "http");
    scheme.Some? &&
    var secure := After(scheme.value, "s");
    var address := After(if secure.Some? then secure.value else scheme.value, "://");
    address.Some? &&
    var host := After(address.value, "www.");
    StartsWith(if host.Some? then host.value else address.value, "fabrary.net/decks/")
  }

  predicate IsAdvertisement(line: string) {
    var lower := Lower(line);
    || lower == "made with love at fabrary" || lower == "made with love at the fabrary"
    || (var rest := After(lower, "see the full deck");
        rest.Some? && var at := After(TrimStart(rest.value), "@"); at.Some? && IsDeckLink(at.value))
  }

  datatype HeaderLine = HeaderLine(word: string, rest: string)

  /** `Word: rest` with a word of letters and spaces. */
  function Header(line: string): Option<HeaderLine> {
    var colon := IndexOf(line, ':');
    if colon == |line| then None
    else
      var word, rest := TrimEnd(line[..colon]), TrimStart(line[colon + 1..]);
      if word != "" && IsLetter(word[0]) && (forall i | 0 <= i < |word| :: IsLetter(word[i]) || word[i] == ' ') && OneLine(rest)
      then Some(HeaderLine(word, rest)) else None
  }

  /** Nothing for a header that is skipped whole. */
  function HeaderSection(word: string): Option<Section> {
    var h := Lower(word);
    if h == "name" || h == "format" then None
    else if StartsWith(h, "hero") then Some(Hero)
    else if StartsWith(h, "side") then Some(Sideboard)
    else if StartsWith(h, "deck") || StartsWith(h, "main") || StartsWith(h, "weapon") || StartsWith(h, "equipment")
            || StartsWith(h, "arena") then Some(Deck)
    else None
  }

  function PitchOf(word: string): Option<nat> {
    var w := Lower(word);
    if w == "red" || w == "1" then Some(1)
    else if w == "yellow" || w == "yel" || w == "2" then Some(2)
    else if w == "blue" || w == "blu" || w == "3" then Some(3)
    else if w == "purple" || w == "pur" || w == "4" then Some(4)
    else None
  }

  datatype Named = Named(name: string, pitch: Option<nat>)

  /** Split a trailing `(pitch)` off, unless nothing would be left. */
  function SplitPitch(body: string): Named {
    var open := LastIndexOf(body, '(');
    if body != "" && body[|body| - 1] == ')' && 1 < open < |body| then
      var pitch := PitchOf(body[open..|body| - 1]);
      if pitch.Some? then Named(TrimEnd(body[..open - 1]), pitch) else Named(body, None)
    else Named(body, None)
  }

  /** What follows the quantity: an optional `x` and at least one white space before a name. */
  function CardBody(afterDigits: string): Option<string> {
    var t := TrimStart(afterDigits);
    if |t| > 1 && (t[0] == 'x' || t[0] == 'X') && IsSpace(t[1]) then Some(TrimStart(t[1..]))
    else if afterDigits != "" && IsSpace(afterDigits[0]) then Some(t)
    else None
  }

  function Clamped(qty: nat): nat { if qty <= MAX_LINE_QTY then qty else MAX_LINE_QTY }

  /** `N x Name (pitch)`. */
  function CardLine(line: string, section: Section): Option<Entry> {
    var d := LeadingDigits(line);
    var body := CardBody(line[d..]);
    if d == 0 || body.None? || body.value == "" then None
    else
      var named := SplitPitch(body.value);
      if OneLine(named.name) then Some(Entry(Clamped(Decimals.Value(line[..d])), named.name, named.pitch, section)) else None
  }

  /** A line without a quantity is a bare card name, such as a hero's. */
  function CardOrBare(line: string, section: Section): Entry {
    var card := CardLine(line, section);
    if card.Some? then card.value else Entry(1, line, None, section)
  }

  datatype Parsed = Parsed(entry: Option<Entry>, section: Section)

  /** One line of the text, and the section after it. */
  function ParseLine(raw: string, section: Section): Parsed { ParseTrimmed(Trim(raw), section) }

  function ParseTrimmed(line: string, section: Section): Parsed {
    if line == "" || StartsWith(line, "#") || StartsWith(line, "//") then Parsed(None, section)
    else if BareSection(line).Some? then Parsed(None, BareSection(line).value)
    else if IsAdvertisement(line) then Parsed(None, section)
    else if Header(line).Some? then
      var header := Header(line).value;
      var next := HeaderSection(header.word);
      if next.None? then Parsed(None, section)
      else if header.rest == "" then Parsed(None, next.value)
      else Parsed(Some(Entry(1, header.rest, None, next.value)), next.value)
    else Parsed(Some(CardOrBare(line, section)), section)
  }

  // ---------------------------------------------------------------- the text

  function StripCr(s: string): string { if s != "" && s[|s| - 1] == '\r' then s[..|s| - 1] else s }

  /** Split at every line feed, with a carriage return before it or not. */
  function Lines(text: string): seq<string> {
    var i := IndexOf(text, '\n');
    if i == |text| then [text] else [StripCr(text[..i])] + Lines(text[i + 1..])
  }

  type LineParser = (string, Section) -> Parsed

  /** The entries of all lines, each parsed in the section the lines before it leave. */
  function Entries(parse: LineParser, lines: seq<string>, section: Section): seq<Entry> {
    if lines == [] then []
    else
      var first := parse(lines[0], section);
      var rest := Entries(parse, lines[1..], first.section);
      if first.entry.Some? then [first.entry.value] + rest else rest
  }

  function EndSection(parse: LineParser, lines: seq<string>, section: Section): Section {
    if lines == [] then section else EndSection(parse, lines[1..], parse(lines[0], section).section)
  }

  function ParseLines(lines: seq<string>, section: Section): seq<Entry> { Entries(ParseLine, lines, section) }

  function SectionAfter(lines: seq<string>, section: Section): Section { EndSection(ParseLine, lines, section) }

  function Parse(text: string): seq<Entry> { ParseLines(Lines(text), Deck) }

  method ParseDecklistText(text: string) returns (out: seq<Entry>)
    ensures out == Parse(text)
  {
    out := [];
    var section := Deck;
    var lines := Lines(text);
    for i := 0 to |lines|
      invariant out + ParseLines(lines[i..], section) == Parse(text)
    {
      ghost var before := out;
      var line := Trim(lines[i]);
      assert lines[i..][0] == lines[i] && lines[i..][1..] == lines[i + 1..];
      if line == "" || StartsWith(line, "#") || StartsWith(line, "//") { continue; }
      var bare := BareSection(line);
      if bare.Some? { section := bare.value; continue; }
      if IsAdvertisement(line) { continue; }
      var header := Header(line);
      if header.Some? {
        var next := HeaderSection(header.value.word);
        if next.None? { continue; }
        section := next.value;
        if header.value.rest == "" { continue; }
        out := out + [Entry(1, header.value.rest, None, section)];
        Assoc(before, [Entry(1, header.value.rest, None, section)], ParseLines(lines[i + 1..], section));
        continue;
      }
      var card := CardLine(line, section);
      var entry := if card.Some? then card.value else Entry(1, line, None, section);
      assert entry == CardOrBare(line, section);
      out := out + [entry];
      Assoc(before, [entry], ParseLines(lines[i + 1..], section));
    }
    assert lines[|lines|..] == [];
    assert out + [] == out;
  }
}
