/**
 Printing cards in the text form that the decklist parser reads, and exactly
 when what is read back is what was printed.
 */
module PrintedDecklist {
  import opened Common
  import opened DecklistText
  import Decimals

  /** A card to print. A pitch of zero prints like none. */
  datatype Item = Item(qty: nat, name: string, pitch: Option<nat>)

  function Shown(pitch: Option<nat>): Option<nat> { if pitch == Some(0) then None else pitch }

  function Suffix(pitch: Option<nat>): string {
    if Shown(pitch).Some? then " (" + Decimals.Print(pitch.value) + ")" else ""
  }

  function CardText(item: Item): string { Decimals.Print(item.qty) + "x " + (item.name + Suffix(item.pitch)) }

  function EntryFor(item: Item, section: Section): Entry { Entry(item.qty, item.name, Shown(item.pitch), section) }

  /** The names that survive: trimmed, on one line, and not ending in something read as a pitch unless a
      pitch is printed after it. */
  predicate WellFormed(item: Item) {
    && item.qty <= MAX_LINE_QTY
    && Trimmed(item.name) && OneLine(item.name)
    && (if Shown(item.pitch).Some? then item.pitch.value <= 4 else SplitPitch(item.name).pitch.None?)
  }

  // ---------------------------------------------------------------- trimming

  lemma {:induction false} TrimEndAppend(a: string, b: string)
    ensures TrimEnd(a + b) == if Blank(b) then TrimEnd(a) else a + TrimEnd(b)
  {
    if b == "" {
      assert a + b == a;
    } else {
      var front, last := b[..|b| - 1], b[|b| - 1];
      assert (a + b)[..|a + b| - 1] == a + front;
      TrimEndAppend(a, front);
      if IsSpace(last) {
        assert Blank(b) <==> Blank(front);
      } else {
        assert !Blank(b);
      }
    }
  }

  lemma {:induction false} TrimStartFacts(s: string)
    ensures TrimStart(s) == "" <==> Blank(s)
    ensures TrimStart(s) != "" ==> !IsSpace(TrimStart(s)[0]) && |TrimStart(s)| <= |s|
    ensures TrimStart(s) != "" ==> TrimStart(s)[|TrimStart(s)| - 1] == s[|s| - 1]
    ensures |TrimStart(s)| == |s| <==> TrimStart(s) == s
    ensures forall b :: !Blank(s) ==> TrimStart(s + b) == TrimStart(s) + b
    ensures forall c :: c in TrimStart(s) ==> c in s
  {
    if s != "" && IsSpace(s[0]) {
      TrimStartFacts(s[1..]);
      assert Blank(s) <==> Blank(s[1..]);
      forall b | !Blank(s) ensures TrimStart(s + b) == TrimStart(s) + b {
        assert (s + b)[1..] == s[1..] + b;
      }
    } else {
      forall b | !Blank(s) ensures TrimStart(s + b) == TrimStart(s) + b {
        assert (s + b)[0] == s[0];
      }
    }
  }

  lemma {:induction false} TrimEndFacts(s: string)
    ensures TrimEnd(s) == "" <==> Blank(s)
    ensures TrimEnd(s) != "" ==> !IsSpace(TrimEnd(s)[|TrimEnd(s)| - 1]) && TrimEnd(s)[0] == s[0]
    ensures |TrimEnd(s)| <= |s| && TrimEnd(s) == s[..|TrimEnd(s)|]
  {
    if s != "" && IsSpace(s[|s| - 1]) {
      TrimEndFacts(s[..|s| - 1]);
      assert Blank(s) <==> Blank(s[..|s| - 1]);
    }
  }

  lemma {:induction false} TrimStartBlank(s: string)
    requires Blank(s)
    ensures TrimStart(s) == ""
  {
    if s != "" { TrimStartBlank(s[1..]); }
  }

  /** Trimming before or after a break changes nothing: a carriage return is white space. */
  lemma StripCrTrims(s: string)
    ensures Trim(StripCr(s)) == Trim(s)
  {
    if s != "" && s[|s| - 1] == '\r' {
      var front := s[..|s| - 1];
      assert s == front + "\r";
      TrimStartFacts(front);
      if Blank(front) {
        assert Blank(s);
        TrimStartBlank(s);
        TrimStartBlank(front);
      } else {
        assert TrimStart(s) == TrimStart(front) + "\r";
        TrimEndAppend(TrimStart(front), "\r");
      }
    }
  }

  // ---------------------------------------------------------------- one printed line

  lemma {:induction false} DigitsOf(digits: string, rest: string)
    requires Decimals.AllDigits(digits) && (rest == "" || !Decimals.IsDigit(rest[0]))
    ensures LeadingDigits(digits + rest) == |digits|
  {
    if digits == "" {
      assert digits + rest == rest;
    } else {
      assert (digits + rest)[1..] == digits[1..] + rest;
      DigitsOf(digits[1..], rest);
    }
  }

  lemma LowerKeepsDigits(line: string)
    requires line != "" && Decimals.IsDigit(line[0])
    ensures Lower(line) != "" && Decimals.IsDigit(Lower(line)[0])
  {
  }

  lemma {:induction false} TrimEndStartsSame(s: string)
    requires s != "" && Decimals.IsDigit(s[0])
    ensures TrimEnd(s) != "" && TrimEnd(s)[0] == s[0]
  {
    TrimEndFacts(s);
    assert !Blank(s);
  }

  lemma NoBareSection(line: string)
    requires line != "" && Decimals.IsDigit(line[0])
    ensures BareSection(line).None?
  {
    var lower := Lower(line);
    LowerKeepsDigits(line);
    NotBare(lower, "arena");
    NotBare(lower, "deck");
    NotBare(lower, "main");
    NotBare(lower, "sideboard");
    NotBare(lower, "maybeboard");
  }

  lemma NoAdvertisement(line: string)
    requires line != "" && Decimals.IsDigit(line[0])
    ensures !IsAdvertisement(line)
  {
    var lower := Lower(line);
    LowerKeepsDigits(line);
    assert "made with love at fabrary"[0] == 'm' && "made with love at the fabrary"[0] == 'm' && "see the full deck"[0] == 's';
    assert !StartsWith(lower, "see the full deck");
  }

  lemma NoComment(line: string)
    requires line != "" && Decimals.IsDigit(line[0])
    ensures !StartsWith(line, "#") && !StartsWith(line, "//")
  {
    assert "#"[0] == '#' && "//"[0] == '/';
  }

  /** A line that starts with a digit is a card line or a bare name, never anything else. */
  lemma DigitLine(raw: string, section: Section)
    requires raw != "" && Decimals.IsDigit(raw[0])
    ensures ParseLine(raw, section) == Parsed(Some(CardOrBare(TrimEnd(raw), section)), section)
  {
    TrimEndStartsSame(raw);
    assert TrimStart(raw) == raw;
    DigitTrimmed(TrimEnd(raw), section);
  }

  lemma DigitTrimmed(line: string, section: Section)
    requires line != "" && Decimals.IsDigit(line[0])
    ensures ParseTrimmed(line, section) == Parsed(Some(CardOrBare(line, section)), section)
  {
    NoComment(line);
    NoBareSection(line);
    NoAdvertisement(line);
    NoHeader(line);
  }

  lemma NotBare(lower: string, word: string)
    requires word != "" && lower != "" && lower[0] != word[0]
    ensures !IsBare(lower, word)
  {
    assert (word + " card")[0] == word[0] && (word + " cards")[0] == word[0];
  }

  lemma NoHeader(line: string)
    requires line != "" && Decimals.IsDigit(line[0])
    ensures Header(line).None?
  {
    var colon := IndexOf(line, ':');
    if 0 < colon < |line| { TrimEndStartsSame(line[..colon]); }
  }

  /** The body of a printed line as the parser sees it. */
  function Body(item: Item): string { Trim(item.name + Suffix(item.pitch)) }

  /** After the quantity and its `x`, the body is what is left between the white space. */
  lemma BodyAfterX(end: string)
    requires !Blank(end)
    ensures CardBody("x " + end) == Some(TrimStart(end))
  {
    XAndRest(end);
    SpaceFirst(end);
    XThenSpace([' '] + end);
  }

  lemma XAndRest(end: string)
    ensures "x " + end == ['x'] + ([' '] + end)
  {
    assert "x " == ['x'] + [' '];
  }

  lemma SpaceFirst(end: string)
    ensures ([' '] + end)[0] == ' ' && TrimStart([' '] + end) == TrimStart(end)
  {
    HeadAndTail(' ', end);
  }

  lemma XThenSpace(tail: string)
    requires tail != "" && IsSpace(tail[0])
    ensures CardBody(['x'] + tail) == Some(TrimStart(tail))
  {
    var after := ['x'] + tail;
    HeadAndTail('x', tail);
    assert after[1] == tail[0];
    assert TrimStart(after) == after;
  }

  lemma PrintedBody(item: Item)
    requires !Blank(item.name + Suffix(item.pitch))
    ensures CardBody("x " + TrimEnd(item.name + Suffix(item.pitch))) == Some(Body(item))
  {
    var rest := item.name + Suffix(item.pitch);
    StillNotBlank(rest);
    BodyAfterX(TrimEnd(rest));
    TrimCommutes(rest);
  }

  lemma StillNotBlank(s: string)
    requires !Blank(s)
    ensures !Blank(TrimEnd(s))
  {
    TrimEndFacts(s);
  }

  lemma {:induction false} TrimCommutes(s: string)
    ensures TrimStart(TrimEnd(s)) == TrimEnd(TrimStart(s))
  {
    if s == "" {
    } else if IsSpace(s[0]) {
      TrimCommutes(s[1..]);
      assert s == [s[0]] + s[1..];
      TrimEndAppend([s[0]], s[1..]);
      if Blank(s[1..]) {
        assert TrimEnd([s[0]]) == "";
        TrimStartBlank(s);
      } else {
        assert ([s[0]] + TrimEnd(s[1..]))[1..] == TrimEnd(s[1..]);
      }
    } else {
      TrimEndFacts(s);
      assert !Blank(s);
    }
  }

  /** What the parser makes of a printed line, whatever the name. */
  function ReadBack(item: Item, section: Section): Entry {
    var rest := item.name + Suffix(item.pitch);
    var digits := Decimals.Print(item.qty);
    if Blank(rest) then Entry(1, digits + "x", None, section)
    else
      var named := SplitPitch(Body(item));
      if OneLine(named.name) then Entry(Clamped(item.qty), named.name, named.pitch, section)
      else Entry(1, digits + "x " + TrimEnd(rest), None, section)
  }

  lemma BlankLine(digits: string, rest: string, section: Section)
    requires Decimals.AllDigits(digits) && digits != "" && Blank(rest)
    ensures CardOrBare(TrimEnd(digits + "x " + rest), section) == Entry(1, digits + "x", None, section)
  {
    MarkThenBlank(digits, rest);
    DigitsOf(digits, "x");
    assert (digits + "x")[|digits|..] == "x";
    assert TrimStart("x") == "x";
  }

  lemma BlankAfterSpace(text: string)
    ensures Blank(" " + text) <==> Blank(text)
  {
    var tail := " " + text;
    if Blank(tail) {
      forall i | 0 <= i < |text| ensures IsSpace(text[i]) { assert tail[i + 1] == text[i]; }
    }
    if Blank(text) {
      forall i | 0 <= i < |tail| ensures IsSpace(tail[i]) { assert i > 0 ==> tail[i] == text[i - 1]; }
    }
  }

  lemma MarkThenBlank(digits: string, rest: string)
    requires Blank(rest)
    ensures TrimEnd(digits + "x " + rest) == digits + "x"
  {
    assert digits + "x " + rest == (digits + "x") + (" " + rest);
    BlankAfterSpace(rest);
    TrimEndAppend(digits + "x", " " + rest);
    TrimEndAppend(digits, "x");
    assert TrimEnd("x") == "x";
  }

  lemma NamedLine(digits: string, rest: string, body: string, section: Section)
    requires Decimals.AllDigits(digits) && digits != "" && CardBody("x " + TrimEnd(rest)) == Some(body) && body != "" && !Blank(rest)
    ensures CardOrBare(TrimEnd(digits + "x " + rest), section) ==
      var named := SplitPitch(body);
      if OneLine(named.name) then Entry(Clamped(Decimals.Value(digits)), named.name, named.pitch, section)
      else Entry(1, digits + "x " + TrimEnd(rest), None, section)
  {
    TrimEndAppend(digits + "x ", rest);
    var after := "x " + TrimEnd(rest);
    Assoc(digits, "x ", TrimEnd(rest));
    assert after[0] == 'x';
    CardAfterDigits(digits, after, body, section);
  }

  lemma CardAfterDigits(digits: string, after: string, body: string, section: Section)
    requires Decimals.AllDigits(digits) && digits != "" && after != "" && !Decimals.IsDigit(after[0])
    requires CardBody(after) == Some(body) && body != ""
    ensures CardOrBare(digits + after, section) ==
      var named := SplitPitch(body);
      if OneLine(named.name) then Entry(Clamped(Decimals.Value(digits)), named.name, named.pitch, section)
      else Entry(1, digits + after, None, section)
  {
    DigitsOf(digits, after);
    assert (digits + after)[|digits|..] == after && (digits + after)[..|digits|] == digits;
  }

  lemma PrintedLine(item: Item, section: Section)
    ensures ParseLine(CardText(item), section) == Parsed(Some(ReadBack(item, section)), section)
  {
    var rest := item.name + Suffix(item.pitch);
    var digits := Decimals.Print(item.qty);
    Decimals.ValueOfPrint(item.qty);
    DigitLine(CardText(item), section);
    if Blank(rest) {
      BlankLine(digits, rest, section);
    } else {
      PrintedBody(item);
      BodyIsTrimmed(item);
      NamedLine(digits, rest, Body(item), section);
    }
  }

  lemma BodyIsTrimmed(item: Item)
    requires !Blank(item.name + Suffix(item.pitch))
    ensures Trimmed(Body(item))
  {
    var rest := item.name + Suffix(item.pitch);
    TrimStartFacts(rest);
    TrimEndFacts(TrimStart(rest));
    assert !Blank(TrimStart(rest));
  }

  /** Digits are never one of the colour words. */
  lemma PitchOfDigits(word: string)
    requires word != "" && Decimals.AllDigits(word)
    ensures PitchOf(word) ==
      if word == "1" then Some(1) else if word == "2" then Some(2) else if word == "3" then Some(3)
      else if word == "4" then Some(4) else None
  {
    assert Lower(word) == word;
    assert word[0] != 'r' && word[0] != 'y' && word[0] != 'b' && word[0] != 'p';
    assert "red"[0] == 'r' && "yellow"[0] == 'y' && "yel"[0] == 'y' && "blue"[0] == 'b' && "blu"[0] == 'b'
           && "purple"[0] == 'p' && "pur"[0] == 'p';
  }

  lemma ShortPrints()
    ensures Decimals.Print(1) == "1" && Decimals.Print(2) == "2" && Decimals.Print(3) == "3" && Decimals.Print(4) == "4"
  {
  }

  lemma PitchDigits(p: nat)
    ensures PitchOf(Decimals.Print(p)) == if 1 <= p <= 4 then Some(p) else None
  {
    PitchOfDigits(Decimals.Print(p));
    ShortPrints();
    Decimals.ValueOfPrint(p);
    Decimals.ValueOfPrint(1);
    Decimals.ValueOfPrint(2);
    Decimals.ValueOfPrint(3);
    Decimals.ValueOfPrint(4);
  }

  lemma {:induction false} LastOpen(before: string, after: string)
    requires forall i | 0 <= i < |after| :: after[i] != '('
    ensures LastIndexOf(before + "(" + after, '(') == |before| + 1
  {
    var s := before + "(" + after;
    if after == "" {
      assert s == before + "(";
    } else {
      assert s[..|s| - 1] == before + "(" + after[..|after| - 1];
      assert s[|s| - 1] == after[|after| - 1];
      LastOpen(before, after[..|after| - 1]);
    }
  }

  /** A printed pitch is read back as that pitch when it is one of the four, and stays text otherwise. */
  lemma SplitPrinted(name: string, p: nat)
    requires Trimmed(name)
    ensures SplitPitch(name + " (" + Decimals.Print(p) + ")") ==
            if 1 <= p <= 4 then Named(name, Some(p)) else Named(name + " (" + Decimals.Print(p) + ")", None)
  {
    var digits := Decimals.Print(p);
    PitchDigits(p);
    TrimEndAppend(name, " ");
    assert TrimEnd(name) == name;
    SplitSuffix(name, digits);
  }

  lemma SplitSuffix(name: string, word: string)
    requires name != "" && forall i | 0 <= i < |word| :: word[i] != '('
    ensures SplitPitch(name + " (" + word + ")") ==
      if PitchOf(word).Some? then Named(TrimEnd(name + " "), PitchOf(word)) else Named(name + " (" + word + ")", None)
  {
    var body := name + " (" + word + ")";
    assert body == (name + " ") + "(" + (word + ")");
    LastOpen(name + " ", word + ")");
    var open := |name| + 2;
    assert body[open..|body| - 1] == word;
    assert body[..open - 1] == name + " ";
  }

  lemma TrimTrimmed(s: string)
    requires Trimmed(s)
    ensures Trim(s) == s
  {
  }

  lemma SplitIsTrimmed(body: string)
    requires Trimmed(body)
    ensures Trimmed(SplitPitch(body).name)
  {
    var open := LastIndexOf(body, '(');
    if 1 < open {
      TrimEndFacts(body[..open - 1]);
      assert !Blank(body[..open - 1]);
    }
  }

  /** Whatever is printed, what is read back is trimmed. */
  lemma ReadBackIsTrimmed(item: Item, section: Section)
    ensures Trimmed(ReadBack(item, section).name)
  {
    var rest := item.name + Suffix(item.pitch);
    var digits := Decimals.Print(item.qty);
    if Blank(rest) {
      assert (digits + "x")[0] == digits[0];
    } else {
      BodyIsTrimmed(item);
      SplitIsTrimmed(Body(item));
      BareIsTrimmed(digits, "x ", rest);
    }
  }

  /** A line whose name does not survive is read back as a bare name, still trimmed. */
  lemma BareIsTrimmed(digits: string, mark: string, rest: string)
    requires digits != "" && Decimals.AllDigits(digits) && !Blank(rest)
    ensures Trimmed(digits + mark + TrimEnd(rest))
  {
    var line := digits + mark + TrimEnd(rest);
    TrimEndFacts(rest);
    assert line[0] == digits[0] && line[|line| - 1] == TrimEnd(rest)[|TrimEnd(rest)| - 1];
  }

  lemma TrimmedIsNotBlank(name: string, more: string)
    requires Trimmed(name)
    ensures !Blank(name + more)
  {
    assert (name + more)[0] == name[0];
  }

  lemma PrintedNameBody(item: Item)
    requires Trimmed(item.name)
    ensures Body(item) == item.name + Suffix(item.pitch) == TrimEnd(item.name + Suffix(item.pitch)) && !Blank(item.name + Suffix(item.pitch))
  {
    var body := item.name + Suffix(item.pitch);
    TrimmedIsNotBlank(item.name, Suffix(item.pitch));
    if Shown(item.pitch).Some? {
      assert body[|body| - 1] == ')';
    } else {
      assert body == item.name;
    }
    TrimTrimmed(body);
    assert TrimStart(body) == body;
  }

  /** The body of a trimmed name, split again. */
  lemma BodySplit(item: Item)
    requires Trimmed(item.name)
    ensures SplitPitch(Body(item)) ==
      if Shown(item.pitch).None? then SplitPitch(item.name)
      else if item.pitch.value <= 4 then Named(item.name, item.pitch) else Named(Body(item), None)
  {
    PrintedNameBody(item);
    if Shown(item.pitch).Some? {
      assert Body(item) == item.name + " (" + Decimals.Print(item.pitch.value) + ")";
      SplitPrinted(item.name, item.pitch.value);
    } else {
      assert Body(item) == item.name;
    }
  }

  /** What is read back for a trimmed name. */
  lemma ReadBackTrimmedName(item: Item, section: Section)
    requires Trimmed(item.name)
    ensures ReadBack(item, section) == ReadBackPlain(item, section, SplitPitch(Body(item)))
  {
    PrintedNameBody(item);
  }

  function ReadBackPlain(item: Item, section: Section, named: Named): Entry {
    if OneLine(named.name) then Entry(Clamped(item.qty), named.name, named.pitch, section)
    else Entry(1, Decimals.Print(item.qty) + "x " + Body(item), None, section)
  }

  /** Without a pitch to split off, the whole body is the name. */
  lemma PlainSplit(body: string)
    ensures SplitPitch(body).pitch.None? ==> SplitPitch(body).name == body
    ensures SplitPitch(body).pitch.Some? ==> |SplitPitch(body).name| < |body|
  {
    var open := LastIndexOf(body, '(');
    if 1 < open <= |body| { TrimEndFacts(body[..open - 1]); }
  }

  /** A printed card reads back as itself exactly when it is well formed. */
  lemma ReadBackExact(item: Item, section: Section)
    ensures ReadBack(item, section) == EntryFor(item, section) <==> WellFormed(item)
  {
    ReadBackIsTrimmed(item, section);
    if Trimmed(item.name) {
      ReadBackTrimmedName(item, section);
      BodySplit(item);
      PrintedNameBody(item);
      PlainSplit(item.name);
    }
  }

  /** A printed card line reads back as itself exactly when the card is well formed. */
  lemma LineRoundTrip(item: Item, section: Section)
    ensures ParseLine(CardText(item), section) == Parsed(Some(EntryFor(item, section)), section) <==> WellFormed(item)
  {
    PrintedLine(item, section);
    ReadBackExact(item, section);
  }

  /** A name that does not survive: its end is read back as a pitch. */
  lemma ANameReadAsPitch(section: Section)
    ensures !WellFormed(Item(1, "A (2)", None))
    ensures ParseLine(CardText(Item(1, "A (2)", None)), section) != Parsed(Some(EntryFor(Item(1, "A (2)", None), section)), section)
  {
    EndsInPitch("A (2)");
    LineRoundTrip(Item(1, "A (2)", None), section);
  }

  lemma EndsInPitch(body: string)
    requires |body| == 5 && body[2] == '(' && body[3] == '2' && body[4] == ')'
    ensures SplitPitch(body).pitch == Some(2)
  {
    assert LastIndexOf(body, '(') == 3;
    assert body[3..4] == "2";
    PitchOfDigits(body[3..4]);
  }
}
