/**
 The forms of a decklist line, one by one: what the parser makes of headers,
 section titles, quantities and colours, for every text around them.
 */
module DecklistForms {
  import opened Common
  import opened DecklistText
  import opened PrintedDecklist
  import Decimals

  predicate IsWord(word: string) { word != "" && forall i | 0 <= i < |word| :: IsLetter(word[i]) }

  // ---------------------------------------------------------------- headers

  /** A word with a colon is never a section title, a comment or an advertisement. */
  lemma ColonLine(word: string, more: string)
    requires IsWord(word)
    ensures var line := word + ":" + more;
      BareSection(line).None? && !IsAdvertisement(line) && line != "" && !StartsWith(line, "#") && !StartsWith(line, "//")
  {
    var line := word + ":" + more;
    assert line[|word|] == ':' && IsLetter(line[0]);
    assert forall i | 0 <= i < |word| :: IsLetter(line[i]);
    ColonIsNoTitle(line, |word|);
    ColonIsNoAdvertisement(line, |word|);
  }

  lemma ColonIsNoTitle(line: string, n: nat)
    requires n < |line| && line[n] == ':'
    ensures BareSection(line).None?
  {
    var lower := Lower(line);
    assert lower[n] == ':';
    NotThatTitle("arena", lower, n);
    NotThatTitle("deck", lower, n);
    NotThatTitle("main", lower, n);
    NotThatTitle("sideboard", lower, n);
    NotThatTitle("maybeboard", lower, n);
  }

  lemma NotThatTitle(word: string, lower: string, n: nat)
    requires IsWord(word) && n < |lower| && lower[n] == ':'
    ensures !IsBare(lower, word)
  {
    assert forall i | 0 <= i < |word + " card"| :: (word + " card")[i] != ':';
    assert forall i | 0 <= i < |word + " cards"| :: (word + " cards")[i] != ':';
  }

  lemma ColonIsNoAdvertisement(line: string, n: nat)
    requires n < |line| && line[n] == ':' && forall i | 0 <= i < n :: IsLetter(line[i])
    ensures !IsAdvertisement(line)
  {
    var lower := Lower(line);
    assert lower[n] == ':' && forall i | 0 <= i < n :: lower[i] != ' ';
    OtherStart(lower, n, "made with love at fabrary", 4);
    OtherStart(lower, n, "made with love at the fabrary", 4);
    OtherStart(lower, n, "see the full deck", 3);
  }

  /** Neither a colon nor letters up to it can be where the phrase has its first space. */
  lemma OtherStart(lower: string, n: nat, phrase: string, space: nat)
    requires n < |lower| && lower[n] == ':' && forall i | 0 <= i < n :: lower[i] != ' '
    requires space < |phrase| && phrase[space] == ' ' && forall i | 0 <= i < space :: phrase[i] != ':'
    ensures !StartsWith(lower, phrase)
    ensures lower != phrase
  {
    assert StartsWith(lower, phrase) ==> forall i | 0 <= i < |phrase| :: lower[i] == phrase[i];
  }

  lemma HeaderOf(word: string, more: string)
    requires IsWord(word)
    ensures Header(word + ":" + more) == if OneLine(TrimStart(more)) then Some(HeaderLine(word, TrimStart(more))) else None
  {
    var line := word + ":" + more;
    assert line[|word|] == ':';
    assert IndexOf(line, ':') == |word|;
    assert line[..|word|] == word && line[|word| + 1..] == more;
    assert !IsSpace(word[|word| - 1]) by { LettersAreNoSpace(word[|word| - 1]); }
  }

  lemma LettersAreNoSpace(c: char)
    requires IsLetter(c)
    ensures !IsSpace(c)
  {
  }

  /** A header with text after it, whatever the text. */
  lemma HeaderWithText(word: string, rest: string, section: Section)
    requires IsWord(word) && Trimmed(rest) && OneLine(rest)
    ensures ParseLine(word + ": " + rest, section) ==
      match HeaderSection(word)
      case None => Parsed(None, section)
      case Some(next) => Parsed(Some(Entry(1, rest, None, next)), next)
  {
    var line := word + ": " + rest;
    assert line == word + ":" + (" " + rest);
    assert line[0] == word[0] && line[|line| - 1] == rest[|rest| - 1];
    LettersAreNoSpace(word[0]);
    TrimTrimmed(line);
    HeadAndTail(' ', rest);
    assert " " + rest == [' '] + rest;
    assert TrimStart(rest) == rest && TrimStart(" " + rest) == rest;
    ColonLine(word, " " + rest);
    HeaderOf(word, " " + rest);
  }

  /** A header alone opens its section, or is skipped. */
  lemma HeaderAlone(word: string, section: Section)
    requires IsWord(word)
    ensures ParseLine(word + ":", section) == match HeaderSection(word) case None => Parsed(None, section) case Some(next) => Parsed(None, next)
  {
    var line := word + ":";
    assert line == word + ":" + "";
    LettersAreNoSpace(word[0]);
    TrimTrimmed(line);
    ColonLine(word, "");
    HeaderOf(word, "");
  }

  // ---------------------------------------------------------------- quantities and colours

  /** A quantity may stand without the `x`. */
  lemma WithoutX(digits: string, name: string, section: Section)
    requires Decimals.AllDigits(digits) && digits != "" && Trimmed(name) && OneLine(SplitPitch(name).name)
    requires |name| > 1 && (name[0] == 'x' || name[0] == 'X') ==> !IsSpace(name[1])
    ensures CardOrBare(digits + ([' '] + name), section) ==
            Entry(Clamped(Decimals.Value(digits)), SplitPitch(name).name, SplitPitch(name).pitch, section)
  {
    HeadAndTail(' ', name);
    assert TrimStart(name) == name && TrimStart([' '] + name) == name;
    CardAfterDigits(digits, [' '] + name, name, section);
  }

  /** The `x` may be a capital, and it may stand apart from the quantity. */
  lemma CapitalX(digits: string, name: string, section: Section)
    requires Decimals.AllDigits(digits) && digits != "" && Trimmed(name) && OneLine(SplitPitch(name).name)
    ensures var entry := Entry(Clamped(Decimals.Value(digits)), SplitPitch(name).name, SplitPitch(name).pitch, section);
      CardOrBare(digits + (['X', ' '] + name), section) == entry && CardOrBare(digits + ([' ', 'x', ' '] + name), section) == entry
  {
    AfterX('X', name);
    AfterSpace('x', name);
    CardAfterDigits(digits, ['X', ' '] + name, name, section);
    CardAfterDigits(digits, [' ', 'x', ' '] + name, name, section);
  }

  lemma AfterSpace(x: char, name: string)
    requires (x == 'x' || x == 'X') && Trimmed(name)
    ensures CardBody([' ', x, ' '] + name) == Some(name)
  {
    var rest := [x, ' '] + name;
    AfterX(x, name);
    HeadAndTail(' ', rest);
    assert [' ', x, ' '] + name == [' '] + rest;
    assert TrimStart(rest) == rest && TrimStart([' '] + rest) == rest;
  }

  lemma AfterX(x: char, name: string)
    requires (x == 'x' || x == 'X') && Trimmed(name)
    ensures CardBody([x, ' '] + name) == Some(name)
  {
    assert [x, ' '] + name == [x] + ([' '] + name);
    HeadAndTail(x, [' '] + name);
    HeadAndTail(' ', name);
    assert TrimStart(name) == name;
  }

  /** A colour in brackets after the name is the pitch, whatever the name. */
  lemma ColourAfterName(name: string, colour: string)
    requires Trimmed(name) && PitchOf(colour).Some? && forall i | 0 <= i < |colour| :: colour[i] != '('
    ensures SplitPitch(name + " (" + colour + ")") == Named(name, PitchOf(colour))
  {
    TrimEndAppend(name, " ");
    assert TrimEnd(name) == name;
    SplitSuffix(name, colour);
  }

  // ---------------------------------------------------------------- words

  /** Which words open which section; capitals do not matter. */
  lemma HeroWords()
    ensures HeaderSection("Hero") == Some(Hero) && HeaderSection("HEROES") == Some(Hero)
  {
    assert Lower("Hero") == "hero";
    assert Lower("HEROES") == "heroes";
  }

  lemma SideWords()
    ensures HeaderSection("Sideboard") == Some(Sideboard)
  {
    assert Lower("Sideboard") == "sideboard";
    assert "sideboard"[..4] == "side" && "side"[0] == 's' && "hero"[0] == 'h';
  }

  lemma DeckWord()
    ensures HeaderSection("Deck") == Some(Deck)
  {
    assert Lower("Deck") == "deck";
  }

  lemma WeaponWord()
    ensures HeaderSection("Weapons") == Some(Deck)
  {
    assert Lower("Weapons") == "weapons";
    assert "weapons"[..4] == "weap" && "weapons"[..6] == "weapon" && "weap"[0] == 'w';
    assert "hero"[0] == 'h' && "side"[0] == 's' && "deck"[0] == 'd' && "main"[0] == 'm';
  }

  lemma EquipmentWord()
    ensures HeaderSection("Equipment") == Some(Deck)
  {
    assert Lower("Equipment") == "equipment";
    assert "equipment"[..4] == "equi" && "equi"[0] == 'e' && "equipment"[..6] == "equipm" && "equipm"[0] == 'e' && "equipment"[..9] == "equipment";
    assert "hero"[0] == 'h' && "side"[0] == 's' && "deck"[0] == 'd' && "main"[0] == 'm' && "weapon"[0] == 'w';
  }

  lemma SkippedWords()
    ensures HeaderSection("Name").None? && HeaderSection("Format").None?
  {
    assert Lower("Name") == "name";
    assert Lower("Format") == "format";
  }

  /** A word that starts like none of them opens no section. */
  lemma OtherWord(word: string)
    requires word != "" && Lower(word)[0] !in {'h', 's', 'd', 'm', 'w', 'e', 'a'}
    ensures HeaderSection(word).None?
  {
    var h := Lower(word);
    OtherLetter(h, "hero");
    OtherLetter(h, "side");
    OtherLetter(h, "deck");
    OtherLetter(h, "main");
    OtherLetter(h, "weapon");
    OtherLetter(h, "equipment");
    OtherLetter(h, "arena");
  }

  lemma OtherLetter(h: string, start: string)
    requires h != "" && start != "" && h[0] != start[0]
    ensures !StartsWith(h, start)
  {
  }

  /** The titles without a colon, in the singular and the plural. */
  lemma DeckTitle()
    ensures BareSection("Deck cards") == Some(Deck)
  {
    assert Lower("Deck cards") == "deck cards";
  }

  lemma SideboardTitle()
    ensures BareSection("Sideboard card") == Some(Sideboard)
  {
    assert Lower("Sideboard card") == "sideboard card";
  }

  /** The colours a pitch may be written as. */
  lemma Red()
    ensures PitchOf("Red") == Some(1)
  {
    assert Lower("Red") == "red";
  }

  lemma Yellow()
    ensures PitchOf("yellow") == PitchOf("yel") == Some(2)
  {
    assert Lower("yellow") == "yellow" && Lower("yel") == "yel";
  }

  lemma Blue()
    ensures PitchOf("blue") == PitchOf("blu") == Some(3)
  {
    assert Lower("blue") == "blue" && Lower("blu") == "blu";
  }

  lemma Purple()
    ensures PitchOf("purple") == PitchOf("pur") == Some(4)
  {
    assert Lower("purple") == "purple" && Lower("pur") == "pur";
  }
}
