/** Whole command lines: documented phrases in any number, with other words around them. */
module NaturalSpeech {
  import opened Wrappers
  import opened Texts
  import opened NaturalArgs
  import opened NaturalPhrases

  /** A phrase, or a word that belongs to none. */
  datatype Said = Say(phrase: Phrase) | Filler(word: string)

  function OverrideWords(o: Overrides): seq<string> {
    match o
    case Keep => []
    case AndOverrideExisting => ["and", "override", "existing"]
    case OverridingExisting => ["overriding", "existing"]
  }

  function PhraseWords(p: Phrase): seq<string> {
    match p
    case ImportPhrase(None, o) => ["import", "env"] + OverrideWords(o)
    case ImportPhrase(Some(file), o) => ["import", "env", "from", file] + OverrideWords(o)
    case HostAndPort(host, port) => ["listen", "on", host, "port", port]
    case OnPort(port) => ["listen", "on", "port", port]
    case Address(host, port) => ["listen", "on", host + ":" + port]
    case JustPort(port) => ["listen", "on", port]
    case JustHost(host) => ["listen", "on", host]
    case HelpPhrase => ["help"]
    case HelpMe => ["help", "me"]
    case QuestionMark => ["?"]
    case WhatCanYouDo => ["what", "can", "you", "do"]
  }

  function SaidWords(x: Said): seq<string> {
    match x
    case Say(p) => PhraseWords(p)
    case Filler(word) => [word]
  }

  function SaidTokens(x: Said): seq<Token> {
    match x
    case Say(p) => Tokens(p)
    case Filler(word) => [Classify(word)]
  }

  function SaidMeaning(x: Said): seq<Action> {
    match x
    case Say(p) => [Meaning(p)]
    case Filler(_) => []
  }

  function SpeechWords(speech: seq<Said>): seq<string> {
    if speech == [] then [] else SaidWords(speech[0]) + SpeechWords(speech[1..])
  }

  function SpeechTokens(speech: seq<Said>): seq<Token> {
    if speech == [] then [] else SaidTokens(speech[0]) + SpeechTokens(speech[1..])
  }

  function SpeechMeaning(speech: seq<Said>): seq<Action> {
    if speech == [] then [] else SaidMeaning(speech[0]) + SpeechMeaning(speech[1..])
  }

  // ----- Which words may stand where

  const KEYWORDS := [
    "import", "env", "from", "listen", "on", "port", "help", "?", "override", "overriding", "and", "existing"]

  /** Neither a keyword nor a number. */
  predicate IsPlain(word: string) {
    word !in KEYWORDS && !IsU16(word)
  }

  /** The three kinds of words. */
  lemma WordsAreToldApart(word: string)
    ensures Classify(word) == Word(word) <==> IsPlain(word)
    ensures Classify(word) == Number(word) <==> IsU16(word)
    ensures !Classify(word).Word? && !Classify(word).Number? <==> word in KEYWORDS
  {
    if word in KEYWORDS {
      KeywordIsNoNumber(word);
    }
  }

  lemma KeywordIsNoNumber(word: string)
    requires word in KEYWORDS
    ensures !IsU16(word)
  {
    assert !IsDigit(word[0]) && word[0] != '+';
  }

  predicate IsLegal(x: Said) {
    match x
    case Say(p) => ColonsRight(p) && LegalPhrase(p)
    case Filler(word) => (IsPlain(word) && word != "me" && word != "what") || IsU16(word)
  }

  predicate LegalPhrase(p: Phrase) {
    match p
    case ImportPhrase(Some(file), _) => IsPlain(file)
    case HostAndPort(host, port) => IsPlain(host) && IsU16(port)
    case OnPort(port) => IsU16(port)
    case JustPort(port) => IsU16(port)
    case JustHost(host) => IsPlain(host)
    case _ => true
  }

  predicate AllLegal(speech: seq<Said>) {
    forall x <- speech :: IsLegal(x)
  }

  // ----- Tokens of the words

  /** Every port in decimal is a number, and nothing above the last port is. */
  lemma PortsAreNumbersExactly(n: nat)
    ensures Classify(Decimal(n)) == if n <= 0xffff then Number(Decimal(n)) else Word(Decimal(n))
  {
    ValueOfDecimal(n);
    NumeralsAreNumbers(Decimal(n));
  }

  /** A plus sign in front and leading zeros do not matter. */
  lemma NumeralsAreNumbers(word: string)
    requires IsNumeral(word)
    ensures Classify(word) == if Value(word) <= 0xffff then Number(word) else Word(word)
    ensures Classify("+" + word) == if Value(word) <= 0xffff then Number("+" + word) else Word("+" + word)
  {
    assert IsDigit(word[0]);
    NotAKeyword(word);
    NotAKeyword("+" + word);
    WordsAreToldApart(word);
    WordsAreToldApart("+" + word);
  }

  lemma NotAKeyword(word: string)
    requires word != "" && (IsDigit(word[0]) || word[0] == '+')
    ensures word !in KEYWORDS
  {
  }

  lemma NumberHasNoColon(word: string)
    ensures IsU16(word) ==> ':' !in word
  {
  }

  /** A word with a colon is neither a keyword nor a number. */
  lemma AddressIsPlain(host: string, port: string)
    ensures IsPlain(host + ":" + port)
  {
    var word := host + ":" + port;
    assert word[|host|] == ':';
    NumberHasNoColon(word);
  }

  lemma ClassifyOne(word: string)
    ensures ClassifyAll([word]) == [Classify(word)]
  {
  }

  lemma ClassifyMore(words: seq<string>, word: string)
    ensures ClassifyAll(words + [word]) == ClassifyAll(words) + [Classify(word)]
  {
  }

  lemma ClassifyThree(a: string, b: string, c: string)
    ensures ClassifyAll([a, b]) == [Classify(a), Classify(b)]
    ensures ClassifyAll([a, b, c]) == [Classify(a), Classify(b), Classify(c)]
  {
    ClassifyOne(a);
    ClassifyMore([a], b);
    ClassifyMore([a] + [b], c);
    assert [a] + [b] == [a, b] && [a, b] + [c] == [a, b, c];
  }

  lemma ClassifyFive(a: string, b: string, c: string, d: string, e: string)
    ensures ClassifyAll([a, b, c, d]) == [Classify(a), Classify(b), Classify(c), Classify(d)]
    ensures ClassifyAll([a, b, c, d, e]) == [Classify(a), Classify(b), Classify(c), Classify(d), Classify(e)]
  {
    ClassifyThree(a, b, c);
    ClassifyMore([a, b, c], d);
    ClassifyMore([a, b, c] + [d], e);
    assert [a, b, c] + [d] == [a, b, c, d] && [a, b, c, d] + [e] == [a, b, c, d, e];
  }

  lemma OverrideWordsBecomeTokens(o: Overrides)
    ensures ClassifyAll(OverrideWords(o)) == OverrideTokens(o)
  {
    ClassifyThree("and", "override", "existing");
    ClassifyThree("overriding", "existing", "");
  }

  lemma WordsBecomeTokens(x: Said)
    requires IsLegal(x)
    ensures ClassifyAll(SaidWords(x)) == SaidTokens(x)
  {
    match x
    case Filler(word) => ClassifyOne(word);
    case Say(ImportPhrase(None, o)) =>
      ClassifyThree("import", "env", "");
      OverrideWordsBecomeTokens(o);
      ClassifyAppend(["import", "env"], OverrideWords(o));
    case Say(ImportPhrase(Some(file), o)) =>
      ClassifyFive("import", "env", "from", file, "");
      OverrideWordsBecomeTokens(o);
      ClassifyAppend(["import", "env", "from", file], OverrideWords(o));
    case Say(p) => PlainWordsBecomeTokens(p);
  }

  lemma PlainWordsBecomeTokens(p: Phrase)
    requires LegalPhrase(p) && !p.ImportPhrase?
    ensures ClassifyAll(PhraseWords(p)) == Tokens(p)
  {
    match p
    case HostAndPort(host, port) =>
      WordsAreToldApart(host);
      WordsAreToldApart(port);
      ListenWords(host, port);
    case OnPort(port) =>
      WordsAreToldApart(port);
      ListenWords("", port);
    case Address(host, port) =>
      AddressIsPlain(host, port);
      WordsAreToldApart(host + ":" + port);
      ListenWords(host + ":" + port, "");
    case JustPort(port) =>
      WordsAreToldApart(port);
      ListenWords(port, "");
    case JustHost(host) =>
      WordsAreToldApart(host);
      ListenWords(host, "");
    case _ => HelpWords(p);
  }

  lemma ListenWords(host: string, port: string)
    ensures ClassifyAll(["listen", "on", host, "port", port]) == [Listen, On, Classify(host), Port, Classify(port)]
    ensures ClassifyAll(["listen", "on", "port", port]) == [Listen, On, Port, Classify(port)]
    ensures ClassifyAll(["listen", "on", host]) == [Listen, On, Classify(host)]
  {
    ClassifyFive("listen", "on", host, "port", port);
    ClassifyFive("listen", "on", "port", port, "");
    ClassifyThree("listen", "on", host);
  }

  lemma HelpWords(p: Phrase)
    requires p.HelpPhrase? || p.HelpMe? || p.QuestionMark? || p.WhatCanYouDo?
    ensures ClassifyAll(PhraseWords(p)) == Tokens(p)
  {
    ClassifyOne("help");
    ClassifyOne("?");
    SmallWords();
  }

  lemma SmallWords()
    ensures ClassifyAll(["help", "me"]) == [Help, Word("me")]
    ensures ClassifyAll(["what", "can", "you", "do"]) == [Word("what"), Word("can"), Word("you"), Word("do")]
  {
    SmallWordsArePlain();
    ClassifyThree("help", "me", "");
    ClassifyFive("what", "can", "you", "do", "");
  }

  lemma SmallWordsArePlain()
    ensures IsPlain("me") && IsPlain("what") && IsPlain("can") && IsPlain("you") && IsPlain("do")
  {
    assert "me"[0] == 'm' && "what"[0] == 'w' && "can"[0] == 'c' && "you"[0] == 'y' && "do"[0] == 'd';
  }

  // ----- One phrase is taken whole

  /** What comes behind a phrase cannot prolong it. */
  predicate Separate(rest: seq<Token>) {
    rest != [] ==> rest[0] != And && rest[0] != Overriding && rest[0] != From && rest[0] != Port && rest[0] != Word("me")
  }

  lemma PhraseThenRest(p: Phrase, rest: seq<Token>)
    requires ColonsRight(p) && LegalPhrase(p) && Separate(rest)
    ensures Step(Tokens(p) + rest) == (Some(Meaning(p)), |Tokens(p)|)
  {
    match p
    case ImportPhrase(_, _) => ImportThenRest(p, rest);
    case HostAndPort(_, _) => ListenThenRest(p, rest);
    case OnPort(_) => ListenThenRest(p, rest);
    case Address(host, port) =>
      SplitOnceBehind(host, port);
      AddressThenRest(Word(host + ":" + port), rest);
    case JustHost(host) =>
      SplitOnceBehind(host, "");
      AddressThenRest(Word(host), rest);
    case JustPort(port) =>
      SplitOnceBehind(port, "");
      AddressThenRest(Number(port), rest);
    case _ =>
  }

  lemma TokensInFront(p: seq<Token>, rest: seq<Token>)
    ensures forall k | 0 <= k < |p| :: (p + rest)[k] == p[k]
    ensures rest != [] ==> (p + rest)[|p|] == rest[0]
  {
  }

  lemma ListenThenRest(p: Phrase, rest: seq<Token>)
    requires p.HostAndPort? || p.OnPort?
    ensures Step(Tokens(p) + rest) == (Some(Meaning(p)), |Tokens(p)|)
  {
  }

  lemma AddressThenRest(token: Token, rest: seq<Token>)
    requires (token.Word? || token.Number?) && Separate(rest)
    ensures Step([Listen, On, token] + rest) == (Some(AddressAction(token)), 3)
  {
  }

  lemma ImportThenRest(p: Phrase, rest: seq<Token>)
    requires p.ImportPhrase? && Separate(rest)
    ensures Step(Tokens(p) + rest) == (Some(Meaning(p)), |Tokens(p)|)
  {
    TokensInFront(Tokens(p), rest);
  }

  lemma FillerIsSkipped(word: string, rest: seq<Token>)
    requires IsLegal(Filler(word))
    ensures Step([Classify(word)] + rest) == (None, 1)
  {
    WordsAreToldApart(word);
  }

  lemma SpeechIsSeparate(speech: seq<Said>)
    requires AllLegal(speech)
    ensures Separate(SpeechTokens(speech))
  {
    if speech != [] {
      var x := speech[0];
      assert x in speech && IsLegal(x);
      FirstTokenIsSeparate(x);
      assert SpeechTokens(speech)[0] == SaidTokens(x)[0];
    }
  }

  lemma FirstTokenIsSeparate(x: Said)
    requires IsLegal(x)
    ensures SaidTokens(x) != [] && Separate(SaidTokens(x))
  {
    if x.Filler? {
      WordsAreToldApart(x.word);
    }
  }

  lemma {:induction false} SpeechTokensAreUnderstood(speech: seq<Said>)
    requires AllLegal(speech)
    ensures Actions(SpeechTokens(speech)) == SpeechMeaning(speech)
    decreases |speech|
  {
    if speech != [] {
      var x, rest := speech[0], SpeechTokens(speech[1..]);
      assert x in speech && IsLegal(x) && forall y <- speech[1..] :: y in speech;
      SpeechIsSeparate(speech[1..]);
      SpeechTokensAreUnderstood(speech[1..]);
      match x {
        case Say(p) =>
          PhraseThenRest(p, rest);
        case Filler(word) =>
          FillerIsSkipped(word, rest);
      }
    }
  }

  lemma {:induction false} SpeechWordsBecomeTokens(speech: seq<Said>)
    requires AllLegal(speech)
    ensures ClassifyAll(SpeechWords(speech)) == SpeechTokens(speech)
    decreases |speech|
  {
    if speech != [] {
      assert speech[0] in speech && forall y <- speech[1..] :: y in speech;
      WordsBecomeTokens(speech[0]);
      SpeechWordsBecomeTokens(speech[1..]);
      ClassifyAppend(SaidWords(speech[0]), SpeechWords(speech[1..]));
    }
  }

  /** However the words reach the program, what is said is what is done, in order. */
  lemma SpeechIsUnderstood(args: seq<string>, speech: seq<Said>)
    requires AllLegal(speech) && AllWords(args) == SpeechWords(speech)
    ensures Actions(ClassifyAll(AllWords(args))) == SpeechMeaning(speech)
  {
    SpeechWordsBecomeTokens(speech);
    SpeechTokensAreUnderstood(speech);
  }

  // ----- Two ways they can

  predicate IsOneWord(s: string) {
    s != "" && forall i | 0 <= i < |s| :: !IsWhitespace(s[i])
  }

  function Spoken(words: seq<string>): string {
    if words == [] then "" else words[0] + (" " + Spoken(words[1..]))
  }

  lemma {:induction false} WordLengthStops(w: string, rest: string)
    requires (forall i | 0 <= i < |w| :: !IsWhitespace(w[i])) && (rest == "" || IsWhitespace(rest[0]))
    ensures WordLength(w + rest) == |w|
    decreases |w|
  {
    if w == "" {
      assert w + rest == rest;
    } else {
      assert (w + rest)[1..] == w[1..] + rest;
      WordLengthStops(w[1..], rest);
    }
  }

  lemma FirstWord(w: string, rest: string)
    requires IsOneWord(w) && (rest == "" || IsWhitespace(rest[0]))
    ensures Words(w + rest) == [w] + Words(rest)
  {
    WordLengthStops(w, rest);
    assert (w + rest)[0] == w[0];
    assert (w + rest)[..|w|] == w && (w + rest)[|w|..] == rest;
  }

  /** One argument a word, as from a shell... */
  lemma {:induction false} OneArgumentEach(words: seq<string>)
    requires forall i | 0 <= i < |words| :: IsOneWord(words[i])
    ensures AllWords(words) == words
    decreases |words|
  {
    if words != [] {
      var n := |words| - 1;
      OneArgumentEach(words[..n]);
      FirstWord(words[n], "");
      assert words[n] + "" == words[n] && Words("") == [];
      assert words[..n] + [words[n]] == words;
    }
  }

  /** ... or all of them quoted in one. */
  lemma OneArgumentForAll(words: seq<string>)
    requires forall i | 0 <= i < |words| :: IsOneWord(words[i])
    ensures AllWords([Spoken(words)]) == words
  {
    SpokenWords(words);
    assert [Spoken(words)][..0] == [];
  }

  lemma {:induction false} SpokenWords(words: seq<string>)
    requires forall i | 0 <= i < |words| :: IsOneWord(words[i])
    ensures Words(Spoken(words)) == words
    decreases |words|
  {
    if words != [] {
      var later := Spoken(words[1..]);
      SpokenWords(words[1..]);
      BlankBefore(later);
      FirstWord(words[0], " " + later);
      assert [words[0]] + words[1..] == words;
    }
  }

  lemma BlankBefore(s: string)
    ensures Words(" " + s) == Words(s)
  {
  }
}
