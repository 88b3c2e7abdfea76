/** The command line in plain words: tokens, phrases and actions. */
module NaturalArgs {
  import opened Wrappers
  import opened Texts

  datatype Token =
    | Import | Env | From | Listen | On | Port | Help | Question | Override | Overriding | And | Existing
    | Word(text: string) | Number(text: string)

  datatype Action =
    | ImportEnv(file: Option<string>, overrideExisting: bool)
    | ListenOn(host: Option<string>, port: Option<string>)
    | ShowHelp

  // ----- Tokens

  /** `parse::<u16>()`: an optional plus sign and digits, with a value below 65536. */
  predicate IsU16(word: string) {
    var digits := if word != "" && word[0] == '+' then word[1..] else word;
    IsNumeral(digits) && Value(digits) <= 0xffff
  }

  function Classify(word: string): Token {
    if word == "import" then Import
    else if word == "env" then Env
    else if word == "from" then From
    else if word == "listen" then Listen
    else if word == "on" then On
    else if word == "port" then Port
    else if word == "help" then Help
    else if word == "?" then Question
    else if word == "override" then Override
    else if word == "overriding" then Overriding
    else if word == "and" then And
    else if word == "existing" then Existing
    else if IsU16(word) then Number(word)
    else Word(word)
  }

  /** Length of the word at the start of `s`. */
  function WordLength(s: string): (n: nat)
    ensures n <= |s|
  {
    if s == "" || IsWhitespace(s[0]) then 0 else 1 + WordLength(s[1..])
  }

  /** `split_whitespace`. */
  function Words(s: string): seq<string>
    decreases |s|
  {
    if s == "" then []
    else if IsWhitespace(s[0]) then Words(s[1..])
    else
      var n := WordLength(s);
      [s[..n]] + Words(s[n..])
  }

  function ClassifyAll(words: seq<string>): seq<Token> {
    if words == [] then [] else ClassifyAll(words[..|words| - 1]) + [Classify(words[|words| - 1])]
  }

  function AllWords(args: seq<string>): seq<string> {
    if args == [] then [] else AllWords(args[..|args| - 1]) + Words(args[|args| - 1])
  }

  lemma {:induction false} ClassifyAppend(a: seq<string>, b: seq<string>)
    ensures ClassifyAll(a + b) == ClassifyAll(a) + ClassifyAll(b)
    decreases |b|
  {
    if b == [] {
      assert a + b == a;
    } else {
      assert (a + b)[..|a + b| - 1] == a + b[..|b| - 1];
      ClassifyAppend(a, b[..|b| - 1]);
    }
  }

  method FromArgs(args: seq<string>) returns (tokens: seq<Token>)
    ensures tokens == ClassifyAll(AllWords(args))
  {
    tokens := [];
    for i := 0 to |args|
      invariant tokens == ClassifyAll(AllWords(args[..i]))
    {
      var words := Words(args[i]);
      for j := 0 to |words|
        invariant tokens == ClassifyAll(AllWords(args[..i])) + ClassifyAll(words[..j])
      {
        assert words[..j + 1][..j] == words[..j];
        tokens := tokens + [Classify(words[j])];
      }
      assert words[..|words|] == words && args[..i + 1][..i] == args[..i];
      ClassifyAppend(AllWords(args[..i]), words);
    }
    assert args[..|args|] == args;
  }

  // ----- Phrases

  /** `split_once(':')`. */
  function SplitOnce(s: string): Option<(string, string)> {
    var i := IndexOf(s, ':');
    if i == |s| then None else Some((s[..i], s[i + 1..]))
  }

  predicate Has(t: seq<Token>, k: nat, token: Token) {
    k < |t| && t[k] == token
  }

  predicate HasWord(t: seq<Token>, k: nat) {
    k < |t| && t[k].Word?
  }

  predicate HasNumber(t: seq<Token>, k: nat) {
    k < |t| && t[k].Number?
  }

  function AddressAction(token: Token): Action
    requires token.Word? || token.Number?
  {
    match SplitOnce(token.text)
    case Some((host, port)) => ListenOn(Some(host), Some(port))
    case None => if token.Number? then ListenOn(None, Some(token.text)) else ListenOn(Some(token.text), None)
  }

  /** The arms of the parser in their order: at most one action, and the tokens consumed. */
  function Step(t: seq<Token>): (r: (Option<Action>, nat))
    requires t != []
    ensures 1 <= r.1 <= |t|
  {
    if Has(t, 0, Import) && Has(t, 1, Env) && Has(t, 2, From) && HasWord(t, 3)
      && Has(t, 4, And) && Has(t, 5, Override) && Has(t, 6, Existing)
    then (Some(ImportEnv(Some(t[3].text), true)), 7)
    else if Has(t, 0, Import) && Has(t, 1, Env) && Has(t, 2, And) && Has(t, 3, Override) && Has(t, 4, Existing)
    then (Some(ImportEnv(None, true)), 5)
    else if Has(t, 0, Import) && Has(t, 1, Env) && Has(t, 2, Overriding) && Has(t, 3, Existing)
    then (Some(ImportEnv(None, true)), 4)
    else if Has(t, 0, Import) && Has(t, 1, Env) && Has(t, 2, From) && HasWord(t, 3)
      && Has(t, 4, Overriding) && Has(t, 5, Existing)
    then (Some(ImportEnv(Some(t[3].text), true)), 6)
    else if Has(t, 0, Import) && Has(t, 1, Env) && Has(t, 2, From) && HasWord(t, 3)
    then (Some(ImportEnv(Some(t[3].text), false)), 4)
    else if Has(t, 0, Import) && Has(t, 1, Env)
    then (Some(ImportEnv(None, false)), 2)
    else if Has(t, 0, Listen) && Has(t, 1, On) && HasWord(t, 2) && Has(t, 3, Port) && HasNumber(t, 4)
    then (Some(ListenOn(Some(t[2].text), Some(t[4].text))), 5)
    else if Has(t, 0, Listen) && Has(t, 1, On) && Has(t, 2, Port) && HasNumber(t, 3)
    then (Some(ListenOn(None, Some(t[3].text))), 4)
    else if Has(t, 0, Listen) && Has(t, 1, On) && (HasWord(t, 2) || HasNumber(t, 2))
    then (Some(AddressAction(t[2])), 3)
    else if Has(t, 0, Help) && Has(t, 1, Word("me")) then (Some(ShowHelp), 2)
    else if Has(t, 0, Help) || Has(t, 0, Question) then (Some(ShowHelp), 1)
    else if Has(t, 0, Word("what")) && Has(t, 1, Word("can")) && Has(t, 2, Word("you")) && Has(t, 3, Word("do"))
    then (Some(ShowHelp), 4)
    else (None, 1)
  }

  function Actions(t: seq<Token>): seq<Action>
    decreases |t|
  {
    if t == [] then []
    else
      var (action, n) := Step(t);
      (if action.Some? then [action.value] else []) + Actions(t[n..])
  }

  function WithAction(actions: seq<Action>, action: Option<Action>): seq<Action> {
    if action.Some? then actions + [action.value] else actions
  }

  lemma OneStep(tokens: seq<Token>, i: nat, done: seq<Action>, action: Option<Action>, n: nat)
    requires i < |tokens| && Step(tokens[i..]) == (action, n)
    ensures done + Actions(tokens[i..]) == WithAction(done, action) + Actions(tokens[i + n..])
  {
  }

  /** One round of the loop: the tokens taken are there, and at least one is taken. */
  method TakePhrase(tokens: seq<Token>, i: nat, done: seq<Action>) returns (actions: seq<Action>, j: nat)
    requires i < |tokens|
    ensures i < j <= |tokens|
    ensures actions + Actions(tokens[j..]) == done + Actions(tokens[i..])
  {
    var (action, n) := Step(tokens[i..]);
    OneStep(tokens, i, done, action, n);
    actions, j := WithAction(done, action), i + n;
  }

  method Parse(tokens: seq<Token>) returns (actions: seq<Action>)
    ensures actions == Actions(tokens)
  {
    actions := [];
    var i := 0;
    while i < |tokens|
      invariant 0 <= i <= |tokens|
      invariant actions + Actions(tokens[i..]) == Actions(tokens)
      decreases |tokens| - i
    {
      actions, i := TakePhrase(tokens, i, actions);
    }
  }
}

/** The documented phrases: what is said is what is done. */
module NaturalPhrases {
  import opened Wrappers
  import opened Texts
  import opened NaturalArgs

  datatype Overrides = Keep | AndOverrideExisting | OverridingExisting

  /** The phrases of the help text. */
  datatype Phrase =
    | ImportPhrase(file: Option<string>, overrides: Overrides)
    | HostAndPort(host: string, port: string)
    | OnPort(port: string)
    | Address(host: string, port: string)
    | JustPort(port: string)
    | JustHost(host: string)
    | HelpPhrase
    | HelpMe
    | QuestionMark
    | WhatCanYouDo

  function OverrideTokens(o: Overrides): seq<Token> {
    match o
    case Keep => []
    case AndOverrideExisting => [And, Override, Existing]
    case OverridingExisting => [Overriding, Existing]
  }

  function Tokens(p: Phrase): seq<Token> {
    match p
    case ImportPhrase(None, o) => [Import, Env] + OverrideTokens(o)
    case ImportPhrase(Some(file), o) => [Import, Env, From, Word(file)] + OverrideTokens(o)
    case HostAndPort(host, port) => [Listen, On, Word(host), Port, Number(port)]
    case OnPort(port) => [Listen, On, Port, Number(port)]
    case Address(host, port) => [Listen, On, Word(host + ":" + port)]
    case JustPort(port) => [Listen, On, Number(port)]
    case JustHost(host) => [Listen, On, Word(host)]
    case HelpPhrase => [Help]
    case HelpMe => [Help, Word("me")]
    case QuestionMark => [Question]
    case WhatCanYouDo => [Word("what"), Word("can"), Word("you"), Word("do")]
  }

  function Meaning(p: Phrase): Action {
    match p
    case ImportPhrase(file, o) => ImportEnv(file, o != Keep)
    case HostAndPort(host, port) => ListenOn(Some(host), Some(port))
    case OnPort(port) => ListenOn(None, Some(port))
    case Address(host, port) => ListenOn(Some(host), Some(port))
    case JustPort(port) => ListenOn(None, Some(port))
    case JustHost(host) => ListenOn(Some(host), None)
    case HelpPhrase => ShowHelp
    case HelpMe => ShowHelp
    case QuestionMark => ShowHelp
    case WhatCanYouDo => ShowHelp
  }

  /** A host that stands alone has no colon; the host of an address ends at its first colon. */
  predicate ColonsRight(p: Phrase) {
    match p
    case Address(host, _) => ':' !in host
    case JustHost(host) => ':' !in host
    case JustPort(port) => ':' !in port
    case _ => true
  }

  // ----- On arbitrary tokens: the longest phrase is taken

  /** Number tokens come from the tokeniser: they hold no colon. */
  predicate NumbersArePlain(t: seq<Token>) {
    forall k | 0 <= k < |t| && t[k].Number? :: ':' !in t[k].text
  }

  predicate Begins(t: seq<Token>, p: Phrase) {
    ColonsRight(p) && Tokens(p) <= t
  }

  lemma PrefixAt(p: seq<Token>, t: seq<Token>, k: nat)
    requires p <= t && k < |p|
    ensures t[k] == p[k]
  {
  }

  lemma SplitOnceBehind(host: string, port: string)
    requires ':' !in host
    ensures SplitOnce(host + ":" + port) == Some((host, port))
    ensures SplitOnce(host) == None
  {
    assert host + ":" + port == host + (":" + port);
    IndexBehind(host, ":" + port, ':');
    assert (host + ":" + port)[..|host|] == host && (host + ":" + port)[|host| + 1..] == port;
    assert host + "" == host;
    IndexBehind(host, "", ':');
  }

  /** No phrase that begins the tokens is longer than what is taken. */
  lemma NoLongerPhrase(t: seq<Token>, p: Phrase)
    requires t != [] && Begins(t, p)
    ensures Step(t).0.Some? && |Tokens(p)| <= Step(t).1
  {
    var s := Tokens(p);
    forall k | 0 <= k < |s| ensures t[k] == s[k] {
      PrefixAt(s, t, k);
    }
  }

  /** The phrase that is taken. */
  lemma PhraseTaken(t: seq<Token>) returns (p: Phrase)
    requires t != [] && NumbersArePlain(t) && Step(t).0.Some?
    ensures Begins(t, p) && |Tokens(p)| == Step(t).1 && Meaning(p) == Step(t).0.value
  {
    if t[0] == Import {
      p := ImportTaken(t);
    } else if t[0] == Listen {
      p := ListenTaken(t);
    } else {
      p := if t[0] == Question then QuestionMark
           else if t[0] != Help then WhatCanYouDo
           else if Has(t, 1, Word("me")) then HelpMe
           else HelpPhrase;
    }
  }

  lemma ImportTaken(t: seq<Token>) returns (p: Phrase)
    requires Has(t, 0, Import) && Step(t).0.Some?
    ensures Begins(t, p) && |Tokens(p)| == Step(t).1 && Meaning(p) == Step(t).0.value
  {
    if Has(t, 2, From) && HasWord(t, 3) {
      p := ImportPhrase(Some(t[3].text),
        if Has(t, 4, And) && Has(t, 5, Override) && Has(t, 6, Existing) then AndOverrideExisting
        else if Has(t, 4, Overriding) && Has(t, 5, Existing) then OverridingExisting
        else Keep);
    } else {
      p := ImportPhrase(None,
        if Has(t, 2, And) && Has(t, 3, Override) && Has(t, 4, Existing) then AndOverrideExisting
        else if Has(t, 2, Overriding) && Has(t, 3, Existing) then OverridingExisting
        else Keep);
    }
  }

  lemma ListenTaken(t: seq<Token>) returns (p: Phrase)
    requires Has(t, 0, Listen) && NumbersArePlain(t) && Step(t).0.Some?
    ensures Begins(t, p) && |Tokens(p)| == Step(t).1 && Meaning(p) == Step(t).0.value
  {
    if HasWord(t, 2) && Has(t, 3, Port) && HasNumber(t, 4) {
      p := HostAndPort(t[2].text, t[4].text);
    } else if Has(t, 2, Port) {
      p := OnPort(t[3].text);
    } else {
      p := AddressTaken(t[2]);
    }
  }

  lemma AddressTaken(token: Token) returns (p: Phrase)
    requires token.Word? || (token.Number? && ':' !in token.text)
    ensures ColonsRight(p) && Tokens(p) == [Listen, On, token] && Meaning(p) == AddressAction(token)
  {
    var i := IndexOf(token.text, ':');
    FirstIndex(token.text, ':');
    if i == |token.text| {
      p := if token.Number? then JustPort(token.text) else JustHost(token.text);
    } else {
      assert token.text == token.text[..i] + ":" + token.text[i + 1..];
      p := Address(token.text[..i], token.text[i + 1..]);
    }
  }

  ghost predicate IsLongest(t: seq<Token>, p: Phrase) {
    Begins(t, p) && forall q | Begins(t, q) :: |Tokens(q)| <= |Tokens(p)|
  }

  /** On any tokens: the longest documented phrase at this point is taken and nothing else; if
      there is none, one token is skipped. */
  lemma LongestPhraseIsTaken(t: seq<Token>)
    requires t != [] && NumbersArePlain(t)
    ensures var (action, n) := Step(t);
      match action
      case None => n == 1 && forall p :: !Begins(t, p)
      case Some(a) => exists p :: IsLongest(t, p) && n == |Tokens(p)| && a == Meaning(p)
  {
    forall p | Begins(t, p) ensures Step(t).0.Some? && |Tokens(p)| <= Step(t).1 {
      NoLongerPhrase(t, p);
    }
    if Step(t).0.Some? {
      var p := PhraseTaken(t);
      assert IsLongest(t, p);
    } else {
      StepSkipsOne(t);
    }
  }

  lemma StepSkipsOne(t: seq<Token>)
    requires t != [] && Step(t).0.None?
    ensures Step(t).1 == 1
  {
  }

  /** So the meaning is well defined: phrases with the same tokens mean the same. */
  lemma PhrasesAreUnambiguous(p: Phrase, q: Phrase)
    requires ColonsRight(p) && ColonsRight(q) && Tokens(p) == Tokens(q)
    ensures Meaning(p) == Meaning(q)
  {
    var t := Tokens(p);
    assert t[0] == Tokens(q)[0] && |t| == |Tokens(q)|;
    if t[0] == Import {
      SameImport(p, q);
    } else if t[0] == Listen {
      SameListen(p, q);
    }
  }

  lemma SameImport(p: Phrase, q: Phrase)
    requires p.ImportPhrase? && q.ImportPhrase? && Tokens(p) == Tokens(q)
    ensures p == q
  {
    var t, u := Tokens(p), Tokens(q);
    forall k | 0 <= k < |t| ensures t[k] == u[k] {
    }
    if |t| > 2 {
      assert t[2] == u[2];
    }
    if |t| > 3 {
      assert t[3] == u[3];
    }
  }

  lemma SameListen(p: Phrase, q: Phrase)
    requires ColonsRight(p) && ColonsRight(q) && Tokens(p) == Tokens(q) && Tokens(p)[0] == Listen
    ensures Meaning(p) == Meaning(q)
  {
    var t, u := Tokens(p), Tokens(q);
    assert t[2] == u[2];
    if |t| > 3 {
      assert t[3] == u[3];
    }
    if |t| > 4 {
      assert t[4] == u[4];
    }
    if p.Address? {
      SplitOnceBehind(p.host, p.port);
    }
    if q.Address? {
      SplitOnceBehind(q.host, q.port);
    }
    if p.JustHost? {
      SplitOnceBehind(p.host, "");
    }
    if q.JustHost? {
      SplitOnceBehind(q.host, "");
    }
  }
}
