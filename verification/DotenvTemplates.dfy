/** Values with references: a printed file of templates loads to what its references mean. */
module DotenvTemplates {
  import opened Wrappers
  import opened Sequences
  import opened DotenvParse
  import opened DotenvLines
  import opened DotenvLoad
  import opened DotenvRoundTrip

  datatype Piece = Text(text: string) | Reference(name: string)

  type Template = seq<Piece>

  type Assignments = seq<(string, Template)>

  function RenderPiece(p: Piece): string {
    match p
    case Text(text) => EscapeText(text)
    case Reference(name) => "${" + name + "}"
  }

  function Render(t: Template): string {
    if t == [] then "" else RenderPiece(t[0]) + Render(t[1..])
  }

  function PrintAssignment(a: (string, Template)): string {
    a.0 + "=" + (['"'] + Render(a.1) + ['"'])
  }

  function PrintAssignments(a: Assignments): string {
    if a == [] then "" else PrintAssignment(a[0]) + "\n" + PrintAssignments(a[1..])
  }

  function PieceMeaning(ctx: Context, p: Piece): string {
    match p
    case Text(text) => text
    case Reference(name) => Substitute(ctx, name)
  }

  function Meaning(ctx: Context, t: Template): string {
    if t == [] then "" else PieceMeaning(ctx, t[0]) + Meaning(ctx, t[1..])
  }

  /** Assignments take effect one by one: each sees the values of those before it. */
  function Meanings(ctx: Context, a: Assignments): seq<Item>
    decreases |a|
  {
    if a == [] then [] else
      var value := Meaning(ctx, a[0].1);
      [(a[0].0, value)] + Meanings(ctx.(data := ctx.data[a[0].0 := Some(value)]), a[1..])
  }

  /** A name inside braces ends at the first closing brace; quotes and backslashes in it would
      reach the line splitter. */
  predicate LegalName(name: string) {
    forall c <- name :: c != '}' && c != '"' && c != '\\'
  }

  predicate LegalTemplate(t: Template) {
    forall p <- t :: p.Reference? ==> LegalName(p.name)
  }

  predicate LegalAssignments(a: Assignments) {
    forall x <- a :: LegalKey(x.0) && LegalTemplate(x.1)
  }

  /** What `char::is_alphanumeric` says of the characters around a name. */
  predicate PunctuationIsNotAlphanumeric(alnum: char -> bool) {
    !alnum('{') && !alnum('}') && !alnum('"')
  }

  // ----- The value parser expands references

  /** The characters of a name are collected. */
  lemma {:induction false} NameIsCollected(ctx: Context, st: ValueState, name: string)
    requires st.mode.EscapedBlock? || (st.mode.Block? && forall c <- name :: ctx.alnum(c))
    requires !st.expectingEnd && !st.escaped && !st.strong && '}' !in name
    ensures Run(ctx, st, name) == Continue(st.(name := st.name + name))
    decreases |name|
  {
    if name == "" {
      assert st.name + name == st.name;
    } else {
      assert name[0] in name;
      NameIsCollected(ctx, st.(name := st.name + [name[0]]), name[1..]);
    }
  }

  lemma ReferenceIsExpanded(ctx: Context, output: string, name: string)
    requires LegalName(name) && PunctuationIsNotAlphanumeric(ctx.alnum)
    ensures Run(ctx, WEAK.(output := output), "${" + name + "}")
         == Continue(WEAK.(output := output + Substitute(ctx, name)))
  {
    var st := WEAK.(output := output);
    RunCharacter(ctx, st, '$');
    RunCharacter(ctx, st.(mode := Block), '{');
    RunAppend(ctx, st, ['$'], ['{']);
    assert ['$'] + ['{'] == "${";
    NameIsCollected(ctx, st.(mode := EscapedBlock), name);
    NothingBefore(name);
    RunAppend(ctx, st, "${", name);
    RunCharacter(ctx, st.(mode := EscapedBlock, name := name), '}');
    RunAppend(ctx, st, "${" + name, ['}']);
  }

  lemma {:induction false} TemplateIsExpanded(ctx: Context, output: string, t: Template)
    requires LegalTemplate(t) && PunctuationIsNotAlphanumeric(ctx.alnum)
    ensures Run(ctx, WEAK.(output := output), Render(t)) == Continue(WEAK.(output := output + Meaning(ctx, t)))
    decreases |t|
  {
    if t == [] {
      assert output + "" == output;
    } else {
      var meaning := PieceMeaning(ctx, t[0]);
      assert Run(ctx, WEAK.(output := output), RenderPiece(t[0])) == Continue(WEAK.(output := output + meaning)) by {
        match t[0]
        case Text(text) => EscapedText(ctx, output, text);
        case Reference(name) => ReferenceIsExpanded(ctx, output, name);
      }
      RunAppend(ctx, WEAK.(output := output), RenderPiece(t[0]), Render(t[1..]));
      TemplateIsExpanded(ctx, output + meaning, t[1..]);
      Regroup(output, meaning, Meaning(ctx, t[1..]));
    }
  }

  /** A double-quoted template is read as its meaning. */
  lemma TemplateExpands(ctx: Context, t: Template)
    requires LegalTemplate(t) && PunctuationIsNotAlphanumeric(ctx.alnum) && NoEmptyKey(ctx)
    ensures ParseValue(ctx, ['"'] + Render(t) + ['"']) == Ok(Meaning(ctx, t))
  {
    TemplateIsExpanded(ctx, "", t);
    NothingBefore(Meaning(ctx, t));
    BetweenQuotes(ctx, '"', Render(t), Meaning(ctx, t));
  }

  /** Outside quotes a reference needs no braces. */
  lemma BareReferenceExpands(ctx: Context, name: string)
    requires forall c <- name :: ctx.alnum(c)
    requires PunctuationIsNotAlphanumeric(ctx.alnum) && NoEmptyKey(ctx)
    ensures ParseValue(ctx, ['$'] + name) == Ok(Substitute(ctx, name))
  {
    var input, st := ['$'] + name, VALUE_INIT.(mode := Block);
    assert '}' !in name;
    RunCharacter(ctx, VALUE_INIT, '$');
    NameIsCollected(ctx, st, name);
    NothingBefore(name);
    RunAppend(ctx, VALUE_INIT, ['$'], name);
    assert input[0..] == input;
    RunReads(ctx, VALUE_INIT, input, 0);
    NothingBefore(Substitute(ctx, name));
  }

  function References(names: seq<string>): string {
    if names == [] then "" else ['$'] + names[0] + References(names[1..])
  }

  function Substituted(ctx: Context, names: seq<string>): string {
    if names == [] then "" else Substitute(ctx, names[0]) + Substituted(ctx, names[1..])
  }

  predicate AlphanumericNames(ctx: Context, names: seq<string>) {
    forall name <- names :: forall c <- name :: ctx.alnum(c)
  }

  lemma {:induction false} ReferencesRun(ctx: Context, st: ValueState, names: seq<string>)
    requires AlphanumericNames(ctx, names) && names != [] && !ctx.alnum('$') && !ctx.alnum('}')
    requires st == VALUE_INIT.(mode := Block, name := st.name, output := st.output)
    ensures var end := Run(ctx, st, References(names));
      && end.Continue? && end.st == VALUE_INIT.(mode := Block, name := end.st.name, output := end.st.output)
      && Expand(ctx, end.st).output == st.output + Substitute(ctx, st.name) + Substituted(ctx, names)
    decreases |names|
  {
    var name, value := names[0], Substitute(ctx, st.name);
    assert name in names && '}' !in name;
    var expanded := st.(name := "", output := st.output + value);
    RunCharacter(ctx, st, '$');
    NameIsCollected(ctx, expanded, name);
    NothingBefore(name);
    RunAppend(ctx, st, ['$'], name);
    RunAppend(ctx, st, ['$'] + name, References(names[1..]));
    var next := expanded.(name := name);
    Regroup(st.output + value, Substitute(ctx, name), Substituted(ctx, names[1..]));
    if |names| > 1 {
      assert forall n <- names[1..] :: n in names;
      ReferencesRun(ctx, next, names[1..]);
    } else {
      assert References(names[1..]) == "" && Substituted(ctx, names[1..]) == "";
      assert Substitute(ctx, name) + "" == Substitute(ctx, name);
    }
  }

  /** References without braces, one directly behind the other: each is expanded. */
  lemma ReferencesExpand(ctx: Context, names: seq<string>)
    requires AlphanumericNames(ctx, names) && NoEmptyKey(ctx) && !ctx.alnum('$') && !ctx.alnum('}') && names != []
    ensures ParseValue(ctx, References(names)) == Ok(Substituted(ctx, names))
  {
    var input, st := References(names), VALUE_INIT.(mode := Block);
    assert input[0] == '$' && Run(ctx, VALUE_INIT, input) == Run(ctx, st, input[1..]);
    assert Run(ctx, st, input) == Run(ctx, st, input[1..]) by {
      assert "" + Substitute(ctx, "") == "";
    }
    ReferencesRun(ctx, st, names);
    assert "" + "" + Substituted(ctx, names) == Substituted(ctx, names);
    assert input[0..] == input;
    RunReads(ctx, VALUE_INIT, input, 0);
  }

  /** Inside double quotes it does: the closing quote ends the name and is then taken as text,
      so the quote stays open and the value is an error. */
  lemma BareReferenceEatsTheQuote(ctx: Context, name: string)
    requires forall c <- name :: ctx.alnum(c)
    requires PunctuationIsNotAlphanumeric(ctx.alnum)
    ensures ParseValue(ctx, ['"'] + (['$'] + name) + ['"']).Err?
  {
    var input, st := ['"'] + (['$'] + name) + ['"'], WEAK.(mode := Block);
    assert '}' !in name;
    RunCharacter(ctx, VALUE_INIT, '"');
    RunCharacter(ctx, WEAK, '$');
    NameIsCollected(ctx, st, name);
    NothingBefore(name);
    RunAppend(ctx, WEAK, ['$'], name);
    RunAppend(ctx, VALUE_INIT, ['"'], ['$'] + name);
    RunCharacter(ctx, st.(name := name), '"');
    RunAppend(ctx, VALUE_INIT, ['"'] + (['$'] + name), ['"']);
    assert input[0..] == input;
    RunReads(ctx, VALUE_INIT, input, 0);
  }

  /** A character that ends a bare name instead: the reference is expanded and the character is
      text, even if it is a quote or a backslash. */
  lemma BareReferenceInQuotesExpands(ctx: Context, before: string, name: string, c: char, rest: string)
    requires (forall d <- name :: ctx.alnum(d)) && NoEmptyKey(ctx) && PunctuationIsNotAlphanumeric(ctx.alnum)
    requires !ctx.alnum(c) && c != '$' && (name == "" ==> c != '{')
    ensures ParseValue(ctx, ['"'] + (EscapeText(before) + (['$'] + name + [c]) + EscapeText(rest)) + ['"'])
         == Ok(before + Substitute(ctx, name) + [c] + rest)
  {
    var output := before + Substitute(ctx, name) + [c];
    BareReference(ctx, before, name, c);
    EscapedText(ctx, "", before);
    NothingBefore(before);
    RunAppend(ctx, WEAK, EscapeText(before), ['$'] + name + [c]);
    RunAppend(ctx, WEAK, EscapeText(before) + (['$'] + name + [c]), EscapeText(rest));
    EscapedText(ctx, output, rest);
    BetweenQuotes(ctx, '"', EscapeText(before) + (['$'] + name + [c]) + EscapeText(rest), output + rest);
  }

  lemma BareReference(ctx: Context, output: string, name: string, c: char)
    requires (forall d <- name :: ctx.alnum(d)) && PunctuationIsNotAlphanumeric(ctx.alnum)
    requires !ctx.alnum(c) && c != '$' && (name == "" ==> c != '{')
    ensures Run(ctx, WEAK.(output := output), ['$'] + name + [c])
         == Continue(WEAK.(output := output + Substitute(ctx, name) + [c]))
  {
    var st, block := WEAK.(output := output), WEAK.(output := output, mode := Block);
    assert '}' !in name;
    RunCharacter(ctx, st, '$');
    NameIsCollected(ctx, block, name);
    NothingBefore(name);
    RunAppend(ctx, st, ['$'], name);
    RunCharacter(ctx, block.(name := name), c);
    RunAppend(ctx, st, ['$'] + name, [c]);
  }

  // ----- The splitter keeps a printed template on one logical line

  lemma {:induction false} PlainKeepsWeak(s: string, j: nat)
    requires j <= |s| && forall c <- s :: c != '"' && c != '\\'
    ensures EndState(WeakOpen, s[..j]).1.WeakOpen?
    decreases |s|
  {
    if j > 0 {
      assert s[..j][1..] == s[1..][..j - 1] && s[0] in s;
      assert forall c <- s[1..] :: c in s;
      PlainKeepsWeak(s[1..], j - 1);
    }
  }

  lemma PieceStaysOpen(p: Piece, j: nat)
    requires (p.Reference? ==> LegalName(p.name)) && j <= |RenderPiece(p)|
    ensures var st := EndState(WeakOpen, RenderPiece(p)[..j]).1;
      (st.WeakOpen? || st.WeakOpenEscape?) && (j == |RenderPiece(p)| ==> st.WeakOpen?)
  {
    match p
    case Text(text) => EscapesStayOpen(text, j);
    case Reference(name) => PlainKeepsWeak("${" + name + "}", j);
  }

  lemma PrefixOfTwo(first: string, later: string, j: nat)
    requires j <= |first + later|
    ensures (first + later)[..j] == if j < |first| then first[..j] else first + later[..j - |first|]
  {
  }

  lemma {:induction false} TemplateStaysOpen(t: Template, j: nat)
    requires LegalTemplate(t) && j <= |Render(t)|
    ensures var st := EndState(WeakOpen, Render(t)[..j]).1;
      (st.WeakOpen? || st.WeakOpenEscape?) && (j == |Render(t)| ==> st.WeakOpen?)
    decreases |t|
  {
    if t != [] {
      var first, later := RenderPiece(t[0]), Render(t[1..]);
      PrefixOfTwo(first, later, j);
      if j < |first| {
        PieceStaysOpen(t[0], j);
      } else {
        PieceStaysOpen(t[0], |first|);
        assert first[..|first|] == first;
        EndStateAppend(WeakOpen, first, later[..j - |first|]);
        TemplateStaysOpen(t[1..], j - |first|);
      }
    }
  }

  lemma AssignmentIsOneLine(a: (string, Template), tail: string)
    requires LegalKey(a.0) && LegalTemplate(a.1)
    ensures LogicalLine(PrintAssignment(a) + "\n" + tail, "", Complete) == (Some(Ok(PrintAssignment(a))), tail)
  {
    var b, body := PrintAssignment(a), Render(a.1);
    forall j | 0 <= j <= |body| ensures IsOpen(EndState(WeakOpen, body[..j]).1) {
      TemplateStaysOpen(a.1, j);
    }
    OpenBetweenQuotes(a.0, '"', body);
    TemplateStaysOpen(a.1, |body|);
    assert body[..|body|] == body;
    ClosingQuote(a.0, '"', body);
    assert b[0] == a.0[0] && b[|b| - 1] == '"';
    OneLineFromStart(b, "\n", tail);
  }

  lemma AssignmentParses(ctx: Context, a: (string, Template))
    requires LegalKey(a.0) && LegalTemplate(a.1)
    requires PunctuationIsNotAlphanumeric(ctx.alnum) && NoEmptyKey(ctx)
    ensures ParseLine(ctx, PrintAssignment(a))
         == (Ok(Some((a.0, Meaning(ctx, a.1)))), ctx.data[a.0 := Some(Meaning(ctx, a.1))])
  {
    var value := ['"'] + Render(a.1) + ['"'];
    assert value[0] == '"' && value[|value| - 1] == '"';
    HeadOfAssignment(a.0, value);
    TemplateExpands(ctx, a.1);
  }

  lemma AssignmentIsNext(ctx: Context, a: (string, Template), tail: string)
    requires LegalKey(a.0) && LegalTemplate(a.1)
    requires PunctuationIsNotAlphanumeric(ctx.alnum) && NoEmptyKey(ctx)
    ensures NextItem(ctx, PrintAssignment(a) + "\n" + tail)
         == (Some(Ok((a.0, Meaning(ctx, a.1)))), tail, ctx.data[a.0 := Some(Meaning(ctx, a.1))])
  {
    AssignmentIsOneLine(a, tail);
    AssignmentParses(ctx, a);
  }

  /** Reading back a printed file of templates evaluates its assignments in order: a reference
      is the environment's value, else the value assigned earlier in the file, else nothing. */
  lemma {:induction false} TemplatesMeanWhatTheySay(ctx: Context, a: Assignments)
    requires LegalAssignments(a) && PunctuationIsNotAlphanumeric(ctx.alnum) && NoEmptyKey(ctx)
    ensures Items(ctx, PrintAssignments(a)) == OkItems(Meanings(ctx, a))
    decreases |a|
  {
    if a != [] {
      var value := Meaning(ctx, a[0].1);
      AssignmentIsNext(ctx, a[0], PrintAssignments(a[1..]));
      TemplatesMeanWhatTheySay(ctx.(data := ctx.data[a[0].0 := Some(value)]), a[1..]);
    }
  }

  /** Two lines, the second referring to a name: the environment decides, then the first line,
      and a name that neither knows is nothing. */
  lemma EarlierLineIsSeen(ctx: Context, key: string, text: string, other: string, name: string)
    requires LegalKey(key) && LegalKey(other) && LegalName(name) && name != "" && ctx.data == map[]
    requires PunctuationIsNotAlphanumeric(ctx.alnum)
    ensures Items(ctx, PrintAssignments([(key, [Text(text)]), (other, [Reference(name)])])) ==
      [Ok((key, text)),
       Ok((other, if name in ctx.env then ctx.env[name] else if name == key then text else ""))]
  {
    var (first, second) := ((key, [Text(text)]), (other, [Reference(name)]));
    var a := [first, second];
    assert a[1..] == [second];
    TemplatesMeanWhatTheySay(ctx, a);
    MeaningOfOne(ctx, Text(text));
    var later := ctx.(data := ctx.data[key := Some(text)]);
    MeaningOfOne(later, Reference(name));
    assert Meanings(later, [second]) == [(other, Substitute(later, name))] by {
      assert [second][1..] == [];
    }
    assert Meanings(ctx, a) == [(key, text)] + Meanings(later, [second]);
    assert Meanings(ctx, a) == [(key, text), (other, Substitute(later, name))];
    TwoOkItems((key, text), (other, Substitute(later, name)));
  }

  lemma MeaningOfOne(ctx: Context, p: Piece)
    ensures Meaning(ctx, [p]) == PieceMeaning(ctx, p)
  {
    assert [p][1..] == [] && PieceMeaning(ctx, p) + "" == PieceMeaning(ctx, p);
  }

  lemma TwoOkItems(a: Item, b: Item)
    ensures OkItems([a, b]) == [Ok(a), Ok(b)]
  {
    assert [a, b][1..] == [b] && [b][1..] == [];
    var x: ItemResult, y: ItemResult := Ok(a), Ok(b);
    assert OkItems([b]) == [y] + [] == [y];
    assert [x] + [y] == [x, y];
  }
}
