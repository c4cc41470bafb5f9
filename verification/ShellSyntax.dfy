/** The language of the shell, stated on the text alone (user/sh.c).

    A line is written as a tree of concrete syntax: words and redirections in any order, blocks in parentheses,
    pipelines, any number of '&', and ';'. Its tokens are written one after the other with any space between them that
    keeps them apart. The parser accepts a text exactly when it is such a writing, and gives back what it means. */
module ShellSyntax {
  import opened Shell

  // ---- Texts and tokens -----------------------------------------------------------------------------------------

  function Spelling(tok: Token): string {
    match tok
    case End => ""
    case Sym(c) => [c]
    case Append => ">>"
    case Word(w) => w
  }

  predicate IsToken(tok: Token) {
    match tok
    case End => false
    case Sym(c) => IsSymbol(c)
    case Append => true
    case Word(w) => PlainWord(w)
  }

  predicate Blank(gap: string) {
    forall i :: 0 <= i < |gap| ==> IsSpace(gap[i])
  }

  /** Written without a space between them, the two tokens would read as something else. */
  predicate RunTogether(a: Token, b: Token) {
    (a.Word? && b.Word?) || (a == Sym('>') && (b == Sym('>') || b == Append))
  }

  /** A gap before every token and one at the end. */
  predicate Spaced(toks: seq<Token>, gaps: seq<string>) {
    && |gaps| == |toks| + 1
    && (forall i :: 0 <= i < |gaps| ==> Blank(gaps[i]))
    && (forall i :: 0 <= i < |toks| ==> IsToken(toks[i]))
    && (forall i :: 0 < i < |toks| && RunTogether(toks[i - 1], toks[i]) ==> gaps[i] != "")
  }

  function Layout(toks: seq<Token>, gaps: seq<string>): string
    requires |gaps| == |toks| + 1
  {
    if toks == [] then gaps[0] else gaps[0] + (Spelling(toks[0]) + Layout(toks[1..], gaps[1..]))
  }

  /** The tokens of a text, as the parser takes them. */
  function Tokens(t: string): seq<Token>
    decreases |t|
  {
    if Skip(t) == "" then [] else [First(t)] + Tokens(Rest(t))
  }

  lemma TokensSkip(t: string)
    ensures Tokens(Skip(t)) == Tokens(t)
  {
    assert Skip(Skip(t)) == Skip(t);
  }

  lemma NextToken(t: string)
    requires Tokens(t) != []
    ensures Skip(t) != "" && First(t) == Tokens(t)[0] && Tokens(Rest(t)) == Tokens(t)[1..]
  {
    assert Tokens(t)[1..] == Tokens(Rest(t));
  }

  lemma {:induction false} SkipBlank(gap: string, t: string)
    requires Blank(gap)
    ensures Skip(gap + t) == Skip(t)
  {
    if gap == "" {
      assert gap + t == t;
    } else {
      assert (gap + t)[1..] == gap[1..] + t;
      SkipBlank(gap[1..], t);
    }
  }

  /** How a layout goes on after a token does not change it. */
  lemma LayoutAfter(toks: seq<Token>, gaps: seq<string>)
    requires toks != [] && Spaced(toks, gaps)
    ensures var t := Layout(toks[1..], gaps[1..]);
            && (toks[0].Word? ==> t == "" || !IsWordChar(t[0]))
            && (toks[0] == Sym('>') ==> t == "" || t[0] != '>')
  {
    var t := Layout(toks[1..], gaps[1..]);
    if gaps[1] != "" {
      assert t[0] == gaps[1][0];
    } else if |toks| > 1 {
      assert t[0] == Spelling(toks[1])[0];
      assert !RunTogether(toks[0], toks[1]);
    }
  }

  lemma SpelledFirst(tok: Token, t: string)
    requires IsToken(tok) && (tok.Word? ==> t == "" || !IsWordChar(t[0])) &&
             (tok == Sym('>') ==> t == "" || t[0] != '>')
    ensures var u := Spelling(tok) + t; Skip(u) == u && u != "" && TokenAt(u) == tok && u[TokenLen(u)..] == t
  {
    var u := Spelling(tok) + t;
    assert u[0] == Spelling(tok)[0];
    if tok.Word? {
      WordLenIs(tok.w, t);
      assert u[..|tok.w|] == tok.w;
    }
    assert u[|Spelling(tok)|..] == t;
  }

  /** However the tokens are spaced, they are read back. */
  lemma {:induction false} LayoutRead(toks: seq<Token>, gaps: seq<string>)
    requires Spaced(toks, gaps)
    ensures Tokens(Layout(toks, gaps)) == toks
    decreases |toks|
  {
    hide First, Rest, Skip, TokenAt, TokenLen, Spelling, IsToken, RunTogether;
    var t := Layout(toks, gaps);
    if toks == [] {
      SkipBlank(gaps[0], "");
      assert gaps[0] + "" == t;
      NothingLeft();
    } else {
      var more := Layout(toks[1..], gaps[1..]);
      LayoutAfter(toks, gaps);
      SpelledFirst(toks[0], more);
      SkipBlank(gaps[0], Spelling(toks[0]) + more);
      ReadOne(t, toks[0], more);
      SpacedRest(toks, gaps);
      LayoutRead(toks[1..], gaps[1..]);
      assert toks == [toks[0]] + toks[1..];
    }
  }

  lemma NothingLeft()
    ensures Skip("") == ""
  {
  }

  lemma ReadOne(t: string, tok: Token, more: string)
    requires var u := Skip(t); u != "" && TokenAt(u) == tok && u[TokenLen(u)..] == more
    ensures Tokens(t) == [tok] + Tokens(more)
  {
    hide TokenAt, TokenLen, Skip;
    TokensSkip(more);
  }

  lemma SpacedRest(toks: seq<Token>, gaps: seq<string>)
    requires toks != [] && Spaced(toks, gaps)
    ensures Spaced(toks[1..], gaps[1..])
  {
    hide Blank, IsToken, RunTogether;
    forall i | 0 < i < |toks[1..]| && RunTogether(toks[1..][i - 1], toks[1..][i]) ensures gaps[1..][i] != "" {
      assert RunTogether(toks[i + 1 - 1], toks[i + 1]);
    }
  }

  lemma {:induction false} SkipCut(t: string) returns (gap: string)
    ensures Blank(gap) && t == gap + Skip(t)
  {
    if t != "" && IsSpace(t[0]) {
      var g := SkipCut(t[1..]);
      var u := Skip(t);
      hide Skip, IsSpace;
      gap := [t[0]] + g;
      assert t == [t[0]] + (g + u);
    } else {
      gap := "";
    }
  }

  lemma TokenCut(u: string)
    requires u != "" && !IsSpace(u[0])
    ensures var tok, more := TokenAt(u), u[TokenLen(u)..];
            && IsToken(tok) && u == Spelling(tok) + more && TokenLen(u) > 0
            && (tok.Word? ==> more == "" || !IsWordChar(more[0]))
            && (tok == Sym('>') ==> more == "" || more[0] != '>')
  {
    if u[0] == '>' {
      assert u == u[..1] + u[1..];
      if |u| > 1 && u[1] == '>' { assert u == u[..2] + u[2..]; }
    } else if IsSymbol(u[0]) {
      assert u == u[..1] + u[1..];
    } else {
      assert u == u[..WordLen(u)] + u[WordLen(u)..];
    }
  }

  /** The first character of a token that has no space before it. */
  lemma TightStart(toks: seq<Token>, gaps: seq<string>)
    requires toks != [] && Spaced(toks, gaps) && gaps[0] == ""
    ensures var t := Layout(toks, gaps); t != "" && t[0] == Spelling(toks[0])[0]
    ensures Spelling(toks[0]) != ""
  {
  }

  /** Every text is a layout of its tokens. */
  lemma {:induction false} TokensLaid(t: string) returns (gaps: seq<string>)
    ensures Spaced(Tokens(t), gaps) && t == Layout(Tokens(t), gaps)
    decreases |t|
  {
    hide TokenAt, TokenLen, Spelling, IsToken, Blank, Skip, IsWordChar;
    var gap := SkipCut(t);
    var u := Skip(t);
    if u == "" {
      assert t == gap;
      return [gap];
    }
    TokenCut(u);
    var tok, more := TokenAt(u), u[TokenLen(u)..];
    var tail := TokensLaid(more);
    ReadOne(t, tok, more);
    gaps := [gap] + tail;
    var toks := Tokens(t);
    assert toks[1..] == Tokens(more) && gaps[1..] == tail;
    if Tokens(more) != [] && tail[0] == "" {
      TightStart(Tokens(more), tail);
      Apart(tok, Tokens(more)[0], more);
    }
    forall i | 0 < i < |toks| && RunTogether(toks[i - 1], toks[i]) ensures gaps[i] != "" {
      if i > 1 { assert RunTogether(Tokens(more)[i - 1 - 1], Tokens(more)[i - 1]); }
    }
  }

  lemma Apart(a: Token, b: Token, more: string)
    requires IsToken(b) && more != "" && Spelling(b) != "" && more[0] == Spelling(b)[0]
    requires (a.Word? ==> !IsWordChar(more[0])) && (a == Sym('>') ==> more[0] != '>')
    ensures !RunTogether(a, b)
  {
  }

  /** The text is the tokens, spaced in some way. */
  ghost predicate Laid(t: string, toks: seq<Token>) {
    exists gaps :: Spaced(toks, gaps) && t == Layout(toks, gaps)
  }

  /** A text has the tokens exactly when it is a layout of them. */
  lemma TokensIffLaid(t: string, toks: seq<Token>)
    ensures Tokens(t) == toks <==> Laid(t, toks)
  {
    hide Tokens, Layout;
    if Tokens(t) == toks {
      var gaps := TokensLaid(t);
    }
    if Laid(t, toks) {
      var gaps :| Spaced(toks, gaps) && t == Layout(toks, gaps);
      LayoutRead(toks, gaps);
    }
  }

  // ---- Concrete syntax, its tokens and its meaning ------------------------------------------------------------------

  datatype Item = Arg(w: string) | Redirect(file: string, kind: Kind)

  datatype Atom = Simple(items: seq<Item>) | Paren(body: Script, after: seq<Item>)

  datatype Pipes = Last(atom: Atom) | Into(atom: Atom, next: Pipes)

  /** backs counts the '&'s. */
  datatype Script = Only(pipes: Pipes, backs: nat) | Then(pipes: Pipes, backs: nat, rest: Script)

  function Arrow(k: Kind): Token {
    match k
    case Input => Sym('<')
    case Output => Sym('>')
    case OutputAppend => Append
  }

  function ItemTokens(items: seq<Item>): seq<Token> {
    if items == [] then []
    else (match items[0]
          case Arg(w) => [Word(w)]
          case Redirect(f, k) => [Arrow(k), Word(f)]) + ItemTokens(items[1..])
  }

  function Ampersands(n: nat): seq<Token> {
    if n == 0 then [] else [Sym('&')] + Ampersands(n - 1)
  }

  function AtomTokens(a: Atom): seq<Token> {
    match a
    case Simple(items) => ItemTokens(items)
    case Paren(body, after) => [Sym('(')] + (ScriptTokens(body) + ([Sym(')')] + ItemTokens(after)))
  }

  function PipesTokens(p: Pipes): seq<Token> {
    match p
    case Last(a) => AtomTokens(a)
    case Into(a, q) => AtomTokens(a) + ([Sym('|')] + PipesTokens(q))
  }

  function ScriptTokens(x: Script): seq<Token> {
    match x
    case Only(p, n) => PipesTokens(p) + Ampersands(n)
    case Then(p, n, y) => PipesTokens(p) + (Ampersands(n) + ([Sym(';')] + ScriptTokens(y)))
  }

  function ArgWords(items: seq<Item>): seq<string> {
    if items == [] then [] else (if items[0].Arg? then [items[0].w] else []) + ArgWords(items[1..])
  }

  /** The command with the redirections among the items around it, the last one outermost: it is carried out first. */
  function Dressed(c: Tree, items: seq<Item>): Tree {
    if items == [] then c
    else
      var inner := Dressed(c, items[..|items| - 1]);
      match items[|items| - 1]
      case Arg(_) => inner
      case Redirect(f, k) => Redir(inner, f, k)
  }

  function InBack(c: Tree, n: nat): Tree {
    if n == 0 then c else Back(InBack(c, n - 1))
  }

  function AtomTree(a: Atom): Tree {
    match a
    case Simple(items) => Dressed(Exec(ArgWords(items)), items)
    case Paren(body, after) => Dressed(ScriptTree(body), after)
  }

  function PipesTree(p: Pipes): Tree {
    match p
    case Last(a) => AtomTree(a)
    case Into(a, q) => Pipe(AtomTree(a), PipesTree(q))
  }

  function ScriptTree(x: Script): Tree {
    match x
    case Only(p, n) => InBack(PipesTree(p), n)
    case Then(p, n, y) => List(InBack(PipesTree(p), n), ScriptTree(y))
  }

  predicate Redirections(items: seq<Item>) {
    forall i :: 0 <= i < |items| ==> items[i].Redirect?
  }

  /** At most nine words to a command, and only redirections after a block. */
  predicate AtomOk(a: Atom) {
    match a
    case Simple(items) => |ArgWords(items)| < MAXARGS
    case Paren(body, after) => ScriptOk(body) && Redirections(after)
  }

  predicate PipesOk(p: Pipes) {
    AtomOk(p.atom) && (p.Into? ==> PipesOk(p.next))
  }

  predicate ScriptOk(x: Script) {
    PipesOk(x.pipes) && (x.Then? ==> ScriptOk(x.rest))
  }

  /** The text is a writing of a line that means the tree. */
  ghost predicate Says(t: string, tree: Tree) {
    exists x :: ScriptOk(x) && ScriptTree(x) == tree && Laid(t, ScriptTokens(x))
  }

  // ---- What the parser looks at
  // ---------------------------------------------------------------------------------------

  predicate IsArrow(tok: Token) {
    tok == Sym('<') || tok == Sym('>') || tok == Append
  }

  predicate Starts(toks: seq<Token>, tok: Token) {
    toks != [] && toks[0] == tok
  }

  predicate StartsArrow(toks: seq<Token>) {
    toks != [] && IsArrow(toks[0])
  }

  /** What may come after a command. */
  predicate Ends(toks: seq<Token>) {
    toks == [] || Starts(toks, Sym('|')) || Starts(toks, Sym(')')) || Starts(toks, Sym('&')) || Starts(toks, Sym(';'))
  }

  /** The parser reads a command up to these tokens and no further. */
  predicate AtomStops(a: Atom, more: seq<Token>) {
    if a.Simple? then Ends(more) else !StartsArrow(more)
  }

  predicate PipesStop(p: Pipes, more: seq<Token>) {
    match p
    case Last(a) => AtomStops(a, more) && !Starts(more, Sym('|'))
    case Into(_, q) => PipesStop(q, more)
  }

  predicate ScriptStops(x: Script, more: seq<Token>) {
    match x
    case Only(p, n) => (n == 0 ==> PipesStop(p, more)) && !Starts(more, Sym('&')) && !Starts(more, Sym(';'))
    case Then(_, _, y) => ScriptStops(y, more)
  }

  lemma AheadIs(t: string)
    ensures var toks := Tokens(t);
            && (Skip(t) == "" <==> toks == [])
            && (Ahead(t, "<>") <==> StartsArrow(toks))
            && (Ahead(t, "|)&;") || Skip(t) == "" <==> Ends(toks))
            && (Ahead(t, "(") <==> Starts(toks, Sym('('))) && (Ahead(t, ")") <==> Starts(toks, Sym(')')))
            && (Ahead(t, "|") <==> Starts(toks, Sym('|'))) && (Ahead(t, "&") <==> Starts(toks, Sym('&')))
            && (Ahead(t, ";") <==> Starts(toks, Sym(';')))
  {
    hide Rest, Skip, WordLen;
  }

  // ---- Items -------------------------------------------------------------------------------------------------------

  function Reds(items: seq<Item>): seq<(string, Kind)> {
    if items == [] then []
    else (if items[0].Redirect? then [(items[0].file, items[0].kind)] else []) + Reds(items[1..])
  }

  lemma Assoc<T>(a: seq<T>, b: seq<T>, c: seq<T>)
    ensures a + (b + c) == (a + b) + c
  {
  }

  lemma {:induction false} ItemTokensAppend(a: seq<Item>, b: seq<Item>)
    ensures ItemTokens(a + b) == ItemTokens(a) + ItemTokens(b)
    decreases |a|
  {
    if a == [] {
      assert a + b == b;
    } else {
      var both := a + b;
      assert both[0] == a[0] && both[1..] == a[1..] + b;
      var head := match a[0]
                  case Arg(w) => [Word(w)]
                  case Redirect(f, k) => [Arrow(k), Word(f)];
      assert ItemTokens(both) == head + ItemTokens(both[1..]) && ItemTokens(a) == head + ItemTokens(a[1..]);
      hide ItemTokens;
      ItemTokensAppend(a[1..], b);
      Assoc(head, ItemTokens(a[1..]), ItemTokens(b));
    }
  }

  lemma {:induction false} ArgWordsAppend(a: seq<Item>, b: seq<Item>)
    ensures ArgWords(a + b) == ArgWords(a) + ArgWords(b)
    decreases |a|
  {
    if a == [] {
      assert a + b == b;
    } else {
      var both := a + b;
      assert both[0] == a[0] && both[1..] == a[1..] + b;
      var head := if a[0].Arg? then [a[0].w] else [];
      assert ArgWords(both) == head + ArgWords(both[1..]) && ArgWords(a) == head + ArgWords(a[1..]);
      hide ArgWords;
      ArgWordsAppend(a[1..], b);
      Assoc(head, ArgWords(a[1..]), ArgWords(b));
    }
  }

  lemma {:induction false} RedsAppend(a: seq<Item>, b: seq<Item>)
    ensures Reds(a + b) == Reds(a) + Reds(b)
    decreases |a|
  {
    if a == [] {
      assert a + b == b;
    } else {
      var both := a + b;
      assert both[0] == a[0] && both[1..] == a[1..] + b;
      var head := if a[0].Redirect? then [(a[0].file, a[0].kind)] else [];
      assert Reds(both) == head + Reds(both[1..]) && Reds(a) == head + Reds(a[1..]);
      hide Reds;
      RedsAppend(a[1..], b);
      Assoc(head, Reds(a[1..]), Reds(b));
    }
  }

  lemma ItemsAppend(a: seq<Item>, b: seq<Item>)
    ensures ItemTokens(a + b) == ItemTokens(a) + ItemTokens(b)
    ensures ArgWords(a + b) == ArgWords(a) + ArgWords(b)
    ensures Reds(a + b) == Reds(a) + Reds(b)
  {
    hide ItemTokens, ArgWords, Reds;
    ItemTokensAppend(a, b);
    ArgWordsAppend(a, b);
    RedsAppend(a, b);
  }

  lemma {:induction false} NoWords(items: seq<Item>)
    requires Redirections(items)
    ensures ArgWords(items) == []
  {
    if items != [] { NoWords(items[1..]); }
  }

  lemma {:induction false} WrapLast(c: Tree, rs: seq<(string, Kind)>, f: string, k: Kind)
    ensures Wrap(c, rs + [(f, k)]) == Redir(Wrap(c, rs), f, k)
    decreases |rs|
  {
    var more := rs + [(f, k)];
    if rs == [] {
      assert more[1..] == [];
    } else {
      assert more[1..] == rs[1..] + [(f, k)];
      WrapLast(Redir(c, rs[0].0, rs[0].1), rs[1..], f, k);
    }
  }

  lemma RedsLast(items: seq<Item>)
    requires items != []
    ensures var n := |items| - 1;
            Reds(items) == Reds(items[..n]) + if items[n].Redirect? then [(items[n].file, items[n].kind)] else []
  {
    var n := |items| - 1;
    ItemsAppend(items[..n], [items[n]]);
    assert items == items[..n] + [items[n]];
    OneItem(items[n]);
  }

  /** The redirections go around the command in the order in which they are written. */
  lemma {:induction false} DressedIsWrap(c: Tree, items: seq<Item>)
    ensures Dressed(c, items) == Wrap(c, Reds(items))
    decreases |items|
  {
    if items != [] {
      hide Wrap, Reds;
      var n := |items| - 1;
      RedsLast(items);
      DressedIsWrap(c, items[..n]);
      if items[n].Redirect? {
        WrapLast(c, Reds(items[..n]), items[n].file, items[n].kind);
      } else {
        assert Reds(items[..n]) + [] == Reds(items[..n]);
      }
    }
  }

  lemma OneItem(x: Item)
    ensures Reds([x]) == if x.Redirect? then [(x.file, x.kind)] else []
    ensures ArgWords([x]) == if x.Arg? then [x.w] else []
    ensures ItemTokens([x]) == if x.Arg? then [Word(x.w)] else [Arrow(x.kind), Word(x.file)]
  {
    assert [x][1..] == [];
  }

  /** How many redirections the items start with. */
  function Lead(items: seq<Item>): (n: nat)
    ensures n <= |items| && Redirections(items[..n]) && (n < |items| ==> items[n].Arg?)
  {
    if items == [] || items[0].Arg? then 0
    else
      var n := Lead(items[1..]);
      assert items[..n + 1] == [items[0]] + items[1..][..n];
      n + 1
  }

  // ---- What is written is parsed ------------------------------------------------------------------------------------

  lemma {:induction false} RedirsParsed(t: string, rs: seq<Item>, more: seq<Token>)
    requires Redirections(rs) && Tokens(t) == ItemTokens(rs) + more && !StartsArrow(more)
    ensures var r := Redirs(t); r.Ok? && r.value == Reds(rs) && Tokens(r.rest) == more
    decreases |rs|
  {
    hide Tokens, First, Rest, Skip, Ahead;
    AheadIs(t);
    TokensSkip(t);
    if rs == [] {
      assert ItemTokens(rs) + more == more;
    } else {
      var tail := ItemTokens(rs[1..]) + more;
      assert Tokens(t) == [Arrow(rs[0].kind), Word(rs[0].file)] + tail;
      NextToken(t);
      NextToken(Rest(t));
      assert Tokens(Rest(Rest(t))) == tail;
      RedirsParsed(Rest(Rest(t)), rs[1..], more);
    }
  }

  /** The items after some redirections, in front of something that ends a command. */
  lemma ItemsStart(items: seq<Item>, more: seq<Token>)
    requires Ends(more) && (items != [] ==> items[0].Arg?)
    ensures !StartsArrow(ItemTokens(items) + more)
  {
    if items == [] { assert ItemTokens(items) + more == more; }
  }

  lemma SplitLead(items: seq<Item>, more: seq<Token>)
    ensures var n := Lead(items);
            && ItemTokens(items) + more == ItemTokens(items[..n]) + (ItemTokens(items[n..]) + more)
            && Reds(items) == Reds(items[..n]) + Reds(items[n..]) && ArgWords(items) == ArgWords(items[n..])
  {
    var n := Lead(items);
    hide Lead;
    assert items == items[..n] + items[n..];
    ItemsAppend(items[..n], items[n..]);
    NoWords(items[..n]);
  }

  lemma ArgHead(items: seq<Item>)
    requires items != [] && items[0].Arg?
    ensures ItemTokens(items) == [Word(items[0].w)] + ItemTokens(items[1..])
    ensures ArgWords(items) == [items[0].w] + ArgWords(items[1..]) && Reds(items) == Reds(items[1..])
  {
    assert [] + Reds(items[1..]) == Reds(items[1..]);
  }

  lemma NoItems()
    ensures ItemTokens([]) == [] && ArgWords([]) == [] && Reds([]) == []
  {
  }

  /** The parser takes one word and the redirections behind it. */
  lemma OneArg(args: seq<string>, rs: seq<(string, Kind)>, t: string)
    requires Tokens(t) != [] && Tokens(t)[0].Word? && |args| + 1 < MAXARGS && Redirs(Rest(t)).Ok?
    ensures First(t) == Tokens(t)[0] && Tokens(Rest(t)) == Tokens(t)[1..] && |Redirs(Rest(t)).rest| < |t|
    ensures var r := Redirs(Rest(t)); Args(args, rs, t) == Args(args + [First(t).w], rs + r.value, r.rest)
  {
    hide Tokens, First, Rest, Skip, Ahead, Wrap, Redirs;
    AheadIs(t);
    NextToken(t);
    Shorter(t);
  }

  lemma NoArg(args: seq<string>, rs: seq<(string, Kind)>, t: string)
    requires Ends(Tokens(t))
    ensures var r := Args(args, rs, t); r.Ok? && r.value == Wrap(Exec(args), rs) && Tokens(r.rest) == Tokens(t)
  {
    hide Tokens, First, Rest, Skip, Ahead, Wrap, Redirs;
    AheadIs(t);
    TokensSkip(t);
  }

  lemma {:induction false} ArgsParsed(args: seq<string>, rs: seq<(string, Kind)>, t: string, items: seq<Item>,
                                      more: seq<Token>)
    requires Tokens(t) == ItemTokens(items) + more && Ends(more) && (items != [] ==> items[0].Arg?)
    requires |args| + |ArgWords(items)| < MAXARGS
    ensures var r := Args(args, rs, t);
            r.Ok? && r.value == Wrap(Exec(args + ArgWords(items)), rs + Reds(items)) && Tokens(r.rest) == more
    decreases |items|
  {
    hide Tokens, First, Rest, Args, Redirs, Wrap, Lead, Ends, ItemTokens, ArgWords, Reds;
    if items == [] {
      NoItems();
      assert [] + more == more;
      NoArg(args, rs, t);
      assert args + [] == args && rs + [] == rs;
    } else {
      var w, tail := items[0].w, items[1..];
      var n := Lead(tail);
      ArgHead(items);
      assert Tokens(t)[1..] == ItemTokens(tail) + more;
      SplitLead(tail, more);
      ItemsStart(tail[n..], more);
      NextToken(t);
      RedirsParsed(Rest(t), tail[..n], ItemTokens(tail[n..]) + more);
      OneArg(args, rs, t);
      ArgsParsed(args + [w], rs + Reds(tail[..n]), Redirs(Rest(t)).rest, tail[n..], more);
      assert args + [w] + ArgWords(tail[n..]) == args + ArgWords(items);
      assert rs + Reds(tail[..n]) + Reds(tail[n..]) == rs + Reds(items);
    }
  }

  lemma SimpleParsed(t: string, items: seq<Item>, more: seq<Token>)
    requires AtomOk(Simple(items)) && Tokens(t) == ItemTokens(items) + more && Ends(more)
    ensures var r := Command(t); r.Ok? && r.value == AtomTree(Simple(items)) && Tokens(r.rest) == more
  {
    hide Tokens, First, Rest, Skip, Ahead, Wrap, Lead, Redirs, Args, Block;
    var n := Lead(items);
    AheadIs(t);
    NoParen(items, more);
    SplitLead(items, more);
    ItemsStart(items[n..], more);
    RedirsParsed(t, items[..n], ItemTokens(items[n..]) + more);
    ArgsParsed([], Reds(items[..n]), Redirs(t).rest, items[n..], more);
    assert [] + ArgWords(items[n..]) == ArgWords(items);
    DressedIsWrap(Exec(ArgWords(items)), items);
  }

  lemma NoParen(items: seq<Item>, more: seq<Token>)
    requires Ends(more)
    ensures !Starts(ItemTokens(items) + more, Sym('('))
  {
    if items == [] { assert ItemTokens(items) + more == more; }
  }

  lemma ParenParsed(t: string, body: Script, after: seq<Item>, more: seq<Token>)
    requires Redirections(after) && Tokens(t) == AtomTokens(Paren(body, after)) + more && !StartsArrow(more)
    requires var r := Line(Rest(t));
             r.Ok? && r.value == ScriptTree(body) && Tokens(r.rest) == [Sym(')')] + ItemTokens(after) + more
    ensures var r := Command(t); r.Ok? && r.value == AtomTree(Paren(body, after)) && Tokens(r.rest) == more
  {
    hide Tokens, First, Rest, Skip, Ahead, Wrap, Redirs, Line, ScriptTree, ScriptTokens, ItemTokens, Ends;
    AheadIs(t);
    var u := Line(Rest(t)).rest;
    AheadIs(u);
    NextToken(u);
    assert Tokens(Rest(u)) == ItemTokens(after) + more;
    RedirsParsed(Rest(u), after, more);
    DressedIsWrap(ScriptTree(body), after);
  }

  /** Any part of a line stops in front of a symbol that ends it. */
  lemma {:induction false} PipesStopAt(p: Pipes, more: seq<Token>)
    requires Starts(more, Sym(')')) || Starts(more, Sym('&')) || Starts(more, Sym(';'))
    ensures PipesStop(p, more)
  {
    if p.Into? { PipesStopAt(p.next, more); }
  }

  lemma {:induction false} ScriptStopsAt(x: Script, more: seq<Token>)
    requires more == [] || Starts(more, Sym(')'))
    ensures ScriptStops(x, more)
  {
    if x.Then? {
      ScriptStopsAt(x.rest, more);
    } else if more != [] {
      PipesStopAt(x.pipes, more);
    } else {
      PipesStopAtEnd(x.pipes);
    }
  }

  lemma {:induction false} PipesStopAtEnd(p: Pipes)
    ensures PipesStop(p, [])
  {
    if p.Into? { PipesStopAtEnd(p.next); }
  }

  lemma AtomStopsAt(a: Atom, more: seq<Token>)
    requires Starts(more, Sym('|'))
    ensures AtomStops(a, more)
  {
  }

  lemma {:induction false} AtomParsed(t: string, a: Atom, more: seq<Token>)
    requires AtomOk(a) && Tokens(t) == AtomTokens(a) + more && AtomStops(a, more)
    ensures var r := Command(t); r.Ok? && r.value == AtomTree(a) && Tokens(r.rest) == more
    decreases a
  {
    hide Tokens, First, Rest, Skip, Ahead, Command, ScriptTokens, ItemTokens, AtomTree, Ends;
    match a {
      case Simple(items) => SimpleParsed(t, items, more);
      case Paren(body, after) =>
        var close := [Sym(')')] + ItemTokens(after) + more;
        assert Tokens(t) == [Sym('(')] + (ScriptTokens(body) + close);
        NextToken(t);
        assert Tokens(Rest(t)) == ScriptTokens(body) + close;
        ScriptStopsAt(body, close);
        ScriptParsed(Rest(t), body, close);
        ParenParsed(t, body, after, more);
    }
  }

  lemma {:induction false} PipesParsed(t: string, p: Pipes, more: seq<Token>)
    requires PipesOk(p) && Tokens(t) == PipesTokens(p) + more && PipesStop(p, more)
    ensures var r := Pipeline(t); r.Ok? && r.value == PipesTree(p) && Tokens(r.rest) == more
    decreases p
  {
    hide Tokens, First, Rest, Skip, Ahead, Command, AtomTokens, AtomTree;
    match p {
      case Last(a) =>
        AtomParsed(t, a, more);
        AheadIs(Command(t).rest);
        TokensSkip(Command(t).rest);
      case Into(a, q) =>
        var tail := [Sym('|')] + (PipesTokens(q) + more);
        assert Tokens(t) == AtomTokens(a) + tail;
        AtomStopsAt(a, tail);
        AtomParsed(t, a, tail);
        var u := Command(t).rest;
        AheadIs(u);
        NextToken(u);
        assert Tokens(Rest(u)) == PipesTokens(q) + more;
        PipesParsed(Rest(u), q, more);
    }
  }

  lemma {:induction false} BacksParsed(c: Tree, t: string, n: nat, more: seq<Token>)
    requires Tokens(t) == Ampersands(n) + more && !Starts(more, Sym('&'))
    ensures var r := Backs(c, t); r.0 == InBack(c, n) && Tokens(r.1) == more
    decreases n
  {
    hide Tokens, First, Rest, Skip, Ahead;
    AheadIs(t);
    TokensSkip(t);
    if n == 0 {
      assert Ampersands(n) + more == more;
    } else {
      NextToken(t);
      assert Tokens(Rest(t)) == Ampersands(n - 1) + more;
      BacksParsed(Back(c), Rest(t), n - 1, more);
      InBackInside(c, n - 1);
    }
  }

  lemma {:induction false} InBackInside(c: Tree, n: nat)
    ensures InBack(Back(c), n) == Back(InBack(c, n))
  {
    if n > 0 { InBackInside(c, n - 1); }
  }

  lemma AmpersandsStop(p: Pipes, n: nat, more: seq<Token>)
    requires (n == 0 ==> PipesStop(p, more)) || Starts(more, Sym(';'))
    ensures PipesStop(p, Ampersands(n) + more)
  {
    if n == 0 { assert Ampersands(n) + more == more; }
    if n > 0 || Starts(more, Sym(';')) { PipesStopAt(p, Ampersands(n) + more); }
  }

  /** A line up to its ';' or its end. */
  lemma PartParsed(t: string, p: Pipes, n: nat, more: seq<Token>)
    requires !Starts(more, Sym('&'))
    requires var r := Pipeline(t); r.Ok? && r.value == PipesTree(p) && Tokens(r.rest) == Ampersands(n) + more
    ensures var r := Pipeline(t);
            var b := Backs(r.value, r.rest);
            && b.0 == InBack(PipesTree(p), n) && Tokens(b.1) == more && (Ahead(b.1, ";") <==> Starts(more, Sym(';')))
            && Tokens(Skip(b.1)) == more
  {
    hide Tokens, Skip, Ahead, Backs, Pipeline, PipesTree, InBack;
    var r := Pipeline(t);
    BacksParsed(r.value, r.rest, n, more);
    AheadIs(Backs(r.value, r.rest).1);
    TokensSkip(Backs(r.value, r.rest).1);
  }

  lemma {:induction false} ScriptParsed(t: string, x: Script, more: seq<Token>)
    requires ScriptOk(x) && Tokens(t) == ScriptTokens(x) + more && ScriptStops(x, more)
    ensures var r := Line(t); r.Ok? && r.value == ScriptTree(x) && Tokens(r.rest) == more
    decreases x
  {
    hide Tokens, First, Rest, Skip, Ahead, Pipeline, PipesTokens, PipesTree, Backs, PipesStop, Ampersands, InBack;
    match x {
      case Only(p, n) =>
        assert Tokens(t) == PipesTokens(p) + (Ampersands(n) + more);
        AmpersandsStop(p, n, more);
        PipesParsed(t, p, Ampersands(n) + more);
        PartParsed(t, p, n, more);
      case Then(p, n, y) =>
        var tail := [Sym(';')] + (ScriptTokens(y) + more);
        assert Tokens(t) == PipesTokens(p) + (Ampersands(n) + tail);
        AmpersandsStop(p, n, tail);
        PipesParsed(t, p, Ampersands(n) + tail);
        PartParsed(t, p, n, tail);
        var v := Backs(Pipeline(t).value, Pipeline(t).rest).1;
        NextToken(v);
        assert Tokens(Rest(v)) == ScriptTokens(y) + more;
        ScriptParsed(Rest(v), y, more);
    }
  }

  // ---- What is parsed was written -----------------------------------------------------------------------------------

  lemma {:induction false} RedirsRead(t: string) returns (rs: seq<Item>)
    requires Redirs(t).Ok?
    ensures Redirections(rs) && Reds(rs) == Redirs(t).value
    ensures Tokens(t) == ItemTokens(rs) + Tokens(Redirs(t).rest) && !StartsArrow(Tokens(Redirs(t).rest))
    decreases |t|
  {
    hide Tokens, First, Rest, Skip, Ahead;
    AheadIs(t);
    TokensSkip(t);
    if !Ahead(t, "<>") {
      rs := [];
    } else {
      NextToken(t);
      var v := Rest(t);
      WordAhead(v);
      NextToken(v);
      Shorter(t);
      Shorter(v);
      var tail := RedirsRead(Rest(v));
      rs := [Redirect(First(v).w, KindOf(First(t)))] + tail;
      assert rs[1..] == tail;
      assert Arrow(KindOf(First(t))) == First(t);
      assert Tokens(t) == [First(t), First(v)] + Tokens(Rest(v));
    }
  }

  lemma WordAhead(t: string)
    requires First(t).Word?
    ensures Tokens(t) != []
  {
  }

  lemma Shorter(t: string)
    requires Tokens(t) != []
    ensures |Rest(t)| < |t|
  {
  }

  lemma ArgsGoOn(args: seq<string>, rs: seq<(string, Kind)>, t: string)
    requires Args(args, rs, t).Ok? && !Ends(Tokens(t))
    ensures Tokens(t) != [] && Tokens(t)[0].Word? && |args| + 1 < MAXARGS && Redirs(Rest(t)).Ok?
  {
    hide Tokens, First, Rest, Skip, Ahead, Wrap, Redirs;
    AheadIs(t);
    NextToken(t);
  }

  /** A word, redirections and further items put together. */
  lemma ItemsJoin(w: string, a: seq<Item>, b: seq<Item>)
    requires Redirections(a)
    ensures var items := [Arg(w)] + (a + b);
            && ItemTokens(items) == [Word(w)] + (ItemTokens(a) + ItemTokens(b))
            && ArgWords(items) == [w] + ArgWords(b) && Reds(items) == Reds(a) + Reds(b)
  {
    hide ItemTokens, ArgWords, Reds;
    var items := [Arg(w)] + (a + b);
    assert items[1..] == a + b;
    ArgHead(items);
    ItemsAppend(a, b);
    NoWords(a);
  }

  lemma {:induction false} ArgsRead(args: seq<string>, rs: seq<(string, Kind)>, t: string) returns (items: seq<Item>)
    requires Args(args, rs, t).Ok? && |args| < MAXARGS
    ensures var r := Args(args, rs, t);
            && r.value == Wrap(Exec(args + ArgWords(items)), rs + Reds(items)) && |args| + |ArgWords(items)| < MAXARGS
            && Tokens(t) == ItemTokens(items) + Tokens(r.rest) && Ends(Tokens(r.rest))
    decreases |t|
  {
    hide Tokens, First, Rest, Args, Redirs, Wrap, Ends, ItemTokens, ArgWords, Reds;
    if Ends(Tokens(t)) {
      items := [];
      NoItems();
      NoArg(args, rs, t);
      assert args + [] == args && rs + [] == rs;
    } else {
      ArgsGoOn(args, rs, t);
      OneArg(args, rs, t);
      var a := RedirsRead(Rest(t));
      var u, w := Redirs(Rest(t)).rest, First(t).w;
      var b := ArgsRead(args + [w], rs + Reds(a), u);
      items := [Arg(w)] + (a + b);
      ItemsJoin(w, a, b);
      assert args + [w] + ArgWords(b) == args + ArgWords(items);
      assert rs + Reds(a) + Reds(b) == rs + Reds(items);
      assert Tokens(t) == [Word(w)] + (ItemTokens(a) + (ItemTokens(b) + Tokens(Args(args, rs, t).rest)));
    }
  }

  lemma SimpleRead(t: string) returns (a: Atom)
    requires Command(t).Ok? && !Ahead(t, "(")
    ensures var r := Command(t);
            && AtomOk(a) && r.value == AtomTree(a)
            && Tokens(t) == AtomTokens(a) + Tokens(r.rest) && AtomStops(a, Tokens(r.rest))
  {
    hide Tokens, First, Rest, Skip, Ahead, Redirs, Args, Wrap, Block;
    var lead := RedirsRead(t);
    var items := ArgsRead([], Reds(lead), Redirs(t).rest);
    ItemsAppend(lead, items);
    NoWords(lead);
    a := Simple(lead + items);
    assert [] + ArgWords(items) == ArgWords(lead + items);
    DressedIsWrap(Exec(ArgWords(lead + items)), lead + items);
    assert Tokens(t) == ItemTokens(lead) + (ItemTokens(items) + Tokens(Command(t).rest));
  }

  lemma {:induction false} AtomRead(t: string) returns (a: Atom)
    requires Command(t).Ok?
    ensures var r := Command(t);
            && AtomOk(a) && r.value == AtomTree(a)
            && Tokens(t) == AtomTokens(a) + Tokens(r.rest) && AtomStops(a, Tokens(r.rest))
    decreases |t|, 1
  {
    hide Tokens, First, Rest, Skip, Ahead, Redirs, Args, Wrap, Line;
    if !Ahead(t, "(") {
      a := SimpleRead(t);
    } else {
      AheadIs(t);
      NextToken(t);
      Shorter(t);
      var body := ScriptRead(Rest(t));
      var u := Line(Rest(t)).rest;
      AheadIs(u);
      NextToken(u);
      var after := RedirsRead(Rest(u));
      a := Paren(body, after);
      DressedIsWrap(ScriptTree(body), after);
      assert Tokens(u) == [Sym(')')] + (ItemTokens(after) + Tokens(Command(t).rest));
      assert Tokens(t) == [Sym('(')] + (ScriptTokens(body) + Tokens(u));
    }
  }

  lemma {:induction false} PipesRead(t: string) returns (p: Pipes)
    requires Pipeline(t).Ok?
    ensures var r := Pipeline(t);
            && PipesOk(p) && r.value == PipesTree(p)
            && Tokens(t) == PipesTokens(p) + Tokens(r.rest) && PipesStop(p, Tokens(r.rest))
    decreases |t|, 2
  {
    hide Tokens, First, Rest, Skip, Ahead, Command, AtomTree, AtomTokens, AtomOk;
    var a := AtomRead(t);
    var u := Command(t).rest;
    AheadIs(u);
    TokensSkip(u);
    if !Ahead(u, "|") {
      p := Last(a);
    } else {
      NextToken(u);
      Shorter(u);
      var q := PipesRead(Rest(u));
      p := Into(a, q);
      assert Tokens(u) == [Sym('|')] + (PipesTokens(q) + Tokens(Pipeline(t).rest));
      assert Tokens(t) == AtomTokens(a) + Tokens(u);
    }
  }

  lemma {:induction false} BacksRead(c: Tree, t: string) returns (n: nat)
    ensures var r := Backs(c, t);
            r.0 == InBack(c, n) && Tokens(t) == Ampersands(n) + Tokens(r.1) && !Starts(Tokens(r.1), Sym('&'))
    decreases |t|
  {
    hide Tokens, First, Rest, Skip, Ahead;
    AheadIs(t);
    TokensSkip(t);
    if Ahead(t, "&") {
      NextToken(t);
      Shorter(t);
      var m := BacksRead(Back(c), Rest(t));
      n := m + 1;
      InBackInside(c, m);
      assert Tokens(t) == [Sym('&')] + (Ampersands(m) + Tokens(Backs(c, t).1));
    } else {
      n := 0;
      assert Tokens(t) == [] + Tokens(Skip(t));
    }
  }

  lemma {:induction false} ScriptRead(t: string) returns (x: Script)
    requires Line(t).Ok?
    ensures var r := Line(t);
            && ScriptOk(x) && r.value == ScriptTree(x)
            && Tokens(t) == ScriptTokens(x) + Tokens(r.rest) && ScriptStops(x, Tokens(r.rest))
    decreases |t|, 3
  {
    hide Tokens, First, Rest, Skip, Ahead, Pipeline, Backs, PipesTree, PipesTokens, PipesOk, InBack, Ampersands;
    var p := PipesRead(t);
    var r := Pipeline(t);
    var n := BacksRead(r.value, r.rest);
    var v := Backs(r.value, r.rest).1;
    AheadIs(v);
    TokensSkip(v);
    assert Tokens(t) == PipesTokens(p) + (Ampersands(n) + Tokens(v));
    if !Ahead(v, ";") {
      x := Only(p, n);
      if n == 0 { NoAmpersands(Tokens(v)); }
    } else {
      NextToken(v);
      Shorter(v);
      var y := ScriptRead(Rest(v));
      x := Then(p, n, y);
      assert Tokens(v) == [Sym(';')] + (ScriptTokens(y) + Tokens(Line(t).rest));
    }
  }

  lemma NoAmpersands(more: seq<Token>)
    ensures Ampersands(0) + more == more
  {
  }

  // ---- The theorem --------------------------------------------------------------------------------------------------

  lemma ParseTokens(t: string, tree: Tree)
    requires Parse(t) == Ok(tree, "")
    ensures exists x :: ScriptOk(x) && ScriptTree(x) == tree && Tokens(t) == ScriptTokens(x)
  {
    hide Tokens, Line, Skip, ScriptTree, ScriptTokens, ScriptOk;
    var x := ScriptRead(t);
    AheadIs(Line(t).rest);
    assert ScriptTokens(x) + [] == ScriptTokens(x);
  }

  lemma ScriptIsParsed(t: string, x: Script)
    requires ScriptOk(x) && Tokens(t) == ScriptTokens(x)
    ensures Parse(t) == Ok(ScriptTree(x), "")
  {
    hide Tokens, Line, Skip, ScriptTree, ScriptTokens, ScriptOk;
    assert ScriptTokens(x) + [] == ScriptTokens(x);
    ScriptStopsAt(x, []);
    ScriptParsed(t, x, []);
    AheadIs(Line(t).rest);
  }

  /** The shell takes a text for a command exactly when the text is a writing of a line, and it is the command that the
      line means. */
  lemma ParseIffSays(t: string, tree: Tree)
    ensures Parse(t) == Ok(tree, "") <==> Says(t, tree)
  {
    hide Parse, Laid, ScriptTree, ScriptTokens, ScriptOk;
    if Parse(t) == Ok(tree, "") {
      ParseTokens(t, tree);
      var x :| ScriptOk(x) && ScriptTree(x) == tree && Tokens(t) == ScriptTokens(x);
      TokensIffLaid(t, ScriptTokens(x));
    }
    if Says(t, tree) {
      var x :| ScriptOk(x) && ScriptTree(x) == tree && Laid(t, ScriptTokens(x));
      TokensIffLaid(t, ScriptTokens(x));
      ScriptIsParsed(t, x);
    }
  }

  /** No text means two commands. */
  lemma OneMeaning(t: string, a: Tree, b: Tree)
    requires Says(t, a) && Says(t, b)
    ensures a == b
  {
    hide Parse, Says;
    ParseIffSays(t, a);
    ParseIffSays(t, b);
  }

  // ---- Why a text is refused ----------------------------------------------------------------------------------------

  /** The tokens start with an arrow that no word follows. */
  predicate NoFile(toks: seq<Token>) {
    StartsArrow(toks) && (|toks| == 1 || !toks[1].Word?)
  }

  /** What cannot follow the items of a simple command that has n words. */
  predicate BadRest(e: Error, more: seq<Token>, n: nat) {
    match e
    case MissingFile => NoFile(more)
    case Syntax => Starts(more, Sym('('))
    case TooManyArgs => more != [] && more[0].Word? && n == MAXARGS - 1
    case _ => false
  }

  ghost predicate SimpleFaulty(e: Error, toks: seq<Token>) {
    exists items, more :: && toks == ItemTokens(items) + more && |ArgWords(items)| < MAXARGS
                          && BadRest(e, more, |ArgWords(items)|) && (items == [] ==> e != Syntax)
  }

  /** A block that is not closed, or that a redirection without a file follows. */
  ghost predicate BlockFaulty(e: Error, toks: seq<Token>) {
    match e
    case MissingParen =>
      exists x, more :: && ScriptOk(x) && ScriptStops(x, more) && !Starts(more, Sym(')'))
                        && toks == [Sym('(')] + (ScriptTokens(x) + more)
    case MissingFile =>
      exists x, after, more :: && ScriptOk(x) && Redirections(after) && NoFile(more)
                               && toks == AtomTokens(Paren(x, after)) + more
    case _ => false
  }

  /** Where in a line a command is expected: behind what has been read of the line, of the pipeline, and of the blocks
      around it. */
  datatype InAtom = Here | Inside(text: InScript)

  datatype InPipes = ThisAtom(within: InAtom) | NextAtom(atom: Atom, rest: InPipes)

  datatype InScript = ThisPart(within: InPipes) | NextPart(pipes: Pipes, backs: nat, rest: InScript)

  function AtomBefore(at: InAtom): seq<Token> {
    if at.Here? then [] else [Sym('(')] + ScriptBefore(at.text)
  }

  function PipesBefore(at: InPipes): seq<Token> {
    match at
    case ThisAtom(within) => AtomBefore(within)
    case NextAtom(a, rest) => AtomTokens(a) + ([Sym('|')] + PipesBefore(rest))
  }

  function ScriptBefore(at: InScript): seq<Token> {
    match at
    case ThisPart(within) => PipesBefore(within)
    case NextPart(p, n, rest) => PipesTokens(p) + (Ampersands(n) + ([Sym(';')] + ScriptBefore(rest)))
  }

  predicate AtomAtOk(at: InAtom) {
    at.Inside? ==> ScriptAtOk(at.text)
  }

  predicate PipesAtOk(at: InPipes) {
    match at
    case ThisAtom(within) => AtomAtOk(within)
    case NextAtom(a, rest) => AtomOk(a) && PipesAtOk(rest)
  }

  predicate ScriptAtOk(at: InScript) {
    match at
    case ThisPart(within) => PipesAtOk(within)
    case NextPart(p, _, rest) => PipesOk(p) && ScriptAtOk(rest)
  }

  ghost predicate CommandFaulty(e: Error, toks: seq<Token>) {
    SimpleFaulty(e, toks) || BlockFaulty(e, toks)
  }

  /** Something follows a whole line. */
  ghost predicate Overfull(toks: seq<Token>) {
    exists x, more :: ScriptOk(x) && ScriptStops(x, more) && more != [] && toks == ScriptTokens(x) + more
  }

  /** At a place where a command is expected, the rest of the text does not start with one. */
  ghost predicate Faulty(e: Error, toks: seq<Token>) {
    exists at, more :: ScriptAtOk(at) && CommandFaulty(e, more) && toks == ScriptBefore(at) + more
  }

  // a faulty command is refused

  lemma {:induction false} RedirsRefused(t: string, rs: seq<Item>, more: seq<Token>)
    requires Redirections(rs) && Tokens(t) == ItemTokens(rs) + more && NoFile(more)
    ensures Redirs(t) == Err(MissingFile)
    decreases |rs|
  {
    hide Tokens, First, Rest, Skip, Ahead;
    AheadIs(t);
    if rs == [] {
      assert ItemTokens(rs) + more == more;
      NextToken(t);
      AheadIs(Rest(t));
      NoWordNext(Rest(t));
    } else {
      var tail := ItemTokens(rs[1..]) + more;
      assert Tokens(t) == [Arrow(rs[0].kind), Word(rs[0].file)] + tail;
      NextToken(t);
      NextToken(Rest(t));
      assert Tokens(Rest(Rest(t))) == tail;
      RedirsRefused(Rest(Rest(t)), rs[1..], more);
    }
  }

  lemma NoWordNext(t: string)
    requires Tokens(t) == [] || !Tokens(t)[0].Word?
    ensures !First(t).Word?
  {
  }

  lemma ArgRefused(args: seq<string>, rs: seq<(string, Kind)>, t: string, e: Error)
    requires |args| < MAXARGS && BadRest(e, Tokens(t), |args|) && e != MissingFile
    ensures Args(args, rs, t) == Err(e)
  {
    hide Tokens, First, Rest, Skip, Ahead, Wrap, Redirs;
    AheadIs(t);
    NextToken(t);
  }

  lemma ArgsStuck(args: seq<string>, rs: seq<(string, Kind)>, t: string)
    requires Tokens(t) != [] && Tokens(t)[0].Word? && |args| + 1 < MAXARGS && Redirs(Rest(t)).Err?
    ensures Args(args, rs, t) == Err(Redirs(Rest(t)).error)
  {
    hide Tokens, First, Rest, Skip, Ahead, Wrap, Redirs;
    AheadIs(t);
    NextToken(t);
  }

  lemma NoFileIsNoOther(e: Error, more: seq<Token>, n: nat)
    requires BadRest(e, more, n)
    ensures NoFile(more) <==> e == MissingFile
    ensures e != MissingFile ==> !StartsArrow(more)
  {
  }

  lemma {:induction false} ArgsRefused(args: seq<string>, rs: seq<(string, Kind)>, t: string, items: seq<Item>,
                                       more: seq<Token>, e: Error)
    requires Tokens(t) == ItemTokens(items) + more && (items != [] ==> items[0].Arg?) &&
             (items == [] ==> e != MissingFile)
    requires |args| + |ArgWords(items)| < MAXARGS && BadRest(e, more, |args| + |ArgWords(items)|)
    ensures Args(args, rs, t) == Err(e)
    decreases |items|
  {
    hide Tokens, First, Rest, Args, Redirs, Wrap, Lead, BadRest, ItemTokens, ArgWords, Reds;
    if items == [] {
      NoItems();
      assert [] + more == more;
      ArgRefused(args, rs, t, e);
    } else {
      var w, tail := items[0].w, items[1..];
      var n := Lead(tail);
      ArgHead(items);
      NextToken(t);
      assert Tokens(t)[1..] == ItemTokens(tail) + more;
      SplitLead(tail, more);
      NoFileIsNoOther(e, more, |args| + |ArgWords(items)|);
      if n == |tail| && e == MissingFile {
        assert tail[..n] == tail;
        RedirsRefused(Rest(t), tail, more);
        ArgsStuck(args, rs, t);
      } else {
        ItemsLead(tail[n..], more);
        RedirsParsed(Rest(t), tail[..n], ItemTokens(tail[n..]) + more);
        OneArg(args, rs, t);
        ArgsRefused(args + [w], rs + Reds(tail[..n]), Redirs(Rest(t)).rest, tail[n..], more, e);
      }
    }
  }

  lemma ItemsLead(items: seq<Item>, more: seq<Token>)
    requires if items == [] then !StartsArrow(more) else items[0].Arg?
    ensures !StartsArrow(ItemTokens(items) + more)
  {
    if items == [] { assert ItemTokens(items) + more == more; }
  }

  lemma SimpleRefused(t: string, e: Error)
    requires SimpleFaulty(e, Tokens(t))
    ensures Command(t) == Err(e)
  {
    hide Tokens, First, Rest, Skip, Ahead, Redirs, Args, Block, Lead, BadRest, ItemTokens, ArgWords, Reds;
    var items, more :| && Tokens(t) == ItemTokens(items) + more && |ArgWords(items)| < MAXARGS
                       && BadRest(e, more, |ArgWords(items)|) && (items == [] ==> e != Syntax);
    var n := Lead(items);
    AheadIs(t);
    NoParenHere(e, items, more);
    SplitLead(items, more);
    NoFileIsNoOther(e, more, |ArgWords(items)|);
    if n == |items| && e == MissingFile {
      assert items[..n] == items;
      RedirsRefused(t, items, more);
    } else {
      ItemsLead(items[n..], more);
      RedirsParsed(t, items[..n], ItemTokens(items[n..]) + more);
      ArgsRefused([], Reds(items[..n]), Redirs(t).rest, items[n..], more, e);
    }
  }

  lemma NoParenHere(e: Error, items: seq<Item>, more: seq<Token>)
    requires BadRest(e, more, |ArgWords(items)|) && (items == [] ==> e != Syntax)
    ensures !Starts(ItemTokens(items) + more, Sym('('))
  {
    if items == [] { assert ItemTokens(items) + more == more; }
  }

  lemma BlockRefused(t: string, e: Error)
    requires BlockFaulty(e, Tokens(t))
    ensures Command(t) == Err(e)
  {
    if e == MissingParen {
      var x, more :| && ScriptOk(x) && ScriptStops(x, more) && !Starts(more, Sym(')'))
                     && Tokens(t) == [Sym('(')] + (ScriptTokens(x) + more);
      UnclosedRefused(t, x, more);
    } else {
      var x, after, more :| && ScriptOk(x) && Redirections(after) && NoFile(more)
                            && Tokens(t) == AtomTokens(Paren(x, after)) + more;
      AfterBlockRefused(t, x, after, more);
    }
  }

  lemma UnclosedRefused(t: string, x: Script, more: seq<Token>)
    requires ScriptOk(x) && ScriptStops(x, more) && !Starts(more, Sym(')'))
    requires Tokens(t) == [Sym('(')] + (ScriptTokens(x) + more)
    ensures Command(t) == Err(MissingParen)
  {
    hide Tokens, First, Rest, Skip, Ahead, Line, ScriptOk, ScriptStops, ScriptTokens, ScriptTree, Redirs;
    AheadIs(t);
    NextToken(t);
    assert Tokens(Rest(t)) == ScriptTokens(x) + more;
    ScriptParsed(Rest(t), x, more);
    AheadIs(Line(Rest(t)).rest);
  }

  lemma AfterBlockRefused(t: string, x: Script, after: seq<Item>, more: seq<Token>)
    requires ScriptOk(x) && Redirections(after) && NoFile(more) && Tokens(t) == AtomTokens(Paren(x, after)) + more
    ensures Command(t) == Err(MissingFile)
  {
    hide Tokens, First, Rest, Skip, Ahead, Line, ScriptOk, ScriptTokens, ScriptTree, Redirs, ItemTokens;
    AheadIs(t);
    NextToken(t);
    var close := [Sym(')')] + (ItemTokens(after) + more);
    assert Tokens(Rest(t)) == ScriptTokens(x) + close;
    ScriptStopsAt(x, close);
    ScriptParsed(Rest(t), x, close);
    var u := Line(Rest(t)).rest;
    AheadIs(u);
    NextToken(u);
    assert Tokens(Rest(u)) == ItemTokens(after) + more;
    RedirsRefused(Rest(u), after, more);
  }

  lemma {:induction false} AtomAtRefused(t: string, at: InAtom, more: seq<Token>, e: Error)
    requires AtomAtOk(at) && CommandFaulty(e, more) && Tokens(t) == AtomBefore(at) + more
    ensures Command(t) == Err(e)
    decreases at
  {
    hide Tokens, First, Rest, Skip, Ahead, Redirs, Args, Line, ScriptBefore, SimpleFaulty, BlockFaulty;
    if at.Here? {
      assert [] + more == more;
      if SimpleFaulty(e, more) { SimpleRefused(t, e); } else { BlockRefused(t, e); }
    } else {
      AheadIs(t);
      NextToken(t);
      assert Tokens(Rest(t)) == ScriptBefore(at.text) + more;
      ScriptAtRefused(Rest(t), at.text, more, e);
    }
  }

  lemma {:induction false} PipesAtRefused(t: string, at: InPipes, more: seq<Token>, e: Error)
    requires PipesAtOk(at) && CommandFaulty(e, more) && Tokens(t) == PipesBefore(at) + more
    ensures Pipeline(t) == Err(e)
    decreases at
  {
    hide Tokens, First, Rest, Skip, Ahead, Command, AtomTokens, AtomTree, AtomBefore, CommandFaulty;
    match at {
      case ThisAtom(within) => AtomAtRefused(t, within, more, e);
      case NextAtom(a, rest) =>
        var tail := [Sym('|')] + (PipesBefore(rest) + more);
        assert Tokens(t) == AtomTokens(a) + tail;
        AtomStopsAt(a, tail);
        AtomParsed(t, a, tail);
        var u := Command(t).rest;
        AheadIs(u);
        NextToken(u);
        assert Tokens(Rest(u)) == PipesBefore(rest) + more;
        PipesAtRefused(Rest(u), rest, more, e);
    }
  }

  lemma {:induction false} ScriptAtRefused(t: string, at: InScript, more: seq<Token>, e: Error)
    requires ScriptAtOk(at) && CommandFaulty(e, more) && Tokens(t) == ScriptBefore(at) + more
    ensures Line(t) == Err(e)
    decreases at
  {
    hide Tokens, First, Rest, Skip, Ahead, Pipeline, PipesTokens, PipesTree, PipesBefore, Backs, CommandFaulty, InBack,
         Ampersands, PipesStop;
    match at {
      case ThisPart(within) => PipesAtRefused(t, within, more, e);
      case NextPart(p, n, rest) =>
        var tail := [Sym(';')] + (ScriptBefore(rest) + more);
        assert Tokens(t) == PipesTokens(p) + (Ampersands(n) + tail);
        AmpersandsStop(p, n, tail);
        PipesParsed(t, p, Ampersands(n) + tail);
        PartParsed(t, p, n, tail);
        var v := Backs(Pipeline(t).value, Pipeline(t).rest).1;
        NextToken(v);
        assert Tokens(Rest(v)) == ScriptBefore(rest) + more;
        ScriptAtRefused(Rest(v), rest, more, e);
    }
  }

  // what is refused is faulty

  lemma {:induction false} RedirsFault(t: string) returns (rs: seq<Item>, more: seq<Token>)
    requires Redirs(t).Err?
    ensures Redirs(t).error == MissingFile && Redirections(rs) && Tokens(t) == ItemTokens(rs) + more && NoFile(more)
    decreases |t|
  {
    hide Tokens, First, Rest, Skip, Ahead;
    AheadIs(t);
    NextToken(t);
    var v := Rest(t);
    if First(v).Word? {
      WordAhead(v);
      NextToken(v);
      Shorter(t);
      Shorter(v);
      var tail;
      tail, more := RedirsFault(Rest(v));
      rs := [Redirect(First(v).w, KindOf(First(t)))] + tail;
      assert rs[1..] == tail;
      assert Arrow(KindOf(First(t))) == First(t);
      assert Tokens(t) == [First(t), First(v)] + Tokens(Rest(v));
    } else {
      rs, more := [], Tokens(t);
      NotWord(v);
    }
  }

  lemma NotWord(t: string)
    requires !First(t).Word?
    ensures Tokens(t) == [] || !Tokens(t)[0].Word?
  {
  }

  lemma StrangeToken(t: string)
    requires !First(t).Word? && Skip(t) != "" && !Ahead(t, "|)&;") && !Ahead(t, "<>")
    ensures Starts(Tokens(t), Sym('('))
  {
  }

  /** The first token is at fault. */
  lemma ArgFault(args: seq<string>, rs: seq<(string, Kind)>, t: string)
    requires Args(args, rs, t).Err? && |args| < MAXARGS && !StartsArrow(Tokens(t))
    requires !First(t).Word? || |args| + 1 >= MAXARGS
    ensures BadRest(Args(args, rs, t).error, Tokens(t), |args|)
  {
    hide Tokens, First, Rest, Skip, Ahead, Redirs, Wrap;
    AheadIs(t);
    NextToken(t);
    if !First(t).Word? {
      StrangeToken(t);
    }
  }

  lemma {:induction false} ArgsFault(args: seq<string>, rs: seq<(string, Kind)>, t: string)
    returns (items: seq<Item>, more: seq<Token>)
    requires Args(args, rs, t).Err? && |args| < MAXARGS && !StartsArrow(Tokens(t))
    ensures Tokens(t) == ItemTokens(items) + more && |args| + |ArgWords(items)| < MAXARGS
    ensures BadRest(Args(args, rs, t).error, more, |args| + |ArgWords(items)|)
    decreases |t|
  {
    hide Tokens, First, Rest, Args, Redirs, ItemTokens, ArgWords, Reds, BadRest;
    NoItems();
    if !First(t).Word? || |args| + 1 >= MAXARGS {
      items, more := [], Tokens(t);
      ArgFault(args, rs, t);
    } else {
      var w := First(t).w;
      WordAhead(t);
      NextToken(t);
      var a, b: seq<Item>;
      if Redirs(Rest(t)).Err? {
        a, more := RedirsFault(Rest(t));
        b := [];
        ArgsStuck(args, rs, t);
        NoFileIsBad(more, |args| + 1);
      } else {
        OneArg(args, rs, t);
        a := RedirsRead(Rest(t));
        b, more := ArgsFault(args + [w], rs + Reds(a), Redirs(Rest(t)).rest);
      }
      items := [Arg(w)] + (a + b);
      ItemsJoin(w, a, b);
      assert Tokens(t) == [Word(w)] + (ItemTokens(a) + (ItemTokens(b) + more));
    }
  }

  lemma NoFileIsBad(more: seq<Token>, n: nat)
    requires NoFile(more)
    ensures BadRest(MissingFile, more, n)
  {
  }

  lemma SimpleFault(t: string)
    requires Command(t).Err? && !Ahead(t, "(")
    ensures SimpleFaulty(Command(t).error, Tokens(t))
  {
    hide Tokens, First, Rest, Skip, Ahead, Redirs, Args, Block, BadRest, ItemTokens, ArgWords, Reds;
    AheadIs(t);
    NoItems();
    var e := Command(t).error;
    var lead, items, more;
    if Redirs(t).Err? {
      lead, more := RedirsFault(t);
      items := [];
      NoFileIsBad(more, 0);
    } else {
      lead := RedirsRead(t);
      items, more := ArgsFault([], Reds(lead), Redirs(t).rest);
    }
    NoWords(lead);
    ItemsAppend(lead, items);
    assert Tokens(t) == ItemTokens(lead) + (ItemTokens(items) + more);
    if lead + items == [] && e == Syntax {
      assert Tokens(t) == more;
      SyntaxIsParen(more, 0);
      assert false;
    }
  }

  lemma SyntaxIsParen(more: seq<Token>, n: nat)
    requires BadRest(Syntax, more, n)
    ensures Starts(more, Sym('('))
  {
  }

  lemma {:induction false} AtomFault(t: string) returns (at: InAtom, more: seq<Token>)
    requires Command(t).Err?
    ensures AtomAtOk(at) && CommandFaulty(Command(t).error, more) && Tokens(t) == AtomBefore(at) + more
    decreases |t|, 1
  {
    hide Tokens, First, Rest, Skip, Ahead, Redirs, Args, Line, SimpleFaulty, ScriptBefore, ScriptOk, ScriptTokens,
         ScriptTree, ScriptStops, ItemTokens;
    at, more := Here, Tokens(t);
    if !Ahead(t, "(") {
      SimpleFault(t);
    } else {
      AheadIs(t);
      NextToken(t);
      Shorter(t);
      assert Tokens(t) == [Sym('(')] + Tokens(Rest(t));
      if Line(Rest(t)).Err? {
        var inner;
        inner, more := ScriptFault(Rest(t));
        at := Inside(inner);
      } else {
        var body := ScriptRead(Rest(t));
        var u := Line(Rest(t)).rest;
        AheadIs(u);
        if Ahead(u, ")") {
          NextToken(u);
          var after, bad := RedirsFault(Rest(u));
          assert Tokens(u) == [Sym(')')] + (ItemTokens(after) + bad);
          assert Tokens(t) == AtomTokens(Paren(body, after)) + bad;
        }
      }
    }
  }

  lemma {:induction false} PipesFault(t: string) returns (at: InPipes, more: seq<Token>)
    requires Pipeline(t).Err?
    ensures PipesAtOk(at) && CommandFaulty(Pipeline(t).error, more) && Tokens(t) == PipesBefore(at) + more
    decreases |t|, 2
  {
    hide Tokens, First, Rest, Skip, Ahead, Command, CommandFaulty, AtomTokens, AtomTree, AtomOk, AtomBefore;
    if Command(t).Err? {
      var here;
      here, more := AtomFault(t);
      at := ThisAtom(here);
    } else {
      var a := AtomRead(t);
      var u := Command(t).rest;
      AheadIs(u);
      NextToken(u);
      Shorter(u);
      var rest;
      rest, more := PipesFault(Rest(u));
      at := NextAtom(a, rest);
      assert Tokens(u) == [Sym('|')] + (PipesBefore(rest) + more);
    }
  }

  lemma {:induction false} ScriptFault(t: string) returns (at: InScript, more: seq<Token>)
    requires Line(t).Err?
    ensures ScriptAtOk(at) && CommandFaulty(Line(t).error, more) && Tokens(t) == ScriptBefore(at) + more
    decreases |t|, 3
  {
    hide Tokens, First, Rest, Skip, Ahead, Pipeline, Backs, CommandFaulty, PipesTokens, PipesTree, PipesOk, PipesBefore,
         InBack, Ampersands;
    if Pipeline(t).Err? {
      var here;
      here, more := PipesFault(t);
      at := ThisPart(here);
    } else {
      var p := PipesRead(t);
      var r := Pipeline(t);
      var n := BacksRead(r.value, r.rest);
      var v := Backs(r.value, r.rest).1;
      AheadIs(v);
      NextToken(v);
      Shorter(v);
      var rest;
      rest, more := ScriptFault(Rest(v));
      at := NextPart(p, n, rest);
      assert Tokens(v) == [Sym(';')] + (ScriptBefore(rest) + more);
      assert Tokens(t) == PipesTokens(p) + (Ampersands(n) + Tokens(v));
    }
  }

  lemma OverfullRefused(t: string)
    requires Overfull(Tokens(t))
    ensures Parse(t) == Err(Leftovers)
  {
    hide Tokens, Line, Skip, ScriptTree, ScriptTokens, ScriptOk, ScriptStops;
    var x, more :| ScriptOk(x) && ScriptStops(x, more) && more != [] && Tokens(t) == ScriptTokens(x) + more;
    ScriptParsed(t, x, more);
    AheadIs(Line(t).rest);
  }

  lemma FaultyRefused(t: string, e: Error)
    requires Faulty(e, Tokens(t))
    ensures Line(t) == Err(e) && e != Leftovers
  {
    hide Tokens, Line, ScriptAtOk, ScriptBefore;
    var at, more :| ScriptAtOk(at) && CommandFaulty(e, more) && Tokens(t) == ScriptBefore(at) + more;
    ScriptAtRefused(t, at, more, e);
  }

  /** The shell refuses a text exactly for the reason that the text gives: at the first place where a command
      is expected
      and none can be read, or behind a whole line. */
  lemma ParseFault(t: string, e: Error)
    ensures Parse(t) == Err(e) <==> if e == Leftovers then Overfull(Tokens(t)) else Faulty(e, Tokens(t))
  {
    hide Tokens, Line, Skip, Faulty, Overfull, ScriptTree, ScriptTokens, ScriptOk;
    if Overfull(Tokens(t)) { OverfullRefused(t); }
    if Faulty(e, Tokens(t)) { FaultyRefused(t, e); }
    if Parse(t).Err? {
      Refusal(t);
    }
  }

  lemma Refusal(t: string)
    requires Parse(t).Err?
    ensures if Line(t).Err? then Faulty(Parse(t).error, Tokens(t)) && Parse(t).error != Leftovers
            else Parse(t).error == Leftovers && Overfull(Tokens(t))
  {
    hide Tokens, Line, Skip, ScriptTree, ScriptTokens, ScriptOk, ScriptStops, ScriptAtOk, ScriptBefore;
    if Line(t).Err? {
      var at, more := ScriptFault(t);
    } else {
      var x := ScriptRead(t);
      AheadIs(Line(t).rest);
    }
  }
}
