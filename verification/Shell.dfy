/** The tokens and the grammar of the shell, as functions on what is left of the line, and a printer that they
    invert. */
module Shell {
  const NUL: char := '\0'
  const MAXARGS: nat := 10

  predicate IsSpace(c: char) {
    c == ' ' || c == '\t' || c == '\r' || c == '\n' || c == '\U{0B}'
  }

  predicate IsSymbol(c: char) {
    c == '<' || c == '|' || c == '>' || c == '&' || c == ';' || c == '(' || c == ')'
  }

  predicate IsWordChar(c: char) {
    !IsSpace(c) && !IsSymbol(c)
  }

  // ---- Tokens -----------------------------------------------------------------------------------------------

  datatype Token = End | Sym(c: char) | Append | Word(w: string)

  function Skip(t: string): (u: string)
    ensures |u| <= |t| && (u != "" ==> !IsSpace(u[0]))
  {
    if t != "" && IsSpace(t[0]) then Skip(t[1..]) else t
  }

  function WordLen(t: string): (n: nat)
    ensures n <= |t| && (t != "" && IsWordChar(t[0]) ==> n > 0)
    ensures (forall i :: 0 <= i < n ==> IsWordChar(t[i])) && (n < |t| ==> !IsWordChar(t[n]))
  {
    if t != "" && IsWordChar(t[0]) then 1 + WordLen(t[1..]) else 0
  }

  function TokenAt(u: string): Token {
    if u == "" then End
    else if u[0] == '>' then (if |u| > 1 && u[1] == '>' then Append else Sym('>'))
    else if IsSymbol(u[0]) then Sym(u[0])
    else Word(u[..WordLen(u)])
  }

  /** How long the token at the start of u is. */
  function TokenLen(u: string): (n: nat)
    ensures n <= |u| && (u != "" && !IsSpace(u[0]) ==> n > 0)
  {
    if u == "" then 0
    else if u[0] == '>' then (if |u| > 1 && u[1] == '>' then 2 else 1)
    else if IsSymbol(u[0]) then 1
    else WordLen(u)
  }

  function First(t: string): Token { TokenAt(Skip(t)) }

  /** What is left after the first token and the space behind it. */
  function Rest(t: string): (u: string)
    ensures |u| <= |t| && (Skip(t) != "" ==> |u| < |t|)
  {
    var u := Skip(t);
    Skip(u[TokenLen(u)..])
  }

  /** peek, for a set of symbols. */
  predicate Ahead(t: string, toks: string) {
    Skip(t) != "" && Skip(t)[0] in toks
  }

  // ---- Grammar ----------------------------------------------------------------------------------------------

  datatype Kind = Input | Output | OutputAppend

  datatype Tree =
    | Exec(args: seq<string>)
    | Redir(cmd: Tree, file: string, kind: Kind)
    | Pipe(left: Tree, right: Tree)
    | List(left: Tree, right: Tree)
    | Back(cmd: Tree)

  datatype Error = MissingFile | MissingParen | Syntax | TooManyArgs | Leftovers

  datatype Result<T> = Ok(value: T, rest: string) | Err(error: Error)

  function KindOf(tok: Token): Kind {
    if tok == Sym('<') then Input else if tok == Append then OutputAppend else Output
  }

  function Redirs(t: string): (r: Result<seq<(string, Kind)>>)
    ensures r.Ok? ==> |r.rest| <= |t|
    decreases |t|
  {
    if !Ahead(t, "<>") then Ok([], Skip(t))
    else
      var v := Rest(t);
      if !First(v).Word? then Err(MissingFile)
      else
        match Redirs(Rest(v))
        case Ok(rs, u) => Ok([(First(v).w, KindOf(First(t)))] + rs, u)
        case Err(e) => Err(e)
  }

  function Wrap(c: Tree, rs: seq<(string, Kind)>): Tree
    decreases |rs|
  {
    if rs == [] then c else Wrap(Redir(c, rs[0].0, rs[0].1), rs[1..])
  }

  function Wrapped(c: Tree, r: Result<seq<(string, Kind)>>): Result<Tree> {
    match r
    case Ok(rs, u) => Ok(Wrap(c, rs), u)
    case Err(e) => Err(e)
  }

  /** The words and redirections of a simple command, after `args` and `rs`. */
  function Args(args: seq<string>, rs: seq<(string, Kind)>, t: string): (r: Result<Tree>)
    ensures r.Ok? ==> |r.rest| <= |t|
    decreases |t|
  {
    if Ahead(t, "|)&;") || Skip(t) == "" then Ok(Wrap(Exec(args), rs), Skip(t))
    else if !First(t).Word? then Err(Syntax)
    else if |args| + 1 >= MAXARGS then Err(TooManyArgs)
    else
      match Redirs(Rest(t))
      case Ok(rs', u) => Args(args + [First(t).w], rs + rs', u)
      case Err(e) => Err(e)
  }

  function Command(t: string): (r: Result<Tree>)
    ensures r.Ok? ==> |r.rest| <= |t|
    decreases |t|, 1
  {
    if Ahead(t, "(") then Block(t)
    else
      match Redirs(t)
      case Ok(rs, u) => Args([], rs, u)
      case Err(e) => Err(e)
  }

  function Block(t: string): (r: Result<Tree>)
    requires Ahead(t, "(")
    ensures r.Ok? ==> |r.rest| <= |t|
    decreases |t|, 0
  {
    match Line(Rest(t))
    case Ok(c, u) => (
      if !Ahead(u, ")") then Err(MissingParen)
      else Wrapped(c, Redirs(Rest(u))))
    case Err(e) => Err(e)
  }

  function Pipeline(t: string): (r: Result<Tree>)
    ensures r.Ok? ==> |r.rest| <= |t|
    decreases |t|, 2
  {
    match Command(t)
    case Ok(c, u) => (
      if !Ahead(u, "|") then Ok(c, Skip(u))
      else
        match Pipeline(Rest(u))
        case Ok(d, v) => Ok(Pipe(c, d), v)
        case Err(e) => Err(e))
    case Err(e) => Err(e)
  }

  /** The '&'s after a pipeline. */
  function Backs(c: Tree, t: string): (r: (Tree, string))
    ensures |r.1| <= |t|
    decreases |t|
  {
    if Ahead(t, "&") then Backs(Back(c), Rest(t)) else (c, Skip(t))
  }

  function Line(t: string): (r: Result<Tree>)
    ensures r.Ok? ==> |r.rest| <= |t|
    decreases |t|, 3
  {
    match Pipeline(t)
    case Ok(c, u) => (
      var (d, v) := Backs(c, u);
      if !Ahead(v, ";") then Ok(d, Skip(v))
      else
        match Line(Rest(v))
        case Ok(e, w) => Ok(List(d, e), w)
        case Err(e) => Err(e))
    case Err(e) => Err(e)
  }

  /** A whole line. */
  function Parse(t: string): Result<Tree> {
    match Line(t)
    case Ok(c, u) => if Skip(u) == "" then Ok(c, "") else Err(Leftovers)
    case Err(e) => Err(e)
  }

  // ---- Printing, and the round trip ---------------------------------------------------------------------------

  predicate PlainWord(w: string) {
    w != "" && forall i :: 0 <= i < |w| ==> IsWordChar(w[i])
  }

  /** A tree the shell can be asked for: plain words, at most nine to a command. */
  predicate PlainTree(t: Tree) {
    match t
    case Exec(args) => |args| < MAXARGS && forall i :: 0 <= i < |args| ==> PlainWord(args[i])
    case Redir(c, f, _) => PlainTree(c) && PlainWord(f)
    case Pipe(l, r) => PlainTree(l) && PlainTree(r)
    case List(l, r) => PlainTree(l) && PlainTree(r)
    case Back(c) => PlainTree(c)
  }

  function ShowKind(k: Kind): string {
    match k
    case Input => "<"
    case Output => ">"
    case OutputAppend => ">>"
  }

  function ShowWords(args: seq<string>): string {
    if args == [] then "" else args[0] + " " + ShowWords(args[1..])
  }

  /** The tree with parentheses around every part. */
  function Show(t: Tree): string {
    match t
    case Exec(args) => ShowWords(args)
    case Redir(c, f, k) => "(" + Show(c) + ")" + ShowKind(k) + f + " "
    case Pipe(l, r) => "(" + Show(l) + ")|(" + Show(r) + ")"
    case List(l, r) => "(" + Show(l) + ");(" + Show(r) + ")"
    case Back(c) => "(" + Show(c) + ")&"
  }

  /** What may follow a printed tree: the end, or the parenthesis around it. */
  predicate Stops(suf: string) {
    suf == "" || suf[0] == ')'
  }

  lemma {:induction false} WordLenIs(w: string, suf: string)
    requires (forall i :: 0 <= i < |w| ==> IsWordChar(w[i])) && (suf == "" || !IsWordChar(suf[0]))
    ensures WordLen(w + suf) == |w|
  {
    if w != "" {
      WordLenIs(w[1..], suf);
      assert (w + suf)[1..] == w[1..] + suf;
    } else {
      assert w + suf == suf;
    }
  }

  /** A plain word and the space behind it. */
  lemma WordFirst(w: string, suf: string)
    requires PlainWord(w)
    ensures var t := w + " " + suf; Skip(t) == t && t != "" && First(t) == Word(w) && Rest(t) == Skip(suf)
    ensures var t := w + " " + suf; !Ahead(t, "|)&;") && !Ahead(t, "(") && !Ahead(t, "<>")
  {
    var t := w + " " + suf;
    assert t == w + (" " + suf);
    assert t[0] == w[0];
    WordLenIs(w, " " + suf);
    assert t[..|w|] == w && t[|w|..] == " " + suf;
    assert (" " + suf)[1..] == suf;
  }

  /** A symbol other than '>'. */
  lemma SymbolFirst(c: char, suf: string)
    requires IsSymbol(c) && c != '>'
    ensures var t := [c] + suf; Skip(t) == t && First(t) == Sym(c) && Rest(t) == Skip(suf)
  {
    assert ([c] + suf)[1..] == suf;
  }

  lemma KindFirst(k: Kind, suf: string)
    requires suf != "" && IsWordChar(suf[0])
    ensures var t := ShowKind(k) + suf; Ahead(t, "<>") && KindOf(First(t)) == k && Rest(t) == suf
  {
    var t := ShowKind(k) + suf;
    assert t[|ShowKind(k)|..] == suf;
    assert t[0] == ShowKind(k)[0];
    assert k == Output ==> t[1] == suf[0];
  }

  lemma NoRedirs(t: string)
    requires t == "" || (t[0] != '<' && t[0] != '>' && !IsSpace(t[0]))
    ensures Redirs(t) == Ok([], t)
  {
  }

  /** A printed redirection. */
  lemma RedirFirst(f: string, k: Kind, suf: string)
    requires PlainWord(f) && Stops(suf)
    ensures Redirs(ShowKind(k) + f + " " + suf) == Ok([(f, k)], suf)
  {
    var t := ShowKind(k) + f + " " + suf;
    assert t == ShowKind(k) + (f + " " + suf);
    hide First, Rest, Ahead, KindOf;
    KindFirst(k, f + " " + suf);
    WordFirst(f, suf);
    NoRedirs(suf);
    assert [(f, k)] + [] == [(f, k)];
  }

  lemma ArgsStep(done: seq<string>, w: string, more: string)
    requires PlainWord(w) && |done| + 1 < MAXARGS && Skip(more) == more && Redirs(more) == Ok([], more)
    ensures Args(done, [], w + " " + more) == Args(done + [w], [], more)
  {
    hide First, Rest, Ahead, Skip, Redirs, Wrap;
    WordFirst(w, more);
    var none: seq<(string, Kind)> := [];
    assert none + none == none;
  }

  lemma ArgsEnd(done: seq<string>, suf: string)
    requires Stops(suf)
    ensures Args(done, [], suf) == Ok(Exec(done), suf)
  {
    assert suf != "" ==> Ahead(suf, "|)&;");
  }

  /** The printed words of a command. */
  lemma {:induction false} ArgsShow(done: seq<string>, args: seq<string>, suf: string)
    requires |done| + |args| < MAXARGS && Stops(suf) && forall i :: 0 <= i < |args| ==> PlainWord(args[i])
    ensures Args(done, [], ShowWords(args) + suf) == Ok(Exec(done + args), suf)
    decreases |args|
  {
    hide Args, PlainWord, Skip, Redirs;
    if args == [] {
      assert ShowWords(args) + suf == suf && done + args == done;
      ArgsEnd(done, suf);
    } else {
      var more := ShowWords(args[1..]) + suf;
      assert ShowWords(args) + suf == args[0] + " " + more;
      WordsStart(args[1..], suf);
      NoRedirs(more);
      ArgsStep(done, args[0], more);
      ArgsShow(done + [args[0]], args[1..], suf);
      assert done + [args[0]] + args[1..] == done + args;
    }
  }

  lemma SkipNone(t: string)
    requires t == "" || !IsSpace(t[0])
    ensures Skip(t) == t
  {
  }

  lemma WordsStart(args: seq<string>, suf: string)
    requires Stops(suf) && forall i :: 0 <= i < |args| ==> PlainWord(args[i])
    ensures var t := ShowWords(args) + suf; Skip(t) == t && (t == "" || (t[0] != '<' && t[0] != '>' && !IsSpace(t[0])))
  {
    hide Skip;
    var t := ShowWords(args) + suf;
    if args != [] { FirstWord(args, suf); } else { assert t == suf; }
    SkipNone(t);
  }

  lemma FirstWord(args: seq<string>, suf: string)
    requires args != [] && PlainWord(args[0])
    ensures var t := ShowWords(args) + suf; t != "" && IsWordChar(t[0])
  {
    var w := args[0];
    assert IsWordChar(w[0]);
    hide PlainWord, IsWordChar;
    assert ShowWords(args) == w + " " + ShowWords(args[1..]);
  }

  /** A printing does not start with a space. */
  lemma ShowStart(t: Tree, suf: string)
    requires PlainTree(t) && Stops(suf)
    ensures Skip(Show(t) + suf) == Show(t) + suf
  {
    if t.Exec? {
      WordsStart(t.args, suf);
    } else {
      assert (Show(t) + suf)[0] == '(';
    }
  }

  lemma BlockIs(x: string, t: Tree, suf: string)
    requires Skip(x) == x && Line(x) == Ok(t, [')'] + suf)
    ensures Command(['('] + x) == Wrapped(t, Redirs(Skip(suf)))
  {
    hide Line, Redirs, Wrapped, Skip, First, Rest;
    SymbolFirst('(', x);
    SymbolFirst(')', suf);
  }

  /** A parenthesised printing, in front of anything. */
  lemma BlockShow(t: Tree, suf: string)
    requires PlainTree(t) && Line(Show(t) + (")" + suf)) == Ok(t, ")" + suf)
    ensures var s := "(" + Show(t) + ")" + suf;
            Command(s) == Wrapped(t, Redirs(Skip(suf)))
  {
    var s := "(" + Show(t) + ")" + suf;
    var x := Show(t) + (")" + suf);
    assert s == ['('] + x;
    ShowStart(t, ")" + suf);
    hide Show, Line, PlainTree, Redirs, Wrapped, Command;
    assert ")" + suf == [')'] + suf;
    BlockIs(x, t, suf);
  }

  /** Nothing more comes after a command in front of the end or a parenthesis. */
  lemma LineOfPipeline(x: string, c: Tree, suf: string)
    requires Pipeline(x) == Ok(c, suf) && Stops(suf)
    ensures Line(x) == Ok(c, suf)
  {
    SkipNone(suf);
    assert Backs(c, suf) == (c, suf);
  }

  lemma PipelineOfCommand(x: string, c: Tree, suf: string)
    requires Command(x) == Ok(c, suf) && Skip(suf) == suf && (suf == "" || suf[0] != '|')
    ensures Pipeline(x) == Ok(c, suf)
  {
  }

  /** A parenthesised tree in front of a symbol that starts no redirection. */
  lemma BlockPlain(t: Tree, suf: string)
    requires PlainTree(t) && Line(Show(t) + (")" + suf)) == Ok(t, ")" + suf)
    requires suf == "" || (suf[0] != '<' && suf[0] != '>' && !IsSpace(suf[0]))
    ensures Command("(" + Show(t) + ")" + suf) == Ok(t, suf)
  {
    hide Line, Command, Show, PlainTree;
    SkipNone(suf);
    BlockShow(t, suf);
    NoRedirs(suf);
  }

  lemma ExecShow(args: seq<string>, suf: string)
    requires PlainTree(Exec(args)) && Stops(suf)
    ensures Line(ShowWords(args) + suf) == Ok(Exec(args), suf)
  {
    hide Args, Redirs, Line, Pipeline, ShowWords;
    var x := ShowWords(args) + suf;
    WordsStart(args, suf);
    NoRedirs(x);
    ArgsShow([], args, suf);
    assert [] + args == args;
    WordsNoParen(args, suf);
    SkipNone(suf);
    PipelineOfCommand(x, Exec(args), suf);
    LineOfPipeline(x, Exec(args), suf);
  }

  lemma WordsNoParen(args: seq<string>, suf: string)
    requires PlainTree(Exec(args)) && Stops(suf)
    ensures !Ahead(ShowWords(args) + suf, "(")
  {
    WordsStart(args, suf);
    if args != [] { FirstWord(args, suf); } else { assert ShowWords(args) + suf == suf; }
  }

  lemma PipeShow(l: Tree, r: Tree, suf: string)
    requires Stops(suf) && PlainTree(l) && PlainTree(r)
    requires forall y :: Stops(y) ==> Line(Show(l) + y) == Ok(l, y) && Line(Show(r) + y) == Ok(r, y)
    ensures Line(Show(Pipe(l, r)) + suf) == Ok(Pipe(l, r), suf)
  {
    hide Line, Command, PlainTree;
    var z := "(" + Show(r) + ")" + suf;
    var y := "|" + z;
    var x := Show(Pipe(l, r)) + suf;
    ListText(l, r, suf);
    hide Show;
    BlockPlain(l, y);
    BlockPlain(r, suf);
    SymbolFirst('|', z);
    SkipNone(z);
    SkipNone(suf);
    PipelineOfCommand(z, r, suf);
    assert Pipeline(x) == Ok(Pipe(l, r), suf);
    LineOfPipeline(x, Pipe(l, r), suf);
  }

  lemma ListText(l: Tree, r: Tree, suf: string)
    ensures Show(List(l, r)) + suf == "(" + Show(l) + ")" + (";" + ("(" + Show(r) + ")" + suf))
    ensures Show(Pipe(l, r)) + suf == "(" + Show(l) + ")" + ("|" + ("(" + Show(r) + ")" + suf))
  {
  }

  lemma ListShow(l: Tree, r: Tree, suf: string)
    requires Stops(suf) && PlainTree(l) && PlainTree(r)
    requires forall y :: Stops(y) ==> Line(Show(l) + y) == Ok(l, y) && Line(Show(r) + y) == Ok(r, y)
    ensures Line(Show(List(l, r)) + suf) == Ok(List(l, r), suf)
  {
    hide Command, PlainTree, Pipeline, Line, Skip;
    var z := "(" + Show(r) + ")" + suf;
    var y := ";" + z;
    var x := Show(List(l, r)) + suf;
    ListText(l, r, suf);
    hide Show;
    assert y[0] == ';' && z[0] == '(';
    BlockPlain(l, y);
    BlockPlain(r, suf);
    SkipNone(z);
    SkipNone(y);
    SkipNone(suf);
    PipelineOfCommand(x, l, y);
    PipelineOfCommand(z, r, suf);
    LineOfPipeline(z, r, suf);
    LineOfList(x, l, z, r, suf);
  }

  lemma LineOfList(x: string, l: Tree, z: string, r: Tree, suf: string)
    requires Pipeline(x) == Ok(l, ";" + z) && Skip(z) == z && Line(z) == Ok(r, suf)
    ensures Line(x) == Ok(List(l, r), suf)
  {
    hide Pipeline;
    var y := ";" + z;
    SymbolFirst(';', z);
    assert Backs(l, y) == (l, y);
  }

  lemma LineOfBack(x: string, c: Tree, suf: string)
    requires Pipeline(x) == Ok(c, "&" + suf) && Stops(suf)
    ensures Line(x) == Ok(Back(c), suf)
  {
    hide Pipeline;
    SymbolFirst('&', suf);
    SkipNone(suf);
    assert Backs(Back(c), suf) == (Back(c), suf);
    assert Backs(c, "&" + suf) == (Back(c), suf);
  }

  lemma BackShow(c: Tree, suf: string)
    requires Stops(suf) && PlainTree(c) && forall y :: Stops(y) ==> Line(Show(c) + y) == Ok(c, y)
    ensures Line(Show(Back(c)) + suf) == Ok(Back(c), suf)
  {
    hide Command, PlainTree, Pipeline, Line;
    var y := "&" + suf;
    var x := Show(Back(c)) + suf;
    assert x == "(" + Show(c) + ")" + y;
    hide Show;
    BlockPlain(c, y);
    SkipNone(y);
    PipelineOfCommand(x, c, y);
    LineOfBack(x, c, suf);
  }

  lemma RedirShow(c: Tree, f: string, k: Kind, suf: string)
    requires Stops(suf) && PlainTree(c) && PlainWord(f) && forall y :: Stops(y) ==> Line(Show(c) + y) == Ok(c, y)
    ensures Line(Show(Redir(c, f, k)) + suf) == Ok(Redir(c, f, k), suf)
  {
    hide Line, Command, PlainTree, PlainWord;
    var y := ShowKind(k) + f + " " + suf;
    var x := Show(Redir(c, f, k)) + suf;
    assert x == "(" + Show(c) + ")" + y;
    hide Show;
    assert y[0] == ShowKind(k)[0];
    SkipNone(y);
    BlockShow(c, y);
    RedirFirst(f, k, suf);
    assert [(f, k)][1..] == [];
    assert Wrap(c, [(f, k)]) == Redir(c, f, k);
    SkipNone(suf);
    PipelineOfCommand(x, Redir(c, f, k), suf);
    LineOfPipeline(x, Redir(c, f, k), suf);
  }

  lemma {:induction false} LineShow(t: Tree, suf: string)
    requires PlainTree(t) && Stops(suf)
    ensures Line(Show(t) + suf) == Ok(t, suf)
    decreases t
  {
    hide Line;
    match t {
      case Exec(args) => ExecShow(args, suf);
      case Redir(c, f, k) =>
        forall y | Stops(y) ensures Line(Show(c) + y) == Ok(c, y) { LineShow(c, y); }
        RedirShow(c, f, k, suf);
      case Pipe(l, r) =>
        forall y | Stops(y)
          ensures Line(Show(l) + y) == Ok(l, y) && Line(Show(r) + y) == Ok(r, y) { LineShow(l, y); LineShow(r, y); }
        PipeShow(l, r, suf);
      case List(l, r) =>
        forall y | Stops(y)
          ensures Line(Show(l) + y) == Ok(l, y) && Line(Show(r) + y) == Ok(r, y) { LineShow(l, y); LineShow(r, y); }
        ListShow(l, r, suf);
      case Back(c) =>
        forall y | Stops(y) ensures Line(Show(c) + y) == Ok(c, y) { LineShow(c, y); }
        BackShow(c, suf);
    }
  }

  /** Parsing the fully parenthesised printing of a tree gives the tree back, with nothing left over. */
  lemma RoundTrip(t: Tree)
    requires PlainTree(t)
    ensures Parse(Show(t)) == Ok(t, "")
  {
    LineShow(t, "");
    assert Show(t) + "" == Show(t);
  }
}
