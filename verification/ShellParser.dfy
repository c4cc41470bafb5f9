/** The shell's recursive-descent parser (user/sh.c): a buffer with a cursor, words recorded as pairs of
    positions. It is
    proved to agree with the grammar of `Shell`, and so with the language of `ShellSyntax`. */
module ShellParser {
  import opened Shell
  import opened ShellSyntax

  /** A word as the parser records it: where it starts and where it ends. */
  datatype Span = Span(q: nat, eq: nat)

  datatype Cmd =
    | ExecCmd(argv: seq<Span>)
    | RedirCmd(cmd: Cmd, file: Span, kind: Kind)
    | PipeCmd(left: Cmd, right: Cmd)
    | ListCmd(left: Cmd, right: Cmd)
    | BackCmd(cmd: Cmd)

  datatype Parsed<T> = Got(value: T) | Panic(error: Error)

  /** A whole word of the buffer. */
  predicate SpanOk(s: string, w: Span) {
    w.q < w.eq <= |s| && (forall i :: w.q <= i < w.eq ==> IsWordChar(s[i])) && (w.eq < |s| ==> !IsWordChar(s[w.eq]))
  }

  predicate CmdOk(s: string, c: Cmd) {
    match c
    case ExecCmd(argv) => forall i :: 0 <= i < |argv| ==> SpanOk(s, argv[i])
    case RedirCmd(d, f, _) => CmdOk(s, d) && SpanOk(s, f)
    case PipeCmd(l, r) => CmdOk(s, l) && CmdOk(s, r)
    case ListCmd(l, r) => CmdOk(s, l) && CmdOk(s, r)
    case BackCmd(d) => CmdOk(s, d)
  }

  function Text(s: string, w: Span): string
    requires SpanOk(s, w)
  {
    s[w.q..w.eq]
  }

  function ArgTexts(s: string, argv: seq<Span>): (r: seq<string>)
    requires forall i :: 0 <= i < |argv| ==> SpanOk(s, argv[i])
    ensures |r| == |argv| && forall i :: 0 <= i < |r| ==> r[i] == Text(s, argv[i])
  {
    seq(|argv|, i requires 0 <= i < |argv| => Text(s, argv[i]))
  }

  /** The tree that a command in the buffer stands for. */
  function TreeOf(s: string, c: Cmd): Tree
    requires CmdOk(s, c)
  {
    match c
    case ExecCmd(argv) => Exec(ArgTexts(s, argv))
    case RedirCmd(d, f, k) => Redir(TreeOf(s, d), Text(s, f), k)
    case PipeCmd(l, r) => Pipe(TreeOf(s, l), TreeOf(s, r))
    case ListCmd(l, r) => List(TreeOf(s, l), TreeOf(s, r))
    case BackCmd(d) => Back(TreeOf(s, d))
  }

  lemma Suffix(s: string, i: nat, n: nat)
    requires i + n <= |s|
    ensures s[i..][n..] == s[i + n..]
  {
  }

  method SkipSpace(s: string, i0: nat) returns (i: nat)
    requires i0 <= |s|
    ensures i0 <= i <= |s| && s[i..] == Skip(s[i0..])
  {
    i := i0;
    while i < |s| && IsSpace(s[i])
      invariant i0 <= i <= |s| && Skip(s[i..]) == Skip(s[i0..])
    {
      Suffix(s, i, 1);
      i := i + 1;
    }
    SkipNone(s[i..]);
  }

  method WordEnd(s: string, i0: nat) returns (i: nat)
    requires i0 <= |s|
    ensures i == i0 + WordLen(s[i0..])
  {
    i := i0;
    while i < |s| && !IsSpace(s[i]) && !IsSymbol(s[i])
      invariant i0 <= i <= |s| && i + WordLen(s[i..]) == i0 + WordLen(s[i0..])
    {
      Suffix(s, i, 1);
      i := i + 1;
    }
  }

  /** gettoken's return value for a token. */
  function Code(tok: Token): char {
    match tok
    case End => NUL
    case Sym(c) => c
    case Append => '+'
    case Word(_) => 'a'
  }

  /** gettoken: the next token, the word it is, and the cursor behind it. */
  method GetToken(s: string, ps: nat) returns (ret: char, w: Span, ps': nat)
    requires ps <= |s|
    ensures ps <= ps' <= |s| && s[ps'..] == Rest(s[ps..]) && ret == Code(First(s[ps..]))
    ensures Skip(s[ps..]) != "" ==> ps < ps'
    ensures First(s[ps..]).Word? ==> SpanOk(s, w) && Text(s, w) == First(s[ps..]).w
  {
    hide Skip, WordLen;
    var q := SkipSpace(s, ps);
    var i;
    ret, i := ScanToken(s, q);
    w := Span(q, i);
    Suffix(s, q, i - q);
    if TokenAt(s[q..]).Word? { WordSpan(s, q); }
    ps' := SkipSpace(s, i);
  }

  /** The switch in gettoken. */
  method ScanToken(s: string, q: nat) returns (ret: char, i: nat)
    requires q <= |s| && (q < |s| ==> !IsSpace(s[q]))
    ensures i == q + TokenLen(s[q..]) && ret == Code(TokenAt(s[q..]))
  {
    hide WordLen;
    i := q;
    ret := if i < |s| then s[i] else NUL;
    if i == |s| {
    } else if s[i] == '|' || s[i] == '(' || s[i] == ')' || s[i] == ';' || s[i] == '&' || s[i] == '<' {
      i := i + 1;
    } else if s[i] == '>' {
      i := i + 1;
      if i < |s| && s[i] == '>' {
        ret := '+';
        i := i + 1;
      }
    } else {
      ret := 'a';
      i := WordEnd(s, i);
    }
  }

  lemma WordSpan(s: string, q: nat)
    requires q < |s| && TokenAt(s[q..]).Word? && !IsSpace(s[q])
    ensures var w := Span(q, q + TokenLen(s[q..])); SpanOk(s, w) && Text(s, w) == TokenAt(s[q..]).w
  {
    var u, n := s[q..], WordLen(s[q..]);
    assert TokenLen(u) == n && u[..n] == s[q..q + n];
    forall i | q <= i < q + n ensures IsWordChar(s[i]) { assert u[i - q] == s[i]; }
    assert q + n < |s| ==> u[n] == s[q + n];
  }

  /** peek: the cursor moves to the next token, which is one of toks or not. */
  method Peek(s: string, ps: nat, toks: string) returns (b: bool, ps': nat)
    requires ps <= |s|
    ensures ps <= ps' <= |s| && s[ps'..] == Skip(s[ps..]) && b == Ahead(s[ps..], toks)
  {
    ps' := SkipSpace(s, ps);
    b := ps' < |s| && s[ps'] in toks;
  }

  predicate RedirsOk(s: string, rs: seq<(Span, Kind)>) {
    forall i :: 0 <= i < |rs| ==> SpanOk(s, rs[i].0)
  }

  function RedirTexts(s: string, rs: seq<(Span, Kind)>): (r: seq<(string, Kind)>)
    requires RedirsOk(s, rs)
    ensures |r| == |rs| && forall i :: 0 <= i < |r| ==> r[i] == (Text(s, rs[i].0), rs[i].1)
  {
    seq(|rs|, i requires 0 <= i < |rs| => (Text(s, rs[i].0), rs[i].1))
  }

  function WrapCmd(c: Cmd, rs: seq<(Span, Kind)>): Cmd
    decreases |rs|
  {
    if rs == [] then c else WrapCmd(RedirCmd(c, rs[0].0, rs[0].1), rs[1..])
  }

  lemma {:induction false} WrapTree(s: string, c: Cmd, rs: seq<(Span, Kind)>)
    requires CmdOk(s, c) && RedirsOk(s, rs)
    ensures CmdOk(s, WrapCmd(c, rs)) && TreeOf(s, WrapCmd(c, rs)) == Wrap(TreeOf(s, c), RedirTexts(s, rs))
    decreases |rs|
  {
    if rs != [] {
      WrapTree(s, RedirCmd(c, rs[0].0, rs[0].1), rs[1..]);
      assert RedirTexts(s, rs)[1..] == RedirTexts(s, rs[1..]);
    } else {
      assert RedirTexts(s, rs) == [];
    }
  }

  /** A result of the parser is what the grammar says, in the same place. */
  ghost predicate Agrees(s: string, spec: Result<Tree>, r: Parsed<Cmd>, ps: nat) {
    if r.Got? then ps <= |s| && CmdOk(s, r.value) && spec == Ok(TreeOf(s, r.value), s[ps..]) else spec == Err(r.error)
  }

  function Prefixed(a: seq<(string, Kind)>, r: Result<seq<(string, Kind)>>): Result<seq<(string, Kind)>> {
    match r
    case Ok(b, u) => Ok(a + b, u)
    case Err(e) => Err(e)
  }

  lemma PrefixedMore(a: seq<(string, Kind)>, t: string)
    requires Ahead(t, "<>") && First(Rest(t)).Word?
    ensures Prefixed(a, Redirs(t)) == Prefixed(a + [(First(Rest(t)).w, KindOf(First(t)))], Redirs(Rest(Rest(t))))
  {
    hide First, Rest, KindOf, Ahead, Skip;
    var x, r := [(First(Rest(t)).w, KindOf(First(t)))], Redirs(Rest(Rest(t)));
    assert Redirs(t) == Prefixed(x, r);
    hide Redirs;
    match r {
      case Ok(b, u) => assert a + (x + b) == (a + x) + b;
      case Err(_) =>
    }
  }

  /** parseredirs: the redirections from here on, which the caller puts around its command. */
  method ParseRedirs(s: string, ps: nat) returns (r: Parsed<seq<(Span, Kind)>>, ps': nat)
    requires ps <= |s|
    ensures ps <= ps' <= |s|
    ensures r.Got? ==> RedirsOk(s, r.value) && Redirs(s[ps..]) == Ok(RedirTexts(s, r.value), s[ps'..])
    ensures r.Panic? ==> Redirs(s[ps..]) == Err(r.error)
  {
    hide Skip, First, Rest, Ahead;
    var rs: seq<(Span, Kind)> := [];
    var cur := ps;
    assert Prefixed(RedirTexts(s, rs), Redirs(s[ps..])) == Redirs(s[ps..]) by { PrefixedNone(s, rs, Redirs(s[ps..])); }
    while true
      invariant ps <= cur <= |s| && RedirsOk(s, rs)
      invariant Redirs(s[ps..]) == Prefixed(RedirTexts(s, rs), Redirs(s[cur..]))
      decreases |s| - cur
    {
      var more;
      more, ps' := Peek(s, cur, "<>");
      if !more {
        assert RedirTexts(s, rs) + [] == RedirTexts(s, rs);
        return Got(rs), ps';
      }
      AheadAgain(s[cur..], "<>");
      var tok, skip, at := GetToken(s, ps');
      var ret, w, next := GetToken(s, at);
      CodeWord(s[at..]);
      if ret != 'a' {
        return Panic(MissingFile), ps';
      }
      PrefixedMore(RedirTexts(s, rs), s[cur..]);
      var kind := if tok == '<' then Input else if tok == '>' then Output else OutputAppend;
      KindCode(s[cur..]);
      assert RedirTexts(s, rs + [(w, kind)]) == RedirTexts(s, rs) + [(Text(s, w), kind)];
      rs := rs + [(w, kind)];
      cur := next;
    }
  }

  lemma PrefixedNone(s: string, rs: seq<(Span, Kind)>, r: Result<seq<(string, Kind)>>)
    requires rs == []
    ensures RedirsOk(s, rs) && Prefixed(RedirTexts(s, rs), r) == r
  {
    assert RedirTexts(s, rs) == [];
    assert r.Ok? ==> [] + r.value == r.value;
  }

  /** Looking past the space changes nothing. */
  lemma AheadAgain(t: string, toks: string)
    ensures var u := Skip(t); Skip(u) == u && First(u) == First(t) && Rest(u) == Rest(t) && (Ahead(t, toks) ==> u != "")
  {
    SkipNone(Skip(t));
  }

  lemma CodeWord(t: string)
    ensures Code(First(t)) == 'a' <==> First(t).Word?
    ensures Code(First(t)) == NUL <==> Skip(t) == ""
  {
  }

  lemma KindCode(t: string)
    requires Ahead(t, "<>")
    ensures var c := Code(First(t)); KindOf(First(t)) == if c == '<' then Input else if c == '>'
                                     then Output else OutputAppend
  {
  }

  lemma ArgTextsMore(s: string, argv: seq<Span>, w: Span)
    requires (forall i :: 0 <= i < |argv| ==> SpanOk(s, argv[i])) && SpanOk(s, w)
    ensures forall i :: 0 <= i < |argv + [w]| ==> SpanOk(s, (argv + [w])[i])
    ensures ArgTexts(s, argv + [w]) == ArgTexts(s, argv) + [Text(s, w)]
  {
  }

  lemma RedirTextsMore(s: string, a: seq<(Span, Kind)>, b: seq<(Span, Kind)>)
    requires RedirsOk(s, a) && RedirsOk(s, b)
    ensures RedirsOk(s, a + b) && RedirTexts(s, a + b) == RedirTexts(s, a) + RedirTexts(s, b)
  {
  }

  /** The argument loop of parseexec. The redirections stay beside the words, which the source fills into the
      innermost command while it wraps redirections around it. */
  method ParseArgs(s: string, ps: nat, rs0: seq<(Span, Kind)>) returns (r: Parsed<Cmd>, ps': nat)
    requires ps <= |s| && RedirsOk(s, rs0)
    ensures ps <= ps' <= |s| && Agrees(s, Args([], RedirTexts(s, rs0), s[ps..]), r, ps')
  {
    hide Skip, First, Rest, Ahead, Redirs, Wrap, ArgTexts, RedirTexts, RedirsOk, SpanOk;
    var argv: seq<Span> := [];
    var rs, cur := rs0, ps;
    ghost var spec := Args([], RedirTexts(s, rs0), s[ps..]);
    assert ArgTexts(s, argv) == [];
    while true
      invariant ps <= cur <= |s| && |argv| < MAXARGS && RedirsOk(s, rs)
      invariant forall i :: 0 <= i < |argv| ==> SpanOk(s, argv[i])
      invariant spec == Args(ArgTexts(s, argv), RedirTexts(s, rs), s[cur..])
      decreases |s| - cur
    {
      var stop;
      stop, ps' := Peek(s, cur, "|)&;");
      AheadAgain(s[cur..], "|)&;");
      if stop {
        WrapTree(s, ExecCmd(argv), rs);
        return Got(WrapCmd(ExecCmd(argv), rs)), ps';
      }
      var tok, w, next := GetToken(s, ps');
      CodeWord(s[cur..]);
      if tok == NUL {
        WrapTree(s, ExecCmd(argv), rs);
        return Got(WrapCmd(ExecCmd(argv), rs)), ps';
      }
      if tok != 'a' {
        return Panic(Syntax), ps';
      }
      if |argv| + 1 >= MAXARGS {
        return Panic(TooManyArgs), ps';
      }
      ArgTextsMore(s, argv, w);
      argv := argv + [w];
      var more, at := ParseRedirs(s, next);
      if more.Panic? {
        return Panic(more.error), ps';
      }
      RedirTextsMore(s, rs, more.value);
      rs := rs + more.value;
      cur := at;
    }
  }

  method ParseExec(s: string, ps: nat) returns (r: Parsed<Cmd>, ps': nat)
    requires ps <= |s|
    ensures ps <= ps' <= |s| && Agrees(s, Command(s[ps..]), r, ps')
    decreases |s| - ps, 1
  {
    hide Skip, First, Rest, Ahead, Redirs, Args, Block, Line;
    var open, at := Peek(s, ps, "(");
    AheadAgain(s[ps..], "(");
    if open {
      BlockAgain(s[ps..]);
      r, ps' := ParseBlock(s, at);
      return;
    }
    RedirsAgain(s[ps..]);
    var rs, next := ParseRedirs(s, at);
    if rs.Panic? {
      return Panic(rs.error), at;
    }
    r, ps' := ParseArgs(s, next, rs.value);
  }

  lemma BlockAgain(t: string)
    requires Ahead(t, "(")
    ensures Ahead(Skip(t), "(") && Block(Skip(t)) == Block(t)
  {
    hide Line;
    AheadAgain(t, "(");
  }

  lemma RedirsAgain(t: string)
    ensures Redirs(Skip(t)) == Redirs(t)
  {
    AheadAgain(t, "<>");
  }

  method ParseBlock(s: string, ps: nat) returns (r: Parsed<Cmd>, ps': nat)
    requires ps <= |s| && Ahead(s[ps..], "(")
    ensures ps <= ps' <= |s| && Agrees(s, Block(s[ps..]), r, ps')
    decreases |s| - ps, 0
  {
    hide Skip, First, Rest, Redirs, Line, Wrap;
    var open, at := Peek(s, ps, "(");
    AheadAgain(s[ps..], "(");
    var tok, w, next := GetToken(s, at);
    var c, cur := ParseLine(s, next);
    if c.Panic? {
      return c, cur;
    }
    var close, at' := Peek(s, cur, ")");
    AheadAgain(s[cur..], ")");
    if !close {
      return Panic(MissingParen), at';
    }
    var tok', w', after := GetToken(s, at');
    var rs, end := ParseRedirs(s, after);
    if rs.Panic? {
      return Panic(rs.error), end;
    }
    WrapTree(s, c.value, rs.value);
    return Got(WrapCmd(c.value, rs.value)), end;
  }

  method ParsePipe(s: string, ps: nat) returns (r: Parsed<Cmd>, ps': nat)
    requires ps <= |s|
    ensures ps <= ps' <= |s| && Agrees(s, Pipeline(s[ps..]), r, ps')
    decreases |s| - ps, 2
  {
    hide Skip, First, Rest, Command;
    var c, cur := ParseExec(s, ps);
    if c.Panic? {
      return c, cur;
    }
    var more, at := Peek(s, cur, "|");
    AheadAgain(s[cur..], "|");
    if !more {
      return c, at;
    }
    var tok, w, next := GetToken(s, at);
    var d, end := ParsePipe(s, next);
    if d.Panic? {
      return d, end;
    }
    return Got(PipeCmd(c.value, d.value)), end;
  }

  method ParseLine(s: string, ps: nat) returns (r: Parsed<Cmd>, ps': nat)
    requires ps <= |s|
    ensures ps <= ps' <= |s| && Agrees(s, Line(s[ps..]), r, ps')
    decreases |s| - ps, 3
  {
    hide Skip, First, Rest, Pipeline;
    var c, cur := ParsePipe(s, ps);
    if c.Panic? {
      return c, cur;
    }
    var cmd, at := ParseBacks(s, cur, c.value);
    var more;
    more, ps' := Peek(s, at, ";");
    AheadAgain(s[at..], ";");
    if !more {
      return Got(cmd), ps';
    }
    var tok, w, next := GetToken(s, ps');
    var e, end := ParseLine(s, next);
    if e.Panic? {
      return e, end;
    }
    return Got(ListCmd(cmd, e.value)), end;
  }

  /** The loop of parseline over '&'. */
  method ParseBacks(s: string, ps: nat, c: Cmd) returns (cmd: Cmd, ps': nat)
    requires ps <= |s| && CmdOk(s, c)
    ensures ps <= ps' <= |s| && CmdOk(s, cmd) && (TreeOf(s, cmd), s[ps'..]) == Backs(TreeOf(s, c), s[ps..])
  {
    hide Skip, First, Rest;
    cmd := c;
    var cur := ps;
    while true
      invariant ps <= cur <= |s| && CmdOk(s, cmd) && Backs(TreeOf(s, cmd), s[cur..]) == Backs(TreeOf(s, c), s[ps..])
      decreases |s| - cur
    {
      var more;
      more, ps' := Peek(s, cur, "&");
      AheadAgain(s[cur..], "&");
      if !more {
        return;
      }
      var tok, w, next := GetToken(s, ps');
      cmd := BackCmd(cmd);
      cur := next;
    }
  }

  // ---- Terminating the words ------------------------------------------------------------------------------------

  /** The words a command records. */
  function Words(c: Cmd): set<Span> {
    match c
    case ExecCmd(argv) => set i | 0 <= i < |argv| :: argv[i]
    case RedirCmd(d, f, _) => Words(d) + {f}
    case PipeCmd(l, r) => Words(l) + Words(r)
    case ListCmd(l, r) => Words(l) + Words(r)
    case BackCmd(d) => Words(d)
  }

  ghost predicate IsEnd(ws: set<Span>, i: int) {
    exists w :: w in ws && w.eq == i
  }

  lemma {:induction false} WordsOk(s: string, c: Cmd)
    requires CmdOk(s, c)
    ensures forall w :: w in Words(c) ==> SpanOk(s, w)
  {
    match c {
      case ExecCmd(_) =>
      case RedirCmd(d, _, _) => WordsOk(s, d);
      case PipeCmd(l, r) => WordsOk(s, l); WordsOk(s, r);
      case ListCmd(l, r) => WordsOk(s, l); WordsOk(s, r);
      case BackCmd(d) => WordsOk(s, d);
    }
  }

  /** The buffer with a NUL at the end of each word. */
  ghost predicate Cut(was: seq<char>, now: seq<char>, ws: set<Span>) {
    |now| == |was| && forall i :: 0 <= i < |was| ==> now[i] == if IsEnd(ws, i) then NUL else was[i]
  }

  lemma CutBoth(a: seq<char>, b: seq<char>, c: seq<char>, v: set<Span>, w: set<Span>)
    requires Cut(a, b, v) && Cut(b, c, w)
    ensures Cut(a, c, v + w)
  {
    forall i | 0 <= i < |a| ensures c[i] == if IsEnd(v + w, i) then NUL else a[i] {
      assert IsEnd(v + w, i) <==> IsEnd(v, i) || IsEnd(w, i) by {
        if IsEnd(v, i) { var x :| x in v && x.eq == i; assert x in v + w; }
        if IsEnd(w, i) { var x :| x in w && x.eq == i; assert x in v + w; }
      }
    }
  }

  /** nulterminate, in place. */
  method NulTerminate(buf: array<char>, c: Cmd)
    requires forall w :: w in Words(c) ==> w.eq < buf.Length
    modifies buf
    ensures Cut(old(buf[..]), buf[..], Words(c))
    decreases c
  {
    match c {
      case ExecCmd(argv) =>
        var i := 0;
        assert buf[..] == old(buf[..]);
        while i < |argv|
          invariant 0 <= i <= |argv| && Cut(old(buf[..]), buf[..], set k | 0 <= k < i :: argv[k])
        {
          assert argv[i] in Words(c);
          ghost var was := buf[..];
          buf[argv[i].eq] := NUL;
          CutOne(was, argv[i], buf[..]);
          CutBoth(old(buf[..]), was, buf[..], set k | 0 <= k < i :: argv[k], {argv[i]});
          assert (set k | 0 <= k < i :: argv[k]) + {argv[i]} == set k | 0 <= k < i + 1 :: argv[k];
          i := i + 1;
        }
      case RedirCmd(d, f, _) =>
        NulTerminate(buf, d);
        ghost var was := buf[..];
        assert f in Words(c);
        buf[f.eq] := NUL;
        CutOne(was, f, buf[..]);
        CutBoth(old(buf[..]), was, buf[..], Words(d), {f});
      case PipeCmd(l, r) =>
        NulTerminate(buf, l);
        ghost var was := buf[..];
        NulTerminate(buf, r);
        CutBoth(old(buf[..]), was, buf[..], Words(l), Words(r));
      case ListCmd(l, r) =>
        NulTerminate(buf, l);
        ghost var was := buf[..];
        NulTerminate(buf, r);
        CutBoth(old(buf[..]), was, buf[..], Words(l), Words(r));
      case BackCmd(d) =>
        NulTerminate(buf, d);
    }
  }

  lemma CutOne(was: seq<char>, w: Span, now: seq<char>)
    requires w.eq < |was| && now == was[w.eq := NUL]
    ensures Cut(was, now, {w})
  {
    forall i | 0 <= i < |was| ensures now[i] == if IsEnd({w}, i) then NUL else was[i] {
      assert i == w.eq ==> w in {w} && w.eq == i;
    }
  }

  /** The C string that starts at q. */
  function CString(buf: seq<char>, q: nat): string
    decreases |buf| - q
  {
    if q < |buf| && buf[q] != NUL then [buf[q]] + CString(buf, q + 1) else ""
  }

  lemma {:induction false} CStringIs(buf: seq<char>, q: nat, eq: nat)
    requires q <= eq < |buf| && buf[eq] == NUL && forall i :: q <= i < eq ==> buf[i] != NUL
    ensures CString(buf, q) == buf[q..eq]
    decreases eq - q
  {
    if q < eq {
      CStringIs(buf, q + 1, eq);
      assert buf[q..eq] == [buf[q]] + buf[q + 1..eq];
    }
  }

  /** After nulterminate every word reads as its own text: no terminator falls inside a word. */
  lemma WordsTerminated(s: string, c: Cmd, buf: seq<char>, w: Span)
    requires (forall i :: 0 <= i < |s| ==> s[i] != NUL) && CmdOk(s, c) && Cut(s + [NUL], buf, Words(c)) && w in Words(c)
    ensures SpanOk(s, w) && CString(buf, w.q) == Text(s, w)
  {
    WordsOk(s, c);
    forall i | w.q <= i < w.eq ensures buf[i] == s[i] {
      assert !IsEnd(Words(c), i);
    }
    assert IsEnd(Words(c), w.eq);
    CStringIs(buf, w.q, w.eq);
    assert buf[w.q..w.eq] == s[w.q..w.eq];
  }

  lemma Refused(s: string)
    requires Parse(s).Err?
    ensures forall tree :: !Says(s, tree)
    ensures var e := Parse(s).error; if e == Leftovers then Overfull(Tokens(s)) else Faulty(e, Tokens(s))
  {
    hide Parse, Says, Overfull, Faulty, Tokens;
    forall tree ensures !Says(s, tree) {
      ParseIffSays(s, tree);
    }
    ParseFault(s, Parse(s).error);
  }

  /** parsecmd on the line in a buffer that ends in NUL: it returns the command that the text says, each word of it
      terminated in the buffer, or panics when the text says none, for a reason that the text gives. */
  method ParseCmd(buf: array<char>) returns (r: Parsed<Cmd>)
    requires buf.Length > 0 && buf[buf.Length - 1] == NUL && forall i :: 0 <= i < buf.Length - 1 ==> buf[i] != NUL
    modifies buf
    ensures var s := old(buf[..buf.Length - 1]);
            && (r.Panic? ==> Parse(s) == Err(r.error) && buf[..] == old(buf[..]) && forall tree :: !Says(s, tree))
            && (r.Panic? ==> if r.error == Leftovers then Overfull(Tokens(s)) else Faulty(r.error, Tokens(s)))
            && (r.Got? ==> CmdOk(s, r.value) && Parse(s) == Ok(TreeOf(s, r.value), "") && Says(s, TreeOf(s, r.value))
                           && forall w :: w in Words(r.value) ==> SpanOk(s, w) && CString(buf[..], w.q) == Text(s, w))
  {
    hide Line, Says, Overfull, Faulty;
    var s := buf[..buf.Length - 1];
    assert s[0..] == s;
    var ps;
    r, ps := ParseLine(s, 0);
    if r.Panic? {
      Refused(s);
      return;
    }
    var b, end := Peek(s, ps, "");
    if end != |s| {
      assert s[end..] != "";
      Refused(s);
      return Panic(Leftovers);
    }
    ParseIffSays(s, TreeOf(s, r.value));
    WordsOk(s, r.value);
    assert s + [NUL] == buf[..];
    NulTerminate(buf, r.value);
    forall w | w in Words(r.value) ensures SpanOk(s, w) && CString(buf[..], w.q) == Text(s, w) {
      WordsTerminated(s, r.value, buf[..], w);
    }
  }
}
