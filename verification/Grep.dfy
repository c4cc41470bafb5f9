/** The matcher of grep (Kernighan and Pike, The Practice of Programming, chapter 9) against a declarative
    reading of its patterns, and grep's own loop over a fixed buffer.

    A C string is a sequence without NUL; moving a pointer along it is taking a suffix. */
module Grep {
  const NUL: char := '\0'

  /** One character, or a run of zero or more of them. */
  datatype Item = One(c: char) | Star(c: char)

  predicate IsText(s: string) {
    forall i :: 0 <= i < |s| ==> s[i] != NUL
  }

  /** A pattern without '^': its items, and whether a final '$' ties it to the end of the text. */
  function Items(re: string): seq<Item> {
    if re == "" || re == "$" then []
    else if |re| > 1 && re[1] == '*' then [Star(re[0])] + Items(re[2..])
    else [One(re[0])] + Items(re[1..])
  }

  predicate AtEnd(re: string) {
    if re == "" then false
    else if re == "$" then true
    else if |re| > 1 && re[1] == '*' then AtEnd(re[2..])
    else AtEnd(re[1..])
  }

  predicate Fits(c: char, t: char) {
    c == '.' || c == t
  }

  /** The text from a up to b is what the item describes. */
  ghost predicate Piece(item: Item, text: string, a: int, b: int) {
    && 0 <= a <= b <= |text|
    && (forall i :: a <= i < b ==> Fits(item.c, text[i]))
    && (item.One? ==> b == a + 1)
  }

  /** cuts splits a prefix of the text into the pieces of the items. */
  ghost predicate Cut(items: seq<Item>, end: bool, text: string, cuts: seq<int>) {
    && |cuts| == |items| + 1 && cuts[0] == 0 && 0 <= cuts[|items|] <= |text|
    && (forall k :: 0 <= k < |items| ==> Piece(items[k], text, cuts[k], cuts[k + 1]))
    && (end ==> cuts[|items|] == |text|)
  }

  ghost predicate HasPrefix(items: seq<Item>, end: bool, text: string) {
    exists cuts :: Cut(items, end, text, cuts)
  }

  /** What a pattern means: after '^' a prefix of the whole text, otherwise a prefix of some suffix. */
  ghost predicate Denotes(re: string, text: string) {
    if re != "" && re[0] == '^' then HasPrefix(Items(re[1..]), AtEnd(re[1..]), text)
    else exists i :: 0 <= i <= |text| && HasPrefix(Items(re), AtEnd(re), text[i..])
  }

  /** Taking the first piece off. */
  lemma CutRest(items: seq<Item>, end: bool, text: string, cuts: seq<int>)
    requires |items| > 0 && Cut(items, end, text, cuts)
    ensures Piece(items[0], text, 0, cuts[1]) && HasPrefix(items[1..], end, text[cuts[1]..])
  {
    var n := cuts[1];
    assert Piece(items[0], text, cuts[0], cuts[1]);
    CutsAscend(items, end, text, cuts);
    var cuts' := seq(|cuts| - 1, k requires 0 <= k < |cuts| - 1 => cuts[k + 1] - n);
    forall k | 0 <= k < |items| - 1 ensures Piece(items[1..][k], text[n..], cuts'[k], cuts'[k + 1]) {
      assert Piece(items[k + 1], text, cuts[k + 1], cuts[k + 2]);
    }
    assert Cut(items[1..], end, text[n..], cuts');
  }

  lemma {:induction false} CutsAscend(items: seq<Item>, end: bool, text: string, cuts: seq<int>)
    requires |items| > 0 && Cut(items, end, text, cuts)
    ensures forall k :: 1 <= k < |cuts| ==> cuts[1] <= cuts[k]
  {
    var k := 1;
    while k < |items|
      invariant 1 <= k <= |items| && forall j :: 1 <= j <= k ==> cuts[1] <= cuts[j]
    {
      assert Piece(items[k], text, cuts[k], cuts[k + 1]);
      k := k + 1;
    }
  }

  /** Putting a piece in front. */
  lemma CutMore(item: Item, items: seq<Item>, end: bool, text: string, n: nat)
    requires Piece(item, text, 0, n) && HasPrefix(items, end, text[n..])
    ensures HasPrefix([item] + items, end, text)
  {
    var cuts :| Cut(items, end, text[n..], cuts);
    var cuts' := [0] + seq(|cuts|, k requires 0 <= k < |cuts| => cuts[k] + n);
    forall k | 0 <= k < |items| + 1 ensures Piece(([item] + items)[k], text, cuts'[k], cuts'[k + 1]) {
      if k > 0 {
        assert Piece(items[k - 1], text[n..], cuts[k - 1], cuts[k]);
        forall i | cuts'[k] <= i < cuts'[k + 1] ensures Fits(items[k - 1].c, text[i]) {
          assert text[n..][i - n] == text[i];
        }
      }
    }
    assert Cut([item] + items, end, text, cuts');
  }

  lemma NoItems(end: bool, text: string)
    ensures HasPrefix([], end, text) <==> (end ==> text == "")
  {
    if end ==> text == "" { assert Cut([], end, text, [0]); }
  }

  lemma OneFirst(c: char, items: seq<Item>, end: bool, text: string)
    ensures HasPrefix([One(c)] + items, end, text) <==>
              text != "" && Fits(c, text[0]) && HasPrefix(items, end, text[1..])
  {
    if HasPrefix([One(c)] + items, end, text) {
      var cuts :| Cut([One(c)] + items, end, text, cuts);
      CutRest([One(c)] + items, end, text, cuts);
      assert ([One(c)] + items)[1..] == items;
    }
    if text != "" && Fits(c, text[0]) && HasPrefix(items, end, text[1..]) { CutMore(One(c), items, end, text, 1); }
  }

  ghost predicate StarAt(c: char, items: seq<Item>, end: bool, text: string, n: int) {
    Piece(Star(c), text, 0, n) && HasPrefix(items, end, text[n..])
  }

  lemma StarFirst(c: char, items: seq<Item>, end: bool, text: string)
    ensures HasPrefix([Star(c)] + items, end, text) <==> exists n :: StarAt(c, items, end, text, n)
  {
    if HasPrefix([Star(c)] + items, end, text) {
      var cuts :| Cut([Star(c)] + items, end, text, cuts);
      CutRest([Star(c)] + items, end, text, cuts);
      assert ([Star(c)] + items)[1..] == items;
      assert StarAt(c, items, end, text, cuts[1]);
    }
    if n :| StarAt(c, items, end, text, n) { CutMore(Star(c), items, end, text, n); }
  }

  /** match: true exactly when the text is in the language of the pattern. */
  method Match(re: string, text: string) returns (r: bool)
    requires IsText(re) && IsText(text)
    ensures r <==> Denotes(re, text)
  {
    if |re| > 0 && re[0] == '^' {
      r := MatchHere(re[1..], text);
      return;
    }
    var i := 0;
    while true
      invariant 0 <= i <= |text| && forall k :: 0 <= k < i ==> !HasPrefix(Items(re), AtEnd(re), text[k..])
      decreases |text| - i
    {
      r := MatchHere(re, text[i..]);
      if r || i == |text| {
        return;
      }
      i := i + 1;
    }
  }

  method MatchHere(re: string, text: string) returns (r: bool)
    requires IsText(re) && IsText(text)
    ensures r <==> HasPrefix(Items(re), AtEnd(re), text)
    decreases |re|, |text|, 0
  {
    if re == "" {
      NoItems(false, text);
      return true;
    }
    if |re| > 1 && re[1] == '*' {
      r := MatchStar(re[0], re[2..], text);
      return;
    }
    if re[0] == '$' && |re| == 1 {
      NoItems(true, text);
      return text == "";
    }
    OneFirst(re[0], Items(re[1..]), AtEnd(re[1..]), text);
    if text != "" && (re[0] == '.' || re[0] == text[0]) {
      r := MatchHere(re[1..], text[1..]);
      return;
    }
    return false;
  }

  method MatchStar(c: char, re: string, text: string) returns (r: bool)
    requires IsText(re) && IsText(text)
    ensures r <==> HasPrefix([Star(c)] + Items(re), AtEnd(re), text)
    decreases |re|, |text|, 1
  {
    StarFirst(c, Items(re), AtEnd(re), text);
    var i := 0;
    while true
      invariant 0 <= i <= |text| && Piece(Star(c), text, 0, i)
      invariant forall n :: 0 <= n < i ==> !HasPrefix(Items(re), AtEnd(re), text[n..])
      decreases |text| - i
    {
      r := MatchHere(re, text[i..]);
      if r {
        assert StarAt(c, Items(re), AtEnd(re), text, i);
        return;
      }
      if !(i < |text| && (text[i] == c || c == '.')) {
        return;
      }
      i := i + 1;
    }
  }

  // ---- grep's loop ----------------------------------------------------------------------------------------

  const BUFSIZE: nat := 1024

  /** Where strchr stops looking for a newline: the position of the first newline or NUL, or the length. */
  function Stop(s: string): (i: nat)
    ensures i <= |s| && (i < |s| ==> s[i] == '\n' || s[i] == '\0') && forall k :: 0 <= k < i ==>
                                                            s[k] != '\n' && s[k] != '\0'
  {
    if s == "" || s[0] == '\n' || s[0] == '\0' then 0 else 1 + Stop(s[1..])
  }

  /** There is a newline, with no NUL before it. */
  predicate HasLine(s: string) {
    Stop(s) < |s| && s[Stop(s)] == '\n'
  }

  /** The complete lines of the input up to the first one that holds a NUL or does not fit the buffer with its
      newline. */
  function Lines(s: string): seq<string> {
    var i := Stop(s);
    if !HasLine(s) || i + 1 >= BUFSIZE then [] else [s[..i]] + Lines(s[i + 1..])
  }

  function Joined(lines: seq<string>): string {
    if lines == [] then "" else lines[0] + (['\n'] + Joined(lines[1..]))
  }

  /** A line that fits the buffer with its newline. */
  predicate ShortLine(line: string) {
    |line| + 1 < BUFSIZE && forall k :: 0 <= k < |line| ==> line[k] != '\n' && line[k] != '\0'
  }

  ghost predicate StartsLine(s: string) {
    exists line, more :: ShortLine(line) && s == line + (['\n'] + more)
  }

  lemma {:induction false} StopAt(line: string, more: string)
    requires forall k :: 0 <= k < |line| ==> line[k] != '\n' && line[k] != '\0'
    ensures Stop(line + (['\n'] + more)) == |line| && HasLine(line + (['\n'] + more))
  {
    var s := line + (['\n'] + more);
    var i := Stop(s);
    assert s[|line|] == '\n';
  }

  lemma NoShortLine(s: string)
    ensures StartsLine(s) <==> HasLine(s) && Stop(s) + 1 < BUFSIZE
  {
    if StartsLine(s) {
      var line, more :| ShortLine(line) && s == line + (['\n'] + more);
      StopAt(line, more);
    }
    if HasLine(s) && Stop(s) + 1 < BUFSIZE {
      var i := Stop(s);
      assert s == s[..i] + (['\n'] + s[i + 1..]) && ShortLine(s[..i]);
    }
  }

  /** The lines of an input are the one way to write it as short lines and a rest that starts with none. */
  lemma {:induction false} LinesOf(lines: seq<string>, rest: string)
    requires (forall i :: 0 <= i < |lines| ==> ShortLine(lines[i])) && !StartsLine(rest)
    ensures Lines(Joined(lines) + rest) == lines
    decreases |lines|
  {
    hide Stop, StartsLine;
    if lines == [] {
      assert Joined(lines) + rest == rest;
      NoShortLine(rest);
    } else {
      var line, more := lines[0], Joined(lines[1..]) + rest;
      var s := Joined(lines) + rest;
      assert s == line + (['\n'] + more);
      StopAt(line, more);
      assert s[..|line|] == line && s[|line| + 1..] == more;
      LinesOf(lines[1..], rest);
    }
  }

  lemma JoinedMore(line: string, lines: seq<string>)
    ensures Joined([line] + lines) == line + (['\n'] + Joined(lines))
  {
    assert ([line] + lines)[1..] == lines;
  }

  /** Every input can be written so. */
  lemma {:induction false} LinesSplit(s: string) returns (rest: string)
    ensures s == Joined(Lines(s)) + rest && !StartsLine(rest)
    ensures forall i :: 0 <= i < |Lines(s)| ==> ShortLine(Lines(s)[i])
    decreases |s|
  {
    hide StartsLine, Stop, Lines, Joined;
    NoShortLine(s);
    var i := Stop(s);
    if !HasLine(s) || i + 1 >= BUFSIZE {
      rest := s;
      NoLines(s);
    } else {
      rest := LinesSplit(s[i + 1..]);
      FirstLine(s);
      JoinedMore(s[..i], Lines(s[i + 1..]));
      assert s == s[..i] + (['\n'] + s[i + 1..]);
    }
  }

  lemma NoLines(s: string)
    requires !HasLine(s) || Stop(s) + 1 >= BUFSIZE
    ensures Lines(s) == [] && Joined([]) == ""
  {
  }

  ghost function Matching(re: string, lines: seq<string>): seq<string> {
    if lines == [] then []
    else if Denotes(re, lines[0]) then [lines[0]] + Matching(re, lines[1..])
    else Matching(re, lines[1..])
  }

  lemma {:induction false} MatchingAppend(re: string, a: seq<string>, line: string)
    ensures Matching(re, a + [line]) == Matching(re, a) + if Denotes(re, line) then [line] else []
  {
    if a != [] {
      MatchingAppend(re, a[1..], line);
      assert (a + [line])[1..] == a[1..] + [line];
    }
  }

  lemma {:induction false} StopIn(a: string, b: string)
    ensures if Stop(a) < |a| then Stop(a + b) == Stop(a) else Stop(a + b) >= |a|
  {
    if a != "" && a[0] != '\n' && a[0] != '\0' {
      StopIn(a[1..], b);
      assert (a + b)[1..] == a[1..] + b;
    }
  }

  /** However read cuts the input into pieces, grep prints exactly the matching lines, in order, up to the first
      line that holds a NUL or does not fit its buffer. `sizes` gives the size of each read. */
  method Run(re: string, input: string, sizes: nat -> nat) returns (out: seq<string>)
    requires IsText(re)
    ensures out == Matching(re, Lines(input))
  {
    hide Lines, Matching, Stop, HasLine;
    var buf, pos, k := "", 0, 0;
    NothingYet(re);
    ghost var seen: seq<string> := [];
    out := [];
    assert "" + input[0..] == input && [] + Lines(input) == Lines(input);
    while true
      invariant 0 <= pos <= |input| && |buf| < BUFSIZE && !HasLine(buf)
      invariant Lines(input) == seen + Lines(buf + input[pos..]) && out == Matching(re, seen)
      decreases |input| - pos
    {
      var n := ReadSize(sizes(k), BUFSIZE - |buf| - 1, |input| - pos);
      k := k + 1;
      if n == 0 {
        LastLine(buf, input[pos..]);
        assert seen + [] == seen;
        return;
      }
      ghost var rest := input[pos + n..];
      assert buf + input[pos..] == (buf + input[pos..pos + n]) + rest;
      buf := buf + input[pos..pos + n];
      pos := pos + n;
      buf, out, seen := Scan(re, buf, rest, out, seen);
    }
  }

  lemma NothingYet(re: string)
    ensures !HasLine("") && Matching(re, []) == []
  {
  }

  /** What read may return for a request of `space` bytes when `left` remain. */
  function ReadSize(wish: nat, space: nat, left: nat): (n: nat)
    ensures n <= space && n <= left && (n == 0 <==> space == 0 || left == 0)
  {
    var m := if space < left then space else left;
    if m == 0 then 0 else if wish == 0 then 1 else if wish > m then m else wish
  }

  lemma LastLine(buf: string, rest: string)
    requires !HasLine(buf) && (rest == "" || |buf| + 1 >= BUFSIZE)
    ensures Lines(buf + rest) == []
  {
    if rest == "" {
      assert buf + rest == buf;
    } else {
      StopIn(buf, rest);
    }
  }

  /** The inner loop: every complete line in the buffer is matched, the rest moves to the front. */
  method Scan(re: string, buf0: string, ghost rest: string, out0: seq<string>, ghost seen0: seq<string>)
    returns (buf: string, out: seq<string>, ghost seen: seq<string>)
    requires IsText(re) && |buf0| < BUFSIZE && out0 == Matching(re, seen0)
    ensures |buf| <= |buf0| && !HasLine(buf)
    ensures seen0 + Lines(buf0 + rest) == seen + Lines(buf + rest) && out == Matching(re, seen)
  {
    hide Lines, Matching, HasLine, Stop, Denotes;
    var p := 0;
    out, seen := out0, seen0;
    while HasLine(buf0[p..])
      invariant 0 <= p <= |buf0| && out == Matching(re, seen)
      invariant seen0 + Lines(buf0 + rest) == seen + Lines(buf0[p..] + rest)
      decreases |buf0| - p
    {
      NextLine(buf0[p..], rest);
      var q := p + Stop(buf0[p..]);
      assert buf0[p..][..q - p] == buf0[p..q];
      assert buf0[p..][q - p + 1..] == buf0[q + 1..];
      assert forall k :: 0 <= k < q - p ==> buf0[p..q][k] == buf0[p..][k];
      var hit := Match(re, buf0[p..q]);
      MatchingAppend(re, seen, buf0[p..q]);
      if hit {
        out := out + [buf0[p..q]];
      }
      assert seen + ([buf0[p..q]] + Lines(buf0[q + 1..] + rest)) == (seen + [buf0[p..q]]) + Lines(buf0[q + 1..] + rest);
      seen := seen + [buf0[p..q]];
      p := q + 1;
    }
    buf := buf0[p..];
  }

  lemma {:induction false} NextLine(s: string, rest: string)
    requires HasLine(s) && |s| < BUFSIZE
    ensures Stop(s) < |s|
    ensures var i := Stop(s); Lines(s + rest) == [s[..i]] + Lines(s[i + 1..] + rest)
  {
    hide Lines, Stop;
    StopIn(s, rest);
    CutAt(s, rest, Stop(s));
    FirstLine(s + rest);
  }

  lemma CutAt(s: string, rest: string, i: nat)
    requires i < |s|
    ensures (s + rest)[..i] == s[..i] && (s + rest)[i + 1..] == s[i + 1..] + rest && (s + rest)[i] == s[i]
  {
  }

  lemma {:induction false} FirstLine(t: string)
    requires HasLine(t) && Stop(t) + 1 < BUFSIZE
    ensures Lines(t) == [t[..Stop(t)]] + Lines(t[Stop(t) + 1..])
  {
  }
}
