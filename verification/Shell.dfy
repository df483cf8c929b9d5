// The command parser of Ass2/sh.c.  A line is s followed by a NUL; positions stand for
// pointers into it.

module Shell {
  import opened Basics

  const NUL := '\0'
  const MAXARGS := 10

  predicate White(c: char) {
    c == ' ' || c == '\t' || c == '\r' || c == '\n' || c == '\U{0B}'
  }

  predicate Symbol(c: char) {
    c == '<' || c == '|' || c == '>' || c == '&' || c == ';' || c == '(' || c == ')'
  }

  predicate Plain(c: char) {
    c != NUL && !White(c) && !Symbol(c)
  }

  /** A C string: no NUL before its end. */
  predicate Line(s: string) {
    forall k :: 0 <= k < |s| ==> s[k] != NUL
  }

  /** *s, where the terminator reads as NUL. */
  function At(s: string, p: nat): char {
    if p < |s| then s[p] else NUL
  }

  /** Past the white space from p on. */
  function Skip(s: string, p: nat): (r: nat)
    requires p <= |s|
    ensures p <= r <= |s| && !White(At(s, r))
    ensures r > p ==> White(s[p])
    decreases |s| - p
  {
    if p < |s| && White(s[p]) then Skip(s, p + 1) else p
  }

  /** Past the plain characters from p on. */
  function WordEnd(s: string, p: nat): (r: nat)
    requires p <= |s|
    ensures p <= r <= |s| && !Plain(At(s, r))
    ensures forall k :: p <= k < r ==> Plain(s[k])
    decreases |s| - p
  {
    if p < |s| && Plain(s[p]) then WordEnd(s, p + 1) else p
  }

  datatype Kind = End | Sym(c: char) | Append | Word

  /** The token [q, eq) and the position after the white space behind it. */
  datatype Token = Token(kind: Kind, q: nat, eq: nat, next: nat)

  /** What gettoken reads at p. */
  function Lex(s: string, p: nat): (t: Token)
    requires Line(s) && p <= |s|
    ensures p <= t.q <= t.eq <= t.next <= |s| && t.q == Skip(s, p) && t.next == Skip(s, t.eq)
    ensures t.kind == End <==> t.q == |s|
    ensures t.kind != End ==> t.next > p
    ensures t.kind == Word ==> IsWord(s, Span(t.q, t.eq))
  {
    var q := Skip(s, p);
    var c := At(s, q);
    if c == NUL then Token(End, q, q, Skip(s, q))
    else if c == '>' then
      if At(s, q + 1) == '>' then Token(Append, q, q + 2, Skip(s, q + 2)) else Token(Sym(c), q, q + 1, Skip(s, q + 1))
    else if Symbol(c) then Token(Sym(c), q, q + 1, Skip(s, q + 1))
    else Token(Word, q, WordEnd(s, q), Skip(s, WordEnd(s, q)))
  }

  datatype Span = Span(q: nat, eq: nat)

  /** A maximal run of plain characters, as far as its end. */
  predicate IsWord(s: string, w: Span) {
    && w.q < w.eq <= |s| && (forall k :: w.q <= k < w.eq ==> Plain(s[k])) && !Plain(At(s, w.eq))
  }

  /** The tokens of the line from p on. */
  function Tokens(s: string, p: nat): seq<Token>
    requires Line(s) && p <= |s|
    decreases |s| - p
  {
    var t := Lex(s, p);
    if t.kind == End then [] else [t] + Tokens(s, t.next)
  }

  lemma SkipSkip(s: string, p: nat)
    requires p <= |s|
    ensures Skip(s, Skip(s, p)) == Skip(s, p)
  {
  }

  lemma {:induction false} SkipLex(s: string, p: nat)
    requires Line(s) && p <= |s|
    ensures Lex(s, Skip(s, p)) == Lex(s, p)
  {
    SkipSkip(s, p);
  }

  /** Skipping white space loses no token. */
  lemma {:induction false} SkipTokens(s: string, p: nat)
    requires Line(s) && p <= |s|
    ensures Tokens(s, Skip(s, p)) == Tokens(s, p) && Lex(s, Skip(s, p)) == Lex(s, p)
  {
    SkipLex(s, p);
    var t := Lex(s, p);
    assert Tokens(s, p) == if t.kind == End then [] else [t] + Tokens(s, t.next);
  }

  method SkipWhite(s: string, p: nat) returns (r: nat)
    requires p <= |s|
    ensures r == Skip(s, p)
  {
    r := p;
    while r < |s| && White(s[r])
      invariant p <= r <= |s| && Skip(s, r) == Skip(s, p)
    {
      r := r + 1;
    }
  }

  /** gettoken */
  method GetToken(s: string, p: nat) returns (t: Token)
    requires Line(s) && p <= |s|
    ensures t == Lex(s, p)
  {
    var q := SkipWhite(s, p);
    var r, kind := q, End;
    var c := At(s, q);
    if c == NUL {
    } else if c == '|' || c == '(' || c == ')' || c == ';' || c == '&' || c == '<' {
      r, kind := q + 1, Sym(c);
    } else if c == '>' {
      r, kind := q + 1, Sym(c);
      if At(s, r) == '>' {
        r, kind := q + 2, Append;
      }
    } else {
      kind := Word;
      while r < |s| && !White(s[r]) && !Symbol(s[r])
        invariant q <= r <= |s| && WordEnd(s, r) == WordEnd(s, q)
      {
        r := r + 1;
      }
    }
    var next := SkipWhite(s, r);
    t := Token(kind, q, r, next);
  }

  /** peek: the cursor moves over white space and looks at one character. */
  method Peek(s: string, p: nat, toks: string) returns (r: nat, hit: bool)
    requires Line(s) && p <= |s|
    ensures r == Skip(s, p) && (hit <==> r < |s| && s[r] in toks)
    ensures Tokens(s, r) == Tokens(s, p) && Lex(s, r) == Lex(s, p)
  {
    r := SkipWhite(s, p);
    SkipTokens(s, p);
    hit := r < |s| && s[r] in toks;
  }

  // ---------- commands and their grammar ----------

  /** A redirection operator and its file. */
  datatype Redirect = Redirect(op: Kind, file: Span)

  datatype Cmd =
    | Exec(args: seq<Span>)
    | Redir(cmd: Cmd, redirect: Redirect)
    | Pipe(left: Cmd, right: Cmd)
    | List(left: Cmd, right: Cmd)
    | Back(cmd: Cmd)

  predicate IsOp(t: Token) {
    t.kind == Sym('<') || t.kind == Sym('>') || t.kind == Append
  }

  function SpanOf(t: Token): Span { Span(t.q, t.eq) }

  /** Later redirections go outside. */
  function Wrap(cmd: Cmd, rs: seq<Redirect>): Cmd {
    if rs == [] then cmd else Redir(Wrap(cmd, rs[..|rs| - 1]), rs[|rs| - 1])
  }

  /** The descriptor a redirection closes and reopens. */
  function Fd(r: Redirect): nat {
    if r.op == Sym('<') then 0 else 1
  }

  /** The redirections in the order runcmd opens their files. */
  function Opens(cmd: Cmd): seq<Redirect> {
    match cmd
    case Redir(c, r) => [r] + Opens(c)
    case _ => []
  }

  /** What descriptor fd is open on when runcmd is through with the redirections of cmd. */
  function OpenOn(cmd: Cmd, fd: nat, was: Option<Span>): Option<Span> {
    match cmd
    case Redir(c, r) => OpenOn(c, fd, if Fd(r) == fd then Some(r.file) else was)
    case _ => was
  }

  /** The files are opened from right to left. */
  lemma {:induction false} RightToLeft(cmd: Cmd, rs: seq<Redirect>)
    ensures |Opens(Wrap(cmd, rs))| == |rs| + |Opens(cmd)|
    ensures forall k :: 0 <= k < |rs| ==> Opens(Wrap(cmd, rs))[k] == rs[|rs| - 1 - k]
    ensures Opens(Wrap(cmd, rs))[|rs|..] == Opens(cmd)
  {
    if rs != [] {
      RightToLeft(cmd, rs[..|rs| - 1]);
    }
  }

  /** So of several redirections of one descriptor the leftmost decides. */
  lemma {:induction false} LeftmostWins(args: seq<Span>, rs: seq<Redirect>, fd: nat, was: Option<Span>, k: nat)
    requires k <= |rs| && forall l :: 0 <= l < k ==> Fd(rs[l]) != fd
    requires k < |rs| ==> Fd(rs[k]) == fd
    ensures OpenOn(Wrap(Exec(args), rs), fd, was) == if k < |rs| then Some(rs[k].file) else was
  {
    if rs != [] {
      var n := |rs| - 1;
      LeftmostWins(args, rs[..n], fd, if Fd(rs[n]) == fd then Some(rs[n].file) else was, if k < |rs| then k else n);
    }
  }

  /** Arguments and redirections in any order; each operator is followed by its file. */
  predicate Simple(ts: seq<Token>, args: seq<Span>, rs: seq<Redirect>)
    decreases |ts|
  {
    if ts == [] then args == [] && rs == []
    else
      var n := |ts|;
      ts[n - 1].kind == Word &&
      if n >= 2 && IsOp(ts[n - 2]) then
        rs != [] && rs[|rs| - 1] == Redirect(ts[n - 2].kind, SpanOf(ts[n - 1])) &&
          Simple(ts[..n - 2], args, rs[..|rs| - 1])
      else
        args != [] && args[|args| - 1] == SpanOf(ts[n - 1]) && Simple(ts[..n - 1], args[..|args| - 1], rs)
  }

  predicate IsSimple(cmd: Cmd, ts: seq<Token>, args: seq<Span>, rs: seq<Redirect>) {
    |args| < MAXARGS && Simple(ts, args, rs) && cmd == Wrap(Exec(args), rs)
  }

  /** exec := simple | '(' line ')' redirections */
  ghost predicate IsExec(cmd: Cmd, ts: seq<Token>)
    decreases |ts|, 1
  {
    || (exists args, rs :: IsSimple(cmd, ts, args, rs))
    || (exists inner, j, rs :: IsBlock(cmd, ts, inner, j, rs))
  }

  ghost predicate IsBlock(cmd: Cmd, ts: seq<Token>, inner: Cmd, j: int, rs: seq<Redirect>)
    decreases |ts|, 0
  {
    && 0 < j < |ts| && ts[0].kind == Sym('(') && ts[j].kind == Sym(')')
    && IsLine(inner, ts[1..j]) && Simple(ts[j + 1..], [], rs) && cmd == Wrap(inner, rs)
  }

  /** pipe := exec | exec '|' pipe */
  ghost predicate IsPipe(cmd: Cmd, ts: seq<Token>)
    decreases |ts|, 2
  {
    || IsExec(cmd, ts)
    || (exists i :: PipeAt(cmd, ts, i))
  }

  ghost predicate PipeAt(cmd: Cmd, ts: seq<Token>, i: int)
    decreases |ts|, 1
  {
    cmd.Pipe? && 0 <= i < |ts| && ts[i].kind == Sym('|') && IsExec(cmd.left, ts[..i]) && IsPipe(cmd.right, ts[i + 1..])
  }

  /** pipe followed by any number of '&' */
  ghost predicate IsBacked(cmd: Cmd, ts: seq<Token>)
    decreases |ts|, 3
  {
    || IsPipe(cmd, ts)
    || (cmd.Back? && ts != [] && ts[|ts| - 1].kind == Sym('&') && IsBacked(cmd.cmd, ts[..|ts| - 1]))
  }

  /** line := backed | backed ';' line */
  ghost predicate IsLine(cmd: Cmd, ts: seq<Token>)
    decreases |ts|, 4
  {
    || IsBacked(cmd, ts)
    || (exists i :: LineAt(cmd, ts, i))
  }

  ghost predicate LineAt(cmd: Cmd, ts: seq<Token>, i: int)
    decreases |ts|, 1
  {
    cmd.List? && 0 <= i < |ts| && ts[i].kind == Sym(';') && IsBacked(cmd.left, ts[..i]) &&
      IsLine(cmd.right, ts[i + 1..])
  }

  /** Every argument and file of the command is a word of the line. */
  predicate AllWords(s: string, cmd: Cmd) {
    match cmd
    case Exec(args) => forall k :: 0 <= k < |args| ==> IsWord(s, args[k])
    case Redir(c, r) => IsWord(s, r.file) && AllWords(s, c)
    case Pipe(l, r) => AllWords(s, l) && AllWords(s, r)
    case List(l, r) => AllWords(s, l) && AllWords(s, r)
    case Back(c) => AllWords(s, c)
  }

  predicate FilesAreWords(s: string, rs: seq<Redirect>) {
    forall k :: 0 <= k < |rs| ==> IsWord(s, rs[k].file)
  }

  lemma {:induction false} WrapWords(s: string, cmd: Cmd, rs: seq<Redirect>)
    requires AllWords(s, cmd) && FilesAreWords(s, rs)
    ensures AllWords(s, Wrap(cmd, rs))
    decreases |rs|
  {
    if rs != [] {
      WrapWords(s, cmd, rs[..|rs| - 1]);
    }
  }

  /** The tokens ts were read between p and r. */
  ghost predicate Read(s: string, p: nat, ts: seq<Token>, r: nat) {
    Line(s) && p <= r <= |s| && Tokens(s, p) == ts + Tokens(s, r)
  }

  lemma {:induction false} ReadOne(s: string, p: nat, t: Token)
    requires Line(s) && p <= |s| && t == Lex(s, p) && t.kind != End
    ensures Read(s, p, [t], t.next)
  {
  }

  lemma {:induction false} ReadMore(s: string, p: nat, ts: seq<Token>, q: nat, us: seq<Token>, r: nat)
    requires Read(s, p, ts, q) && Read(s, q, us, r)
    ensures Read(s, p, ts + us, r)
  {
    assert ts + (us + Tokens(s, r)) == (ts + us) + Tokens(s, r);
  }

  lemma {:induction false} SimpleRedirect(ts: seq<Token>, args: seq<Span>, rs: seq<Redirect>, op: Token, w: Token)
    requires Simple(ts, args, rs) && IsOp(op) && w.kind == Word
    ensures Simple(ts + [op, w], args, rs + [Redirect(op.kind, SpanOf(w))])
  {
    var us := ts + [op, w];
    assert us[..|us| - 2] == ts;
    assert (rs + [Redirect(op.kind, SpanOf(w))])[..|rs|] == rs;
  }

  lemma {:induction false} SimpleArg(ts: seq<Token>, args: seq<Span>, rs: seq<Redirect>, w: Token)
    requires Simple(ts, args, rs) && w.kind == Word
    ensures Simple(ts + [w], args + [SpanOf(w)], rs)
  {
    var us := ts + [w];
    assert us[..|us| - 1] == ts;
    assert (args + [SpanOf(w)])[..|args|] == args;
  }

  /** One operator and its file. */
  method OneRedirect(s: string, p: nat) returns (ok: bool, op: Token, w: Token)
    requires Line(s) && p < |s| && s[p] in "<>"
    ensures ok ==>
      IsOp(op) && w.kind == Word && IsWord(s, SpanOf(w)) && p < w.next <= |s| && Read(s, p, [op, w], w.next)
    ensures op == Lex(s, p) && w == Lex(s, op.next) && (ok <==> w.kind == Word)
  {
    op := GetToken(s, p);
    w := GetToken(s, op.next);
    ok := w.kind == Word;
    if ok {
      ReadOne(s, p, op);
      ReadOne(s, op.next, w);
      ReadMore(s, p, [op], op.next, [w], w.next);
      assert [op] + [w] == [op, w];
    }
  }

  lemma {:induction false} Extend(s: string, p: nat, ts: seq<Token>, q: nat, us: seq<Token>, r: nat, r': nat)
    requires Read(s, p, ts, q) && Read(s, q, us, r) && r <= r' <= |s| && Tokens(s, r') == Tokens(s, r)
    ensures Read(s, p, ts + us, r')
  {
    ReadMore(s, p, ts, q, us, r);
  }

  // ---------- what a derivation forces the parser to do ----------

  /** The token behind ts[..k] is one of toks, or there is none. */
  predicate Follow(ts: seq<Token>, k: nat, toks: string) {
    k == |ts| || (k < |ts| && ts[k].kind.Sym? && ts[k].kind.c in toks)
  }

  /** In a simple command every token is a word or an operator, and a word follows each
      operator. */
  lemma {:induction false} SimpleTokens(ts: seq<Token>, args: seq<Span>, rs: seq<Redirect>, m: nat)
    requires Simple(ts, args, rs) && m < |ts|
    ensures ts[m].kind == Word || (IsOp(ts[m]) && m + 1 < |ts| && ts[m + 1].kind == Word)
    decreases |ts|
  {
    var n := |ts|;
    if n >= 2 && IsOp(ts[n - 2]) {
      if m < n - 2 { SimpleTokens(ts[..n - 2], args, rs[..|rs| - 1], m); }
    } else if m < n - 1 {
      SimpleTokens(ts[..n - 1], args[..|args| - 1], rs, m);
    }
  }

  lemma {:induction false} SimpleUnique(ts: seq<Token>, a: seq<Span>, r: seq<Redirect>, a': seq<Span>,
      r': seq<Redirect>)
    requires Simple(ts, a, r) && Simple(ts, a', r')
    ensures a == a' && r == r'
    decreases |ts|
  {
    var n := |ts|;
    if n > 0 {
      if n >= 2 && IsOp(ts[n - 2]) {
        SimpleUnique(ts[..n - 2], a, r[..|r| - 1], a', r'[..|r'| - 1]);
        assert r == r[..|r| - 1] + [r[|r| - 1]] && r' == r'[..|r'| - 1] + [r'[|r'| - 1]];
      } else {
        SimpleUnique(ts[..n - 1], a[..|a| - 1], r, a'[..|a'| - 1], r');
        assert a == a[..|a| - 1] + [a[|a| - 1]] && a' == a'[..|a'| - 1] + [a'[|a'| - 1]];
      }
    }
  }

  /** A simple prefix has no more arguments than the whole. */
  lemma {:induction false} SimplePrefix(ts: seq<Token>, a: seq<Span>, r: seq<Redirect>, m: nat, a': seq<Span>,
      r': seq<Redirect>)
    requires Simple(ts, a, r) && m <= |ts| && Simple(ts[..m], a', r')
    ensures |a'| <= |a|
    decreases |ts|
  {
    var n := |ts|;
    if m == n {
      assert ts[..m] == ts;
      SimpleUnique(ts, a, r, a', r');
    } else if n >= 2 && IsOp(ts[n - 2]) {
      assert m <= n - 2;
      assert ts[..n - 2][..m] == ts[..m];
      SimplePrefix(ts[..n - 2], a, r[..|r| - 1], m, a', r');
    } else {
      assert ts[..n - 1][..m] == ts[..m];
      SimplePrefix(ts[..n - 1], a[..|a| - 1], r, m, a', r');
    }
  }
}
