// The recursive-descent parser of Ass2/sh.c against the grammar.  A panic is a false ok.
// The ghost parameters name a derivation of a prefix of the tokens, if there is one; the
// parser then finds exactly that one.

module ShellParse {
  import opened Shell
  import opened ShellGrammar

  lemma {:induction false} NextToken(s: string, p0: nat, ts: seq<Token>, p: nat)
    requires p <= |s| && Read(s, p0, ts, p)
    ensures Lex(s, p).kind == End <==> |Tokens(s, p0)| == |ts|
    ensures Lex(s, p).kind != End ==> |Tokens(s, p0)| > |ts| && Tokens(s, p0)[|ts|] == Lex(s, p)
    ensures Tokens(s, p0)[..|ts|] == ts
  {
  }

  /** What the character under the cursor says about the next token. */
  lemma CursorToken(s: string, p: nat)
    requires Line(s) && p <= |s| && p == Skip(s, p)
    ensures Lex(s, p).q == p && (Lex(s, p).kind == End <==> p == |s|)
    ensures p < |s| && s[p] in "<>" ==> IsOp(Lex(s, p))
    ensures p < |s| && s[p] in "|)&;(" ==> Lex(s, p).kind == Sym(s[p])
    ensures Lex(s, p).kind.Sym? ==> Lex(s, p).kind.c == s[p]
    ensures p < |s| && IsOp(Lex(s, p)) ==> s[p] in "<>"
  {
  }

  lemma {:induction false} RedirectTaken(s: string, p0: nat, ts: seq<Token>, p: nat, args: seq<Span>,
      rs: seq<Redirect>, op: Token, w: Token, r: nat)
    requires Read(s, p0, ts, p) && Simple(ts, args, rs) && FilesAreWords(s, rs) && Read(s, p, [op, w], w.next) &&
      IsOp(op) && w.kind == Word
    requires IsWord(s, SpanOf(w)) && r == Skip(s, w.next) && w.next <= r <= |s| && Tokens(s, r) == Tokens(s, w.next)
    ensures Read(s, p0, ts + [op, w], r) && Simple(ts + [op, w], args, rs + [Redirect(op.kind, SpanOf(w))])
    ensures FilesAreWords(s, rs + [Redirect(op.kind, SpanOf(w))]) && r == Skip(s, r)
  {
    SkipSkip(s, w.next);
    Extend(s, p0, ts, p, [op, w], w.next, r);
    SimpleRedirect(ts, args, rs, op, w);
  }

  /** parseredirs: the redirections found are added to rs; the caller wraps its command in
      them.  ts are the tokens of the command so far, of which the first k are wanted. */
  method ParseRedirs(s: string, p: nat, rs: seq<Redirect>, ghost p0: nat, ghost ts: seq<Token>, ghost args: seq<Span>,
                     ghost k: int, ghost wa: seq<Span>, ghost wr: seq<Redirect>)
    returns (ok: bool, r: nat, rs': seq<Redirect>, ghost ts': seq<Token>)
    requires p <= |s| && Read(s, p0, ts, p) && Simple(ts, args, rs) && FilesAreWords(s, rs)
    requires k >= 0 ==>
      |ts| <= k <= |Tokens(s, p0)| && Simple(Tokens(s, p0)[..k], wa, wr) && Follow(Tokens(s, p0), k, "|)&;")
    ensures ok ==> p <= r && Read(s, p0, ts', r) && Simple(ts', args, rs') && FilesAreWords(s, rs')
    ensures ok ==> !(r < |s| && s[r] in "<>") && r == Skip(s, r)
    ensures k >= 0 ==> ok && |ts'| <= k
  {
    var hit;
    rs', ts' := rs, ts;
    r, hit := Peek(s, p, "<>");
    SkipSkip(s, p);
    while hit
      invariant p <= r <= |s| && r == Skip(s, r) && (hit <==> r < |s| && s[r] in "<>")
      invariant Read(s, p0, ts', r) && Simple(ts', args, rs') && FilesAreWords(s, rs')
      invariant k >= 0 ==> |ts'| <= k
      decreases |s| - r
    {
      var good, op, w := OneRedirect(s, r);
      if k >= 0 {
        FileFollows(s, p0, ts', r, k, wa, wr, op, w);
      }
      if !good {
        return false, r, rs', ts';
      }
      var r';
      r', hit := Peek(s, w.next, "<>");
      RedirectTaken(s, p0, ts', r, args, rs', op, w, r');
      r, ts', rs' := r', ts' + [op, w], rs' + [Redirect(op.kind, SpanOf(w))];
    }
    ok := true;
  }

  /** A wanted operator is followed by its file. */
  lemma {:induction false} FileFollows(s: string, p0: nat, ts: seq<Token>, p: nat, k: nat, wa: seq<Span>,
      wr: seq<Redirect>, op: Token, w: Token)
    requires p < |s| && Read(s, p0, ts, p) && p == Skip(s, p) && s[p] in "<>" && op == Lex(s, p) && w == Lex(s, op.next)
    requires |ts| <= k <= |Tokens(s, p0)| && Simple(Tokens(s, p0)[..k], wa, wr) && Follow(Tokens(s, p0), k, "|)&;")
    ensures w.kind == Word && |ts| + 2 <= k
  {
    CursorToken(s, p);
    NextToken(s, p0, ts, p);
    var tt := Tokens(s, p0);
    assert tt[|ts|] == op && IsOp(op);
    assert |ts| < k;
    SimpleTokens(tt[..k], wa, wr, |ts|);
    ReadOne(s, p, op);
    ReadMore(s, p0, ts, p, [op], op.next);
    NextToken(s, p0, ts + [op], op.next);
  }

  ghost predicate WantSimple(s: string, p0: nat, k: int, wa: seq<Span>, wr: seq<Redirect>)
    requires Line(s) && p0 <= |s|
  {
    k >= 0 ==>
      k <= |Tokens(s, p0)| && |wa| < MAXARGS && Simple(Tokens(s, p0)[..k], wa, wr) &&
      Follow(Tokens(s, p0), k, "|)&;")
  }

  predicate ArgsAreWords(s: string, args: seq<Span>) {
    forall i :: 0 <= i < |args| ==> IsWord(s, args[i])
  }

  /** Inside a wanted command the next token, if not an operator, is an argument. */
  lemma {:induction false} ArgFollows(s: string, p0: nat, ts: seq<Token>, p: nat, k: nat, wa: seq<Span>,
      wr: seq<Redirect>, t: Token)
    requires p <= |s| && Read(s, p0, ts, p) && p == Skip(s, p) && t == Lex(s, p) && t.kind != End
    requires !(p < |s| && s[p] in "<>") && !(p < |s| && s[p] in "|)&;")
    requires |ts| <= k && WantSimple(s, p0, k, wa, wr)
    ensures t.kind == Word && |ts| < k
  {
    CursorToken(s, p);
    NextToken(s, p0, ts, p);
    SimpleTokens(Tokens(s, p0)[..k], wa, wr, |ts|);
  }

  /** The loop stops where the wanted command does. */
  lemma {:induction false} CommandEnds(s: string, p0: nat, ts: seq<Token>, p: nat, k: nat, wa: seq<Span>,
      wr: seq<Redirect>)
    requires p <= |s| && Read(s, p0, ts, p) && p == Skip(s, p) && (p == |s| || s[p] in "|)&;")
    requires |ts| <= k && WantSimple(s, p0, k, wa, wr)
    ensures |ts| == k
  {
    CursorToken(s, p);
    NextToken(s, p0, ts, p);
    if |ts| < k {
      SimpleTokens(Tokens(s, p0)[..k], wa, wr, |ts|);
    }
  }

  lemma {:induction false} FewArgs(s: string, p0: nat, ts: seq<Token>, p: nat, k: nat, wa: seq<Span>,
      wr: seq<Redirect>, args: seq<Span>, rs: seq<Redirect>)
    requires p <= |s| && Read(s, p0, ts, p) && Simple(ts, args, rs) && |ts| <= k && WantSimple(s, p0, k, wa, wr)
    ensures |args| < MAXARGS
  {
    NextToken(s, p0, ts, p);
    assert Tokens(s, p0)[..k][..|ts|] == ts;
    SimplePrefix(Tokens(s, p0)[..k], wa, wr, |ts|, args, rs);
  }

  lemma {:induction false} ArgTaken(s: string, p: nat, t: Token, args: seq<Span>, rs: seq<Redirect>, p0: nat,
      ts: seq<Token>,
                                    k: int, wa: seq<Span>, wr: seq<Redirect>)
    requires p <= |s| && Read(s, p0, ts, p) && Simple(ts, args, rs) && t == Lex(s, p) && t.kind == Word
    requires ArgsAreWords(s, args) && WantSimple(s, p0, k, wa, wr) && (k >= 0 ==> |ts| < k)
    ensures Read(s, p0, ts + [t], t.next) && Simple(ts + [t], args + [SpanOf(t)], rs) &&
      ArgsAreWords(s, args + [SpanOf(t)])
    ensures k >= 0 ==> |args| + 1 < MAXARGS
  {
    ReadOne(s, p, t);
    ReadMore(s, p0, ts, p, [t], t.next);
    SimpleArg(ts, args, rs, t);
    if k >= 0 {
      FewArgs(s, p0, ts + [t], t.next, k, wa, wr, args + [SpanOf(t)], rs);
    }
  }

  /** One more argument and what is redirected behind it. */
  method ParseArg(s: string, p: nat, t: Token, args: seq<Span>, rs: seq<Redirect>, ghost p0: nat, ghost ts: seq<Token>,
                  ghost k: int, ghost wa: seq<Span>, ghost wr: seq<Redirect>)
    returns (ok: bool, r: nat, args': seq<Span>, rs': seq<Redirect>, ghost ts': seq<Token>)
    requires p <= |s| && Read(s, p0, ts, p) && Simple(ts, args, rs) && FilesAreWords(s, rs) && t == Lex(s, p) &&
      t.kind != End
    requires |args| < MAXARGS && ArgsAreWords(s, args) && WantSimple(s, p0, k, wa, wr) &&
      (k >= 0 ==> |ts| < k && t.kind == Word)
    ensures ok ==> t.kind == Word && args' == args + [SpanOf(t)] && |args'| < MAXARGS && ArgsAreWords(s, args')
    ensures ok ==> p < r && Read(s, p0, ts', r) && Simple(ts', args', rs') && FilesAreWords(s, rs')
    ensures ok ==> !(r < |s| && s[r] in "<>") && r == Skip(s, r)
    ensures k >= 0 ==> ok && |ts'| <= k
  {
    r, args', rs', ts' := p, args, rs, ts;
    if t.kind != Word {
      return false, r, args', rs', ts';
    }
    ArgTaken(s, p, t, args, rs, p0, ts, k, wa, wr);
    args', ts' := args + [SpanOf(t)], ts + [t];
    if |args'| >= MAXARGS {
      return false, r, args', rs', ts';
    }
    ok, r, rs', ts' := ParseRedirs(s, t.next, rs, p0, ts', args', k, wa, wr);
  }

  /** parseexec of a command that is not in parentheses. */
  method ParseSimple(s: string, p: nat, ghost k: int, ghost wa: seq<Span>, ghost wr: seq<Redirect>)
    returns (ok: bool, r: nat, args: seq<Span>, rs: seq<Redirect>, ghost ts: seq<Token>)
    requires Line(s) && p <= |s| && WantSimple(s, p, k, wa, wr)
    ensures ok ==>
      p <= r <= |s| && Read(s, p, ts, r) && Simple(ts, args, rs) && |args| < MAXARGS && FilesAreWords(s, rs)
    ensures ok ==> ArgsAreWords(s, args)
    ensures k >= 0 ==> ok && |ts| == k
  {
    args := [];
    ok, r, rs, ts := ParseRedirs(s, p, [], p, [], [], k, wa, wr);
    if !ok {
      return;
    }
    var hit;
    r, hit := Peek(s, r, "|)&;");
    while !hit
      invariant ok && p <= r <= |s| && r == Skip(s, r) && (hit <==> r < |s| && s[r] in "|)&;") &&
        !(r < |s| && s[r] in "<>")
      invariant Read(s, p, ts, r) && Simple(ts, args, rs) && |args| < MAXARGS && FilesAreWords(s, rs)
      invariant ArgsAreWords(s, args)
      invariant k >= 0 ==> |ts| <= k
      decreases |s| - r, !hit
    {
      var t := GetToken(s, r);
      if t.kind == End {
        break;
      }
      if k >= 0 {
        ArgFollows(s, p, ts, r, k, wa, wr, t);
      }
      ok, r, args, rs, ts := ParseArg(s, r, t, args, rs, p, ts, k, wa, wr);
      if !ok {
        return;
      }
      r, hit := Peek(s, r, "|)&;");
    }
    if k >= 0 {
      CommandEnds(s, p, ts, r, k, wa, wr);
    }
  }

  // ---------- the mutually recursive parsers ----------

  ghost predicate WantExec(s: string, p: nat, w: Want)
    requires Line(s) && p <= |s|
  {
    w.Want? ==> w.k <= |Tokens(s, p)| && IsExec(w.cmd, Tokens(s, p)[..w.k]) && Follow(Tokens(s, p), w.k, "|)&;")
  }

  /** A wanted command not starting with a parenthesis is simple. */
  lemma {:induction false} WantedSimple(s: string, p: nat, w: Want) returns (wa: seq<Span>, wr: seq<Redirect>)
    requires Line(s) && p <= |s| && WantExec(s, p, w) && w.Want? && Lex(s, p).kind != Sym('(')
    ensures WantSimple(s, p, w.k, wa, wr) && w.cmd == Wrap(Exec(wa), wr)
  {
    var us := Tokens(s, p)[..w.k];
    if us != [] { assert us[0] == Lex(s, p); }
    assert IsExec(w.cmd, us);
    assert !exists inner, j, rs :: IsBlock(w.cmd, us, inner, j, rs);
    wa, wr :| IsSimple(w.cmd, us, wa, wr);
  }

  ghost predicate WantPipe(s: string, p: nat, w: Want)
    requires Line(s) && p <= |s|
  {
    w.Want? ==> w.k <= |Tokens(s, p)| && IsPipe(w.cmd, Tokens(s, p)[..w.k]) && Follow(Tokens(s, p), w.k, ")&;")
  }

  ghost predicate WantLine(s: string, p: nat, w: Want)
    requires Line(s) && p <= |s|
  {
    w.Want? ==> w.k <= |Tokens(s, p)| && IsLine(w.cmd, Tokens(s, p)[..w.k]) && Follow(Tokens(s, p), w.k, ")")
  }

  /** parseexec */
  method ParseExec(s: string, p: nat, ghost w: Want) returns (ok: bool, cmd: Cmd, r: nat, ghost ts: seq<Token>)
    requires Line(s) && p <= |s| && WantExec(s, p, w)
    ensures ok ==> Read(s, p, ts, r) && IsExec(cmd, ts) && AllWords(s, cmd)
    ensures w.Want? ==> ok && cmd == w.cmd && |ts| == w.k
    decreases |s| - p, 1
  {
    var p', hit := Peek(s, p, "(");
    SkipSkip(s, p);
    CursorToken(s, p');
    if hit {
      ok, cmd, r, ts := ParseBlock(s, p', w);
      return;
    }
    ghost var k: int, wa: seq<Span>, wr: seq<Redirect> := -1, [], [];
    if w.Want? {
      k := w.k;
      wa, wr := WantedSimple(s, p, w);
    }
    var args, rs;
    ok, r, args, rs, ts := ParseSimple(s, p, k, wa, wr);
    cmd := Wrap(Exec(args), rs);
    if ok {
      WrapWords(s, Exec(args), rs);
      assert IsSimple(cmd, ts, args, rs);
      if w.Want? {
        assert Tokens(s, p)[..w.k] == ts;
        SimpleUnique(ts, args, rs, wa, wr);
      }
    }
  }

  /** In a run of redirections the next token, if any, is an operator. */
  lemma {:induction false} OnlyRedirects(us: seq<Token>, wr: seq<Redirect>, m: nat, rs: seq<Redirect>)
    requires Simple(us, [], wr) && m < |us| && Simple(us[..m], [], rs)
    ensures IsOp(us[m])
    decreases |us|
  {
    var n := |us|;
    assert n >= 2 && IsOp(us[n - 2]);
    assert m <= n - 2;
    if m < n - 2 {
      assert us[..n - 2][..m] == us[..m];
      OnlyRedirects(us[..n - 2], wr[..|wr| - 1], m, rs);
    }
  }

  /** The redirections behind a block. */
  method ParseTail(s: string, p: nat, ghost k: int, ghost wr: seq<Redirect>)
      returns (ok: bool, r: nat, rs: seq<Redirect>, ghost ts: seq<Token>)
    requires Line(s) && p <= |s| && WantSimple(s, p, k, [], wr)
    ensures ok ==> p <= r && Read(s, p, ts, r) && Simple(ts, [], rs) && FilesAreWords(s, rs)
    ensures k >= 0 ==> ok && |ts| == k && rs == wr
  {
    ok, r, rs, ts := ParseRedirs(s, p, [], p, [], [], k, [], wr);
    if k >= 0 {
      TailEnds(s, p, ts, r, k, wr, rs);
    }
  }

  lemma {:induction false} TailEnds(s: string, p0: nat, ts: seq<Token>, p: nat, k: nat, wr: seq<Redirect>,
      rs: seq<Redirect>)
    requires p <= |s| && Read(s, p0, ts, p) && Simple(ts, [], rs) && |ts| <= k && WantSimple(s, p0, k, [], wr)
    requires p == Skip(s, p) && !(p < |s| && s[p] in "<>")
    ensures |ts| == k && rs == wr
  {
    CursorToken(s, p);
    NextToken(s, p0, ts, p);
    var us := Tokens(s, p0)[..k];
    assert us[..|ts|] == ts;
    if |ts| < k {
      OnlyRedirects(us, wr, |ts|, rs);
    }
    assert us == ts;
    SimpleUnique(ts, [], rs, [], wr);
  }

  /** The closing parenthesis and the redirections behind it. */
  method ParseClose(s: string, p: nat, ghost k: int, ghost wr: seq<Redirect>)
      returns (ok: bool, r: nat, rs: seq<Redirect>, ghost ts: seq<Token>)
    requires Line(s) && p <= |s| && (k >= 0 ==> Lex(s, p).kind == Sym(')') && WantSimple(s, Lex(s, p).next, k, [], wr))
    ensures ok ==>
      p <= r && Read(s, p, ts, r) && ts != [] && ts[0].kind == Sym(')') && Simple(ts[1..], [], rs) &&
      FilesAreWords(s, rs)
    ensures k >= 0 ==> ok && |ts| == k + 1 && rs == wr
  {
    r, rs, ts := p, [], [];
    var q, hit := Peek(s, p, ")");
    SkipSkip(s, p);
    CursorToken(s, q);
    if !hit {
      return false, r, rs, ts;
    }
    var t := GetToken(s, q);
    ok, r, rs, ts := ParseTail(s, t.next, k, wr);
    if ok {
      ReadOne(s, p, t);
      ReadMore(s, p, [t], t.next, ts, r);
      ts := [t] + ts;
    }
  }

  lemma {:induction false} BlockBuilt(s: string, p: nat, t: Token, tl: seq<Token>, q: nat, tc: seq<Token>, r: nat,
      c: Cmd, rs: seq<Redirect>)
    returns (ts: seq<Token>)
    requires Line(s) && p <= |s| && t == Lex(s, p) && t.kind == Sym('(') && Read(s, t.next, tl, q) && IsLine(c, tl)
    requires Read(s, q, tc, r) && tc != [] && tc[0].kind == Sym(')') && Simple(tc[1..], [], rs)
    ensures Read(s, p, ts, r) && IsExec(Wrap(c, rs), ts) && |ts| == |tl| + |tc| + 1
  {
    ts := [t] + tl + tc;
    ReadOne(s, p, t);
    ReadMore(s, p, [t], t.next, tl, q);
    ReadMore(s, p, [t] + tl, q, tc, r);
    BlockIs(t, tl, tc, c, rs);
  }

  lemma {:induction false} BlockIs(t: Token, tl: seq<Token>, tc: seq<Token>, c: Cmd, rs: seq<Redirect>)
    requires t.kind == Sym('(') && IsLine(c, tl) && tc != [] && tc[0].kind == Sym(')') && Simple(tc[1..], [], rs)
    ensures IsExec(Wrap(c, rs), [t] + tl + tc)
  {
    var ts, j := [t] + tl + tc, |tl| + 1;
    assert ts[1..j] == tl && ts[j + 1..] == tc[1..] && ts[j] == tc[0] && ts[0] == t;
    assert IsBlock(Wrap(c, rs), ts, c, j, rs);
  }

  lemma {:induction false} FirstToken(s: string, p: nat, t: Token)
    requires Line(s) && p <= |s| && t == Lex(s, p) && t.kind != End
    ensures Tokens(s, p) == [t] + Tokens(s, t.next)
  {
  }

  /** parseblock behind the line. */
  method BlockRest(s: string, p: nat, t: Token, c: Cmd, q: nat, ghost tl: seq<Token>, ghost k: int,
      ghost wr: seq<Redirect>)
    returns (ok: bool, cmd: Cmd, r: nat, ghost ts: seq<Token>)
    requires Line(s) && p <= |s| && t == Lex(s, p) &&
      t.kind == Sym('(') && Read(s, t.next, tl, q) && IsLine(c, tl) && AllWords(s, c)
    requires k >= 0 ==> Lex(s, q).kind == Sym(')') && WantSimple(s, Lex(s, q).next, k, [], wr)
    ensures ok ==> Read(s, p, ts, r) && IsExec(cmd, ts) && AllWords(s, cmd)
    ensures k >= 0 ==> ok && cmd == Wrap(c, wr) && |ts| == |tl| + k + 2
  {
    var rs;
    ghost var tc;
    cmd, ts := c, [];
    ok, r, rs, tc := ParseClose(s, q, k, wr);
    if ok {
      cmd := Wrap(c, rs);
      WrapWords(s, c, rs);
      ts := BlockBuilt(s, p, t, tl, q, tc, r, c, rs);
    }
  }

  /** parseblock behind the opening parenthesis. */
  method BlockBody(s: string, p: nat, t: Token, ghost wl: Want, ghost k: int, ghost wr: seq<Redirect>)
    returns (ok: bool, cmd: Cmd, r: nat, ghost ts: seq<Token>)
    requires Line(s) && p <= |s| && t == Lex(s, p) &&
      t.kind == Sym('(') && WantLine(s, t.next, wl) && (wl.Want? <==> k >= 0)
    requires k >= 0 ==> TailWanted(Tokens(s, t.next), wl.k, k, wr)
    ensures ok ==> Read(s, p, ts, r) && IsExec(cmd, ts) && AllWords(s, cmd)
    ensures k >= 0 ==> ok && cmd == Wrap(wl.cmd, wr) && |ts| == wl.k + k + 2
    decreases |s| - t.next, 5
  {
    var c, q;
    ghost var tl;
    r, ts, cmd := p, [], Exec([]);
    ok, c, q, tl := ParseLine(s, t.next, wl);
    if !ok {
      return;
    }
    if k >= 0 {
      Behind(s, t.next, tl, q);
    }
    ok, cmd, r, ts := BlockRest(s, p, t, c, q, tl, k, wr);
  }

  /** parseblock */
  method ParseBlock(s: string, p: nat, ghost w: Want) returns (ok: bool, cmd: Cmd, r: nat, ghost ts: seq<Token>)
    requires Line(s) && p <= |s| && WantExec(s, p, w) && Lex(s, p).kind == Sym('(')
    ensures ok ==> Read(s, p, ts, r) && IsExec(cmd, ts) && AllWords(s, cmd)
    ensures w.Want? ==> ok && cmd == w.cmd && |ts| == w.k
    decreases |s| - p, 0
  {
    ghost var wl, k: int, wr: seq<Redirect> := Nothing, -1, [];
    var t := GetToken(s, p);
    if w.Want? {
      FirstToken(s, p, t);
      var inner, j, rs := WantedBlock(w.cmd, Tokens(s, p), w.k, Tokens(s, t.next));
      wl, k, wr := Want(inner, j), w.k - j - 2, rs;
    }
    ok, cmd, r, ts := BlockBody(s, p, t, wl, k, wr);
  }

  /** The tokens behind ts, and behind the separator after ts. */
  lemma {:induction false} Behind(s: string, p: nat, ts: seq<Token>, q: nat)
    requires Line(s) && q <= |s| && Read(s, p, ts, q)
    ensures Tokens(s, q) == Tokens(s, p)[|ts|..] && Tokens(s, p)[..|ts|] == ts
    ensures Lex(s, q).kind == End <==> |Tokens(s, p)| == |ts|
    ensures Lex(s, q).kind != End ==> |Tokens(s, p)| > |ts| && Tokens(s, p)[|ts|] == Lex(s, q)
    ensures Lex(s, q).kind != End ==> Tokens(s, Lex(s, q).next) == Tokens(s, p)[|ts| + 1..]
  {
    NextToken(s, p, ts, q);
    if Lex(s, q).kind != End {
      var t := Lex(s, q);
      assert Tokens(s, q) == [t] + Tokens(s, t.next);
      assert Tokens(s, p)[|ts| + 1..] == Tokens(s, q)[1..];
    }
  }

  lemma {:induction false} Joined(s: string, p: nat, ts: seq<Token>, q: nat, t: Token, us: seq<Token>, r: nat)
    requires Line(s) && q <= |s| && Read(s, p, ts, q) && t == Lex(s, q) && t.kind != End && Read(s, t.next, us, r)
    ensures Read(s, p, ts + [t] + us, r)
  {
    ReadOne(s, q, t);
    ReadMore(s, p, ts, q, [t], t.next);
    ReadMore(s, p, ts + [t], t.next, us, r);
  }

  lemma {:induction false} PipeIs(l: Cmd, tl: seq<Token>, t: Token, r: Cmd, tr: seq<Token>)
    requires IsExec(l, tl) && t.kind == Sym('|') && IsPipe(r, tr)
    ensures IsPipe(Pipe(l, r), tl + [t] + tr)
  {
    var ts, i := tl + [t] + tr, |tl|;
    assert ts[i] == t && ts[..i] == tl && ts[i + 1..] == tr;
    assert PipeAt(Pipe(l, r), ts, i);
  }

  /** parsepipe behind its first command. */
  method PipeRest(s: string, p: nat, c: Cmd, q: nat, ghost ts: seq<Token>, ghost wanted: bool, ghost wr: Want)
    returns (ok: bool, cmd: Cmd, r: nat, ghost us: seq<Token>)
    requires Line(s) && p <= q <= |s| && Read(s, p, ts, q) && IsExec(c, ts) && AllWords(s, c)
    requires wr.Want? ==> wanted && Lex(s, q).kind == Sym('|') && WantPipe(s, Lex(s, q).next, wr)
    requires wanted && !wr.Want? ==> Lex(s, q).kind != Sym('|')
    ensures ok ==> Read(s, p, us, r) && IsPipe(cmd, us) && AllWords(s, cmd)
    ensures wr.Want? ==> ok && cmd == Pipe(c, wr.cmd) && |us| == |ts| + 1 + wr.k
    ensures wanted && !wr.Want? ==> ok && cmd == c && us == ts
    decreases |s| - q, 1
  {
    var hit;
    ok, cmd, us := true, c, ts;
    r, hit := Peek(s, q, "|");
    SkipSkip(s, q);
    CursorToken(s, r);
    if hit {
      var t := GetToken(s, r);
      var c', q';
      ghost var vs;
      ok, c', q', vs := ParsePipe(s, t.next, wr);
      if ok {
        Joined(s, p, ts, r, t, vs, q');
        PipeIs(c, ts, t, c', vs);
        cmd, r, us := Pipe(c, c'), q', ts + [t] + vs;
      }
    }
  }

  method PipeBody(s: string, p: nat, ghost wf: Want, ghost wr: Want)
      returns (ok: bool, cmd: Cmd, r: nat, ghost ts: seq<Token>)
    requires Line(s) && p <= |s| && WantExec(s, p, wf) && (wf.Want? ==> PipeGoes(Tokens(s, p), wf.k, wr)) &&
      (wr.Want? ==> wf.Want?)
    ensures ok ==> Read(s, p, ts, r) && IsPipe(cmd, ts) && AllWords(s, cmd)
    ensures wr.Want? ==> ok && cmd == Pipe(wf.cmd, wr.cmd) && |ts| == wf.k + 1 + wr.k
    ensures wf.Want? && !wr.Want? ==> ok && cmd == wf.cmd && |ts| == wf.k
    decreases |s| - p, 2, 0
  {
    ok, cmd, r, ts := ParseExec(s, p, wf);
    if !ok {
      return;
    }
    if wf.Want? {
      Behind(s, p, ts, r);
    }
    ok, cmd, r, ts := PipeRest(s, p, cmd, r, ts, wf.Want?, wr);
  }

  /** parsepipe */
  method ParsePipe(s: string, p: nat, ghost w: Want) returns (ok: bool, cmd: Cmd, r: nat, ghost ts: seq<Token>)
    requires Line(s) && p <= |s| && WantPipe(s, p, w)
    ensures ok ==> Read(s, p, ts, r) && IsPipe(cmd, ts) && AllWords(s, cmd)
    ensures w.Want? ==> ok && cmd == w.cmd && |ts| == w.k
    decreases |s| - p, 2, 1
  {
    ghost var wf, wr := Nothing, Nothing;
    if w.Want? {
      wf, wr := FirstOfPipe(w.cmd, Tokens(s, p), w.k);
    }
    ok, cmd, r, ts := PipeBody(s, p, wf, wr);
  }

  ghost predicate WantBacked(s: string, p: nat, w: Want)
    requires Line(s) && p <= |s|
  {
    w.Want? ==> w.k <= |Tokens(s, p)| && IsBacked(w.cmd, Tokens(s, p)[..w.k]) && Follow(Tokens(s, p), w.k, ");")
  }

  /** The loop over ampersands goes on exactly as far as wanted. */
  lemma {:induction false} AmpersandNext(s: string, p: nat, ts: seq<Token>, r: nat, b: nat, k: nat)
    requires Line(s) && r <= |s| && Read(s, p, ts, r) && r == Skip(s, r) && Ampersands(Tokens(s, p), b, k) &&
      b <= |ts| <= k
    ensures (r < |s| && s[r] in "&") <==> |ts| < k
  {
    CursorToken(s, r);
    NextToken(s, p, ts, r);
  }

  lemma {:induction false} BackMore(c: Cmd, m: nat)
    ensures Backs(c, m + 1) == Back(Backs(c, m))
  {
  }

  predicate AllAmpersands(ts: seq<Token>) {
    forall x :: 0 <= x < |ts| ==> ts[x].kind == Sym('&')
  }

  lemma {:induction false} BacksAre(s: string, c: Cmd, us: seq<Token>, tail: seq<Token>)
    requires IsBacked(c, us) && AllAmpersands(tail) && AllWords(s, c)
    ensures IsBacked(Backs(c, |tail|), us + tail) && AllWords(s, Backs(c, |tail|))
    decreases |tail|
  {
    if tail == [] {
      assert us + tail == us;
    } else {
      BacksAre(s, c, us, tail[..|tail| - 1]);
      var ts := us + tail;
      assert ts[..|ts| - 1] == us + tail[..|tail| - 1];
    }
  }

  /** One ampersand. */
  method OneBack(s: string, p: nat, r: nat, ghost us: seq<Token>, ghost tail: seq<Token>)
      returns (r': nat, hit: bool, ghost t: Token)
    requires Line(s) && r < |s| && r == Skip(s, r) && s[r] in "&" && Read(s, p, us + tail, r)
    ensures r < r' <= |s| && Read(s, p, us + (tail + [t]), r') && r' == Skip(s, r') &&
      (hit <==> r' < |s| && s[r'] in "&")
    ensures t.kind == Sym('&')
  {
    CursorToken(s, r);
    var tok := GetToken(s, r);
    t := tok;
    ReadOne(s, r, t);
    r', hit := Peek(s, tok.next, "&");
    SkipSkip(s, t.next);
    Extend(s, p, us + tail, r, [t], t.next, r');
    assert us + tail + [t] == us + (tail + [t]);
  }

  /** parseline's loop over ampersands. */
  method BackLoop(s: string, p: nat, c: Cmd, q: nat, ghost us: seq<Token>, ghost k: int)
      returns (cmd: Cmd, r: nat, ghost tail: seq<Token>)
    requires Line(s) && p <= q <= |s| && Read(s, p, us, q) && (k >= 0 ==> Ampersands(Tokens(s, p), |us|, k))
    ensures Read(s, p, us + tail, r) && AllAmpersands(tail) && cmd == Backs(c, |tail|)
    ensures k >= 0 ==> |us| + |tail| == k
  {
    var hit;
    ghost var m: nat := 0;
    cmd, tail := c, [];
    r, hit := Peek(s, q, "&");
    SkipSkip(s, q);
    assert us + tail == us;
    if k >= 0 { AmpersandNext(s, p, us, r, |us|, k); }
    while hit
      invariant p <= r <= |s| && Read(s, p, us + tail, r) && r == Skip(s, r) && (hit <==> r < |s| && s[r] in "&")
      invariant AllAmpersands(tail) && |tail| == m && cmd == Backs(c, m)
      invariant k >= 0 ==> |us| + |tail| <= k && (hit <==> |us| + |tail| < k)
      decreases |s| - r
    {
      ghost var t;
      r, hit, t := OneBack(s, p, r, us, tail);
      BackMore(c, m);
      cmd, tail, m := Back(cmd), tail + [t], m + 1;
      if k >= 0 { AmpersandNext(s, p, us + tail, r, |us|, k); }
    }
  }

  /** The first half of parseline. */
  method ParseBacked(s: string, p: nat, ghost w: Want) returns (ok: bool, cmd: Cmd, r: nat, ghost ts: seq<Token>)
    requires Line(s) && p <= |s| && WantBacked(s, p, w)
    ensures ok ==> Read(s, p, ts, r) && IsBacked(cmd, ts) && AllWords(s, cmd)
    ensures w.Want? ==> ok && cmd == w.cmd && |ts| == w.k
    decreases |s| - p, 3
  {
    ghost var c0: Cmd, b: nat, wp, k: int := Exec([]), 0, Nothing, -1;
    if w.Want? {
      c0, b := BackedSplit(w.cmd, Tokens(s, p), w.k);
      wp, k := Want(c0, b), w.k;
    }
    ok, cmd, r, ts := ParsePipe(s, p, wp);
    if ok {
      ghost var c, tail := cmd, [];
      cmd, r, tail := BackLoop(s, p, cmd, r, ts, k);
      BacksAre(s, c, ts, tail);
      ts := ts + tail;
    }
  }

  lemma {:induction false} LineIs(l: Cmd, tl: seq<Token>, t: Token, r: Cmd, tr: seq<Token>)
    requires IsBacked(l, tl) && t.kind == Sym(';') && IsLine(r, tr)
    ensures IsLine(List(l, r), tl + [t] + tr)
  {
    var ts, i := tl + [t] + tr, |tl|;
    assert ts[i] == t && ts[..i] == tl && ts[i + 1..] == tr;
    assert LineAt(List(l, r), ts, i);
  }

  /** parseline behind its first command. */
  method LineRest(s: string, p: nat, c: Cmd, q: nat, ghost ts: seq<Token>, ghost wanted: bool, ghost wr: Want)
    returns (ok: bool, cmd: Cmd, r: nat, ghost us: seq<Token>)
    requires Line(s) && p <= q <= |s| && Read(s, p, ts, q) && IsBacked(c, ts) && AllWords(s, c)
    requires wr.Want? ==> wanted && Lex(s, q).kind == Sym(';') && WantLine(s, Lex(s, q).next, wr)
    requires wanted && !wr.Want? ==> Lex(s, q).kind != Sym(';')
    ensures ok ==> Read(s, p, us, r) && IsLine(cmd, us) && AllWords(s, cmd)
    ensures wr.Want? ==> ok && cmd == List(c, wr.cmd) && |us| == |ts| + 1 + wr.k
    ensures wanted && !wr.Want? ==> ok && cmd == c && us == ts
    decreases |s| - q, 3
  {
    var hit;
    ok, cmd, us := true, c, ts;
    r, hit := Peek(s, q, ";");
    SkipSkip(s, q);
    CursorToken(s, r);
    if hit {
      var t := GetToken(s, r);
      var c', q';
      ghost var vs;
      ok, c', q', vs := ParseLine(s, t.next, wr);
      if ok {
        Joined(s, p, ts, r, t, vs, q');
        LineIs(c, ts, t, c', vs);
        cmd, r, us := List(c, c'), q', ts + [t] + vs;
      }
    }
  }

  method LineBody(s: string, p: nat, ghost wf: Want, ghost wr: Want)
      returns (ok: bool, cmd: Cmd, r: nat, ghost ts: seq<Token>)
    requires Line(s) && p <= |s| && WantBacked(s, p, wf) && (wf.Want? ==> LineGoes(Tokens(s, p), wf.k, wr)) &&
      (wr.Want? ==> wf.Want?)
    ensures ok ==> Read(s, p, ts, r) && IsLine(cmd, ts) && AllWords(s, cmd)
    ensures wr.Want? ==> ok && cmd == List(wf.cmd, wr.cmd) && |ts| == wf.k + 1 + wr.k
    ensures wf.Want? && !wr.Want? ==> ok && cmd == wf.cmd && |ts| == wf.k
    decreases |s| - p, 4, 0
  {
    ok, cmd, r, ts := ParseBacked(s, p, wf);
    if !ok {
      return;
    }
    if wf.Want? {
      Behind(s, p, ts, r);
    }
    ok, cmd, r, ts := LineRest(s, p, cmd, r, ts, wf.Want?, wr);
  }

  /** parseline */
  method ParseLine(s: string, p: nat, ghost w: Want) returns (ok: bool, cmd: Cmd, r: nat, ghost ts: seq<Token>)
    requires Line(s) && p <= |s| && WantLine(s, p, w)
    ensures ok ==> Read(s, p, ts, r) && IsLine(cmd, ts) && AllWords(s, cmd)
    ensures w.Want? ==> ok && cmd == w.cmd && |ts| == w.k
    decreases |s| - p, 4, 1
  {
    ghost var wf, wr := Nothing, Nothing;
    if w.Want? {
      wf, wr := FirstOfLine(w.cmd, Tokens(s, p), w.k);
    }
    ok, cmd, r, ts := LineBody(s, p, wf, wr);
  }

  ghost predicate InGrammar(s: string)
    requires Line(s)
  {
    exists c :: IsLine(c, Tokens(s, 0))
  }

  /** parsecmd up to nulterminate: it succeeds exactly on the lines of the grammar, with the
      tree the grammar gives; everything else is a syntax error. */
  method ParseCmd(s: string) returns (ok: bool, cmd: Cmd)
    requires Line(s)
    ensures ok <==> InGrammar(s)
    ensures ok ==> IsLine(cmd, Tokens(s, 0)) && AllWords(s, cmd)
    ensures ok ==> forall c :: IsLine(c, Tokens(s, 0)) ==> c == cmd
  {
    ghost var w := Nothing;
    if c :| IsLine(c, Tokens(s, 0)) {
      assert Tokens(s, 0)[..|Tokens(s, 0)|] == Tokens(s, 0);
      w := Want(c, |Tokens(s, 0)|);
    }
    var r;
    ghost var ts;
    ok, cmd, r, ts := ParseLine(s, 0, w);
    if ok {
      NextToken(s, 0, ts, r);
      var q, _ := Peek(s, r, "");
      ok := q == |s|;
      assert ok <==> Lex(s, r).kind == End;
      if ok {
        assert ts == Tokens(s, 0);
        assert IsLine(cmd, Tokens(s, 0));
        forall c | IsLine(c, Tokens(s, 0)) ensures c == cmd {
          OneTree(Tokens(s, 0), c, cmd);
        }
      }
    }
  }
}
