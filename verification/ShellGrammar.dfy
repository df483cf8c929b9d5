// The command grammar of Ass2/sh.c taken apart at the token level, and its unambiguity.

module ShellGrammar {
  import opened Shell

  /** A derivation of want.cmd from the next want.k tokens, or none. */
  datatype Want = Nothing | Want(cmd: Cmd, k: nat)

  /** Behind the first j tokens come the closing parenthesis and k tokens of redirections. */
  ghost predicate TailWanted(nn: seq<Token>, j: nat, k: nat, wr: seq<Redirect>) {
    && j < |nn| && nn[j].kind == Sym(')') && k <= |nn[j + 1..]|
    && Simple(nn[j + 1..][..k], [], wr) && Follow(nn[j + 1..], k, "|)&;")
  }

  lemma BlockParts(tt: seq<Token>, k: nat, i: nat, nn: seq<Token>)
    requires 0 < i < k <= |tt| && nn == tt[1..]
    ensures tt[..k][i] == nn[i - 1] && tt[..k][1..i] == nn[..i - 1] && tt[..k][i + 1..] == nn[i..][..k - i - 1]
    ensures |nn[i..]| == |tt| - i - 1 && (k < |tt| ==> nn[i..][k - i - 1] == tt[k])
  {
  }

  lemma DropTake(tt: seq<Token>, k: nat, j: nat)
    requires j <= k <= |tt|
    ensures tt[..k][j..] == tt[j..][..k - j] && tt[j..k] == tt[j..][..k - j] && |tt[j..]| == |tt| - j
  {
  }

  /** One that does start with a parenthesis is a block: a line, the closing parenthesis
      and redirections. */
  lemma {:induction false} WantedBlock(c: Cmd, tt: seq<Token>, k: nat, nn: seq<Token>)
      returns (inner: Cmd, j: nat, wr: seq<Redirect>)
    requires k <= |tt| && IsExec(c, tt[..k]) && Follow(tt, k, "|)&;") && tt != [] &&
      tt[0].kind == Sym('(') && nn == tt[1..]
    ensures j + 1 < k && c == Wrap(inner, wr) && IsLine(inner, nn[..j]) && TailWanted(nn, j, k - j - 2, wr)
  {
    var us := tt[..k];
    assert us != [] && us[0] == tt[0];
    forall args, rs ensures !IsSimple(c, us, args, rs) {
      if Simple(us, args, rs) { SimpleTokens(us, args, rs, 0); }
    }
    var i;
    inner, i, wr :| IsBlock(c, us, inner, i, wr);
    j := i - 1;
    BlockParts(tt, k, i, nn);
  }

  /** Behind the first i tokens come a separator and what r wants; or the pipeline ends there. */
  ghost predicate PipeGoes(tt: seq<Token>, i: nat, wr: Want) {
    if wr.Want? then
      && i < |tt| && tt[i].kind == Sym('|') && wr.k <= |tt[i + 1..]|
      && IsPipe(wr.cmd, tt[i + 1..][..wr.k]) && Follow(tt[i + 1..], wr.k, ")&;")
    else i <= |tt| && Follow(tt, i, ")&;")
  }

  /** A wanted pipeline is a first command and perhaps more. */
  lemma {:induction false} FirstOfPipe(c: Cmd, tt: seq<Token>, k: nat) returns (wf: Want, wr: Want)
    requires k <= |tt| && IsPipe(c, tt[..k]) && Follow(tt, k, ")&;")
    ensures wf.Want? && wf.k <= |tt| && IsExec(wf.cmd, tt[..wf.k]) && Follow(tt, wf.k, "|)&;") && PipeGoes(tt, wf.k, wr)
    ensures if wr.Want? then c == Pipe(wf.cmd, wr.cmd) && k == wf.k + 1 + wr.k else wf == Want(c, k)
  {
    var us := tt[..k];
    if IsExec(c, us) {
      wf, wr := Want(c, k), Nothing;
    } else {
      assert IsPipe(c, us);
      var i :| PipeAt(c, us, i);
      wf, wr := Want(c.left, i), Want(c.right, k - i - 1);
      DropTake(tt, k, i + 1);
      assert us[..i] == tt[..i] && us[i] == tt[i];
    }
  }

  function Backs(c: Cmd, m: nat): Cmd {
    if m == 0 then c else Back(Backs(c, m - 1))
  }

  /** From b to k the wanted tokens are ampersands. */
  ghost predicate Ampersands(tt: seq<Token>, b: nat, k: nat) {
    b <= k <= |tt| && Follow(tt, k, ");") && forall x :: b <= x < k ==> tt[x].kind == Sym('&')
  }

  /** A background command is a pipeline and some ampersands. */
  lemma {:induction false} BackBase(c: Cmd, us: seq<Token>) returns (c0: Cmd, b: nat)
    requires IsBacked(c, us)
    ensures b <= |us| && IsPipe(c0, us[..b]) && c == Backs(c0, |us| - b)
    ensures forall x :: b <= x < |us| ==> us[x].kind == Sym('&')
    decreases |us|
  {
    if IsPipe(c, us) {
      c0, b := c, |us|;
      assert us[..b] == us;
    } else {
      c0, b := BackBase(c.cmd, us[..|us| - 1]);
      assert us[..|us| - 1][..b] == us[..b];
    }
  }

  /** A wanted background command is a pipeline and some ampersands. */
  lemma {:induction false} BackedSplit(c: Cmd, tt: seq<Token>, k: nat) returns (c0: Cmd, b: nat)
    requires k <= |tt| && IsBacked(c, tt[..k]) && Follow(tt, k, ");")
    ensures Ampersands(tt, b, k) && IsPipe(c0, tt[..b]) && Follow(tt, b, ")&;") && c == Backs(c0, k - b)
  {
    c0, b := BackBase(c, tt[..k]);
    assert tt[..k][..b] == tt[..b];
    forall x | b <= x < k ensures tt[x].kind == Sym('&') { assert tt[..k][x] == tt[x]; }
  }

  /** Behind the first i tokens come a separator and what r wants; or the line ends there. */
  ghost predicate LineGoes(tt: seq<Token>, i: nat, wr: Want) {
    if wr.Want? then
      && i < |tt| && tt[i].kind == Sym(';') && wr.k <= |tt[i + 1..]|
      && IsLine(wr.cmd, tt[i + 1..][..wr.k]) && Follow(tt[i + 1..], wr.k, ")")
    else i <= |tt| && Follow(tt, i, ")")
  }

  /** A wanted line is a first command and perhaps more. */
  lemma {:induction false} FirstOfLine(c: Cmd, tt: seq<Token>, k: nat) returns (wf: Want, wr: Want)
    requires k <= |tt| && IsLine(c, tt[..k]) && Follow(tt, k, ")")
    ensures wf.Want? && wf.k <= |tt| && IsBacked(wf.cmd, tt[..wf.k]) && Follow(tt, wf.k, ");") && LineGoes(tt, wf.k, wr)
    ensures if wr.Want? then c == List(wf.cmd, wr.cmd) && k == wf.k + 1 + wr.k else wf == Want(c, k)
  {
    var us := tt[..k];
    if IsBacked(c, us) {
      wf, wr := Want(c, k), Nothing;
    } else {
      assert IsLine(c, us);
      var i :| LineAt(c, us, i);
      wf, wr := Want(c.left, i), Want(c.right, k - i - 1);
      DropTake(tt, k, i + 1);
      assert us[..i] == tt[..i] && us[i] == tt[i];
    }
  }

  // ---------- unambiguity ----------

  /** A prefix of tt that is c, with one of toks or nothing behind it. */
  ghost predicate ExecPrefix(c: Cmd, tt: seq<Token>, k: nat) {
    k <= |tt| && IsExec(c, tt[..k]) && Follow(tt, k, "|)&;")
  }

  ghost predicate PipePrefix(c: Cmd, tt: seq<Token>, k: nat) {
    k <= |tt| && IsPipe(c, tt[..k]) && Follow(tt, k, ")&;")
  }

  ghost predicate BackedPrefix(c: Cmd, tt: seq<Token>, k: nat) {
    k <= |tt| && IsBacked(c, tt[..k]) && Follow(tt, k, ");")
  }

  ghost predicate LinePrefix(c: Cmd, tt: seq<Token>, k: nat) {
    k <= |tt| && IsLine(c, tt[..k]) && Follow(tt, k, ")")
  }

  lemma {:induction false} SimpleShort(tt: seq<Token>, k: nat, l: nat, args: seq<Span>, rs: seq<Redirect>)
    requires k <= |tt| && l <= |tt| && Simple(tt[..k], args, rs) && Follow(tt, l, "|)&;")
    ensures k <= l
  {
    if l < k {
      SimpleTokens(tt[..k], args, rs, l);
    }
  }

  /** A command not starting with a parenthesis is simple. */
  lemma {:induction false} SimpleExec(c: Cmd, us: seq<Token>) returns (args: seq<Span>, rs: seq<Redirect>)
    requires IsExec(c, us) && (us == [] || us[0].kind != Sym('('))
    ensures IsSimple(c, us, args, rs)
  {
    assert !exists inner, j, rs :: IsBlock(c, us, inner, j, rs);
    args, rs :| IsSimple(c, us, args, rs);
  }

  lemma {:induction false} ExecUnique(tt: seq<Token>, c: Cmd, k: nat, d: Cmd, l: nat)
    requires ExecPrefix(c, tt, k) && ExecPrefix(d, tt, l)
    ensures c == d && k == l
    decreases |tt|, 0
  {
    if tt != [] && tt[0].kind == Sym('(') {
      BlockUnique(tt, c, k, d, l);
    } else {
      var a, r := SimpleExec(c, tt[..k]);
      var b, q := SimpleExec(d, tt[..l]);
      SimpleShort(tt, k, l, a, r);
      SimpleShort(tt, l, k, b, q);
      SimpleUnique(tt[..k], a, r, b, q);
    }
  }

  lemma {:induction false} BlockUnique(tt: seq<Token>, c: Cmd, k: nat, d: Cmd, l: nat)
    requires ExecPrefix(c, tt, k) && ExecPrefix(d, tt, l) && tt != [] && tt[0].kind == Sym('(')
    ensures c == d && k == l
    decreases |tt|, 0, 0
  {
    var nn := tt[1..];
    var x, i, r := WantedBlock(c, tt, k, nn);
    var y, j, q := WantedBlock(d, tt, l, nn);
    LineUnique(nn, x, i, y, j);
    var ee := nn[i + 1..];
    SimpleShort(ee, k - i - 2, l - i - 2, [], r);
    SimpleShort(ee, l - i - 2, k - i - 2, [], q);
    SimpleUnique(ee[..k - i - 2], [], r, [], q);
  }

  lemma {:induction false} PipeUnique(tt: seq<Token>, c: Cmd, k: nat, d: Cmd, l: nat)
    requires PipePrefix(c, tt, k) && PipePrefix(d, tt, l)
    ensures c == d && k == l
    decreases |tt|, 1
  {
    var x, r := FirstOfPipe(c, tt, k);
    var y, q := FirstOfPipe(d, tt, l);
    ExecUnique(tt, x.cmd, x.k, y.cmd, y.k);
    if r.Want? && q.Want? {
      PipeUnique(tt[x.k + 1..], r.cmd, r.k, q.cmd, q.k);
    }
  }

  lemma {:induction false} BackedUnique(tt: seq<Token>, c: Cmd, k: nat, d: Cmd, l: nat)
    requires BackedPrefix(c, tt, k) && BackedPrefix(d, tt, l)
    ensures c == d && k == l
    decreases |tt|, 2
  {
    var x, a := BackedSplit(c, tt, k);
    var y, b := BackedSplit(d, tt, l);
    PipeUnique(tt, x, a, y, b);
  }

  lemma {:induction false} LineUnique(tt: seq<Token>, c: Cmd, k: nat, d: Cmd, l: nat)
    requires LinePrefix(c, tt, k) && LinePrefix(d, tt, l)
    ensures c == d && k == l
    decreases |tt|, 3
  {
    var x, r := FirstOfLine(c, tt, k);
    var y, q := FirstOfLine(d, tt, l);
    BackedUnique(tt, x.cmd, x.k, y.cmd, y.k);
    if r.Want? && q.Want? {
      LineUnique(tt[x.k + 1..], r.cmd, r.k, q.cmd, q.k);
    }
  }

  /** The grammar is unambiguous: a line has at most one tree. */
  lemma {:induction false} OneTree(ts: seq<Token>, c: Cmd, d: Cmd)
    requires IsLine(c, ts) && IsLine(d, ts)
    ensures c == d
  {
    assert ts[..|ts|] == ts;
    LineUnique(ts, c, |ts|, d, |ts|);
  }
}
