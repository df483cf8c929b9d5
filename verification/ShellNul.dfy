// nulterminate of Ass2/sh.c: the tree's strings are cut out of the line in place.

module ShellNul {
  import opened Shell
  import opened ShellParse

  /** The words a command refers to. */
  function Spans(cmd: Cmd): set<Span> {
    match cmd
    case Exec(args) => set w | w in args
    case Redir(c, r) => Spans(c) + {r.file}
    case Pipe(l, r) => Spans(l) + Spans(r)
    case List(l, r) => Spans(l) + Spans(r)
    case Back(c) => Spans(c)
  }

  lemma {:induction false} SpansAreWords(s: string, cmd: Cmd)
    requires AllWords(s, cmd)
    ensures forall w :: w in Spans(cmd) ==> IsWord(s, w)
  {
    match cmd
    case Exec(args) =>
    case Redir(c, r) => SpansAreWords(s, c);
    case Pipe(l, r) => SpansAreWords(s, l); SpansAreWords(s, r);
    case List(l, r) => SpansAreWords(s, l); SpansAreWords(s, r);
    case Back(c) => SpansAreWords(s, c);
  }

  /** Position k is the end of some word of the command. */
  predicate IsEnd(ws: set<Span>, k: nat) {
    exists w :: w in ws && w.eq == k
  }

  /** The buffer with a NUL at the end of each word in ws. */
  ghost predicate Cut(b: seq<char>, ws: set<Span>, b': seq<char>) {
    |b'| == |b| && forall k :: 0 <= k < |b| ==> b'[k] == if IsEnd(ws, k) then NUL else b[k]
  }

  lemma CutBoth(b: seq<char>, ws: set<Span>, b1: seq<char>, vs: set<Span>, b2: seq<char>)
    requires Cut(b, ws, b1) && Cut(b1, vs, b2)
    ensures Cut(b, ws + vs, b2)
  {
    forall k | 0 <= k < |b| ensures IsEnd(ws + vs, k) <==> IsEnd(ws, k) || IsEnd(vs, k) {
      if w :| w in ws && w.eq == k { assert w in ws + vs; }
      if w :| w in vs && w.eq == k { assert w in ws + vs; }
    }
  }

  method CutArgs(args: seq<Span>, buf: array<char>)
    requires forall w :: w in args ==> w.eq < buf.Length
    modifies buf
    ensures Cut(old(buf[..]), Spans(Exec(args)), buf[..])
  {
    var i := 0;
    while i < |args|
      invariant 0 <= i <= |args| && Cut(old(buf[..]), Spans(Exec(args[..i])), buf[..])
    {
      ghost var b1 := buf[..];
      buf[args[i].eq] := NUL;
      assert Cut(b1, {args[i]}, buf[..]) by { assert IsEnd({args[i]}, args[i].eq); }
      CutBoth(old(buf[..]), Spans(Exec(args[..i])), b1, {args[i]}, buf[..]);
      assert args[..i + 1] == args[..i] + [args[i]];
      assert Spans(Exec(args[..i + 1])) == Spans(Exec(args[..i])) + {args[i]};
      i := i + 1;
    }
    assert args[..i] == args;
  }

  /** nulterminate */
  method NulTerminate(cmd: Cmd, buf: array<char>)
    requires forall w :: w in Spans(cmd) ==> w.eq < buf.Length
    modifies buf
    ensures Cut(old(buf[..]), Spans(cmd), buf[..])
    decreases cmd
  {
    match cmd
    case Exec(args) =>
      CutArgs(args, buf);
    case Redir(c, r) =>
      NulTerminate(c, buf);
      ghost var b1 := buf[..];
      buf[r.file.eq] := NUL;
      assert Cut(b1, {r.file}, buf[..]) by { assert IsEnd({r.file}, r.file.eq); }
      CutBoth(old(buf[..]), Spans(c), b1, {r.file}, buf[..]);
    case Pipe(l, r) =>
      NulTerminate(l, buf);
      ghost var b1 := buf[..];
      NulTerminate(r, buf);
      CutBoth(old(buf[..]), Spans(l), b1, Spans(r), buf[..]);
    case List(l, r) =>
      NulTerminate(l, buf);
      ghost var b1 := buf[..];
      NulTerminate(r, buf);
      CutBoth(old(buf[..]), Spans(l), b1, Spans(r), buf[..]);
    case Back(c) =>
      NulTerminate(c, buf);
  }

  /** The C string that starts at q. */
  function CString(b: seq<char>, q: nat): string
    decreases |b| - q
  {
    if q < |b| && b[q] != NUL then [b[q]] + CString(b, q + 1) else []
  }

  lemma {:induction false} CStringIs(b: seq<char>, q: nat, e: nat)
    requires q <= e < |b| && b[e] == NUL && forall k :: q <= k < e ==> b[k] != NUL
    ensures CString(b, q) == b[q..e]
    decreases e - q
  {
    if q < e {
      CStringIs(b, q + 1, e);
      assert b[q..e] == [b[q]] + b[q + 1..e];
    }
  }

  /** Words do not run into one another: the end of one is never inside another, so every
      string of the tree reads back as its word. */
  lemma {:induction false} WordReads(s: string, ws: set<Span>, b: seq<char>, w: Span)
    requires Line(s) && (forall v :: v in ws ==> IsWord(s, v)) && Cut(s + [NUL], ws, b) && w in ws
    ensures w.q <= w.eq <= |s| && CString(b, w.q) == s[w.q..w.eq]
  {
    assert IsEnd(ws, w.eq);
    forall k | w.q <= k < w.eq ensures b[k] == s[k] && s[k] != NUL {
      assert Plain(s[k]);
      forall v | v in ws ensures v.eq != k { assert IsWord(s, v); }
    }
    CStringIs(b, w.q, w.eq);
    assert b[w.q..w.eq] == s[w.q..w.eq];
  }

  /** parsecmd: on success each argument and each file, read as a C string from the line
      buffer, is its word; on failure the buffer is untouched. */
  method Parse(buf: array<char>) returns (ok: bool, cmd: Cmd)
    requires buf.Length > 0 && buf[buf.Length - 1] == NUL && Line(buf[..buf.Length - 1])
    modifies buf
    ensures ok <==> InGrammar(old(buf[..buf.Length - 1]))
    ensures ok ==> IsLine(cmd, Tokens(old(buf[..buf.Length - 1]), 0))
    ensures ok ==> forall w :: w in Spans(cmd) ==>
      IsWord(old(buf[..buf.Length - 1]), w) && CString(buf[..], w.q) == old(buf[..buf.Length - 1])[w.q..w.eq]
    ensures !ok ==> buf[..] == old(buf[..])
  {
    var s := buf[..buf.Length - 1];
    ok, cmd := ParseCmd(s);
    if ok {
      SpansAreWords(s, cmd);
      assert buf[..] == s + [NUL];
      NulTerminate(cmd, buf);
      forall w | w in Spans(cmd) ensures CString(buf[..], w.q) == s[w.q..w.eq] {
        WordReads(s, Spans(cmd), buf[..], w);
      }
    }
  }
}
