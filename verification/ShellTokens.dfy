/** What the parser puts into a command tree: words of the line, at most nine to a command. */
module ShellTokens {
  import opened Shell

  ghost predicate RedsOk(buf: string, rs: seq<(Span, Kind)>) {
    forall i :: 0 <= i < |rs| ==> IsToken(buf, rs[i].0)
  }

  ghost predicate ArgsOk(buf: string, args: seq<Span>) {
    |args| < MAXARGS && forall i :: 0 <= i < |args| ==> IsToken(buf, args[i])
  }

  /** Every word of the tree is a word of the line. */
  ghost predicate CmdOk(buf: string, c: Cmd<Span>) {
    match c
    case Exec(args) => ArgsOk(buf, args)
    case Redir(d, f, _) => CmdOk(buf, d) && IsToken(buf, f)
    case Pipe(l, r) => CmdOk(buf, l) && CmdOk(buf, r)
    case List(l, r) => CmdOk(buf, l) && CmdOk(buf, r)
    case Back(d) => CmdOk(buf, d)
  }

  lemma {:induction false} WrapOk(buf: string, c: Cmd<Span>, rs: seq<(Span, Kind)>)
    requires CmdOk(buf, c) && RedsOk(buf, rs)
    ensures CmdOk(buf, Wrap(c, rs))
    decreases |rs|
  {
    hide IsToken;
    if rs != [] {
      WrapOk(buf, c, rs[..|rs| - 1]);
    }
  }

  lemma {:induction false} RedirsOk(buf: string, p: nat, rs: seq<(Span, Kind)>)
    requires p <= |buf| && '\0' !in buf && RedsOk(buf, rs)
    ensures var r := ParseRedirs(buf, p, rs); r.Reds? ==> RedsOk(buf, r.list)
    decreases |buf| - p
  {
    hide IsToken;
    if Peek(buf, p, "<>") {
      var file := Gettoken(buf, Gettoken(buf, p).next);
      if file.ret == 'a' {
        var tok := Gettoken(buf, p);
        RedirsOk(buf, file.next, rs + [(Span(file.q, file.eq), if tok.ret == '<' then In else Out)]);
      }
    }
  }

  lemma {:induction false} ArgsParsed(buf: string, p: nat, args: seq<Span>, rs: seq<(Span, Kind)>)
    requires p <= |buf| && '\0' !in buf && ArgsOk(buf, args) && RedsOk(buf, rs)
    ensures var r := ParseArgs(buf, p, args, rs); r.Ok? ==> CmdOk(buf, r.cmd)
    decreases |buf| - p
  {
    hide IsToken;
    WrapOk(buf, Exec(args), rs);
    if !Peek(buf, p, "|)&;") {
      var g := Gettoken(buf, p);
      if g.ret == 'a' && |args| + 1 < MAXARGS {
        RedirsOk(buf, g.next, rs);
        var reds := ParseRedirs(buf, g.next, rs);
        if reds.Reds? {
          ArgsParsed(buf, reds.to, args + [Span(g.q, g.eq)], reds.list);
        }
      }
    }
  }

  lemma {:induction false} ExecParsed(buf: string, p: nat)
    requires p <= |buf| && '\0' !in buf
    ensures ParseExec(buf, p).Ok? ==> CmdOk(buf, ParseExec(buf, p).cmd)
    decreases |buf| - p, 1
  {
    hide IsToken;
    if Peek(buf, p, "(") {
      BlockParsed(buf, p);
    } else {
      RedirsOk(buf, p, []);
      var reds := ParseRedirs(buf, p, []);
      if reds.Reds? {
        ArgsParsed(buf, reds.to, [], reds.list);
      }
    }
  }

  lemma {:induction false} BlockParsed(buf: string, p: nat)
    requires p <= |buf| && '\0' !in buf && Peek(buf, p, "(")
    ensures ParseBlock(buf, p).Ok? ==> CmdOk(buf, ParseBlock(buf, p).cmd)
    decreases |buf| - p, 0
  {
    hide IsToken;
    LineParsed(buf, Gettoken(buf, p).next);
    var line := ParseLine(buf, Gettoken(buf, p).next);
    if line.Ok? && Peek(buf, line.next, ")") {
      RedirsOk(buf, Gettoken(buf, line.next).next, []);
      var reds := ParseRedirs(buf, Gettoken(buf, line.next).next, []);
      if reds.Reds? {
        WrapOk(buf, line.cmd, reds.list);
      }
    }
  }

  lemma {:induction false} PipeParsed(buf: string, p: nat)
    requires p <= |buf| && '\0' !in buf
    ensures ParsePipe(buf, p).Ok? ==> CmdOk(buf, ParsePipe(buf, p).cmd)
    decreases |buf| - p, 2
  {
    hide IsToken;
    ExecParsed(buf, p);
    var left := ParseExec(buf, p);
    if left.Ok? && Peek(buf, left.next, "|") {
      PipeParsed(buf, Gettoken(buf, left.next).next);
    }
  }

  lemma {:induction false} BacksParsed(buf: string, p: nat, c: Cmd<Span>)
    requires p <= |buf| && '\0' !in buf && CmdOk(buf, c)
    ensures CmdOk(buf, Backs(buf, p, c).cmd)
    decreases |buf| - p
  {
    hide IsToken;
    if Peek(buf, p, "&") {
      BacksParsed(buf, Gettoken(buf, p).next, Back(c));
    }
  }

  lemma {:induction false} LineParsed(buf: string, p: nat)
    requires p <= |buf| && '\0' !in buf
    ensures ParseLine(buf, p).Ok? ==> CmdOk(buf, ParseLine(buf, p).cmd)
    decreases |buf| - p, 3
  {
    hide IsToken;
    PipeParsed(buf, p);
    var first := ParsePipe(buf, p);
    if first.Ok? {
      BacksParsed(buf, first.next, first.cmd);
      var back := Backs(buf, first.next, first.cmd);
      if Peek(buf, back.next, ";") {
        LineParsed(buf, Gettoken(buf, back.next).next);
      }
    }
  }

  /** A line that parses gives a tree of its words. */
  lemma CmdParsed(buf: string)
    requires '\0' !in buf
    ensures ParseCmd(buf).Ok? ==> CmdOk(buf, ParseCmd(buf).cmd)
  {
    LineParsed(buf, 0);
  }

  // ---------- nulterminate ----------

  /** Where nulterminate writes: behind every word of the tree. */
  function Ends(c: Cmd<Span>): set<nat> {
    match c
    case Exec(args) => set i | 0 <= i < |args| :: args[i].eq
    case Redir(d, f, _) => Ends(d) + {f.eq}
    case Pipe(l, r) => Ends(l) + Ends(r)
    case List(l, r) => Ends(l) + Ends(r)
    case Back(d) => Ends(d)
  }

  function Spans(c: Cmd<Span>): set<Span> {
    match c
    case Exec(args) => set i | 0 <= i < |args| :: args[i]
    case Redir(d, f, _) => Spans(d) + {f}
    case Pipe(l, r) => Spans(l) + Spans(r)
    case List(l, r) => Spans(l) + Spans(r)
    case Back(d) => Spans(d)
  }

  lemma {:induction false} SpansOk(buf: string, c: Cmd<Span>, t: Span)
    requires CmdOk(buf, c) && t in Spans(c)
    ensures IsToken(buf, t) && t.eq in Ends(c)
  {
    hide IsToken;
    match c
    case Exec(args) =>
    case Redir(d, f, _) => if t in Spans(d) { SpansOk(buf, d, t); }
    case Pipe(l, r) => if t in Spans(l) { SpansOk(buf, l, t); } else { SpansOk(buf, r, t); }
    case List(l, r) => if t in Spans(l) { SpansOk(buf, l, t); } else { SpansOk(buf, r, t); }
    case Back(d) => SpansOk(buf, d, t);
  }

  /** An end is the line's end or not part of any word. */
  lemma {:induction false} EndsOk(buf: string, c: Cmd<Span>, e: nat)
    requires CmdOk(buf, c) && e in Ends(c)
    ensures e <= |buf| && (e < |buf| ==> !IsWord(buf[e]))
  {
    match c
    case Exec(args) =>
    case Redir(d, f, _) => if e in Ends(d) { EndsOk(buf, d, e); }
    case Pipe(l, r) => if e in Ends(l) { EndsOk(buf, l, e); } else { EndsOk(buf, r, e); }
    case List(l, r) => if e in Ends(l) { EndsOk(buf, l, e); } else { EndsOk(buf, r, e); }
    case Back(d) => EndsOk(buf, d, e);
  }

  /** The line with a NUL at each of these places. */
  ghost predicate Terminated(before: seq<char>, after: seq<char>, ends: set<nat>) {
    |after| == |before| && forall k :: 0 <= k < |before| ==> after[k] == if k in ends then '\0' else before[k]
  }

  /** The C string at q: up to the first NUL. */
  function CString(a: seq<char>, q: nat): string
    requires q < |a| && a[|a| - 1] == '\0'
    decreases |a| - q
  {
    if a[q] == '\0' then "" else [a[q]] + CString(a, q + 1)
  }

  lemma {:induction false} CStringIs(a: seq<char>, q: nat, eq: nat)
    requires q <= eq < |a| && a[|a| - 1] == '\0' && a[eq] == '\0' && forall k :: q <= k < eq ==> a[k] != '\0'
    ensures CString(a, q) == a[q..eq]
    decreases eq - q
  {
    if q < eq {
      CStringIs(a, q + 1, eq);
    }
  }

  /** After nulterminate every word of the tree reads as the C string it was parsed as. */
  lemma TerminationIsSafe(buf: string, c: Cmd<Span>, after: seq<char>, t: Span)
    requires '\0' !in buf && CmdOk(buf, c) && t in Spans(c) && Terminated(buf + "\0", after, Ends(c))
    ensures t.q < t.eq <= |buf| && after[|buf|] == '\0' && CString(after, t.q) == buf[t.q..t.eq]
  {
    SpansOk(buf, c, t);
    forall k | t.q <= k < t.eq ensures after[k] == buf[k] != '\0' {
      if k in Ends(c) {
        EndsOk(buf, c, k);
      }
    }
    CStringIs(after, t.q, t.eq);
    assert after[t.q..t.eq] == buf[t.q..t.eq];
  }

  /** nulterminate, in place. */
  method Nulterminate(a: array<char>, c: Cmd<Span>)
    requires forall e :: e in Ends(c) ==> e < a.Length
    modifies a
    ensures Terminated(old(a[..]), a[..], Ends(c))
    decreases c
  {
    match c
    case Exec(args) =>
      var i := 0;
      while i < |args|
        invariant 0 <= i <= |args|
        invariant Terminated(old(a[..]), a[..], set j | 0 <= j < i :: args[j].eq)
      {
        assert args[i].eq in Ends(c);
        a[args[i].eq] := '\0';
        i := i + 1;
      }
    case Redir(d, f, _) =>
      assert Ends(c) == Ends(d) + {f.eq};
      Nulterminate(a, d);
      a[f.eq] := '\0';
    case Pipe(l, r) =>
      assert Ends(c) == Ends(l) + Ends(r);
      Nulterminate(a, l);
      Nulterminate(a, r);
    case List(l, r) =>
      assert Ends(c) == Ends(l) + Ends(r);
      Nulterminate(a, l);
      Nulterminate(a, r);
    case Back(d) =>
      assert Ends(c) == Ends(d);
      Nulterminate(a, d);
  }
}
