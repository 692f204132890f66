/** The parser is right: it accepts exactly the lines whose tokens denote a tree, with that tree. */
module ShellParse {
  import opened Shell
  import opened ShellTokens
  import opened ShellGrammar

  /** The parser has made the tree t and left these tokens. */
  ghost predicate Read(buf: string, r: Result, t: Tree, rest: seq<Token>) {
    r.Ok? && r.next <= |buf| && CmdOk(buf, r.cmd) && Text(buf, r.cmd) == t && Left(buf, r.next) == rest
  }

  lemma Assoc<T>(a: seq<T>, b: seq<T>, c: seq<T>)
    ensures a + (b + c) == a + b + c
  {
  }

  // ---------- redirections ----------

  predicate NoRedir(rest: seq<Token>) {
    rest == [] || (rest[0] != Sym('<') && rest[0] != Sym('>') && rest[0] != Twice)
  }

  lemma RedTextsSnoc(buf: string, rs: seq<(Span, Kind)>, one: (Span, Kind))
    requires RedsOk(buf, rs) && IsToken(buf, one.0)
    ensures RedsOk(buf, rs + [one])
    ensures RedTexts(buf, rs + [one]) == RedTexts(buf, rs) + [(buf[one.0.q..one.0.eq], one.1)]
  {
  }

  /** One turn of parseredirs by tokens: nothing to do, no file, or a redirection. */
  lemma RedirTurn(buf: string, p: nat, rs: seq<(Span, Kind)>)
    requires p <= |buf| && '\0' !in buf && RedsOk(buf, rs)
    ensures
      var ts, r := Left(buf, p), ParseRedirs(buf, p, rs);
      && (NoRedir(ts) ==> r.Reds? && r.list == rs && Left(buf, r.to) == ts)
      && (!NoRedir(ts) && !(|ts| >= 2 && ts[1].Word?) ==> r.NoFile?)
      && (!NoRedir(ts) && |ts| >= 2 && ts[1].Word? ==>
            exists one: (Span, Kind), m: nat :: RedirTaken(buf, p, rs, one, m))
  {
    hide IsToken, Gettoken, Peek, SkipSpace, Tokens;
    var ts := Left(buf, p);
    TokenPeeked(buf, p, "<>");
    TokenTaken(buf, p);
    var tok := Gettoken(buf, p);
    if !NoRedir(ts) {
      TokenTaken(buf, tok.next);
      var file := Gettoken(buf, tok.next);
      assert ts[1..] == Left(buf, tok.next);
      if |ts| >= 2 && ts[1].Word? {
        var one := (Span(file.q, file.eq), if tok.ret == '<' then In else Out);
        assert ts[2..] == Left(buf, file.next);
        assert RedirTaken(buf, p, rs, one, file.next);
      }
    }
  }

  ghost predicate RedirTaken(buf: string, p: nat, rs: seq<(Span, Kind)>, one: (Span, Kind), m: nat)
    requires p <= |buf| && '\0' !in buf
  {
    var ts := Left(buf, p);
    && p < m <= |buf| && |ts| >= 2 && IsToken(buf, one.0) && IsRedir(ts[0], one.1)
    && ts[1] == Word(buf[one.0.q..one.0.eq]) && ts[2..] == Left(buf, m)
    && ParseRedirs(buf, p, rs) == ParseRedirs(buf, m, rs + [one])
  }

  lemma {:induction false} RedirsSound(buf: string, p: nat, rs: seq<(Span, Kind)>)
    returns (used: seq<Token>, more: seq<(string, Kind)>)
    requires p <= |buf| && '\0' !in buf && RedsOk(buf, rs) && ParseRedirs(buf, p, rs).Reds?
    ensures var r := ParseRedirs(buf, p, rs); RedsOk(buf, r.list) && RedTexts(buf, r.list) == RedTexts(buf, rs) + more
    ensures RedList(used, more) && Left(buf, p) == used + Left(buf, ParseRedirs(buf, p, rs).to)
    decreases |buf| - p
  {
    hide IsToken, ParseRedirs, Left, RedTexts, RedsOk;
    var ts := Left(buf, p);
    RedirTurn(buf, p, rs);
    if NoRedir(ts) {
      return [], [];
    }
    var one: (Span, Kind), m: nat :| RedirTaken(buf, p, rs, one, m);
    RedTextsSnoc(buf, rs, one);
    var u, x := RedirsSound(buf, m, rs + [one]);
    var w := (ts[1].text, one.1);
    used, more := ts[..2] + u, [w] + x;
    assert used[2..] == u && more[1..] == x;
    Assoc(RedTexts(buf, rs), [w], x);
    assert ts == ts[..2] + ts[2..];
    Assoc(ts[..2], u, Left(buf, ParseRedirs(buf, p, rs).to));
  }

  lemma {:induction false} RedirsComplete(buf: string, p: nat, rs: seq<(Span, Kind)>, used: seq<Token>,
                                          more: seq<(string, Kind)>, rest: seq<Token>)
    requires p <= |buf| && '\0' !in buf && RedsOk(buf, rs)
    requires Left(buf, p) == used + rest && RedList(used, more) && NoRedir(rest)
    ensures
      var r := ParseRedirs(buf, p, rs);
      && r.Reds? && RedsOk(buf, r.list) && RedTexts(buf, r.list) == RedTexts(buf, rs) + more
      && Left(buf, r.to) == rest
    decreases |buf| - p
  {
    hide IsToken, ParseRedirs, Left, RedTexts, RedsOk;
    var ts := Left(buf, p);
    RedirTurn(buf, p, rs);
    if used != [] {
      assert ts[0] == used[0] && ts[1] == used[1] && ts[2..] == used[2..] + rest;
      var one: (Span, Kind), m: nat :| RedirTaken(buf, p, rs, one, m);
      RedTextsSnoc(buf, rs, one);
      RedirsComplete(buf, m, rs + [one], used[2..], more[1..], rest);
      assert more == [more[0]] + more[1..];
      Assoc(RedTexts(buf, rs), [more[0]], more[1..]);
    } else {
      assert RedTexts(buf, rs) + [] == RedTexts(buf, rs);
    }
  }

  // ---------- simple commands ----------

  lemma {:induction false} SimpleJoin(u: seq<Token>, r: seq<(string, Kind)>, v: seq<Token>, args: seq<string>,
                                      x: seq<(string, Kind)>)
    requires RedList(u, r) && Simple(v, args, x)
    ensures Simple(u + v, args, r + x)
    decreases |u|
  {
    if u == [] {
      assert u + v == v && r + x == x;
    } else {
      SimpleJoin(u[2..], r[1..], v, args, x);
      assert (u + v)[2..] == u[2..] + v && (r + x)[1..] == r[1..] + x;
    }
  }

  /** The redirections in front, and the rest, which begins with a word. */
  lemma {:induction false} SimpleSplit(ts: seq<Token>, args: seq<string>, rs: seq<(string, Kind)>)
    returns (u: seq<Token>, r: seq<(string, Kind)>, v: seq<Token>, x: seq<(string, Kind)>)
    requires Simple(ts, args, rs)
    ensures ts == u + v && rs == r + x && RedList(u, r) && Simple(v, args, x) && (v == [] || v[0].Word?)
    decreases |ts|
  {
    if ts == [] || ts[0].Word? {
      u, r, v, x := [], [], ts, rs;
    } else {
      u, r, v, x := SimpleSplit(ts[2..], args, rs[1..]);
      var front := ts[..2];
      assert ts == front + (u + v) && rs == [rs[0]] + (r + x);
      u, r := front + u, [rs[0]] + r;
      assert u[2..] == ts[2..][..|u| - 2] && r[1..] == rs[1..][..|r| - 1];
    }
  }

  /** After a command: the end, or one of | ) & ; */
  predicate AfterExec(rest: seq<Token>) {
    rest == [] || rest[0] == Sym('|') || rest[0] == Sym(')') || rest[0] == Sym('&') || rest[0] == Sym(';')
  }

  lemma TextsSnoc(buf: string, args: seq<Span>, one: Span)
    requires ArgsOk(buf, args) && |args| + 1 < MAXARGS && IsToken(buf, one)
    ensures ArgsOk(buf, args + [one]) && Texts(buf, args + [one]) == Texts(buf, args) + [buf[one.q..one.eq]]
  {
  }

  /** The tree that parseexec has built so far. */
  lemma ExecText(buf: string, args: seq<Span>, rs: seq<(Span, Kind)>)
    requires ArgsOk(buf, args) && RedsOk(buf, rs)
    ensures
      var c := Wrap(Exec(args), rs);
      CmdOk(buf, c) && Text(buf, c) == Wrap(Exec(Texts(buf, args)), RedTexts(buf, rs))
  {
    hide IsToken;
    TextWrap(buf, Exec(args), rs);
  }

  /** One turn of parseexec's loop by tokens. */
  lemma ArgTurn(buf: string, p: nat, args: seq<Span>, rs: seq<(Span, Kind)>)
    requires p <= |buf| && '\0' !in buf
    ensures
      var ts, r := Left(buf, p), ParseArgs(buf, p, args, rs);
      && (AfterExec(ts) ==> r.Ok? && r.cmd == Wrap(Exec(args), rs) && Left(buf, r.next) == ts)
      && (!AfterExec(ts) && (!ts[0].Word? || |args| + 1 >= MAXARGS) ==> r.Fail?)
      && (!AfterExec(ts) && ts[0].Word? && |args| + 1 < MAXARGS ==>
            var g := Gettoken(buf, p);
            && p < g.next && IsToken(buf, Span(g.q, g.eq)) && ts == [Word(buf[g.q..g.eq])] + Left(buf, g.next)
            && var reds := ParseRedirs(buf, g.next, rs);
               r == if reds.NoFile? then Fail(MissingFile)
                    else ParseArgs(buf, reds.to, args + [Span(g.q, g.eq)], reds.list))
  {
    hide IsToken, Gettoken, Peek, SkipSpace, Tokens, ParseRedirs, Wrap;
    TokenPeeked(buf, p, "|)&;");
    TokenTaken(buf, p);
  }

  lemma {:induction false} ArgsSound(buf: string, p: nat, args: seq<Span>, rs: seq<(Span, Kind)>)
    returns (used: seq<Token>, words: seq<string>, more: seq<(string, Kind)>)
    requires p <= |buf| && '\0' !in buf && ArgsOk(buf, args) && RedsOk(buf, rs) && ParseArgs(buf, p, args, rs).Ok?
    ensures Simple(used, words, more) && |args| + |words| < MAXARGS
    ensures Left(buf, p) == used + Left(buf, ParseArgs(buf, p, args, rs).next)
    ensures
      var c := ParseArgs(buf, p, args, rs).cmd;
      CmdOk(buf, c) && Text(buf, c) == Wrap(Exec(Texts(buf, args) + words), RedTexts(buf, rs) + more)
    decreases |buf| - p
  {
    hide IsToken, ParseArgs, ParseRedirs, Left, Gettoken, RedTexts, Texts, RedsOk, Text, CmdOk, ArgsOk, Wrap;
    var ts := Left(buf, p);
    ArgTurn(buf, p, args, rs);
    ArgsFew(buf, args);
    if AfterExec(ts) {
      used, words, more := [], [], [];
      ExecText(buf, args, rs);
      assert Texts(buf, args) + [] == Texts(buf, args) && RedTexts(buf, rs) + [] == RedTexts(buf, rs);
      return;
    }
    var g := Gettoken(buf, p);
    var one, w := Span(g.q, g.eq), buf[g.q..g.eq];
    var u, r := RedirsSound(buf, g.next, rs);
    var reds := ParseRedirs(buf, g.next, rs);
    TextsSnoc(buf, args, one);
    var v, ws, x := ArgsSound(buf, reds.to, args + [one], reds.list);
    SimpleJoin(u, r, v, ws, x);
    used, words, more := [Word(w)] + (u + v), [w] + ws, r + x;
    assert used[1..] == u + v && words[1..] == ws;
    var end := Left(buf, ParseArgs(buf, p, args, rs).next);
    Assoc(u, v, end);
    Assoc([Word(w)], u + v, end);
    Assoc(Texts(buf, args), [w], ws);
    Assoc(RedTexts(buf, rs), r, x);
  }

  lemma ArgsFew(buf: string, args: seq<Span>)
    requires ArgsOk(buf, args)
    ensures |args| < MAXARGS
  {
  }

  lemma {:induction false} ArgsComplete(buf: string, p: nat, args: seq<Span>, rs: seq<(Span, Kind)>, used: seq<Token>,
                                        words: seq<string>, more: seq<(string, Kind)>, rest: seq<Token>)
    requires p <= |buf| && '\0' !in buf && ArgsOk(buf, args) && RedsOk(buf, rs)
    requires Left(buf, p) == used + rest && AfterExec(rest) && Simple(used, words, more)
    requires (used == [] || used[0].Word?) && |args| + |words| < MAXARGS
    ensures Read(buf, ParseArgs(buf, p, args, rs), Wrap(Exec(Texts(buf, args) + words), RedTexts(buf, rs) + more), rest)
    decreases |buf| - p
  {
    hide IsToken, ParseArgs, ParseRedirs, Left, Gettoken, RedTexts, Texts, RedsOk, Text, CmdOk, ArgsOk, Wrap;
    ArgTurn(buf, p, args, rs);
    if used == [] {
      ExecText(buf, args, rs);
      assert Texts(buf, args) + [] == Texts(buf, args) && RedTexts(buf, rs) + [] == RedTexts(buf, rs);
    } else {
      var g := Gettoken(buf, p);
      var one, w := Span(g.q, g.eq), words[0];
      assert Left(buf, p)[0] == used[0] && Left(buf, p)[1..] == used[1..] + rest;
      var u, r, v, x := SimpleSplit(used[1..], words[1..], more);
      Assoc(u, v, rest);
      RedirsComplete(buf, g.next, rs, u, r, v + rest);
      var reds := ParseRedirs(buf, g.next, rs);
      TextsSnoc(buf, args, one);
      ArgsComplete(buf, reds.to, args + [one], reds.list, v, words[1..], x, rest);
      assert words == [w] + words[1..];
      Assoc(Texts(buf, args), [w], words[1..]);
      Assoc(RedTexts(buf, rs), r, x);
    }
  }

  // ---------- commands ----------

  lemma {:induction false} ExecSound(buf: string, p: nat) returns (used: seq<Token>)
    requires p <= |buf| && '\0' !in buf && ParseExec(buf, p).Ok?
    ensures var r := ParseExec(buf, p); CmdOk(buf, r.cmd) && Command(used, Text(buf, r.cmd))
    ensures Left(buf, p) == used + Left(buf, ParseExec(buf, p).next)
    decreases |buf| - p, 1
  {
    hide IsToken, ParseRedirs, ParseArgs, ParseBlock, Left, Peek, CmdOk, Text, Simple, Wrap;
    if Peek(buf, p, "(") {
      used := BlockSound(buf, p);
    } else {
      var u, r := RedirsSound(buf, p, []);
      var reds := ParseRedirs(buf, p, []);
      var v, words, x := ArgsSound(buf, reds.to, [], reds.list);
      SimpleJoin(u, r, v, words, x);
      used := u + v;
      Assoc(u, v, Left(buf, ParseExec(buf, p).next));
      assert Texts(buf, []) + words == words && RedTexts(buf, []) + r == r;
      assert SimpleAs(used, Text(buf, ParseExec(buf, p).cmd), words, r + x);
    }
  }

  lemma {:induction false} BlockSound(buf: string, p: nat) returns (used: seq<Token>)
    requires p <= |buf| && '\0' !in buf && Peek(buf, p, "(") && ParseBlock(buf, p).Ok?
    ensures var r := ParseBlock(buf, p); CmdOk(buf, r.cmd) && Command(used, Text(buf, r.cmd))
    ensures Left(buf, p) == used + Left(buf, ParseBlock(buf, p).next)
    decreases |buf| - p, 0
  {
    hide IsToken, ParseRedirs, ParseLine, Left, Peek, Gettoken, SkipSpace, CmdOk, Text, Wrap, Line, RedTexts;
    TokenPeeked(buf, p, "(");
    TokenTaken(buf, p);
    var open := Gettoken(buf, p).next;
    var u := LineSound(buf, open);
    var line := ParseLine(buf, open);
    TokenPeeked(buf, line.next, ")");
    TokenTaken(buf, line.next);
    var close := Gettoken(buf, line.next).next;
    var v, r := RedirsSound(buf, close, []);
    var reds := ParseRedirs(buf, close, []);
    NoReds(buf, r);
    TextWrap(buf, line.cmd, reds.list);
    used := [Sym('(')] + u + [Sym(')')] + v;
    BlockTokens(u, v, Left(buf, reds.to));
    assert BlockAs(used, Text(buf, ParseBlock(buf, p).cmd), |u| + 1, Text(buf, line.cmd), r);
  }

  lemma NoReds(buf: string, r: seq<(string, Kind)>)
    ensures RedTexts(buf, []) + r == r
  {
  }

  lemma BlockTokens(u: seq<Token>, v: seq<Token>, rest: seq<Token>)
    ensures
      var used := [Sym('(')] + u + [Sym(')')] + v;
      && used[1..|u| + 1] == u && used[|u| + 1] == Sym(')') && used[|u| + 2..] == v
      && [Sym('(')] + (u + ([Sym(')')] + (v + rest))) == used + rest
  {
  }

  lemma {:induction false} ExecComplete(buf: string, p: nat, used: seq<Token>, t: Tree, rest: seq<Token>)
    requires p <= |buf| && '\0' !in buf && Left(buf, p) == used + rest && Command(used, t) && AfterExec(rest)
    ensures Read(buf, ParseExec(buf, p), t, rest)
    decreases |buf| - p, 1
  {
    hide IsToken, ParseRedirs, ParseArgs, ParseBlock, Left, Peek, CmdOk, Text, Simple, Wrap, BlockAs, RedTexts, Texts;
    TokenPeeked(buf, p, "(");
    if args, rs :| SimpleAs(used, t, args, rs) {
      var u, r, v, x := SimpleSplit(used, args, rs);
      SimpleFirst(used, args, rs);
      Assoc(u, v, rest);
      RedirsComplete(buf, p, [], u, r, v + rest);
      var reds := ParseRedirs(buf, p, []);
      NoReds(buf, r);
      ArgsComplete(buf, reds.to, [], reds.list, v, args, x, rest);
      NoTexts(buf, args);
    } else {
      var k: nat, inner, rs :| BlockAs(used, t, k, inner, rs);
      BlockComplete(buf, p, used, t, k, inner, rs, rest);
    }
  }

  lemma NoTexts(buf: string, words: seq<string>)
    ensures Texts(buf, []) + words == words
  {
  }

  lemma SimpleFirst(ts: seq<Token>, args: seq<string>, rs: seq<(string, Kind)>)
    requires Simple(ts, args, rs)
    ensures ts == [] || ts[0] != Sym('(')
  {
  }

  lemma {:induction false} BlockComplete(buf: string, p: nat, used: seq<Token>, t: Tree, k: nat, inner: Tree,
                                         rs: seq<(string, Kind)>, rest: seq<Token>)
    requires p <= |buf| && '\0' !in buf && Left(buf, p) == used + rest && AfterExec(rest)
    requires BlockAs(used, t, k, inner, rs)
    ensures Peek(buf, p, "(") && Read(buf, ParseBlock(buf, p), t, rest)
    decreases |buf| - p, 0
  {
    hide IsToken, ParseRedirs, ParseLine, Left, Peek, Gettoken, SkipSpace, CmdOk, Text, Wrap, Line, RedTexts;
    var u, v := used[1..k], used[k + 1..];
    assert used == [Sym('(')] + u + [Sym(')')] + v;
    BlockTokens(u, v, rest);
    TokenPeeked(buf, p, "(");
    TokenTaken(buf, p);
    var open := Gettoken(buf, p).next;
    assert Left(buf, p)[1..] == u + ([Sym(')')] + (v + rest));
    LineComplete(buf, open, u, inner, [Sym(')')] + (v + rest));
    var line := ParseLine(buf, open);
    TokenPeeked(buf, line.next, ")");
    TokenTaken(buf, line.next);
    var close := Gettoken(buf, line.next).next;
    assert Left(buf, line.next)[1..] == v + rest;
    RedirsComplete(buf, close, [], v, rs, rest);
    NoReds(buf, rs);
    TextWrap(buf, line.cmd, ParseRedirs(buf, close, []).list);
  }

  // ---------- pipelines ----------

  lemma SplitAt(u: seq<Token>, c: char, v: seq<Token>, rest: seq<Token>)
    ensures
      var used := u + [Sym(c)] + v;
      && used[..|u|] == u && used[|u|] == Sym(c) && used[|u| + 1..] == v
      && u + ([Sym(c)] + (v + rest)) == used + rest
  {
  }

  lemma {:induction false} PipeSound(buf: string, p: nat) returns (used: seq<Token>)
    requires p <= |buf| && '\0' !in buf && ParsePipe(buf, p).Ok?
    ensures var r := ParsePipe(buf, p); CmdOk(buf, r.cmd) && Pipeline(used, Text(buf, r.cmd))
    ensures Left(buf, p) == used + Left(buf, ParsePipe(buf, p).next)
    decreases |buf| - p, 2
  {
    hide IsToken, ParseExec, Left, Peek, Gettoken, SkipSpace, Command;
    var u := ExecSound(buf, p);
    var left := ParseExec(buf, p);
    TokenPeeked(buf, left.next, "|");
    if Peek(buf, left.next, "|") {
      TokenTaken(buf, left.next);
      var m := Gettoken(buf, left.next).next;
      var v := PipeSound(buf, m);
      used := u + [Sym('|')] + v;
      SplitAt(u, '|', v, Left(buf, ParsePipe(buf, m).next));
      assert PipeAs(used, Text(buf, ParsePipe(buf, p).cmd), |u|);
    } else {
      used := u;
    }
  }

  /** After a pipeline: the end, or one of ) & ; */
  predicate AfterPipe(rest: seq<Token>) {
    rest == [] || rest[0] == Sym(')') || rest[0] == Sym('&') || rest[0] == Sym(';')
  }

  lemma {:induction false} PipeComplete(buf: string, p: nat, used: seq<Token>, t: Tree, rest: seq<Token>)
    requires p <= |buf| && '\0' !in buf && Left(buf, p) == used + rest && Pipeline(used, t) && AfterPipe(rest)
    ensures Read(buf, ParsePipe(buf, p), t, rest)
    decreases |buf| - p, 2
  {
    hide IsToken, ParseExec, Left, Peek, Gettoken, SkipSpace, Command;
    if Command(used, t) {
      ExecComplete(buf, p, used, t, rest);
      TokenPeeked(buf, ParseExec(buf, p).next, "|");
    } else {
      var k: nat :| PipeAs(used, t, k);
      var u, v := used[..k], used[k + 1..];
      assert used == u + [Sym('|')] + v;
      SplitAt(u, '|', v, rest);
      ExecComplete(buf, p, u, t.left, [Sym('|')] + (v + rest));
      var left := ParseExec(buf, p);
      TokenPeeked(buf, left.next, "|");
      TokenTaken(buf, left.next);
      assert Left(buf, left.next)[1..] == v + rest;
      PipeComplete(buf, Gettoken(buf, left.next).next, v, t.right, rest);
    }
  }

  // ---------- jobs ----------

  lemma {:induction false} BacksSound(buf: string, p: nat, c: Cmd<Span>, done: seq<Token>) returns (used: seq<Token>)
    requires p <= |buf| && '\0' !in buf && CmdOk(buf, c) && Job(done, Text(buf, c))
    ensures var r := Backs(buf, p, c); CmdOk(buf, r.cmd) && Job(done + used, Text(buf, r.cmd))
    ensures Left(buf, p) == used + Left(buf, Backs(buf, p, c).next)
    decreases |buf| - p
  {
    hide IsToken, Left, Peek, Gettoken, SkipSpace, Pipeline;
    TokenPeeked(buf, p, "&");
    if Peek(buf, p, "&") {
      TokenTaken(buf, p);
      var amp := [Sym('&')];
      assert (done + amp)[..|done|] == done;
      var u := BacksSound(buf, Gettoken(buf, p).next, Back(c), done + amp);
      used := amp + u;
      Assoc(done, amp, u);
      Assoc(amp, u, Left(buf, Backs(buf, p, c).next));
    } else {
      used := [];
      assert done + [] == done;
    }
  }

  /** parseline up to a state of its loop over ampersands: the tree so far is t. */
  ghost predicate InBacks(buf: string, p: nat, c: Cmd<Span>, n: nat, t: Tree, rest: seq<Token>)
    requires p <= |buf| && '\0' !in buf
  {
    && n <= |buf| && CmdOk(buf, c) && Text(buf, c) == t && Left(buf, n) == rest
    && var first := ParsePipe(buf, p);
       first.Ok? && Backs(buf, first.next, first.cmd) == Backs(buf, n, c)
  }

  lemma {:induction false} JobComplete(buf: string, p: nat, used: seq<Token>, t: Tree, rest: seq<Token>)
    returns (c: Cmd<Span>, n: nat)
    requires p <= |buf| && '\0' !in buf && Left(buf, p) == used + rest && Job(used, t) && AfterPipe(rest)
    ensures InBacks(buf, p, c, n, t, rest)
    decreases |buf| - p, 3, |used|
  {
    hide IsToken, ParsePipe, Left, Peek, Gettoken, SkipSpace, Pipeline;
    if Pipeline(used, t) {
      PipeComplete(buf, p, used, t, rest);
      c, n := ParsePipe(buf, p).cmd, ParsePipe(buf, p).next;
    } else {
      var m := |used| - 1;
      assert used + rest == used[..m] + ([Sym('&')] + rest);
      var d, k := JobComplete(buf, p, used[..m], t.cmd, [Sym('&')] + rest);
      TokenPeeked(buf, k, "&");
      TokenTaken(buf, k);
      assert Left(buf, k)[1..] == rest;
      c, n := Back(d), Gettoken(buf, k).next;
    }
  }

  // ---------- lines ----------

  lemma {:induction false} LineSound(buf: string, p: nat) returns (used: seq<Token>)
    requires p <= |buf| && '\0' !in buf && ParseLine(buf, p).Ok?
    ensures var r := ParseLine(buf, p); CmdOk(buf, r.cmd) && Line(used, Text(buf, r.cmd))
    ensures Left(buf, p) == used + Left(buf, ParseLine(buf, p).next)
    decreases |buf| - p, 3
  {
    hide IsToken, ParsePipe, Backs, Left, Peek, Gettoken, SkipSpace, Pipeline;
    var a := PipeSound(buf, p);
    var first := ParsePipe(buf, p);
    var b := BacksSound(buf, first.next, first.cmd, a);
    var back := Backs(buf, first.next, first.cmd);
    var u := a + b;
    Assoc(a, b, Left(buf, back.next));
    TokenPeeked(buf, back.next, ";");
    if Peek(buf, back.next, ";") {
      TokenTaken(buf, back.next);
      var m := Gettoken(buf, back.next).next;
      var v := LineSound(buf, m);
      used := u + [Sym(';')] + v;
      SplitAt(u, ';', v, Left(buf, ParseLine(buf, m).next));
      assert ListAs(used, Text(buf, ParseLine(buf, p).cmd), |u|);
    } else {
      used := u;
    }
  }

  /** After a line: the end, or a closing parenthesis. */
  predicate AfterLine(rest: seq<Token>) {
    rest == [] || rest[0] == Sym(')')
  }

  lemma {:induction false} LineComplete(buf: string, p: nat, used: seq<Token>, t: Tree, rest: seq<Token>)
    requires p <= |buf| && '\0' !in buf && Left(buf, p) == used + rest && Line(used, t) && AfterLine(rest)
    ensures Read(buf, ParseLine(buf, p), t, rest)
    decreases |buf| - p, 4
  {
    hide IsToken, ParsePipe, Left, Peek, Gettoken, SkipSpace, Job;
    if Job(used, t) {
      var c, n := JobComplete(buf, p, used, t, rest);
      TokenPeeked(buf, n, "&");
      TokenPeeked(buf, SkipSpace(buf, n), ";");
    } else {
      var k: nat :| ListAs(used, t, k);
      var u, v := used[..k], used[k + 1..];
      assert used == u + [Sym(';')] + v;
      SplitAt(u, ';', v, rest);
      var c, n := JobComplete(buf, p, u, t.left, [Sym(';')] + (v + rest));
      TokenPeeked(buf, n, "&");
      var m := SkipSpace(buf, n);
      TokenPeeked(buf, m, ";");
      TokenTaken(buf, m);
      assert Left(buf, m)[1..] == v + rest;
      LineComplete(buf, Gettoken(buf, m).next, v, t.right, rest);
    }
  }

  /** For every line: the parser makes the tree t exactly if the tokens of the line denote t. */
  lemma ParsesExactly(buf: string, t: Tree)
    requires '\0' !in buf
    ensures ParseCmd(buf).Ok? ==> CmdOk(buf, ParseCmd(buf).cmd)
    ensures ParseCmd(buf).Ok? && Text(buf, ParseCmd(buf).cmd) == t <==> Line(Tokens(buf), t)
  {
    hide IsToken, ParseLine, SkipSpace, Line, Tokens;
    CmdParsed(buf);
    assert buf[0..] == buf;
    var line := ParseLine(buf, 0);
    if ParseCmd(buf).Ok? {
      var used := LineSound(buf, 0);
      AtEnd(buf, line.next);
      assert used + [] == used;
    }
    if Line(Tokens(buf), t) {
      assert Tokens(buf) + [] == Tokens(buf);
      LineComplete(buf, 0, Tokens(buf), t, []);
      AtEnd(buf, line.next);
    }
  }

  lemma AtEnd(buf: string, p: nat)
    requires p <= |buf| && '\0' !in buf
    ensures SkipSpace(buf, p) == |buf| <==> Left(buf, p) == []
  {
    SpaceSkipped(buf, p);
  }

  /** So a line denotes at most one tree, and which one depends on its tokens only. */
  lemma OneTree(a: string, b: string, t: Tree, u: Tree)
    requires '\0' !in a && '\0' !in b && Tokens(a) == Tokens(b) && Line(Tokens(a), t) && Line(Tokens(b), u)
    ensures t == u
  {
    hide Line, Tokens, ParseCmd;
    ParsesExactly(a, t);
    ParsesExactly(a, u);
  }
}
