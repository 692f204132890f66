/** Writing a command tree as a line: the line parses to the tree. */
module ShellRoundTrip {
  import opened Shell
  import opened ShellTokens
  import opened ShellGrammar
  import opened ShellParse

  ghost predicate WordOk(w: string) {
    |w| > 0 && forall k :: 0 <= k < |w| ==> IsWord(w[k])
  }

  /** What a line can say: words that are words, at most nine to a command. */
  ghost predicate TreeOk(t: Tree) {
    match t
    case Exec(args) => |args| < MAXARGS && forall i :: 0 <= i < |args| ==> WordOk(args[i])
    case Redir(d, f, _) => TreeOk(d) && WordOk(f)
    case Pipe(l, r) => TreeOk(l) && TreeOk(r)
    case List(l, r) => TreeOk(l) && TreeOk(r)
    case Back(d) => TreeOk(d)
  }

  // ---------- trees as tokens ----------

  /** How tightly a tree binds: a list least, then &, then |, then a command with its redirections. */
  function Level(t: Tree): nat {
    match t
    case List(_, _) => 0
    case Back(_) => 1
    case Pipe(_, _) => 2
    case Redir(_, _, _) => 3
    case Exec(_) => 3
  }

  function Words(args: seq<string>): seq<Token> {
    if args == [] then [] else [Word(args[0])] + Words(args[1..])
  }

  function Arrow(k: Kind): Token {
    if k == In then Sym('<') else Sym('>')
  }

  /** The tree as tokens, in parentheses where something of at least level n is called for. */
  function Print(t: Tree, n: nat): seq<Token>
    decreases t, 1
  {
    if Level(t) < n then [Sym('(')] + Plain(t) + [Sym(')')] else Plain(t)
  }

  function Plain(t: Tree): seq<Token>
    decreases t, 0
  {
    match t
    case Exec(args) => Words(args)
    case Redir(d, f, k) => Print(d, 3) + [Arrow(k), Word(f)]
    case Pipe(l, r) => Print(l, 3) + [Sym('|')] + Print(r, 2)
    case List(l, r) => Print(l, 1) + [Sym(';')] + Print(r, 0)
    case Back(d) => Print(d, 1) + [Sym('&')]
  }

  lemma {:induction false} WordsSimple(args: seq<string>)
    ensures Simple(Words(args), args, [])
  {
    if args != [] {
      WordsSimple(args[1..]);
      assert Words(args)[1..] == Words(args[1..]);
    }
  }

  lemma {:induction false} RedListSnoc(ts: seq<Token>, rs: seq<(string, Kind)>, f: string, k: Kind)
    requires RedList(ts, rs)
    ensures RedList(ts + [Arrow(k), Word(f)], rs + [(f, k)])
    decreases |ts|
  {
    var one := [Arrow(k), Word(f)];
    if ts == [] {
      assert ts + one == one && rs + [(f, k)] == [(f, k)];
    } else {
      RedListSnoc(ts[2..], rs[1..], f, k);
      assert (ts + one)[2..] == ts[2..] + one && (rs + [(f, k)])[1..] == rs[1..] + [(f, k)];
    }
  }

  lemma {:induction false} SimpleSnoc(ts: seq<Token>, args: seq<string>, rs: seq<(string, Kind)>, f: string, k: Kind)
    requires Simple(ts, args, rs)
    ensures Simple(ts + [Arrow(k), Word(f)], args, rs + [(f, k)])
    decreases |ts|
  {
    var one := [Arrow(k), Word(f)];
    if ts == [] {
      assert ts + one == one && rs + [(f, k)] == [(f, k)];
    } else if ts[0].Word? {
      SimpleSnoc(ts[1..], args[1..], rs, f, k);
      assert (ts + one)[1..] == ts[1..] + one;
    } else {
      SimpleSnoc(ts[2..], args, rs[1..], f, k);
      assert (ts + one)[2..] == ts[2..] + one && (rs + [(f, k)])[1..] == rs[1..] + [(f, k)];
    }
  }

  /** One more redirection behind a command. */
  lemma CommandSnoc(ts: seq<Token>, t: Tree, f: string, k: Kind)
    requires Command(ts, t)
    ensures Command(ts + [Arrow(k), Word(f)], Redir(t, f, k))
  {
    hide Simple, RedList, Line;
    var one := [Arrow(k), Word(f)];
    if args, rs :| SimpleAs(ts, t, args, rs) {
      SimpleSnoc(ts, args, rs, f, k);
      assert (rs + [(f, k)])[..|rs|] == rs;
      assert SimpleAs(ts + one, Redir(t, f, k), args, rs + [(f, k)]);
    } else {
      var j: nat, inner, rs :| BlockAs(ts, t, j, inner, rs);
      RedListSnoc(ts[j + 1..], rs, f, k);
      assert (rs + [(f, k)])[..|rs|] == rs;
      assert (ts + one)[1..j] == ts[1..j] && (ts + one)[j + 1..] == ts[j + 1..] + one;
      assert BlockAs(ts + one, Redir(t, f, k), j, inner, rs + [(f, k)]);
    }
  }

  /** A line in parentheses is a command. */
  lemma InParens(ts: seq<Token>, t: Tree)
    requires Line(ts, t)
    ensures Command([Sym('(')] + ts + [Sym(')')], t)
  {
    hide Line;
    var all := [Sym('(')] + ts + [Sym(')')];
    BlockTokens(ts, [], []);
    assert all + [] == all;
    assert BlockAs(all, t, |ts| + 1, t, []);
  }

  lemma {:induction false} PlainDenotes(t: Tree)
    requires TreeOk(t)
    ensures Line(Plain(t), t)
    ensures Level(t) >= 1 ==> Job(Plain(t), t)
    ensures Level(t) >= 2 ==> Pipeline(Plain(t), t)
    ensures Level(t) >= 3 ==> Command(Plain(t), t)
    decreases t, 0
  {
    hide Command, WordOk;
    match t
    case Exec(args) =>
      WordsSimple(args);
      ExecDenotes(args);
      CommandUp(Plain(t), t);
    case Redir(d, f, k) =>
      PrintDenotes(d);
      CommandSnoc(Print(d, 3), d, f, k);
      CommandUp(Plain(t), t);
    case Pipe(l, r) =>
      PrintDenotes(l);
      PrintDenotes(r);
      SplitAt(Print(l, 3), '|', Print(r, 2), []);
      PipeUp(Plain(t), t, |Print(l, 3)|);
    case List(l, r) =>
      PrintDenotes(l);
      PrintDenotes(r);
      SplitAt(Print(l, 1), ';', Print(r, 0), []);
      assert ListAs(Plain(t), t, |Print(l, 1)|);
    case Back(d) =>
      PrintDenotes(d);
      assert Plain(t)[..|Plain(t)| - 1] == Print(d, 1);
      JobOfBack(Plain(t), t);
  }

  lemma JobOfBack(ts: seq<Token>, t: Tree)
    requires t.Back? && ts != [] && ts[|ts| - 1] == Sym('&') && Job(ts[..|ts| - 1], t.cmd)
    ensures Job(ts, t) && Line(ts, t)
  {
  }

  lemma CommandUp(ts: seq<Token>, t: Tree)
    requires Command(ts, t)
    ensures Pipeline(ts, t) && Job(ts, t) && Line(ts, t)
  {
    hide Command;
  }

  lemma PipeUp(ts: seq<Token>, t: Tree, k: nat)
    requires PipeAs(ts, t, k)
    ensures Pipeline(ts, t) && Job(ts, t) && Line(ts, t)
  {
    hide Command, PipeAs;
  }

  lemma ExecDenotes(args: seq<string>)
    requires Simple(Words(args), args, []) && |args| < MAXARGS
    ensures Command(Words(args), Exec(args))
  {
    hide Simple;
    assert SimpleAs(Words(args), Exec(args), args, []);
  }

  lemma {:induction false} PrintDenotes(t: Tree)
    requires TreeOk(t)
    ensures Line(Print(t, 0), t) && Job(Print(t, 1), t) && Pipeline(Print(t, 2), t) && Command(Print(t, 3), t)
    decreases t, 1
  {
    hide Command, Plain, Line, Job, Pipeline;
    PlainDenotes(t);
    InParens(Plain(t), t);
    CommandUp([Sym('(')] + Plain(t) + [Sym(')')], t);
  }

  // ---------- tokens as text ----------

  function Letters(k: Token): string {
    match k
    case Word(w) => w
    case Sym(c) => [c]
    case Twice => ">>"
  }

  /** Each token with a space behind it. */
  function Spell(ts: seq<Token>): string {
    if ts == [] then "" else Letters(ts[0]) + " " + Spell(ts[1..])
  }

  ghost predicate TokenOk(k: Token) {
    match k
    case Word(w) => WordOk(w)
    case Sym(c) => IsSymbol(c)
    case Twice => true
  }

  ghost predicate TokensOk(ts: seq<Token>) {
    forall i :: 0 <= i < |ts| ==> TokenOk(ts[i])
  }

  lemma OneToken(k: Token)
    requires TokenOk(k)
    ensures Tokens(Letters(k)) == [k] && '\0' !in Letters(k)
  {
    var s := Letters(k);
    if k.Word? {
      assert forall i :: 0 <= i < |s| ==> IsWord(s[i]);
      LengthIs(s, |s|);
      assert s[..|s|] == s && s[|s|..] == "";
    } else if k.Twice? {
      assert s[2..] == "";
    } else {
      assert s[1..] == "";
    }
  }

  lemma {:induction false} SpellIs(ts: seq<Token>)
    requires TokensOk(ts)
    ensures Tokens(Spell(ts)) == ts && '\0' !in Spell(ts)
  {
    hide TokenOk, Tokens;
    if ts == [] {
      NoTokens();
    } else {
      OneToken(ts[0]);
      SpaceBetween(Letters(ts[0]), ' ', Spell(ts[1..]));
      SpellIs(ts[1..]);
    }
  }

  lemma NoTokens()
    ensures Tokens("") == []
  {
  }

  lemma {:induction false} WordsOk(args: seq<string>)
    requires forall i :: 0 <= i < |args| ==> WordOk(args[i])
    ensures TokensOk(Words(args))
  {
    hide WordOk;
    if args != [] {
      WordsOk(args[1..]);
    }
  }

  lemma BothOk(a: seq<Token>, b: seq<Token>, c: seq<Token>)
    requires TokensOk(a) && TokensOk(b) && TokensOk(c)
    ensures TokensOk(a + b + c)
  {
    hide TokenOk;
  }

  lemma {:induction false} PlainOk(t: Tree)
    requires TreeOk(t)
    ensures TokensOk(Plain(t))
    decreases t, 0
  {
    hide WordOk, TokensOk, Print;
    NoneOk();
    match t
    case Exec(args) => WordsOk(args);
    case Redir(d, f, k) =>
      PrintOk(d, 3);
      FileOk(k, f);
      BothOk(Print(d, 3), [Arrow(k), Word(f)], []);
      assert Plain(t) + [] == Plain(t);
    case Pipe(l, r) =>
      PrintOk(l, 3);
      PrintOk(r, 2);
      BothOk(Print(l, 3), [Sym('|')], Print(r, 2));
    case List(l, r) =>
      PrintOk(l, 1);
      PrintOk(r, 0);
      BothOk(Print(l, 1), [Sym(';')], Print(r, 0));
    case Back(d) =>
      PrintOk(d, 1);
      BothOk(Print(d, 1), [Sym('&')], []);
      assert Plain(t) + [] == Plain(t);
  }

  lemma NoneOk()
    ensures TokensOk([]) && forall c :: IsSymbol(c) ==> TokensOk([Sym(c)])
  {
  }

  lemma FileOk(k: Kind, f: string)
    requires WordOk(f)
    ensures TokensOk([Arrow(k), Word(f)])
  {
  }

  lemma {:induction false} PrintOk(t: Tree, n: nat)
    requires TreeOk(t)
    ensures TokensOk(Print(t, n))
    decreases t, 1
  {
    hide TokensOk, Plain, TreeOk;
    PlainOk(t);
    NoneOk();
    BothOk([Sym('(')], Plain(t), [Sym(')')]);
  }

  /** A line with the tokens of a printed tree, in whatever white space, parses to the tree. */
  lemma RoundTrip(t: Tree, buf: string)
    requires TreeOk(t) && '\0' !in buf && Tokens(buf) == Print(t, 0)
    ensures var r := ParseCmd(buf); r.Ok? && CmdOk(buf, r.cmd) && Text(buf, r.cmd) == t
  {
    hide ParseCmd, Line, Print, Tokens;
    PrintDenotes(t);
    ParsesExactly(buf, t);
  }

  /** There is such a line. */
  lemma Printed(t: Tree)
    requires TreeOk(t)
    ensures '\0' !in Spell(Print(t, 0)) && Tokens(Spell(Print(t, 0))) == Print(t, 0)
  {
    PrintOk(t, 0);
    SpellIs(Print(t, 0));
  }

  lemma {:induction false} TextOk(buf: string, c: Cmd<Span>)
    requires CmdOk(buf, c)
    ensures TreeOk(Text(buf, c))
  {
    match c
    case Exec(args) =>
      assert forall i :: 0 <= i < |args| ==> IsToken(buf, args[i]);
    case Redir(d, f, k) => TextOk(buf, d);
    case Pipe(l, r) => TextOk(buf, l); TextOk(buf, r);
    case List(l, r) => TextOk(buf, l); TextOk(buf, r);
    case Back(d) => TextOk(buf, d);
  }

  /** Whatever a line parses to can be printed and parsed again, to the same tree. */
  lemma Reparse(buf: string)
    requires '\0' !in buf && ParseCmd(buf).Ok?
    ensures CmdOk(buf, ParseCmd(buf).cmd)
    ensures
      var t := Text(buf, ParseCmd(buf).cmd);
      var line := Spell(Print(t, 0));
      '\0' !in line && var r := ParseCmd(line); r.Ok? && CmdOk(line, r.cmd) && Text(line, r.cmd) == t
  {
    hide ParseCmd, IsToken, Print, Spell, Tokens;
    CmdParsed(buf);
    var t := Text(buf, ParseCmd(buf).cmd);
    TextOk(buf, ParseCmd(buf).cmd);
    Printed(t);
    RoundTrip(t, Spell(Print(t, 0)));
  }
}
