/** The shell's command language: the tokens of a line, and the trees that a list of tokens denotes. */
module ShellGrammar {
  import opened Shell
  import opened ShellTokens

  type Tree = Cmd<string>

  // ---------- tokens ----------

  datatype Token = Word(text: string) | Sym(c: char) | Twice    // Twice: ">>"

  predicate Breaks(c: char) {
    IsSpace(c) || IsSymbol(c)
  }

  function WordLength(s: string): (k: nat)
    ensures k <= |s| && (k < |s| ==> Breaks(s[k])) && forall i :: 0 <= i < k ==> !Breaks(s[i])
  {
    if s == "" || Breaks(s[0]) then 0 else 1 + WordLength(s[1..])
  }

  /** The length of the token at the front: as long as it can be. */
  function Munch(s: string): (k: nat)
    requires s != "" && !IsSpace(s[0])
    ensures 0 < k <= |s|
  {
    if s[0] == '>' && |s| > 1 && s[1] == '>' then 2 else if IsSymbol(s[0]) then 1 else WordLength(s)
  }

  function First(s: string): Token
    requires s != "" && !IsSpace(s[0])
  {
    if !IsSymbol(s[0]) then Word(s[..Munch(s)]) else if Munch(s) == 2 then Twice else Sym(s[0])
  }

  /** White space only keeps tokens apart. */
  function Tokens(s: string): seq<Token>
    decreases |s|
  {
    if s == "" then []
    else if IsSpace(s[0]) then Tokens(s[1..])
    else [First(s)] + Tokens(s[Munch(s)..])
  }

  lemma FirstStays(a: string, c: char, b: string)
    requires a != "" && !IsSpace(a[0]) && IsSpace(c)
    ensures var s := a + [c] + b; Munch(s) == Munch(a) && First(s) == First(a)
  {
    var s := a + [c] + b;
    assert s[0] == a[0];
    if !IsSymbol(a[0]) {
      LengthIs(s, WordLength(a));
      assert s[..WordLength(a)] == a[..WordLength(a)];
    } else if |a| > 1 {
      assert s[1] == a[1];
    } else {
      assert s[1] == c;
    }
  }

  /** White space between two texts: the tokens of one, then those of the other. */
  lemma {:induction false} SpaceBetween(a: string, c: char, b: string)
    requires IsSpace(c)
    ensures Tokens(a + [c] + b) == Tokens(a) + Tokens(b)
    decreases |a|
  {
    hide Munch, First;
    var s := a + [c] + b;
    if a == "" {
      assert s[0] == c && s[1..] == b;
    } else if IsSpace(a[0]) {
      SpaceBetween(a[1..], c, b);
      assert s[1..] == a[1..] + [c] + b;
    } else {
      FirstStays(a, c, b);
      var k := Munch(a);
      SpaceBetween(a[k..], c, b);
      assert s[k..] == a[k..] + [c] + b;
      assert Tokens(s) == [First(a)] + (Tokens(a[k..]) + Tokens(b));
    }
  }

  lemma {:induction false} LengthIs(s: string, k: nat)
    requires k <= |s| && (k < |s| ==> Breaks(s[k])) && forall i :: 0 <= i < k ==> !Breaks(s[i])
    ensures WordLength(s) == k
  {
  }

  // ---------- what a list of tokens denotes ----------

  /** `<` is input; `>` and `>>` are both output. */
  predicate IsRedir(t: Token, k: Kind) {
    if k == In then t == Sym('<') else t == Sym('>') || t == Twice
  }

  /** A redirection and its file, then more of the same. */
  ghost predicate RedList(ts: seq<Token>, rs: seq<(string, Kind)>)
    decreases |ts|
  {
    if ts == [] then rs == []
    else
      && |ts| >= 2 && rs != []
      && IsRedir(ts[0], rs[0].1) && ts[1] == Word(rs[0].0)
      && RedList(ts[2..], rs[1..])
  }

  /** Words and redirections in any order. */
  ghost predicate Simple(ts: seq<Token>, args: seq<string>, rs: seq<(string, Kind)>)
    decreases |ts|
  {
    if ts == [] then args == [] && rs == []
    else if ts[0].Word? then args != [] && args[0] == ts[0].text && Simple(ts[1..], args[1..], rs)
    else
      && |ts| >= 2 && rs != []
      && IsRedir(ts[0], rs[0].1) && ts[1] == Word(rs[0].0)
      && Simple(ts[2..], args, rs[1..])
  }

  ghost predicate SimpleAs(ts: seq<Token>, t: Tree, args: seq<string>, rs: seq<(string, Kind)>) {
    Simple(ts, args, rs) && |args| < MAXARGS && t == Wrap(Exec(args), rs)
  }

  /** A line in parentheses, then redirections. */
  ghost predicate BlockAs(ts: seq<Token>, t: Tree, k: nat, inner: Tree, rs: seq<(string, Kind)>)
    decreases |ts|, 0
  {
    && 0 < k < |ts| && ts[0] == Sym('(') && ts[k] == Sym(')')
    && Line(ts[1..k], inner) && RedList(ts[k + 1..], rs) && t == Wrap(inner, rs)
  }

  ghost predicate Command(ts: seq<Token>, t: Tree)
    decreases |ts|, 1
  {
    || (exists args, rs :: SimpleAs(ts, t, args, rs))
    || (exists k: nat, inner, rs :: BlockAs(ts, t, k, inner, rs))
  }

  ghost predicate PipeAs(ts: seq<Token>, t: Tree, k: nat)
    decreases |ts|, 2
  {
    && t.Pipe? && k < |ts| && ts[k] == Sym('|')
    && Command(ts[..k], t.left) && Pipeline(ts[k + 1..], t.right)
  }

  /** Commands with | between them, grouped to the right. */
  ghost predicate Pipeline(ts: seq<Token>, t: Tree)
    decreases |ts|, 3
  {
    Command(ts, t) || exists k: nat :: PipeAs(ts, t, k)
  }

  /** A pipeline with any number of & behind it. */
  ghost predicate Job(ts: seq<Token>, t: Tree)
    decreases |ts|, 4
  {
    || Pipeline(ts, t)
    || (t.Back? && ts != [] && ts[|ts| - 1] == Sym('&') && Job(ts[..|ts| - 1], t.cmd))
  }

  ghost predicate ListAs(ts: seq<Token>, t: Tree, k: nat)
    decreases |ts|, 5
  {
    && t.List? && k < |ts| && ts[k] == Sym(';')
    && Job(ts[..k], t.left) && Line(ts[k + 1..], t.right)
  }

  /** Jobs with ; between them, grouped to the right. */
  ghost predicate Line(ts: seq<Token>, t: Tree)
    decreases |ts|, 6
  {
    Job(ts, t) || exists k: nat :: ListAs(ts, t, k)
  }

  // ---------- trees of spans as trees of words ----------

  function Text(buf: string, c: Cmd<Span>): Tree
    requires CmdOk(buf, c)
  {
    match c
    case Exec(args) => Exec(Texts(buf, args))
    case Redir(d, f, k) => Redir(Text(buf, d), buf[f.q..f.eq], k)
    case Pipe(l, r) => Pipe(Text(buf, l), Text(buf, r))
    case List(l, r) => List(Text(buf, l), Text(buf, r))
    case Back(d) => Back(Text(buf, d))
  }

  function Texts(buf: string, args: seq<Span>): seq<string>
    requires ArgsOk(buf, args)
  {
    seq(|args|, i requires 0 <= i < |args| => buf[args[i].q..args[i].eq])
  }

  function RedTexts(buf: string, rs: seq<(Span, Kind)>): seq<(string, Kind)>
    requires RedsOk(buf, rs)
  {
    seq(|rs|, i requires 0 <= i < |rs| => (buf[rs[i].0.q..rs[i].0.eq], rs[i].1))
  }

  lemma {:induction false} TextWrap(buf: string, c: Cmd<Span>, ss: seq<(Span, Kind)>)
    requires CmdOk(buf, c) && RedsOk(buf, ss)
    ensures CmdOk(buf, Wrap(c, ss)) && Text(buf, Wrap(c, ss)) == Wrap(Text(buf, c), RedTexts(buf, ss))
    decreases |ss|
  {
    hide IsToken;
    WrapOk(buf, c, ss);
    if ss != [] {
      var m := |ss| - 1;
      TextWrap(buf, c, ss[..m]);
      assert RedTexts(buf, ss)[..m] == RedTexts(buf, ss[..m]);
    } else {
      assert RedTexts(buf, ss) == [];
    }
  }

  // ---------- gettoken and peek by tokens ----------

  /** The tokens from the cursor on. */
  function Left(buf: string, p: nat): seq<Token>
    requires p <= |buf|
  {
    Tokens(buf[p..])
  }

  lemma {:induction false} SpaceSkipped(buf: string, p: nat)
    requires p <= |buf|
    ensures Left(buf, SkipSpace(buf, p)) == Left(buf, p)
    decreases |buf| - p
  {
    if p < |buf| && IsSpace(buf[p]) {
      SpaceSkipped(buf, p + 1);
      assert buf[p..][1..] == buf[p + 1..];
    }
  }

  function TokenOf(buf: string, g: Got): Token
    requires g.q <= g.eq <= |buf|
  {
    if g.ret == 'a' then Word(buf[g.q..g.eq]) else if g.ret == '+' then Twice else Sym(g.ret)
  }

  /** Past the white space gettoken takes what Munch takes. */
  lemma MunchTaken(buf: string, p: nat)
    requires p <= |buf| && '\0' !in buf && SkipSpace(buf, p) < |buf|
    ensures
      var g := Gettoken(buf, p);
      && g.q == SkipSpace(buf, p) && g.next == SkipSpace(buf, g.eq)
      && !IsSpace(buf[g.q]) && g.eq == g.q + Munch(buf[g.q..]) && First(buf[g.q..]) == TokenOf(buf, g)
      && (g.ret == 'a' || g.ret == '+' || IsSymbol(g.ret))
  {
    hide IsToken;
    var g := Gettoken(buf, p);
    var s := buf[g.q..];
    assert s[0] == buf[g.q];
    if g.ret == 'a' {
      LengthIs(s, g.eq - g.q);
      assert s[..g.eq - g.q] == buf[g.q..g.eq];
    } else if |s| > 1 {
      assert s[1] == buf[g.q + 1];
    }
  }

  lemma TokenInside(buf: string, p: nat)
    requires p <= |buf| && '\0' !in buf && SkipSpace(buf, p) < |buf|
    ensures
      var g := Gettoken(buf, p);
      && p < g.next && Left(buf, p) == [TokenOf(buf, g)] + Left(buf, g.next)
      && (g.ret == 'a' || g.ret == '+' || IsSymbol(g.ret))
  {
    hide Gettoken, Munch, First, IsToken, TokenOf;
    SpaceSkipped(buf, p);
    MunchTaken(buf, p);
    var g := Gettoken(buf, p);
    SpaceSkipped(buf, g.eq);
    assert buf[g.q..][0] == buf[g.q];
    assert buf[g.q..][g.eq - g.q..] == buf[g.eq..];
  }

  /** gettoken takes the first of the tokens left, and none at the end. */
  lemma TokenTaken(buf: string, p: nat)
    requires p <= |buf| && '\0' !in buf
    ensures
      var g := Gettoken(buf, p);
      && (g.ret == '\0' <==> Left(buf, p) == [])
      && (g.ret != '\0' ==> p < g.next && Left(buf, p) == [TokenOf(buf, g)] + Left(buf, g.next))
      && (g.ret == '\0' ==> Left(buf, g.next) == [])
      && (g.ret == 'a' || g.ret == '+' || IsSymbol(g.ret) || g.ret == '\0')
  {
    hide IsToken, TokenOf, SkipWord, Tokens;
    if SkipSpace(buf, p) < |buf| {
      TokenInside(buf, p);
    } else {
      SpaceSkipped(buf, p);
      NothingLeft(buf);
    }
  }

  lemma NothingLeft(buf: string)
    ensures Left(buf, |buf|) == []
  {
  }

  /** peek looks at the first of the tokens left. */
  lemma TokenPeeked(buf: string, p: nat, toks: string)
    requires p <= |buf| && '\0' !in buf && forall c :: c in toks ==> IsSymbol(c)
    ensures
      var ts := Left(buf, p);
      Peek(buf, p, toks) <==> ts != [] && ((ts[0].Sym? && ts[0].c in toks) || (ts[0].Twice? && '>' in toks))
    ensures Left(buf, SkipSpace(buf, p)) == Left(buf, p)
  {
    SpaceSkipped(buf, p);
    TokenTaken(buf, p);
  }
}
