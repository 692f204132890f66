/** The parser of sh.c: recursive descent over a line, with a cursor. */
module Shell {
  const MAXARGS := 10

  predicate IsSpace(c: char) {
    c == ' ' || c == '\t' || c == '\r' || c == '\n' || c == '\U{0B}'
  }

  predicate IsSymbol(c: char) {
    c == '<' || c == '|' || c == '>' || c == '&' || c == ';' || c == '(' || c == ')'
  }

  /** A character that can be part of a word. */
  predicate IsWord(c: char) {
    !IsSpace(c) && !IsSymbol(c) && c != '\0'
  }

  /** A stretch of the line. */
  datatype Span = Span(q: nat, eq: nat)

  /** A redirection: input, or output (`>` and `>>` give the same). */
  datatype Kind = In | Out

  /** A command tree; W is what stands for a word. */
  datatype Cmd<W> =
    | Exec(args: seq<W>)
    | Redir(cmd: Cmd<W>, file: W, kind: Kind)
    | Pipe(left: Cmd<W>, right: Cmd<W>)
    | List(left: Cmd<W>, right: Cmd<W>)
    | Back(cmd: Cmd<W>)

  // ---------- gettoken and peek ----------

  /** The character at the cursor; the line ends in a NUL. */
  function At(buf: string, p: nat): char {
    if p < |buf| then buf[p] else '\0'
  }

  function SkipSpace(buf: string, p: nat): (r: nat)
    requires p <= |buf|
    ensures p <= r <= |buf| && !IsSpace(At(buf, r)) && forall k :: p <= k < r ==> IsSpace(buf[k])
    decreases |buf| - p
  {
    if p < |buf| && IsSpace(buf[p]) then SkipSpace(buf, p + 1) else p
  }

  function SkipWord(buf: string, p: nat): (r: nat)
    requires p <= |buf|
    ensures p <= r <= |buf| && (r < |buf| ==> IsSpace(buf[r]) || IsSymbol(buf[r]))
    ensures forall k :: p <= k < r ==> !IsSpace(buf[k]) && !IsSymbol(buf[k])
    decreases |buf| - p
  {
    if p < |buf| && !IsSpace(buf[p]) && !IsSymbol(buf[p]) then SkipWord(buf, p + 1) else p
  }

  /** What gettoken returns: 0, a symbol, '+' for >>, or 'a' for a word; where the token is; and where
      the cursor goes. */
  datatype Got = Got(ret: char, q: nat, eq: nat, next: nat)

  function Gettoken(buf: string, p: nat): (g: Got)
    requires p <= |buf|
    ensures p <= g.q <= g.eq <= g.next <= |buf| && !IsSpace(At(buf, g.next))
    ensures g.ret != '\0' && '\0' !in buf ==> g.q < g.eq
    ensures g.ret == 'a' && '\0' !in buf ==> IsToken(buf, Span(g.q, g.eq))
  {
    var q := SkipSpace(buf, p);
    var c := At(buf, q);
    if c == '\0' then Got('\0', q, q, SkipSpace(buf, q))
    else if c == '>' then
      if At(buf, q + 1) == '>' then Got('+', q, q + 2, SkipSpace(buf, q + 2))
      else Got('>', q, q + 1, SkipSpace(buf, q + 1))
    else if IsSymbol(c) then Got(c, q, q + 1, SkipSpace(buf, q + 1))
    else
      var eq := SkipWord(buf, q);
      assert '\0' !in buf && q < eq ==> IsWord(buf[q]);
      Got('a', q, eq, SkipSpace(buf, eq))
  }

  /** A maximal run of word characters to the right. */
  ghost predicate IsToken(buf: string, t: Span) {
    && t.q < t.eq <= |buf|
    && (forall k :: t.q <= k < t.eq ==> IsWord(buf[k]))
    && (t.eq < |buf| ==> !IsWord(buf[t.eq]))
  }

  /** peek: is the next character one of toks?  The cursor moves past white space. */
  predicate Peek(buf: string, p: nat, toks: string)
    requires p <= |buf|
  {
    var c := At(buf, SkipSpace(buf, p));
    c != '\0' && c in toks
  }

  // ---------- the parser ----------

  /** The shell's messages when it gives up on a line. */
  datatype Error = Leftovers | MissingFile | NoBlock | MissingParen | Syntax | TooManyArgs

  datatype Result = Ok(cmd: Cmd<Span>, next: nat) | Fail(why: Error)

  datatype Redirs = Reds(list: seq<(Span, Kind)>, to: nat) | NoFile

  /** parseredirs: the redirections at the cursor, after those already there. */
  function ParseRedirs(buf: string, p: nat, rs: seq<(Span, Kind)>): (r: Redirs)
    requires p <= |buf| && '\0' !in buf
    ensures r.Reds? ==> p <= r.to <= |buf|
    decreases |buf| - p
  {
    if !Peek(buf, p, "<>") then Reds(rs, SkipSpace(buf, p))
    else
      var tok := Gettoken(buf, p);
      var file := Gettoken(buf, tok.next);
      if file.ret != 'a' then NoFile
      else ParseRedirs(buf, file.next, rs + [(Span(file.q, file.eq), if tok.ret == '<' then In else Out)])
  }

  /** The command inside its redirections: the last one is outermost. */
  function Wrap<W>(c: Cmd<W>, rs: seq<(W, Kind)>): Cmd<W>
    decreases |rs|
  {
    if rs == [] then c else Redir(Wrap(c, rs[..|rs| - 1]), rs[|rs| - 1].0, rs[|rs| - 1].1)
  }

  /** parseexec's loop over the words; execcmd's argv and the redirections seen so far. */
  function ParseArgs(buf: string, p: nat, args: seq<Span>, rs: seq<(Span, Kind)>): (r: Result)
    requires p <= |buf| && '\0' !in buf
    ensures r.Ok? ==> p <= r.next <= |buf|
    decreases |buf| - p
  {
    if Peek(buf, p, "|)&;") then Ok(Wrap(Exec(args), rs), SkipSpace(buf, p))
    else
      var g := Gettoken(buf, p);
      if g.ret == '\0' then Ok(Wrap(Exec(args), rs), g.next)
      else if g.ret != 'a' then Fail(Syntax)
      else if |args| + 1 >= MAXARGS then Fail(TooManyArgs)
      else
        var reds := ParseRedirs(buf, g.next, rs);
        if reds.NoFile? then Fail(MissingFile)
        else ParseArgs(buf, reds.to, args + [Span(g.q, g.eq)], reds.list)
  }

  function ParseExec(buf: string, p: nat): (r: Result)
    requires p <= |buf| && '\0' !in buf
    ensures r.Ok? ==> p <= r.next <= |buf|
    decreases |buf| - p, 1
  {
    if Peek(buf, p, "(") then ParseBlock(buf, p)
    else
      var reds := ParseRedirs(buf, p, []);
      if reds.NoFile? then Fail(MissingFile) else ParseArgs(buf, reds.to, [], reds.list)
  }

  function ParseBlock(buf: string, p: nat): (r: Result)
    requires p <= |buf| && '\0' !in buf
    ensures r.Ok? ==> p <= r.next <= |buf|
    decreases |buf| - p, 0
  {
    if !Peek(buf, p, "(") then Fail(NoBlock)
    else
      var line := ParseLine(buf, Gettoken(buf, p).next);
      if line.Fail? then line
      else if !Peek(buf, line.next, ")") then Fail(MissingParen)
      else
        var reds := ParseRedirs(buf, Gettoken(buf, line.next).next, []);
        if reds.NoFile? then Fail(MissingFile) else Ok(Wrap(line.cmd, reds.list), reds.to)
  }

  function ParsePipe(buf: string, p: nat): (r: Result)
    requires p <= |buf| && '\0' !in buf
    ensures r.Ok? ==> p <= r.next <= |buf|
    decreases |buf| - p, 2
  {
    var left := ParseExec(buf, p);
    if left.Fail? then left
    else if !Peek(buf, left.next, "|") then Ok(left.cmd, SkipSpace(buf, left.next))
    else
      var right := ParsePipe(buf, Gettoken(buf, left.next).next);
      if right.Fail? then right else Ok(Pipe(left.cmd, right.cmd), right.next)
  }

  /** parseline's loop over the ampersands. */
  function Backs(buf: string, p: nat, c: Cmd<Span>): (r: Result)
    requires p <= |buf| && '\0' !in buf
    ensures r.Ok? && p <= r.next <= |buf|
    decreases |buf| - p
  {
    if Peek(buf, p, "&") then Backs(buf, Gettoken(buf, p).next, Back(c)) else Ok(c, SkipSpace(buf, p))
  }

  function ParseLine(buf: string, p: nat): (r: Result)
    requires p <= |buf| && '\0' !in buf
    ensures r.Ok? ==> p <= r.next <= |buf|
    decreases |buf| - p, 3
  {
    var first := ParsePipe(buf, p);
    if first.Fail? then first
    else
      var back := Backs(buf, first.next, first.cmd);
      if !Peek(buf, back.next, ";") then Ok(back.cmd, SkipSpace(buf, back.next))
      else
        var rest := ParseLine(buf, Gettoken(buf, back.next).next);
        if rest.Fail? then rest else Ok(List(back.cmd, rest.cmd), rest.next)
  }

  /** parsecmd, up to nulterminate. */
  function ParseCmd(buf: string): (r: Result)
    requires '\0' !in buf
    ensures r.Ok? ==> r.next == |buf|
  {
    var line := ParseLine(buf, 0);
    if line.Fail? then line
    else if SkipSpace(buf, line.next) != |buf| then Fail(Leftovers)
    else Ok(line.cmd, |buf|)
  }
}
