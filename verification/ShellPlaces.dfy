/** Where the words of a parsed line are: one after the other, with a delimiter between. */
module ShellPlaces {
  import opened Shell
  import opened ShellTokens

  /** These spans lie between lo and hi and do not overlap. */
  ghost predicate Placed(ss: set<Span>, lo: nat, hi: nat) {
    && (forall s :: s in ss ==> lo <= s.q <= s.eq <= hi)
    && (forall s, t :: s in ss && t in ss && s != t ==> s.eq <= t.q || t.eq <= s.q)
  }

  lemma PlacedBoth(a: set<Span>, b: set<Span>, lo: nat, m: nat, hi: nat)
    requires Placed(a, lo, m) && Placed(b, m, hi) && lo <= m <= hi
    ensures Placed(a + b, lo, hi)
  {
  }

  lemma PlacedWider(a: set<Span>, lo: nat, hi: nat, lo': nat, hi': nat)
    requires Placed(a, lo, hi) && lo' <= lo && hi <= hi'
    ensures Placed(a, lo', hi')
  {
  }

  function RedSpans(rs: seq<(Span, Kind)>): set<Span> {
    set i | 0 <= i < |rs| :: rs[i].0
  }

  function ArgSpans(args: seq<Span>): set<Span> {
    set i | 0 <= i < |args| :: args[i]
  }

  lemma RedSpansMore(rs: seq<(Span, Kind)>, one: (Span, Kind))
    ensures RedSpans(rs + [one]) == RedSpans(rs) + {one.0}
  {
    var r := rs + [one];
    assert r[|rs|] == one && forall i :: 0 <= i < |rs| ==> r[i] == rs[i];
    forall s | s in RedSpans(rs) ensures s in RedSpans(r) {
      var i :| 0 <= i < |rs| && rs[i].0 == s;
      assert r[i].0 == s;
    }
  }

  lemma ArgSpansMore(args: seq<Span>, one: Span)
    ensures ArgSpans(args + [one]) == ArgSpans(args) + {one}
  {
    var r := args + [one];
    assert r[|args|] == one && forall i :: 0 <= i < |args| ==> r[i] == args[i];
    forall s | s in ArgSpans(args) ensures s in ArgSpans(r) {
      var i :| 0 <= i < |args| && args[i] == s;
      assert r[i] == s;
    }
  }

  lemma {:induction false} WrapSpans(c: Cmd<Span>, rs: seq<(Span, Kind)>)
    ensures Spans(Wrap(c, rs)) == Spans(c) + RedSpans(rs)
    decreases |rs|
  {
    if rs != [] {
      var n := |rs| - 1;
      WrapSpans(c, rs[..n]);
      assert RedSpans(rs) == RedSpans(rs[..n]) + {rs[n].0};
    } else {
      assert RedSpans(rs) == {};
    }
  }

  /** parseredirs: the new files come after what was there. */
  lemma {:induction false} RedirsPlaced(buf: string, p: nat, rs: seq<(Span, Kind)>, others: set<Span>, lo: nat)
    requires p <= |buf| && '\0' !in buf && lo <= p && Placed(others + RedSpans(rs), lo, p)
    ensures var r := ParseRedirs(buf, p, rs); r.Reds? ==> Placed(others + RedSpans(r.list), lo, r.to)
    decreases |buf| - p
  {
    hide Placed, IsToken, RedSpans;
    if Peek(buf, p, "<>") {
      var tok := Gettoken(buf, p);
      var file := Gettoken(buf, tok.next);
      if file.ret == 'a' {
        var one := (Span(file.q, file.eq), if tok.ret == '<' then In else Out);
        OneMore(others + RedSpans(rs), one.0, lo, p, file.next);
        RedSpansMore(rs, one);
        assert others + RedSpans(rs + [one]) == others + RedSpans(rs) + {one.0};
        RedirsPlaced(buf, file.next, rs + [one], others, lo);
      }
    } else {
      PlacedWider(others + RedSpans(rs), lo, p, lo, SkipSpace(buf, p));
    }
  }

  lemma OneMore(a: set<Span>, s: Span, lo: nat, m: nat, hi: nat)
    requires Placed(a, lo, m) && lo <= m <= s.q <= s.eq <= hi
    ensures Placed(a + {s}, lo, hi)
  {
  }

  lemma {:induction false} ArgsPlaced(buf: string, p: nat, args: seq<Span>, rs: seq<(Span, Kind)>, lo: nat)
    requires p <= |buf| && '\0' !in buf && lo <= p && Placed(ArgSpans(args) + RedSpans(rs), lo, p)
    ensures var r := ParseArgs(buf, p, args, rs); r.Ok? ==> Placed(Spans(r.cmd), lo, r.next)
    decreases |buf| - p
  {
    hide Placed, IsToken, ParseRedirs, ArgSpans, RedSpans, Spans;
    WrapSpans(Exec(args), rs);
    ExecSpans(args);
    var g := Gettoken(buf, p);
    if Peek(buf, p, "|)&;") {
      PlacedWider(ArgSpans(args) + RedSpans(rs), lo, p, lo, SkipSpace(buf, p));
    } else if g.ret == '\0' {
      PlacedWider(ArgSpans(args) + RedSpans(rs), lo, p, lo, g.next);
    } else if g.ret == 'a' && |args| + 1 < MAXARGS {
      var one := Span(g.q, g.eq);
      OneMore(ArgSpans(args) + RedSpans(rs), one, lo, p, g.next);
      ArgSpansMore(args, one);
      assert ArgSpans(args + [one]) + RedSpans(rs) == ArgSpans(args) + RedSpans(rs) + {one};
      RedirsPlaced(buf, g.next, rs, ArgSpans(args + [one]), lo);
      var reds := ParseRedirs(buf, g.next, rs);
      if reds.Reds? {
        ArgsPlaced(buf, reds.to, args + [one], reds.list, lo);
      }
    }
  }

  lemma ExecSpans(args: seq<Span>)
    ensures Spans(Exec(args)) == ArgSpans(args)
  {
  }

  lemma NoSpans(lo: nat, hi: nat)
    ensures Placed(ArgSpans([]) + RedSpans([]), lo, hi) && Placed({}, lo, hi) && RedSpans([]) == {}
  {
  }

  lemma {:induction false} ExecPlaced(buf: string, p: nat)
    requires p <= |buf| && '\0' !in buf
    ensures ParseExec(buf, p).Ok? ==> Placed(Spans(ParseExec(buf, p).cmd), p, ParseExec(buf, p).next)
    decreases |buf| - p, 1
  {
    hide Placed, ParseRedirs, ParseArgs;
    if Peek(buf, p, "(") {
      BlockPlaced(buf, p);
    } else {
      NoSpans(p, p);
      assert {} + RedSpans([]) == RedSpans([]);
      RedirsPlaced(buf, p, [], {}, p);
      var reds := ParseRedirs(buf, p, []);
      if reds.Reds? {
        assert ArgSpans([]) + RedSpans(reds.list) == {} + RedSpans(reds.list);
        ArgsPlaced(buf, reds.to, [], reds.list, p);
      }
    }
  }

  lemma {:induction false} BlockPlaced(buf: string, p: nat)
    requires p <= |buf| && '\0' !in buf && Peek(buf, p, "(")
    ensures ParseBlock(buf, p).Ok? ==> Placed(Spans(ParseBlock(buf, p).cmd), p, ParseBlock(buf, p).next)
    decreases |buf| - p, 0
  {
    hide Placed, ParseRedirs;
    var q := Gettoken(buf, p).next;
    LinePlaced(buf, q);
    var line := ParseLine(buf, q);
    if line.Ok? && Peek(buf, line.next, ")") {
      var m := Gettoken(buf, line.next).next;
      PlacedWider(Spans(line.cmd), q, line.next, p, m);
      assert Spans(line.cmd) + RedSpans([]) == Spans(line.cmd);
      RedirsPlaced(buf, m, [], Spans(line.cmd), p);
      var reds := ParseRedirs(buf, m, []);
      if reds.Reds? {
        WrapSpans(line.cmd, reds.list);
      }
    }
  }

  lemma {:induction false} PipePlaced(buf: string, p: nat)
    requires p <= |buf| && '\0' !in buf
    ensures ParsePipe(buf, p).Ok? ==> Placed(Spans(ParsePipe(buf, p).cmd), p, ParsePipe(buf, p).next)
    decreases |buf| - p, 2
  {
    hide Placed, ParseExec;
    ExecPlaced(buf, p);
    var left := ParseExec(buf, p);
    if left.Ok? {
      if Peek(buf, left.next, "|") {
        var m := Gettoken(buf, left.next).next;
        PipePlaced(buf, m);
        var right := ParsePipe(buf, m);
        if right.Ok? {
          PlacedWider(Spans(left.cmd), p, left.next, p, m);
          PlacedBoth(Spans(left.cmd), Spans(right.cmd), p, m, right.next);
        }
      } else {
        PlacedWider(Spans(left.cmd), p, left.next, p, SkipSpace(buf, left.next));
      }
    }
  }

  lemma {:induction false} BacksPlaced(buf: string, p: nat, c: Cmd<Span>, lo: nat)
    requires p <= |buf| && '\0' !in buf && Placed(Spans(c), lo, p)
    ensures Placed(Spans(Backs(buf, p, c).cmd), lo, Backs(buf, p, c).next)
    decreases |buf| - p
  {
    hide Placed;
    if Peek(buf, p, "&") {
      PlacedWider(Spans(c), lo, p, lo, Gettoken(buf, p).next);
      BacksPlaced(buf, Gettoken(buf, p).next, Back(c), lo);
    } else {
      PlacedWider(Spans(c), lo, p, lo, SkipSpace(buf, p));
    }
  }

  lemma {:induction false} LinePlaced(buf: string, p: nat)
    requires p <= |buf| && '\0' !in buf
    ensures ParseLine(buf, p).Ok? ==> Placed(Spans(ParseLine(buf, p).cmd), p, ParseLine(buf, p).next)
    decreases |buf| - p, 3
  {
    hide Placed, ParsePipe, Backs;
    PipePlaced(buf, p);
    var first := ParsePipe(buf, p);
    if first.Ok? {
      BacksPlaced(buf, first.next, first.cmd, p);
      var back := Backs(buf, first.next, first.cmd);
      if Peek(buf, back.next, ";") {
        var m := Gettoken(buf, back.next).next;
        LinePlaced(buf, m);
        var rest := ParseLine(buf, m);
        if rest.Ok? {
          PlacedWider(Spans(back.cmd), p, back.next, p, m);
          PlacedBoth(Spans(back.cmd), Spans(rest.cmd), p, m, rest.next);
        }
      } else {
        PlacedWider(Spans(back.cmd), p, back.next, p, SkipSpace(buf, back.next));
      }
    }
  }

  /** Two words of a parsed line have a character between them that belongs to neither. */
  lemma WordsApart(buf: string, s: Span, t: Span)
    requires '\0' !in buf && ParseCmd(buf).Ok?
    requires s in Spans(ParseCmd(buf).cmd) && t in Spans(ParseCmd(buf).cmd) && s != t
    ensures s.eq < t.q || t.eq < s.q
  {
    hide ParseLine, SkipSpace;
    CmdParsed(buf);
    var c := ParseCmd(buf).cmd;
    SpansOk(buf, c, s);
    SpansOk(buf, c, t);
    LinePlaced(buf, 0);
  }
}
