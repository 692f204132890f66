/** grep.c's matcher against what its patterns mean. */
module Grep {

  /** A pattern character with or without a star; '.' stands for any character. */
  datatype Item = One(c: char) | Star(c: char)

  predicate Fits(c: char, t: char) {
    c == '.' || c == t
  }

  /** A $ at the very end is an anchor. */
  predicate Dollar(re: string) {
    if |re| > 1 && re[1] == '*' then Dollar(re[2..])
    else if re == "$" then true
    else re != "" && Dollar(re[1..])
  }

  /** The items of a pattern, without its anchors. */
  function Items(re: string): seq<Item> {
    if re == "" then []
    else if |re| > 1 && re[1] == '*' then [Star(re[0])] + Items(re[2..])
    else if re == "$" then []
    else [One(re[0])] + Items(re[1..])
  }

  ghost predicate AllFit(c: char, w: string) {
    forall i :: 0 <= i < |w| ==> Fits(c, w[i])
  }

  /** w is a string of the pattern's language. */
  ghost predicate Lang(items: seq<Item>, w: string)
    decreases |items|
  {
    if items == [] then w == ""
    else match items[0]
      case One(c) => w != "" && Fits(c, w[0]) && Lang(items[1..], w[1..])
      case Star(c) => exists k :: 0 <= k <= |w| && AllFit(c, w[..k]) && Lang(items[1..], w[k..])
  }

  /** The pattern matches a beginning of the text: all of it, if the pattern ends in $. */
  ghost predicate Here(re: string, text: string) {
    exists n :: 0 <= n <= |text| && HereAt(re, text, n)
  }

  ghost predicate HereAt(re: string, text: string, n: nat)
    requires n <= |text|
  {
    Lang(Items(re), text[..n]) && (Dollar(re) ==> n == |text|)
  }

  /** The pattern matches somewhere in the text: a piece of it is in the language, at the front if the
      pattern begins with ^ and at the end if it ends in $. */
  ghost predicate Matches(re: string, text: string) {
    var anchored := re != "" && re[0] == '^';
    var body := if anchored then re[1..] else re;
    exists i :: 0 <= i <= |text| && (anchored ==> i == 0) && Here(body, text[i..])
  }

  // ---------- what each branch of matchhere decides ----------

  lemma HereEmpty(text: string)
    ensures Here("", text)
  {
    assert HereAt("", text, 0);
  }

  lemma HereDollar(text: string)
    ensures Here("$", text) <==> text == ""
  {
    if text == "" {
      assert HereAt("$", text, 0);
    }
  }

  lemma HereOne(re: string, text: string)
    requires re != "" && re != "$" && !(|re| > 1 && re[1] == '*')
    ensures Here(re, text) <==> text != "" && Fits(re[0], text[0]) && Here(re[1..], text[1..])
  {
    var items := Items(re);
    assert items[0] == One(re[0]) && items[1..] == Items(re[1..]);
    if Here(re, text) {
      var n :| 0 <= n <= |text| && HereAt(re, text, n);
      assert text[..n] != "";
      assert text[..n][1..] == text[1..][..n - 1];
      assert HereAt(re[1..], text[1..], n - 1);
    }
    if text != "" && Fits(re[0], text[0]) && Here(re[1..], text[1..]) {
      var n :| 0 <= n <= |text[1..]| && HereAt(re[1..], text[1..], n);
      assert text[..n + 1][1..] == text[1..][..n];
      assert HereAt(re, text, n + 1);
    }
  }

  /** c* and then the rest of the pattern. */
  ghost predicate StarHere(c: char, re: string, text: string) {
    exists k :: 0 <= k <= |text| && AllFit(c, text[..k]) && Here(re, text[k..])
  }

  lemma HereStar(re: string, text: string)
    requires |re| > 1 && re[1] == '*'
    ensures Here(re, text) <==> StarHere(re[0], re[2..], text)
  {
    var items := Items(re);
    assert items[0] == Star(re[0]) && items[1..] == Items(re[2..]);
    if Here(re, text) {
      var n :| 0 <= n <= |text| && HereAt(re, text, n);
      var k :| 0 <= k <= |text[..n]| && AllFit(re[0], text[..n][..k]) && Lang(items[1..], text[..n][k..]);
      assert text[..n][..k] == text[..k] && text[..n][k..] == text[k..][..n - k];
      assert HereAt(re[2..], text[k..], n - k);
    }
    if StarHere(re[0], re[2..], text) {
      var k :| 0 <= k <= |text| && AllFit(re[0], text[..k]) && Here(re[2..], text[k..]);
      var n :| 0 <= n <= |text[k..]| && HereAt(re[2..], text[k..], n);
      assert text[..k + n][..k] == text[..k] && text[..k + n][k..] == text[k..][..n];
      assert Lang(items, text[..k + n]);
      assert HereAt(re, text, k + n);
    }
  }

  // ---------- plain patterns ----------

  ghost predicate Plain(re: string) {
    '.' !in re && '*' !in re && '^' !in re && '$' !in re
  }

  lemma {:induction false} PlainLang(re: string, w: string)
    requires Plain(re)
    ensures Lang(Items(re), w) <==> w == re
    ensures !Dollar(re)
  {
    if re != "" {
      assert Items(re)[0] == One(re[0]) && Items(re)[1..] == Items(re[1..]);
      if w != "" {
        PlainLang(re[1..], w[1..]);
        assert w == re <==> w[0] == re[0] && w[1..] == re[1..];
      } else {
        PlainLang(re[1..], "");
      }
    }
  }

  /** A pattern without special characters matches exactly the texts it occurs in; behind ^ exactly
      those that begin with it. */
  lemma PlainOccurs(re: string, text: string)
    requires Plain(re)
    ensures Matches(re, text) <==> exists i :: 0 <= i <= |text| && re <= text[i..]
    ensures Matches("^" + re, text) <==> re <= text
  {
    forall t: string ensures Here(re, t) <==> re <= t {
      PlainHere(re, t);
    }
    assert ("^" + re)[1..] == re && text[0..] == text;
  }

  lemma PlainHere(re: string, text: string)
    requires Plain(re)
    ensures Here(re, text) <==> re <= text
  {
    forall n | 0 <= n <= |text| ensures HereAt(re, text, n) <==> text[..n] == re {
      PlainLang(re, text[..n]);
    }
    if re <= text {
      assert HereAt(re, text, |re|);
    }
  }

  /** A dot is any character, and c* any number of c. */
  lemma AnyThenMany(c: char, text: string)
    requires c != '.' && c != '*'
    ensures Here(".", text) <==> text != ""
    ensures Here([c] + "*$", text) <==> forall i :: 0 <= i < |text| ==> text[i] == c
  {
    assert "."[1..] == "";
    HereOne(".", text);
    if text != "" {
      HereEmpty(text[1..]);
    }
    var re := [c] + "*$";
    HereStar(re, text);
    assert re[2..] == "$";
    forall k | 0 <= k <= |text| ensures Here("$", text[k..]) <==> k == |text| {
      HereDollar(text[k..]);
    }
    assert text[..|text|] == text;
  }

  // ---------- the code ----------

  method Matchhere(re: string, text: string) returns (r: bool)
    ensures r <==> Here(re, text)
    decreases 2 * |re|
  {
    if re == "" {
      HereEmpty(text);
      return true;
    }
    if |re| > 1 && re[1] == '*' {
      HereStar(re, text);
      r := Matchstar(re[0], re[2..], text);
      return;
    }
    if re == "$" {
      HereDollar(text);
      return text == "";
    }
    HereOne(re, text);
    if text != "" && (re[0] == '.' || re[0] == text[0]) {
      r := Matchhere(re[1..], text[1..]);
      return;
    }
    return false;
  }

  method Matchstar(c: char, re: string, text: string) returns (r: bool)
    ensures r <==> StarHere(c, re, text)
    decreases 2 * |re| + 1
  {
    hide Here;
    var k := 0;
    while true
      invariant 0 <= k <= |text| && AllFit(c, text[..k])
      invariant forall j :: 0 <= j < k ==> !Here(re, text[j..])
      decreases |text| - k
    {
      r := Matchhere(re, text[k..]);
      if r {
        return true;
      }
      if k == |text| || !(text[k] == c || c == '.') {
        NoLonger(c, text, k);
        return false;
      }
      assert text[..k + 1] == text[..k] + [text[k]];
      k := k + 1;
    }
  }

  lemma NoLonger(c: char, text: string, k: nat)
    requires k <= |text| && (k < |text| ==> !Fits(c, text[k]))
    ensures forall j :: k < j <= |text| ==> !AllFit(c, text[..j])
  {
  }

  method Match(re: string, text: string) returns (r: bool)
    ensures r <==> Matches(re, text)
  {
    hide Here;
    if re != "" && re[0] == '^' {
      r := Matchhere(re[1..], text);
      assert text[0..] == text;
      return;
    }
    var i := 0;
    while true
      invariant 0 <= i <= |text|
      invariant forall j :: 0 <= j < i ==> !Here(re, text[j..])
      decreases |text| - i
    {
      r := Matchhere(re, text[i..]);
      if r {
        return true;
      }
      if i == |text| {
        return false;
      }
      i := i + 1;
    }
  }
}
