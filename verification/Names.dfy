/** File names in fixed DIRSIZ-byte fields, and paths: strncmp, strncpy and skipelem. */
module Names {
  const DIRSIZ := 14
  const SLASH := 47

  /** Bytes that may be read as a name of at most n bytes: n of them, or a NUL before that. */
  predicate IsName(s: seq<int>, n: nat)
    decreases n
  {
    n == 0 || (|s| > 0 && (s[0] == 0 || IsName(s[1..], n - 1)))
  }

  /** The name such bytes stand for: up to the first NUL, or all n of them. */
  function Canon(s: seq<int>, n: nat): seq<int>
    requires IsName(s, n)
    decreases n
  {
    if n == 0 || s[0] == 0 then [] else [s[0]] + Canon(s[1..], n - 1)
  }

  /** strncmp: zero exactly for equal names. */
  method Strncmp(p: seq<int>, q: seq<int>, n: nat) returns (r: int)
    requires IsName(p, n) && IsName(q, n)
    ensures r == 0 <==> Canon(p, n) == Canon(q, n)
  {
    var i := 0;
    while i < n && p[i..][0] != 0 && p[i..][0] == q[i..][0]
      invariant 0 <= i <= n && i <= |p| && i <= |q|
      invariant IsName(p[i..], n - i) && IsName(q[i..], n - i)
      invariant Canon(p, n) == Canon(q, n) <==> Canon(p[i..], n - i) == Canon(q[i..], n - i)
    {
      assert p[i..][1..] == p[i + 1..] && q[i..][1..] == q[i + 1..];
      CanonStep(p[i..], q[i..], n - i);
      i := i + 1;
    }
    if i == n {
      return 0;
    }
    CanonStep(p[i..], q[i..], n - i);
    return p[i..][0] - q[i..][0];
  }

  lemma CanonStep(p: seq<int>, q: seq<int>, n: nat)
    requires n > 0 && IsName(p, n) && IsName(q, n)
    ensures p[0] != 0 && p[0] == q[0] ==> (Canon(p, n) == Canon(q, n) <==> Canon(p[1..], n - 1) == Canon(q[1..], n - 1))
    ensures p[0] == 0 || p[0] != q[0] ==> (Canon(p, n) == Canon(q, n) <==> p[0] == q[0])
  {
    var a, b := Canon(p, n), Canon(q, n);
    if p[0] != 0 && p[0] == q[0] {
      assert a[1..] == Canon(p[1..], n - 1) && b[1..] == Canon(q[1..], n - 1);
    } else if p[0] != 0 && q[0] != 0 {
      assert a[0] != b[0];
    }
  }

  /** What strncpy puts in an n-byte field: the name, padded with NULs. */
  function Padded(name: seq<int>, n: nat): (r: seq<int>)
    requires |name| <= n
    ensures |r| == n
  {
    name + seq(n - |name|, i => 0)
  }

  lemma {:induction false} CanonOfPadded(name: seq<int>, n: nat)
    requires |name| <= n && 0 !in name
    ensures IsName(Padded(name, n), n) && Canon(Padded(name, n), n) == name
  {
    if n > 0 && name != [] {
      assert Padded(name, n)[1..] == Padded(name[1..], n - 1);
      CanonOfPadded(name[1..], n - 1);
    }
  }

  lemma {:induction false} CanonSmall(s: seq<int>, n: nat)
    requires IsName(s, n)
    ensures |Canon(s, n)| <= n && 0 !in Canon(s, n) && Canon(s, n) <= s
  {
    if n > 0 && s[0] != 0 {
      CanonSmall(s[1..], n - 1);
    }
  }

  /** strncpy of t into n bytes. */
  method Strncpy(t: seq<int>, n: nat) returns (s: seq<int>)
    requires IsName(t, n)
    ensures |Canon(t, n)| <= n && s == Padded(Canon(t, n), n)
    ensures IsName(s, n) && Canon(s, n) == Canon(t, n)
  {
    s := [];
    NameLong(t, n, 0);
    while |s| < n && t[|s|] != 0
      invariant |s| <= n && s <= t && 0 !in s && (|s| < n ==> |s| < |t|)
    {
      s := s + [t[|s|]];
      NameLong(t, n, |s|);
    }
    ghost var name := s;
    while |s| < n
      invariant |name| <= |s| <= n && s == Padded(name, |s|)
    {
      s := s + [0];
    }
    CanonOfPrefix(name, t, n);
    CanonOfPadded(name, n);
  }

  lemma {:induction false} NameLong(s: seq<int>, n: nat, i: nat)
    requires IsName(s, n) && i <= |s| && i <= n && 0 !in s[..i]
    ensures i < n ==> i < |s|
  {
    if 0 < i {
      assert s[0] == s[..i][0] && s[1..][..i - 1] == s[..i][1..];
      NameLong(s[1..], n - 1, i - 1);
    }
  }

  // ---------- paths ----------

  function Cut(s: seq<int>): (r: seq<int>)
    ensures |r| <= DIRSIZ
  {
    if |s| >= DIRSIZ then s[..DIRSIZ] else s
  }

  /** The length of the path element that starts here. */
  function ElemLen(path: seq<int>): (r: nat)
    ensures r <= |path| && SLASH !in path[..r] && (r < |path| ==> path[r] == SLASH)
  {
    if path == [] || path[0] == SLASH then 0
    else
      var r := ElemLen(path[1..]);
      assert path[..r + 1] == [path[0]] + path[1..][..r];
      r + 1
  }

  /** The elements of a path, each cut to DIRSIZ bytes. */
  function Elements(path: seq<int>): seq<seq<int>>
    decreases |path|
  {
    if path == [] then []
    else if path[0] == SLASH then Elements(path[1..])
    else [Cut(path[..ElemLen(path)])] + Elements(path[ElemLen(path)..])
  }

  /** Text without a slash is one element. */
  lemma OneElement(e: seq<int>)
    requires e != [] && SLASH !in e
    ensures Elements(e) == [Cut(e)]
  {
    assert ElemLen(e) == |e| && e[..|e|] == e && e[|e|..] == [];
  }

  /** A slash between two texts: the elements of one, then those of the other. */
  lemma {:induction false} SlashBetween(a: seq<int>, b: seq<int>)
    ensures Elements(a + [SLASH] + b) == Elements(a) + Elements(b)
    decreases |a|
  {
    var s := a + [SLASH] + b;
    if a == [] {
      assert s[1..] == b;
    } else if a[0] == SLASH {
      SlashBetween(a[1..], b);
      assert s[1..] == a[1..] + [SLASH] + b;
    } else {
      var k := ElemLen(a);
      LengthStays(a, b);
      SlashBetween(a[k..], b);
      assert s[k..] == a[k..] + [SLASH] + b && s[..k] == a[..k];
      assert Elements(s) == [Cut(a[..k])] + (Elements(a[k..]) + Elements(b));
    }
  }

  lemma {:induction false} LengthStays(a: seq<int>, b: seq<int>)
    ensures ElemLen(a + [SLASH] + b) == ElemLen(a)
  {
    if a != [] && a[0] != SLASH {
      LengthStays(a[1..], b);
      assert (a + [SLASH] + b)[1..] == a[1..] + [SLASH] + b;
    }
  }

  method ScanSlashes(path: seq<int>, i: nat) returns (j: nat)
    requires i <= |path|
    ensures i <= j <= |path| && (j < |path| ==> path[j] != SLASH)
    ensures Elements(path[i..]) == Elements(path[j..])
  {
    j := i;
    while j < |path| && path[j] == SLASH
      invariant i <= j <= |path| && Elements(path[i..]) == Elements(path[j..])
    {
      assert path[j..][1..] == path[j + 1..];
      j := j + 1;
    }
  }

  method ScanElement(path: seq<int>, i: nat) returns (j: nat)
    requires i <= |path|
    ensures i <= j <= |path| && ElemLen(path[i..]) == j - i
  {
    j := i;
    while j < |path| && path[j] != SLASH
      invariant i <= j <= |path| && ElemLen(path[i..]) == j - i + ElemLen(path[j..])
    {
      assert path[j..][1..] == path[j + 1..];
      j := j + 1;
    }
  }

  /** skipelem: copies the first element into the name buffer and returns the path after it;
      false when there is none. */
  method Skipelem(path: seq<int>, name0: seq<int>) returns (more: bool, rest: seq<int>, name: seq<int>)
    requires 0 !in path && |name0| == DIRSIZ
    ensures more <==> Elements(path) != []
    ensures |name| == DIRSIZ
    ensures more ==> IsName(name, DIRSIZ) && Elements(path) == [Canon(name, DIRSIZ)] + Elements(rest)
    ensures more ==> |rest| < |path| && 0 !in rest && (rest == [] <==> Elements(rest) == [])
  {
    hide IsName, Canon, Elements, ElemLen, Cut;
    name, rest := name0, path;
    assert path[0..] == path;
    var s := ScanSlashes(path, 0);
    ElementsFrom(path, s);
    if s == |path| {
      return false, rest, name;
    }
    var i := ScanElement(path, s);
    var elem := path[s..i];
    if i - s >= DIRSIZ {
      name := elem[..DIRSIZ];
    } else {
      name := elem + [0] + name[i - s + 1..];
    }
    CanonOfBuffer(elem, name);
    var j := ScanSlashes(path, i);
    ElementsFrom(path, j);
    return true, path[j..], name;
  }

  /** The first element of what is left of a path, past any slashes. */
  lemma ElementsFrom(path: seq<int>, s: nat)
    requires s <= |path| && (s < |path| ==> path[s] != SLASH)
    ensures Elements(path[s..]) == [] <==> path[s..] == []
    ensures s < |path| ==>
              var i := s + ElemLen(path[s..]);
              s < i <= |path| && Elements(path[s..]) == [Cut(path[s..i])] + Elements(path[i..])
  {
    if s < |path| {
      var p := path[s..];
      var n := ElemLen(p);
      assert p[..n] == path[s..s + n] && p[n..] == path[s + n..];
    }
  }

  lemma CanonOfBuffer(elem: seq<int>, name: seq<int>)
    requires 0 !in elem && |name| == DIRSIZ
    requires if |elem| >= DIRSIZ then name == elem[..DIRSIZ] else elem + [0] <= name
    ensures IsName(name, DIRSIZ) && Canon(name, DIRSIZ) == Cut(elem)
  {
    CanonOfPrefix(Cut(elem), name, DIRSIZ);
  }

  lemma {:induction false} CanonOfPrefix(e: seq<int>, s: seq<int>, n: nat)
    requires 0 !in e && |e| <= n && e <= s && (|e| < n ==> |e| < |s| && s[|e|] == 0)
    ensures IsName(s, n) && Canon(s, n) == e
  {
    if e != [] {
      CanonOfPrefix(e[1..], s[1..], n - 1);
    }
  }
}
