/** The string operations of Go's standard library that the modelled code relies on. */
module Text {

  /** unicode.IsSpace. */
  predicate IsSpace(c: char) {
    c == ' ' || '\t' <= c <= '\r' || c == '\U{0085}' || c == '\U{00A0}' || c == '\U{1680}'
    || '\U{2000}' <= c <= '\U{200a}' || c == '\U{2028}' || c == '\U{2029}' || c == '\U{202f}'
    || c == '\U{205f}' || c == '\U{3000}'
  }

  /** The code points that count as white space. */
  lemma SpaceIs(c: char)
    ensures IsSpace(c) <==>
            c as int in {0x09, 0x0a, 0x0b, 0x0c, 0x0d, 0x20, 0x85, 0xa0, 0x1680, 0x2000, 0x2001, 0x2002, 0x2003, 0x2004,
                         0x2005, 0x2006, 0x2007, 0x2008, 0x2009, 0x200a, 0x2028, 0x2029, 0x202f, 0x205f, 0x3000}
  {
  }

  function TrimLeft(s: string, cut: char -> bool): string {
    if s != [] && cut(s[0]) then TrimLeft(s[1..], cut) else s
  }

  function TrimRight(s: string, cut: char -> bool): string {
    if s != [] && cut(s[|s| - 1]) then TrimRight(s[..|s| - 1], cut) else s
  }

  /** Trimming on the left leaves a suffix that does not begin with a cut character. */
  lemma {:induction false} TrimLeftIs(s: string, cut: char -> bool)
    ensures var r := TrimLeft(s, cut); (r == [] || !cut(r[0])) && |r| <= |s| && r == s[|s| - |r|..]
  {
    if s != [] && cut(s[0]) {
      TrimLeftIs(s[1..], cut);
    }
  }

  /** Trimming on the right leaves a prefix that does not end in a cut character. */
  lemma {:induction false} TrimRightIs(s: string, cut: char -> bool)
    ensures var r := TrimRight(s, cut); (r == [] || !cut(r[|r| - 1])) && |r| <= |s| && r == s[..|r|]
  {
    if s != [] && cut(s[|s| - 1]) {
      TrimRightIs(s[..|s| - 1], cut);
    }
  }

  /** Trimming cuts exactly the cut characters at both ends. */
  lemma {:induction false} TrimsBoth(a: string, t: string, b: string, cut: char -> bool)
    requires (forall i | 0 <= i < |a| :: cut(a[i])) && (forall i | 0 <= i < |b| :: cut(b[i]))
    requires t == [] || (!cut(t[0]) && !cut(t[|t| - 1]))
    ensures TrimRight(TrimLeft(a + t + b, cut), cut) == t
  {
    if t == [] {
      assert a + t + b == a + b;
      CutsAll(a + b, cut);
    } else {
      CutsLeft(a, t + b, cut);
      assert a + t + b == a + (t + b);
      CutsRight(t, b, cut);
    }
  }

  lemma {:induction false} CutsAll(s: string, cut: char -> bool)
    requires forall i | 0 <= i < |s| :: cut(s[i])
    ensures TrimLeft(s, cut) == []
  {
    if s != [] {
      CutsAll(s[1..], cut);
    }
  }

  lemma {:induction false} CutsLeft(a: string, t: string, cut: char -> bool)
    requires (forall i | 0 <= i < |a| :: cut(a[i])) && t != [] && !cut(t[0])
    ensures TrimLeft(a + t, cut) == t
  {
    if a == [] {
      assert a + t == t;
    } else {
      assert (a + t)[1..] == a[1..] + t;
      CutsLeft(a[1..], t, cut);
    }
  }

  lemma {:induction false} CutsRight(t: string, b: string, cut: char -> bool)
    requires (forall i | 0 <= i < |b| :: cut(b[i])) && t != [] && !cut(t[|t| - 1])
    ensures TrimRight(t + b, cut) == t
  {
    if b == [] {
      assert t + b == t;
    } else {
      assert (t + b)[..|t + b| - 1] == t + b[..|b| - 1];
      CutsRight(t, b[..|b| - 1], cut);
    }
  }

  /** A first character that is not cut stays. */
  lemma {:induction false} TrimRightFirst(s: string, cut: char -> bool)
    requires s != [] && !cut(s[0])
    ensures var r := TrimRight(s, cut); r != [] && r[0] == s[0]
  {
    if cut(s[|s| - 1]) {
      TrimRightFirst(s[..|s| - 1], cut);
    }
  }

  function TrimSpace(s: string): string {
    TrimRight(TrimLeft(s, IsSpace), IsSpace)
  }

  /** strings.Trim with a one-character cut set. */
  function TrimChar(s: string, c: char): string {
    TrimRight(TrimLeft(s, x => x == c), x => x == c)
  }

  /** Neither end is white space. */
  predicate Trimmed(s: string) {
    s == [] || (!IsSpace(s[0]) && !IsSpace(s[|s| - 1]))
  }

  /** TrimSpace yields a trimmed string and changes exactly the strings that are not. */
  lemma TrimSpaceTrims(s: string)
    ensures Trimmed(TrimSpace(s))
    ensures TrimSpace(s) == s <==> Trimmed(s)
    ensures forall c | c in TrimSpace(s) :: c in s
  {
    var l := TrimLeft(s, IsSpace);
    TrimLeftIs(s, IsSpace);
    TrimRightIs(l, IsSpace);
    if l != [] {
      TrimRightFirst(l, IsSpace);
    }
    forall c | c in TrimSpace(s) ensures c in s {
      TrimSpaceMember(s, c);
    }
    if Trimmed(s) {
      assert l == s && TrimRight(s, IsSpace) == s;
    }
  }

  lemma TrimSpaceMember(s: string, c: char)
    requires c in TrimSpace(s)
    ensures c in s
  {
    var l := TrimLeft(s, IsSpace);
    TrimLeftIs(s, IsSpace);
    TrimRightIs(l, IsSpace);
    SliceMember(l, 0, |TrimSpace(s)|, c);
    SliceMember(s, |s| - |l|, |s|, c);
  }

  lemma SliceMember(s: string, i: nat, j: nat, c: char)
    requires i <= j <= |s| && c in s[i..j]
    ensures c in s
  {
  }

  /** A trimmed text is recovered from between any white space. */
  lemma TrimSpaceRecovers(a: string, t: string, b: string)
    requires (forall i | 0 <= i < |a| :: IsSpace(a[i])) && (forall i | 0 <= i < |b| :: IsSpace(b[i])) && Trimmed(t)
    ensures TrimSpace(a + t + b) == t
  {
    TrimsBoth(a, t, b, IsSpace);
  }

  lemma TrimCharKeeps(s: string, c: char)
    requires s != [] && s[0] != c && s[|s| - 1] != c
    ensures TrimChar(s, c) == s
  {
  }

  /** strings.Split with a one-character separator. */
  function Split(s: string, sep: char): (parts: seq<string>)
    ensures parts != []
    ensures forall p | p in parts :: sep !in p
  {
    if s == [] then [[]]
    else
      var rest := Split(s[1..], sep);
      if s[0] == sep then [[]] + rest
      else
        assert sep !in rest[0] && sep !in [s[0]] + rest[0];
        [[s[0]] + rest[0]] + rest[1..]
  }

  /** strings.Join with a one-character separator. */
  function Join(parts: seq<string>, sep: char): string {
    if parts == [] then []
    else if |parts| == 1 then parts[0]
    else parts[0] + [sep] + Join(parts[1..], sep)
  }

  lemma {:induction false} SplitFirst(p: string, rest: string, sep: char)
    requires sep !in p
    ensures Split(p, sep) == [p]
    ensures Split(p + [sep] + rest, sep) == [p] + Split(rest, sep)
  {
    var s := p + [sep] + rest;
    if p == [] {
      assert s[1..] == rest;
    } else {
      SplitFirst(p[1..], rest, sep);
      assert s[1..] == p[1..] + [sep] + rest;
      assert [p[0]] + p[1..] == p;
    }
  }

  lemma {:induction false} SplitConcat(p: string, rest: string, sep: char)
    ensures Split(p + [sep] + rest, sep) == Split(p, sep) + Split(rest, sep)
  {
    var s := p + [sep] + rest;
    if p == [] {
      assert s[1..] == rest;
    } else {
      SplitConcat(p[1..], rest, sep);
      assert s[1..] == p[1..] + [sep] + rest;
      PutInFront(p[0], Split(p[1..], sep), Split(rest, sep));
    }
  }

  /** The last step of splitting: the first character begins a part or joins the first one. */
  lemma PutInFront(c: char, a: seq<string>, b: seq<string>)
    requires a != []
    ensures [[]] + (a + b) == ([[]] + a) + b
    ensures [[c] + (a + b)[0]] + (a + b)[1..] == ([[c] + a[0]] + a[1..]) + b
  {
    assert (a + b)[1..] == a[1..] + b;
  }

  lemma {:induction false} JoinConcat(a: seq<string>, b: seq<string>, sep: char)
    requires a != [] && b != []
    ensures Join(a + b, sep) == Join(a, sep) + [sep] + Join(b, sep)
  {
    if |a| == 1 {
      assert (a + b)[1..] == b;
    } else {
      JoinConcat(a[1..], b, sep);
      assert (a + b)[1..] == a[1..] + b;
    }
  }

  /** Round trip: joining parts free of the separator and splitting again gives the parts back. */
  lemma {:induction false} SplitJoin(parts: seq<string>, sep: char)
    requires parts != [] && forall p | p in parts :: sep !in p
    ensures Split(Join(parts, sep), sep) == parts
  {
    if |parts| == 1 {
      SplitFirst(parts[0], [], sep);
    } else {
      SplitJoin(parts[1..], sep);
      SplitFirst(parts[0], Join(parts[1..], sep), sep);
    }
  }

  /** The ends of a joined string, when they are non-empty. */
  lemma {:induction false} JoinFirst(parts: seq<string>, sep: char)
    requires parts != [] && parts[0] != ""
    ensures var j := Join(parts, sep); j != [] && j[0] == parts[0][0]
  {
  }

  lemma {:induction false} JoinLast(parts: seq<string>, sep: char)
    requires parts != [] && parts[|parts| - 1] != ""
    ensures var j, last := Join(parts, sep), parts[|parts| - 1]; j != [] && j[|j| - 1] == last[|last| - 1]
  {
    if |parts| > 1 {
      JoinLast(parts[1..], sep);
    }
  }

  predicate HasPrefix(s: string, prefix: string) {
    prefix <= s
  }
}
