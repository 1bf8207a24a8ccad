/** How a multi-key channel keeps its keys in one string (model/channel.go): joined by newlines, or a JSON
    array of raw elements; and when a list of keys survives being stored. */
module KeyStrings {
  import opened Lists
  import opened Text
  import opened Wrappers

  const NL := '\n'

  /** The JSON decoder: the raw elements of a text that is an array. */
  type Parser = string -> Option<seq<string>>

  predicate Bracketed(key: string) {
    HasPrefix(TrimSpace(key), "[")
  }

  predicate SpellsArray(parse: Parser, key: string) {
    Bracketed(key) && parse(TrimSpace(key)).Some?
  }

  function Lines(key: string): seq<string> {
    Split(TrimChar(key, NL), NL)
  }

  /** Channel.GetKeys. */
  function ReadKeys(parse: Parser, key: string): seq<string> {
    if key == "" then []
    else if SpellsArray(parse, key) then parse(TrimSpace(key)).value
    else Lines(key)
  }

  /** The number of keys that Channel.Update counts; it takes an empty array for one line. */
  function CountKeys(parse: Parser, key: string): nat {
    if key == "" then 0
    else if SpellsArray(parse, key) && parse(TrimSpace(key)).value != [] then |parse(TrimSpace(key)).value|
    else |Lines(key)|
  }

  /** What is read and what is counted: the elements of an array, if the text without surrounding white space
      begins with a bracket and decodes; otherwise the lines between the outer newlines. An empty array counts
      as lines. */
  lemma ReadsArrayOrLines(parse: Parser, key: string)
    ensures var text, lines := TrimSpace(key), Split(TrimChar(key, '\n'), '\n');
            && (key == "" ==> ReadKeys(parse, key) == [] && CountKeys(parse, key) == 0)
            && (key != "" && "[" <= text && parse(text).Some? ==>
                  && ReadKeys(parse, key) == parse(text).value
                  && CountKeys(parse, key) == if parse(text).value == [] then |lines| else |parse(text).value|)
            && (key != "" && !("[" <= text && parse(text).Some?) ==>
                  ReadKeys(parse, key) == lines && CountKeys(parse, key) == |lines|)
  {
  }

  predicate NewlineFree(ks: seq<string>) {
    forall k | k in ks :: NL !in k
  }

  /** Neither end of the list is blank, and no key contains a newline; or the joined text happens to be
      an array of just these keys. */
  predicate Storable(parse: Parser, ks: seq<string>) {
    && ks != []
    && var key := Join(ks, NL);
       && key != ""
       && if SpellsArray(parse, key) then parse(TrimSpace(key)).value == ks
          else NewlineFree(ks) && ks[0] != "" && ks[|ks| - 1] != ""
  }

  // ---------------------------------------------------------------- the round trip

  lemma {:induction false} SplitEnds(s: string, sep: char)
    requires s != []
    ensures s[0] != sep ==> Split(s, sep)[0] != ""
    ensures s[|s| - 1] != sep ==> Split(s, sep)[|Split(s, sep)| - 1] != ""
  {
    if |s| > 1 {
      SplitEnds(s[1..], sep);
    }
  }

  lemma TrimCharEnds(s: string, c: char)
    ensures var t := TrimChar(s, c); t != [] ==> t[0] != c && t[|t| - 1] != c
  {
    var cut := (x: char) => x == c;
    var l := TrimLeft(s, cut);
    TrimLeftIs(s, cut);
    TrimRightIs(l, cut);
  }

  /** The lines of a joined list are the list exactly when both ends are non-blank and no key has a
      newline. */
  lemma LinesOfJoin(ks: seq<string>)
    requires ks != [] && Join(ks, NL) != ""
    ensures Lines(Join(ks, NL)) == ks <==> NewlineFree(ks) && ks[0] != "" && ks[|ks| - 1] != ""
  {
    var j := Join(ks, NL);
    if NewlineFree(ks) && ks[0] != "" && ks[|ks| - 1] != "" {
      JoinFirst(ks, NL);
      JoinLast(ks, NL);
      assert ks[0] in ks && ks[|ks| - 1] in ks;
      TrimCharKeeps(j, NL);
      SplitJoin(ks, NL);
    }
    if Lines(j) == ks {
      var t := TrimChar(j, NL);
      TrimCharEnds(j, NL);
      if t != [] {
        SplitEnds(t, NL);
      }
    }
  }

  /** A list of keys is read back as it was stored exactly when it is storable. */
  lemma StoreRoundTrip(parse: Parser, ks: seq<string>)
    requires ks != []
    ensures ReadKeys(parse, Join(ks, NL)) == ks <==> Storable(parse, ks)
    ensures Storable(parse, ks) ==> CountKeys(parse, Join(ks, NL)) == |ks|
  {
    if Join(ks, NL) != "" {
      LinesOfJoin(ks);
    }
  }

  // ---------------------------------------------------------------- how many lines are read

  lemma {:induction false} TrimLeftLines(s: string, cut: char -> bool)
    requires forall c :: cut(c) <==> c == NL
    ensures |Split(TrimLeft(s, cut), NL)| <= |Split(s, NL)|
    ensures s != [] && s[0] == NL ==> |Split(TrimLeft(s, cut), NL)| < |Split(s, NL)|
  {
    if s != [] && s[0] == NL {
      TrimLeftLines(s[1..], cut);
    }
  }

  lemma {:induction false} TrimRightLines(s: string, cut: char -> bool)
    requires forall c :: cut(c) <==> c == NL
    ensures |Split(TrimRight(s, cut), NL)| <= |Split(s, NL)|
    ensures s != [] && s[|s| - 1] == NL ==> |Split(TrimRight(s, cut), NL)| < |Split(s, NL)|
  {
    if s != [] && s[|s| - 1] == NL {
      var front := s[..|s| - 1];
      TrimRightLines(front, cut);
      assert s == front + [NL] + [];
      SplitConcat(front, [], NL);
    }
  }

  /** A newline at either end costs a line. */
  lemma LinesCount(s: string)
    ensures |Lines(s)| <= |Split(s, NL)|
    ensures s != [] && (s[0] == NL || s[|s| - 1] == NL) ==> |Lines(s)| < |Split(s, NL)|
  {
    var cut := (x: char) => x == NL;
    var l := TrimLeft(s, cut);
    TrimLeftIs(s, cut);
    TrimLeftLines(s, cut);
    TrimRightLines(l, cut);
  }

  lemma {:induction false} JoinBlankLast(ks: seq<string>, sep: char)
    requires |ks| > 1 && ks[|ks| - 1] == ""
    ensures var j := Join(ks, sep); j != [] && j[|j| - 1] == sep
  {
    if |ks| > 2 {
      JoinBlankLast(ks[1..], sep);
    }
  }

  /** Joining newline-free keys leaves at most as many lines, and fewer exactly when an end is blank. */
  lemma JoinedCount(ks: seq<string>)
    requires ks != [] && NewlineFree(ks) && Join(ks, NL) != ""
    ensures |Lines(Join(ks, NL))| <= |ks|
    ensures |Lines(Join(ks, NL))| == |ks| <==> ks[0] != "" && ks[|ks| - 1] != ""
  {
    SplitJoin(ks, NL);
    LinesCount(Join(ks, NL));
    if ks[0] != "" && ks[|ks| - 1] != "" {
      LinesOfJoin(ks);
    } else if ks[0] != "" {
      JoinBlankLast(ks, NL);
    }
  }

  // ---------------------------------------------------------------- clean lists

  /** No key is empty, contains a newline or looks like the beginning of an array. */
  predicate Clean(ks: seq<string>) {
    forall k | k in ks :: k != "" && NL !in k && !Bracketed(k)
  }

  /** The first character that is not cut, if there is one. */
  function FirstKept(s: string, cut: char -> bool): Option<char> {
    if s == [] then None else if cut(s[0]) then FirstKept(s[1..], cut) else Some(s[0])
  }

  lemma {:induction false} FirstKeptTrimmed(s: string, cut: char -> bool)
    ensures FirstKept(s, cut) == var l := TrimLeft(s, cut); if l == [] then None else Some(l[0])
  {
    if s != [] && cut(s[0]) {
      FirstKeptTrimmed(s[1..], cut);
    }
  }

  lemma {:induction false} FirstKeptConcat(a: string, b: string, cut: char -> bool)
    ensures FirstKept(a + b, cut) == if FirstKept(a, cut).Some? then FirstKept(a, cut) else FirstKept(b, cut)
  {
    if a == [] {
      assert a + b == b;
    } else {
      assert (a + b)[1..] == a[1..] + b;
      FirstKeptConcat(a[1..], b, cut);
    }
  }

  lemma BracketedIff(s: string)
    ensures Bracketed(s) <==> FirstKept(s, IsSpace) == Some('[')
  {
    var l := TrimLeft(s, IsSpace);
    FirstKeptTrimmed(s, IsSpace);
    TrimLeftIs(s, IsSpace);
    if l != [] {
      TrimRightFirst(l, IsSpace);
    }
  }

  /** Joined keys look like an array only if one of them does. */
  lemma {:induction false} JoinBracketed(ks: seq<string>)
    requires forall k | k in ks :: !Bracketed(k)
    ensures !Bracketed(Join(ks, NL))
  {
    if ks == [] {
      BracketedIff("");
    } else {
      assert ks[0] in ks;
      if |ks| > 1 {
        JoinBracketed(ks[1..]);
        BracketedTail(ks[0], Join(ks[1..], NL));
      }
    }
  }

  lemma BracketedTail(k: string, rest: string)
    requires !Bracketed(k) && !Bracketed(rest)
    ensures !Bracketed(k + [NL] + rest)
  {
    FirstKeptConcat(k + [NL], rest, IsSpace);
    FirstKeptConcat(k, [NL], IsSpace);
    BracketedIff(k);
    BracketedIff(rest);
    BracketedIff(k + [NL] + rest);
    NewlineIsSpace();
  }

  lemma NewlineIsSpace()
    ensures FirstKept([NL], IsSpace).None?
  {
    assert FirstKept([NL][1..], IsSpace).None?;
  }

  /** Every clean list can be stored. */
  lemma CleanIsStorable(parse: Parser, ks: seq<string>)
    requires ks != [] && Clean(ks)
    ensures Storable(parse, ks)
  {
    JoinBracketed(ks);
    assert ks[0] in ks && ks[|ks| - 1] in ks;
    JoinFirst(ks, NL);
  }

  /** Without brackets, what is left of a list can be stored exactly when its ends are non-blank. */
  lemma PlainStorable(parse: Parser, ks: seq<string>)
    requires ks != [] && NewlineFree(ks) && forall k | k in ks :: !Bracketed(k)
    ensures Storable(parse, ks) <==> ks[0] != "" && ks[|ks| - 1] != ""
  {
    JoinBracketed(ks);
    if ks[0] != "" {
      JoinFirst(ks, NL);
    }
  }

  /** A blank key at the front of a longer list is lost when the list is read back. */
  lemma BlankFrontIsLost(parse: Parser, ks: seq<string>)
    requires |ks| > 1 && ks[0] == "" && (forall k | k in ks :: !Bracketed(k)) && Join(ks[1..], NL) != ""
    ensures ReadKeys(parse, Join(ks, NL)) == ReadKeys(parse, Join(ks[1..], NL))
  {
    JoinBracketed(ks);
    JoinBracketed(ks[1..]);
    assert Join(ks, NL) == [NL] + Join(ks[1..], NL);
    assert TrimLeft([NL] + Join(ks[1..], NL), x => x == NL) == TrimLeft(Join(ks[1..], NL), x => x == NL);
  }

  // ---------------------------------------------------------------- creation

  function CleanLine(line: string): Option<string> {
    if line == "" then None else Some(TrimSpace(line))
  }

  /** The keys of a new multi-key channel: the non-empty lines, trimmed. */
  function Cleaned(lines: seq<string>): seq<string> {
    FilterMap(lines, CleanLine)
  }

  /** The loop of AddChannel over the submitted lines. A key is blank exactly when its line was white
      space only. */
  method CleanLines(lines: seq<string>) returns (keys: seq<string>)
    ensures keys == Cleaned(lines)
    ensures var texts := Filter(lines, HasText);
            |keys| == |texts| && forall i | 0 <= i < |keys| :: keys[i] == TrimSpace(texts[i])
    ensures "" in keys <==> exists l :: l in lines && l != "" && TrimSpace(l) == ""
  {
    keys := [];
    for i := 0 to |lines|
      invariant keys == Cleaned(lines[..i])
    {
      assert lines[..i + 1][..i] == lines[..i];
      if lines[i] != "" {
        keys := keys + [TrimSpace(lines[i])];
      }
    }
    assert lines[..|lines|] == lines;
    CleanedTexts(lines);
    FilterMapMember(lines, CleanLine, "");
    if "" in keys {
      var l :| l in lines && CleanLine(l) == Some("");
      assert l != "" && TrimSpace(l) == "";
    }
    if l :| l in lines && l != "" && TrimSpace(l) == "" {
      assert CleanLine(l) == Some("");
    }
  }

  predicate HasText(line: string) {
    line != ""
  }

  /** The keys of a new channel are its non-empty lines, trimmed, one by one. */
  lemma {:induction false} CleanedTexts(lines: seq<string>)
    ensures var keys, texts := Cleaned(lines), Filter(lines, HasText);
            |keys| == |texts| && forall i | 0 <= i < |keys| :: keys[i] == TrimSpace(texts[i])
  {
    if lines != [] {
      CleanedTexts(lines[..|lines| - 1]);
    }
  }

  lemma CleanedNewlineFree(text: string)
    ensures NewlineFree(Cleaned(Split(text, NL)))
  {
    var lines := Split(text, NL);
    forall k | k in Cleaned(lines) ensures NL !in k {
      FilterMapMember(lines, CleanLine, k);
      var l :| l in lines && CleanLine(l) == Some(k);
      TrimSpaceTrims(l);
    }
  }

  /** The size recorded at creation is the number of keys that Update counts exactly when neither end is
      blank, or the text spells an array of as many keys. */
  lemma CreatedSize(parse: Parser, text: string)
    ensures var keys := Cleaned(Split(text, NL)); var key := Join(keys, NL);
            |keys| == CountKeys(parse, key) <==>
            if SpellsArray(parse, key) && parse(TrimSpace(key)).value != [] then |keys| == |parse(TrimSpace(key)).value|
            else keys == [] || (keys[0] != "" && keys[|keys| - 1] != "")
  {
    var keys := Cleaned(Split(text, NL));
    CleanedNewlineFree(text);
    if keys != [] && Join(keys, NL) != "" {
      JoinedCount(keys);
    } else if keys != [] && keys[0] != "" {
      JoinFirst(keys, NL);
    }
  }
}
