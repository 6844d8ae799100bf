/** Text as lines, and the three line patterns that the configuration checker looks for. */
module ConfigText {
  import opened Wrappers

  /* Lines */

  predicate IsLine(s: string) {
    '\n' !in s
  }

  predicate AreLines(ls: seq<string>) {
    ls != [] && forall i :: 0 <= i < |ls| ==> IsLine(ls[i])
  }

  function JoinLines(ls: seq<string>): string
    requires ls != []
  {
    if |ls| == 1 then ls[0] else ls[0] + "\n" + JoinLines(ls[1..])
  }

  function Lines(s: string): (ls: seq<string>)
    ensures AreLines(ls)
  {
    if s == [] then [""]
    else
      var rest := Lines(s[1..]);
      if s[0] == '\n' then [""] + rest else [[s[0]] + rest[0]] + rest[1..]
  }

  lemma {:induction false} JoinOfLines(s: string)
    ensures JoinLines(Lines(s)) == s
  {
    if s != [] {
      JoinOfLines(s[1..]);
      var rest, ls := Lines(s[1..]), Lines(s);
      if s[0] == '\n' {
        assert ls[1..] == rest;
      } else {
        assert ls[1..] == rest[1..];
      }
    }
  }

  lemma {:induction false} LinesOfJoin(ls: seq<string>)
    requires AreLines(ls)
    ensures Lines(JoinLines(ls)) == ls
    decreases |ls|, |ls[0]|
  {
    var s := JoinLines(ls);
    if ls[0] != [] {
      var shorter := [ls[0][1..]] + ls[1..];
      assert shorter[1..] == ls[1..];
      LinesOfJoin(shorter);
      assert s[1..] == JoinLines(shorter);
      assert [s[0]] + ls[0][1..] == ls[0];
      assert [ls[0]] + ls[1..] == ls;
    } else if |ls| > 1 {
      LinesOfJoin(ls[1..]);
      assert s[1..] == JoinLines(ls[1..]);
    }
  }

  lemma JoinIsInjective(ls: seq<string>, ks: seq<string>)
    requires AreLines(ls) && AreLines(ks) && JoinLines(ls) == JoinLines(ks)
    ensures ls == ks
  {
    LinesOfJoin(ls);
    LinesOfJoin(ks);
  }

  /* Patterns */

  /** A non-empty run of the characters `[^"\r\n]`. */
  predicate IsClean(s: string) {
    s != [] && '"' !in s && '\r' !in s && '\n' !in s
  }

  /** The pattern `^<prefix>"([^"\r\n]+)"$` on one line. */
  function Quoted(prefix: string, line: string): (x: Option<string>)
    ensures x.Some? ==> IsClean(x.value) && line == Quote(prefix, x.value)
  {
    if |line| >= |prefix| + 2 && prefix + "\"" <= line && line[|line| - 1] == '"'
       && IsClean(line[|prefix| + 1..|line| - 1])
    then
      assert line == Quote(prefix, line[|prefix| + 1..|line| - 1]);
      Some(line[|prefix| + 1..|line| - 1])
    else None
  }

  function Quote(prefix: string, x: string): string {
    prefix + "\"" + x + "\""
  }

  lemma QuotedQuote(prefix: string, x: string)
    requires IsClean(x)
    ensures Quoted(prefix, Quote(prefix, x)) == Some(x)
  {
    var line := Quote(prefix, x);
    assert line[|prefix| + 1..|line| - 1] == x;
    assert (prefix + "\"") <= line;
  }

  /** The pattern `^<prefix>"([^"\r\n]+)"` at the start of a line, with what follows it on the line. */
  function QuotedPrefix(prefix: string, line: string): (x: Option<(string, string)>)
    ensures x.Some? ==> IsClean(x.value.0) && line == Quote(prefix, x.value.0) + x.value.1
  {
    if prefix + "\"" <= line then
      var tail := line[|prefix| + 1..];
      var x := CleanPrefix(tail);
      if x != [] && |x| < |tail| && tail[|x|] == '"' then
        assert line == Quote(prefix, x) + tail[|x| + 1..];
        Some((x, tail[|x| + 1..]))
      else None
    else None
  }

  function CleanPrefix(s: string): (x: string)
    ensures x <= s && (x != [] ==> IsClean(x))
  {
    if s == [] || s[0] in "\"\r\n" then [] else [s[0]] + CleanPrefix(s[1..])
  }

  lemma {:induction false} CleanPrefixStops(x: string, rest: string)
    requires x == [] || IsClean(x)
    ensures CleanPrefix(x + "\"" + rest) == x
  {
    var s := x + "\"" + rest;
    if x != [] {
      assert s[1..] == x[1..] + "\"" + rest;
      CleanPrefixStops(x[1..], rest);
    }
  }

  lemma QuotedPrefixQuote(prefix: string, x: string, rest: string)
    requires IsClean(x)
    ensures QuotedPrefix(prefix, Quote(prefix, x) + rest) == Some((x, rest))
  {
    var line := Quote(prefix, x) + rest;
    assert line[|prefix| + 1..] == x + "\"" + rest;
    CleanPrefixStops(x, rest);
    assert prefix + "\"" <= line;
  }

  /* Searching and removing */

  /** All matches of a pattern that is looked for once on each line. */
  function FindAll(pattern: string -> Option<string>, ls: seq<string>): seq<string> {
    if ls == [] then []
    else (match pattern(ls[0]) case Some(x) => [x] case None => []) + FindAll(pattern, ls[1..])
  }

  /** What is left of a line behind a match: a carriage return goes with it, other text stays. */
  function Residue(rest: string): string {
    if rest != [] && rest[0] == '\r' then rest[1..] else rest
  }

  /** What removing a match at the start of a line leaves of it: nothing at all if a line break follows a whole-line match. */
  function Kept(pattern: string -> Option<(string, string)>, line: string, last: bool): seq<string> {
    match pattern(line)
    case None => [line]
    case Some(m) => if Residue(m.1) == [] && !last then [] else [Residue(m.1)]
  }

  /** Removing every match of a pattern at the start of a line, together with one line break behind it, if there is one. */
  function Remove(pattern: string -> Option<(string, string)>, ls: seq<string>): seq<string> {
    if ls == [] then [] else Kept(pattern, ls[0], |ls| == 1) + Remove(pattern, ls[1..])
  }

  lemma {:induction false} FindAllAppend(pattern: string -> Option<string>, ls: seq<string>, ks: seq<string>)
    ensures FindAll(pattern, ls + ks) == FindAll(pattern, ls) + FindAll(pattern, ks)
  {
    if ls == [] {
      assert ls + ks == ks;
    } else {
      assert (ls + ks)[1..] == ls[1..] + ks;
      FindAllAppend(pattern, ls[1..], ks);
    }
  }

  /** No line matches. */
  predicate NoMatch<T>(pattern: string -> Option<T>, ls: seq<string>) {
    forall i :: 0 <= i < |ls| ==> pattern(ls[i]).None?
  }

  lemma {:induction false} FindsNothing(pattern: string -> Option<string>, ls: seq<string>)
    requires NoMatch(pattern, ls)
    ensures FindAll(pattern, ls) == []
  {
    if ls != [] {
      FindsNothing(pattern, ls[1..]);
    }
  }

  lemma {:induction false} FoundNothing(pattern: string -> Option<string>, ls: seq<string>, i: nat)
    requires FindAll(pattern, ls) == [] && i < |ls|
    ensures pattern(ls[i]).None?
  {
    if i > 0 {
      FoundNothing(pattern, ls[1..], i - 1);
    }
  }

  lemma {:induction false} FoundIsMatch(pattern: string -> Option<string>, ls: seq<string>) returns (i: nat)
    requires FindAll(pattern, ls) != []
    ensures i < |ls| && pattern(ls[i]) == Some(FindAll(pattern, ls)[0])
  {
    if pattern(ls[0]).Some? {
      i := 0;
    } else {
      i := FoundIsMatch(pattern, ls[1..]);
      i := i + 1;
    }
  }

  lemma FindsOne(pattern: string -> Option<string>, before: seq<string>, line: string, after: seq<string>, x: string)
    requires NoMatch(pattern, before) && pattern(line) == Some(x) && NoMatch(pattern, after)
    ensures FindAll(pattern, before + ([line] + after)) == [x]
  {
    FindAllAppend(pattern, before, [line] + after);
    assert ([line] + after)[1..] == after;
    FindsNothing(pattern, before);
    FindsNothing(pattern, after);
  }

  /** A single match is on one line, and on no other. */
  lemma {:induction false} FoundOnce(pattern: string -> Option<string>, ls: seq<string>, x: string) returns (q: nat)
    requires FindAll(pattern, ls) == [x]
    ensures q < |ls| && pattern(ls[q]) == Some(x) && forall i :: 0 <= i < |ls| && i != q ==> pattern(ls[i]).None?
  {
    if pattern(ls[0]).Some? {
      q := 0;
      assert FindAll(pattern, ls) == [pattern(ls[0]).value] + FindAll(pattern, ls[1..]);
      assert FindAll(pattern, ls)[0] == pattern(ls[0]).value;
      assert |FindAll(pattern, ls[1..])| == 0;
      forall i | 0 < i < |ls| ensures pattern(ls[i]).None? {
        FoundNothing(pattern, ls[1..], i - 1);
        assert ls[i] == ls[1..][i - 1];
      }
    } else {
      var p := FoundOnce(pattern, ls[1..], x);
      q := p + 1;
      forall i | 0 <= i < |ls| && i != q ensures pattern(ls[i]).None? {
        if i > 0 {
          assert ls[i] == ls[1..][i - 1];
        }
      }
    }
  }

  lemma {:induction false} RemoveAppend(pattern: string -> Option<(string, string)>, ls: seq<string>, ks: seq<string>)
    requires ks != [] && NoMatch(pattern, ls)
    ensures Remove(pattern, ls + ks) == ls + Remove(pattern, ks)
  {
    if ls == [] {
      assert ls + ks == ks;
    } else {
      assert (ls + ks)[0] == ls[0] && (ls + ks)[1..] == ls[1..] + ks;
      RemoveAppend(pattern, ls[1..], ks);
      assert ls == [ls[0]] + ls[1..];
    }
  }

  lemma {:induction false} RemovesNothing(pattern: string -> Option<(string, string)>, ls: seq<string>)
    requires NoMatch(pattern, ls)
    ensures Remove(pattern, ls) == ls
  {
    if ls != [] {
      RemovesNothing(pattern, ls[1..]);
    }
  }

  /** The effect of removal on the one line that matches. */
  lemma RemovesOne(pattern: string -> Option<(string, string)>, before: seq<string>, line: string, after: seq<string>)
    requires NoMatch(pattern, before) && NoMatch(pattern, after)
    ensures Remove(pattern, before + ([line] + after)) == before + Kept(pattern, line, after == []) + after
  {
    RemoveAppend(pattern, before, [line] + after);
    assert ([line] + after)[1..] == after;
    RemovesNothing(pattern, after);
  }

  /** A removal that leaves something of every matching line keeps the number of lines. */
  lemma {:induction false} RemoveKeepsCount(pattern: string -> Option<(string, string)>, ls: seq<string>)
    requires forall i :: 0 <= i < |ls| && pattern(ls[i]).Some? ==> Residue(pattern(ls[i]).value.1) != []
    ensures |Remove(pattern, ls)| == |ls|
  {
    if ls != [] {
      RemoveKeepsCount(pattern, ls[1..]);
    }
  }

  lemma {:induction false} RemoveKeepsLines(pattern: string -> Option<(string, string)>, ls: seq<string>)
    requires forall i :: 0 <= i < |ls| ==> IsLine(ls[i]) && (pattern(ls[i]).Some? ==> IsLine(pattern(ls[i]).value.1))
    ensures forall i :: 0 <= i < |Remove(pattern, ls)| ==> IsLine(Remove(pattern, ls)[i])
  {
    if ls != [] {
      RemoveKeepsLines(pattern, ls[1..]);
    }
  }
}
