/** The string operations of the modelled program: stripping, lower-casing and safe-text checks. */
module Text {

  /** The characters that the program's `strip` removes. */
  predicate IsSpace(c: char) {
    || '\t' <= c <= '\r'
    || '\U{1c}' <= c <= ' '
    || c in {'\U{85}', '\U{a0}', '\U{1680}', '\U{2028}', '\U{2029}', '\U{202f}', '\U{205f}', '\U{3000}'}
    || '\U{2000}' <= c <= '\U{200a}'
  }

  predicate IsControl(c: char) {
    c < ' ' || c == '\U{7f}'
  }

  predicate HasControl(s: string) {
    exists i :: 0 <= i < |s| && IsControl(s[i])
  }

  function LStrip(s: string): string {
    if s == [] || !IsSpace(s[0]) then s else LStrip(s[1..])
  }

  function RStrip(s: string): string {
    if s == [] || !IsSpace(s[|s| - 1]) then s else RStrip(s[..|s| - 1])
  }

  function Strip(s: string): string {
    RStrip(LStrip(s))
  }

  /** Text that `strip` leaves alone. */
  predicate Stripped(s: string) {
    s == [] || (!IsSpace(s[0]) && !IsSpace(s[|s| - 1]))
  }

  lemma {:induction false} LStripDrops(s: string)
    ensures |LStrip(s)| <= |s| && LStrip(s) == s[|s| - |LStrip(s)|..]
    ensures LStrip(s) == [] || !IsSpace(LStrip(s)[0])
  {
    if s != [] && IsSpace(s[0]) {
      LStripDrops(s[1..]);
    }
  }

  lemma {:induction false} RStripTakes(s: string)
    ensures |RStrip(s)| <= |s| && RStrip(s) == s[..|RStrip(s)|]
    ensures RStrip(s) == [] || !IsSpace(RStrip(s)[|RStrip(s)| - 1])
  {
    if s != [] && IsSpace(s[|s| - 1]) {
      RStripTakes(s[..|s| - 1]);
    }
  }

  lemma PartHasNoControl(s: string, from: nat, part: string)
    requires from + |part| <= |s| && part == s[from..from + |part|] && !HasControl(s)
    ensures !HasControl(part)
  {
    assert forall i :: 0 <= i < |part| ==> part[i] == s[from + i];
  }

  /** Stripping gives a part of the text that stripping leaves alone. */
  lemma StripIsStripped(s: string)
    ensures Stripped(Strip(s)) && |Strip(s)| <= |s|
    ensures !HasControl(s) ==> !HasControl(Strip(s))
  {
    hide LStrip, RStrip, IsSpace, HasControl;
    var l := LStrip(s);
    var r := RStrip(l);
    LStripDrops(s);
    RStripTakes(l);
    assert r != [] ==> r[0] == l[0];
    assert r == s[|s| - |l|..|s| - |l| + |r|];
    if !HasControl(s) {
      PartHasNoControl(s, |s| - |l|, r);
    }
  }

  lemma StripOfStripped(s: string)
    requires Stripped(s)
    ensures Strip(s) == s && LStrip(s) == s
  {
  }

  lemma {:induction false} LStripIsAll(s: string, t: string)
    requires forall i :: 0 <= i < |s| ==> IsSpace(s[i])
    ensures LStrip(s + t) == LStrip(t)
  {
    if s == [] {
      assert s + t == t;
    } else {
      assert (s + t)[1..] == s[1..] + t;
      LStripIsAll(s[1..], t);
    }
  }

  predicate AllSpace(s: string) {
    forall i :: 0 <= i < |s| ==> IsSpace(s[i])
  }

  /** Among the characters of ASCII these ten are the white space. */
  lemma AsciiSpaces(c: char)
    requires c <= '\U{7f}'
    ensures IsSpace(c) <==> c in "\t\n\U{b}\U{c}\r\U{1c}\U{1d}\U{1e}\U{1f} "
  {
  }

  lemma LStripIs(a: string, t: string)
    requires AllSpace(a) && (t == [] || !IsSpace(t[0]))
    ensures LStrip(a + t) == t
  {
    LStripIsAll(a, t);
  }

  lemma {:induction false} RStripIs(t: string, b: string)
    requires AllSpace(b) && (t == [] || !IsSpace(t[|t| - 1]))
    ensures RStrip(t + b) == t
  {
    if b == [] {
      assert t + b == t;
    } else {
      assert (t + b)[..|t + b| - 1] == t + b[..|b| - 1];
      RStripIs(t, b[..|b| - 1]);
    }
  }

  /** Text is what is between the white space at its ends, however much of it there is. */
  lemma StripIs(a: string, t: string, b: string)
    requires AllSpace(a) && AllSpace(b) && Stripped(t)
    ensures Strip(a + t + b) == t
  {
    if t == [] {
      assert a + t + b == (a + b) + [] && AllSpace(a + b);
      LStripIs(a + b, []);
    } else {
      assert a + t + b == a + (t + b);
      LStripIs(a, t + b);
      RStripIs(t, b);
    }
  }

  lemma {:induction false} LStripSplits(s: string) returns (a: string)
    ensures AllSpace(a) && s == a + LStrip(s)
  {
    if s == [] || !IsSpace(s[0]) {
      a := [];
    } else {
      a := LStripSplits(s[1..]);
      a := [s[0]] + a;
    }
  }

  lemma {:induction false} RStripSplits(s: string) returns (b: string)
    ensures AllSpace(b) && s == RStrip(s) + b
  {
    if s == [] || !IsSpace(s[|s| - 1]) {
      b := [];
    } else {
      b := RStripSplits(s[..|s| - 1]);
      b := b + [s[|s| - 1]];
    }
  }

  lemma StripSplits(s: string) returns (a: string, b: string)
    ensures AllSpace(a) && AllSpace(b) && s == a + Strip(s) + b
  {
    a := LStripSplits(s);
    b := RStripSplits(LStrip(s));
  }

  /** Nothing is left of white space alone, and something of any other text. */
  lemma StripIsEmptyIff(s: string)
    ensures Strip(s) == [] <==> AllSpace(s)
  {
    var a, b := StripSplits(s);
    if Strip(s) == [] {
      assert s == a + b;
    } else {
      assert Strip(s) == s[|a|..|a| + |Strip(s)|];
      StripIsStripped(s);
      assert !IsSpace(s[|a|]);
    }
  }

  /** Lower-casing, exact wherever the result is ASCII: U+212A is the only other character with an ASCII lower case. */
  function LowerChar(c: char): char {
    if 'A' <= c <= 'Z' then ((c as int) + 32) as char
    else if c == '\U{212a}' then 'k'
    else c
  }

  function Lower(s: string): string {
    seq(|s|, i requires 0 <= i < |s| => LowerChar(s[i]))
  }

  predicate IsLowerAlnum(c: char) {
    'a' <= c <= 'z' || '0' <= c <= '9'
  }

  /** The pattern `^[a-z0-9][a-z0-9_.-]*$`, matched in full. */
  predicate IsSlug(s: string) {
    && s != []
    && IsLowerAlnum(s[0])
    && forall i :: 0 <= i < |s| ==> IsLowerAlnum(s[i]) || s[i] in "_.-"
  }

  /** Any word of lower-case letters and digits is a slug, with dots, hyphens and underscores after its first letter. */
  lemma WordIsSlug(s: string)
    ensures IsSlug(s) || s == [] || s[0] in "_.-"
            || exists i :: 0 <= i < |s| && !('a' <= s[i] <= 'z' || '0' <= s[i] <= '9' || s[i] in "_.-")
    ensures IsSlug(s) ==> s[0] !in "_.-"
  {
  }

  /** Of the letters of ASCII, exactly the upper-case ones change, each to its lower-case one. */
  lemma LowerLetter(k: nat)
    requires k < 26
    ensures Lower([('A' as int + k) as char]) == [('a' as int + k) as char]
    ensures Lower([('a' as int + k) as char]) == [('a' as int + k) as char]
  {
  }

  lemma SlugIsNormal(s: string)
    requires IsSlug(s)
    ensures Stripped(s) && Lower(s) == s && !HasControl(s) && '/' !in s
  {
    assert forall i :: 0 <= i < |s| ==> !IsSpace(s[i]) && LowerChar(s[i]) == s[i] && s[i] != '/';
    assert Lower(s) == s;
  }
}
