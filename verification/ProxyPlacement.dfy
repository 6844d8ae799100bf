/** The accepted configurations with a proxy: where the setting may stand in them. */
module ProxyPlacement {
  import opened Wrappers
  import opened ConfigText
  import opened SidecarConfig

  /** The setting, with the carriage return that may follow it. */
  function Setting(url: string, ret: string): string {
    Quote(PROXY, url) + ret
  }

  predicate IsReturn(ret: string) {
    ret == "" || ret == "\r"
  }

  predicate IsKeyPlace(t: Template, q: nat) {
    q == |t.head| || q == |t.head| + 1 + |t.settings| + |t.keys|
  }

  /** The setting on a line of its own before line `q`. */
  predicate IsInserted(ls: seq<string>, printed: seq<string>, q: nat, setting: string) {
    q < |printed| && ls == printed[..q] + ([setting] + printed[q..])
  }

  /** The setting glued to the front of line `q`, which must not vanish with it. */
  predicate IsGlued(ls: seq<string>, printed: seq<string>, q: nat, setting: string) {
    && q < |printed| && (printed[q] != "" || q == |printed| - 1)
    && ls == printed[..q] + ([setting + printed[q]] + printed[q + 1..])
  }

  /** The printed lines without a proxy, and a setting inserted somewhere or glued to a line that holds no key. */
  predicate Carries(t: Template, ls: seq<string>, k: string, m: string, url: string, q: nat, ret: string) {
    var printed := PrintLines(t, k, m, None);
    && IsReturn(ret)
    && (IsInserted(ls, printed, q, Setting(url, ret)) || (!IsKeyPlace(t, q) && IsGlued(ls, printed, q, Setting(url, ret))))
  }

  lemma PrintedLineKinds(t: Template, k: string, m: string, n: nat)
    requires IsPlainTemplate(t) && IsClean(k) && IsClean(m) && n < |PrintLines(t, k, m, None)|
    ensures var line := PrintLines(t, k, m, None)[n];
            && ProxyUrl(line).None? && (!IsKeyPlace(t, n) ==> IsPlain(line))
            && (n != |t.head| ==> ManagementKey(line).None?)
            && (n != |t.head| + 1 + |t.settings| + |t.keys| ==> SidecarKey(line).None?)
  {
    hide Quoted, QuotedPrefix, Quote, IsClean, IsLine;
    ManagementLine(m);
    SidecarLine(k);
  }

  /** A line that begins with a setting holds no key. */
  lemma SettingLine(url: string, rest: string)
    requires IsClean(url)
    ensures var line := Quote(PROXY, url) + rest;
            ManagementKey(line).None? && SidecarKey(line).None? && ProxyUrl(line) == Some((url, rest)) && Masked(line) == line
  {
    QuotedPrefixQuote(PROXY, url, rest);
    assert (Quote(PROXY, url) + rest)[0] == 'p' && (MANAGEMENT + "\"")[0] == ' ' && (SIDECAR + "\"")[0] == ' ';
  }

  lemma ProxyLineHasNoKey(line: string)
    requires ProxyUrl(line).Some?
    ensures ManagementKey(line).None? && SidecarKey(line).None? && Masked(line) == line
    ensures line == Quote(PROXY, ProxyUrl(line).value.0) + ProxyUrl(line).value.1 && IsClean(ProxyUrl(line).value.0)
  {
    SettingLine(ProxyUrl(line).value.0, ProxyUrl(line).value.1);
  }

  lemma FindAllAround(pattern: string -> Option<string>, before: seq<string>, line: string, after: seq<string>)
    requires pattern(line).None?
    ensures FindAll(pattern, before + ([line] + after)) == FindAll(pattern, before + after)
  {
    FindAllAppend(pattern, before, [line] + after);
    assert ([line] + after)[1..] == after;
    FindAllAppend(pattern, before, after);
  }

  lemma InsertedKeys(pattern: string -> Option<string>, printed: seq<string>, q: nat, setting: string)
    requires q < |printed| && pattern(setting).None?
    ensures FindAll(pattern, printed[..q] + ([setting] + printed[q..])) == FindAll(pattern, printed)
  {
    hide FindAll;
    FindAllAround(pattern, printed[..q], setting, printed[q..]);
    assert printed[..q] + printed[q..] == printed;
  }

  lemma GluedKeys(pattern: string -> Option<string>, printed: seq<string>, q: nat, glued: string)
    requires q < |printed| && pattern(glued).None? && pattern(printed[q]).None?
    ensures FindAll(pattern, printed[..q] + ([glued] + printed[q + 1..])) == FindAll(pattern, printed)
  {
    hide FindAll;
    FindAllAround(pattern, printed[..q], glued, printed[q + 1..]);
    FindAllAround(pattern, printed[..q], printed[q], printed[q + 1..]);
    assert printed[..q] + ([printed[q]] + printed[q + 1..]) == printed;
  }

  lemma CarriedFindsKeys(t: Template, ls: seq<string>, k: string, m: string, url: string, q: nat, ret: string)
    requires IsPlainTemplate(t) && IsClean(k) && IsClean(m) && IsClean(url) && Carries(t, ls, k, m, url, q, ret)
    ensures FindAll(ManagementKey, ls) == [m] && FindAll(SidecarKey, ls) == [k]
  {
    hide Quoted, QuotedPrefix, Quote, IsClean, IsLine, PrintLines, ManagementKey, SidecarKey;
    var printed := PrintLines(t, k, m, None);
    PrintedLineKinds(t, k, m, q);
    SettingLine(url, ret);
    SettingLine(url, ret + printed[q]);
    assert Setting(url, ret) + printed[q] == Quote(PROXY, url) + (ret + printed[q]);
    if IsInserted(ls, printed, q, Setting(url, ret)) {
      InsertedKeys(ManagementKey, printed, q, Setting(url, ret));
      InsertedKeys(SidecarKey, printed, q, Setting(url, ret));
    } else {
      GluedKeys(ManagementKey, printed, q, Setting(url, ret) + printed[q]);
      GluedKeys(SidecarKey, printed, q, Setting(url, ret) + printed[q]);
    }
    PrintedManagement(t, k, m, None);
    PrintedSidecar(t, k, m, None);
  }

  lemma MaskedAt(before: seq<string>, line: string, after: seq<string>)
    ensures MaskedLines(before + ([line] + after)) == MaskedLines(before) + ([Masked(line)] + MaskedLines(after))
  {
    hide Masked;
    MaskedAppend(before, [line] + after);
    MaskedAppend([line], after);
    assert MaskedLines([line]) == [Masked(line)];
  }

  lemma MaskedHasNoProxy(ls: seq<string>)
    requires NoMatch(ProxyUrl, ls)
    ensures NoMatch(ProxyUrl, MaskedLines(ls))
  {
    forall i | 0 <= i < |ls| ensures ProxyUrl(MaskedLines(ls)[i]).None? {
      MaskKeepsProxy(ls[i]);
    }
  }

  /** The skeleton of lines of which one begins with a setting. */
  lemma SkeletonAround(before: seq<string>, line: string, after: seq<string>)
    requires NoMatch(ProxyUrl, before) && NoMatch(ProxyUrl, after) && ProxyUrl(line).Some?
    ensures Remove(ProxyUrl, MaskedLines(before + ([line] + after)))
         == MaskedLines(before) + Kept(ProxyUrl, line, after == []) + MaskedLines(after)
  {
    hide Quoted, QuotedPrefix, Quote, Masked, ProxyUrl;
    ProxyLineHasNoKey(line);
    MaskedAt(before, line, after);
    MaskedHasNoProxy(before);
    MaskedHasNoProxy(after);
    RemovesOne(ProxyUrl, MaskedLines(before), line, MaskedLines(after));
  }

  lemma InsertedSkeleton(before: seq<string>, after: seq<string>, url: string, ret: string)
    requires NoMatch(ProxyUrl, before) && NoMatch(ProxyUrl, after) && after != [] && IsClean(url) && IsReturn(ret)
    ensures FindAll(ProxyValue, before + ([Setting(url, ret)] + after)) == [url]
    ensures Remove(ProxyUrl, MaskedLines(before + ([Setting(url, ret)] + after))) == MaskedLines(before + after)
  {
    hide Quoted, QuotedPrefix, Quote, Masked, ProxyUrl, IsClean, FindAll, Remove;
    SettingLine(url, ret);
    SkeletonAround(before, Setting(url, ret), after);
    FindsOne(ProxyValue, before, Setting(url, ret), after, url);
    assert Kept(ProxyUrl, Setting(url, ret), false) == [];
    MaskedAppend(before, after);
    assert MaskedLines(before) + [] + MaskedLines(after) == MaskedLines(before) + MaskedLines(after);
  }

  lemma GluedSkeleton(before: seq<string>, line: string, after: seq<string>, url: string, ret: string)
    requires NoMatch(ProxyUrl, before) && NoMatch(ProxyUrl, after) && IsClean(url) && IsReturn(ret)
    requires IsPlain(line) && (line != "" || after == [])
    ensures FindAll(ProxyValue, before + ([Setting(url, ret) + line] + after)) == [url]
    ensures Remove(ProxyUrl, MaskedLines(before + ([Setting(url, ret) + line] + after))) == MaskedLines(before + ([line] + after))
  {
    hide Quoted, QuotedPrefix, Quote, ProxyUrl, IsClean, Masked, ManagementKey, SidecarKey, FindAll, Remove;
    SettingLine(url, ret + line);
    assert Setting(url, ret) + line == Quote(PROXY, url) + (ret + line);
    SkeletonAround(before, Setting(url, ret) + line, after);
    FindsOne(ProxyValue, before, Setting(url, ret) + line, after, url);
    assert Residue(ret + line) == line;
    assert Kept(ProxyUrl, Setting(url, ret) + line, after == []) == [line];
    PlainIsUnmasked(line);
    MaskedAt(before, line, after);
    assert MaskedLines(before) + [line] + MaskedLines(after) == MaskedLines(before) + ([line] + MaskedLines(after));
  }

  lemma CarriedSkeleton(t: Template, ls: seq<string>, k: string, m: string, url: string, q: nat, ret: string)
    requires IsPlainTemplate(t) && IsClean(k) && IsClean(m) && IsClean(url) && Carries(t, ls, k, m, url, q, ret)
    ensures FindAll(ProxyValue, ls) == [url]
    ensures Remove(ProxyUrl, MaskedLines(ls)) == PrintLines(t, SIDECAR_PLACEHOLDER, MANAGEMENT_PLACEHOLDER, None)
  {
    hide Quoted, QuotedPrefix, Quote, IsClean, IsLine, PrintLines, Masked, ProxyUrl, ManagementKey, SidecarKey, FindAll, Remove;
    var printed := PrintLines(t, k, m, None);
    forall n | 0 <= n < |printed| ensures ProxyUrl(printed[n]).None? {
      PrintedLineKinds(t, k, m, n);
    }
    PrintedLineKinds(t, k, m, q);
    PrintedMasks(t, k, m, None);
    if IsInserted(ls, printed, q, Setting(url, ret)) {
      InsertedSkeleton(printed[..q], printed[q..], url, ret);
      assert printed[..q] + printed[q..] == printed;
    } else {
      GluedSkeleton(printed[..q], printed[q], printed[q + 1..], url, ret);
      assert printed[..q] + ([printed[q]] + printed[q + 1..]) == printed;
    }
  }

  lemma PlainIsUnmasked(line: string)
    requires IsPlain(line)
    ensures Masked(line) == line
  {
  }

  /** A printed line with placeholders masks to itself. */
  lemma PrintedIsFixed(t: Template, n: nat)
    requires IsPlainTemplate(t) && n < |PrintLines(t, SIDECAR_PLACEHOLDER, MANAGEMENT_PLACEHOLDER, None)|
    ensures var line := PrintLines(t, SIDECAR_PLACEHOLDER, MANAGEMENT_PLACEHOLDER, None)[n]; Masked(line) == line
  {
    PlaceholdersAreClean();
    PrintedMasks(t, SIDECAR_PLACEHOLDER, MANAGEMENT_PLACEHOLDER, None);
  }

  lemma DroppedIsInserted(t: Template, before: seq<string>, line: string, after: seq<string>) returns (k: string, m: string)
    requires IsPlainTemplate(t) && after != [] && ProxyUrl(line).Some? && Residue(ProxyUrl(line).value.1) == []
    requires MaskedLines(before + after) == PrintLines(t, SIDECAR_PLACEHOLDER, MANAGEMENT_PLACEHOLDER, None)
    ensures IsClean(k) && IsClean(m)
    ensures Carries(t, before + ([line] + after), k, m, ProxyUrl(line).value.0, |before|, ProxyUrl(line).value.1)
  {
    hide Quoted, QuotedPrefix, Quote, IsClean, PrintLines, ProxyUrl, MaskedLines;
    k, m := UnmaskedLines(t, before + after);
    ProxyLineHasNoKey(line);
    var printed := PrintLines(t, k, m, None);
    assert printed[..|before|] == before && printed[|before|..] == after;
  }

  lemma GluedToResidue(before: seq<string>, line: string, after: seq<string>, url: string, ret: string, residue: string)
    requires line == Quote(PROXY, url) + (ret + residue) && (residue != "" || after == [])
    ensures IsGlued(before + ([line] + after), before + ([residue] + after), |before|, Setting(url, ret))
  {
    hide Quote;
    var printed := before + ([residue] + after);
    assert printed[..|before|] == before && printed[|before|] == residue && printed[|before| + 1..] == after;
    assert Setting(url, ret) + residue == line;
  }

  lemma KeptIsGlued(t: Template, before: seq<string>, line: string, after: seq<string>) returns (k: string, m: string, ret: string)
    requires IsPlainTemplate(t) && ProxyUrl(line).Some? && (Residue(ProxyUrl(line).value.1) != [] || after == [])
    requires MaskedLines(before) + ([Residue(ProxyUrl(line).value.1)] + MaskedLines(after))
          == PrintLines(t, SIDECAR_PLACEHOLDER, MANAGEMENT_PLACEHOLDER, None)
    ensures IsClean(k) && IsClean(m) && IsReturn(ret)
    ensures PrintLines(t, k, m, None) == before + ([Residue(ProxyUrl(line).value.1)] + after)
    ensures IsGlued(before + ([line] + after), PrintLines(t, k, m, None), |before|, Setting(ProxyUrl(line).value.0, ret))
  {
    hide Quoted, QuotedPrefix, Quote, IsClean, PrintLines, ProxyUrl, MaskedLines, Masked, IsPlainTemplate, IsGlued;
    var (url, rest) := ProxyUrl(line).value;
    var residue := Residue(rest);
    assert (MaskedLines(before) + ([residue] + MaskedLines(after)))[|before|] == residue;
    PrintedIsFixed(t, |before|);
    MaskedAt(before, residue, after);
    k, m := UnmaskedLines(t, before + ([residue] + after));
    ProxyLineHasNoKey(line);
    ret := rest[..|rest| - |residue|];
    GluedToResidue(before, line, after, url, ret, residue);
  }

  /** A key that is found stands where the printed lines have it, and not on the line of the setting. */
  lemma KeyIsNotGlued(
      pattern: string -> Option<string>, before: seq<string>, residue: string, line: string, after: seq<string>, place: nat)
    requires FindAll(pattern, before + ([line] + after)) != [] && pattern(line).None?
    requires forall n :: 0 <= n < |before + ([residue] + after)| && n != place ==> pattern((before + ([residue] + after))[n]).None?
    ensures |before| != place
  {
    hide FindAll;
    var ls, printed := before + ([line] + after), before + ([residue] + after);
    var i := FoundIsMatch(pattern, ls);
    assert ls[|before|] == line;
    assert i != |before| ==> ls[i] == printed[i];
  }

  lemma KeysAreNotGlued(t: Template, k: string, m: string, before: seq<string>, residue: string, line: string, after: seq<string>)
    requires IsPlainTemplate(t) && IsClean(k) && IsClean(m) && ProxyUrl(line).Some?
    requires PrintLines(t, k, m, None) == before + ([residue] + after)
    requires FindAll(ManagementKey, before + ([line] + after)) != [] && FindAll(SidecarKey, before + ([line] + after)) != []
    ensures !IsKeyPlace(t, |before|)
  {
    hide Quoted, QuotedPrefix, Quote, IsClean, PrintLines, ProxyUrl, ManagementKey, SidecarKey, FindAll, IsPlain, IsPlainTemplate;
    ProxyLineHasNoKey(line);
    forall n | 0 <= n < |PrintLines(t, k, m, None)|
      ensures n != |t.head| ==> ManagementKey(PrintLines(t, k, m, None)[n]).None?
      ensures n != |t.head| + 1 + |t.settings| + |t.keys| ==> SidecarKey(PrintLines(t, k, m, None)[n]).None?
    {
      PrintedLineKinds(t, k, m, n);
    }
    KeyIsNotGlued(ManagementKey, before, residue, line, after, |t.head|);
    KeyIsNotGlued(SidecarKey, before, residue, line, after, |t.head| + 1 + |t.settings| + |t.keys|);
  }

  lemma AcceptedCarries(t: Template, ls: seq<string>, url: string) returns (k: string, m: string, q: nat, ret: string)
    requires IsPlainTemplate(t) && FindAll(ProxyValue, ls) == [url]
    requires FindAll(ManagementKey, ls) != [] && FindAll(SidecarKey, ls) != []
    requires Remove(ProxyUrl, MaskedLines(ls)) == PrintLines(t, SIDECAR_PLACEHOLDER, MANAGEMENT_PLACEHOLDER, None)
    ensures IsClean(k) && IsClean(m) && IsClean(url) && Carries(t, ls, k, m, url, q, ret)
  {
    hide Quoted, QuotedPrefix, Quote, IsClean, PrintLines, MaskedLines, Remove, FindAll, ManagementKey, SidecarKey, Masked;
    q := FoundOnce(ProxyValue, ls, url);
    var before, line, after := ls[..q], ls[q], ls[q + 1..];
    assert ls == before + ([line] + after);
    assert NoMatch(ProxyUrl, before) && NoMatch(ProxyUrl, after) && ProxyUrl(line).Some? && ProxyUrl(line).value.0 == url;
    hide ProxyUrl, ProxyValue;
    ProxyLineHasNoKey(line);
    SkeletonAround(before, line, after);
    var residue := Residue(ProxyUrl(line).value.1);
    if residue == [] && after != [] {
      MaskedAppend(before, after);
      assert MaskedLines(before) + [] + MaskedLines(after) == MaskedLines(before) + MaskedLines(after);
      k, m := DroppedIsInserted(t, before, line, after);
      ret := ProxyUrl(line).value.1;
    } else {
      assert MaskedLines(before) + [residue] + MaskedLines(after) == MaskedLines(before) + ([residue] + MaskedLines(after));
      k, m, ret := KeptIsGlued(t, before, line, after);
      KeysAreNotGlued(t, k, m, before, residue, line, after);
    }
  }

  /** The keys and the setting of an accepted text with a proxy. */
  ghost predicate IsAcceptable(host: Host, t: Template, ls: seq<string>, runtime: Runtime, m: string, url: string) {
    && IsClean(runtime.sidecarKey) && IsClean(m) && KeyMatches(host, m, runtime.managementKey)
    && IsStable(host, Some(url))
    && exists q, ret :: Carries(t, ls, runtime.sidecarKey, m, url, q, ret)
  }

  lemma CarriedIsAccepted(host: Host, t: Template, content: string, runtime: Runtime, m: string, url: string)
    requires IsPlainTemplate(t) && IsAcceptable(host, t, Lines(content), runtime, m, url)
    ensures Matches(host, t, content, runtime) && FindAll(ProxyValue, Lines(content)) == [url]
    ensures FindAll(ManagementKey, Lines(content)) == [m]
  {
    hide Quoted, QuotedPrefix, Quote, IsClean, PrintLines, MaskedLines, Remove, FindAll, KeyMatches, Carries, NormaliseProxy;
    var q, ret :| Carries(t, Lines(content), runtime.sidecarKey, m, url, q, ret);
    CarriedFindsKeys(t, Lines(content), runtime.sidecarKey, m, url, q, ret);
    CarriedSkeleton(t, Lines(content), runtime.sidecarKey, m, url, q, ret);
    PrintedAreSome(t);
  }

  lemma PrintedAreSome(t: Template)
    ensures PrintLines(t, SIDECAR_PLACEHOLDER, MANAGEMENT_PLACEHOLDER, None) != []
  {
  }

  lemma AcceptedIsCarried(host: Host, t: Template, content: string, runtime: Runtime, url: string)
    requires IsPlainTemplate(t) && Matches(host, t, content, runtime) && FindAll(ProxyValue, Lines(content)) == [url]
    ensures IsAcceptable(host, t, Lines(content), runtime, FindAll(ManagementKey, Lines(content))[0], url)
  {
    hide Quoted, QuotedPrefix, Quote, IsClean, PrintLines, MaskedLines, Remove, FindAll, KeyMatches, Carries, NormaliseProxy, Lines;
    var ls := Lines(content);
    SkeletonsAgreeIff(t, ls);
    var k, m, q, ret := AcceptedCarries(t, ls, url);
    CarriedFindsKeys(t, ls, k, m, url, q, ret);
    assert m == FindAll(ManagementKey, ls)[0] && k == runtime.sidecarKey;
  }

  /**
   The texts with a proxy that the checker accepts, exactly: the printed text without one, for the right keys, with
   one stable setting inserted before some line or glued to the front of some line that holds no key.
   */
  lemma AcceptedWithProxyIff(host: Host, t: Template, content: string, runtime: Runtime)
    requires IsPlainTemplate(t)
    ensures Matches(host, t, content, runtime) && FindAll(ProxyValue, Lines(content)) != []
       <==> exists m, url :: IsAcceptable(host, t, Lines(content), runtime, m, url)
  {
    hide Quoted, QuotedPrefix, Quote, IsClean, PrintLines, MaskedLines, Remove, FindAll, KeyMatches, IsAcceptable, Lines;
    if Matches(host, t, content, runtime) && FindAll(ProxyValue, Lines(content)) != [] {
      var url := FindAll(ProxyValue, Lines(content))[0];
      assert FindAll(ProxyValue, Lines(content)) == [url];
      AcceptedIsCarried(host, t, content, runtime, url);
    }
    if m, url :| IsAcceptable(host, t, Lines(content), runtime, m, url) {
      CarriedIsAccepted(host, t, content, runtime, m, url);
    }
  }

  /** Where the printer puts the setting. */
  function ProxyPlace(t: Template): nat {
    |t.head| + 1 + |t.settings|
  }

  lemma PrintedWithProxy(t: Template, k: string, m: string, url: string)
    requires t.tail != []
    ensures var printed := PrintLines(t, k, m, None);
            && ProxyPlace(t) < |printed| - 1
            && PrintLines(t, k, m, Some(url)) == printed[..ProxyPlace(t)] + ([Quote(PROXY, url)] + printed[ProxyPlace(t)..])
  {
  }

  /** The setting stands only where it was inserted or glued. */
  lemma SettingIsThere(t: Template, ls: seq<string>, k: string, m: string, url: string, q: nat, ret: string, p: nat)
    requires IsPlainTemplate(t) && IsClean(k) && IsClean(m) && IsClean(url) && Carries(t, ls, k, m, url, q, ret)
    requires p < |ls| && ls[p] == Quote(PROXY, url) && p < |PrintLines(t, k, m, None)| - 1
    ensures p == q && ret == "" && IsInserted(ls, PrintLines(t, k, m, None), q, Quote(PROXY, url))
  {
    hide Quoted, QuotedPrefix, Quote, IsClean, PrintLines, ProxyUrl, IsPlain;
    var printed := PrintLines(t, k, m, None);
    ProxyLine(url);
    if p != q {
      var n := if p < q || IsGlued(ls, printed, q, Setting(url, ret)) then p else p - 1;
      assert ls[p] == printed[n];
      PrintedLineKinds(t, k, m, n);
      assert false;
    }
  }

  /**
   An accepted text with a proxy is the printed text for its own keys if and only if the setting stands alone in
   the printer's place.
   */
  lemma AcceptedIsPrintedIff(host: Host, t: Template, content: string, runtime: Runtime, url: string)
    requires IsPlainTemplate(t) && Matches(host, t, content, runtime) && FindAll(ProxyValue, Lines(content)) == [url]
    ensures content == Print(t, runtime.sidecarKey, FindAll(ManagementKey, Lines(content))[0], Some(url))
       <==> ProxyPlace(t) < |Lines(content)| && Lines(content)[ProxyPlace(t)] == Quote(PROXY, url)
  {
    hide Quoted, QuotedPrefix, Quote, IsClean, PrintLines, MaskedLines, Remove, FindAll, KeyMatches, NormaliseProxy, Lines, Matches;
    KeyIsFound(host, t, content, runtime);
    var ls, m := Lines(content), FindAll(ManagementKey, Lines(content))[0];
    var k := runtime.sidecarKey;
    AcceptedIsCarried(host, t, content, runtime, url);
    var q, ret :| Carries(t, ls, k, m, url, q, ret);
    PrintedWithProxy(t, k, m, url);
    if content == Print(t, k, m, Some(url)) {
      CleanIsLine(url);
      PrintedAreLines(t, k, m, Some(url));
      LinesOfJoin(PrintLines(t, k, m, Some(url)));
    }
    if ProxyPlace(t) < |ls| && ls[ProxyPlace(t)] == Quote(PROXY, url) {
      SettingIsThere(t, ls, k, m, url, q, ret, ProxyPlace(t));
      JoinOfLines(content);
    }
  }

  lemma {:induction false} FirstLine(a: string, b: string)
    requires IsLine(a)
    ensures Lines(a + "\n" + b)[0] == a
  {
    var s := a + "\n" + b;
    if a != [] {
      assert s[1..] == a[1..] + "\n" + b;
      FirstLine(a[1..], b);
    }
  }

  /** With the setting in front of the first line an accepted text is not the printed text for any keys and proxy at all. */
  lemma AcceptedWithProxyNeedNotBePrinted(host: Host, t: Template, m: string, url: string, runtime: Runtime)
    requires IsPlainTemplate(t) && t.head != []
    requires IsClean(runtime.sidecarKey) && IsClean(m) && KeyMatches(host, m, runtime.managementKey) && IsStable(host, Some(url))
    ensures var content := JoinLines([Quote(PROXY, url)] + PrintLines(t, runtime.sidecarKey, m, None));
            && Matches(host, t, content, runtime)
            && forall k', m', proxy :: content != Print(t, k', m', proxy)
  {
    hide Quoted, QuotedPrefix, Quote, IsClean, KeyMatches, NormaliseProxy, Matches, Carries;
    var k := runtime.sidecarKey;
    var printed := PrintLines(t, k, m, None);
    var ls := [Quote(PROXY, url)] + printed;
    var content := JoinLines(ls);
    PrintedAreLines(t, k, m, None);
    CleanIsLine(url);
    QuoteIsLine(url);
    LinesOfJoin(ls);
    SettingInFront(t, k, m, url);
    CarriedIsAccepted(host, t, content, runtime, m, url);
    forall k', m', proxy ensures content != Print(t, k', m', proxy) {
      PrintedBegins(t, k', m', proxy);
      ProxyLine(url);
      assert ls[0] == Quote(PROXY, url);
    }
  }

  lemma CleanIsLine(url: string)
    requires IsClean(url)
    ensures IsLine(url)
  {
  }

  lemma SettingInFront(t: Template, k: string, m: string, url: string)
    ensures Carries(t, [Quote(PROXY, url)] + PrintLines(t, k, m, None), k, m, url, 0, "")
  {
    assert Quote(PROXY, url) + "" == Quote(PROXY, url);
    var printed := PrintLines(t, k, m, None);
    assert printed[..0] + ([Setting(url, "")] + printed[0..]) == [Quote(PROXY, url)] + printed;
  }

  lemma PrintedBegins(t: Template, k: string, m: string, proxy: Option<string>)
    requires t.head != [] && IsPlain(t.head[0])
    ensures Lines(Print(t, k, m, proxy))[0] == t.head[0]
  {
    var ls := PrintLines(t, k, m, proxy);
    assert ls[0] == t.head[0] && |ls| > 1;
    FirstLine(ls[0], JoinLines(ls[1..]));
  }
}
