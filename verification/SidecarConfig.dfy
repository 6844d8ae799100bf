/** The Sidecar configuration: the text that is printed, the checker that reads it back, and its proxy setting. */
module SidecarConfig {
  import opened Wrappers
  import opened Text
  import opened ConfigText

  /* Printing */

  const MANAGEMENT := "  secret-key: "
  const SIDECAR := "  - "
  const PROXY := "proxy-url: "

  const HOST_LINE := "host: \"127.0.0.1\""
  const PORT_LINE := "port: 8317"
  const REMOTE_LINE := "remote-management:"
  const ALLOW_LINE := "  allow-remote: false"
  const PANEL_LINE := "  disable-control-panel: true"
  const KEYS_LINE := "api-keys:"
  const DEBUG_LINE := "debug: false"
  const LOGGING_LINE := "logging-to-file: false"
  const USAGE_LINE := "usage-statistics-enabled: false"
  const ROUTING_LINE := "routing:"
  const STRATEGY_LINE := "  strategy: \"fill-first\""
  const AFFINITY_LINE := "  session-affinity: false"

  /** The fixed lines around the management key, the proxy and the Sidecar key. */
  datatype Template = Template(head: seq<string>, settings: seq<string>, keys: seq<string>, tail: seq<string>)

  function SidecarTemplate(authDir: string): Template {
    Template(
      [HOST_LINE, PORT_LINE, REMOTE_LINE, ALLOW_LINE],
      [PANEL_LINE, "auth-dir: \"" + authDir + "\""],
      [KEYS_LINE],
      [DEBUG_LINE, LOGGING_LINE, USAGE_LINE, ROUTING_LINE, STRATEGY_LINE, AFFINITY_LINE, ""])
  }

  function ProxyLines(proxy: Option<string>): seq<string> {
    if proxy.Some? then [Quote(PROXY, proxy.value)] else []
  }

  function PrintLines(t: Template, sidecarKey: string, managementKey: string, proxy: Option<string>): seq<string> {
    t.head + [Quote(MANAGEMENT, managementKey)] + t.settings + ProxyLines(proxy)
    + t.keys + [Quote(SIDECAR, sidecarKey)] + t.tail
  }

  function Print(t: Template, sidecarKey: string, managementKey: string, proxy: Option<string>): string {
    JoinLines(PrintLines(t, sidecarKey, managementKey, proxy))
  }

  /** The text line by line: only the directory, the two keys and the proxy differ between two installations. */
  lemma PrintedText(authDir: string, sidecarKey: string, managementKey: string, proxy: Option<string>)
    ensures Print(SidecarTemplate(authDir), sidecarKey, managementKey, proxy) == JoinLines(
              ["host: \"127.0.0.1\"", "port: 8317", "remote-management:", "  allow-remote: false",
               "  secret-key: " + "\"" + managementKey + "\"", "  disable-control-panel: true", "auth-dir: \"" + authDir + "\""]
              + (if proxy.Some? then ["proxy-url: " + "\"" + proxy.value + "\""] else [])
              + ["api-keys:", "  - " + "\"" + sidecarKey + "\"",
                 "debug: false", "logging-to-file: false", "usage-statistics-enabled: false",
                 "routing:", "  strategy: \"fill-first\"", "  session-affinity: false", ""])
  {
    var t := SidecarTemplate(authDir);
    assert t.head + [Quote(MANAGEMENT, managementKey)] + t.settings
        == ["host: \"127.0.0.1\"", "port: 8317", "remote-management:", "  allow-remote: false",
            "  secret-key: " + "\"" + managementKey + "\"", "  disable-control-panel: true", "auth-dir: \"" + authDir + "\""];
    assert t.keys + [Quote(SIDECAR, sidecarKey)] + t.tail
        == ["api-keys:", "  - " + "\"" + sidecarKey + "\"",
            "debug: false", "logging-to-file: false", "usage-statistics-enabled: false",
            "routing:", "  strategy: \"fill-first\"", "  session-affinity: false", ""];
    PrintedInThree(t, sidecarKey, managementKey, proxy);
  }

  lemma PrintedInThree(t: Template, k: string, m: string, proxy: Option<string>)
    ensures PrintLines(t, k, m, proxy)
         == (t.head + [Quote(MANAGEMENT, m)] + t.settings) + ProxyLines(proxy) + (t.keys + [Quote(SIDECAR, k)] + t.tail)
  {
  }

  /* Checking */

  function ManagementKey(line: string): Option<string> {
    Quoted(MANAGEMENT, line)
  }

  function SidecarKey(line: string): Option<string> {
    Quoted(SIDECAR, line)
  }

  /** The proxy at the start of the line, and the rest of the line. */
  function ProxyUrl(line: string): Option<(string, string)> {
    QuotedPrefix(PROXY, line)
  }

  function ProxyValue(line: string): Option<string> {
    match ProxyUrl(line)
    case Some(m) => Some(m.0)
    case None => None
  }

  const MANAGEMENT_PLACEHOLDER := "<management-key>"
  const SIDECAR_PLACEHOLDER := "<sidecar-api-key>"

  /** A line with its key, if it holds one, replaced by the placeholder. */
  function Masked(line: string): string {
    if ManagementKey(line).Some? then Quote(MANAGEMENT, MANAGEMENT_PLACEHOLDER)
    else if SidecarKey(line).Some? then Quote(SIDECAR, SIDECAR_PLACEHOLDER)
    else line
  }

  function MaskedLines(ls: seq<string>): (r: seq<string>)
    ensures |r| == |ls| && forall i :: 0 <= i < |ls| ==> r[i] == Masked(ls[i])
  {
    seq(|ls|, i requires 0 <= i < |ls| => Masked(ls[i]))
  }

  /** URL normalisation, the hash and its check; `bcrypt(password, hash)`. */
  datatype Host = Host(normalise: string -> Option<string>, bcrypt: (string, string) -> bool, hash: string -> string)

  datatype Runtime = Runtime(sidecarKey: string, managementKey: string)

  predicate IsHash(s: string) {
    "$2a$" <= s || "$2b$" <= s || "$2y$" <= s
  }

  predicate KeyMatches(host: Host, configured: string, expected: string) {
    configured == expected || (IsHash(configured) && host.bcrypt(expected, configured))
  }

  datatype ConfigError = InvalidUrl | Mismatch | Unavailable

  function NormaliseProxy(host: Host, value: Option<string>): Result<Option<string>, ConfigError> {
    if value.None? || Strip(value.value) == [] then Success(None)
    else if host.normalise(value.value).None? then Failure(InvalidUrl)
    else Success(host.normalise(value.value))
  }

  /** A normalised URL has no line break. It may hold quotes, and need not be its own normal form. */
  ghost predicate Trusted(host: Host) {
    forall s :: host.normalise(s).Some? ==> IsLine(host.normalise(s).value)
  }

  ghost predicate HashVerifies(host: Host) {
    forall k :: IsClean(host.hash(k)) && IsHash(host.hash(k)) && host.bcrypt(k, host.hash(k))
  }

  /** The proxies that the checker reads back as they were written. */
  predicate IsStable(host: Host, proxy: Option<string>) {
    proxy.Some? ==> IsClean(proxy.value) && NormaliseProxy(host, proxy) == Success(proxy)
  }

  predicate Matches(host: Host, t: Template, content: string, runtime: Runtime) {
    var ls := Lines(content);
    var management, sidecar, proxies := FindAll(ManagementKey, ls), FindAll(SidecarKey, ls), FindAll(ProxyValue, ls);
    && |management| == 1 && |sidecar| == 1 && |proxies| <= 1
    && (|proxies| == 1 ==> NormaliseProxy(host, Some(proxies[0])) == Success(Some(proxies[0])))
    && Remove(ProxyUrl, MaskedLines(ls)) != []
    && JoinLines(Remove(ProxyUrl, MaskedLines(ls))) == Print(t, SIDECAR_PLACEHOLDER, MANAGEMENT_PLACEHOLDER, None)
    && sidecar[0] == runtime.sidecarKey
    && KeyMatches(host, management[0], runtime.managementKey)
  }

  /* Plain lines */

  /** A line that none of the three patterns matches and that does not begin with a carriage return. */
  predicate IsPlain(line: string) {
    && IsLine(line) && ManagementKey(line).None? && SidecarKey(line).None? && ProxyUrl(line).None?
    && (line != [] ==> line[0] != '\r')
  }

  predicate ArePlain(ls: seq<string>) {
    forall i :: 0 <= i < |ls| ==> IsPlain(ls[i])
  }

  predicate IsPlainTemplate(t: Template) {
    ArePlain(t.head) && ArePlain(t.settings) && ArePlain(t.keys) && ArePlain(t.tail) && t.tail != []
  }

  lemma DiffersFromPrefixes(line: string, i: nat, j: nat, k: nat)
    requires IsLine(line) && i < |line| && j < |line| && k < |line|
    requires i < |MANAGEMENT| && MANAGEMENT[i] != line[i]
    requires j < |SIDECAR| && SIDECAR[j] != line[j]
    requires k < |PROXY| && PROXY[k] != line[k] && line[0] != '\r'
    ensures IsPlain(line)
  {
    assert (MANAGEMENT + "\"")[i] != line[i];
    assert (SIDECAR + "\"")[j] != line[j];
    assert (PROXY + "\"")[k] != line[k];
  }

  lemma HeadIsPlain(authDir: string)
    ensures ArePlain(SidecarTemplate(authDir).head)
  {
    forall i | 0 <= i < 4 ensures IsPlain(SidecarTemplate(authDir).head[i]) {
      if i == 0 { DiffersFromPrefixes(HOST_LINE, 0, 0, 0); }
      else if i == 1 { DiffersFromPrefixes(PORT_LINE, 0, 0, 1); }
      else if i == 2 { DiffersFromPrefixes(REMOTE_LINE, 0, 0, 0); }
      else if i == 3 { DiffersFromPrefixes(ALLOW_LINE, 2, 2, 0); }
    }
  }

  lemma DirectoryLineIsPlain(authDir: string)
    requires IsLine(authDir)
    ensures IsPlain("auth-dir: \"" + authDir + "\"")
  {
    DiffersFromPrefixes("auth-dir: \"" + authDir + "\"", 0, 0, 0);
  }

  lemma FixedSettingsArePlain()
    ensures IsPlain(PANEL_LINE) && IsPlain(KEYS_LINE)
  {
    DiffersFromPrefixes(PANEL_LINE, 2, 2, 0);
    DiffersFromPrefixes(KEYS_LINE, 0, 0, 0);
  }

  lemma SettingsArePlain(authDir: string)
    requires IsLine(authDir)
    ensures ArePlain(SidecarTemplate(authDir).settings) && ArePlain(SidecarTemplate(authDir).keys)
  {
    hide IsPlain;
    FixedSettingsArePlain();
    DirectoryLineIsPlain(authDir);
  }

  lemma LoggingLineIsPlain(authDir: string, i: nat)
    requires i < 3
    ensures IsPlain(SidecarTemplate(authDir).tail[i])
  {
    if i == 0 { DiffersFromPrefixes(DEBUG_LINE, 0, 0, 0); }
    else if i == 1 { DiffersFromPrefixes(LOGGING_LINE, 0, 0, 0); }
    else { DiffersFromPrefixes(USAGE_LINE, 0, 0, 0); }
  }

  lemma RoutingLineIsPlain(authDir: string, i: nat)
    requires 3 <= i < 7
    ensures IsPlain(SidecarTemplate(authDir).tail[i])
  {
    if i == 3 { DiffersFromPrefixes(ROUTING_LINE, 0, 0, 0); }
    else if i == 4 { DiffersFromPrefixes(STRATEGY_LINE, 3, 2, 0); }
    else if i == 5 { DiffersFromPrefixes(AFFINITY_LINE, 4, 2, 0); }
  }

  /** The template in use, for any directory path without a line break. */
  lemma SidecarTemplateIsPlain(authDir: string)
    requires IsLine(authDir)
    ensures IsPlainTemplate(SidecarTemplate(authDir))
  {
    HeadIsPlain(authDir);
    SettingsArePlain(authDir);
    forall i | 0 <= i < 7 ensures IsPlain(SidecarTemplate(authDir).tail[i]) {
      if i < 3 { LoggingLineIsPlain(authDir, i); } else { RoutingLineIsPlain(authDir, i); }
    }
  }

  lemma ManagementLine(x: string)
    requires IsClean(x)
    ensures var l := Quote(MANAGEMENT, x);
            IsLine(l) && ManagementKey(l) == Some(x) && SidecarKey(l).None? && ProxyUrl(l).None?
  {
    QuotedQuote(MANAGEMENT, x);
    assert Quote(MANAGEMENT, x)[0] == ' ' && Quote(MANAGEMENT, x)[2] == 's';
    assert (SIDECAR + "\"")[2] == '-' && (PROXY + "\"")[0] == 'p';
  }

  lemma SidecarLine(x: string)
    requires IsClean(x)
    ensures var l := Quote(SIDECAR, x);
            IsLine(l) && ManagementKey(l).None? && SidecarKey(l) == Some(x) && ProxyUrl(l).None?
  {
    QuotedQuote(SIDECAR, x);
    assert Quote(SIDECAR, x)[0] == ' ' && Quote(SIDECAR, x)[2] == '-';
    assert (MANAGEMENT + "\"")[2] == 's' && (PROXY + "\"")[0] == 'p';
  }

  lemma ProxyLine(x: string)
    requires IsClean(x)
    ensures var l := Quote(PROXY, x);
            IsLine(l) && ManagementKey(l).None? && SidecarKey(l).None? && ProxyUrl(l) == Some((x, ""))
  {
    QuotedPrefixQuote(PROXY, x, "");
    assert Quote(PROXY, x) + "" == Quote(PROXY, x) && Quote(PROXY, x)[0] == 'p';
    assert (MANAGEMENT + "\"")[0] == ' ' && (SIDECAR + "\"")[0] == ' ';
  }

  /* What the checker accepts */

  lemma PlainNoMatch(ls: seq<string>)
    requires ArePlain(ls)
    ensures NoMatch(ManagementKey, ls) && NoMatch(SidecarKey, ls) && NoMatch(ProxyUrl, ls) && NoMatch(ProxyValue, ls)
  {
  }

  lemma NoMatchAppend<T>(pattern: string -> Option<T>, ls: seq<string>, ks: seq<string>)
    requires NoMatch(pattern, ls) && NoMatch(pattern, ks)
    ensures NoMatch(pattern, ls + ks)
  {
  }

  /** What the printed text consists of, seen from one of its three special lines. */
  lemma PrintedParts(t: Template, k: string, m: string, proxy: Option<string>)
    ensures PrintLines(t, k, m, proxy)
         == t.head + ([Quote(MANAGEMENT, m)] + (t.settings + ProxyLines(proxy) + t.keys + [Quote(SIDECAR, k)] + t.tail))
    ensures PrintLines(t, k, m, proxy)
         == (t.head + [Quote(MANAGEMENT, m)] + t.settings + ProxyLines(proxy) + t.keys) + ([Quote(SIDECAR, k)] + t.tail)
    ensures PrintLines(t, k, m, proxy)
         == (t.head + [Quote(MANAGEMENT, m)] + t.settings) + (ProxyLines(proxy) + (t.keys + [Quote(SIDECAR, k)] + t.tail))
  {
  }

  lemma PrintedManagement(t: Template, k: string, m: string, proxy: Option<string>)
    requires IsPlainTemplate(t) && IsClean(k) && IsClean(m) && (proxy.Some? ==> IsClean(proxy.value))
    ensures FindAll(ManagementKey, PrintLines(t, k, m, proxy)) == [m]
  {
    ManagementLine(m);
    SidecarLine(k);
    if proxy.Some? { ProxyLine(proxy.value); }
    PlainNoMatch(t.head); PlainNoMatch(t.settings); PlainNoMatch(t.keys); PlainNoMatch(t.tail);
    var key := [Quote(SIDECAR, k)];
    NoMatchAppend(ManagementKey, t.settings, ProxyLines(proxy));
    NoMatchAppend(ManagementKey, t.settings + ProxyLines(proxy), t.keys);
    NoMatchAppend(ManagementKey, t.settings + ProxyLines(proxy) + t.keys, key);
    NoMatchAppend(ManagementKey, t.settings + ProxyLines(proxy) + t.keys + key, t.tail);
    PrintedParts(t, k, m, proxy);
    FindsOne(ManagementKey, t.head, Quote(MANAGEMENT, m), t.settings + ProxyLines(proxy) + t.keys + key + t.tail, m);
  }

  lemma PrintedSidecar(t: Template, k: string, m: string, proxy: Option<string>)
    requires IsPlainTemplate(t) && IsClean(k) && IsClean(m) && (proxy.Some? ==> IsClean(proxy.value))
    ensures FindAll(SidecarKey, PrintLines(t, k, m, proxy)) == [k]
  {
    ManagementLine(m);
    SidecarLine(k);
    if proxy.Some? { ProxyLine(proxy.value); }
    PlainNoMatch(t.head); PlainNoMatch(t.settings); PlainNoMatch(t.keys); PlainNoMatch(t.tail);
    var key := [Quote(MANAGEMENT, m)];
    NoMatchAppend(SidecarKey, t.head, key);
    NoMatchAppend(SidecarKey, t.head + key, t.settings);
    NoMatchAppend(SidecarKey, t.head + key + t.settings, ProxyLines(proxy));
    NoMatchAppend(SidecarKey, t.head + key + t.settings + ProxyLines(proxy), t.keys);
    PrintedParts(t, k, m, proxy);
    FindsOne(SidecarKey, t.head + key + t.settings + ProxyLines(proxy) + t.keys, Quote(SIDECAR, k), t.tail, k);
  }

  lemma NoProxyAround<T>(pattern: string -> Option<T>, t: Template, k: string, m: string)
    requires NoMatch(pattern, t.head) && NoMatch(pattern, t.settings) && NoMatch(pattern, t.keys) && NoMatch(pattern, t.tail)
    requires pattern(Quote(MANAGEMENT, m)).None? && pattern(Quote(SIDECAR, k)).None?
    ensures NoMatch(pattern, t.head + [Quote(MANAGEMENT, m)] + t.settings)
    ensures NoMatch(pattern, t.keys + [Quote(SIDECAR, k)] + t.tail)
  {
  }

  /** The lines before and behind the printer's place for the proxy match neither form of the pattern. */
  lemma NoProxyElsewhere(t: Template, k: string, m: string)
    requires IsPlainTemplate(t) && IsClean(k) && IsClean(m)
    ensures var before, after := t.head + [Quote(MANAGEMENT, m)] + t.settings, t.keys + [Quote(SIDECAR, k)] + t.tail;
            && NoMatch(ProxyValue, before) && NoMatch(ProxyUrl, before) && NoMatch(ProxyValue, after) && NoMatch(ProxyUrl, after)
  {
    hide Quoted, QuotedPrefix, Quote, IsClean, IsLine, IsPlain;
    ManagementLine(m);
    SidecarLine(k);
    PlainNoMatch(t.head); PlainNoMatch(t.settings); PlainNoMatch(t.keys); PlainNoMatch(t.tail);
    NoProxyAround(ProxyValue, t, k, m);
    NoProxyAround(ProxyUrl, t, k, m);
  }

  lemma ProxyBetween(before: seq<string>, after: seq<string>, proxy: Option<string>)
    requires NoMatch(ProxyValue, before) && NoMatch(ProxyUrl, before) && NoMatch(ProxyValue, after) && NoMatch(ProxyUrl, after)
    requires after != [] && (proxy.Some? ==> IsClean(proxy.value))
    ensures FindAll(ProxyValue, before + (ProxyLines(proxy) + after)) == if proxy.Some? then [proxy.value] else []
    ensures Remove(ProxyUrl, before + (ProxyLines(proxy) + after)) == before + after
  {
    hide Quoted, QuotedPrefix, Quote, IsClean, FindAll, Remove, ProxyUrl;
    if proxy.Some? {
      var line := Quote(PROXY, proxy.value);
      ProxyLine(proxy.value);
      FindsOne(ProxyValue, before, line, after, proxy.value);
      RemovesOne(ProxyUrl, before, line, after);
      assert Kept(ProxyUrl, line, false) == [] && before + [] + after == before + after;
    } else {
      assert ProxyLines(proxy) + after == after;
      NoMatchAppend(ProxyValue, before, after);
      NoMatchAppend(ProxyUrl, before, after);
      FindsNothing(ProxyValue, before + after);
      RemovesNothing(ProxyUrl, before + after);
    }
  }

  lemma PrintedProxy(t: Template, k: string, m: string, proxy: Option<string>)
    requires IsPlainTemplate(t) && IsClean(k) && IsClean(m) && (proxy.Some? ==> IsClean(proxy.value))
    ensures FindAll(ProxyValue, PrintLines(t, k, m, proxy)) == if proxy.Some? then [proxy.value] else []
    ensures Remove(ProxyUrl, PrintLines(t, k, m, proxy)) == PrintLines(t, k, m, None)
  {
    hide Quoted, QuotedPrefix, Quote, IsClean, FindAll, Remove, ProxyUrl, ProxyValue, PrintLines, NoMatch;
    var before, after := t.head + [Quote(MANAGEMENT, m)] + t.settings, t.keys + [Quote(SIDECAR, k)] + t.tail;
    NoProxyElsewhere(t, k, m);
    ProxyBetween(before, after, proxy);
    PrintedParts(t, k, m, proxy);
    PrintedParts(t, k, m, None);
    assert ProxyLines(None) + after == after;
  }

  lemma PrintedAreLines(t: Template, k: string, m: string, proxy: Option<string>)
    requires IsPlainTemplate(t) && IsClean(k) && IsClean(m) && (proxy.Some? ==> IsLine(proxy.value))
    ensures AreLines(PrintLines(t, k, m, proxy))
  {
    hide Quoted, QuotedPrefix, Quote, IsClean, IsLine;
    ManagementLine(m);
    SidecarLine(k);
    if proxy.Some? { QuoteIsLine(proxy.value); }
  }

  lemma QuoteIsLine(x: string)
    requires IsLine(x)
    ensures IsLine(Quote(PROXY, x))
  {
    assert IsLine(PROXY);
  }

  lemma MaskedAppend(ls: seq<string>, ks: seq<string>)
    ensures MaskedLines(ls + ks) == MaskedLines(ls) + MaskedLines(ks)
  {
    hide Masked;
  }

  lemma MaskedPlain(ls: seq<string>)
    requires ArePlain(ls)
    ensures MaskedLines(ls) == ls
  {
  }

  lemma PrintedMasks(t: Template, k: string, m: string, proxy: Option<string>)
    requires IsPlainTemplate(t) && IsClean(k) && IsClean(m) && (proxy.Some? ==> IsClean(proxy.value))
    ensures MaskedLines(PrintLines(t, k, m, proxy)) == PrintLines(t, SIDECAR_PLACEHOLDER, MANAGEMENT_PLACEHOLDER, proxy)
  {
    ManagementLine(m);
    SidecarLine(k);
    if proxy.Some? { ProxyLine(proxy.value); }
    MaskedPlain(t.head); MaskedPlain(t.settings); MaskedPlain(t.keys); MaskedPlain(t.tail);
    var before := t.head + [Quote(MANAGEMENT, m)] + t.settings;
    MaskedAppend(t.head, [Quote(MANAGEMENT, m)]);
    MaskedAppend(t.head + [Quote(MANAGEMENT, m)], t.settings);
    MaskedAppend(before, ProxyLines(proxy));
    MaskedAppend(before + ProxyLines(proxy), t.keys);
    MaskedAppend(before + ProxyLines(proxy) + t.keys, [Quote(SIDECAR, k)]);
    MaskedAppend(before + ProxyLines(proxy) + t.keys + [Quote(SIDECAR, k)], t.tail);
    assert MaskedLines([Quote(MANAGEMENT, m)]) == [Quote(MANAGEMENT, MANAGEMENT_PLACEHOLDER)];
    assert MaskedLines([Quote(SIDECAR, k)]) == [Quote(SIDECAR, SIDECAR_PLACEHOLDER)];
    assert MaskedLines(ProxyLines(proxy)) == ProxyLines(proxy);
  }

  lemma PlaceholdersAreClean()
    ensures IsClean(SIDECAR_PLACEHOLDER) && IsClean(MANAGEMENT_PLACEHOLDER)
  {
  }

  lemma CleanPrintedMatchesIff(host: Host, t: Template, k: string, m: string, proxy: Option<string>, runtime: Runtime)
    requires IsPlainTemplate(t) && IsClean(k) && IsClean(m) && (proxy.Some? ==> IsClean(proxy.value))
    ensures Matches(host, t, Print(t, k, m, proxy), runtime)
       <==> && k == runtime.sidecarKey && KeyMatches(host, m, runtime.managementKey)
            && (proxy.Some? ==> NormaliseProxy(host, proxy) == Success(proxy))
  {
    PrintedManagement(t, k, m, proxy);
    PrintedSidecar(t, k, m, proxy);
    PrintedProxy(t, k, m, proxy);
    PrintedAreLines(t, k, m, proxy);
    LinesOfJoin(PrintLines(t, k, m, proxy));
    PrintedMasks(t, k, m, proxy);
    PlaceholdersAreClean();
    PrintedProxy(t, SIDECAR_PLACEHOLDER, MANAGEMENT_PLACEHOLDER, proxy);
  }

  lemma QuotesDiffer(prefix: string, x: string, y: string)
    requires x != y
    ensures Quote(prefix, x) != Quote(prefix, y)
  {
    var a, b := Quote(prefix, x), Quote(prefix, y);
    if |x| == |y| {
      assert a[|prefix| + 1..|a| - 1] == x && b[|prefix| + 1..|b| - 1] == y;
    }
  }

  /** A proxy line whose value the pattern cannot read leaves something behind when it is removed. */
  lemma UnreadableProxyStays(url: string)
    requires !IsClean(url)
    ensures var line := Quote(PROXY, url);
            && ManagementKey(line).None? && SidecarKey(line).None?
            && (ProxyUrl(line).Some? ==> Residue(ProxyUrl(line).value.1) != [])
  {
    var line := Quote(PROXY, url);
    assert line[0] == 'p' && (MANAGEMENT + "\"")[0] == ' ' && (SIDECAR + "\"")[0] == ' ';
    if ProxyUrl(line).Some? {
      var (x, rest) := ProxyUrl(line).value;
      assert line == Quote(PROXY, x) + rest && IsClean(x);
      QuotesDiffer(PROXY, x, url);
      assert rest != [] by {
        assert Quote(PROXY, x) + [] == Quote(PROXY, x);
      }
      assert rest[|rest| - 1] == line[|line| - 1] == '"';
    }
  }

  lemma MaskKeepsProxy(line: string)
    ensures ProxyUrl(Masked(line)) == ProxyUrl(line)
  {
    PlaceholdersAreClean();
    if ManagementKey(line).Some? {
      ManagementLine(ManagementKey(line).value);
      ManagementLine(MANAGEMENT_PLACEHOLDER);
    } else if SidecarKey(line).Some? {
      SidecarLine(SidecarKey(line).value);
      SidecarLine(SIDECAR_PLACEHOLDER);
    }
  }

  lemma RestIsLine(line: string)
    requires IsLine(line)
    ensures IsLine(Masked(line)) && (ProxyUrl(line).Some? ==> IsLine(ProxyUrl(line).value.1))
  {
    PlaceholdersAreClean();
    ManagementLine(MANAGEMENT_PLACEHOLDER);
    SidecarLine(SIDECAR_PLACEHOLDER);
  }

  /** The skeleton that the checker compares consists of lines, so comparing the texts compares the lines. */
  lemma SkeletonsAgreeIff(t: Template, ls: seq<string>)
    requires IsPlainTemplate(t) && AreLines(ls) && Remove(ProxyUrl, MaskedLines(ls)) != []
    ensures JoinLines(Remove(ProxyUrl, MaskedLines(ls))) == Print(t, SIDECAR_PLACEHOLDER, MANAGEMENT_PLACEHOLDER, None)
       <==> Remove(ProxyUrl, MaskedLines(ls)) == PrintLines(t, SIDECAR_PLACEHOLDER, MANAGEMENT_PLACEHOLDER, None)
  {
    forall i | 0 <= i < |ls|
      ensures IsLine(MaskedLines(ls)[i])
      ensures ProxyUrl(MaskedLines(ls)[i]).Some? ==> IsLine(ProxyUrl(MaskedLines(ls)[i]).value.1)
    {
      RestIsLine(ls[i]);
      MaskKeepsProxy(ls[i]);
    }
    RemoveKeepsLines(ProxyUrl, MaskedLines(ls));
    PlaceholdersAreClean();
    PrintedAreLines(t, SIDECAR_PLACEHOLDER, MANAGEMENT_PLACEHOLDER, None);
    if JoinLines(Remove(ProxyUrl, MaskedLines(ls))) == Print(t, SIDECAR_PLACEHOLDER, MANAGEMENT_PLACEHOLDER, None) {
      JoinIsInjective(Remove(ProxyUrl, MaskedLines(ls)), PrintLines(t, SIDECAR_PLACEHOLDER, MANAGEMENT_PLACEHOLDER, None));
    }
  }

  lemma UnreadableIsRefused(host: Host, t: Template, k: string, m: string, url: string, runtime: Runtime)
    requires IsPlainTemplate(t) && IsClean(k) && IsClean(m) && IsLine(url) && !IsClean(url)
    ensures !Matches(host, t, Print(t, k, m, Some(url)), runtime)
  {
    var ls := PrintLines(t, k, m, Some(url));
    PrintedAreLines(t, k, m, Some(url));
    LinesOfJoin(ls);
    var masked := MaskedLines(ls);
    forall i | 0 <= i < |ls| && ProxyUrl(masked[i]).Some? ensures Residue(ProxyUrl(masked[i]).value.1) != [] {
      MaskKeepsProxy(ls[i]);
      OnlyProxyLineMatches(t, k, m, url, i);
      UnreadableProxyStays(url);
    }
    RemoveKeepsCount(ProxyUrl, masked);
    SkeletonsAgreeIff(t, ls);
  }

  lemma OnlyProxyLineMatches(t: Template, k: string, m: string, url: string, i: nat)
    requires IsPlainTemplate(t) && IsClean(k) && IsClean(m)
    requires i < |PrintLines(t, k, m, Some(url))| && ProxyUrl(PrintLines(t, k, m, Some(url))[i]).Some?
    ensures PrintLines(t, k, m, Some(url))[i] == Quote(PROXY, url)
  {
    hide Quoted, QuotedPrefix, Quote, IsClean, IsLine;
    ManagementLine(m);
    SidecarLine(k);
  }

  /** A printed text is accepted exactly if its keys are the right ones and its proxy, if any, can be read back unchanged. */
  lemma PrintedMatchesIff(host: Host, t: Template, k: string, m: string, proxy: Option<string>, runtime: Runtime)
    requires IsPlainTemplate(t) && IsClean(k) && IsClean(m) && (proxy.Some? ==> IsLine(proxy.value))
    ensures Matches(host, t, Print(t, k, m, proxy), runtime)
       <==> && k == runtime.sidecarKey && IsStable(host, proxy)
            && (m == runtime.managementKey
                || (("$2a$" <= m || "$2b$" <= m || "$2y$" <= m) && host.bcrypt(runtime.managementKey, m)))
  {
    if proxy.Some? && !IsClean(proxy.value) {
      UnreadableIsRefused(host, t, k, m, proxy.value, runtime);
    } else {
      CleanPrintedMatchesIff(host, t, k, m, proxy, runtime);
    }
  }

  /** An accepted text holds one key of each kind: the Sidecar's own, and the management key or a hash that verifies for it. */
  lemma AcceptedKeys(host: Host, t: Template, content: string, runtime: Runtime)
    requires Matches(host, t, content, runtime)
    ensures FindAll(SidecarKey, Lines(content)) == [runtime.sidecarKey]
    ensures |FindAll(ManagementKey, Lines(content))| == 1
    ensures var m := FindAll(ManagementKey, Lines(content))[0];
            m == runtime.managementKey || (m != [] && m[0] == '$' && host.bcrypt(runtime.managementKey, m))
  {
  }

  /** Whatever else a text says, it is refused if its management key is another's, or is hashed for another's. */
  lemma OtherKeyIsRefused(host: Host, t: Template, content: string, runtime: Runtime, m: string)
    requires m in FindAll(ManagementKey, Lines(content)) && m != runtime.managementKey
    requires !("$2a$" <= m || "$2b$" <= m || "$2y$" <= m) || !host.bcrypt(runtime.managementKey, m)
    ensures !Matches(host, t, content, runtime)
  {
    hide Matches, FindAll, Lines;
    if Matches(host, t, content, runtime) {
      AcceptedKeyMatches(host, t, content, runtime);
    }
  }

  lemma AcceptedKeyMatches(host: Host, t: Template, content: string, runtime: Runtime)
    requires Matches(host, t, content, runtime)
    ensures exists m :: FindAll(ManagementKey, Lines(content)) == [m] && KeyMatches(host, m, runtime.managementKey)
  {
    hide FindAll, Lines, MaskedLines, Remove, Print, NormaliseProxy, KeyMatches;
    assert FindAll(ManagementKey, Lines(content)) == [FindAll(ManagementKey, Lines(content))[0]];
  }

  /** The printed text is accepted with the key itself and with every hash that verifies for it. */
  lemma OwnKeyIsAccepted(host: Host, t: Template, runtime: Runtime, kind: char, rest: string)
    requires IsPlainTemplate(t) && IsClean(runtime.sidecarKey)
    ensures IsClean(runtime.managementKey) ==>
              Matches(host, t, Print(t, runtime.sidecarKey, runtime.managementKey, None), runtime)
    ensures kind in "aby" && IsClean(rest) && host.bcrypt(runtime.managementKey, "$2" + [kind] + "$" + rest) ==>
              Matches(host, t, Print(t, runtime.sidecarKey, "$2" + [kind] + "$" + rest, None), runtime)
  {
    if IsClean(runtime.managementKey) {
      PrintedMatchesIff(host, t, runtime.sidecarKey, runtime.managementKey, None, runtime);
    }
    var m := "$2" + [kind] + "$" + rest;
    if kind in "aby" && IsClean(rest) && host.bcrypt(runtime.managementKey, m) {
      assert m[..4] == "$2" + [kind] + "$";
      PrintedMatchesIff(host, t, runtime.sidecarKey, m, None, runtime);
    }
  }

  lemma UnmaskedLine(line: string, x: string)
    requires IsClean(x)
    ensures Masked(line) == Quote(MANAGEMENT, x) ==> ManagementKey(line).Some?
    ensures Masked(line) == Quote(SIDECAR, x) ==> ManagementKey(line).None? && SidecarKey(line).Some?
    ensures IsPlain(Masked(line)) ==> Masked(line) == line
  {
    ManagementLine(x);
    SidecarLine(x);
    PlaceholdersAreClean();
    ManagementLine(MANAGEMENT_PLACEHOLDER);
    SidecarLine(SIDECAR_PLACEHOLDER);
  }

  /** Lines that mask to the printed placeholders are printed lines themselves. */
  lemma UnmaskedLines(t: Template, ls: seq<string>) returns (k: string, m: string)
    requires IsPlainTemplate(t) && MaskedLines(ls) == PrintLines(t, SIDECAR_PLACEHOLDER, MANAGEMENT_PLACEHOLDER, None)
    ensures IsClean(k) && IsClean(m) && ls == PrintLines(t, k, m, None)
  {
    hide Quoted, Quote, IsPlain, Masked, IsClean, IsLine;
    PlaceholdersAreClean();
    var masked := PrintLines(t, SIDECAR_PLACEHOLDER, MANAGEMENT_PLACEHOLDER, None);
    var i, j := |t.head|, |t.head| + 1 + |t.settings| + |t.keys|;
    assert Masked(ls[i]) == masked[i] == Quote(MANAGEMENT, MANAGEMENT_PLACEHOLDER);
    assert Masked(ls[j]) == masked[j] == Quote(SIDECAR, SIDECAR_PLACEHOLDER);
    UnmaskedLine(ls[i], MANAGEMENT_PLACEHOLDER);
    UnmaskedLine(ls[j], SIDECAR_PLACEHOLDER);
    m, k := ManagementKey(ls[i]).value, SidecarKey(ls[j]).value;
    var printed := PrintLines(t, k, m, None);
    forall n | 0 <= n < |ls| ensures ls[n] == printed[n] {
      if n != i && n != j {
        assert masked[n] == printed[n] && IsPlain(masked[n]) && Masked(ls[n]) == masked[n];
        UnmaskedLine(ls[n], MANAGEMENT_PLACEHOLDER);
      }
    }
  }

  /** Any accepted text without a proxy setting is the printed text for its own management key, to the letter. */
  lemma AcceptedWithoutProxyIsPrinted(host: Host, t: Template, content: string, runtime: Runtime)
    requires IsPlainTemplate(t) && Matches(host, t, content, runtime) && FindAll(ProxyValue, Lines(content)) == []
    ensures content == Print(t, runtime.sidecarKey, FindAll(ManagementKey, Lines(content))[0], None)
    ensures KeyMatches(host, FindAll(ManagementKey, Lines(content))[0], runtime.managementKey)
  {
    hide Quoted, QuotedPrefix, Quote, IsPlain, IsClean, IsLine, PrintLines, KeyMatches;
    var ls := Lines(content);
    PlaceholdersAreClean();
    ManagementLine(MANAGEMENT_PLACEHOLDER);
    SidecarLine(SIDECAR_PLACEHOLDER);
    forall i | 0 <= i < |ls| ensures ProxyUrl(MaskedLines(ls)[i]).None? && IsLine(MaskedLines(ls)[i]) {
      FoundNothing(ProxyValue, ls, i);
    }
    RemovesNothing(ProxyUrl, MaskedLines(ls));
    PrintedAreLines(t, SIDECAR_PLACEHOLDER, MANAGEMENT_PLACEHOLDER, None);
    JoinIsInjective(MaskedLines(ls), PrintLines(t, SIDECAR_PLACEHOLDER, MANAGEMENT_PLACEHOLDER, None));
    var k, m := UnmaskedLines(t, ls);
    PrintedManagement(t, k, m, None);
    PrintedSidecar(t, k, m, None);
    JoinOfLines(content);
  }

  lemma KeyIsFound(host: Host, t: Template, content: string, runtime: Runtime)
    requires Matches(host, t, content, runtime)
    ensures |FindAll(ManagementKey, Lines(content))| == 1
  {
  }

  /* The proxy setting */

  function ReadProxy(host: Host, t: Template, content: string, runtime: Runtime): Result<Option<string>, ConfigError> {
    if !Matches(host, t, content, runtime) then Failure(Mismatch)
    else
      var proxies := FindAll(ProxyValue, Lines(content));
      if proxies == [] then Success(None) else NormaliseProxy(host, Some(proxies[0]))
  }

  function WriteProxy(host: Host, t: Template, content: string, runtime: Runtime, value: Option<string>)
    : Result<string, ConfigError>
  {
    var normal :- NormaliseProxy(host, value);
    if !Matches(host, t, content, runtime) then Failure(Mismatch)
    else Success(Print(t, runtime.sidecarKey, FindAll(ManagementKey, Lines(content))[0], normal))
  }

  /** Writing goes through exactly if the text is accepted and the value, unless it is blank, normalises. */
  lemma WriteSucceedsIff(host: Host, t: Template, content: string, runtime: Runtime, value: Option<string>)
    ensures WriteProxy(host, t, content, runtime, value).Success? <==>
              Matches(host, t, content, runtime)
              && (value.None? || AllSpace(value.value) || host.normalise(value.value).Some?)
    ensures value.None? || AllSpace(value.value) ==> NormaliseProxy(host, value) == Success(None)
    ensures value.Some? && !AllSpace(value.value) && host.normalise(value.value).Some? ==>
              NormaliseProxy(host, value) == Success(host.normalise(value.value))
  {
    hide Matches, Print;
    if value.Some? {
      StripIsEmptyIff(value.value);
    }
  }

  lemma FoundKeysAreClean(host: Host, t: Template, content: string, runtime: Runtime)
    requires Matches(host, t, content, runtime)
    ensures IsClean(FindAll(ManagementKey, Lines(content))[0]) && IsClean(runtime.sidecarKey)
  {
    var i := FoundIsMatch(ManagementKey, Lines(content));
    var j := FoundIsMatch(SidecarKey, Lines(content));
  }

  /**
   What is written is accepted again if and only if the normalised value can be read back unchanged; then it
   keeps the management key and reads back as that value.
   */
  lemma ReadAfterWrite(host: Host, t: Template, content: string, runtime: Runtime, value: Option<string>)
    requires Trusted(host) && IsPlainTemplate(t) && WriteProxy(host, t, content, runtime, value).Success?
    ensures var written := WriteProxy(host, t, content, runtime, value).value;
            && (Matches(host, t, written, runtime) <==> IsStable(host, NormaliseProxy(host, value).value))
            && (Matches(host, t, written, runtime) ==>
                  && ReadProxy(host, t, written, runtime) == NormaliseProxy(host, value)
                  && FindAll(ManagementKey, Lines(written)) == FindAll(ManagementKey, Lines(content)))
  {
    hide Quoted, QuotedPrefix, Quote, IsClean, IsLine, PrintLines, Strip;
    var k, m := runtime.sidecarKey, FindAll(ManagementKey, Lines(content))[0];
    var n := NormaliseProxy(host, value).value;
    FoundKeysAreClean(host, t, content, runtime);
    PrintedMatchesIff(host, t, k, m, n, runtime);
    if IsStable(host, n) {
      PrintedAreLines(t, k, m, n);
      LinesOfJoin(PrintLines(t, k, m, n));
      PrintedManagement(t, k, m, n);
      PrintedProxy(t, k, m, n);
    }
    assert FindAll(ManagementKey, Lines(content)) == [m];
  }

  /** After a value that cannot be read back nothing more can be written; any other is replaced by the next without trace. */
  lemma WriteAfterWrite(
      host: Host, t: Template, content: string, runtime: Runtime, first: Option<string>, second: Option<string>)
    requires Trusted(host) && IsPlainTemplate(t) && WriteProxy(host, t, content, runtime, first).Success?
    ensures var again := WriteProxy(host, t, WriteProxy(host, t, content, runtime, first).value, runtime, second);
            if IsStable(host, NormaliseProxy(host, first).value) then again == WriteProxy(host, t, content, runtime, second)
            else again.Failure?
  {
    ReadAfterWrite(host, t, content, runtime, first);
  }

  /**
   Setting a proxy in an accepted text that has none and clearing it again restores the text, if and only
   if the value can be read back.
   */
  lemma SetThenClearRestores(host: Host, t: Template, content: string, runtime: Runtime, value: Option<string>)
    requires Trusted(host) && IsPlainTemplate(t) && FindAll(ProxyValue, Lines(content)) == []
    requires WriteProxy(host, t, content, runtime, value).Success?
    ensures WriteProxy(host, t, WriteProxy(host, t, content, runtime, value).value, runtime, None) == Success(content)
       <==> IsStable(host, NormaliseProxy(host, value).value)
  {
    WriteAfterWrite(host, t, content, runtime, value, None);
    AcceptedWithoutProxyIsPrinted(host, t, content, runtime);
  }

  const QUOTED_ZONE := "http://[::1%\"x]:8080"

  lemma QuotedZoneIsUnclean()
    ensures !IsClean(QUOTED_ZONE)
  {
    assert QUOTED_ZONE[12] == '"';
  }

  /** A loopback address whose zone holds a quote is a normal form, and once written it locks the configuration. */
  lemma QuotedZoneLocksConfig(host: Host, t: Template, content: string, runtime: Runtime, value: string)
    requires Trusted(host) && IsPlainTemplate(t) && Matches(host, t, content, runtime)
    requires Strip(value) != [] && host.normalise(value) == Some(QUOTED_ZONE)
    ensures WriteProxy(host, t, content, runtime, Some(value)).Success?
    ensures !Matches(host, t, WriteProxy(host, t, content, runtime, Some(value)).value, runtime)
  {
    hide Matches, Strip, Print, QUOTED_ZONE, FindAll, Lines, IsClean;
    QuotedZoneIsUnclean();
    assert NormaliseProxy(host, Some(value)) == Success(Some(QUOTED_ZONE));
    KeyIsFound(host, t, content, runtime);
    ReadAfterWrite(host, t, content, runtime, Some(value));
  }

  /** The first text ever written is accepted. */
  lemma InitialIsAccepted(host: Host, t: Template, runtime: Runtime)
    requires HashVerifies(host) && IsPlainTemplate(t) && IsClean(runtime.sidecarKey)
    ensures Matches(host, t, Print(t, runtime.sidecarKey, host.hash(runtime.managementKey), None), runtime)
  {
    PrintedMatchesIff(host, t, runtime.sidecarKey, host.hash(runtime.managementKey), None, runtime);
  }

  /** How creating a file turns out: made and written, found to have appeared meanwhile, or broken off with whatever is left. */
  datatype Creation = Made | Appeared(text: string) | Broken(left: Option<string>)

  datatype Replacement = Completes | FailsBefore | FailsAfter

  /** The configuration file: its text, or nothing while it does not exist. */
  class ConfigFile {
    const host: Host
    const template: Template
    var content: Option<string>

    constructor (host: Host, template: Template, content: Option<string>)
      ensures this.host == host && this.template == template && this.content == content
    {
      this.host, this.template, this.content := host, template, content;
    }

    /**
     Creates the file, or accepts the one that is there or has appeared meanwhile; `secured` says whether permissions
     can be set.
     */
    method WriteInitial(runtime: Runtime, creation: Creation, secured: bool) returns (r: Result<(), ConfigError>)
      modifies this
      ensures content == match (old(content), creation)
                         case (Some(text), _) => old(content)
                         case (None, Made) => Some(Print(template, runtime.sidecarKey, host.hash(runtime.managementKey), None))
                         case (None, Appeared(text)) => Some(text)
                         case (None, Broken(left)) => left
      ensures r.Success? <==> secured && content.Some? && (old(content).Some? || !creation.Broken?) &&
                              ((old(content).None? && creation.Made?) || Matches(host, template, content.value, runtime))
      ensures r.Success? && HashVerifies(host) && IsPlainTemplate(template) && IsClean(runtime.sidecarKey) ==>
                Matches(host, template, content.value, runtime)
    {
      if content.None? {
        match creation {
          case Made =>
            if HashVerifies(host) && IsPlainTemplate(template) && IsClean(runtime.sidecarKey) {
              InitialIsAccepted(host, template, runtime);
            }
            content := Some(Print(template, runtime.sidecarKey, host.hash(runtime.managementKey), None));
            return if secured then Success(()) else Failure(Unavailable);
          case Broken(left) =>
            content := left;
            return Failure(Unavailable);
          case Appeared(text) =>
            content := Some(text);
        }
      }
      if !secured {
        return Failure(Unavailable);
      }
      r := if Matches(host, template, content.value, runtime) then Success(()) else Failure(Mismatch);
    }

    /** The file is replaced by a rename; `replacement` says how preparing it, or securing it afterwards, turns out. */
    method Write(runtime: Runtime, value: Option<string>, replacement: Replacement) returns (r: Result<bool, ConfigError>)
      modifies this
      ensures old(content).None? ==> r.Failure? && content == None
      ensures old(content).Some? ==>
                match WriteProxy(host, template, old(content).value, runtime, value)
                case Failure(e) => r == Failure(e) && content == old(content)
                case Success(text) =>
                  && content == (if replacement.FailsBefore? then old(content) else Some(text))
                  && (r.Success? <==> replacement.Completes?)
                  && (r.Success? ==> r.value == NormaliseProxy(host, value).value.Some?)
    {
      var normal :- NormaliseProxy(host, value);
      if content.None? {
        return Failure(Unavailable);
      }
      var text :- WriteProxy(host, template, content.value, runtime, value);
      if replacement.FailsBefore? {
        return Failure(Unavailable);
      }
      content := Some(text);
      r := if replacement.Completes? then Success(normal.Some?) else Failure(Unavailable);
    }

    /** The one proxy setting of an accepted file, if it has one. */
    method Read(runtime: Runtime) returns (r: Result<Option<string>, ConfigError>)
      ensures r.Success? <==> content.Some? && Matches(host, template, content.value, runtime)
      ensures r.Success? ==> FindAll(ProxyValue, Lines(content.value)) == if r.value.Some? then [r.value.value] else []
    {
      if content.None? {
        return Failure(Unavailable);
      }
      r := ReadProxy(host, template, content.value, runtime);
    }
  }
}
