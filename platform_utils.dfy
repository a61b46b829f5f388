/**
 * lib/platform-utils.ts: line-break and white-space normalisation, and the
 * ordered operating-system and browser detection over `navigator`. Regular
 * expressions with the `i` flag are case-insensitive substring tests.
 */
module PlatformUtils {
  import opened Wrappers
  import opened Strings

  // Line breaks.

  /** `replace(/\r\n/g, "\n")`: each `\r\n`, scanned left to right, becomes `\n`. */
  function ReplaceCrLf(s: string): string {
    if |s| >= 2 && s[0] == '\r' && s[1] == '\n' then "\n" + ReplaceCrLf(s[2..])
    else if s == [] then []
    else [s[0]] + ReplaceCrLf(s[1..])
  }

  /** `replace(/\r/g, "\n")`: every remaining `\r` becomes `\n`. */
  function ReplaceCr(s: string): string {
    if s == [] then [] else [if s[0] == '\r' then '\n' else s[0]] + ReplaceCr(s[1..])
  }

  /** `normalizeLineBreaks`: the two passes of the source; no `\r` survives them. */
  function NormalizeLineBreaks(text: string): (r: string)
    ensures NoneIn(r, {'\r'})
  {
    ReplaceCrNoCr(ReplaceCrLf(text));
    ReplaceCr(ReplaceCrLf(text))
  }

  /** A one-pass reading of the same job: `\r\n` and a lone `\r` are each one line break. */
  function LineBreaks(text: string): string {
    if text == [] then []
    else if text[0] == '\r' then "\n" + LineBreaks(if |text| >= 2 && text[1] == '\n' then text[2..] else text[1..])
    else [text[0]] + LineBreaks(text[1..])
  }

  lemma {:induction false} ReplaceCrNewline(t: string)
    ensures ReplaceCr("\n" + t) == "\n" + ReplaceCr(t)
  {
    assert ("\n" + t)[1..] == t;
  }

  /** The two passes agree with the one-pass reading. */
  lemma {:induction false} NormalizeIsLineBreaks(text: string)
    ensures NormalizeLineBreaks(text) == LineBreaks(text)
  {
    if text == [] {
    } else if |text| >= 2 && text[0] == '\r' && text[1] == '\n' {
      NormalizeIsLineBreaks(text[2..]);
      ReplaceCrNewline(ReplaceCrLf(text[2..]));
    } else {
      NormalizeIsLineBreaks(text[1..]);
      var t := ReplaceCrLf(text[1..]);
      assert ReplaceCrLf(text) == [text[0]] + t;
      assert ([text[0]] + t)[1..] == t;
    }
  }

  lemma {:induction false} ReplaceCrNoCr(s: string)
    ensures NoneIn(ReplaceCr(s), {'\r'})
    ensures |ReplaceCr(s)| == |s|
  {
    if s != [] {
      ReplaceCrNoCr(s[1..]);
    }
  }

  lemma {:induction false} WithoutCrUnchanged(s: string)
    requires NoneIn(s, {'\r'})
    ensures ReplaceCrLf(s) == s && ReplaceCr(s) == s
  {
    if s != [] {
      assert s[0] != '\r';
      WithoutCrUnchanged(s[1..]);
    }
  }

  /** Text without `\r` is left as it is. */
  lemma {:induction false} NormalizeWithoutCr(text: string)
    requires NoneIn(text, {'\r'})
    ensures NormalizeLineBreaks(text) == text
  {
    WithoutCrUnchanged(text);
  }

  /** Normalising twice is normalising once. */
  lemma {:induction false} NormalizeLineBreaksIdempotent(text: string)
    ensures NormalizeLineBreaks(NormalizeLineBreaks(text)) == NormalizeLineBreaks(text)
  {
    NormalizeWithoutCr(NormalizeLineBreaks(text));
  }

  // White space.

  /** The only white space is a single ` ` between two other characters or at an end. */
  predicate SingleSpaced(s: string) {
    forall i :: 0 <= i < |s| && IsSpace(s[i]) ==> s[i] == ' ' && (i + 1 == |s| || !IsSpace(s[i + 1]))
  }

  /**
   * `normalizeText`: line breaks normalised, runs of white space made one
   * space, then trimmed. The result has no white space at its ends, no line
   * break and no run of white space.
   */
  function NormalizeText(text: string): (r: string)
    ensures IsTrimmed(r)
    ensures SingleSpaced(r)
    ensures NoneIn(r, {'\n', '\r', '\t', '\U{2028}', '\U{2029}'})
  {
    CollapseSingleSpaced(NormalizeLineBreaks(text));
    TrimSingleSpaced(CollapseRuns(NormalizeLineBreaks(text)));
    SingleSpacedNoBreaks(Trim(CollapseRuns(NormalizeLineBreaks(text))));
    Trim(CollapseRuns(NormalizeLineBreaks(text)))
  }

  lemma {:induction false} SingleSpacedJoin(a: string, b: string)
    requires NoSpace(a) && SingleSpaced(b)
    requires b == [] || !IsSpace(b[0])
    ensures SingleSpaced(a + " " + b)
  {
    var s := a + " " + b;
    forall i | 0 <= i < |s| && IsSpace(s[i])
      ensures s[i] == ' ' && (i + 1 == |s| || !IsSpace(s[i + 1]))
    {
      if i == |a| {
        if i + 1 < |s| { assert s[i + 1] == b[0]; }
      } else if i > |a| {
        assert s[i] == b[i - |a| - 1];
        if i + 1 < |s| { assert s[i + 1] == b[i - |a|]; }
      }
    }
  }

  /** A collapsed text is single-spaced, and collapsing keeps the first character when it is not white space. */
  lemma {:induction false} CollapseSingleSpaced(s: string)
    ensures SingleSpaced(CollapseRuns(s))
    ensures s == [] ==> CollapseRuns(s) == []
    ensures s != [] && !IsSpace(s[0]) ==> CollapseRuns(s) != [] && CollapseRuns(s)[0] == s[0]
    decreases |s|
  {
    var i := FirstSpace(s);
    if i < |s| {
      TrimStartShortens(s[i..]);
      var t := TrimStart(s[i..]);
      TrimStartFacts(s[i..]);
      CollapseSingleSpaced(t);
      SingleSpacedJoin(s[..i], CollapseRuns(t));
      if s != [] && !IsSpace(s[0]) {
        assert i > 0;
        assert (s[..i] + " " + CollapseRuns(t))[0] == s[0];
      }
    }
  }

  lemma {:induction false} SingleSpacedSlice(s: string, a: nat, b: nat)
    requires a <= b <= |s| && SingleSpaced(s)
    ensures SingleSpaced(s[a..b])
  {
    var t := s[a..b];
    forall i | 0 <= i < |t| && IsSpace(t[i])
      ensures t[i] == ' ' && (i + 1 == |t| || !IsSpace(t[i + 1]))
    {
      assert t[i] == s[a + i];
      if i + 1 < |t| { assert t[i + 1] == s[a + i + 1]; }
    }
  }

  /** Trimming keeps a text single-spaced: the trimmed text is a slice of it. */
  lemma {:induction false} TrimSingleSpaced(s: string)
    requires SingleSpaced(s)
    ensures SingleSpaced(Trim(s))
  {
    var t := TrimStart(s);
    TrimStartFacts(s);
    TrimEndFacts(t);
    var p := |s| - |t|;
    var r := Trim(s);
    assert r == TrimEnd(t) == t[..|r|];
    forall k | 0 <= k < |r| ensures r[k] == s[p..p + |r|][k] {
      assert r[k] == t[k] == s[p + k];
    }
    assert r == s[p..p + |r|];
    SingleSpacedSlice(s, p, p + |r|);
  }

  /** A single-spaced text holds no white space but ` `. */
  lemma {:induction false} SingleSpacedNoBreaks(r: string)
    requires SingleSpaced(r)
    ensures NoneIn(r, {'\n', '\r', '\t', '\U{2028}', '\U{2029}'})
  {
    forall i | 0 <= i < |r| ensures r[i] !in {'\n', '\r', '\t', '\U{2028}', '\U{2029}'} {
      if IsSpace(r[i]) { assert r[i] == ' '; }
    }
  }

  /** Collapsing leaves a single-spaced text alone. */
  lemma {:induction false} CollapseKeepsSingleSpaced(s: string)
    requires SingleSpaced(s)
    ensures CollapseRuns(s) == s
    decreases |s|
  {
    var i := FirstSpace(s);
    if i < |s| {
      assert s[i] == ' ';
      var u := s[i + 1..];
      assert s[i..][1..] == u;
      assert TrimStart(s[i..]) == TrimStart(u);
      assert TrimStart(u) == u;
      SingleSpacedSlice(s, i + 1, |s|);
      CollapseKeepsSingleSpaced(u);
      assert s[..i] + " " + u == s;
    }
  }

  /** Normalising twice is normalising once. */
  lemma {:induction false} NormalizeTextIdempotent(text: string)
    ensures NormalizeText(NormalizeText(text)) == NormalizeText(text)
  {
    var t := NormalizeText(text);
    NormalizeWithoutCr(t);
    CollapseKeepsSingleSpaced(t);
    TrimTrimmed(t);
  }

  // Detection.

  /** What `window.navigator` offers; `None` when there is no `window` (server-side rendering). */
  datatype Navigator = Navigator(userAgent: string, platform: string)

  datatype OS = Windows | MacOS | Linux | IOS | Android | UnknownOS
  datatype Browser = Chrome | Firefox | Safari | Edge | IE | Opera | UnknownBrowser

  predicate WindowsTest(n: Navigator) { ContainsCI(n.platform, "win") || ContainsCI(n.userAgent, "windows") }
  predicate MacTest(n: Navigator) {
    ContainsCI(n.platform, "mac") || ContainsCI(n.platform, "macintel") || ContainsCI(n.userAgent, "macintosh")
  }
  predicate LinuxTest(n: Navigator) { ContainsCI(n.platform, "linux") }
  predicate IOSTest(n: Navigator) {
    ContainsCI(n.userAgent, "iphone") || ContainsCI(n.userAgent, "ipad") || ContainsCI(n.userAgent, "ipod")
  }
  predicate AndroidTest(n: Navigator) { ContainsCI(n.userAgent, "android") }

  /**
   * `detectOS`: the first test that holds, in the order of the source. Each
   * label is given only with a window whose own test holds.
   */
  function DetectOS(window: Option<Navigator>): (r: OS)
    ensures window.None? ==> r == UnknownOS
    ensures r == Windows ==> window.Some? && WindowsTest(window.value)
    ensures r == MacOS ==> window.Some? && MacTest(window.value) && !WindowsTest(window.value)
    ensures r == Linux ==> window.Some? && LinuxTest(window.value) && !WindowsTest(window.value) && !MacTest(window.value)
    ensures r == IOS ==>
      (window.Some? && IOSTest(window.value)
       && !WindowsTest(window.value) && !MacTest(window.value) && !LinuxTest(window.value))
    ensures r == Android ==>
      (window.Some? && AndroidTest(window.value)
       && !WindowsTest(window.value) && !MacTest(window.value) && !LinuxTest(window.value) && !IOSTest(window.value))
    ensures r == UnknownOS && window.Some? ==>
      (!WindowsTest(window.value) && !MacTest(window.value) && !LinuxTest(window.value)
       && !IOSTest(window.value) && !AndroidTest(window.value))
  {
    if window.None? then UnknownOS
    else
      var n := window.value;
      if WindowsTest(n) then Windows
      else if MacTest(n) then MacOS
      else if LinuxTest(n) then Linux
      else if IOSTest(n) then IOS
      else if AndroidTest(n) then Android
      else UnknownOS
  }

  predicate EdgeTest(ua: string) { ContainsCI(ua, "edg") }
  predicate ChromeTest(ua: string) {
    ContainsCI(ua, "chrome") && !(ContainsCI(ua, "chromium") || ContainsCI(ua, "opr") || ContainsCI(ua, "edg"))
  }
  predicate FirefoxTest(ua: string) { ContainsCI(ua, "firefox") }
  predicate SafariTest(ua: string) {
    ContainsCI(ua, "safari")
    && !(ContainsCI(ua, "chrome") || ContainsCI(ua, "chromium") || ContainsCI(ua, "opr") || ContainsCI(ua, "edg"))
  }
  predicate OperaTest(ua: string) { ContainsCI(ua, "opr") || ContainsCI(ua, "opera") }
  predicate IETest(ua: string) { ContainsCI(ua, "trident") || ContainsCI(ua, "msie") }

  /**
   * `detectBrowser`: the first test that holds, in the order of the source.
   * Each label is given only with a window whose own test holds and where
   * `Edg` is absent unless the label is Edge.
   */
  function DetectBrowser(window: Option<Navigator>): (r: Browser)
    ensures window.None? ==> r == UnknownBrowser
    ensures r == Edge ==> window.Some? && EdgeTest(window.value.userAgent)
    ensures r == Chrome ==> window.Some? && ChromeTest(window.value.userAgent) && !EdgeTest(window.value.userAgent)
    ensures r == Firefox ==>
      (window.Some? && FirefoxTest(window.value.userAgent)
       && !EdgeTest(window.value.userAgent) && !ChromeTest(window.value.userAgent))
    ensures r == Safari ==>
      (window.Some? && SafariTest(window.value.userAgent)
       && !EdgeTest(window.value.userAgent) && !ChromeTest(window.value.userAgent) && !FirefoxTest(window.value.userAgent))
    ensures r == Opera ==>
      (window.Some? && OperaTest(window.value.userAgent)
       && !EdgeTest(window.value.userAgent) && !ChromeTest(window.value.userAgent)
       && !FirefoxTest(window.value.userAgent) && !SafariTest(window.value.userAgent))
    ensures r == IE ==>
      (window.Some? && IETest(window.value.userAgent)
       && !EdgeTest(window.value.userAgent) && !ChromeTest(window.value.userAgent) && !FirefoxTest(window.value.userAgent)
       && !SafariTest(window.value.userAgent) && !OperaTest(window.value.userAgent))
    ensures r == UnknownBrowser && window.Some? ==>
      (!EdgeTest(window.value.userAgent) && !ChromeTest(window.value.userAgent) && !FirefoxTest(window.value.userAgent)
       && !SafariTest(window.value.userAgent) && !OperaTest(window.value.userAgent) && !IETest(window.value.userAgent))
  {
    if window.None? then UnknownBrowser
    else
      var ua := window.value.userAgent;
      if EdgeTest(ua) then Edge
      else if ChromeTest(ua) then Chrome
      else if FirefoxTest(ua) then Firefox
      else if SafariTest(ua) then Safari
      else if OperaTest(ua) then Opera
      else if IETest(ua) then IE
      else UnknownBrowser
  }

  /** Without a window both detectors answer unknown. */
  lemma {:induction false} NoWindowUnknown()
    ensures DetectOS(None) == UnknownOS && DetectBrowser(None) == UnknownBrowser
  {
  }

  /** The operating-system priority: a label is given exactly when its test holds and no earlier one does. */
  lemma {:induction false} OSPriority(n: Navigator)
    ensures DetectOS(Some(n)) == Windows <==> WindowsTest(n)
    ensures DetectOS(Some(n)) == MacOS <==> !WindowsTest(n) && MacTest(n)
    ensures DetectOS(Some(n)) == Linux <==> !WindowsTest(n) && !MacTest(n) && LinuxTest(n)
    ensures DetectOS(Some(n)) == IOS <==> !WindowsTest(n) && !MacTest(n) && !LinuxTest(n) && IOSTest(n)
    ensures DetectOS(Some(n)) == Android <==>
      (!WindowsTest(n) && !MacTest(n) && !LinuxTest(n) && !IOSTest(n) && AndroidTest(n))
    ensures DetectOS(Some(n)) == UnknownOS <==>
      (!WindowsTest(n) && !MacTest(n) && !LinuxTest(n) && !IOSTest(n) && !AndroidTest(n))
  {
  }

  /** The browser priority: a label is given exactly when its test holds and no earlier one does. */
  lemma {:induction false} BrowserPriority(n: Navigator)
    ensures var ua := n.userAgent; DetectBrowser(Some(n)) == Edge <==> EdgeTest(ua)
    ensures var ua := n.userAgent; DetectBrowser(Some(n)) == Chrome <==> !EdgeTest(ua) && ChromeTest(ua)
    ensures var ua := n.userAgent; DetectBrowser(Some(n)) == Firefox <==> !EdgeTest(ua) && !ChromeTest(ua) && FirefoxTest(ua)
    ensures var ua := n.userAgent;
      DetectBrowser(Some(n)) == Safari <==> !EdgeTest(ua) && !ChromeTest(ua) && !FirefoxTest(ua) && SafariTest(ua)
    ensures var ua := n.userAgent;
      DetectBrowser(Some(n)) == Opera <==>
        !EdgeTest(ua) && !ChromeTest(ua) && !FirefoxTest(ua) && !SafariTest(ua) && OperaTest(ua)
    ensures var ua := n.userAgent;
      DetectBrowser(Some(n)) == IE <==>
        !EdgeTest(ua) && !ChromeTest(ua) && !FirefoxTest(ua) && !SafariTest(ua) && !OperaTest(ua) && IETest(ua)
    ensures var ua := n.userAgent;
      DetectBrowser(Some(n)) == UnknownBrowser <==>
        !EdgeTest(ua) && !ChromeTest(ua) && !FirefoxTest(ua) && !SafariTest(ua) && !OperaTest(ua) && !IETest(ua)
  {
  }

  /** A pattern found inside a longer pattern's occurrence is found too. */
  lemma {:induction false} ContainsPrefix(s: string, long: string, short: string)
    requires ContainsCI(s, long) && |short| <= |long| && long[..|short|] == short
    ensures ContainsCI(s, short)
  {
    var l := LowerAsciiAll(s);
    var i :| 0 <= i <= |l| - |long| && OccursAt(l, long, i);
    assert l[i..i + |short|] == l[i..i + |long|][..|short|];
    assert OccursAt(l, short, i);
  }

  /** The `MacIntel` test never decides anything: any platform it matches also matches `Mac`. */
  lemma {:induction false} MacIntelRedundant(n: Navigator)
    ensures MacTest(n) <==> ContainsCI(n.platform, "mac") || ContainsCI(n.userAgent, "macintosh")
  {
    if ContainsCI(n.platform, "macintel") {
      ContainsPrefix(n.platform, "macintel", "mac");
    }
  }

  /** A user agent that mentions Android is classed as Linux when the platform mentions Linux. */
  lemma {:induction false} AndroidNeedsNonLinuxPlatform(n: Navigator)
    requires LinuxTest(n) && !WindowsTest(n) && !MacTest(n)
    ensures DetectOS(Some(n)) == Linux
  {
  }

  /** `Edg` wins over every other browser test. */
  lemma {:induction false} EdgeFirst(n: Navigator)
    ensures DetectBrowser(Some(n)) == Edge <==> ContainsCI(n.userAgent, "edg")
  {
  }

  /** Chrome is reported only for a user agent naming Chrome but not Chromium, OPR or Edg. */
  lemma {:induction false} ChromeExclusions(n: Navigator)
    ensures DetectBrowser(Some(n)) == Chrome <==>
      (ContainsCI(n.userAgent, "chrome") && !ContainsCI(n.userAgent, "chromium")
       && !ContainsCI(n.userAgent, "opr") && !ContainsCI(n.userAgent, "edg"))
  {
  }

  /** Safari is reported only for a user agent naming Safari but none of Chrome, Chromium, OPR, Edg or Firefox. */
  lemma {:induction false} SafariExclusions(n: Navigator)
    ensures DetectBrowser(Some(n)) == Safari ==>
      (ContainsCI(n.userAgent, "safari") && !ContainsCI(n.userAgent, "chrome") && !ContainsCI(n.userAgent, "chromium")
       && !ContainsCI(n.userAgent, "opr") && !ContainsCI(n.userAgent, "edg") && !ContainsCI(n.userAgent, "firefox"))
  {
  }

  /**
   * Opera is reported for `OPR` or `Opera` only when Edge, Chrome, Firefox and
   * Safari did not match; a user agent with `OPR` and without `Edg` or
   * `Firefox` is always Opera, whatever Chrome or Safari it also names.
   */
  lemma {:induction false} OperaAfterOthers(n: Navigator)
    ensures DetectBrowser(Some(n)) == Opera ==>
      ((ContainsCI(n.userAgent, "opr") || ContainsCI(n.userAgent, "opera")) && !ContainsCI(n.userAgent, "edg")
       && !ContainsCI(n.userAgent, "firefox") && !ChromeTest(n.userAgent) && !SafariTest(n.userAgent))
    ensures ContainsCI(n.userAgent, "opr") && !ContainsCI(n.userAgent, "edg") && !ContainsCI(n.userAgent, "firefox") ==>
      (DetectBrowser(Some(n)) == Opera)
  {
  }
}
