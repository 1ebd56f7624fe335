/**
 * `parse_css`: every line of the beautified stylesheet that holds `url(` has
 * its first URL replaced by `../assets/<digest>` and the resource recorded,
 * unless the URL is a `data:` URL. The per-line rule is `RewriteLine`, the
 * whole-text result is `CssText`/`CssResources`, and `ParseCss` is the loop.
 */
module Css {
  import opened Wrappers
  import opened PyStr
  import Digest

  /** A resource to fetch: where from and where to store it in the ZIM. */
  datatype Resource = Resource(url: string, path: string)

  /**
   * What `parse_css` finds on one line: nothing to do (no `url(`, or a
   * `data:` URL), the URL with the text before and after it, or an exception.
   */
  datatype LineOutcome = Copied | Found(head: string, url: string, tail: string) | Raised

  datatype CssError = LineRaised(line: string)

  datatype ParsedCss = ParsedCss(css: string, resources: seq<Resource>)

  const Pattern: string := "url("

  /** Where a CSS resource is stored: `assets/<digest of its URL>`. */
  function AssetPath(url: string): (r: string)
    ensures StartsWith(r, "assets/") && |r| > 7
    ensures '\n' !in r
  {
    var d := Digest.GetDigest(url);
    assert forall k :: 0 <= k < |d| ==> '0' <= d[k] <= '9';
    "assets/" + d
  }

  /**
   * One line of `parse_css`. `line.index(")")` (the first `)` anywhere on the
   * line) raises when there is none, and `line[start + 1]` raises when fewer
   * than two characters follow the first `url(` (`url()` is such a line). The quote test looks at the character after the
   * URL's first one, so `url('a')` keeps its quotes.
   */
  function RewriteLine(line: string): (r: LineOutcome)
    ensures !Contains(line, Pattern) ==> r == Copied
    ensures Contains(line, Pattern) && !Contains(line, ")") ==> r == Raised
    ensures r.Found? ==> !StartsWith(r.url, "data:")
  {
    match Find(line, Pattern)
    case None => Copied
    case Some(i) =>
      match Find(line, ")")
      case None => Raised
      case Some(close) =>
        var start := i + |Pattern|;
        if start + 1 >= |line| then Raised
        else
          var quoted := line[start + 1] == '\'' || line[start + 1] == '"';
          var s: int := if quoted then start + 1 else start;
          var e: int := if quoted then close - 1 else close;
          var url := Slice(line, s, e);
          if StartsWith(url, "data:") then Copied
          else Found(Slice(line, 0, s), url, Slice(line, e, |line|))
  }

  /** Around a found URL the text of the line is kept: the head is a prefix of it, the tail a suffix. */
  lemma RewriteLineKeeps(line: string)
    ensures RewriteLine(line).Found? ==> StartsWith(line, RewriteLine(line).head) && EndsWith(line, RewriteLine(line).tail)
  {
    var o := RewriteLine(line);
    if o.Found? {
      var i: int, close: int := Find(line, Pattern).value, Find(line, ")").value;
      var start := i + |Pattern|;
      var quoted := line[start + 1] == '\'' || line[start + 1] == '"';
      var s: int := if quoted then start + 1 else start;
      var e: int := if quoted then close - 1 else close;
      assert o == Found(Slice(line, 0, s), Slice(line, s, e), Slice(line, e, |line|));
      SliceHead(line, s);
      SliceTail(line, e);
    }
  }

  /**
   * When head and tail do not overlap, the line is exactly head, URL and
   * tail. When they overlap (a `)` before the `url(`) the URL is empty.
   */
  lemma RewriteLineJoins(line: string)
    ensures RewriteLine(line).Found? && |RewriteLine(line).head| + |RewriteLine(line).tail| <= |line| ==>
      RewriteLine(line).head + RewriteLine(line).url + RewriteLine(line).tail == line
    ensures RewriteLine(line).Found? && |RewriteLine(line).head| + |RewriteLine(line).tail| > |line| ==>
      RewriteLine(line).url == ""
  {
    var o := RewriteLine(line);
    if o.Found? {
      var i: int, close: int := Find(line, Pattern).value, Find(line, ")").value;
      var start := i + |Pattern|;
      var quoted := line[start + 1] == '\'' || line[start + 1] == '"';
      var s: int := if quoted then start + 1 else start;
      var e: int := if quoted then close - 1 else close;
      assert o == Found(Slice(line, 0, s), Slice(line, s, e), Slice(line, e, |line|));
      SliceJoin(line, s, e);
    }
  }

  /** The text written for `line` given what was found on it: the URL replaced by `../` and its asset path. */
  function Rendered(line: string, o: LineOutcome): string {
    match o
    case Found(head, url, tail) => head + "../" + AssetPath(url) + tail
    case _ => line
  }

  /** The resources recorded given what was found on a line (none or one). */
  function Recorded(o: LineOutcome): seq<Resource> {
    match o
    case Found(_, url, _) => [Resource(url, AssetPath(url))]
    case _ => []
  }

  /** The text a line contributes before its newline. */
  function LineText(line: string): string {
    Rendered(line, RewriteLine(line))
  }

  /** A line without a newline is rewritten into one without a newline. */
  lemma LineTextNoNewline(line: string)
    requires '\n' !in line
    ensures '\n' !in LineText(line)
  {
    var o := RewriteLine(line);
    if o.Found? {
      RewriteLineKeeps(line);
      assert o.head == line[..|o.head|];
      assert o.tail == line[|line| - |o.tail|..];
      assert LineText(line) == o.head + "../" + AssetPath(o.url) + o.tail;
    }
  }

  /** The resources a line contributes. */
  function LineResources(line: string): seq<Resource> {
    Recorded(RewriteLine(line))
  }

  predicate SomeRaised(outcomes: seq<LineOutcome>) {
    exists k :: 0 <= k < |outcomes| && outcomes[k].Raised?
  }

  /** Some line of `lines` raises. */
  predicate AnyRaised(lines: seq<string>) {
    SomeRaised(MapLines(lines, RewriteLine))
  }

  /** Texts each followed by a newline, as successive `write` calls produce them. */
  function Terminated(texts: seq<string>): string {
    if |texts| == 0 then "" else Terminated(texts[..|texts| - 1]) + texts[|texts| - 1] + "\n"
  }

  function Flatten(groups: seq<seq<Resource>>): seq<Resource> {
    if |groups| == 0 then [] else Flatten(groups[..|groups| - 1]) + groups[|groups| - 1]
  }

  /** `f` applied to every line. */
  function MapLines<T>(lines: seq<string>, f: string -> T): (r: seq<T>)
    ensures |r| == |lines|
    ensures forall k :: 0 <= k < |lines| ==> r[k] == f(lines[k])
  {
    seq(|lines|, k requires 0 <= k < |lines| => f(lines[k]))
  }

  /** `output` after the given lines: empty for no line, else ending with the last line's newline. */
  function CssText(lines: seq<string>): (r: string)
    ensures lines == [] <==> r == ""
    ensures lines != [] ==> EndsWith(r, "\n")
  {
    Terminated(MapLines(lines, LineText))
  }

  /**
   * `resources` after the given lines, in line order. Every recorded resource
   * is stored under `assets/` at its URL's digest, and none is a `data:` URL.
   */
  function CssResources(lines: seq<string>): (r: seq<Resource>)
    ensures forall k :: 0 <= k < |r| ==> r[k].path == AssetPath(r[k].url) && !StartsWith(r[k].url, "data:")
  {
    var groups: seq<seq<Resource>> := MapLines(lines, LineResources);
    FlattenPaths(groups);
    Flatten(groups)
  }

  lemma MapLinesSnoc<T>(lines: seq<string>, n: nat, f: string -> T)
    requires n < |lines|
    ensures MapLines(lines[..n + 1], f) == MapLines(lines[..n], f) + [f(lines[n])]
  {
  }

  lemma MapLinesAppend<T>(a: seq<string>, b: seq<string>, f: string -> T)
    ensures MapLines(a + b, f) == MapLines(a, f) + MapLines(b, f)
  {
  }

  /**
   * `parse_css(style)` with the beautifier given as a parameter. It fails
   * exactly when some line raises; otherwise it returns the folds above over
   * the beautified text's lines.
   */
  method ParseCss(beautify: string -> string, style: string) returns (r: Result<ParsedCss, CssError>)
    ensures r.Err? <==> AnyRaised(Split(beautify(style), '\n'))
    ensures r.Ok? ==> r.value.css == CssText(Split(beautify(style), '\n'))
    ensures r.Ok? ==> r.value.resources == CssResources(Split(beautify(style), '\n'))
  {
    var lines := Split(beautify(style), '\n');
    var output := "";
    var resources: seq<Resource> := [];
    var n := 0;
    while n < |lines|
      invariant 0 <= n <= |lines|
      invariant output == CssText(lines[..n])
      invariant resources == CssResources(lines[..n])
      invariant !AnyRaised(lines[..n])
    {
      var line := lines[n];
      var outcome := RewriteCssLine(line);
      CssStep(lines, n, outcome);
      match outcome {
        case Copied =>
          output := output + line + "\n";
        case Found(head, url, tail) =>
          var path := AssetPath(url);
          resources := resources + [Resource(url, path)];
          output := output + (head + "../" + path + tail) + "\n";
        case Raised =>
          return Err(LineRaised(line));
      }
      n := n + 1;
    }
    assert lines[..n] == lines;
    return Ok(ParsedCss(output, resources));
  }

  /**
   * The body of `parse_css`'s loop for one line, as the loop runs it: `start`
   * and `end` are computed, then moved by one when the URL is quoted.
   * `ParseCss` calls this method, and `RewriteLine` is its specification,
   * the function the lemmas about a line's outcome are stated on.
   */
  method RewriteCssLine(line: string) returns (r: LineOutcome)
    ensures r == RewriteLine(line)
  {
    var i := Find(line, Pattern);
    if i.None? {
      return Copied;
    }
    var close := Find(line, ")");
    if close.None? {
      return Raised;
    }
    var start: int := i.value + |Pattern|;
    var end: int := close.value;
    if start + 1 >= |line| {
      return Raised;
    }
    if line[start + 1] == '\'' || line[start + 1] == '"' {
      start := start + 1;
      end := end - 1;
    }
    var url := Slice(line, start, end);
    if StartsWith(url, "data:") {
      return Copied;
    }
    return Found(Slice(line, 0, start), url, Slice(line, end, |line|));
  }

  lemma SomeRaisedSnoc(outcomes: seq<LineOutcome>, o: LineOutcome)
    ensures SomeRaised(outcomes + [o]) <==> SomeRaised(outcomes) || o.Raised?
  {
    if SomeRaised(outcomes) {
      var k :| 0 <= k < |outcomes| && outcomes[k].Raised?;
      assert (outcomes + [o])[k] == outcomes[k];
    }
    if o.Raised? {
      assert (outcomes + [o])[|outcomes|] == o;
    }
  }

  /** One more line: its text and resources are appended, and whether it raised decides whether any has. */
  lemma CssStep(lines: seq<string>, n: nat, o: LineOutcome)
    requires n < |lines| && o == RewriteLine(lines[n])
    ensures CssText(lines[..n + 1]) == CssText(lines[..n]) + Rendered(lines[n], o) + "\n"
    ensures CssResources(lines[..n + 1]) == CssResources(lines[..n]) + Recorded(o)
    ensures !AnyRaised(lines[..n]) ==> (!o.Raised? <==> !AnyRaised(lines[..n + 1]))
    ensures o.Raised? ==> AnyRaised(lines)
  {
    MapLinesSnoc(lines, n, LineText);
    MapLinesSnoc(lines, n, LineResources);
    var t := MapLines(lines[..n + 1], LineText);
    assert t[..|t| - 1] == MapLines(lines[..n], LineText);
    var g := MapLines(lines[..n + 1], LineResources);
    assert g[..|g| - 1] == MapLines(lines[..n], LineResources);
    MapLinesSnoc(lines, n, RewriteLine);
    SomeRaisedSnoc(MapLines(lines[..n], RewriteLine), o);
    if o.Raised? {
      assert MapLines(lines, RewriteLine)[n].Raised?;
    }
  }

  lemma {:induction false} TerminatedAppend(a: seq<string>, b: seq<string>)
    ensures Terminated(a + b) == Terminated(a) + Terminated(b)
    decreases |b|
  {
    if |b| > 0 {
      var b' := b[..|b| - 1];
      var x := b[|b| - 1];
      assert (a + b)[..|a + b| - 1] == a + b';
      assert (a + b)[|a + b| - 1] == x;
      TerminatedAppend(a, b');
      calc {
        Terminated(a + b);
        Terminated(a + b') + x + "\n";
        Terminated(a) + Terminated(b') + x + "\n";
        Terminated(a) + (Terminated(b') + x + "\n");
      }    } else {
      assert a + b == a;
    }
  }

  lemma {:induction false} FlattenAppend(a: seq<seq<Resource>>, b: seq<seq<Resource>>)
    ensures Flatten(a + b) == Flatten(a) + Flatten(b)
    decreases |b|
  {
    if |b| > 0 {
      var b' := b[..|b| - 1];
      var x := b[|b| - 1];
      assert (a + b)[..|a + b| - 1] == a + b';
      assert (a + b)[|a + b| - 1] == x;
      FlattenAppend(a, b');
      calc {
        Flatten(a + b);
        Flatten(a + b') + x;
        Flatten(a) + Flatten(b') + x;
        Flatten(a) + (Flatten(b') + x);
      }    } else {
      assert a + b == a;
    }
  }

  /** The output over a concatenation of line sequences is the concatenation of the outputs. */
  lemma CssAppend(a: seq<string>, b: seq<string>)
    ensures CssText(a + b) == CssText(a) + CssText(b)
    ensures CssResources(a + b) == CssResources(a) + CssResources(b)
  {
    MapLinesAppend(a, b, LineText);
    MapLinesAppend(a, b, LineResources);
    TerminatedAppend(MapLines(a, LineText), MapLines(b, LineText));
    FlattenAppend(MapLines(a, LineResources), MapLines(b, LineResources));
  }

  lemma SplitAfter(x: string, y: string)
    requires '\n' !in x
    ensures Split(x + "\n" + y, '\n') == [x] + Split(y, '\n')
  {
    var s := x + "\n" + y;
    assert s[|x|] == '\n';
    var i := IndexOfChar(s, '\n');
    assert i <= |x|;
    assert i >= |x| by {
      assert forall k :: 0 <= k < |x| ==> s[k] == x[k];
    }
    assert s[..i] == x;
    assert s[i + 1..] == y;
  }

  lemma {:induction false} TerminatedLines(texts: seq<string>)
    requires forall k :: 0 <= k < |texts| ==> '\n' !in texts[k]
    ensures Split(Terminated(texts), '\n') == texts + [""]
  {
    if |texts| > 0 {
      var rest := texts[1..];
      assert texts == [texts[0]] + rest;
      TerminatedAppend([texts[0]], rest);
      assert [texts[0]][..0] == [];
      assert Terminated([texts[0]]) == texts[0] + "\n";
      TerminatedLines(rest);
      SplitAfter(texts[0], Terminated(rest));
    }
  }

  /**
   * Line structure is preserved: splitting the output on newlines gives back
   * exactly one (transformed) line per input line, in order, followed by the
   * empty remainder after the final newline.
   */
  lemma CssTextLines(lines: seq<string>)
    requires forall k :: 0 <= k < |lines| ==> '\n' !in lines[k]
    ensures Split(CssText(lines), '\n') == MapLines(lines, LineText) + [""]
  {
    forall k | 0 <= k < |lines|
      ensures '\n' !in MapLines(lines, LineText)[k]
    {
      LineTextNoNewline(lines[k]);
    }
    TerminatedLines(MapLines(lines, LineText));
  }

  /** The lines of a split beautified text carry no newline, so the lemma above applies to `ParseCss`. */
  lemma ParsedLines(text: string)
    ensures Split(CssText(Split(text, '\n')), '\n') == MapLines(Split(text, '\n'), LineText) + [""]
  {
    CssTextLines(Split(text, '\n'));
  }

  lemma {:induction false} FlattenPaths(groups: seq<seq<Resource>>)
    requires forall g, k :: 0 <= g < |groups| && 0 <= k < |groups[g]| ==>
      groups[g][k].path == AssetPath(groups[g][k].url) && !StartsWith(groups[g][k].url, "data:")
    ensures forall k :: 0 <= k < |Flatten(groups)| ==>
      Flatten(groups)[k].path == AssetPath(Flatten(groups)[k].url) && !StartsWith(Flatten(groups)[k].url, "data:")
  {
    if |groups| > 0 {
      FlattenPaths(groups[..|groups| - 1]);
    }
  }

  lemma {:induction false} JoinSnoc(parts: seq<string>, last: string)
    requires |parts| > 0
    ensures Join(parts + [last], '\n') == Join(parts, '\n') + "\n" + last
    decreases |parts|
  {
    if |parts| > 1 {
      assert (parts + [last])[1..] == parts[1..] + [last];
      JoinSnoc(parts[1..], last);
    }
  }

  lemma {:induction false} TerminatedJoin(texts: seq<string>)
    ensures Terminated(texts) == if texts == [] then "" else Join(texts, '\n') + "\n"
  {
    if |texts| > 1 {
      TerminatedJoin(texts[..|texts| - 1]);
      JoinSnoc(texts[..|texts| - 1], texts[|texts| - 1]);
      assert texts[..|texts| - 1] + [texts[|texts| - 1]] == texts;
    }
  }

  lemma {:induction false} FlattenEmpty(groups: seq<seq<Resource>>)
    requires forall g :: 0 <= g < |groups| ==> groups[g] == []
    ensures Flatten(groups) == []
  {
    if |groups| > 0 {
      FlattenEmpty(groups[..|groups| - 1]);
    }
  }

  /** A stylesheet without any `url(` comes out as its lines re-joined, with a final newline, and records nothing. */
  lemma CssWithoutUrls(lines: seq<string>)
    requires |lines| > 0
    requires forall k :: 0 <= k < |lines| ==> !Contains(lines[k], Pattern)
    ensures CssResources(lines) == []
    ensures CssText(lines) == Join(lines, '\n') + "\n"
  {
    forall k | 0 <= k < |lines|
      ensures MapLines(lines, LineText)[k] == lines[k] && MapLines(lines, LineResources)[k] == []
    {
      assert RewriteLine(lines[k]).Copied?;
    }
    assert MapLines(lines, LineText) == lines;
    TerminatedJoin(lines);
    FlattenEmpty(MapLines(lines, LineResources));
  }

  /** Where `url(` and the closing `)` are found in a plain line. */
  lemma FindPlain(pre: string, u: string, post: string)
    requires '(' !in pre && ')' !in pre && ')' !in u
    ensures Find(pre + Pattern + u + ")" + post, Pattern) == Some(|pre|)
    ensures Find(pre + Pattern + u + ")" + post, ")") == Some(|pre| + 4 + |u|)
  {
    var line := pre + Pattern + u + ")" + post;
    var i := |pre|;
    assert OccursAt(line, Pattern, i) by { assert line[i..i + 4] == Pattern; }
    forall j | 0 <= j < i
      ensures !OccursAt(line, Pattern, j)
    {
      assert line[j + 3] != '(' by {
        if j + 3 < |pre| { assert line[j + 3] == pre[j + 3]; } else { assert line[j + 3] == Pattern[j + 3 - |pre|]; }
      }
      assert line[j..j + 4][3] == line[j + 3];
    }
    var close := |pre| + 4 + |u|;
    assert OccursAt(line, ")", close) by { assert line[close..close + 1] == ")"; }
    forall j | 0 <= j < close
      ensures !OccursAt(line, ")", j)
    {
      assert line[j] != ')' by {
        if j < |pre| { assert line[j] == pre[j]; }
        else if j < |pre| + 4 { assert line[j] == Pattern[j - |pre|]; }
        else { assert line[j] == u[j - |pre| - 4]; }
      }
      assert line[j..j + 1][0] == line[j];
    }
  }

  /**
   * A plain `url(u)` (no `(` before it, no `)` before its end, and the second
   * character of `u` not a quote) is found with the text around it.
   */
  lemma RewriteLinePlain(pre: string, u: string, post: string)
    requires '(' !in pre && ')' !in pre && ')' !in u
    requires |u| >= 2 && u[1] != '\'' && u[1] != '"'
    ensures !StartsWith(u, "data:") ==> RewriteLine(pre + Pattern + u + ")" + post) == Found(pre + Pattern, u, ")" + post)
    ensures StartsWith(u, "data:") ==> RewriteLine(pre + Pattern + u + ")" + post) == Copied
  {
    var line := pre + Pattern + u + ")" + post;
    var i, close := |pre|, |pre| + 4 + |u|;
    assert Find(line, Pattern) == Some(i) && Find(line, ")") == Some(close) by {
      FindPlain(pre, u, post);
    }
    assert i + 5 < |line| && line[i + 5] == u[1] &&
      pre + Pattern == Slice(line, 0, i + 4) && u == Slice(line, i + 4, close) && ")" + post == Slice(line, close, |line|) by {
      SlicesPlain(pre, u, post);
    }
    UnquotedAt(line, i, close, pre + Pattern, u, ")" + post);
  }

  /** The pieces of a plain line that `RewriteLine` cuts out. */
  lemma SlicesPlain(pre: string, u: string, post: string)
    requires |u| >= 2
    ensures var line := pre + Pattern + u + ")" + post;
      |pre| + 5 < |line| && line[|pre| + 5] == u[1]
      && Slice(line, |pre| + 4, |pre| + 4 + |u|) == u
      && Slice(line, 0, |pre| + 4) == pre + Pattern
      && Slice(line, |pre| + 4 + |u|, |line|) == ")" + post
  {
    var line := pre + Pattern + u + ")" + post;
    var close := |pre| + 4 + |u|;
    assert line[..close] == pre + Pattern + u;
    assert line[|pre| + 4..close] == u;
    assert line[close..] == ")" + post;
  }

  /** So a plain `url(u)` becomes `url(../assets/<digest of u>)`, the rest of the line kept. */
  lemma LineTextPlain(pre: string, u: string, post: string)
    requires '(' !in pre && ')' !in pre && ')' !in u
    requires |u| >= 2 && u[1] != '\'' && u[1] != '"'
    requires !StartsWith(u, "data:")
    ensures LineText(pre + Pattern + u + ")" + post) == pre + "url(../" + AssetPath(u) + ")" + post
    ensures LineResources(pre + Pattern + u + ")" + post) == [Resource(u, AssetPath(u))]
  {
    RewriteLinePlain(pre, u, post);
    RenderedPlain(pre, AssetPath(u), post);
  }

  lemma RenderedPlain(pre: string, path: string, post: string)
    ensures pre + Pattern + "../" + path + (")" + post) == pre + "url(../" + path + ")" + post
  {
  }

  /** `url('a.png')`: the quote test misses the opening quote, so the quotes stay part of the URL. */
  lemma QuotesKept()
    ensures RewriteLine("url('a.png')") == Found("url(", "'a.png'", ")")
  {
    var u := "'a.png'";
    assert ')' !in u && u[1] == 'a';
    assert !StartsWith(u, "data:") by { assert u[0] != "data:"[0]; }
    assert "url('a.png')" == "" + Pattern + u + ")" + "";
    RewriteLinePlain("", u, "");
    assert "" + Pattern == "url(" && ")" + "" == ")";
  }

  /** `RewriteLine` with `url(` first at `i`, the first `)` at `close`, and the URL's second character a quote. */
  lemma QuotedAt(line: string, i: nat, close: nat, head: string, url: string, tail: string)
    requires Find(line, Pattern) == Some(i) && Find(line, ")") == Some(close)
    requires i + 5 < |line| && (line[i + 5] == '\'' || line[i + 5] == '"')
    requires head == Slice(line, 0, i + 5) && url == Slice(line, i + 5, close - 1) && tail == Slice(line, close - 1, |line|)
    ensures !StartsWith(url, "data:") ==> RewriteLine(line) == Found(head, url, tail)
  {
    assert |Pattern| == 4;
  }

  /** `RewriteLine` with `url(` first at `i`, the first `)` at `close`, and the URL's second character not a quote. */
  lemma UnquotedAt(line: string, i: nat, close: nat, head: string, url: string, tail: string)
    requires Find(line, Pattern) == Some(i) && Find(line, ")") == Some(close)
    requires i + 5 < |line| && line[i + 5] != '\'' && line[i + 5] != '"'
    requires head == Slice(line, 0, i + 4) && url == Slice(line, i + 4, close) && tail == Slice(line, close, |line|)
    ensures !StartsWith(url, "data:") ==> RewriteLine(line) == Found(head, url, tail)
    ensures StartsWith(url, "data:") ==> RewriteLine(line) == Copied
  {
    assert |Pattern| == 4;
  }

  /** The pieces `RewriteLine` cuts from a line with a quote after the character that follows `url(`. */
  lemma SlicesQuoted(pre: string, c: char, q: char, w: string, d: char, post: string)
    ensures var line := pre + Pattern + [c, q] + w + [d] + ")" + post;
      line[|pre| + 5] == q &&
      Slice(line, 0, |pre| + 5) == pre + Pattern + [c] &&
      Slice(line, |pre| + 5, |pre| + 7 + |w| - 1) == [q] + w &&
      Slice(line, |pre| + 7 + |w| - 1, |line|) == [d] + ")" + post
  {
    var line := pre + Pattern + [c, q] + w + [d] + ")" + post;
    var s, e := |pre| + 5, |pre| + 6 + |w|;
    assert line[s..e] == [q] + w;
    assert line[..s] == pre + Pattern + [c];
    assert line[e..] == [d] + ")" + post;
  }

  /**
   * The quote-trimming branch: when the character after the one that follows
   * `url(` is a quote, the URL starts one character later and ends one
   * character before the `)`. It keeps that quote and loses the character
   * before the `)`.
   */
  lemma RewriteLineQuoted(pre: string, c: char, q: char, w: string, d: char, post: string)
    requires '(' !in pre && ')' !in pre && ')' !in w && c != ')' && d != ')'
    requires q == '\'' || q == '"'
    ensures RewriteLine(pre + Pattern + [c, q] + w + [d] + ")" + post) == Found(pre + Pattern + [c], [q] + w, [d] + ")" + post)
  {
    var line := pre + Pattern + [c, q] + w + [d] + ")" + post;
    var head, url, tail := pre + Pattern + [c], [q] + w, [d] + ")" + post;
    var i, close := |pre|, |pre| + 7 + |w|;
    assert !StartsWith(url, "data:") by { assert url[0] != "data:"[0]; }
    assert Find(line, Pattern) == Some(i) && Find(line, ")") == Some(close) by {
      var u := [c, q] + w + [d];
      assert line == pre + Pattern + u + ")" + post;
      assert ')' !in u;
      FindPlain(pre, u, post);
    }
    assert i + 5 < |line| && line[i + 5] == q &&
      head == Slice(line, 0, i + 5) && url == Slice(line, i + 5, close - 1) && tail == Slice(line, close - 1, |line|) by {
      SlicesQuoted(pre, c, q, w, d, post);
    }
    QuotedAt(line, i, close, head, url, tail);
  }

  /** `url( 'a')`: the space after `url(` stays in the head; the closing quote goes to the tail, the opening one stays in the URL. */
  lemma QuoteTrimmed()
    ensures RewriteLine("url( 'a')") == Found("url( ", "'a", "')")
  {
    var w := "a";
    assert "url( 'a')" == "" + Pattern + [' ', '\''] + w + ['\''] + ")" + "";
    RewriteLineQuoted("", ' ', '\'', w, '\'', "");
    assert "" + Pattern + [' '] == "url( ";
    assert ['\''] + w == "'a";
    assert ['\''] + ")" + "" == "')";
  }

  /**
   * At most one character after the first `url(`: `line[start + 1]` is out of
   * range, so the line raises even when it has a `)`.
   */
  lemma UrlAtEndRaises(pre: string, rest: string)
    requires 'u' !in pre && |rest| <= 1
    requires Contains(pre + Pattern + rest, ")")
    ensures RewriteLine(pre + Pattern + rest) == Raised
  {
    var line := pre + Pattern + rest;
    var i := |pre|;
    assert OccursAt(line, Pattern, i) by { assert line[i..i + 4] == Pattern; }
    forall j | 0 <= j < i
      ensures !OccursAt(line, Pattern, j)
    {
      assert line[j] == pre[j];
      assert line[j..j + 4][0] == line[j];
    }
    assert Find(line, Pattern) == Some(i);
  }

  /** `url()`: the `)` is found, but there is no character after it to test for a quote. */
  lemma EmptyUrlRaises()
    ensures RewriteLine("url()") == Raised
  {
    assert "url()" == "" + Pattern + ")";
    assert OccursAt("url()", ")", 4) by { assert "url()"[4..5] == ")"; }
    UrlAtEndRaises("", ")");
  }

  /** Where `Find` stops on a line with a `)` before its first `url(`. */
  lemma FindCloseFirst(a: string, b: string, rest: string)
    requires ')' !in a && 'u' !in a && 'u' !in b
    ensures Find(a + ")" + b + Pattern + rest, Pattern) == Some(|a| + 1 + |b|)
    ensures Find(a + ")" + b + Pattern + rest, ")") == Some(|a|)
  {
    var line := a + ")" + b + Pattern + rest;
    var i := |a| + 1 + |b|;
    assert OccursAt(line, Pattern, i) by { assert line[i..i + 4] == Pattern; }
    forall j | 0 <= j < i
      ensures !OccursAt(line, Pattern, j)
    {
      assert line[j] != 'u' by {
        if j < |a| { assert line[j] == a[j]; }
        else if j > |a| { assert line[j] == b[j - |a| - 1]; }
      }
      assert line[j..j + 4][0] == line[j];
    }
    var close := |a|;
    assert OccursAt(line, ")", close) by { assert line[close..close + 1] == ")"; }
    forall j | 0 <= j < close
      ensures !OccursAt(line, ")", j)
    {
      assert line[j] == a[j];
      assert line[j..j + 1][0] == line[j];
    }
  }

  /** The pieces of such a line that `RewriteLine` cuts out. */
  lemma SlicesCloseFirst(a: string, b: string, rest: string)
    requires |rest| >= 2
    ensures var line := a + ")" + b + Pattern + rest;
      line[|a| + 6 + |b|] == rest[1] &&
      Slice(line, |a| + 5 + |b|, |a|) == "" &&
      Slice(line, 0, |a| + 5 + |b|) == a + ")" + b + Pattern &&
      Slice(line, |a|, |line|) == ")" + b + Pattern + rest
  {
    var line := a + ")" + b + Pattern + rest;
    assert line[..|a| + 5 + |b|] == a + ")" + b + Pattern;
    assert line[|a|..] == ")" + b + Pattern + rest;
  }

  /**
   * A `)` earlier on the line than the first `url(`: the end of the URL is
   * taken from that `)`, before its start, so the URL is empty and the tail
   * repeats the text from the `)` on. An `@font-face` source list `local(a) url(b)` is such a line,
   * with `a` = `local(a`, `b` = a space and `rest` = `b)`.
   */
  lemma RewriteLineCloseFirst(a: string, b: string, rest: string)
    requires ')' !in a && 'u' !in a && 'u' !in b
    requires |rest| >= 2 && rest[1] != '\'' && rest[1] != '"'
    ensures RewriteLine(a + ")" + b + Pattern + rest) == Found(a + ")" + b + Pattern, "", ")" + b + Pattern + rest)
  {
    var line := a + ")" + b + Pattern + rest;
    var head, tail := a + ")" + b + Pattern, ")" + b + Pattern + rest;
    var i, close := |a| + 1 + |b|, |a|;
    assert Find(line, Pattern) == Some(i) && Find(line, ")") == Some(close) by {
      FindCloseFirst(a, b, rest);
    }
    assert i + 5 < |line| && line[i + 5] == rest[1] &&
      head == Slice(line, 0, i + 4) && "" == Slice(line, i + 4, close) && tail == Slice(line, close, |line|) by {
      SlicesCloseFirst(a, b, rest);
    }
    UnquotedAt(line, i, close, head, "", tail);
  }

  /** What such a line contributes: one resource for the empty URL, and the line from its `)` on written again after the asset path. */
  lemma CloseFirstRendered(a: string, b: string, rest: string)
    requires ')' !in a && 'u' !in a && 'u' !in b
    requires |rest| >= 2 && rest[1] != '\'' && rest[1] != '"'
    ensures LineResources(a + ")" + b + Pattern + rest) == [Resource("", AssetPath(""))]
    ensures LineText(a + ")" + b + Pattern + rest) == a + ")" + b + Pattern + "../" + AssetPath("") + ")" + b + Pattern + rest
  {
    var line := a + ")" + b + Pattern + rest;
    var head, tail := a + ")" + b + Pattern, ")" + b + Pattern + rest;
    var p := AssetPath("");
    RewriteLineCloseFirst(a, b, rest);
    assert LineText(line) == head + "../" + p + tail;
    assert head + "../" + p + tail == a + ")" + b + Pattern + "../" + p + ")" + b + Pattern + rest;
  }

}
